/**
 * The access and input rules of the `/api/users` routes: the two guard
 * middlewares, the username and display-name rules, and the password gate.
 * Database lookups and password comparisons are inputs.
 */
module UserRoutes {
  import opened Wrappers
  import opened JsStrings

  /** The logged-in user (`req.user`), as far as the rules look at it. */
  datatype Requester = Requester(id: int, isAdmin: bool)

  /** Why a request was refused; the body sent with it names the reason. */
  datatype Reason = InvalidUid | AccessDenied | UsernameTaken | UsernameInvalid | DisplaynameEmpty | WrongPassword

  /** What a guard middleware does: call `next`, answer, or (after a caught exception) nothing. */
  datatype Gate = Next | Deny(status: int, reason: Reason) | NoResponse

  /** A change a route makes to the stored user `uid`. */
  datatype Effect =
    | DeleteUser(uid: int)
    | SetUsername(uid: int, username: string)
    | SetDisplayname(uid: int, displayname: string)
    | SetPasswordHash(uid: int)
    | SetAdmin(target: Option<int>, admin: bool)

  /** What a route does with a request: refuse it, send nothing, or make its change (status 204). */
  datatype Reply = Refused(status: int, reason: Reason) | Silent | Done(effect: Effect)

  /**
   * Route parameters: each name bound by the route's path pattern, with
   * `Number.parseInt` of its path segment (`None` is NaN).
   */
  type Params = map<string, Option<int>>

  function Bind(name: string, parsed: Option<int>): Params {
    map[name := parsed]
  }

  /** `Number.parseInt(req.params['uid'], 10)`: NaN when the route binds no `uid`. */
  function ParamUid(params: Params): (uid: Option<int>)
    ensures "uid" !in params ==> uid.None?
    ensures "uid" in params ==> uid == params["uid"]
  {
    if "uid" in params then params["uid"] else None
  }

  // ---------------------------------------------------------------------
  // Guards
  // ---------------------------------------------------------------------

  /**
   * `accessCheck`: a uid that is NaN or below 1 is answered 422 whoever
   * asks; otherwise the owner and admins pass and anyone else gets 403.
   * Without a logged-in user, reading `user.id` throws; the exception is
   * caught and logged and nothing is sent.
   */
  function AccessCheck(uid: Option<int>, user: Option<Requester>): (g: Gate)
    ensures g == Deny(422, InvalidUid) <==> uid.None? || uid.value < 1
    ensures g == NoResponse <==> uid.Some? && uid.value >= 1 && user.None?
    ensures g == Next <==>
      uid.Some? && uid.value >= 1 && user.Some? && (user.value.id == uid.value || user.value.isAdmin)
    ensures g.Deny? ==> g == Deny(422, InvalidUid) || g == Deny(403, AccessDenied)
    ensures g == Deny(403, AccessDenied) <==>
      uid.Some? && uid.value >= 1 && user.Some? && user.value.id != uid.value && !user.value.isAdmin
  {
    if uid.None? || uid.value < 1 then Deny(422, InvalidUid)
    else if user.None? then NoResponse
    else if user.value.id == uid.value || user.value.isAdmin then Next
    else Deny(403, AccessDenied)
  }

  /** `adminCheck`: only admins pass; anyone else gets 403. */
  function AdminCheck(user: Option<Requester>): (g: Gate)
    ensures g == Next <==> user.Some? && user.value.isAdmin
    ensures user.Some? && !user.value.isAdmin ==> g == Deny(403, AccessDenied)
    ensures user.None? ==> g == NoResponse
  {
    if user.None? then NoResponse
    else if user.value.isAdmin then Next
    else Deny(403, AccessDenied)
  }

  /** What a route does when its guard stops the request. */
  function Stopped(g: Gate): Reply
    requires g != Next
  {
    if g.Deny? then Refused(g.status, g.reason) else Silent
  }

  /** Delete and password change go ahead when the current password verifies or the requester is an admin. */
  function PasswordGate(passwordValid: bool, isAdmin: bool): bool {
    passwordValid || isAdmin
  }

  // ---------------------------------------------------------------------
  // Username and display name rules
  // ---------------------------------------------------------------------

  /** `toString().toLowerCase().replace(' ', '')`: lower case, first space removed. */
  function NormalizeUsername(raw: string): string {
    RemoveFirst(ToLowerCase(raw), ' ')
  }

  /** `users.isUsernameTaken`: normalises its argument again, then looks it up. */
  function IsUsernameTaken(username: string, existing: set<string>): bool {
    NormalizeUsername(username) in existing
  }

  predicate ValidUsernameLength(username: string) {
    5 <= |username| <= 250
  }

  /** Only the first space goes; every later space stays, and everything else is lower-cased in place. */
  lemma NormalizeRemovesFirstSpaceOnly(raw: string)
    ensures ' ' !in raw ==> NormalizeUsername(raw) == ToLowerCase(raw)
    ensures ' ' in raw ==>
      var i := FirstIndex(raw, ' ');
      NormalizeUsername(raw) == ToLowerCase(raw)[..i] + ToLowerCase(raw)[i + 1..]
  {
    var lower := ToLowerCase(raw);
    assert forall k :: 0 <= k < |raw| ==> (lower[k] == ' ' <==> raw[k] == ' ');
    RemoveFirstCutsFirstOccurrence(lower, ' ');
    if ' ' in raw {
      var i := FirstIndex(raw, ' ');
      assert lower[i] == ' ';
    }
  }

  lemma NormalizeExample()
    ensures NormalizeUsername("A B C") == "ab c"
  {
  }

  /** The trimmed display name: nothing but whitespace is cut, and only at its ends. */
  lemma DisplaynameIsTrimmedSlice(raw: string) returns (i: nat, j: nat)
    ensures i <= j <= |raw| && Trim(raw) == raw[i..j]
    ensures forall k :: 0 <= k < i ==> IsJsWhitespace(raw[k])
    ensures forall k :: j <= k < |raw| ==> IsJsWhitespace(raw[k])
    ensures |Trim(raw)| < 1 <==> forall k :: 0 <= k < |raw| ==> IsJsWhitespace(raw[k])
    ensures |Trim(raw)| >= 1 ==> !IsJsWhitespace(Trim(raw)[0]) && !IsJsWhitespace(Trim(raw)[|Trim(raw)| - 1])
  {
    i, j := TrimIsSlice(raw);
    TrimEmptyIff(raw);
  }

  // ---------------------------------------------------------------------
  // The guarded routes
  // ---------------------------------------------------------------------

  /** The path parameter each route binds. The delete route is declared as `/:ui`. */
  const DeleteParamName := "ui"
  const UidParamName := "uid"

  /** `DELETE` behind `accessCheck`, on whatever parameters its path pattern binds. */
  function DeleteHandler(params: Params, user: Option<Requester>, passwordValid: bool): (r: Reply)
    ensures AccessCheck(ParamUid(params), user) != Next ==> r == Stopped(AccessCheck(ParamUid(params), user))
    ensures AccessCheck(ParamUid(params), user) == Next && !PasswordGate(passwordValid, user.value.isAdmin) ==>
      r == Refused(403, WrongPassword)
    ensures r.Done? ==> AccessCheck(ParamUid(params), user) == Next && PasswordGate(passwordValid, user.value.isAdmin)
  {
    var uid := ParamUid(params);
    var g := AccessCheck(uid, user);
    if g != Next then Stopped(g)
    else if PasswordGate(passwordValid, user.value.isAdmin) then Done(DeleteUser(uid.value))
    else Refused(403, WrongPassword)
  }

  /** `DELETE /:ui`, as declared. */
  function DeleteRoute(parsed: Option<int>, user: Option<Requester>, passwordValid: bool): Reply {
    DeleteHandler(Bind(DeleteParamName, parsed), user, passwordValid)
  }

  /** As declared, the delete route never reaches its handler: `uid` is unbound, so NaN, so 422. */
  lemma DeleteRouteAlwaysRefused(parsed: Option<int>, user: Option<Requester>, passwordValid: bool)
    ensures DeleteRoute(parsed, user, passwordValid) == Refused(422, InvalidUid)
  {
  }

  /** `DELETE /:uid`, the pattern the handler reads. */
  function DeleteRouteCorrected(parsed: Option<int>, user: Option<Requester>, passwordValid: bool): Reply {
    DeleteHandler(Bind(UidParamName, parsed), user, passwordValid)
  }

  lemma DeleteRouteCorrectedProceedsIff(parsed: Option<int>, user: Option<Requester>, passwordValid: bool)
    ensures DeleteRouteCorrected(parsed, user, passwordValid).Done? <==>
      parsed.Some? && parsed.value >= 1 && user.Some? &&
      (user.value.id == parsed.value || user.value.isAdmin) &&
      (passwordValid || user.value.isAdmin)
    ensures DeleteRouteCorrected(parsed, user, passwordValid).Done? ==>
      DeleteRouteCorrected(parsed, user, passwordValid).effect == DeleteUser(parsed.value)
  {
  }

  /** `PUT /:uid/password` */
  function PasswordRoute(parsed: Option<int>, user: Option<Requester>, passwordValid: bool): (r: Reply)
    ensures AccessCheck(ParamUid(Bind(UidParamName, parsed)), user) != Next ==>
      r == Stopped(AccessCheck(ParamUid(Bind(UidParamName, parsed)), user))
    ensures (AccessCheck(ParamUid(Bind(UidParamName, parsed)), user) == Next &&
             !PasswordGate(passwordValid, user.value.isAdmin)) ==> r == Refused(403, WrongPassword)
    ensures r.Done? ==>
      AccessCheck(ParamUid(Bind(UidParamName, parsed)), user) == Next && PasswordGate(passwordValid, user.value.isAdmin)
  {
    var uid := ParamUid(Bind(UidParamName, parsed));
    var g := AccessCheck(uid, user);
    if g != Next then Stopped(g)
    else if PasswordGate(passwordValid, user.value.isAdmin) then Done(SetPasswordHash(uid.value))
    else Refused(403, WrongPassword)
  }

  lemma PasswordRouteProceedsIff(parsed: Option<int>, user: Option<Requester>, passwordValid: bool)
    ensures PasswordRoute(parsed, user, passwordValid).Done? <==>
      parsed.Some? && parsed.value >= 1 && user.Some? &&
      (user.value.id == parsed.value || user.value.isAdmin) &&
      (passwordValid || user.value.isAdmin)
    ensures PasswordRoute(parsed, user, passwordValid).Done? ==>
      PasswordRoute(parsed, user, passwordValid).effect == SetPasswordHash(parsed.value)
    ensures (parsed.Some? && parsed.value >= 1 && user.Some? && user.value.id == parsed.value &&
             !user.value.isAdmin && !passwordValid) ==>
      PasswordRoute(parsed, user, passwordValid) == Refused(403, WrongPassword)
  {
  }

  /** `PUT /:uid/username`; `existing` holds the usernames already stored. */
  function UsernameRoute(parsed: Option<int>, user: Option<Requester>, raw: string, existing: set<string>): (r: Reply)
    ensures AccessCheck(ParamUid(Bind(UidParamName, parsed)), user) != Next ==>
      r == Stopped(AccessCheck(ParamUid(Bind(UidParamName, parsed)), user))
    ensures r.Done? ==> AccessCheck(ParamUid(Bind(UidParamName, parsed)), user) == Next
  {
    var uid := ParamUid(Bind(UidParamName, parsed));
    var g := AccessCheck(uid, user);
    if g != Next then Stopped(g)
    else
      var username := NormalizeUsername(raw);
      if IsUsernameTaken(username, existing) then Refused(403, UsernameTaken)
      else if !ValidUsernameLength(username) then Refused(403, UsernameInvalid)
      else Done(SetUsername(uid.value, username))
  }

  /** Taken is checked before length; a name is stored only when it is neither. */
  lemma UsernameRouteRules(parsed: Option<int>, user: Option<Requester>, raw: string, existing: set<string>)
    requires AccessCheck(ParamUid(Bind(UidParamName, parsed)), user) == Next
    ensures IsUsernameTaken(NormalizeUsername(raw), existing) ==>
      UsernameRoute(parsed, user, raw, existing) == Refused(403, UsernameTaken)
    ensures !IsUsernameTaken(NormalizeUsername(raw), existing) && !ValidUsernameLength(NormalizeUsername(raw)) ==>
      UsernameRoute(parsed, user, raw, existing) == Refused(403, UsernameInvalid)
    ensures UsernameRoute(parsed, user, raw, existing).Done? <==>
      !IsUsernameTaken(NormalizeUsername(raw), existing) && ValidUsernameLength(NormalizeUsername(raw))
    ensures UsernameRoute(parsed, user, raw, existing).Done? ==>
      UsernameRoute(parsed, user, raw, existing).effect == SetUsername(parsed.value, NormalizeUsername(raw))
  {
  }

  /**
   * Because the taken-check normalises a second time, a name with two
   * spaces is looked up without its second space, and a duplicate of a
   * stored name gets stored.
   */
  lemma UsernameDuplicateAccepted()
    ensures NormalizeUsername("ab cd e") == "abcd e"
    ensures UsernameRoute(Some(1), Some(Requester(1, false)), "ab cd e", {"abcd e"}) ==
      Done(SetUsername(1, "abcd e"))
  {
    assert ToLowerCase("ab cd e") == "ab cd e";
    assert RemoveFirst("ab cd e", ' ') == "abcd e" by {
      assert RemoveFirst(" cd e", ' ') == "cd e";
    }
    assert ToLowerCase("abcd e") == "abcd e";
    assert RemoveFirst("abcd e", ' ') == "abcde" by {
      assert RemoveFirst(" e", ' ') == "e";
      assert RemoveFirst("d e", ' ') == "de";
      assert RemoveFirst("cd e", ' ') == "cde";
    }
    assert "abcde" != "abcd e" by { assert |"abcde"| != |"abcd e"|; }
  }

  /** Lower case with every space removed: normalising twice is normalising once. */
  function NormalizeUsernameAllSpaces(raw: string): (name: string)
    ensures ' ' !in name
  {
    RemoveAllLeavesNone(ToLowerCase(raw), ' ');
    RemoveAll(ToLowerCase(raw), ' ')
  }

  lemma ToLowerCaseIdempotent(s: string)
    ensures ToLowerCase(ToLowerCase(s)) == ToLowerCase(s)
  {
  }

  lemma {:induction false} RemoveAllKeepsLower(s: string)
    requires ToLowerCase(s) == s
    ensures ToLowerCase(RemoveAll(s, ' ')) == RemoveAll(s, ' ')
  {
    if s != [] {
      assert ToLowerCase(s[1..]) == s[1..] by {
        forall k | 0 <= k < |s[1..]| ensures ToLowerCase(s[1..])[k] == s[1..][k] {
          assert ToLowerCase(s)[k + 1] == s[k + 1];
        }
      }
      RemoveAllKeepsLower(s[1..]);
      if s[0] != ' ' {
        var rest := RemoveAll(s[1..], ' ');
        assert ToLowerCase(s)[0] == s[0];
        assert ToLowerCase([s[0]] + rest) == [s[0]] + rest by {
          forall k | 0 <= k < |rest| + 1 ensures ToLowerCase([s[0]] + rest)[k] == ([s[0]] + rest)[k] {
            if k > 0 {
              assert ToLowerCase(rest)[k - 1] == rest[k - 1];
            }
          }
        }
      }
    }
  }

  lemma NormalizeAllSpacesIdempotent(raw: string)
    ensures NormalizeUsernameAllSpaces(NormalizeUsernameAllSpaces(raw)) == NormalizeUsernameAllSpaces(raw)
  {
    var name := NormalizeUsernameAllSpaces(raw);
    ToLowerCaseIdempotent(raw);
    RemoveAllKeepsLower(ToLowerCase(raw));
    RemoveAllIdempotent(ToLowerCase(raw), ' ');
    assert ToLowerCase(name) == name;
  }

  /** The username route with all spaces removed, both when storing and when looking up. */
  function UsernameRouteCorrected(parsed: Option<int>, user: Option<Requester>, raw: string, existing: set<string>): Reply {
    var uid := ParamUid(Bind(UidParamName, parsed));
    var g := AccessCheck(uid, user);
    if g != Next then Stopped(g)
    else
      var username := NormalizeUsernameAllSpaces(raw);
      if NormalizeUsernameAllSpaces(username) in existing then Refused(403, UsernameTaken)
      else if !ValidUsernameLength(username) then Refused(403, UsernameInvalid)
      else Done(SetUsername(uid.value, username))
  }

  /** With idempotent normalisation, a stored username is never one already taken. */
  lemma UsernameRouteCorrectedNoDuplicates(parsed: Option<int>, user: Option<Requester>, raw: string, existing: set<string>)
    ensures UsernameRouteCorrected(parsed, user, raw, existing).Done? ==>
      UsernameRouteCorrected(parsed, user, raw, existing).effect.SetUsername? &&
      UsernameRouteCorrected(parsed, user, raw, existing).effect.username !in existing
  {
    NormalizeAllSpacesIdempotent(raw);
  }

  /** `PUT /:uid/displayname` */
  function DisplaynameRoute(parsed: Option<int>, user: Option<Requester>, raw: string): (r: Reply)
    ensures AccessCheck(ParamUid(Bind(UidParamName, parsed)), user) != Next ==>
      r == Stopped(AccessCheck(ParamUid(Bind(UidParamName, parsed)), user))
    ensures r.Done? ==> AccessCheck(ParamUid(Bind(UidParamName, parsed)), user) == Next
  {
    var uid := ParamUid(Bind(UidParamName, parsed));
    var g := AccessCheck(uid, user);
    if g != Next then Stopped(g)
    else
      var displayname := Trim(raw);
      if |displayname| < 1 then Refused(403, DisplaynameEmpty)
      else Done(SetDisplayname(uid.value, displayname))
  }

  /** A display name is refused exactly when it is all whitespace; otherwise its trimmed form is stored. */
  lemma DisplaynameRouteRules(parsed: Option<int>, user: Option<Requester>, raw: string)
    requires AccessCheck(ParamUid(Bind(UidParamName, parsed)), user) == Next
    ensures DisplaynameRoute(parsed, user, raw) == Refused(403, DisplaynameEmpty) <==>
      forall k :: 0 <= k < |raw| ==> IsJsWhitespace(raw[k])
    ensures !(forall k :: 0 <= k < |raw| ==> IsJsWhitespace(raw[k])) ==>
      DisplaynameRoute(parsed, user, raw) == Done(SetDisplayname(parsed.value, Trim(raw)))
    ensures DisplaynameRoute(parsed, user, raw).Done? ==>
      DisplaynameRoute(parsed, user, raw).effect == SetDisplayname(parsed.value, Trim(raw)) &&
      !IsJsWhitespace(Trim(raw)[0]) && !IsJsWhitespace(Trim(raw)[|Trim(raw)| - 1])
  {
    var i, j := DisplaynameIsTrimmedSlice(raw);
  }

  /** `PUT /:uid/admin` behind `adminCheck`; the uid is not validated. */
  function AdminRoute(parsed: Option<int>, user: Option<Requester>, adminIsTrue: bool): (r: Reply)
    ensures r.Done? <==> user.Some? && user.value.isAdmin
    ensures r.Done? ==> r.effect == SetAdmin(parsed, adminIsTrue)
    ensures AdminCheck(user) != Next ==> r == Stopped(AdminCheck(user))
  {
    var g := AdminCheck(user);
    if g != Next then Stopped(g)
    else Done(SetAdmin(ParamUid(Bind(UidParamName, parsed)), adminIsTrue))
  }
}
