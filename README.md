# express-skeleton: constraint framework, error taxonomy and user-route rules

This project is a Dafny model of the reusable core of the express-skeleton
repository, with proofs about it:

- **Constraint framework** (`src/decorators.ts`, module `Constraints`). There are four check
  functions (`Range`, `NotNull`, `Unsigned`, `Length`). Each one maps a written value and the
  field name to "pass" or "throw". A decorated property is the class `Constraints.Field`: a
  single storage slot plus the checks attached to it, oldest first. `Attach` appends a check.
  `Set` runs the checks from newest to oldest, stops at the first one that throws, and stores
  the value only when every check passes. `Get` returns the stored value unchanged.
- **Error taxonomy** (`src/api/api.errors.ts`, module `Errors`). This is the immutable triple
  `(statusCode, errorCode, message)`. There are six constructors, each with a fixed status and a
  default message used when the message argument is omitted (`None`).
- **Boundary handler** (`src/api/api.ts`, module `Boundary`). It maps "no error", "some other
  error" and "an `HttpError`" to a response status and the JSON body
  `{"http", "error", "message"}`.
- **User-route rules** (`src/api/users/users.api.ts`, module `UserRoutes`). These are the
  `accessCheck` and `adminCheck` guards, username normalisation and its taken/length gate,
  display-name trimming and its emptiness gate, and the "password valid or admin" gate. The
  routes that use them are modelled as functions of the
  route's bound parameters, the logged-in user, and the answers of the database and password
  comparison, which are inputs.

`JsStrings` models the JavaScript string operations the code uses:

- `toLowerCase`
- `replace` with a string pattern
- `trim`
- the decimal rendering of an integer inside a template literal

`Wrappers` holds `Option`.

Values written to a decorated field are `Missing` (`undefined`), `Null`, `NaN`, `Num(n)` and
`Str(s)`. A check's result is `Pass`, or `Fail` carrying what was thrown: an `HttpError`, or a
foreign error such as the `TypeError` that `Length` throws on `undefined`.

Three points about the code's behaviour:

- The decorator's slot is one closure variable per decorated property (`src/decorators.ts:16`).
  The decorator runs once, on the prototype, so every instance of the declaring class shares
  that slot; it is not per instance. `Field` is that one slot.
- `Length` does not let a missing value through. `undefined.length` throws a `TypeError`, which
  is not an `Http422Error` (`src/decorators.ts:134`).
- Only the three `Range` messages about a present value (not a number, too big, too small) quote that value. The `NotNull` and `Unsigned` messages name only the field; the `Length` message names the field and the bound.

## Model

| member | source | states |
|---|---|---|
| `Constraints.CheckRange` | src/decorators.ts:71-90 | passes exactly null and numbers within [min, max]; every failure is a 422 `HttpError` |
| `Constraints.CheckNotNull` | src/decorators.ts:97-109 | passes exactly the values that are neither missing nor null |
| `Constraints.CheckUnsigned` | src/decorators.ts:111-124 | fails exactly on a negative number; null, missing and NaN pass |
| `Constraints.CheckLength` | src/decorators.ts:126-139 | passes exactly the present values that are not strings longer than the bound; a missing value throws the `TypeError` of reading `.length` of `undefined`, not a 422 |
| `Constraints.Render` | src/decorators.ts:82-86 | `${newValue}`: a number in decimal, undefined/null/NaN by name, a string as itself (`RangeRejectsTooBig`, `RangeRejectsTooSmall`, `RangeNullMissingNaN`) |
| `JsStrings.IntToString` | src/decorators.ts:84-135 | `${min}`, `${max}` and `${length}` in decimal; distinct numbers render distinctly (`IntToStringInjective`) |
| `Constraints.RangeRejectsTooBig` | src/decorators.ts:83-84 | a number above max is rejected with the "too big" message naming the value, the field and both bounds |
| `Constraints.RangeRejectsTooSmall` | src/decorators.ts:85-86 | a number below min (and not above max) is rejected with the "too small" message naming the value, the field and both bounds |
| `Constraints.RangeTooBigWins` | src/decorators.ts:83-86 | when a number is both above max and below min, "too big" is reported |
| `Constraints.RangeNullMissingNaN` | src/decorators.ts:77-82 | null passes `Range`; missing gets the "missing value" 422; NaN gets the "not a number" 422 |
| `Constraints.NotNullMessages` | src/decorators.ts:100-106 | missing and null are rejected with two distinct 422 messages |
| `Constraints.UnsignedRejectsNegative` | src/decorators.ts:114-121 | every negative number gets the "cannot be negative" 422; zero, positives, null and missing pass |
| `Constraints.LengthBound` | src/decorators.ts:129-136 | strings no longer than the bound and null pass; a longer string gets the 422 naming the field and the bound |
| `Constraints.ChecksThrowOnly422` | src/decorators.ts:71-139 | every `HttpError` a check throws has status and code 422; the only other error is `Length` on a missing value |
| `Constraints.RunChain` | src/decorators.ts:20-55 | the chain of setters, newest check first; it only ever raises a 422 `HttpError` or the `Length` TypeError (passing iff every check passes: `ChainPassesIffAllPass`) |
| `Constraints.AttachRunsNewCheckFirst` | src/decorators.ts:20-38 | after one more attachment a write runs the new check first and delegates to the older chain only if it passes |
| `Constraints.ChainPassesIffAllPass` | src/decorators.ts:20-55 | a write passes the chain exactly when every attached check passes it |
| `Constraints.ChainFailureOrigin` | src/decorators.ts:33-36 | a failing chain raises the error of one attached check, and every check attached after that one passed |
| `Constraints.NewestFailureIsReported` | src/decorators.ts:33-36 | conversely, the newest failing check's error is the one raised |
| `Constraints.Field.constructor` | src/decorators.ts:16 | a fresh slot holds `undefined` and no check is attached |
| `Constraints.Field.Attach` | src/decorators.ts:20-55 | appends the check and leaves the stored value as it was |
| `Constraints.Field.Get` | src/decorators.ts:32-49 | the getter returns the slot's value unchanged; `RangeWriteThenRead` and `NotNullAfterRange` read back through it |
| `Constraints.Field.Set` | src/decorators.ts:20-55 | the outcome is the chain run newest first; the value is stored iff every check passes, and a rejected write leaves the slot unchanged |
| `Constraints.RangeWriteThenRead` | src/decorators.ts:49-52 | on a `Range(min, max)` field, writing any n with min ≤ n ≤ max succeeds and a later read returns exactly n |
| `Constraints.NotNullAfterRange` | src/decorators.ts:20-38 | with `NotNull` attached after `Range(1, 10)`, null is rejected with `NotNull`'s message although `Range` alone passes it, and the earlier value stays stored |
| `JsStrings.IntToStringInjective` | src/decorators.ts:84 | distinct numbers render as distinct strings in a message |
| `Errors.GettersReturnConstructorArguments` | src/api/api.errors.ts:7-27 | the three getters return exactly the constructor's arguments |
| `Errors.CallerCodeKindsFixStatus` | src/api/api.errors.ts:37-87 | 401, 403, 404 and 415 fix the status and pass the caller's error code and message through |
| `Errors.DefaultMessages` | src/api/api.errors.ts:39-116 | an omitted message gives each kind's default; 422 and 500 fix the error code equal to the status |
| `Errors.NewHttp401Error` | src/api/api.errors.ts:37-43 | status 401, caller's code, default message when omitted (`CallerCodeKindsFixStatus`, `DefaultMessages`) |
| `Errors.NewHttp403Error` | src/api/api.errors.ts:52-58 | status 403, caller's code, default message when omitted (`CallerCodeKindsFixStatus`, `DefaultMessages`) |
| `Errors.NewHttp404Error` | src/api/api.errors.ts:67-73 | status 404, caller's code, default message when omitted (`CallerCodeKindsFixStatus`, `DefaultMessages`) |
| `Errors.NewHttp415Error` | src/api/api.errors.ts:81-87 | status 415, caller's code, default message when omitted (`CallerCodeKindsFixStatus`, `DefaultMessages`) |
| `Errors.NewHttp422Error` | src/api/api.errors.ts:97-103 | status and code 422, default message when omitted (`DefaultMessages`, `Construct`) |
| `Errors.NewHttp500Error` | src/api/api.errors.ts:112-118 | status and code 500, default message when omitted (`DefaultMessages`, `Construct`) |
| `Errors.Construct` | src/api/api.errors.ts:37-118 | every constructed error has a status in {401, 403, 404, 415, 422, 500}; 422 and 500 have error code = status; the others keep the caller's code; a given message is kept |
| `Errors.StatusIdentifiesKind` | src/api/api.errors.ts:41-116 | two constructed errors have the same status exactly when they are of the same kind |
| `Boundary.Resolve` | src/api/api.ts:14-23 | no error becomes a 404 with code 404 and the "does not exist" message; a foreign error becomes 500/500/"Internal server error."; an `HttpError` is used as it is |
| `Boundary.Serialize` | src/api/api.ts:25-30 | the response status is the error's status, and the body reads back as exactly that error |
| `Boundary.Handle` | src/api/api.ts:12-31 | the response status is that of the resolved error, and the body reads back as the resolved error |
| `Boundary.AbsentErrorIsNotFound` | src/api/api.ts:15 | with no error the response is status 404 with body http 404, error 404, message `Sorry "/api<url>" does not exist.` |
| `Boundary.ForeignErrorIsHidden` | src/api/api.ts:18-21 | a non-`HttpError` gives 500/500/"Internal server error.", the same whatever the error contained and whatever the URL |
| `Boundary.HttpErrorPassesThrough` | src/api/api.ts:23-30 | an `HttpError` is sent with its own status and its body reads back as that error |
| `Boundary.SerializeRoundTrip` | src/api/api.ts:26-30 | the body read back gives the serialized error unchanged |
| `Boundary.ParseBodyExact` | src/api/api.ts:26-30 | a body that reads back as an error is exactly the keys http, error, message in that order with its fields |
| `Boundary.StatusIsHttpField` | src/api/api.ts:25-27 | the response status always equals the body's `http` field, and the body always has exactly the three keys |
| `Boundary.ConstructedErrorsKeepStatusSet` | src/api/api.ts:12-30 | when thrown `HttpError`s come from the six constructors, the response status is one of their six statuses |
| `UserRoutes.ParamUid` | src/api/users/users.api.ts:18 | the parsed value bound under `uid`, and NaN when the route pattern binds no `uid` |
| `UserRoutes.AccessCheck` | src/api/users/users.api.ts:15-36 | NaN or a uid below 1 gets 422 even for admins; next is called iff the uid is valid and the user is its owner or an admin; 403 iff the uid is valid and a logged-in user is neither; without a logged-in user nothing is sent |
| `UserRoutes.AdminCheck` | src/api/users/users.api.ts:41-52 | next is called iff the requester is an admin; a logged-in non-admin gets 403; without a logged-in user nothing is sent |
| `JsStrings.ToLowerCase` | src/api/users/users.api.ts:93 | `toLowerCase` on ASCII letters, character by character and length-preserving (`NormalizeRemovesFirstSpaceOnly`) |
| `UserRoutes.NormalizeUsername` | src/api/users/users.api.ts:93 | lower case with the first space removed (`NormalizeRemovesFirstSpaceOnly`, `NormalizeExample`) |
| `UserRoutes.IsUsernameTaken` | src/api/users/users.model.ts:6-19 | normalises its argument again, then looks the result up among the stored names (`UsernameDuplicateAccepted`) |
| `JsStrings.RemoveFirst` | src/api/users/users.api.ts:93 | `replace` with a one-character string pattern (`RemoveFirstCutsFirstOccurrence`) |
| `UserRoutes.NormalizeRemovesFirstSpaceOnly` | src/api/users/users.api.ts:93 | normalisation lower-cases and cuts out exactly the first space, at the input's first space |
| `UserRoutes.NormalizeExample` | src/api/users/users.api.ts:93 | "A B C" normalises to "ab c" |
| `JsStrings.RemoveFirstCutsFirstOccurrence` | src/api/users/users.api.ts:93 | `replace` with a one-character string pattern removes exactly the first occurrence, or nothing |
| `UserRoutes.ValidUsernameLength` | src/api/users/users.api.ts:98 | a username is valid exactly when its length is 5 to 250 (`UsernameRouteRules`) |
| `UserRoutes.UsernameRoute` | src/api/users/users.api.ts:91-104 | when `accessCheck` does not call next, its answer (or silence) is the route's; a name is set only past the guard; past it, the taken and length gates apply (`UsernameRouteRules`) |
| `UserRoutes.UsernameRouteRules` | src/api/users/users.api.ts:95-103 | a taken name gets 403 (checked first); otherwise a length outside 5-250 gets 403; only otherwise is the normalised name set |
| `UserRoutes.UsernameDuplicateAccepted` | src/api/users/users.api.ts:93-95 | "ab cd e" is stored as "abcd e" although "abcd e" is already stored |
| `UserRoutes.NormalizeUsernameAllSpaces` | src/api/users/users.api.ts:93 | the corrected normalisation leaves no space |
| `UserRoutes.NormalizeAllSpacesIdempotent` | src/api/users/users.api.ts:93 | normalising twice is the same as normalising once |
| `UserRoutes.UsernameRouteCorrectedNoDuplicates` | src/api/users/users.api.ts:91-103 | with the corrected normalisation, a stored username is never one already stored |
| `JsStrings.Trim` | src/api/users/users.api.ts:108 | `trim` over the ECMAScript whitespace and line terminators (`TrimIsSlice`, `TrimEmptyIff`) |
| `JsStrings.TrimIsSlice` | src/api/users/users.api.ts:108 | `trim` keeps one slice; only whitespace is dropped at either end, and a non-empty result neither starts nor ends with whitespace |
| `JsStrings.TrimEmptyIff` | src/api/users/users.api.ts:108-110 | the trimmed string is empty exactly when the input is all whitespace |
| `UserRoutes.DisplaynameIsTrimmedSlice` | src/api/users/users.api.ts:108-110 | the display name is a whitespace-trimmed slice of the input with no whitespace at its ends, and it is empty iff the input is all whitespace |
| `UserRoutes.DisplaynameRoute` | src/api/users/users.api.ts:106-116 | when `accessCheck` does not call next, its answer (or silence) is the route's; a name is set only past the guard; past it, the emptiness gate on the trimmed name applies (`DisplaynameRouteRules`) |
| `UserRoutes.DisplaynameRouteRules` | src/api/users/users.api.ts:106-115 | past the guard, 403 exactly when the name is all whitespace; otherwise the trimmed name is set |
| `UserRoutes.PasswordGate` | src/api/users/users.api.ts:73 | true exactly when the current password verifies or the requester is an admin (`PasswordRouteProceedsIff`, `DeleteRouteCorrectedProceedsIff`) |
| `UserRoutes.PasswordRoute` | src/api/users/users.api.ts:118-135 | a refusal or silence from `accessCheck` is the route's answer; past it, a failed password gate gets 403 WrongPassword; the hash is replaced only when both pass (`PasswordRouteProceedsIff`) |
| `UserRoutes.PasswordRouteProceedsIff` | src/api/users/users.api.ts:118-134 | the password changes iff the guard passes and the current password verifies or the requester is an admin; an owner with a wrong password gets 403 |
| `UserRoutes.DeleteHandler` | src/api/users/users.api.ts:67-82 | on whatever parameters the path binds: a refusal or silence from `accessCheck` is the answer; past it, a failed password gate gets 403 WrongPassword; the user is deleted only when both pass (`DeleteRouteAlwaysRefused`, `DeleteRouteCorrectedProceedsIff`) |
| `UserRoutes.DeleteRoute` | src/api/users/users.api.ts:67 | the handler on the parameters the declared path `/:ui` binds (`DeleteRouteAlwaysRefused`) |
| `UserRoutes.DeleteRouteAlwaysRefused` | src/api/users/users.api.ts:67-68 | as declared, every delete request is answered 422 |
| `UserRoutes.DeleteRouteCorrectedProceedsIff` | src/api/users/users.api.ts:67-81 | with the pattern `/:uid`, the user is deleted iff the guard passes and the current password verifies or the requester is an admin |
| `UserRoutes.AdminRoute` | src/api/users/users.api.ts:84-89 | a refusal or silence from `adminCheck` is the answer; the admin flag is set iff the requester is an admin, on the parsed uid, which is not validated |

## Left out

- Boundary.AbsentErrorIsNotFound: models the function at src/api/api.ts:15 as written. Express calls a four-argument error middleware only when `next` is passed an error, so through Express this branch is never reached; an unmatched route is answered by Express's own default handler, which is not part of this model.
- Database, session, password hashing, logging and the express plumbing (`res.status`, `res.json`, `next`) are I/O. Their results are inputs: `passwordValid`, the set of stored usernames and the logged-in user. The `logging` calls are not modelled.
- `passwordValid` is the result of `auth.compareHashAndPass` (src/auth.ts:84-87). That function compares the typed password without the pepper that `hashPassword` (src/auth.ts:79-82) and registration (src/auth.ts:109) append, so for a stored hash it is false even on the user's real password. The model takes the result as given and does not model the comparison.
- `getUserByID` failing for an unknown uid is not modelled. Route effects name the uid and assume the user exists.
- The success paths call `res.status(204)` and never end the response. `Done` records the change made, not what is sent.
- The response bodies behind `MESSAGE_403` and `MESSAGE_422_INTEGER` come from `src/api/api.messages.ts`, which is not part of this model. Refusals carry a `Reason` tag instead of a body.
- The read-only routes `GET /` and `GET /:uid` are database reads behind the modelled guards.
- A missing `username` or `displayname` in the request body makes `toString()` throw inside an async handler. The model takes the body field as a string.
- `Number.parseInt` is an input: `Option<int>`, with `None` for NaN. Numbers are integers: no fractions, `Infinity` or `-0`.
- IntToString renders every integer in plain decimal. JavaScript renders a number of magnitude 1e21 or more in exponent form ("1e+21"), and integers beyond 2^53 are not exact, so the `Range` messages differ for such values.
- CheckRange: a string is treated as not a number. JavaScript's `isNaN` would coerce a numeric string such as "12" and compare it as a number.
- CheckUnsigned: every string passes. JavaScript would coerce a numeric string such as "-3" and reject it.
- CheckLength: arrays are not a separate value. An array behaves like a string of the same length.
- `toLowerCase` is modelled for ASCII letters only. String lengths count code points, not UTF-16 units.
- Decorator mechanics are not modelled: `Reflect.defineProperty`, a property that has a getter but no setter, and TypeScript class fields that shadow prototype accessors. The chain of delegating getters is collapsed into one read of the slot, which is what it returns.

## Findings

| source | as written | input that shows it | evidently intended | confidence | as-written member | corrected member |
|---|---|---|---|---|---|---|
| src/api/users/users.api.ts:67-68 | The delete route is declared with path `/:ui`. `accessCheck` (line 18) and the handler (line 68) read `req.params['uid']`. | `DELETE /api/users/5` by user 5 with the right password: `uid` is unbound, `parseInt` gives NaN, and the answer is 422 | the route declared as `/:uid` | high; not executed | `UserRoutes.DeleteRouteAlwaysRefused` | `UserRoutes.DeleteRouteCorrectedProceedsIff` |
| src/api/users/users.api.ts:93-95 | Only the first space is removed. `isUsernameTaken` (src/api/users/users.model.ts:10) then normalises again before its lookup. | username "ab cd e" while "abcd e" is stored: the lookup asks for "abcde", finds nothing, and a second "abcd e" is stored | every space removed, so that the lookup key is the stored name | medium (a uniqueness constraint in the database schema, not part of this model, could also catch it); not executed | `UserRoutes.UsernameDuplicateAccepted` | `UserRoutes.UsernameRouteCorrectedNoDuplicates` |

The route functions `DeleteRoute` and `UsernameRoute` follow the code as written.
`DeleteRouteCorrected`, `NormalizeUsernameAllSpaces` and `UsernameRouteCorrected` are the
corrected versions, placed beside them.
