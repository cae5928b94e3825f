/**
 * The field-constraint framework: four check functions and a decorated
 * field whose setter runs every attached check, newest first, and stores
 * the written value only when none of them throws.
 */
module Constraints {
  import opened Wrappers
  import opened Errors
  import opened JsStrings

  /** The values a decorated field can be written with. */
  datatype Value = Missing | Null | NaN | Num(n: int) | Str(s: string)

  /** What a check or a setter does: return normally, or throw. */
  datatype Outcome = Pass | Fail(thrown: Thrown)

  /** `${v}` in a template literal. */
  function Render(v: Value): string {
    match v
    case Missing => "undefined"
    case Null => "null"
    case NaN => "NaN"
    case Num(n) => IntToString(n)
    case Str(s) => s
  }

  /** Throwing `new Http422Error(message)`. */
  function Unprocessable(message: string): (o: Outcome)
    ensures o.Fail? && o.thrown.Http? && o.thrown.error == HttpError(422, 422, message)
  {
    Fail(Http(NewHttp422Error(Some(message))))
  }

  /** What reading `.length` of `undefined` throws. */
  const LengthOfUndefined := Foreign("TypeError: Cannot read properties of undefined (reading 'length')")

  // ---------------------------------------------------------------------
  // Messages
  // ---------------------------------------------------------------------

  function MissingMessage(key: string): string {
    "Request is missing value for property '" + key + "'."
  }

  function NotANumberMessage(v: Value, key: string): string {
    "Value '" + Render(v) + "' for property '" + key + "' is not a number"
  }

  function TooBigMessage(v: Value, key: string, min: int, max: int): string {
    "Value '" + Render(v) + "' is too big for '" + key + "' please use a value between " +
    IntToString(min) + "-" + IntToString(max) + "."
  }

  function TooSmallMessage(v: Value, key: string, min: int, max: int): string {
    "Value '" + Render(v) + "' is too small for '" + key + "' please use a value between " +
    IntToString(min) + "-" + IntToString(max) + "."
  }

  function NullMessage(key: string): string {
    "Property '" + key + "' cannot be null."
  }

  function NegativeMessage(key: string): string {
    "Property '" + key + "' cannot be negative."
  }

  function TooLongMessage(key: string, length: int): string {
    "Property '" + key + "' cannot be longer than '" + IntToString(length) + "'."
  }

  // ---------------------------------------------------------------------
  // The four checks
  // ---------------------------------------------------------------------

  /** `Range(min, max)`: null passes; missing, not-a-number and out-of-range values throw 422. */
  function CheckRange(min: int, max: int, v: Value, key: string): (o: Outcome)
    ensures o == Pass <==> v == Null || (v.Num? && min <= v.n <= max)
    ensures o.Fail? ==> o.thrown.Http? && o.thrown.error.statusCode == 422
  {
    if v == Null then Pass
    else if v == Missing then Unprocessable(MissingMessage(key))
    else if !v.Num? then Unprocessable(NotANumberMessage(v, key))
    else if v.n > max then Unprocessable(TooBigMessage(v, key, min, max))
    else if v.n < min then Unprocessable(TooSmallMessage(v, key, min, max))
    else Pass
  }

  /** `NotNull()`: only missing and null throw, each with its own message. */
  function CheckNotNull(v: Value, key: string): (o: Outcome)
    ensures o == Pass <==> v != Missing && v != Null
  {
    if v == Missing then Unprocessable(MissingMessage(key))
    else if v == Null then Unprocessable(NullMessage(key))
    else Pass
  }

  /** `Unsigned()`: only a negative number throws. */
  function CheckUnsigned(v: Value, key: string): (o: Outcome)
    ensures o == Pass <==> !(v.Num? && v.n < 0)
  {
    if v == Null then Pass
    else if v.Num? && v.n < 0 then Unprocessable(NegativeMessage(key))
    else Pass
  }

  /**
   * `Length(length)`: null passes and a string longer than `length` throws
   * 422. Missing is not special-cased: reading its `.length` throws a
   * TypeError. A number has no `.length`, and `undefined > length` is false.
   */
  function CheckLength(length: int, v: Value, key: string): (o: Outcome)
    ensures o == Pass <==> v != Missing && !(v.Str? && |v.s| > length)
    ensures v == Missing ==> o == Fail(LengthOfUndefined)
  {
    if v == Null then Pass
    else if v == Missing then Fail(LengthOfUndefined)
    else if v.Str? && |v.s| > length then Unprocessable(TooLongMessage(key, length))
    else Pass
  }

  /** A built-in constraint with its parameters. */
  datatype Check = Range(min: int, max: int) | NotNull | Unsigned | Length(length: int)

  function Run(c: Check, v: Value, key: string): Outcome {
    match c
    case Range(min, max) => CheckRange(min, max, v, key)
    case NotNull => CheckNotNull(v, key)
    case Unsigned => CheckUnsigned(v, key)
    case Length(length) => CheckLength(length, v, key)
  }

  // ---------------------------------------------------------------------
  // Chains of checks
  // ---------------------------------------------------------------------

  /**
   * The setter installed by the last of `checks`: run that check, and if it
   * passes delegate to the setter installed before it.
   */
  function RunChain(checks: seq<Check>, v: Value, key: string): (r: Outcome)
    ensures r == Pass || r == Fail(LengthOfUndefined) ||
      (r.thrown.Http? && r.thrown.error.statusCode == 422 && r.thrown.error.errorCode == 422)
    decreases |checks|
  {
    if checks == [] then Pass
    else
      var newest := Run(checks[|checks| - 1], v, key);
      if newest.Fail? then newest else RunChain(checks[..|checks| - 1], v, key)
  }

  /** Attaching one more check puts it in front of the chain already there. */
  lemma AttachRunsNewCheckFirst(checks: seq<Check>, c: Check, v: Value, key: string)
    ensures RunChain(checks + [c], v, key) ==
      if Run(c, v, key).Fail? then Run(c, v, key) else RunChain(checks, v, key)
  {
  }

  /** A write passes the chain exactly when it passes every check on it. */
  lemma {:induction false} ChainPassesIffAllPass(checks: seq<Check>, v: Value, key: string)
    ensures RunChain(checks, v, key) == Pass <==>
      forall i :: 0 <= i < |checks| ==> Run(checks[i], v, key) == Pass
  {
    if checks != [] {
      var init := checks[..|checks| - 1];
      ChainPassesIffAllPass(init, v, key);
      assert forall i :: 0 <= i < |init| ==> init[i] == checks[i];
    }
  }

  /** The check whose error a failing chain reports: the newest check that fails. */
  lemma {:induction false} ChainFailureOrigin(checks: seq<Check>, v: Value, key: string) returns (i: nat)
    requires RunChain(checks, v, key).Fail?
    ensures i < |checks| && Run(checks[i], v, key) == RunChain(checks, v, key)
    ensures forall j :: i < j < |checks| ==> Run(checks[j], v, key) == Pass
  {
    var last := |checks| - 1;
    if Run(checks[last], v, key).Fail? {
      i := last;
    } else {
      var init := checks[..last];
      i := ChainFailureOrigin(init, v, key);
      assert init[i] == checks[i];
      forall j | i < j < |checks| ensures Run(checks[j], v, key) == Pass {
        if j < last {
          assert init[j] == checks[j];
        }
      }
    }
  }

  /** Conversely, when the newest failing check is at `i`, that check's error is raised. */
  lemma {:induction false} NewestFailureIsReported(checks: seq<Check>, v: Value, key: string, i: nat)
    requires i < |checks| && Run(checks[i], v, key).Fail?
    requires forall j :: i < j < |checks| ==> Run(checks[j], v, key) == Pass
    ensures RunChain(checks, v, key) == Run(checks[i], v, key)
  {
    var last := |checks| - 1;
    if i < last {
      var init := checks[..last];
      assert init[i] == checks[i];
      assert forall j :: i < j < |init| ==> init[j] == checks[j];
      NewestFailureIsReported(init, v, key, i);
    }
  }

  // ---------------------------------------------------------------------
  // The decorated field
  // ---------------------------------------------------------------------

  /**
   * One decorated property: the closure slot that holds its value and the
   * checks attached to it, oldest first.
   */
  class Field {
    const key: string
    var checks: seq<Check>
    var value: Value

    /** A property not yet decorated; its slot starts out `undefined`. */
    constructor (key: string)
      ensures this.key == key && checks == [] && value == Missing
    {
      this.key := key;
      checks := [];
      value := Missing;
    }

    /** Applying one more constraint decorator to the property. */
    method Attach(c: Check)
      modifies this
      ensures checks == old(checks) + [c]
      ensures value == old(value)
    {
      checks := checks + [c];
    }

    /** The getter: every wrapper passes the slot's value through unchanged. */
    function Get(): Value
      reads this
    {
      value
    }

    /**
     * The setter: the checks run newest first; the first to throw ends the
     * write, and only a write that passes them all reaches the slot.
     */
    method Set(v: Value) returns (outcome: Outcome)
      modifies this
      ensures checks == old(checks)
      ensures outcome == RunChain(checks, v, key)
      ensures value == if outcome == Pass then v else old(value)
    {
      var i := |checks|;
      outcome := Pass;
      assert checks[..i] == checks;
      while i > 0 && outcome == Pass
        invariant 0 <= i <= |checks|
        invariant outcome == Pass ==> RunChain(checks, v, key) == RunChain(checks[..i], v, key)
        invariant outcome != Pass ==> outcome == RunChain(checks, v, key)
        decreases i
      {
        assert checks[..i][..i - 1] == checks[..i - 1];
        outcome := Run(checks[i - 1], v, key);
        i := i - 1;
      }
      if outcome == Pass {
        value := v;
      }
    }
  }

  /** A `Range(min, max)` field accepts any number between its bounds and reads it back. */
  method RangeWriteThenRead(min: int, max: int, n: int, key: string) returns (outcome: Outcome, read: Value)
    requires min <= n <= max
    ensures outcome == Pass && read == Num(n)
  {
    var field := new Field(key);
    field.Attach(Range(min, max));
    outcome := field.Set(Num(n));
    read := field.Get();
  }

  /**
   * `NotNull` attached after `Range(1, 10)` rejects null with its own
   * message, although `Range` alone lets null through; the slot keeps the
   * value stored before.
   */
  method NotNullAfterRange(key: string) returns (outcome: Outcome, read: Value)
    ensures CheckRange(1, 10, Null, key) == Pass
    ensures outcome == Unprocessable(NullMessage(key))
    ensures read == Num(5)
  {
    var field := new Field(key);
    field.Attach(Range(1, 10));
    field.Attach(NotNull);
    assert field.checks == [Range(1, 10), NotNull];
    assert field.checks[..1] == [Range(1, 10)];
    assert [Range(1, 10)][..0] == [];
    assert RunChain([Range(1, 10)], Num(5), key) == Pass;
    var first := field.Set(Num(5));
    assert first == Pass;
    outcome := field.Set(Null);
    read := field.Get();
  }

  // ---------------------------------------------------------------------
  // Properties of the individual checks
  // ---------------------------------------------------------------------

  lemma RangeRejectsTooBig(min: int, max: int, n: int, key: string)
    requires n > max
    ensures CheckRange(min, max, Num(n), key) == Unprocessable(TooBigMessage(Num(n), key, min, max))
    ensures TooBigMessage(Num(n), key, min, max) ==
      "Value '" + IntToString(n) + "' is too big for '" + key + "' please use a value between " +
      IntToString(min) + "-" + IntToString(max) + "."
  {
  }

  lemma RangeRejectsTooSmall(min: int, max: int, n: int, key: string)
    requires n < min && n <= max
    ensures CheckRange(min, max, Num(n), key) == Unprocessable(TooSmallMessage(Num(n), key, min, max))
    ensures TooSmallMessage(Num(n), key, min, max) ==
      "Value '" + IntToString(n) + "' is too small for '" + key + "' please use a value between " +
      IntToString(min) + "-" + IntToString(max) + "."
  {
  }

  /** With empty bounds (`min > max`) a number can fail both tests; "too big" is reported. */
  lemma RangeTooBigWins(min: int, max: int, n: int, key: string)
    requires n > max && n < min
    ensures CheckRange(min, max, Num(n), key) == Unprocessable(TooBigMessage(Num(n), key, min, max))
  {
  }

  lemma RangeNullMissingNaN(min: int, max: int, key: string)
    ensures CheckRange(min, max, Null, key) == Pass
    ensures CheckRange(min, max, Missing, key) == Unprocessable("Request is missing value for property '" + key + "'.")
    ensures CheckRange(min, max, NaN, key) == Unprocessable("Value 'NaN' for property '" + key + "' is not a number")
  {
  }

  lemma NotNullMessages(key: string)
    ensures CheckNotNull(Missing, key) == Unprocessable("Request is missing value for property '" + key + "'.")
    ensures CheckNotNull(Null, key) == Unprocessable("Property '" + key + "' cannot be null.")
    ensures CheckNotNull(Missing, key) != CheckNotNull(Null, key)
  {
  }

  lemma UnsignedRejectsNegative(n: int, key: string)
    ensures n < 0 ==> CheckUnsigned(Num(n), key) == Unprocessable("Property '" + key + "' cannot be negative.")
    ensures n >= 0 ==> CheckUnsigned(Num(n), key) == Pass
    ensures CheckUnsigned(Null, key) == Pass && CheckUnsigned(Missing, key) == Pass
  {
  }

  lemma LengthBound(length: int, s: string, key: string)
    ensures |s| <= length ==> CheckLength(length, Str(s), key) == Pass
    ensures |s| > length ==> (CheckLength(length, Str(s), key) ==
      Unprocessable("Property '" + key + "' cannot be longer than '" + IntToString(length) + "'."))
    ensures CheckLength(length, Null, key) == Pass
  {
  }

  /** Every error a check throws, other than the TypeError of `Length`, is a 422. */
  lemma ChecksThrowOnly422(c: Check, v: Value, key: string)
    ensures Run(c, v, key).Fail? && Run(c, v, key).thrown.Http? ==>
      Run(c, v, key).thrown.error.statusCode == 422 &&
      Run(c, v, key).thrown.error.errorCode == 422
    ensures Run(c, v, key).Fail? && !Run(c, v, key).thrown.Http? ==>
      c.Length? && v == Missing
  {
  }
}
