/** The few Python operations the response normaliser applies to decoded JSON,
    with the exceptions they raise on values of the wrong type. */
module Py {
  import opened Json
  import Text

  /** The exceptions these operations can raise, carrying str(e). */
  datatype Exception =
    | AttributeError(message: string)
    | TypeError(message: string)
    | ValueError(message: string)

  /** The outcome of evaluating a Python expression: a value, or a raised exception. */
  datatype Raising<+T> = Returned(value: T) | Raised(exception: Exception) {

    predicate IsFailure() {
      Raised?
    }

    function PropagateFailure<U>(): Raising<U>
      requires Raised?
    {
      Raised(exception)
    }

    function Extract(): T
      requires Returned?
    {
      value
    }
  }

  function NoGetMethod(v: Json): Exception {
    AttributeError("'" + TypeName(v) + "' object has no attribute 'get'")
  }

  /** v.get(key, default): only a dict has a get method. */
  function Get(v: Json, key: string, default: Json): (r: Raising<Json>)
    ensures r.Raised? <==> !v.Dict?
    ensures r.Raised? ==> r.exception.AttributeError?
    ensures r.Returned? ==> r.value == default || (key, r.value) in v.fields
    ensures r.Returned? && r.value != default ==> Lookup(v.fields, key) == Options.Some(r.value)
    ensures v.Dict? && Lookup(v.fields, key).None? ==> r == Returned(default)
    ensures v.Dict? && Lookup(v.fields, key).Some? ==> r == Returned(Lookup(v.fields, key).value)
  {
    if v.Dict? then Returned(Lookup(v.fields, key).GetOr(default)) else Raised(NoGetMethod(v))
  }

  /** What v.get(key, default) yields when it does not raise, and `default` when it
      would; used to state properties of the success path without exceptions. */
  function Field(v: Json, key: string, default: Json): Json {
    match Get(v, key, default)
    case Returned(x) => x
    case Raised(_) => default
  }

  /** d.get(key) for an arbitrary key value. The method is looked up first; the key
      is hashed afterwards. JSON object keys are strings, so a hashable key of any
      other type is simply absent. */
  function GetByKey(d: Json, key: Json): (r: Raising<Json>)
    ensures r.Raised? <==> !d.Dict? || !Hashable(key)
    ensures r.Raised? ==> (r.exception.AttributeError? <==> !d.Dict?)
    ensures r.Raised? && d.Dict? ==> r.exception.TypeError?
    ensures r.Returned? && key.Str? ==> r.value == Lookup(d.fields, key.s).GetOr(Null)
    ensures r.Returned? && !key.Str? ==> r.value == Null
  {
    if !d.Dict? then Raised(NoGetMethod(d))
    else if !Hashable(key) then Raised(TypeError("unhashable type: '" + TypeName(key) + "'"))
    else if key.Str? then Returned(Lookup(d.fields, key.s).GetOr(Null))
    else Returned(Null)
  }

  /** The values a `for` loop over `v` visits: a list's items, a dict's keys, a
      string's characters; anything else is not iterable. */
  function Iterate(v: Json): (r: Raising<seq<Json>>)
    ensures r.Raised? <==> !(v.List? || v.Dict? || v.Str?)
    ensures r.Raised? ==> r.exception.TypeError?
    ensures v.List? ==> r == Returned(v.items)
    ensures v.Dict? || v.Str? ==> forall x :: x in r.value ==> x.Str?
    ensures v.Dict? ==> |r.value| == |v.fields| && forall k :: 0 <= k < |v.fields| ==> r.value[k] == Str(v.fields[k].0)
    ensures v.Str? ==> |r.value| == |v.s| && forall k :: 0 <= k < |v.s| ==> r.value[k] == Str([v.s[k]])
  {
    match v
    case List(items) => Returned(items)
    case Dict(fields) => Returned(seq(|fields|, k requires 0 <= k < |fields| => Str(fields[k].0)))
    case Str(s) => Returned(seq(|s|, k requires 0 <= k < |s| => Str([s[k]])))
    case _ => Raised(TypeError("'" + TypeName(v) + "' object is not iterable"))
  }

  /** v == n for an integer n: ints, floats and bools compare numerically
      (True == 1, False == 0); no other value equals a number. */
  predicate EqualsInt(v: Json, n: int) {
    match v
    case Int(i) => i == n
    case Float(x) => x == n as real
    case Bool(b) => (if b then 1 else 0) == n
    case _ => false
  }

  /** int(x) for a real x: truncation toward zero. */
  function Truncate(x: real): (r: int)
    ensures x >= 0.0 ==> r as real <= x < r as real + 1.0
    ensures x < 0.0 ==> r as real - 1.0 < x <= r as real
  {
    if x >= 0.0 then x.Floor else -((-x).Floor)
  }

  /** CPython's default bound on the number of decimal digits converted between
      int and str (sys.get_int_max_str_digits(), from Python 3.11 on). */
  const MaxStrDigits: nat := 4300

  /** The ValueError text CPython gives when str() of an int would exceed the bound. */
  const TooManyDigitsForStr: string :=
    "Exceeds the limit (4300 digits) for integer string conversion; use sys.set_int_max_str_digits() to increase the limit"

  /** int(v * 100). An int or bool scales exactly; a float is multiplied exactly
      and truncated; a string is repeated 100 times and then parsed, which only
      succeeds for a string of digits no longer than the digit bound (CPython
      quotes at most 200 characters of a rejected text); a list repeats and
      cannot be converted; a dict or None cannot be multiplied. */
  function TimesHundred(v: Json): (r: Raising<int>)
    ensures v.Int? ==> r == Returned(v.i * 100)
    ensures v.Bool? ==> r == Returned(if v.b then 100 else 0)
    ensures v.Float? ==> r.Returned? && r.value as real <= v.x * 100.0 + 1.0
    ensures v.List? || v.Dict? || v.Null? ==> r.Raised? && r.exception.TypeError?
    ensures v.Str? ==> (r.Returned? <==> |v.s| > 0 && Text.AllDigits(v.s) && 100 * |v.s| <= MaxStrDigits)
    ensures v.Str? && r.Raised? ==> r.exception.ValueError?
    ensures v.Str? && r.Returned? ==> Text.ParseInt(Text.Repeat(v.s, 100)) == Options.Some(r.value)
  {
    match v
    case Int(i) => Returned(i * 100)
    case Bool(b) => Returned(if b then 100 else 0)
    case Float(x) => Returned(Truncate(x * 100.0))
    case Str(s) => RepeatedInt(s)
    case List(_) =>
      Raised(TypeError(NotConvertible("list")))
    case _ =>
      Raised(TypeError(UnsupportedTimes(TypeName(v))))
  }

  /** int(s * 100) for a string `s`: the repetition is parsed, which only succeeds
      for a string of digits whose repetition stays within the digit bound. */
  function RepeatedInt(s: string): (r: Raising<int>)
    ensures r.Returned? <==> |s| > 0 && Text.AllDigits(s) && 100 * |s| <= MaxStrDigits
    ensures r.Raised? ==> r.exception.ValueError?
    ensures r.Returned? ==> Text.ParseInt(Text.Repeat(s, 100)) == Options.Some(r.value)
  {
    var repeated := Text.Repeat(s, 100);
    if |s| > 0 && Text.AllDigits(s) then
      if 100 * |s| > MaxStrDigits then
        Raised(ValueError(TooManyDigitsForInt(100 * |s|)))
      else
        RepeatDigits(s, 100);
        Text.ParseIntDigits(repeated);
        Returned(Text.DigitsValue(repeated))
    else Raised(ValueError(InvalidLiteral(repeated)))
  }

  /** int() of a text of `n` digits, past the digit bound. */
  function TooManyDigitsForInt(n: nat): string {
    "Exceeds the limit (4300 digits) for integer string conversion: value has "
      + Text.NatText(n) + " digits; use sys.set_int_max_str_digits() to increase the limit"
  }

  /** int() of a text that is not an integer literal; the text is quoted by its
      repr, of which at most 200 characters are kept. */
  function InvalidLiteral(text: string): string {
    "invalid literal for int() with base 10: " + Text.Take(Repr(Str(text)), 200)
  }

  /** int() of a value of type `typeName` that it cannot convert. */
  function NotConvertible(typeName: string): string {
    "int() argument must be a string, a bytes-like object or a real number, not '" + typeName + "'"
  }

  /** `*` between a value of type `typeName` and an int. */
  function UnsupportedTimes(typeName: string): string {
    "unsupported operand type(s) for *: '" + typeName + "' and 'int'"
  }

  lemma {:induction false} RepeatDigits(s: string, n: nat)
    requires Text.AllDigits(s)
    ensures Text.AllDigits(Text.Repeat(s, n))
    decreases n
  {
    if n > 0 {
      RepeatDigits(s, n - 1);
      var r := Text.Repeat(s, n);
      assert r == s + Text.Repeat(s, n - 1);
      forall k | 0 <= k < |r| ensures Text.IsDigit(r[k]) {
        if k >= |s| {
          assert r[k] == Text.Repeat(s, n - 1)[k - |s|];
        }
      }
    }
  }
}
