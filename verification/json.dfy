/** The JSON document of a PageSpeed Insights response, as Python's `json`
    module hands it to the app: None, bool, int, float, str, list and dict. */
module Json {
  import opened Options
  import Text

  /** A decoded JSON value. A dict keeps its key/value pairs in document order. */
  datatype Json =
    | Null
    | Bool(b: bool)
    | Int(i: int)
    | Float(x: real)
    | Str(s: string)
    | List(items: seq<Json>)
    | Dict(fields: seq<(string, Json)>)

  /** The value stored under `key`. When a key is repeated, the last pair wins, as
      it does when the json module builds a dict. */
  function Lookup(fields: seq<(string, Json)>, key: string): (r: Option<Json>)
    ensures r.None? <==> forall k :: 0 <= k < |fields| ==> fields[k].0 != key
    ensures r.Some? ==> (key, r.value) in fields
    ensures r.Some? ==> exists k :: 0 <= k < |fields| && fields[k] == (key, r.value) &&
                          forall j :: k < j < |fields| ==> fields[j].0 != key
    decreases |fields|
  {
    if |fields| == 0 then None
    else if fields[|fields| - 1].0 == key then Some(fields[|fields| - 1].1)
    else
      var r := Lookup(fields[..|fields| - 1], key);
      assert forall j :: 0 <= j < |fields| - 1 ==> fields[..|fields| - 1][j] == fields[j];
      r
  }

  /** Python's truth value: None, False, zero, and empty str/list/dict are false. */
  predicate Truthy(v: Json) {
    match v
    case Null => false
    case Bool(b) => b
    case Int(i) => i != 0
    case Float(x) => x != 0.0
    case Str(s) => |s| > 0
    case List(items) => |items| > 0
    case Dict(fields) => |fields| > 0
  }

  /** type(v).__name__, as it appears in Python's exception messages. */
  function TypeName(v: Json): string {
    match v
    case Null => "NoneType"
    case Bool(_) => "bool"
    case Int(_) => "int"
    case Float(_) => "float"
    case Str(_) => "str"
    case List(_) => "list"
    case Dict(_) => "dict"
  }

  /** Values that can be used as a dict key; lists and dicts are unhashable. */
  predicate Hashable(v: Json) {
    !v.List? && !v.Dict?
  }

  /** str(v), the text an f-string interpolates. */
  function Show(v: Json): (r: string)
    ensures v.Str? ==> r == v.s
  {
    if v.Str? then v.s else Repr(v)
  }

  /** repr(v); strings are quoted with single quotes. */
  function Repr(v: Json): string
    decreases v
  {
    match v
    case Null => "None"
    case Bool(b) => if b then "True" else "False"
    case Int(i) => Text.IntText(i)
    case Float(x) => FloatText(x)
    case Str(s) => "'" + s + "'"
    case List(items) =>
      "[" + Text.Join(seq(|items|, k requires 0 <= k < |items| => Repr(items[k])), ", ") + "]"
    case Dict(fields) =>
      "{" + Text.Join(seq(|fields|, k requires 0 <= k < |fields| =>
                            assert fields[k] in fields;
                            "'" + fields[k].0 + "': " + Repr(fields[k].1)), ", ") + "}"
  }

  /** repr of a float: integral part, a point, and the fractional digits (at
      least one, at most 17, trailing zeros dropped). */
  function FloatText(x: real): string {
    if x < 0.0 then "-" + UnsignedFloatText(-x) else UnsignedFloatText(x)
  }

  function UnsignedFloatText(x: real): string
    requires x >= 0.0
  {
    var whole := x.Floor;
    var fraction := DropTrailingZeros(FractionDigits(x - whole as real, 17));
    Text.NatText(whole) + "." + (if fraction == "" then "0" else fraction)
  }

  function FractionDigits(f: real, count: nat): string
    requires 0.0 <= f < 1.0
    decreases count
  {
    if count == 0 || f == 0.0 then ""
    else
      var d := (f * 10.0).Floor;
      [Text.DigitChar(d)] + FractionDigits(f * 10.0 - d as real, count - 1)
  }

  function DropTrailingZeros(s: string): string
    decreases |s|
  {
    if |s| > 0 && s[|s| - 1] == '0' then DropTrailingZeros(s[..|s| - 1]) else s
  }
}
