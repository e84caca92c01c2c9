/** String helpers with the meaning Python gives them: str.isspace, str.strip,
    str.startswith, str.split(sep)[0], slicing, repetition, str(int) and int(str). */
module Text {
  import opened Options

  /** Python's str.isspace() on one character: ASCII whitespace, the information
      separators U+001C..U+001F, NEL, NBSP and the Unicode space separators. */
  predicate IsSpace(c: char) {
    var n := c as int;
    || n == 0x20 || 0x09 <= n <= 0x0D || 0x1C <= n <= 0x1F || n == 0x85 || n == 0xA0
    || n == 0x1680 || 0x2000 <= n <= 0x200A || n == 0x2028 || n == 0x2029
    || n == 0x202F || n == 0x205F || n == 0x3000
  }

  predicate AllSpace(s: string) {
    forall k :: 0 <= k < |s| ==> IsSpace(s[k])
  }

  /** The number of whitespace characters `s` starts with. */
  function Lead(s: string): (n: nat)
    ensures n <= |s|
    ensures forall k :: 0 <= k < n ==> IsSpace(s[k])
    ensures n < |s| ==> !IsSpace(s[n])
    decreases |s|
  {
    if |s| > 0 && IsSpace(s[0]) then 1 + Lead(s[1..]) else 0
  }

  /** The number of whitespace characters `s` ends with. */
  function Trail(s: string): (n: nat)
    ensures n <= |s|
    ensures forall k :: |s| - n <= k < |s| ==> IsSpace(s[k])
    ensures n < |s| ==> !IsSpace(s[|s| - n - 1])
    decreases |s|
  {
    if |s| > 0 && IsSpace(s[|s| - 1]) then 1 + Trail(s[..|s| - 1]) else 0
  }

  /** str.lstrip(): `s` without its leading whitespace. */
  function TrimStart(s: string): string {
    s[Lead(s)..]
  }

  /** str.rstrip(): `s` without its trailing whitespace. */
  function TrimEnd(s: string): string {
    s[..|s| - Trail(s)]
  }

  /** str.strip(): `s` without surrounding whitespace. It is empty exactly when
      `s` is blank, and otherwise starts and ends with a non-space character. */
  function Strip(s: string): (r: string)
    ensures |r| <= |s|
    ensures r == [] <==> AllSpace(s)
    ensures |r| > 0 ==> !IsSpace(r[0]) && !IsSpace(r[|r| - 1])
  {
    var t := TrimStart(s);
    assert |t| > 0 ==> t[0] == s[Lead(s)];
    assert AllSpace(t) ==> Lead(s) == |s|;
    TrimEnd(t)
  }

  /** strip() keeps a contiguous slice of `s`: what precedes it (the leading
      whitespace) and what follows it are all whitespace. */
  lemma StripSlice(s: string)
    ensures var r := Strip(s); var i := Lead(s);
            && i + |r| <= |s| && r == s[i..i + |r|]
            && AllSpace(s[..i]) && AllSpace(s[i + |r|..])
  {
    StripIsSlice(s);
    StripFollowedByBlank(s);
  }

  lemma StripIsSlice(s: string)
    ensures Lead(s) + |Strip(s)| <= |s| && Strip(s) == s[Lead(s)..Lead(s) + |Strip(s)|]
  {
    var i := Lead(s);
    var t := s[i..];
    var m := |t| - Trail(t);
    assert Strip(s) == t[..m];
    TakeOfDrop(s, i, m);
  }

  /** The first `m` elements of s[i..] are s[i..i + m]. */
  lemma TakeOfDrop<T>(s: seq<T>, i: nat, m: nat)
    requires i + m <= |s|
    ensures s[i..][..m] == s[i..i + m]
  {
  }

  lemma StripFollowedByBlank(s: string)
    ensures Lead(s) + |Strip(s)| <= |s| && AllSpace(s[Lead(s) + |Strip(s)|..])
  {
    var i := Lead(s);
    var t := s[i..];
    var m := |t| - Trail(t);
    assert |Strip(s)| == m;
    DropOfDrop(s, i, m);
  }

  /** Dropping `i` and then `m` elements drops `i + m`. */
  lemma DropOfDrop<T>(s: seq<T>, i: nat, m: nat)
    requires i + m <= |s|
    ensures s[i..][m..] == s[i + m..]
  {
  }

  /** A string that neither starts nor ends with whitespace is left alone by strip(). */
  lemma StripFixed(s: string)
    requires |s| == 0 || (!IsSpace(s[0]) && !IsSpace(s[|s| - 1]))
    ensures Strip(s) == s
  {
  }

  /** strip() is idempotent. */
  lemma StripIdempotent(s: string)
    ensures Strip(Strip(s)) == Strip(s)
  {
    StripFixed(Strip(s));
  }

  predicate StartsWith(s: string, prefix: string) {
    |prefix| <= |s| && s[..|prefix|] == prefix
  }

  lemma StartsWithAppend(prefix: string, rest: string)
    ensures StartsWith(prefix + rest, prefix)
  {
    assert (prefix + rest)[..|prefix|] == prefix;
  }

  lemma StartsWithExtend(s: string, prefix: string, more: string)
    requires StartsWith(s, prefix)
    ensures StartsWith(s + more, prefix)
  {
    assert (s + more)[..|prefix|] == s[..|prefix|];
  }

  /** s[:n] */
  function Take(s: string, n: nat): (r: string)
    ensures |r| == if |s| < n then |s| else n
    ensures r == s[..|r|]
  {
    if |s| <= n then s else s[..n]
  }

  /** s * n */
  function Repeat(s: string, n: nat): (r: string)
    ensures |r| == |s| * n
  {
    if n == 0 then "" else s + Repeat(s, n - 1)
  }

  /** sep.join(parts) */
  function Join(parts: seq<string>, sep: string): string {
    if |parts| == 0 then ""
    else if |parts| == 1 then parts[0]
    else parts[0] + sep + Join(parts[1..], sep)
  }

  /** s.split(sep)[0]: everything before the first occurrence of `sep`, or all of
      `s` when `sep` does not occur. */
  function BeforeFirst(s: string, sep: char): (r: string)
    ensures |r| <= |s| && r == s[..|r|]
    ensures forall k :: 0 <= k < |r| ==> r[k] != sep
    ensures |r| == |s| || s[|r|] == sep
  {
    if |s| == 0 || s[0] == sep then "" else [s[0]] + BeforeFirst(s[1..], sep)
  }

  // ---- decimal digits ----

  predicate IsDigit(c: char) {
    '0' <= c <= '9'
  }

  predicate AllDigits(s: string) {
    forall k :: 0 <= k < |s| ==> IsDigit(s[k])
  }

  function DigitChar(d: nat): (c: char)
    requires d < 10
    ensures IsDigit(c) && DigitValue(c) == d
  {
    ('0' as int + d) as char
  }

  function DigitValue(c: char): nat
    requires IsDigit(c)
  {
    c as int - '0' as int
  }

  /** str(n) for a non-negative integer. */
  function NatText(n: nat): (r: string)
    ensures |r| > 0 && AllDigits(r)
    decreases n
  {
    if n < 10 then [DigitChar(n)] else NatText(n / 10) + [DigitChar(n % 10)]
  }

  /** str(i) for any integer. */
  function IntText(i: int): (r: string)
    ensures |r| > 0
    ensures ':' !in r
  {
    if i < 0 then "-" + NatText(-i) else NatText(i)
  }

  /** The number of decimal digits of |i|, the sign not counted. */
  function DigitCount(i: int): nat {
    |NatText(if i < 0 then -i else i)|
  }

  /** The number written by a string of decimal digits (leading zeros allowed, as int() allows them). */
  function DigitsValue(s: string): nat
    requires AllDigits(s)
    decreases |s|
  {
    if |s| == 0 then 0 else DigitsValue(s[..|s| - 1]) * 10 + DigitValue(s[|s| - 1])
  }

  /** An optional sign followed by one or more ASCII digits. */
  predicate IsIntLiteral(t: string) {
    || (|t| > 0 && AllDigits(t))
    || (|t| > 1 && (t[0] == '-' || t[0] == '+') && AllDigits(t[1..]))
  }

  /** int(s) for the forms the model needs: optional surrounding whitespace, an
      optional sign, then one or more ASCII digits. Anything else is the
      ValueError case, here None. */
  function ParseInt(s: string): (r: Option<int>)
    ensures r.Some? <==> IsIntLiteral(Strip(s))
    ensures r.Some? && AllDigits(Strip(s)) ==> r.value == DigitsValue(Strip(s))
    ensures r.Some? && r.value < 0 ==> Strip(s)[0] == '-'
    ensures r.Some? && Strip(s)[0] == '-' ==> AllDigits(Strip(s)[1..]) && r.value == -(DigitsValue(Strip(s)[1..]) as int)
    ensures r.Some? && Strip(s)[0] == '+' ==> AllDigits(Strip(s)[1..]) && r.value == DigitsValue(Strip(s)[1..])
  {
    var t := Strip(s);
    if |t| > 0 && (t[0] == '-' || t[0] == '+') then
      var digits := t[1..];
      if |digits| > 0 && AllDigits(digits) then
        var v: int := DigitsValue(digits);
        Some(if t[0] == '-' then -v else v)
      else None
    else if |t| > 0 && AllDigits(t) then Some(DigitsValue(t))
    else None
  }

  /** Reading back the digits written by NatText gives the number. */
  lemma {:induction false} DigitsValueOfNatText(n: nat)
    ensures DigitsValue(NatText(n)) == n
    decreases n
  {
    if n >= 10 {
      var prefix := NatText(n / 10);
      var r := NatText(n);
      assert r == prefix + [DigitChar(n % 10)];
      assert r[..|r| - 1] == prefix;
      DigitsValueOfNatText(n / 10);
    }
  }

  /** int() of a non-empty string of digits is the number they write. */
  lemma ParseIntDigits(t: string)
    requires |t| > 0 && AllDigits(t)
    ensures ParseInt(t) == Some(DigitsValue(t))
  {
    assert IsDigit(t[0]) && IsDigit(t[|t| - 1]);
    StripFixed(t);
  }

  /** int(str(i)) == i: the decimal rendering of an integer parses back to it. */
  lemma ParseIntText(i: int)
    ensures ParseInt(IntText(i)) == Some(i)
  {
    var t := IntText(i);
    var n := NatText(if i < 0 then -i else i);
    assert !IsSpace(n[|n| - 1]) by { assert IsDigit(n[|n| - 1]); }
    assert !IsSpace(t[0]) by { assert t[0] == '-' || t[0] == n[0]; assert IsDigit(n[0]); }
    assert t[|t| - 1] == n[|n| - 1];
    StripFixed(t);
    if i < 0 {
      assert t[1..] == NatText(-i);
      DigitsValueOfNatText(-i);
    } else {
      DigitsValueOfNatText(i);
    }
  }
}
