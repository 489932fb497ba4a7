/**
 Text primitives used by both halves of the system: the two whitespace classes
 (the JavaScript regular-expression class `\s` and Python's `str.isspace`),
 Python's `str.strip`, `str.join`, the decimal rendering of integers used by
 template strings and f-strings, and the UTF-16 length JavaScript reports.
 */
module Text {

  /** ECMAScript WhiteSpace and LineTerminator: the characters `\s`, `trim` and `/\s$/` see. */
  predicate IsJsSpace(c: char) {
    || ('\t' <= c <= '\r')
    || c == ' '
    || c == '\U{00A0}'
    || c == '\U{1680}'
    || ('\U{2000}' <= c <= '\U{200A}')
    || c == '\U{2028}' || c == '\U{2029}'
    || c == '\U{202F}' || c == '\U{205F}'
    || c == '\U{3000}'
    || c == '\U{FEFF}'
  }

  /** Python's `str.isspace` on one character: Unicode categories Zs and bidi classes WS, B, S. */
  predicate IsPySpace(c: char) {
    || ('\t' <= c <= '\r')
    || ('\U{001C}' <= c <= ' ')
    || c == '\U{0085}'
    || c == '\U{00A0}'
    || c == '\U{1680}'
    || ('\U{2000}' <= c <= '\U{200A}')
    || c == '\U{2028}' || c == '\U{2029}'
    || c == '\U{202F}' || c == '\U{205F}'
    || c == '\U{3000}'
  }

  predicate AllPySpace(s: string) {
    forall i :: 0 <= i < |s| ==> IsPySpace(s[i])
  }

  predicate AllJsSpace(s: string) {
    forall i :: 0 <= i < |s| ==> IsJsSpace(s[i])
  }

  /** JavaScript's `!s.trim()`: the string is empty or whitespace only. */
  function JsIsBlank(s: string): (r: bool)
    ensures r <==> AllJsSpace(s)
  {
    if s == [] then true else IsJsSpace(s[0]) && JsIsBlank(s[1..])
  }

  /** Number of leading Python whitespace characters. */
  function LeadingSpace(s: string): (k: nat)
    ensures k <= |s|
    ensures AllPySpace(s[..k])
    ensures k < |s| ==> !IsPySpace(s[k])
  {
    if s == [] || !IsPySpace(s[0]) then 0
    else
      var k := 1 + LeadingSpace(s[1..]);
      assert s[..k] == [s[0]] + s[1..][..k - 1];
      k
  }

  /** Index where the trailing run of Python whitespace begins. */
  function TrailingSpaceStart(s: string): (k: nat)
    ensures k <= |s|
    ensures AllPySpace(s[k..])
    ensures k > 0 ==> !IsPySpace(s[k - 1])
  {
    if s == [] || !IsPySpace(s[|s| - 1]) then |s|
    else
      var k := TrailingSpaceStart(s[..|s| - 1]);
      assert s[k..] == s[..|s| - 1][k..] + [s[|s| - 1]];
      k
  }

  /** Python's `str.strip()` with no argument. */
  function Strip(s: string): (r: string)
    ensures AllPySpace(s) <==> r == ""
    ensures r != "" ==> !IsPySpace(r[0]) && !IsPySpace(r[|r| - 1])
    ensures exists a, b :: 0 <= a <= b <= |s| && r == s[a..b] && AllPySpace(s[..a]) && AllPySpace(s[b..])
  {
    var a := LeadingSpace(s);
    var t := s[a..];
    var k := TrailingSpaceStart(t);
    assert s == s[..a] + t[..k] + t[k..];
    assert s[a..a + k] == t[..k] && s[a + k..] == t[k..];
    t[..k]
  }

  /** Python's `sep.join(xs)`. */
  function Join(sep: string, xs: seq<string>): (r: string)
    ensures |xs| == 0 ==> r == ""
    ensures |xs| > 0 ==> IsPrefix(xs[0], r)
  {
    if |xs| == 0 then ""
    else if |xs| == 1 then xs[0]
    else
      var init := Join(sep, xs[..|xs| - 1]);
      assert xs[..|xs| - 1][0] == xs[0];
      init + sep + xs[|xs| - 1]
  }

  /** Joining one more piece appends the separator and that piece. */
  lemma JoinSnoc(sep: string, xs: seq<string>, x: string)
    requires |xs| > 0
    ensures Join(sep, xs + [x]) == Join(sep, xs) + sep + x
  {
    assert (xs + [x])[..|xs|] == xs;
  }

  /** Concatenation of a list of strings (JavaScript `+=` over a loop, Python `+=` over a loop). */
  function Concat(xs: seq<string>): string {
    if xs == [] then "" else Concat(xs[..|xs| - 1]) + xs[|xs| - 1]
  }

  lemma ConcatSnoc(xs: seq<string>, x: string)
    ensures Concat(xs + [x]) == Concat(xs) + x
  {
    assert (xs + [x])[..|xs|] == xs;
  }

  /** `Concat` distributes over sequence concatenation. */
  lemma {:induction false} ConcatAppend(xs: seq<string>, ys: seq<string>)
    ensures Concat(xs + ys) == Concat(xs) + Concat(ys)
  {
    if ys == [] {
      assert xs + ys == xs;
    } else {
      var ys' := ys[..|ys| - 1];
      assert xs + ys == (xs + ys') + [ys[|ys| - 1]];
      ConcatAppend(xs, ys');
      ConcatSnoc(xs + ys', ys[|ys| - 1]);
      ConcatSnoc(ys', ys[|ys| - 1]);
      assert ys' + [ys[|ys| - 1]] == ys;
    }
  }

  predicate IsPrefix(a: string, b: string) {
    |a| <= |b| && b[..|a|] == a
  }

  predicate IsStrictPrefix(a: string, b: string) {
    |a| < |b| && b[..|a|] == a
  }

  predicate IsDigit(c: char) {
    '0' <= c <= '9'
  }

  function DigitValue(c: char): nat
    requires IsDigit(c)
  {
    (c as int) - ('0' as int)
  }

  function DigitChar(d: nat): (c: char)
    requires d < 10
    ensures IsDigit(c) && (c as int) - ('0' as int) == d
  {
    ['0', '1', '2', '3', '4', '5', '6', '7', '8', '9'][d]
  }

  /** Decimal rendering of a non-negative integer (`${n}` in JavaScript, `str(n)` in Python). */
  function NatToDecimal(n: nat): (r: string)
    ensures |r| > 0
    ensures forall i :: 0 <= i < |r| ==> IsDigit(r[i])
    ensures |r| > 1 ==> r[0] != '0'
    decreases n
  {
    if n < 10 then [DigitChar(n)]
    else NatToDecimal(n / 10) + [DigitChar(n % 10)]
  }

  /** Decimal rendering of any integer, with a leading minus sign for negatives. */
  function IntToDecimal(n: int): (r: string)
    ensures |r| > 0
    ensures n < 0 <==> r[0] == '-'
  {
    if n < 0 then "-" + NatToDecimal(-n) else NatToDecimal(n)
  }

  /** Value of a string of decimal digits: the reference for `NatToDecimal`. */
  function DecimalValue(s: string): nat
    requires forall i :: 0 <= i < |s| ==> IsDigit(s[i])
  {
    if s == [] then 0
    else DecimalValue(s[..|s| - 1]) * 10 + DigitValue(s[|s| - 1])
  }

  /** Rendering a number in decimal loses nothing: reading the digits back gives the number. */
  lemma {:induction false} DecimalRoundTrip(n: nat)
    ensures DecimalValue(NatToDecimal(n)) == n
    decreases n
  {
    if n >= 10 {
      DecimalRoundTrip(n / 10);
      var s := NatToDecimal(n);
      assert s[..|s| - 1] == NatToDecimal(n / 10);
    }
  }

  /** Distinct numbers render to distinct strings, so ids built from them differ. */
  lemma DecimalInjective(m: nat, n: nat)
    requires NatToDecimal(m) == NatToDecimal(n)
    ensures m == n
  {
    DecimalRoundTrip(m);
    DecimalRoundTrip(n);
  }

  /** Length of a string as JavaScript's `.length` reports it: UTF-16 code units. */
  function Utf16Length(s: string): (r: nat)
    ensures |s| <= r <= 2 * |s|
  {
    if s == [] then 0
    else Utf16Length(s[..|s| - 1]) + (if (s[|s| - 1] as int) >= 0x1_0000 then 2 else 1)
  }
}
