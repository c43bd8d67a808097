/** The few string operations the models need.  A character is a Unicode scalar value. */
module Text {

  predicate IsDigit(c: char) { '0' <= c <= '9' }

  function LowerChar(c: char): char {
    if 'A' <= c <= 'Z' then (c as int + 32) as char else c
  }

  function Lower(s: string): (r: string)
    ensures |r| == |s| && forall i :: 0 <= i < |s| ==> r[i] == LowerChar(s[i])
  {
    seq(|s|, i requires 0 <= i < |s| => LowerChar(s[i]))
  }

  /**
   `toLowerCase`, as far as ASCII letters and digits can tell: beyond ASCII only the Kelvin sign and
   the dotted capital I turn into one.
   */
  function LowerOf(c: char): string {
    if c == '\U{212A}' then "k"
    else if c == '\U{130}' then ['i', '\U{307}']
    else [LowerChar(c)]
  }

  function LowerCase(s: string): string { if s == "" then "" else LowerOf(s[0]) + LowerCase(s[1..]) }

  /** What `trim` removes and the pattern class for white space matches. */
  predicate IsSpace(c: char) {
    '\t' <= c <= '\r' || c == ' ' || c == '\U{A0}' || c == '\U{1680}' || '\U{2000}' <= c <= '\U{200A}'
    || c == '\U{2028}' || c == '\U{2029}' || c == '\U{202F}' || c == '\U{205F}' || c == '\U{3000}' || c == '\U{FEFF}'
  }

  function TrimStart(s: string): string {
    if s != "" && IsSpace(s[0]) then TrimStart(s[1..]) else s
  }

  function TrimEnd(s: string): string {
    if s != "" && IsSpace(s[|s| - 1]) then TrimEnd(s[..|s| - 1]) else s
  }

  function Trim(s: string): string { TrimEnd(TrimStart(s)) }

  /** `s.includes(t)` */
  predicate Contains(s: string, t: string) { exists i :: 0 <= i <= |s| && StandsAt(s, t, i) }

  predicate StandsAt(s: string, t: string, i: nat) { i + |t| <= |s| && s[i..i + |t|] == t }

  predicate AllDigits(s: string) { forall i :: 0 <= i < |s| ==> IsDigit(s[i]) }

  function DigitValue(c: char): (v: nat)
    requires IsDigit(c)
    ensures v < 10
  {
    c as int - '0' as int
  }

  /** The number a decimal numeral denotes, leading zeros allowed. */
  function DecimalValue(s: string): nat
    requires AllDigits(s)
  {
    if s == "" then 0 else 10 * DecimalValue(s[..|s| - 1]) + DigitValue(s[|s| - 1])
  }

  /** `String(n)` for a non-negative integer. */
  function Decimal(n: nat): string
    decreases n
  {
    if n < 10 then [('0' as int + n) as char] else Decimal(n / 10) + [('0' as int + n % 10) as char]
  }

  lemma {:induction false} DecimalRoundTrip(n: nat)
    ensures Decimal(n) != "" && AllDigits(Decimal(n)) && DecimalValue(Decimal(n)) == n
    decreases n
  {
    if n < 10 {
      assert Decimal(n)[..0] == "";
    } else {
      DecimalRoundTrip(n / 10);
      assert Decimal(n)[..|Decimal(n)| - 1] == Decimal(n / 10);
    }
  }

  lemma SplitAtColon(d: string, r: string, d': string, r': string)
    requires AllDigits(d) && AllDigits(d') && d + ":" + r == d' + ":" + r'
    ensures d == d' && r == r'
  {
    var w, w' := d + ":" + r, d' + ":" + r';
    assert w[|d|] == ':' && w'[|d'|] == ':';
    assert d == w[..|d|] && r == w[|d| + 1..] && d' == w'[..|d'|] && r' == w'[|d'| + 1..];
  }
}
