/** Order ids: the validator, and the encoder to the 32 bytes a contract call takes. */
module OrderId {
  import opened Common
  import opened Text

  type Byte = b: int | 0 <= b < 256

  /** A JavaScript string is a sequence of 16-bit code units. */
  type CodeUnit = u: int | 0 <= u < 0x1_0000

  datatype Id = Raw(bytes: seq<Byte>) | Str(units: seq<CodeUnit>)

  datatype Refusal = WrongLength | Empty | OddHex | NotHex | TooLong | TooLarge

  // ----- Numbers and bytes -----

  predicate IsHexDigit(c: char) { IsDigit(c) || 'a' <= c <= 'f' || 'A' <= c <= 'F' }

  predicate AllHex(s: string) { forall i :: 0 <= i < |s| ==> IsHexDigit(s[i]) }

  function HexDigitValue(c: char): (v: nat)
    requires IsHexDigit(c)
    ensures v < 16
  {
    if IsDigit(c) then DigitValue(c)
    else if 'a' <= c <= 'f' then c as int - 'a' as int + 10
    else c as int - 'A' as int + 10
  }

  function HexValue(s: string): nat
    requires AllHex(s)
  {
    if s == "" then 0 else 16 * HexValue(s[..|s| - 1]) + HexDigitValue(s[|s| - 1])
  }

  /** The bytes of an even number of hex digits. */
  function FromHex(s: string): seq<Byte>
    requires AllHex(s)
  {
    if |s| < 2 then [] else
    FromHex(s[..|s| - 2]) + [16 * HexDigitValue(s[|s| - 2]) + HexDigitValue(s[|s| - 1])]
  }

  /** The big-endian number in these bytes. */
  function BytesValue(b: seq<Byte>): nat {
    if b == [] then 0 else 256 * BytesValue(b[..|b| - 1]) + b[|b| - 1]
  }

  function ToBytes(v: nat, n: nat): (r: seq<Byte>)
    ensures |r| == n
  {
    if n == 0 then [] else ToBytes(v / 256, n - 1) + [v % 256]
  }

  /** One more than the largest number of `n` bytes. */
  function Limit(n: nat): (r: nat)
    ensures r >= 1
  {
    if n == 0 then 1 else 256 * Limit(n - 1)
  }

  function Zeros(n: nat): (r: seq<Byte>)
    ensures |r| == n && forall i :: 0 <= i < n ==> r[i] == 0
  {
    seq(n, _ => 0)
  }

  function PadLeft(b: seq<Byte>, n: nat): (r: seq<Byte>)
    requires |b| <= n
    ensures |r| == n
  {
    Zeros(n - |b|) + b
  }

  function PadRight(b: seq<Byte>, n: nat): (r: seq<Byte>)
    requires |b| <= n
    ensures |r| == n
  {
    b + Zeros(n - |b|)
  }

  // ----- UTF-8 -----

  function Utf8Char(c: char): (r: seq<Byte>)
    ensures |r| > 0
  {
    var n := c as int;
    if n < 0x80 then [n]
    else if n < 0x800 then [0xC0 + n / 64, 0x80 + n % 64]
    else if n < 0x1_0000 then [0xE0 + n / 4096, 0x80 + n / 64 % 64, 0x80 + n % 64]
    else [0xF0 + n / 262144, 0x80 + n / 4096 % 64, 0x80 + n / 64 % 64, 0x80 + n % 64]
  }

  function Utf8(s: string): seq<Byte> { if s == "" then [] else Utf8Char(s[0]) + Utf8(s[1..]) }

  // ----- Code units -----

  predicate High(u: CodeUnit) { 0xD800 <= u < 0xDC00 }

  predicate Low(u: CodeUnit) { 0xDC00 <= u < 0xE000 }

  function Paired(h: CodeUnit, l: CodeUnit): char
    requires High(h) && Low(l)
  {
    (0x1_0000 + (h - 0xD800) * 0x400 + (l - 0xDC00)) as char
  }

  /** The characters of a string as `TextEncoder` sees them: a surrogate without its partner becomes U+FFFD. */
  function Scalars(u: seq<CodeUnit>): string {
    if u == [] then ""
    else if High(u[0]) && |u| > 1 && Low(u[1]) then [Paired(u[0], u[1])] + Scalars(u[2..])
    else if High(u[0]) || Low(u[0]) then ['\U{FFFD}'] + Scalars(u[1..])
    else [u[0] as char] + Scalars(u[1..])
  }

  /** The string with every lone surrogate replaced, as `toWellFormed` does. */
  function WellFormed(u: seq<CodeUnit>): seq<CodeUnit> {
    if u == [] then []
    else if High(u[0]) && |u| > 1 && Low(u[1]) then [u[0], u[1]] + WellFormed(u[2..])
    else if High(u[0]) || Low(u[0]) then [0xFFFD] + WellFormed(u[1..])
    else [u[0]] + WellFormed(u[1..])
  }

  function UnitsOf(c: char): (r: seq<CodeUnit>)
    ensures 1 <= |r| <= 2
  {
    var n := c as int;
    if n < 0x1_0000 then [n] else [0xD800 + (n - 0x1_0000) / 0x400, 0xDC00 + (n - 0x1_0000) % 0x400]
  }

  /** UTF-16 */
  function Units(s: string): seq<CodeUnit> { if s == "" then [] else UnitsOf(s[0]) + Units(s[1..]) }

  lemma UnitsOfPaired(h: CodeUnit, l: CodeUnit)
    requires High(h) && Low(l)
    ensures UnitsOf(Paired(h, l)) == [h, l]
  {}

  lemma {:induction false} UnitsOfScalars(u: seq<CodeUnit>)
    ensures Units(Scalars(u)) == WellFormed(u)
  {
    if u != [] {
      var s := Scalars(u);
      if High(u[0]) && |u| > 1 && Low(u[1]) {
        UnitsOfScalars(u[2..]);
        UnitsOfPaired(u[0], u[1]);
        assert s[1..] == Scalars(u[2..]);
      } else {
        UnitsOfScalars(u[1..]);
        assert s[1..] == Scalars(u[1..]);
      }
    }
  }

  lemma {:induction false} ScalarsFirst(c: char, rest: seq<CodeUnit>)
    ensures Scalars(UnitsOf(c) + rest) == [c] + Scalars(rest)
  {
    var n, u := c as int, UnitsOf(c) + rest;
    if n < 0x1_0000 {
      assert u[1..] == rest;
    } else {
      assert u[2..] == rest;
    }
  }

  lemma {:induction false} ScalarsOfUnits(s: string)
    ensures Scalars(Units(s)) == s
  {
    if s != "" {
      ScalarsOfUnits(s[1..]);
      ScalarsFirst(s[0], Units(s[1..]));
    }
  }

  /** Two strings have the same characters exactly if they differ in nothing but lone surrogates. */
  lemma {:induction false} SameScalars(u: seq<CodeUnit>, v: seq<CodeUnit>)
    ensures Scalars(u) == Scalars(v) <==> WellFormed(u) == WellFormed(v)
  {
    UnitsOfScalars(u);
    UnitsOfScalars(v);
    ScalarsOfUnits(Scalars(u));
    ScalarsOfUnits(Scalars(v));
  }

  /** The code unit is a character of the class. */
  predicate Is(u: CodeUnit, p: char -> bool) { !High(u) && !Low(u) && p(u as char) }

  predicate AllUnits(u: seq<CodeUnit>, p: char -> bool) { forall i :: 0 <= i < |u| ==> Is(u[i], p) }

  predicate AllChars(s: string, p: char -> bool) { forall i :: 0 <= i < |s| ==> p(s[i]) }

  lemma FirstUnit(u: seq<CodeUnit>, p: char -> bool)
    requires u != []
    ensures AllUnits(u, p) <==> Is(u[0], p) && AllUnits(u[1..], p)
  {
    assert forall i :: 0 <= i < |u[1..]| ==> u[1..][i] == u[i + 1];
    assert forall i :: 0 < i < |u| ==> u[i] == u[1..][i - 1];
  }

  lemma FirstChar(s: string, p: char -> bool)
    requires s != ""
    ensures AllChars(s, p) <==> p(s[0]) && AllChars(s[1..], p)
  {
    assert forall i :: 0 <= i < |s[1..]| ==> s[1..][i] == s[i + 1];
    assert forall i :: 0 < i < |s| ==> s[i] == s[1..][i - 1];
  }

  /**
   Matching a string against a class of ASCII characters by code units or by characters comes to the
   same, and a string that matches has as many of the one as of the other.
   */
  lemma {:induction false} ClassAgrees(u: seq<CodeUnit>, p: char -> bool)
    requires forall c :: p(c) ==> c as int < 0x80
    ensures AllUnits(u, p) <==> AllChars(Scalars(u), p)
    ensures AllUnits(u, p) ==> |Scalars(u)| == |u|
  {
    if u != [] {
      var s := Scalars(u);
      FirstUnit(u, p);
      FirstChar(s, p);
      if !High(u[0]) && !Low(u[0]) {
        ClassAgrees(u[1..], p);
        assert s[0] == u[0] as char && s[1..] == Scalars(u[1..]);
      }
    }
  }

  function TrimUnitsStart(u: seq<CodeUnit>): seq<CodeUnit> {
    if u != [] && Is(u[0], IsSpace) then TrimUnitsStart(u[1..]) else u
  }

  function TrimUnitsEnd(u: seq<CodeUnit>): seq<CodeUnit> {
    if u != [] && Is(u[|u| - 1], IsSpace) then TrimUnitsEnd(u[..|u| - 1]) else u
  }

  function TrimUnits(u: seq<CodeUnit>): seq<CodeUnit> { TrimUnitsEnd(TrimUnitsStart(u)) }

  /** The characters of a trimmed id, which decide its form: all the forms but the last are ASCII classes. */
  function TextOf(u: seq<CodeUnit>): string { Scalars(TrimUnits(u)) }

  // ----- The forms of a trimmed id -----

  datatype Form = Prefixed(digits: string) | Numeral | BareHex | Plain

  function FormOf(t: string): Form {
    if |t| >= 2 && t[0] == '0' && (t[1] == 'x' || t[1] == 'X') then Prefixed(Lower(t[2..]))
    else if t != "" && AllDigits(t) then Numeral
    else if |t| == 64 && AllHex(t) then BareHex
    else Plain
  }

  function Validate(id: Id): Result<(), Refusal> {
    match id
    case Raw(b) => if |b| != 32 then Failure(WrongLength) else Success(())
    case Str(units) =>
      var t := TextOf(units);
      if t == "" then Failure(Empty) else
      match FormOf(t)
      case Prefixed(digits) =>
        if digits == "" then Failure(Empty)
        else if !AllHex(digits) then Failure(NotHex)
        else if |digits| % 2 != 0 then Failure(OddHex)
        else if |digits| > 64 then Failure(TooLong)
        else Success(())
      case Numeral => Success(())
      case BareHex => Success(())
      case Plain => if |Utf8(t)| > 32 then Failure(TooLong) else Success(())
  }

  function EncodeText(t: string): Result<seq<Byte>, Refusal> {
    match FormOf(t)
    case Prefixed(digits) =>
      if |digits| % 2 != 0 then Failure(OddHex)
      else if !AllHex(digits) then Failure(NotHex)
      else if |FromHex(digits)| > 32 then Failure(TooLong)
      else Success(PadLeft(FromHex(digits), 32))
    case Numeral =>
      if DecimalValue(t) >= Limit(32) then Failure(TooLarge) else Success(ToBytes(DecimalValue(t), 32))
    case BareHex =>
      if |FromHex(t)| > 32 then Failure(TooLong) else Success(PadLeft(FromHex(t), 32))
    case Plain =>
      if |Utf8(t)| > 32 then Failure(TooLong) else Success(PadRight(Utf8(t), 32))
  }

  /** Raw bytes are padded, or cut to their last 32. */
  function Encode(id: Id): Result<seq<Byte>, Refusal> {
    match id
    case Raw(b) => Success(if |b| <= 32 then PadLeft(b, 32) else b[|b| - 32..])
    case Str(units) => EncodeText(TextOf(units))
  }

  // ----- Numbers survive -----

  lemma {:induction false} ValueOfMore(b: seq<Byte>, x: Byte)
    ensures BytesValue(b + [x]) == 256 * BytesValue(b) + x
  {
    assert (b + [x])[..|b|] == b;
  }

  lemma {:induction false} HexValueOfTwo(s: string, n: nat)
    requires AllHex(s) && |s| == n + 2
    ensures HexValue(s) == 256 * HexValue(s[..n]) + 16 * HexDigitValue(s[n]) + HexDigitValue(s[n + 1])
  {
    assert s[..n + 1][..n] == s[..n];
  }

  lemma {:induction false} FromHexValue(s: string)
    requires AllHex(s) && |s| % 2 == 0
    ensures |FromHex(s)| == |s| / 2 && BytesValue(FromHex(s)) == HexValue(s)
  {
    if s != "" {
      var n := |s| - 2;
      FromHexValue(s[..n]);
      HexValueOfTwo(s, n);
      ValueOfMore(FromHex(s[..n]), 16 * HexDigitValue(s[n]) + HexDigitValue(s[n + 1]));
    }
  }

  lemma {:induction false} PadLeftValue(b: seq<Byte>, n: nat)
    requires |b| <= n
    ensures BytesValue(PadLeft(b, n)) == BytesValue(b)
    decreases n
  {
    var p := PadLeft(b, n);
    if b != [] {
      assert p[..n - 1] == PadLeft(b[..|b| - 1], n - 1);
      PadLeftValue(b[..|b| - 1], n - 1);
    } else if n > 0 {
      assert p[..n - 1] == PadLeft([], n - 1);
      PadLeftValue([], n - 1);
    }
  }

  lemma {:induction false} ToBytesValue(v: nat, n: nat)
    requires v < Limit(n)
    ensures BytesValue(ToBytes(v, n)) == v
  {
    if n > 0 {
      ToBytesValue(v / 256, n - 1);
      assert ToBytes(v, n)[..n - 1] == ToBytes(v / 256, n - 1);
    }
  }

  /** Equally long byte strings of the same value are the same. */
  lemma {:induction false} ValueDetermines(a: seq<Byte>, b: seq<Byte>)
    requires |a| == |b| && BytesValue(a) == BytesValue(b)
    ensures a == b
  {
    if a != [] {
      var n := |a| - 1;
      LastDigit(BytesValue(a[..n]), a[n], BytesValue(b[..n]), b[n]);
      ValueDetermines(a[..n], b[..n]);
      assert a == a[..n] + [a[n]] && b == b[..n] + [b[n]];
    }
  }

  lemma LastDigit(x: nat, d: Byte, y: nat, e: Byte)
    requires 256 * x + d == 256 * y + e
    ensures x == y && d == e
  {}

  /** The number an id in one of the three numeric forms stands for. */
  function NumberOf(t: string): Option<nat> {
    match FormOf(t)
    case Prefixed(digits) => if AllHex(digits) then Some(HexValue(digits)) else None
    case Numeral => Some(DecimalValue(t))
    case BareHex => Some(HexValue(t))
    case Plain => None
  }

  /** Whatever its form, an encoded number is the big-endian number of the 32 bytes. */
  lemma NumberSurvives(t: string)
    requires EncodeText(t).Success? && NumberOf(t).Some?
    ensures |EncodeText(t).value| == 32 && BytesValue(EncodeText(t).value) == NumberOf(t).value
  {
    match FormOf(t)
    case Prefixed(digits) =>
      FromHexValue(digits);
      PadLeftValue(FromHex(digits), 32);
    case Numeral => ToBytesValue(DecimalValue(t), 32);
    case BareHex =>
      FromHexValue(t);
      PadLeftValue(FromHex(t), 32);
    case Plain =>
  }

  /** Hence two numeric ids, in the same or in different forms, encode alike exactly if they are the same number. */
  lemma NumericFormsAgree(t: string, u: string)
    requires EncodeText(t).Success? && NumberOf(t).Some? && EncodeText(u).Success? && NumberOf(u).Some?
    ensures EncodeText(t) == EncodeText(u) <==> NumberOf(t) == NumberOf(u)
  {
    NumberSurvives(t);
    NumberSurvives(u);
    if NumberOf(t) == NumberOf(u) { ValueDetermines(EncodeText(t).value, EncodeText(u).value); }
  }

  // ----- Which ids encode -----

  predicate EmptyHex(t: string) { FormOf(t) == Prefixed("") }

  lemma {:induction false} FormEncodes(t: string)
    ensures EncodeText(t).Success? <==>
              match FormOf(t)
              case Prefixed(h) => AllHex(h) && |h| % 2 == 0 && |h| <= 64
              case Numeral => DecimalValue(t) < Limit(32)
              case BareHex => true
              case Plain => |Utf8(t)| <= 32
  {
    match FormOf(t)
    case Prefixed(h) => if AllHex(h) && |h| % 2 == 0 { FromHexValue(h); }
    case BareHex => FromHexValue(t);
    case _ =>
  }

  lemma EncodesTo32(t: string)
    requires EncodeText(t).Success?
    ensures |EncodeText(t).value| == 32
  {}

  /**
   A string encodes, then always to 32 bytes, exactly if the validator accepts it or it is empty
   up to a hex prefix, and it is no decimal numeral too large for 32 bytes.
   */
  lemma {:induction false} EncodesExactly(units: seq<CodeUnit>)
    ensures var t := TextOf(units);
      Encode(Str(units)).Success? <==>
        && (Validate(Str(units)).Success? || t == "" || EmptyHex(t))
        && (FormOf(t).Numeral? ==> DecimalValue(t) < Limit(32))
    ensures Encode(Str(units)).Success? ==> |Encode(Str(units)).value| == 32
  {
    var t := TextOf(units);
    if EncodeText(t).Success? { EncodesTo32(t); }
    FormEncodes(t);
    if t == "" { assert Utf8(t) == []; }
  }

  lemma LowerHexDigit(c: char)
    ensures IsHexDigit(LowerChar(c)) <==> IsHexDigit(c)
    ensures IsHexDigit(c) ==> HexDigitValue(LowerChar(c)) == HexDigitValue(c)
  {}

  /** Lower case changes neither which strings are hex nor their number. */
  lemma {:induction false} LowerHex(s: string)
    ensures |Lower(s)| == |s| && (AllHex(Lower(s)) <==> AllHex(s))
    ensures AllHex(s) ==> HexValue(Lower(s)) == HexValue(s)
  {
    if s != "" {
      var n := |s| - 1;
      LowerHex(s[..n]);
      LowerHexDigit(s[n]);
      assert Lower(s)[..n] == Lower(s[..n]);
      AllHexLast(s);
      AllHexLast(Lower(s));
    }
  }

  lemma AllHexLast(s: string)
    requires s != ""
    ensures AllHex(s) <==> AllHex(s[..|s| - 1]) && IsHexDigit(s[|s| - 1])
  {}

  predicate HexPrefixed(t: string) { |t| >= 2 && t[0] == '0' && (t[1] == 'x' || t[1] == 'X') }

  predicate Numeric(t: string) { t != "" && AllDigits(t) }

  predicate SixtyFourHex(t: string) { |t| == 64 && AllHex(t) }

  lemma PrefixedEncodes(t: string)
    requires HexPrefixed(t)
    ensures EncodeText(t).Success? <==> AllHex(t[2..]) && |t| % 2 == 0 && |t| <= 66
    ensures EncodeText(t).Success? ==> BytesValue(EncodeText(t).value) == HexValue(t[2..])
  {
    LowerHex(t[2..]);
    FormEncodes(t);
    if EncodeText(t).Success? { NumberSurvives(t); }
  }

  lemma {:induction false} NumeralForm(t: string)
    requires Numeric(t)
    ensures FormOf(t).Numeral? && NumberOf(t) == Some(DecimalValue(t))
  {
    assert |t| >= 2 ==> IsDigit(t[1]);
  }

  lemma {:induction false} NumeralEncodes(t: string)
    requires Numeric(t)
    ensures EncodeText(t).Success? <==> DecimalValue(t) < Limit(32)
    ensures EncodeText(t).Success? ==> BytesValue(EncodeText(t).value) == DecimalValue(t)
  {
    NumeralForm(t);
    FormEncodes(t);
    if EncodeText(t).Success? { NumberSurvives(t); }
  }

  lemma {:induction false} BareHexEncodes(t: string)
    requires SixtyFourHex(t) && !Numeric(t)
    ensures EncodeText(t).Success? && BytesValue(EncodeText(t).value) == HexValue(t)
  {
    assert IsHexDigit(t[1]);
    FormEncodes(t);
    NumberSurvives(t);
  }

  lemma {:induction false} PlainEncodes(t: string)
    requires !HexPrefixed(t) && !Numeric(t) && !SixtyFourHex(t)
    ensures EncodeText(t).Success? <==> |Utf8(t)| <= 32
    ensures EncodeText(t).Success? ==> EncodeText(t).value == Utf8(t) + Zeros(32 - |Utf8(t)|)
  {}

  /**
   What each form encodes to, and exactly when, by the trimmed text alone: after a hex prefix an even
   number of at most 64 hex digits, as their number; decimal digits, as theirs, if 32 bytes hold it; 64
   hex digits without a prefix, as their number; anything else as its UTF-8 of at most 32 bytes.
   */
  lemma {:induction false} EncodesByForm(t: string)
    ensures HexPrefixed(t) ==>
              && (EncodeText(t).Success? <==> AllHex(t[2..]) && |t| % 2 == 0 && |t| <= 66)
              && (EncodeText(t).Success? ==> BytesValue(EncodeText(t).value) == HexValue(t[2..]))
    ensures Numeric(t) ==>
              && (EncodeText(t).Success? <==> DecimalValue(t) < Limit(32))
              && (EncodeText(t).Success? ==> BytesValue(EncodeText(t).value) == DecimalValue(t))
    ensures SixtyFourHex(t) && !Numeric(t) ==>
              EncodeText(t).Success? && BytesValue(EncodeText(t).value) == HexValue(t)
    ensures !HexPrefixed(t) && !Numeric(t) && !SixtyFourHex(t) ==>
              && (EncodeText(t).Success? <==> |Utf8(t)| <= 32)
              && (EncodeText(t).Success? ==> EncodeText(t).value == Utf8(t) + Zeros(32 - |Utf8(t)|))
  {
    if HexPrefixed(t) { PrefixedEncodes(t); }
    if Numeric(t) { NumeralEncodes(t); } else if SixtyFourHex(t) { BareHexEncodes(t); }
    if !HexPrefixed(t) && !Numeric(t) && !SixtyFourHex(t) { PlainEncodes(t); }
  }

  /** Blanks around an id do not count. */
  lemma BlanksDoNotCount(a: seq<CodeUnit>, u: seq<CodeUnit>, b: seq<CodeUnit>)
    requires AllUnits(a, IsSpace) && AllUnits(b, IsSpace)
    ensures TextOf(a + u + b) == TextOf(u)
  {
    BlanksTrimmed(a, u, b);
  }

  lemma {:induction false} BlanksTrimmed(a: seq<CodeUnit>, u: seq<CodeUnit>, b: seq<CodeUnit>)
    requires AllUnits(a, IsSpace) && AllUnits(b, IsSpace)
    ensures TrimUnits(a + u + b) == TrimUnits(u)
  {
    assert a + u + b == a + (u + b);
    StartBlanks(a, u + b);
    StartBlanksOnly(u, b);
    EndBlanks(TrimUnitsStart(u), b);
  }

  lemma {:induction false} StartBlanks(a: seq<CodeUnit>, u: seq<CodeUnit>)
    requires AllUnits(a, IsSpace)
    ensures TrimUnitsStart(a + u) == TrimUnitsStart(u)
  {
    if a == [] {
      assert a + u == u;
    } else {
      FirstUnit(a, IsSpace);
      assert (a + u)[1..] == a[1..] + u;
      StartBlanks(a[1..], u);
    }
  }

  lemma {:induction false} StartBlanksOnly(u: seq<CodeUnit>, b: seq<CodeUnit>)
    requires AllUnits(b, IsSpace)
    ensures TrimUnitsStart(u + b) == if TrimUnitsStart(u) == [] then [] else TrimUnitsStart(u) + b
  {
    if u == [] {
      assert u + b == b && b + [] == b;
      StartBlanks(b, []);
    } else if Is(u[0], IsSpace) {
      assert (u + b)[1..] == u[1..] + b;
      StartBlanksOnly(u[1..], b);
    }
  }

  lemma {:induction false} EndBlanks(u: seq<CodeUnit>, b: seq<CodeUnit>)
    requires AllUnits(b, IsSpace)
    ensures TrimUnitsEnd(u + b) == TrimUnitsEnd(u)
    decreases |b|
  {
    if b == [] {
      assert u + b == u;
    } else {
      var n := |b| - 1;
      assert (u + b)[..|u + b| - 1] == u + b[..n] && Is(b[n], IsSpace);
      EndBlanks(u, b[..n]);
    }
  }

  /** The validator accepts what encodes, except nothing at all, and besides it the numerals that are too large. */
  lemma {:induction false} ValidatesExactly(units: seq<CodeUnit>)
    ensures var t := TextOf(units);
      Validate(Str(units)).Success? <==>
        t != "" && !EmptyHex(t) && (Encode(Str(units)).Success? || Numeric(t))
  {
    var t := TextOf(units);
    FormEncodes(t);
    if Numeric(t) { NumeralForm(t); }
  }

  /** Raw bytes keep their value up to 32 bytes, and 32 bytes stay as they are. */
  lemma {:induction false} RawKeepsValue(b: seq<Byte>)
    ensures |Encode(Raw(b)).value| == 32
    ensures |b| <= 32 ==> BytesValue(Encode(Raw(b)).value) == BytesValue(b)
    ensures Validate(Raw(b)).Success? ==> Encode(Raw(b)).value == b
  {
    if |b| <= 32 { PadLeftValue(b, 32); }
  }

  lemma {:induction false} HexAtLeastDecimal(t: string)
    requires AllDigits(t)
    ensures AllHex(t) && DecimalValue(t) <= HexValue(t)
    ensures HexValue(t) == DecimalValue(t) <==> DecimalValue(t) < 10
  {
    if t != "" { HexAtLeastDecimal(t[..|t| - 1]); }
  }

  lemma {:induction false} LowerKeepsDigits(t: string)
    requires AllDigits(t)
    ensures Lower(t) == t
  {}

  /**
   Sixty-four decimal digits are read as a decimal numeral, not as bare hex: such an id names
   another order than the same digits with a hex prefix, unless all but the last are zero.
   */
  lemma {:induction false} BareDigitsAreDecimal(t: string)
    requires |t| == 64 && AllDigits(t) && EncodeText(t).Success?
    ensures EncodeText("0x" + t).Success?
    ensures EncodeText(t) == EncodeText("0x" + t) <==> DecimalValue(t) < 10
  {
    var u := "0x" + t;
    assert u[2..] == t;
    LowerKeepsDigits(t);
    HexAtLeastDecimal(t);
    assert FormOf(u) == Prefixed(t);
    FromHexValue(t);
    assert FormOf(t) == Numeral by { assert IsDigit(t[1]); }
    NumericFormsAgree(t, u);
  }

  // ----- Plain ids -----

  lemma Utf8Prefix(c: char, d: char, x: seq<Byte>, y: seq<Byte>)
    requires Utf8Char(c) + x == Utf8Char(d) + y
    ensures c == d && x == y
  {
    var a, b := Utf8Char(c) + x, Utf8Char(d) + y;
    assert a[0] == Utf8Char(c)[0] && b[0] == Utf8Char(d)[0];
    Utf8Length(c, d);
    var n := |Utf8Char(c)|;
    assert Utf8Char(c) == a[..n] && Utf8Char(d) == b[..n];
    assert x == a[n..] && y == b[n..];
    Utf8CharInjective(c, d);
  }

  /** The first byte tells how many follow. */
  lemma Utf8Length(c: char, d: char)
    requires Utf8Char(c)[0] == Utf8Char(d)[0]
    ensures |Utf8Char(c)| == |Utf8Char(d)|
  {}

  /** A number is its base-64 digits. */
  lemma Digits64(n: nat)
    ensures n == 64 * (n / 64) + n % 64
    ensures n / 4096 == n / 64 / 64 && n / 262144 == n / 4096 / 64
  {}

  lemma Utf8CharInjective(c: char, d: char)
    requires Utf8Char(c) == Utf8Char(d)
    ensures c == d
  {
    var m, n := c as int, d as int;
    Digits64(m);
    Digits64(m / 64);
    Digits64(m / 4096);
    Digits64(n);
    Digits64(n / 64);
    Digits64(n / 4096);
    SameDigits(Utf8Char(c), Utf8Char(d));
  }

  lemma SameDigits(a: seq<Byte>, b: seq<Byte>)
    requires a == b
    ensures |a| == |b| && forall i :: 0 <= i < |a| ==> a[i] == b[i]
  {}

  lemma {:induction false} Utf8Injective(a: string, b: string)
    requires Utf8(a) == Utf8(b)
    ensures a == b
  {
    if a != "" && b != "" {
      Utf8Prefix(a[0], b[0], Utf8(a[1..]), Utf8(b[1..]));
      Utf8Injective(a[1..], b[1..]);
      assert a == [a[0]] + a[1..] && b == [b[0]] + b[1..];
    }
  }

  predicate NonZero(b: seq<Byte>) { forall i :: 0 <= i < |b| ==> b[i] != 0 }

  function StripNul(t: string): string {
    if t != "" && t[|t| - 1] == '\0' then StripNul(t[..|t| - 1]) else t
  }

  function StripZero(b: seq<Byte>): seq<Byte> {
    if b != [] && b[|b| - 1] == 0 then StripZero(b[..|b| - 1]) else b
  }

  lemma CharNonZero(c: char)
    requires c != '\0'
    ensures NonZero(Utf8Char(c))
  {}

  lemma {:induction false} Utf8Splits(a: string, b: string)
    ensures Utf8(a + b) == Utf8(a) + Utf8(b)
  {
    if a == "" {
      assert a + b == b;
    } else {
      assert (a + b)[1..] == a[1..] + b;
      Utf8Splits(a[1..], b);
    }
  }

  /** Trailing NUL characters are trailing zero bytes. */
  lemma {:induction false} StripAgrees(t: string)
    ensures StripZero(Utf8(t)) == Utf8(StripNul(t))
  {
    if t != "" {
      var n := |t| - 1;
      assert t == t[..n] + [t[n]];
      Utf8Splits(t[..n], [t[n]]);
      assert [t[n]][1..] == "" && Utf8([t[n]]) == Utf8Char(t[n]);
      if t[n] == '\0' {
        StripAgrees(t[..n]);
        assert Utf8(t)[..|Utf8(t)| - 1] == Utf8(t[..n]);
      } else {
        CharNonZero(t[n]);
      }
    }
  }

  lemma {:induction false} StripPadded(b: seq<Byte>, n: nat)
    requires |b| <= n
    ensures StripZero(PadRight(b, n)) == StripZero(b)
  {
    if |b| < n {
      StripPadded(b, n - 1);
      assert PadRight(b, n)[..n - 1] == PadRight(b, n - 1);
    } else {
      assert PadRight(b, n) == b;
    }
  }

  lemma {:induction false} StripRestores(b: seq<Byte>)
    ensures |StripZero(b)| <= |b| && PadRight(StripZero(b), |b|) == b
  {
    var n := |b| - 1;
    if b != [] && b[n] == 0 {
      StripRestores(b[..n]);
      assert PadRight(StripZero(b), |b|) == PadRight(StripZero(b[..n]), n) + [0];
      assert b == b[..n] + [b[n]];
    }
  }

  /** Padded on the right, two byte strings agree exactly if they do without trailing zeros. */
  lemma {:induction false} PadRightAgrees(a: seq<Byte>, b: seq<Byte>, n: nat)
    requires |a| <= n && |b| <= n
    ensures PadRight(a, n) == PadRight(b, n) <==> StripZero(a) == StripZero(b)
  {
    StripPadded(a, n);
    StripPadded(b, n);
    StripRestores(PadRight(a, n));
    StripRestores(PadRight(b, n));
  }

  /** What of a plain id is encoded: its characters, lone surrogates replaced, without NULs at the end. */
  function Encoded(u: seq<CodeUnit>): string { StripNul(TextOf(u)) }

  /** Two plain ids name the same order exactly if they agree up to lone surrogates and NULs at the end. */
  lemma PlainIdsCollideExactly(u: seq<CodeUnit>, v: seq<CodeUnit>)
    requires FormOf(TextOf(u)).Plain? && FormOf(TextOf(v)).Plain?
    requires Encode(Str(u)).Success? && Encode(Str(v)).Success?
    ensures Encode(Str(u)) == Encode(Str(v)) <==> Encoded(u) == Encoded(v)
  {
    var s, t := TextOf(u), TextOf(v);
    PadRightAgrees(Utf8(s), Utf8(t), 32);
    StripAgrees(s);
    StripAgrees(t);
    if Utf8(StripNul(s)) == Utf8(StripNul(t)) { Utf8Injective(StripNul(s), StripNul(t)); }
  }

  predicate NoNulAtEnd(u: seq<CodeUnit>) { u != [] ==> u[|u| - 1] != 0 }

  lemma {:induction false} LastScalar(u: seq<CodeUnit>)
    requires u != [] && u[|u| - 1] != 0
    ensures Scalars(u) != "" && Scalars(u)[|Scalars(u)| - 1] != '\0'
  {
    var s := Scalars(u);
    if High(u[0]) && |u| > 1 && Low(u[1]) {
      if |u| > 2 {
        LastScalar(u[2..]);
        assert s[1..] == Scalars(u[2..]);
      } else {
        assert u[2..] == [];
      }
    } else if |u| > 1 {
      LastScalar(u[1..]);
      assert s[1..] == Scalars(u[1..]);
    } else {
      assert u[1..] == [];
    }
  }

  /** In particular plain ids without a lone surrogate or a NUL at the end are told apart. */
  lemma PlainIdsDistinct(u: seq<CodeUnit>, v: seq<CodeUnit>)
    requires FormOf(TextOf(u)).Plain? && FormOf(TextOf(v)).Plain?
    requires NoNulAtEnd(TrimUnits(u)) && NoNulAtEnd(TrimUnits(v))
    requires WellFormed(TrimUnits(u)) == TrimUnits(u) && WellFormed(TrimUnits(v)) == TrimUnits(v)
    requires Encode(Str(u)).Success? && Encode(Str(u)) == Encode(Str(v))
    ensures TrimUnits(u) == TrimUnits(v)
  {
    PlainIdsCollideExactly(u, v);
    if TrimUnits(u) != [] { LastScalar(TrimUnits(u)); }
    if TrimUnits(v) != [] { LastScalar(TrimUnits(v)); }
    SameScalars(TrimUnits(u), TrimUnits(v));
  }

  // ----- Across the forms -----

  lemma {:induction false} PadRightValue(b: seq<Byte>, n: nat)
    requires |b| <= n
    ensures BytesValue(PadRight(b, n)) == BytesValue(b) * Limit(n - |b|)
  {
    if |b| < n {
      PadRightValue(b, n - 1);
      assert PadRight(b, n)[..n - 1] == PadRight(b, n - 1);
      Shifted(BytesValue(b), Limit(n - 1 - |b|));
    } else {
      assert PadRight(b, n) == b;
    }
  }

  lemma Shifted(v: nat, m: nat)
    ensures 256 * (v * m) == v * (256 * m)
  {}

  /** The number an encoded id stands for: that of its digits, of its bytes, or of its UTF-8 moved to the left end. */
  function NumberOfId(id: Id): int
    requires Encode(id).Success?
  {
    match id
    case Raw(b) => BytesValue(if |b| <= 32 then b else b[|b| - 32..])
    case Str(units) =>
      var t := TextOf(units);
      match NumberOf(t)
      case Some(n) => n
      case None => BytesValue(Utf8(t)) * Limit(32 - |Utf8(t)|)
  }

  lemma EncodesNumber(id: Id)
    requires Encode(id).Success?
    ensures |Encode(id).value| == 32 && BytesValue(Encode(id).value) == NumberOfId(id)
  {
    match id
    case Raw(b) => if |b| <= 32 { PadLeftValue(b, 32); }
    case Str(units) =>
      var t := TextOf(units);
      EncodesTo32(t);
      if NumberOf(t).Some? { NumberSurvives(t); } else { PadRightValue(Utf8(t), 32); }
  }

  /** Two ids of any forms, raw bytes included, name the same order exactly if they stand for the same number. */
  lemma IdsCollideExactly(a: Id, b: Id)
    requires Encode(a).Success? && Encode(b).Success?
    ensures Encode(a) == Encode(b) <==> NumberOfId(a) == NumberOfId(b)
  {
    EncodesNumber(a);
    EncodesNumber(b);
    if NumberOfId(a) == NumberOfId(b) { ValueDetermines(Encode(a).value, Encode(b).value); }
  }

  lemma {:induction false} LeadingByte(b: seq<Byte>)
    requires b != [] && b[0] != 0
    ensures BytesValue(b) >= Limit(|b| - 1)
  {
    if |b| > 1 { LeadingByte(b[..|b| - 1]); }
  }

  /** A number below the first of 32 bytes names no order that a plain id names, unless that starts with NUL. */
  lemma SmallNumbersMeetNoPlainId(t: string, u: string)
    requires EncodeText(t).Success? && NumberOf(t).Some? && NumberOf(t).value < Limit(31)
    requires EncodeText(u).Success? && FormOf(u).Plain? && u != "" && u[0] != '\0'
    ensures EncodeText(t) != EncodeText(u)
  {
    NumberSurvives(t);
    CharNonZero(u[0]);
    LeadingByte(EncodeText(u).value);
  }

  // ----- The encoder over byte arrays -----

  /** `Uint8Array.set` */
  method SetBytes(target: array<Byte>, source: seq<Byte>, offset: nat)
    requires offset + |source| <= target.Length
    modifies target
    ensures target[..] == old(target[..offset]) + source + old(target[offset + |source|..])
  {
    var i := 0;
    while i < |source|
      invariant 0 <= i <= |source|
      invariant target[..] == old(target[..offset]) + source[..i] + old(target[offset + i..])
    {
      target[offset + i] := source[i];
      i := i + 1;
    }
    assert source[..i] == source;
  }

  method Blank(n: nat) returns (b: array<Byte>)
    ensures fresh(b) && b[..] == Zeros(n)
  {
    b := new Byte[n](_ => 0);
  }

  /** `getBytes` on an even number of hex digits. */
  method ParseHex(digits: string) returns (b: array<Byte>)
    requires AllHex(digits) && |digits| % 2 == 0
    ensures fresh(b) && b[..] == FromHex(digits)
  {
    var n := |digits| / 2;
    b := Blank(n);
    for i := 0 to n
      invariant b[..i] == FromHex(digits[..2 * i])
    {
      b[i] := 16 * HexDigitValue(digits[2 * i]) + HexDigitValue(digits[2 * i + 1]);
      assert digits[..2 * (i + 1)][..2 * i] == digits[..2 * i];
      assert b[..i + 1] == b[..i] + [b[i]];
    }
    assert digits[..2 * n] == digits && b[..n] == b[..];
  }

  /** `BigInt` of a decimal numeral. */
  method ParseDecimal(digits: string) returns (v: nat)
    requires AllDigits(digits)
    ensures v == DecimalValue(digits)
  {
    v := 0;
    for i := 0 to |digits|
      invariant v == DecimalValue(digits[..i])
    {
      v := 10 * v + DigitValue(digits[i]);
      assert digits[..i + 1][..i] == digits[..i];
    }
    assert digits[..|digits|] == digits;
  }

  /** `toBeHex(v, n)`: base-256 digits from the last. */
  method BigEndian(v: nat, n: nat) returns (b: array<Byte>)
    ensures fresh(b) && b[..] == ToBytes(v, n)
  {
    b := Blank(n);
    var rest, i := v, n;
    while i > 0
      invariant 0 <= i <= n
      invariant ToBytes(v, n) == ToBytes(rest, i) + b[i..]
    {
      i := i - 1;
      b[i] := rest % 256;
      assert ToBytes(rest, i + 1) == ToBytes(rest / 256, i) + [b[i]];
      assert b[i..] == [b[i]] + b[i + 1..];
      rest := rest / 256;
    }
    assert b[0..] == b[..];
  }

  /** `zeroPadValue(bytes, 32)` */
  method ZeroPad32(bytes: seq<Byte>) returns (r: Result<seq<Byte>, Refusal>)
    ensures r == if |bytes| > 32 then Failure(TooLong) else Success(PadLeft(bytes, 32))
  {
    if |bytes| > 32 {
      return Failure(TooLong);
    }
    var b := Blank(32);
    SetBytes(b, bytes, 32 - |bytes|);
    assert b[..] == PadLeft(bytes, 32);
    return Success(b[..]);
  }

  method TextToBytes32(t: string) returns (r: Result<seq<Byte>, Refusal>)
    ensures r == EncodeText(t)
  {
    match FormOf(t) {
      case Prefixed(digits) =>
        if |digits| % 2 != 0 {
          return Failure(OddHex);
        }
        if !AllHex(digits) {
          return Failure(NotHex);
        }
        var buf := ParseHex(digits);
        r := ZeroPad32(buf[..]);
      case Numeral =>
        var v := ParseDecimal(t);
        if v >= Limit(32) {
          return Failure(TooLarge);
        }
        var b := BigEndian(v, 32);
        r := Success(b[..]);
      case BareHex =>
        var buf := ParseHex(t);
        r := ZeroPad32(buf[..]);
      case Plain =>
        var enc := Utf8(t);
        if |enc| > 32 {
          return Failure(TooLong);
        }
        var padded := Blank(32);
        SetBytes(padded, enc, 0);
        assert padded[..] == PadRight(enc, 32);
        r := Success(padded[..]);
    }
  }

  method OrderIdToBytes32(id: Id) returns (r: Result<seq<Byte>, Refusal>)
    ensures r == Encode(id)
  {
    match id {
      case Raw(bytes) =>
        var b := Blank(32);
        var len := |bytes|;
        if len <= 32 {
          SetBytes(b, bytes, 32 - len);
        } else {
          SetBytes(b, bytes[len - 32..], 0);
        }
        assert b[..] == Encode(id).value;
        return Success(b[..]);
      case Str(units) =>
        r := TextToBytes32(TextOf(units));
    }
  }
}
