/**
 Exact decimal amounts.  A `Big` is its real value: products and roundings of decimals are exact,
 so only division, which keeps twenty places, needs a rounding of its own.  Powers of ten are
 applied digit by digit.
 */
module Decimal {
  import opened Common

  /** `x * 10^n` */
  function Up(x: real, n: nat): real { if n == 0 then x else 10.0 * Up(x, n - 1) }

  /** `x / 10^n`, exactly */
  function Down(x: real, n: nat): real { if n == 0 then x else Down(x, n - 1) / 10.0 }

  /** `k * 10^n` on integers */
  function Grow(k: int, n: nat): int { if n == 0 then k else 10 * Grow(k, n - 1) }

  function Ten(n: nat): (r: int)
    ensures r >= 1
  {
    if n == 0 then 1 else 10 * Ten(n - 1)
  }

  function Abs(x: real): real { if x < 0.0 then -x else x }

  // ----- Rounding a real to an integer -----

  /** Toward zero. */
  function Trunc(x: real): int { if x >= 0.0 then x.Floor else -((-x).Floor) }

  /** To the nearest, ties to the even neighbour. */
  function HalfEven(x: real): int {
    var f := x.Floor;
    var frac := x - f as real;
    if frac < 0.5 || (frac == 0.5 && f % 2 == 0) then f else f + 1
  }

  /** To the nearest, ties away from zero: the rounding of a division. */
  function HalfUp(x: real): int { if x >= 0.0 then (x + 0.5).Floor else -((-x + 0.5).Floor) }

  // ----- The helpers -----

  datatype Fault = BadDecimals | TooPrecise(value: real, displayDecimals: nat) | BelowMin | AboveMax

  const DIVISION_PLACES := 20

  const DISPLAY_PRECISION_TOLERANCE := 0.0000000001

  function Wei(v: real, d: nat): int { Trunc(Up(v, d)) }

  function ToWei(v: real, decimals: int): Result<int, Fault> {
    if decimals < 0 then Failure(BadDecimals) else Success(Wei(v, decimals))
  }

  /** Division by `10^d`, rounded to a number of places. */
  function Divided(w: int, d: nat, places: nat): real {
    Down(HalfUp(Up(Down(w as real, d), places)) as real, places)
  }

  function FromWei(w: int, decimals: int): Result<real, Fault> {
    if decimals < 0 then Failure(BadDecimals) else Success(Divided(w, decimals, DIVISION_PLACES))
  }

  function Quantized(v: real, dd: nat): real { Down(Trunc(Up(v, dd)) as real, dd) }

  function QuantizeToDisplay(v: real, displayDecimals: int): Result<real, Fault> {
    if displayDecimals < 0 then Failure(BadDecimals) else Success(Quantized(v, displayDecimals))
  }

  function Nearest(v: real, dd: nat): real { Down(HalfEven(Up(v, dd)) as real, dd) }

  function CheckDisplayPrecision(v: real, displayDecimals: int): Result<real, Fault> {
    if displayDecimals < 0 then Failure(BadDecimals)
    else if v == 0.0 then Success(v)
    else if Abs(v - Nearest(v, displayDecimals)) > DISPLAY_PRECISION_TOLERANCE
    then Failure(TooPrecise(v, displayDecimals))
    else Success(Nearest(v, displayDecimals))
  }

  function CheckTradeAmountBounds(price: Option<real>, amount: real, min: real, max: real): Result<(), Fault> {
    if price.None? then Success(())
    else if min > 0.0 && price.value * amount < min then Failure(BelowMin)
    else if max > 0.0 && price.value * amount > max then Failure(AboveMax)
    else Success(())
  }

  // ----- Scaling laws -----

  lemma {:induction false} UpInner(x: real, n: nat)
    ensures Up(10.0 * x, n) == 10.0 * Up(x, n)
  {
    if n > 0 { UpInner(x, n - 1); }
  }

  lemma {:induction false} UpDown(x: real, n: nat)
    ensures Up(Down(x, n), n) == x
  {
    if n > 0 {
      UpInner(Down(x, n), n - 1);
      UpDown(x, n - 1);
    }
  }

  lemma {:induction false} UpAdd(x: real, a: nat, b: nat)
    ensures Up(Up(x, a), b) == Up(x, a + b)
  {
    if b > 0 { UpAdd(x, a, b - 1); }
  }

  lemma {:induction false} UpLinear(x: real, y: real, n: nat)
    ensures Up(x - y, n) == Up(x, n) - Up(y, n) && Up(-x, n) == -Up(x, n)
    ensures (x <= y <==> Up(x, n) <= Up(y, n)) && (x == y <==> Up(x, n) == Up(y, n))
    ensures x >= 0.0 <==> Up(x, n) >= 0.0
  {
    if n > 0 { UpLinear(x, y, n - 1); }
  }

  lemma {:induction false} UpOfInteger(k: int, n: nat)
    ensures Up(k as real, n) == Grow(k, n) as real
  {
    if n > 0 { UpOfInteger(k, n - 1); }
  }

  lemma {:induction false} DownUp(x: real, n: nat)
    ensures Down(Up(x, n), n) == x
  {
    UpDown(Up(x, n), n);
    UpLinear(Down(Up(x, n), n), x, n);
  }

  /** `k` units of `10^-dd` are `k * 10^(d - dd)` units of `10^-d`. */
  lemma Rescale(k: int, dd: nat, d: nat)
    requires dd <= d
    ensures Up(Down(k as real, dd), d) == Grow(k, d - dd) as real
    ensures Down(Grow(k, d - dd) as real, d) == Down(k as real, dd)
  {
    var x := Down(k as real, dd);
    UpAdd(x, dd, d - dd);
    UpDown(k as real, dd);
    UpOfInteger(k, d - dd);
    DownUp(x, d);
  }

  lemma {:induction false} GrowIsProduct(k: int, n: nat)
    ensures Grow(k, n) == k * Ten(n)
  {
    if n > 0 { GrowIsProduct(k, n - 1); }
  }

  // ----- Wei -----

  /** The integer part is the closest integer not beyond the value, seen from zero. */
  lemma TruncMeaning(x: real)
    ensures x >= 0.0 ==> Trunc(x) as real <= x < Trunc(x) as real + 1.0 && Trunc(x) >= 0
    ensures x <= 0.0 ==> Trunc(x) as real - 1.0 < x <= Trunc(x) as real && Trunc(x) <= 0
    ensures Trunc(-x) == -Trunc(x)
  {}

  lemma IntegersStay(n: int)
    ensures Trunc(n as real) == n && HalfUp(n as real) == n && HalfEven(n as real) == n
  {}

  lemma WeiMonotone(v: real, w: real, d: nat)
    requires v <= w
    ensures Wei(v, d) <= Wei(w, d)
  {
    UpLinear(v, w, d);
  }

  lemma WeiOdd(v: real, d: nat)
    ensures Wei(-v, d) == -Wei(v, d)
  {
    UpLinear(v, v, d);
  }

  lemma {:induction false} DividedExact(w: int, d: nat, places: nat)
    requires d <= places
    ensures Divided(w, d, places) == Down(w as real, d)
  {
    Rescale(w, d, places);
    IntegersStay(Grow(w, places - d));
  }

  /** With too few places, division loses what does not divide evenly. */
  lemma {:induction false} DividedRounds(w: int, d: nat, places: nat)
    requires d > places
    ensures Wei(Divided(w, d, places), d) == Grow(HalfUp(Down(w as real, d - places)), d - places)
  {
    var x := Down(w as real, d);
    UpAdd(x, places, d - places);
    UpDown(w as real, d);
    DownUp(Up(x, places), d - places);
    Rescale(HalfUp(Up(x, places)), places, d);
    IntegersStay(Grow(HalfUp(Up(x, places)), d - places));
  }

  lemma {:induction false} DivisibleIsGrown(w: int, n: nat)
    ensures w % Ten(n) == 0 <==> exists k: int :: w == Grow(k, n)
  {
    var u := Ten(n);
    GrowIsProduct(w, n);
    if w % u == 0 {
      GrowIsProduct(w / u, n);
      assert w == Grow(w / u, n);
    }
    if k: int :| w == Grow(k, n) {
      GrowIsProduct(k, n);
      ModOfProduct(k, u);
    }
  }

  lemma ModOfProduct(r: int, u: int)
    requires u >= 1
    ensures (r * u) % u == 0
  {
    var q, m := (r * u) / u, (r * u) % u;
    assert (r - q) * u == m;
    Small(r - q, u);
  }

  lemma Small(k: int, u: int)
    requires u >= 1 && -u < k * u < u
    ensures k == 0
  {}

  lemma {:induction false} DividedRoundTrip(w: int, d: nat, places: nat)
    ensures Wei(Divided(w, d, places), d) == w <==> d <= places || w % Ten(d - places) == 0
  {
    if d <= places {
      DividedExact(w, d, places);
      UpDown(w as real, d);
      IntegersStay(w);
    } else {
      var u := d - places;
      DividedRounds(w, d, places);
      DivisibleIsGrown(w, u);
      if k: int :| w == Grow(k, u) {
        UpOfInteger(k, u);
        DownUp(k as real, u);
        IntegersStay(k);
      }
    }
  }

  /** `k` is at most a half away from `x`, and the outer one of two such integers. */
  predicate NearestAway(x: real, k: int) {
    Abs(x - k as real) <= 0.5 && (Abs(x - k as real) == 0.5 ==> Abs(k as real) > Abs(x))
  }

  lemma RoundsHalfAway(x: real, k: int)
    ensures HalfUp(x) == k <==> NearestAway(x, k)
  {
    var f := x.Floor;
    if k < f { assert k as real + 1.0 <= f as real; }
    if k > f + 1 { assert f as real + 2.0 <= k as real; }
  }

  /**
   `fromWei` is exact up to as many decimals as division keeps places, and beyond them is the nearest
   number with that many places, the outer one of two.
   */
  lemma {:induction false} FromWeiExactly(w: int, decimals: nat) returns (k: int)
    ensures FromWei(w, decimals).Success?
    ensures decimals <= DIVISION_PLACES ==> Up(FromWei(w, decimals).value, decimals) == w as real
    ensures decimals > DIVISION_PLACES ==>
              && NearestAway(Up(Down(w as real, decimals), DIVISION_PLACES), k)
              && Up(FromWei(w, decimals).value, DIVISION_PLACES) == k as real
  {
    k := w;
    if decimals <= DIVISION_PLACES {
      DividedExact(w, decimals, DIVISION_PLACES);
      UpDown(w as real, decimals);
    } else {
      var x := Up(Down(w as real, decimals), DIVISION_PLACES);
      k := HalfUp(x);
      UpDown(k as real, DIVISION_PLACES);
      RoundsHalfAway(x, k);
    }
  }

  /**
   `fromWei` and `toWei` back is the identity exactly up to as many decimals as division keeps
   places, and beyond them exactly for amounts without digits in the missing places.
   */
  lemma {:induction false} RoundTripExactly(w: int, decimals: int)
    ensures FromWei(w, decimals).Success? <==> decimals >= 0
    ensures decimals >= 0 ==>
              (ToWei(FromWei(w, decimals).value, decimals) == Success(w)
               <==> decimals <= DIVISION_PLACES || w % Ten(decimals - DIVISION_PLACES) == 0)
  {
    if decimals >= 0 { DividedRoundTrip(w, decimals, DIVISION_PLACES); }
  }

  // ----- Quantizing -----

  /** Quantizing again changes nothing. */
  lemma QuantizeIdempotent(v: real, displayDecimals: int)
    ensures QuantizeToDisplay(v, displayDecimals).Success? <==> displayDecimals >= 0
    ensures displayDecimals >= 0 ==>
              var r := QuantizeToDisplay(v, displayDecimals);
              QuantizeToDisplay(r.value, displayDecimals) == r
  {
    if displayDecimals >= 0 {
      UpDown(Trunc(Up(v, displayDecimals)) as real, displayDecimals);
      IntegersStay(Trunc(Up(v, displayDecimals)));
    }
  }

  /** The largest multiple of `m` not beyond `n`, seen from zero. */
  function TruncTo(n: int, m: int): int
    requires m >= 1
  {
    if n >= 0 then n - n % m else -((-n) - (-n) % m)
  }

  lemma DownOdd(x: real, n: nat)
    ensures Down(-x, n) == -Down(x, n)
  {
    UpDown(x, n);
    UpDown(-x, n);
    UpLinear(Down(x, n), Down(x, n), n);
    UpLinear(Down(-x, n), -Down(x, n), n);
  }

  lemma QuantizedOdd(v: real, dd: nat)
    ensures Quantized(-v, dd) == -Quantized(v, dd)
  {
    UpLinear(v, v, dd);
    TruncMeaning(Up(v, dd));
    DownOdd(Trunc(Up(v, dd)) as real, dd);
  }

  lemma {:induction false} QuantizedWeiPositive(v: real, dd: nat, d: nat)
    requires dd <= d && v >= 0.0
    ensures Wei(Quantized(v, dd), d) == TruncTo(Wei(v, d), Ten(d - dd)) && Wei(v, d) >= 0
  {
    var k, u := Trunc(Up(v, dd)), d - dd;
    assert k as real <= Up(v, dd) < (k + 1) as real && Up(v, d) >= 0.0 by {
      UpLinear(v, v, dd);
      UpLinear(v, v, d);
    }
    assert Grow(k, u) as real <= Up(v, d) < Grow(k + 1, u) as real by {
      UpAdd(v, dd, u);
      UpLinear(k as real, Up(v, dd), u);
      UpLinear((k + 1) as real, Up(v, dd), u);
      UpOfInteger(k, u);
      UpOfInteger(k + 1, u);
    }
    Rescale(k, dd, d);
    IntegersStay(Grow(k, u));
    GrowIsProduct(k, u);
    GrowIsProduct(k + 1, u);
    Between(k, Ten(u), Wei(v, d));
  }

  lemma Between(k: int, u: int, w: int)
    requires u >= 1 && k * u <= w < (k + 1) * u
    ensures w - w % u == k * u
  {
    var q, m := w / u, w % u;
    assert (k + 1) * u == k * u + u;
    assert (q - k) * u == (w - k * u) - m;
    Small(q - k, u);
  }

  /** With more displayed digits than the token has, quantizing takes nothing that conversion keeps. */
  lemma {:induction false} QuantizedFinerPositive(v: real, dd: nat, d: nat)
    requires d < dd && v >= 0.0
    ensures Wei(Quantized(v, dd), d) == Wei(v, d)
  {
    var k, u, n := Trunc(Up(v, dd)), dd - d, Wei(v, d);
    UpLinear(v, v, d);
    UpLinear(v, v, dd);
    UpAdd(v, d, u);
    ScaledBounds(n, Up(v, d), u);
    assert Grow(n, u) <= k < Grow(n + 1, u);
    var y := Up(Down(k as real, dd), d);
    UpAdd(Down(k as real, dd), d, u);
    UpDown(k as real, dd);
    ScaledBounds(n, y, u);
  }

  lemma {:induction false} ScaledBounds(n: int, x: real, u: nat)
    ensures n as real <= x <==> Grow(n, u) as real <= Up(x, u)
    ensures x < n as real + 1.0 <==> Up(x, u) < Grow(n + 1, u) as real
  {
    UpLinear(n as real, x, u);
    UpLinear((n + 1) as real, x, u);
    UpOfInteger(n, u);
    UpOfInteger(n + 1, u);
  }

  lemma {:induction false} QuantizedFiner(v: real, dd: nat, d: nat)
    requires d < dd
    ensures Wei(Quantized(v, dd), d) == Wei(v, d)
  {
    if v >= 0.0 {
      QuantizedFinerPositive(v, dd, d);
    } else {
      QuantizedFinerPositive(-v, dd, d);
      QuantizedOdd(v, dd);
      WeiOdd(Quantized(v, dd), d);
      WeiOdd(v, d);
    }
  }

  lemma {:induction false} QuantizedCoarser(v: real, dd: nat, d: nat)
    requires dd <= d
    ensures Wei(Quantized(v, dd), d) == TruncTo(Wei(v, d), Ten(d - dd))
  {
    if v >= 0.0 {
      QuantizedWeiPositive(v, dd, d);
    } else {
      QuantizedWeiPositive(-v, dd, d);
      QuantizedOdd(v, dd);
      WeiOdd(Quantized(v, dd), d);
      WeiOdd(v, d);
      TruncToOdd(Wei(v, d), Ten(d - dd));
    }
  }

  /**
   `toWei` of a quantized value is that of the value itself truncated to whole displayed units; with
   more displayed digits than decimals it is the same.
   */
  lemma {:induction false} QuantizedWei(v: real, displayDecimals: int, decimals: int)
    requires displayDecimals >= 0 && decimals >= 0
    ensures QuantizeToDisplay(v, displayDecimals).Success? && ToWei(v, decimals).Success?
    ensures ToWei(QuantizeToDisplay(v, displayDecimals).value, decimals)
            == Success(if displayDecimals <= decimals
                       then TruncTo(ToWei(v, decimals).value, Ten(decimals - displayDecimals))
                       else ToWei(v, decimals).value)
  {
    if displayDecimals <= decimals { QuantizedCoarser(v, displayDecimals, decimals); }
    else { QuantizedFiner(v, displayDecimals, decimals); }
  }

  lemma TruncToOdd(n: int, m: int)
    requires m >= 1
    ensures TruncTo(-n, m) == -TruncTo(n, m)
  {}

  // ----- The display check -----

  /** `x` is within the tolerance of the displayable value `k / 10^dd`. */
  ghost predicate Near(v: real, k: int, dd: nat) { Abs(v - Down(k as real, dd)) <= DISPLAY_PRECISION_TOLERANCE }

  /** The one integer at most a half away, the even one of two. */
  lemma RoundsHalfEven(x: real, k: int)
    ensures HalfEven(x) == k <==> Abs(x - k as real) <= 0.5 && (Abs(x - k as real) == 0.5 ==> k % 2 == 0)
  {
    HalfEvenIsNear(x);
    var f := x.Floor;
    if k < f { assert k as real + 1.0 <= f as real; }
    if k > f + 1 { assert f as real + 2.0 <= k as real; }
  }

  lemma HalfEvenIsNear(x: real)
    ensures var f, r := x.Floor, HalfEven(x);
      && (r == f ==> x - f as real <= 0.5) && (r != f ==> r == f + 1 && x - f as real >= 0.5)
      && Abs(x - r as real) <= 0.5
  {}

  lemma HalfEvenIsNearest(x: real, k: int)
    ensures Abs(x - HalfEven(x) as real) <= Abs(x - k as real)
    ensures Abs(x - HalfEven(x) as real) <= 0.5
  {
    HalfEvenIsNear(x);
    var f := x.Floor;
    if k <= f {
      assert k as real <= f as real <= x;
    } else {
      assert x < f as real + 1.0 <= k as real;
    }
  }

  /** Distances scale with the unit. */
  lemma UpOfDistance(v: real, k: int, dd: nat)
    ensures Up(Abs(v - Down(k as real, dd)), dd) == Abs(Up(v, dd) - k as real)
  {
    var y := Down(k as real, dd);
    UpDown(k as real, dd);
    UpLinear(v, y, dd);
    UpLinear(v - y, v - y, dd);
  }

  /** No displayable value is nearer than the one the check proposes. */
  lemma NearestIsNearest(v: real, k: int, dd: nat)
    ensures Abs(v - Nearest(v, dd)) <= Abs(v - Down(k as real, dd))
  {
    var x := Up(v, dd);
    HalfEvenIsNearest(x, k);
    UpOfDistance(v, k, dd);
    UpOfDistance(v, HalfEven(x), dd);
    UpLinear(Abs(v - Nearest(v, dd)), Abs(v - Down(k as real, dd)), dd);
  }

  lemma {:induction false} DownZero(dd: nat)
    ensures Down(0.0, dd) == 0.0
  {
    DownUp(0.0, dd);
    UpLinear(0.0, 0.0, dd);
  }

  /** An amount is accepted exactly when some displayable value lies within the tolerance. */
  lemma AcceptsExactly(v: real, dd: nat)
    ensures CheckDisplayPrecision(v, dd).Success? <==> exists k: int :: Near(v, k, dd)
  {
    if v == 0.0 {
      DownZero(dd);
      assert Near(v, 0, dd);
    } else {
      if k: int :| Near(v, k, dd) { NearestIsNearest(v, k, dd); }
      assert CheckDisplayPrecision(v, dd).Success? ==> Near(v, HalfEven(Up(v, dd)), dd);
    }
  }

  /** What is accepted is snapped to a displayable value within the tolerance, as near as any. */
  lemma SnapsToNearest(v: real, dd: nat) returns (k: int)
    requires CheckDisplayPrecision(v, dd).Success?
    ensures CheckDisplayPrecision(v, dd).value == Down(k as real, dd) && Near(v, k, dd)
    ensures forall m: int :: Near(v, m, dd) ==>
              Abs(v - CheckDisplayPrecision(v, dd).value) <= Abs(v - Down(m as real, dd))
  {
    k := if v == 0.0 then 0 else HalfEven(Up(v, dd));
    DownZero(dd);
    forall m: int | Near(v, m, dd)
      ensures Abs(v - CheckDisplayPrecision(v, dd).value) <= Abs(v - Down(m as real, dd))
    {
      if v != 0.0 { NearestIsNearest(v, m, dd); }
    }
  }

  /** Snapping again changes nothing. */
  lemma SnapIdempotent(v: real, dd: nat)
    requires CheckDisplayPrecision(v, dd).Success?
    ensures CheckDisplayPrecision(CheckDisplayPrecision(v, dd).value, dd) == CheckDisplayPrecision(v, dd)
  {
    var k := SnapsToNearest(v, dd);
    UpDown(k as real, dd);
    IntegersStay(k);
  }

  lemma {:induction false} UpGrows(x: real, m: nat, n: nat)
    requires x >= 0.0 && m <= n
    ensures 0.0 <= Up(x, m) <= Up(x, n)
    decreases n
  {
    UpLinear(x, x, m);
    if m < n {
      UpGrows(x, m, n - 1);
    }
  }

  lemma ToleranceAtNine()
    ensures Up(DISPLAY_PRECISION_TOLERANCE, 9) == 0.1
  {
    assert Up(DISPLAY_PRECISION_TOLERANCE, 3) == 0.0000001;
    UpAdd(DISPLAY_PRECISION_TOLERANCE, 3, 3);
    assert Up(0.0000001, 3) == 0.0001;
    UpAdd(DISPLAY_PRECISION_TOLERANCE, 6, 3);
    assert Up(0.0001, 3) == 0.1;
  }

  /** Up to nine display decimals at most one displayable value is within the tolerance. */
  lemma SnapUnique(v: real, dd: nat, k: int, m: int)
    requires dd <= 9 && Near(v, k, dd) && Near(v, m, dd)
    ensures k == m
  {
    ToleranceAtNine();
    UpGrows(DISPLAY_PRECISION_TOLERANCE, dd, 9);
    UpOfDistance(v, k, dd);
    UpOfDistance(v, m, dd);
    UpLinear(Abs(v - Down(k as real, dd)), DISPLAY_PRECISION_TOLERANCE, dd);
    UpLinear(Abs(v - Down(m as real, dd)), DISPLAY_PRECISION_TOLERANCE, dd);
  }

  /** From ten display decimals on nothing is rejected. */
  lemma NeverRejectsFromTen(v: real, dd: nat)
    requires dd >= 10
    ensures CheckDisplayPrecision(v, dd).Success?
  {
    ToleranceAtNine();
    UpGrows(DISPLAY_PRECISION_TOLERANCE, 10, dd);
    var k := HalfEven(Up(v, dd));
    HalfEvenIsNearest(Up(v, dd), k);
    UpOfDistance(v, k, dd);
    UpLinear(Abs(v - Down(k as real, dd)), DISPLAY_PRECISION_TOLERANCE, dd);
    assert Near(v, k, dd);
    AcceptsExactly(v, dd);
  }

  /** How many displayed units the amount is nearest to. */
  function DisplayUnits(v: real, dd: nat): int { HalfEven(Up(v, dd)) }

  lemma {:induction false} UpZero(n: nat)
    ensures Up(0.0, n) == 0.0
  {
    if n > 0 { UpZero(n - 1); }
  }

  lemma {:induction false} SnapsToUnits(v: real, dd: nat)
    requires CheckDisplayPrecision(v, dd).Success?
    ensures CheckDisplayPrecision(v, dd).value == Down(DisplayUnits(v, dd) as real, dd)
  {
    UpZero(dd);
    DownZero(dd);
    IntegersStay(0);
  }

  lemma {:induction false} UnitsOfPositive(v: real, dd: nat)
    requires v > 0.0
    ensures DisplayUnits(v, dd) >= 0 && (DisplayUnits(v, dd) == 0 <==> Up(v, dd) <= 0.5)
  {
    UpLinear(v, v, dd);
    var x := Up(v, dd);
    if x < 1.0 { assert x.Floor == 0; }
  }

  /**
   A positive amount is snapped to zero exactly when it is within the tolerance of zero and at most
   half a displayed unit.
   */
  lemma {:induction false} PositiveSnapsToZeroExactly(v: real, dd: nat)
    requires v > 0.0
    ensures CheckDisplayPrecision(v, dd) == Success(0.0) <==> v <= DISPLAY_PRECISION_TOLERANCE && Up(v, dd) <= 0.5
  {
    DownZero(dd);
    UnitsOfPositive(v, dd);
    var k := DisplayUnits(v, dd);
    UpDown(k as real, dd);
    UpZero(dd);
    assert Down(k as real, dd) == 0.0 ==> k == 0;
  }

  /** Up to nine decimals the tolerance alone decides. */
  lemma {:induction false} HalfUnitExceedsTolerance(v: real, dd: nat)
    requires 0.0 < v <= DISPLAY_PRECISION_TOLERANCE && dd <= 9
    ensures Up(v, dd) <= 0.5
  {
    ToleranceAtNine();
    UpGrows(DISPLAY_PRECISION_TOLERANCE, dd, 9);
    UpLinear(v, DISPLAY_PRECISION_TOLERANCE, dd);
  }

  /** The wei of `k` displayed units, when a display shows more digits than the token has. */
  lemma TruncatedUnits(k: int, display: nat, decimals: nat)
    requires display > decimals
    ensures var x, m := Up(Down(k as real, display), decimals), Ten(display - decimals);
      && (Trunc(x) as real == x <==> k % m == 0)
      && (k >= 0 ==> x >= 0.0 && (Trunc(x) == 0 <==> k < m))
  {
    var x, n := Up(Down(k as real, display), decimals), display - decimals;
    UpAdd(Down(k as real, display), n, decimals);
    UpAdd(Down(k as real, display), decimals, n);
    UpDown(k as real, display);
    assert Up(x, n) == k as real;
    UpOfInteger(Trunc(x), n);
    UpLinear(x, Trunc(x) as real, n);
    DivisibleIsGrown(k, n);
    if j: int :| k == Grow(j, n) {
      UpOfInteger(j, n);
      UpLinear(x, j as real, n);
      IntegersStay(j);
    }
    UpLinear(x, x, n);
    UpOfInteger(1, n);
    GrowIsProduct(1, n);
    UpLinear(1.0, x, n);
    TruncMeaning(x);
  }

  /** A displayed value converts to wei without loss exactly when the token's digits hold it. */
  lemma DisplayedToWeiExactly(k: int, display: nat, decimals: nat)
    ensures var r := Down(k as real, display);
      Wei(r, decimals) as real == Up(r, decimals) <==> display <= decimals || k % Ten(display - decimals) == 0
  {
    if display <= decimals {
      Rescale(k, display, decimals);
      IntegersStay(Grow(k, decimals - display));
    } else {
      TruncatedUnits(k, display, decimals);
    }
  }

  lemma {:induction false} UpMoves(x: real, y: real, n: nat)
    ensures Up(x, n) * y == Up(x * y, n)
  {
    if n > 0 {
      UpMoves(x, y, n - 1);
      assert 10.0 * Up(x, n - 1) * y == 10.0 * (Up(x, n - 1) * y);
    }
  }

  lemma UpProduct(x: real, m: nat, y: real, n: nat)
    ensures Up(x, m) * Up(y, n) == Up(x * y, m + n)
  {
    UpMoves(x, Up(y, n), m);
    UpMoves(y, x, n);
    assert x * Up(y, n) == Up(x * y, n) by { assert y * x == x * y && Up(y, n) * x == x * Up(y, n); }
    UpAdd(x * y, n, m);
  }
}
