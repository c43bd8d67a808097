/** `_normalizeOrderAmounts` and the conversion to wei that order placement applies to its result. */
module Orders {
  import opened Common
  import opened Decimal

  /** A pair's display digits, token decimals and quote-token bounds; a bound of zero is none. */
  datatype Pair = Pair(
    quoteDisplay: int, baseDisplay: int, quoteDecimals: int, baseDecimals: int, minTrade: real, maxTrade: real)

  /** `Skipped`: null, undefined, the number or string zero, or the empty string. */
  datatype Price = Skipped | Given(value: real)

  datatype Normalized = Normalized(price: Option<real>, amount: real)

  datatype WeiOrder = WeiOrder(price: int, quantity: int)

  function NormalizePrice(price: Price, pair: Pair): Result<Option<real>, Fault> {
    match price
    case Skipped => Success(None)
    case Given(v) =>
      match CheckDisplayPrecision(v, pair.quoteDisplay)
      case Failure(f) => Failure(f)
      case Success(p) => Success(Some(p))
  }

  function NormalizeOrderAmounts(price: Price, amount: real, pair: Pair): Result<Normalized, Fault> {
    match NormalizePrice(price, pair)
    case Failure(f) => Failure(f)
    case Success(p) =>
      match CheckDisplayPrecision(amount, pair.baseDisplay)
      case Failure(f) => Failure(f)
      case Success(a) =>
        match CheckTradeAmountBounds(p, a, pair.minTrade, pair.maxTrade)
        case Failure(f) => Failure(f)
        case Success(_) => Success(Normalized(p, a))
  }

  /** The price and quantity of the order handed to the contract. */
  function OrderWei(price: Price, amount: real, pair: Pair): Result<WeiOrder, Fault> {
    match NormalizeOrderAmounts(price, amount, pair)
    case Failure(f) => Failure(f)
    case Success(n) =>
      match if n.price.None? then Success(0) else ToWei(n.price.value, pair.quoteDecimals)
      case Failure(f) => Failure(f)
      case Success(p) =>
        match ToWei(n.amount, pair.baseDecimals)
        case Failure(f) => Failure(f)
        case Success(q) => Success(WeiOrder(p, q))
  }

  /** Tokens can hold every digit that is displayed. */
  predicate Displayable(pair: Pair) {
    0 <= pair.quoteDisplay <= pair.quoteDecimals && 0 <= pair.baseDisplay <= pair.baseDecimals
  }

  /** `wei` is `snapped` to the last unit, a whole number of displayed units, and near the request. */
  ghost predicate Exact(wei: int, snapped: real, requested: real, display: nat, decimals: nat)
    requires display <= decimals
  {
    && wei as real == Up(snapped, decimals)
    && wei % Ten(decimals - display) == 0
    && Abs(wei as real - Up(requested, decimals)) <= Up(DISPLAY_PRECISION_TOLERANCE, decimals)
  }

  lemma SnappedIsExact(v: real, display: nat, decimals: nat)
    requires display <= decimals && CheckDisplayPrecision(v, display).Success?
    ensures var r := CheckDisplayPrecision(v, display).value;
      Exact(Wei(r, decimals), r, v, display, decimals)
  {
    var r := CheckDisplayPrecision(v, display).value;
    var k := SnapsToNearest(v, display);
    Rescale(k, display, decimals);
    IntegersStay(Grow(k, decimals - display));
    assert Wei(r, decimals) == Grow(k, decimals - display);
    DivisibleIsGrown(Wei(r, decimals), decimals - display);
    UpLinear(r, v, decimals);
    UpLinear(v - r, v - r, decimals);
    UpLinear(Abs(v - r), DISPLAY_PRECISION_TOLERANCE, decimals);
  }

  lemma AsProduct(m: int, n: int)
    ensures (m * n) as real == m as real * n as real
  {}

  /** The product of the wei amounts is the notional in units of both tokens' last digits. */
  lemma WeiProduct(p: int, q: int, price: real, m: nat, amount: real, n: nat)
    requires p as real == Up(price, m) && q as real == Up(amount, n)
    ensures (p * q) as real == Up(price * amount, m + n)
  {
    AsProduct(p, q);
    UpProduct(price, m, amount, n);
  }

  /** The bounds check, read off the wei amounts. */
  lemma BoundsInWei(p: int, q: int, price: real, m: nat, amount: real, n: nat, min: real, max: real)
    requires p as real == Up(price, m) && q as real == Up(amount, n)
    ensures CheckTradeAmountBounds(Some(price), amount, min, max).Success? <==>
              && (min > 0.0 ==> Up(min, m + n) <= (p * q) as real)
              && (max > 0.0 ==> (p * q) as real <= Up(max, m + n))
  {
    WeiProduct(p, q, price, m, amount, n);
    UpLinear(min, price * amount, m + n);
    UpLinear(price * amount, max, m + n);
  }

  /** The bounds that are set hold of the notional in wei. */
  predicate WithinBounds(o: WeiOrder, pair: Pair)
    requires Displayable(pair)
  {
    var digits := pair.quoteDecimals + pair.baseDecimals;
    && (pair.minTrade > 0.0 ==> Up(pair.minTrade, digits) <= (o.price * o.quantity) as real)
    && (pair.maxTrade > 0.0 ==> (o.price * o.quantity) as real <= Up(pair.maxTrade, digits))
  }

  /**
   An accepted order reaches the contract with no truncation: price and quantity are the snapped
   values to the last wei, whole multiples of the displayed unit and within the tolerance of the
   request; and the notional in wei respects each bound that is set.
   */
  lemma OrderReachesWeiExactly(price: Price, amount: real, pair: Pair)
    requires Displayable(pair) && OrderWei(price, amount, pair).Success?
    ensures NormalizeOrderAmounts(price, amount, pair).Success?
    ensures var o, n := OrderWei(price, amount, pair).value, NormalizeOrderAmounts(price, amount, pair).value;
      && Exact(o.quantity, n.amount, amount, pair.baseDisplay, pair.baseDecimals)
      && (n.price.Some? <==> price.Given?) && (price.Skipped? ==> o.price == 0)
      && (price.Given? ==>
            && Exact(o.price, n.price.value, price.value, pair.quoteDisplay, pair.quoteDecimals)
            && WithinBounds(o, pair))
  {
    var o, n := OrderWei(price, amount, pair).value, NormalizeOrderAmounts(price, amount, pair).value;
    SnappedIsExact(amount, pair.baseDisplay, pair.baseDecimals);
    if price.Given? {
      SnappedIsExact(price.value, pair.quoteDisplay, pair.quoteDecimals);
      BoundsInWei(o.price, o.quantity, n.price.value, pair.quoteDecimals, n.amount, pair.baseDecimals,
                  pair.minTrade, pair.maxTrade);
    }
  }

  /**
   An order is accepted exactly when no digit count is negative, its amount and its price, if one is
   given, are within the tolerance of a displayable value, and the notional of the snapped values
   breaks no bound that is set.
   */
  lemma AcceptedExactly(price: Price, amount: real, pair: Pair)
    ensures OrderWei(price, amount, pair).Success? <==>
              && pair.baseDisplay >= 0 && pair.baseDecimals >= 0
              && (exists k: int :: Near(amount, k, pair.baseDisplay))
              && (price.Given? ==>
                    && pair.quoteDisplay >= 0 && pair.quoteDecimals >= 0
                    && (exists k: int :: Near(price.value, k, pair.quoteDisplay))
                    && CheckTradeAmountBounds(
                         Some(Down(DisplayUnits(price.value, pair.quoteDisplay) as real, pair.quoteDisplay)),
                         Down(DisplayUnits(amount, pair.baseDisplay) as real, pair.baseDisplay),
                         pair.minTrade, pair.maxTrade).Success?)
  {
    AcceptedPart(amount, pair.baseDisplay);
    if price.Given? { AcceptedPart(price.value, pair.quoteDisplay); }
  }

  lemma {:induction false} AcceptedPart(v: real, display: int)
    ensures CheckDisplayPrecision(v, display).Success? <==> display >= 0 && exists k: int :: Near(v, k, display)
    ensures CheckDisplayPrecision(v, display).Success? ==>
              CheckDisplayPrecision(v, display).value == Down(DisplayUnits(v, display) as real, display)
  {
    if display >= 0 {
      AcceptsExactly(v, display);
      if CheckDisplayPrecision(v, display).Success? { SnapsToUnits(v, display); }
    }
  }

  /** The token's digits hold the displayed value: there are enough, or the missing ones are zero. */
  predicate Holds(v: real, display: nat, decimals: nat) {
    display <= decimals || DisplayUnits(v, display) % Ten(display - decimals) == 0
  }

  /** All of `snapped` arrives as `wei`, or strictly less of it. */
  ghost predicate Arrives(wei: int, snapped: real, decimals: nat, whole: bool) {
    && (wei as real == Up(snapped, decimals) <==> whole)
    && (!whole ==> Abs(wei as real) < Abs(Up(snapped, decimals)))
  }

  lemma PartArrives(v: real, display: nat, decimals: nat)
    requires CheckDisplayPrecision(v, display).Success?
    ensures var r := CheckDisplayPrecision(v, display).value;
      Arrives(Wei(r, decimals), r, decimals, Holds(v, display, decimals))
  {
    SnapsToUnits(v, display);
    DisplayedToWeiExactly(DisplayUnits(v, display), display, decimals);
    TruncMeaning(Up(CheckDisplayPrecision(v, display).value, decimals));
  }

  /**
   Whatever the pair, what reaches the contract of an accepted order is its snapped amount, and its
   snapped price, exactly when the token's digits hold it; otherwise it is strictly less.
   */
  lemma TruncatesExactly(price: Price, amount: real, pair: Pair)
    requires OrderWei(price, amount, pair).Success?
    ensures NormalizeOrderAmounts(price, amount, pair).Success? && pair.baseDisplay >= 0 && pair.baseDecimals >= 0
    ensures var o, n := OrderWei(price, amount, pair).value, NormalizeOrderAmounts(price, amount, pair).value;
      && Arrives(o.quantity, n.amount, pair.baseDecimals, Holds(amount, pair.baseDisplay, pair.baseDecimals))
      && (price.Given? ==>
            && pair.quoteDisplay >= 0 && pair.quoteDecimals >= 0 && n.price.Some?
            && Arrives(o.price, n.price.value, pair.quoteDecimals,
                       Holds(price.value, pair.quoteDisplay, pair.quoteDecimals)))
  {
    PartArrives(amount, pair.baseDisplay, pair.baseDecimals);
    if price.Given? { PartArrives(price.value, pair.quoteDisplay, pair.quoteDecimals); }
  }

  /** An amount that is accepted and yet comes to no wei at all. */
  ghost predicate Vanishes(amount: real, display: nat, decimals: nat) {
    if display <= decimals then amount <= DISPLAY_PRECISION_TOLERANCE && Up(amount, display) <= 0.5
    else (exists k: int :: Near(amount, k, display)) && DisplayUnits(amount, display) < Ten(display - decimals)
  }

  /**
   A positive amount without a price becomes an order for nothing exactly when it is within the
   tolerance of zero and at most half a displayed unit, or, with more display digits than decimals,
   when it is displayable and below the token's last unit.  No bound stops it.
   */
  lemma PositiveAmountBecomesZeroExactly(amount: real, pair: Pair)
    requires amount > 0.0
    ensures OrderWei(Skipped, amount, pair) == Success(WeiOrder(0, 0)) <==>
              pair.baseDisplay >= 0 && pair.baseDecimals >= 0 && Vanishes(amount, pair.baseDisplay, pair.baseDecimals)
  {
    AcceptedPart(amount, pair.baseDisplay);
    if pair.baseDisplay >= 0 && pair.baseDecimals >= 0 { VanishesExactly(amount, pair.baseDisplay, pair.baseDecimals); }
  }

  lemma VanishesExactly(amount: real, display: nat, decimals: nat)
    requires amount > 0.0
    ensures var r := CheckDisplayPrecision(amount, display);
      (r.Success? && Wei(r.value, decimals) == 0) <==> Vanishes(amount, display, decimals)
  {
    AcceptedPart(amount, display);
    UnitsOfPositive(amount, display);
    var k := DisplayUnits(amount, display);
    if display <= decimals {
      PositiveSnapsToZeroExactly(amount, display);
      DownZero(display);
      Rescale(k, display, decimals);
      IntegersStay(Grow(k, decimals - display));
      GrowIsProduct(k, decimals - display);
      Nonzero(k, Ten(decimals - display));
    } else {
      TruncatedUnits(k, display, decimals);
    }
  }

  lemma ZeroArrives(v: real, display: nat, decimals: nat)
    requires display <= decimals && CheckDisplayPrecision(v, display).Success?
    ensures Wei(CheckDisplayPrecision(v, display).value, decimals) == 0 <==> CheckDisplayPrecision(v, display).value == 0.0
  {
    var r := CheckDisplayPrecision(v, display).value;
    SnappedIsExact(v, display, decimals);
    UpZero(decimals);
    UpLinear(r, 0.0, decimals);
  }

  /** Of an accepted order, whatever the pair, a positive amount or price becomes zero exactly if it vanishes. */
  lemma AcceptedPartsBecomeZeroExactly(price: Price, amount: real, pair: Pair)
    requires OrderWei(price, amount, pair).Success?
    ensures pair.baseDisplay >= 0 && pair.baseDecimals >= 0
    ensures amount > 0.0 ==>
              (OrderWei(price, amount, pair).value.quantity == 0 <==> Vanishes(amount, pair.baseDisplay, pair.baseDecimals))
    ensures price.Given? ==> pair.quoteDisplay >= 0 && pair.quoteDecimals >= 0
    ensures price.Given? && price.value > 0.0 ==>
              (OrderWei(price, amount, pair).value.price == 0
               <==> Vanishes(price.value, pair.quoteDisplay, pair.quoteDecimals))
  {
    if amount > 0.0 { VanishesExactly(amount, pair.baseDisplay, pair.baseDecimals); }
    if price.Given? && price.value > 0.0 { VanishesExactly(price.value, pair.quoteDisplay, pair.quoteDecimals); }
  }

  /** A notional of zero breaks the lower bound exactly if one is set, and no other. */
  lemma ZeroNotional(price: real, amount: real, min: real, max: real)
    requires price == 0.0 || amount == 0.0
    ensures CheckTradeAmountBounds(Some(price), amount, min, max).Success? <==> min <= 0.0
  {}

  /**
   A priced order of a displayable pair becomes one for nothing, or for nothing in return, exactly
   when its amount or price vanishes, the other is displayable, and no lower bound is set.
   */
  lemma PricedOrderBecomesZeroExactly(price: real, amount: real, pair: Pair)
    requires Displayable(pair) && amount > 0.0 && price > 0.0
    ensures var o := OrderWei(Given(price), amount, pair);
      && (o.Success? && o.value.quantity == 0
          <==> && pair.minTrade <= 0.0 && Vanishes(amount, pair.baseDisplay, pair.baseDecimals)
               && exists k: int :: Near(price, k, pair.quoteDisplay))
      && (o.Success? && o.value.price == 0
          <==> && pair.minTrade <= 0.0 && Vanishes(price, pair.quoteDisplay, pair.quoteDecimals)
               && exists k: int :: Near(amount, k, pair.baseDisplay))
  {
    var a, p := CheckDisplayPrecision(amount, pair.baseDisplay), CheckDisplayPrecision(price, pair.quoteDisplay);
    AcceptedPart(amount, pair.baseDisplay);
    AcceptedPart(price, pair.quoteDisplay);
    VanishesExactly(amount, pair.baseDisplay, pair.baseDecimals);
    VanishesExactly(price, pair.quoteDisplay, pair.quoteDecimals);
    if a.Success? && p.Success? {
      ZeroArrives(amount, pair.baseDisplay, pair.baseDecimals);
      ZeroArrives(price, pair.quoteDisplay, pair.quoteDecimals);
      if a.value == 0.0 || p.value == 0.0 { ZeroNotional(p.value, a.value, pair.minTrade, pair.maxTrade); }
    }
  }

  lemma Nonzero(k: int, m: int)
    requires m >= 1
    ensures k * m == 0 <==> k == 0
  {}

  /** One input that loses everything: half a unit of a token without decimals, on a display with one digit. */
  lemma MoreDisplayThanDecimalsTruncates(pair: Pair)
    requires pair.baseDisplay == 1 && pair.baseDecimals == 0
    ensures CheckDisplayPrecision(0.5, 1) == Success(0.5)
    ensures OrderWei(Skipped, 0.5, pair) == Success(WeiOrder(0, 0))
  {
    assert Up(0.5, 1) == 5.0;
    IntegersStay(5);
    assert Nearest(0.5, 1) == 0.5;
  }
}
