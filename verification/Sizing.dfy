/** The smallest admissible probe order from the book and the instrument filters (scripts/bybit-probe/preflight.ts). */
module Sizing {
  import opened Common
  import opened Decimals
  import opened StepRounding
  import opened DecimalText

  datatype Side = Buy | Sell

  datatype Filters = Filters(tickSize: string, qtyStep: string, minOrderQty: string, minNotionalValue: string)

  datatype ProbeSize = ProbeSize(
    side: Side, price: string, qty: string, notional: string, takeProfit: string, stopLoss: string)

  const MAX_NOTIONAL := Decimal(10, 0)

  // ----------------------------------------------------------------- price

  function DerivePrice(side: Side, book: Decimal, tick: Decimal, tickOffset: int): Result<Decimal, ProbeError> {
    var offset := Times(tick, Normalized(tickOffset, 0));
    var rawPrice :- if side == Buy then SubtractDecimals(book, offset) else AddDecimals(book, offset);
    var price :- if side == Buy then FloorToStep(rawPrice, tick) else CeilToStep(rawPrice, tick);
    if price.coefficient <= 0 then Err(PriceNotPositive) else Ok(price)
  }

  /** The tick multiple nearest the offset book price on the passive side. */
  ghost predicate PassivePrice(price: Decimal, side: Side, book: Decimal, tick: Decimal, tickOffset: int) {
    && IsNormal(price) && Value(price) > 0.0 && Value(tick) > 0.0
    && if side == Buy then GreatestMultiple(price, tick, Value(book) - Multiple(tickOffset, tick))
       else LeastMultiple(price, tick, Value(book) + Multiple(tickOffset, tick))
  }

  lemma DerivedPrice(side: Side, book: Decimal, tick: Decimal, tickOffset: int)
    requires DerivePrice(side, book, tick, tickOffset).Ok?
    ensures PassivePrice(DerivePrice(side, book, tick, tickOffset).value, side, book, tick, tickOffset)
  {
    hide Value, Times, Normalized, RoundToStep, AddDecimals, SubtractDecimals, GreatestMultiple, LeastMultiple, Multiple, IsNormal;
    var offset := Times(tick, Normalized(tickOffset, 0));
    StepTimes(tick, tickOffset);
    BoundedOperations(book, offset);
    PlusIsExact(book, offset);
    var rawPrice := if side == Buy then Minus(book, offset) else Plus(book, offset);
    RoundToStepIsOptimal(rawPrice, tick, if side == Buy then Floor else Ceil);
    SignOfValue(tick);
    SignOfValue(DerivePrice(side, book, tick, tickOffset).value);
  }

  // -------------------------------------------------------------- quantity

  function DeriveQuantity(price: Decimal, minNotional: Decimal, minQty: Decimal, qtyStep: Decimal): Result<Decimal, ProbeError> {
    var needed :- CeilRatioToStep(minNotional, price, qtyStep);
    var order :- CompareDecimals(minQty, needed);
    CeilToStep(if order >= 0 then minQty else needed, qtyStep)
  }

  /** Enough for both exchange minimums. */
  ghost predicate Admissible(quantity: real, minQty: real, minNotional: real, price: real) {
    quantity >= minQty && Reaches(quantity, minNotional, price)
  }

  /** The least multiple of the step that is admissible. */
  ghost predicate LeastQuantity(quantity: Decimal, step: Decimal, minQty: real, minNotional: real, price: real) {
    && IsNormal(quantity) && IsMultiple(quantity, step)
    && Admissible(Value(quantity), minQty, minNotional, price)
    && forall m :: Admissible(Multiple(m, step), minQty, minNotional, price) ==> Multiple(m, step) >= Value(quantity)
  }

  lemma ReachesAscends(x: real, y: real, numerator: real, denominator: real)
    requires denominator > 0.0 && x <= y && Reaches(x, numerator, denominator)
    ensures Reaches(y, numerator, denominator)
  {
    assert x * denominator <= y * denominator;
  }

  lemma DerivedQuantity(price: Decimal, minNotional: Decimal, minQty: Decimal, qtyStep: Decimal)
    requires DeriveQuantity(price, minNotional, minQty, qtyStep).Ok?
    ensures LeastQuantity(DeriveQuantity(price, minNotional, minQty, qtyStep).value, qtyStep,
                          Value(minQty), Value(minNotional), Value(price))
  {
    hide Value, RoundToStep, CeilRatioToStep, CompareDecimals, Multiple, Reaches, IsNormal;
    var needed := CeilRatioToStep(minNotional, price, qtyStep).value;
    CeilRatioIsOptimal(minNotional, price, qtyStep);
    SignOfValue(price);
    BoundedOperations(minQty, needed);
    CompareIsExact(minQty, needed);
    var floor := if CompareDecimals(minQty, needed).value >= 0 then minQty else needed;
    RoundToStepIsOptimal(floor, qtyStep, Ceil);
    var quantity := DeriveQuantity(price, minNotional, minQty, qtyStep).value;
    ReachesAscends(Value(needed), Value(quantity), Value(minNotional), Value(price));
  }

  // ----------------------------------------------------------------- exits

  function DeriveExits(side: Side, price: Decimal, tick: Decimal): Result<(Decimal, Decimal), ProbeError> {
    var profitable :- MultiplyByRational(price, if side == Buy then 102 else 98, 100, Floor);
    var adverse :- MultiplyByRational(price, if side == Buy then 98 else 102, 100, Floor);
    var takeProfit :- if side == Buy then CeilToStep(profitable, tick) else FloorToStep(profitable, tick);
    var stopLoss :- if side == Buy then FloorToStep(adverse, tick) else CeilToStep(adverse, tick);
    if takeProfit.coefficient <= 0 || stopLoss.coefficient <= 0 then Err(ExitsInvalid)
    else
      var order :- CompareDecimals(takeProfit, stopLoss);
      if (side == Buy && order <= 0) || (side == Sell && order >= 0) then Err(ExitsInvalid)
      else Ok((takeProfit, stopLoss))
  }

  /** Two per cent above (below) the price, on the tick, away from it. */
  ghost predicate ExitAbove(exit: Decimal, price: Decimal, tick: Decimal) {
    IsNormal(exit) && LeastMultiple(exit, tick, 1.02 * Value(price)) && Value(exit) > Value(price)
  }

  ghost predicate ExitBelow(exit: Decimal, price: Decimal, tick: Decimal) {
    IsNormal(exit) && GreatestMultiple(exit, tick, 0.98 * Value(price)) && Value(exit) < Value(price)
  }

  lemma PercentOf(price: Decimal, percent: int)
    requires percent >= 0
    ensures var r := MultiplyByRational(price, percent, 100, Floor);
            r.Ok? && Value(r.value) == percent as real / 100.0 * Value(price)
  {
    hide Value, Normalized;
    assert StrippedTens(10) == (1, 1);
    assert StrippedTens(100) == (1, 2);
    MultiplyByPowerOfTenIsExact(price, percent, 100, Floor);
  }

  /** Rounding the upper level up and the lower one down puts them on either side of a positive price. */
  lemma ExitLevels(price: Decimal, tick: Decimal, upper: Decimal, lower: Decimal)
    requires Value(price) > 0.0
    requires Value(upper) == 1.02 * Value(price) && Value(lower) == 0.98 * Value(price)
    requires CeilToStep(upper, tick).Ok? && FloorToStep(lower, tick).Ok?
    ensures ExitAbove(CeilToStep(upper, tick).value, price, tick)
    ensures ExitBelow(FloorToStep(lower, tick).value, price, tick)
  {
    hide Value, RoundToStep, Multiple;
    RoundToStepIsOptimal(upper, tick, Ceil);
    RoundToStepIsOptimal(lower, tick, Floor);
  }

  /** The lower level survives exactly when the price is more than one tick. */
  lemma LowerExitIsPositive(price: Decimal, tick: Decimal, lower: Decimal)
    requires Value(price) > 0.0 && tick.coefficient > 0 && IsMultiple(price, tick)
    requires ExitBelow(lower, price, tick)
    ensures Value(lower) > 0.0 <==> Value(price) != Value(tick)
  {
    hide Value;
    SignOfValue(tick);
    var m :| Value(price) == Multiple(m, tick);
    var j :| Value(lower) == Multiple(j, tick);
    MultiplesAscend(m, 0, tick);
    MultiplesAscend(m, 1, tick);
    MultiplesAscend(2, m, tick);
    MultiplesAscend(1, j, tick);
    MultiplesAscend(j, 0, tick);
    assert Multiple(0, tick) == 0.0 && Multiple(1, tick) == Value(tick) && Multiple(2, tick) == 2.0 * Value(tick);
  }

  /**
   * For a positive price on the tick, the exits are rejected exactly when the price is a single
   * tick; otherwise stop loss and take profit lie strictly on either side of the price.  The
   * comparison of the two exits never decides anything.
   */
  lemma DerivedExits(side: Side, price: Decimal, tick: Decimal)
    requires Value(price) > 0.0 && tick.coefficient > 0 && IsMultiple(price, tick)
    requires DeriveExits(side, price, tick) != Err(ScaleOutOfRange)
    ensures var r := DeriveExits(side, price, tick);
            if Value(price) == Value(tick) then r == Err(ExitsInvalid)
            else
              && r.Ok?
              && var (takeProfit, stopLoss) := r.value;
                 && Value(takeProfit) > 0.0 && Value(stopLoss) > 0.0
                 && ExitAbove(if side == Buy then takeProfit else stopLoss, price, tick)
                 && ExitBelow(if side == Buy then stopLoss else takeProfit, price, tick)
  {
    hide Value, RoundToStep, MultiplyByRational, CompareDecimals, ExitAbove, ExitBelow, IsMultiple;
    PercentOf(price, 102);
    PercentOf(price, 98);
    var upper, lower := MultiplyByRational(price, 102, 100, Floor).value, MultiplyByRational(price, 98, 100, Floor).value;
    StepFailure(upper, tick, Ceil);
    StepFailure(lower, tick, Floor);
    ExitLevels(price, tick, upper, lower);
    var above, below := CeilToStep(upper, tick).value, FloorToStep(lower, tick).value;
    LowerExitIsPositive(price, tick, below);
    ExitsApart(price, tick, above, below);
    SignOfValue(above);
    SignOfValue(below);
    BoundedOperations(above, below);
    BoundedOperations(below, above);
  }

  lemma ExitsApart(price: Decimal, tick: Decimal, above: Decimal, below: Decimal)
    requires Value(price) > 0.0 && ExitAbove(above, price, tick) && ExitBelow(below, price, tick)
    ensures Value(above) > 0.0
    ensures Compare(above, below) > 0 && Compare(below, above) < 0
  {
    hide Value, Compare;
    CompareIsExact(above, below);
    CompareIsExact(below, above);
  }

  lemma StepFailure(value: Decimal, step: Decimal, rounding: Rounding)
    requires step.coefficient > 0
    ensures RoundToStep(value, step, rounding).Err? ==> RoundToStep(value, step, rounding) == Err(ScaleOutOfRange)
  {
  }

  // ------------------------------------------------------------ derive size

  function DeriveSize(side: Side, bid: string, ask: string, filters: Filters, tickOffset: int): Result<ProbeSize, ProbeError> {
    var tick :- ParseDecimal(filters.tickSize);
    var book :- ParseDecimal(if side == Buy then bid else ask);
    var price :- DerivePrice(side, book, tick, tickOffset);
    var minNotional :- ParseDecimal(filters.minNotionalValue);
    var minQty :- ParseDecimal(filters.minOrderQty);
    var qtyStep :- ParseDecimal(filters.qtyStep);
    var quantity :- DeriveQuantity(price, minNotional, minQty, qtyStep);
    var notional := Times(price, quantity);
    var capped :- CompareDecimals(notional, MAX_NOTIONAL);
    if capped > 0 then Err(NotionalAboveCap)
    else
      var (takeProfit, stopLoss) :- DeriveExits(side, price, tick);
      Ok(ProbeSize(side, ToDecimalString(price), ToDecimalString(quantity), ToDecimalString(notional),
                   ToDecimalString(takeProfit), ToDecimalString(stopLoss)))
  }

  /** What a derived order promises of the numbers it prints. */
  ghost predicate GoodSize(size: ProbeSize, side: Side, book: Decimal, tick: Decimal, tickOffset: int,
                           minNotional: Decimal, minQty: Decimal, qtyStep: Decimal) {
    && ParseDecimal(size.price).Ok? && ParseDecimal(size.qty).Ok? && ParseDecimal(size.notional).Ok?
    && ParseDecimal(size.takeProfit).Ok? && ParseDecimal(size.stopLoss).Ok?
    && var price, quantity := ParseDecimal(size.price).value, ParseDecimal(size.qty).value;
       var takeProfit, stopLoss := ParseDecimal(size.takeProfit).value, ParseDecimal(size.stopLoss).value;
    && size.side == side
    && PassivePrice(price, side, book, tick, tickOffset)
    && LeastQuantity(quantity, qtyStep, Value(minQty), Value(minNotional), Value(price))
    && Value(ParseDecimal(size.notional).value) == Value(price) * Value(quantity) <= 10.0
    && Value(takeProfit) > 0.0 && Value(stopLoss) > 0.0
    && ExitAbove(if side == Buy then takeProfit else stopLoss, price, tick)
    && ExitBelow(if side == Buy then stopLoss else takeProfit, price, tick)
  }

  /** Every order that is derived is passive, minimal, within the cap and protected on both sides. */
  lemma DeriveSizeIsOptimal(side: Side, bid: string, ask: string, filters: Filters, tickOffset: int)
    requires DeriveSize(side, bid, ask, filters, tickOffset).Ok?
    ensures GoodSize(DeriveSize(side, bid, ask, filters, tickOffset).value, side,
                     ParseDecimal(if side == Buy then bid else ask).value, ParseDecimal(filters.tickSize).value, tickOffset,
                     ParseDecimal(filters.minNotionalValue).value, ParseDecimal(filters.minOrderQty).value,
                     ParseDecimal(filters.qtyStep).value)
  {
    hide Value, ParseDecimal, ToDecimalString, DerivePrice, DeriveQuantity, DeriveExits, Times, CompareDecimals,
         LeastQuantity, ExitAbove, ExitBelow, GreatestMultiple, LeastMultiple, IsNormal;
    var tick, book := ParseDecimal(filters.tickSize).value, ParseDecimal(if side == Buy then bid else ask).value;
    var price := DerivePrice(side, book, tick, tickOffset).value;
    DerivedPrice(side, book, tick, tickOffset);
    var minNotional, minQty := ParseDecimal(filters.minNotionalValue).value, ParseDecimal(filters.minOrderQty).value;
    var qtyStep := ParseDecimal(filters.qtyStep).value;
    var quantity := DeriveQuantity(price, minNotional, minQty, qtyStep).value;
    DerivedQuantity(price, minNotional, minQty, qtyStep);
    PriceIsMultiple(price, side, book, tick, tickOffset);
    DerivedExits(side, price, tick);
    var (takeProfit, stopLoss) := DeriveExits(side, price, tick).value;
    NotionalWithinCap(price, quantity);
    QuantityIsNormal(quantity, qtyStep, Value(minQty), Value(minNotional), Value(price));
    ExitsAreNormal(price, tick, if side == Buy then takeProfit else stopLoss, if side == Buy then stopLoss else takeProfit);
    RoundTrip(price);
    RoundTrip(quantity);
    RoundTrip(Times(price, quantity));
    RoundTrip(takeProfit);
    RoundTrip(stopLoss);
  }

  lemma PriceIsMultiple(price: Decimal, side: Side, book: Decimal, tick: Decimal, tickOffset: int)
    requires PassivePrice(price, side, book, tick, tickOffset)
    ensures IsMultiple(price, tick) && tick.coefficient > 0
  {
    hide Value, Multiple;
    SignOfValue(tick);
  }

  lemma NotionalWithinCap(price: Decimal, quantity: Decimal)
    requires CompareDecimals(Times(price, quantity), MAX_NOTIONAL).Ok? && CompareDecimals(Times(price, quantity), MAX_NOTIONAL).value <= 0
    ensures IsNormal(Times(price, quantity)) && Value(Times(price, quantity)) == Value(price) * Value(quantity) <= 10.0
  {
    assert Value(MAX_NOTIONAL) == 10.0;
    hide Value, Times, Compare, CompareDecimals, IsNormal;
    BoundedOperations(Times(price, quantity), MAX_NOTIONAL);
    CompareIsExact(Times(price, quantity), MAX_NOTIONAL);
    TimesIsExact(price, quantity);
  }

  lemma QuantityIsNormal(quantity: Decimal, step: Decimal, minQty: real, minNotional: real, price: real)
    requires LeastQuantity(quantity, step, minQty, minNotional, price)
    ensures IsNormal(quantity)
  {
  }

  lemma ExitsAreNormal(price: Decimal, tick: Decimal, above: Decimal, below: Decimal)
    requires ExitAbove(above, price, tick) && ExitBelow(below, price, tick)
    ensures IsNormal(above) && IsNormal(below)
  {
  }
}
