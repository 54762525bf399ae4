/**
 * When a probe size is derived and which error is thrown otherwise (deriveSize, scripts/bybit-probe/preflight.ts), in terms
 * of the numbers in the book and the filters.
 */
module SizingCases {
  import opened Common
  import opened Decimals
  import opened StepRounding
  import opened DecimalText
  import opened Sizing

  // ----------------------------------------------------------------- price

  /** The book price moved away by the offset, in exact arithmetic. */
  function OffsetPrice(side: Side, book: Decimal, tick: Decimal, tickOffset: int): Decimal {
    var offset := Times(tick, Normalized(tickOffset, 0));
    if side == Buy then Minus(book, offset) else Plus(book, offset)
  }

  ghost function OffsetValue(side: Side, book: Decimal, tick: Decimal, tickOffset: int): real {
    if side == Buy then Value(book) - Multiple(tickOffset, tick) else Value(book) + Multiple(tickOffset, tick)
  }

  /** The offset price rounds to a positive one: it is a whole tick for a buy, and above zero for a sell. */
  ghost predicate HasPrice(side: Side, book: Decimal, tick: Decimal, tickOffset: int) {
    var v := OffsetValue(side, book, tick, tickOffset);
    if side == Buy then v >= Value(tick) else v > 0.0
  }

  /** Book and offset are too far apart, or a positive tick or the offset price has too many decimal places. */
  ghost predicate PriceOutOfScale(side: Side, book: Decimal, tick: Decimal, tickOffset: int) {
    || !Near(book, Times(tick, Normalized(tickOffset, 0)))
    || (Value(tick) > 0.0 && (tick.scale > MAX_SCALE || OffsetPrice(side, book, tick, tickOffset).scale > MAX_SCALE))
  }

  lemma OffsetMeaning(side: Side, book: Decimal, tick: Decimal, tickOffset: int)
    ensures Value(OffsetPrice(side, book, tick, tickOffset)) == OffsetValue(side, book, tick, tickOffset)
  {
    hide Value, Times, Normalized, Plus, Minus, Multiple;
    StepTimes(tick, tickOffset);
    PlusIsExact(book, Times(tick, Normalized(tickOffset, 0)));
  }

  lemma RoundedIsPositive(side: Side, price: Decimal, tick: Decimal, v: real)
    requires Value(tick) > 0.0
    requires if side == Buy then GreatestMultiple(price, tick, v) else LeastMultiple(price, tick, v)
    ensures Value(price) > 0.0 <==> if side == Buy then v >= Value(tick) else v > 0.0
  {
    assert Multiple(0, tick) == 0.0 && Multiple(1, tick) == Value(tick);
    SignOfValue(tick);
    var m :| Value(price) == Multiple(m, tick);
    MultiplesAscend(m, 0, tick);
    MultiplesAscend(1, m, tick);
    hide Value, Multiple;
  }

  lemma DerivePriceCases(side: Side, book: Decimal, tick: Decimal, tickOffset: int)
    ensures var r := DerivePrice(side, book, tick, tickOffset);
            if PriceOutOfScale(side, book, tick, tickOffset) then r == Err(ScaleOutOfRange)
            else if Value(tick) <= 0.0 then r == Err(BadStep)
            else if !HasPrice(side, book, tick, tickOffset) then r == Err(PriceNotPositive)
            else r.Ok? && PassivePrice(r.value, side, book, tick, tickOffset)
  {
    hide Value, Times, Normalized, Plus, Minus, Multiple, RoundToStep, AddDecimals, SubtractDecimals, GreatestMultiple, LeastMultiple, IsNormal, Near;
    NearOperations(book, Times(tick, Normalized(tickOffset, 0)));
    OffsetMeaning(side, book, tick, tickOffset);
    SignOfValue(tick);
    var raw, rounding := OffsetPrice(side, book, tick, tickOffset), if side == Buy then Floor else Ceil;
    RoundToStepCases(raw, tick, rounding);
    var rounded := RoundToStep(raw, tick, rounding);
    if rounded.Ok? {
      RoundToStepIsOptimal(raw, tick, rounding);
      RoundedIsPositive(side, rounded.value, tick, Value(raw));
      SignOfValue(rounded.value);
    }
    if DerivePrice(side, book, tick, tickOffset).Ok? {
      DerivedPrice(side, book, tick, tickOffset);
    }
  }

  // -------------------------------------------------------------- quantity

  /** The least multiple of the step worth the minimum notional. */
  ghost predicate IsNeeded(needed: Decimal, price: Decimal, minNotional: Decimal, qtyStep: Decimal) {
    IsNormal(needed) && LeastMultipleReaching(needed, qtyStep, Value(minNotional), Value(price))
  }

  predicate QuantityOutOfScale(price: Decimal, minNotional: Decimal, minQty: Decimal, qtyStep: Decimal) {
    price.scale > MAX_SCALE || minNotional.scale > MAX_SCALE || qtyStep.scale > MAX_SCALE
  }

  /** The minimum quantity cannot be compared with the needed one, or decides and cannot be rounded. */
  ghost predicate MinimumOutOfScale(minQty: Decimal, needed: Decimal) {
    !Near(minQty, needed) || (Value(minQty) >= Value(needed) && minQty.scale > MAX_SCALE)
  }

  lemma DeriveQuantityCases(price: Decimal, minNotional: Decimal, minQty: Decimal, qtyStep: Decimal) returns (needed: Decimal)
    requires Value(price) > 0.0
    ensures var r := DeriveQuantity(price, minNotional, minQty, qtyStep);
            if Value(minNotional) < 0.0 || Value(qtyStep) <= 0.0 then r == Err(BadFactor)
            else if QuantityOutOfScale(price, minNotional, minQty, qtyStep) then r == Err(ScaleOutOfRange)
            else
              && IsNeeded(needed, price, minNotional, qtyStep)
              && if MinimumOutOfScale(minQty, needed) then r == Err(ScaleOutOfRange)
                 else r.Ok? && LeastQuantity(r.value, qtyStep, Value(minQty), Value(minNotional), Value(price))
  {
    hide Value, RoundToStep, CeilRatioToStep, CompareDecimals, Compare, Multiple, Reaches, IsNormal, Near, LeastQuantity;
    SignOfValue(price);
    SignOfValue(minNotional);
    SignOfValue(qtyStep);
    CeilRatioCases(minNotional, price, qtyStep);
    var ratio := CeilRatioToStep(minNotional, price, qtyStep);
    if ratio.Err? {
      needed := Decimal(0, 0);
    } else {
      needed := ratio.value;
      CeilRatioIsOptimal(minNotional, price, qtyStep);
      NearOperations(minQty, needed);
      CompareIsExact(minQty, needed);
      MultipleScale(needed, qtyStep);
      RoundToStepCases(minQty, qtyStep, Ceil);
      RoundToStepCases(needed, qtyStep, Ceil);
      if DeriveQuantity(price, minNotional, minQty, qtyStep).Ok? {
        DerivedQuantity(price, minNotional, minQty, qtyStep);
      }
    }
  }

  // ----------------------------------------------------------------- exits

  /** A percentage of the price, exactly. */
  function Percentage(price: Decimal, percent: int): Decimal {
    Normalized(price.coefficient * percent, price.scale + 2)
  }

  predicate ExitsOutOfScale(price: Decimal, tick: Decimal) {
    tick.scale > MAX_SCALE || Percentage(price, 102).scale > MAX_SCALE || Percentage(price, 98).scale > MAX_SCALE
  }

  lemma PercentageIsComputed(price: Decimal, percent: int)
    requires percent >= 0
    ensures MultiplyByRational(price, percent, 100, Floor) == Ok(Percentage(price, percent))
  {
    assert StrippedTens(10) == (1, 1);
    assert StrippedTens(100) == (1, 2);
    hide Normalized;
  }

  lemma DeriveExitsCases(side: Side, price: Decimal, tick: Decimal)
    requires Value(price) > 0.0 && tick.coefficient > 0 && IsMultiple(price, tick)
    ensures (DeriveExits(side, price, tick) == Err(ScaleOutOfRange)) <==> ExitsOutOfScale(price, tick)
  {
    hide Value, RoundToStep, MultiplyByRational, CompareDecimals, Compare, ExitAbove, ExitBelow, IsMultiple, Percentage, GreatestMultiple, LeastMultiple,
      IsNormal;
    PercentageIsComputed(price, 102);
    PercentageIsComputed(price, 98);
    var upper, lower := Percentage(price, 102), Percentage(price, 98);
    RoundToStepCases(upper, tick, Ceil);
    RoundToStepCases(lower, tick, Floor);
    if !ExitsOutOfScale(price, tick) {
      RoundToStepIsOptimal(upper, tick, Ceil);
      RoundToStepIsOptimal(lower, tick, Floor);
      var above, below := CeilToStep(upper, tick).value, FloorToStep(lower, tick).value;
      ExitScales(above, below, tick, Value(upper), Value(lower));
      NearOperations(above, below);
      NearOperations(below, above);
    }
  }

  lemma ExitScales(above: Decimal, below: Decimal, tick: Decimal, upper: real, lower: real)
    requires IsNormal(above) && IsNormal(below) && LeastMultiple(above, tick, upper) && GreatestMultiple(below, tick, lower)
    requires tick.scale <= MAX_SCALE
    ensures Near(above, below) && Near(below, above)
  {
    MultipleScale(above, tick);
    MultipleScale(below, tick);
    hide Value, IsMultiple, IsNormal;
  }

  // ------------------------------------------------------------ derive size

  /** The three numbers a quantity has to satisfy. */
  datatype Minima = Minima(notional: Decimal, quantity: Decimal, step: Decimal)

  /** What the outcome is once the price and the three minima are known. */
  ghost predicate QuantityDecides(r: Result<ProbeSize, ProbeError>, side: Side, book: Decimal, tick: Decimal, tickOffset: int, m: Minima, price: Decimal) {
    if Value(m.notional) < 0.0 || Value(m.step) <= 0.0 then r == Err(BadFactor)
    else if QuantityOutOfScale(price, m.notional, m.quantity, m.step) then r == Err(ScaleOutOfRange)
    else exists needed :: NeededDecides(r, side, book, tick, tickOffset, m, price, needed)
  }

  ghost predicate NeededDecides(r: Result<ProbeSize, ProbeError>, side: Side, book: Decimal, tick: Decimal, tickOffset: int, m: Minima, price: Decimal,
                                needed: Decimal) {
    && IsNeeded(needed, price, m.notional, m.step)
    && if MinimumOutOfScale(m.quantity, needed) then r == Err(ScaleOutOfRange)
       else exists quantity :: NotionalDecides(r, side, book, tick, tickOffset, m, price, quantity)
  }

  ghost predicate NotionalDecides(r: Result<ProbeSize, ProbeError>, side: Side, book: Decimal, tick: Decimal, tickOffset: int, m: Minima, price: Decimal,
                                  quantity: Decimal) {
    && LeastQuantity(quantity, m.step, Value(m.quantity), Value(m.notional), Value(price))
    && if Times(price, quantity).scale > MAX_SCALE then r == Err(ScaleOutOfRange)
       else if Worth(price, quantity) > 10.0 then r == Err(NotionalAboveCap)
       else if ExitsOutOfScale(price, tick) then r == Err(ScaleOutOfRange)
       else if Value(price) == Value(tick) then r == Err(ExitsInvalid)
       else r.Ok? && GoodSize(r.value, side, book, tick, tickOffset, m.notional, m.quantity, m.step)
  }

  predicate BookReads(side: Side, bid: string, ask: string, filters: Filters) {
    ParseDecimal(filters.tickSize).Ok? && ParseDecimal(if side == Buy then bid else ask).Ok?
  }

  predicate MinimaRead(filters: Filters) {
    ParseDecimal(filters.minNotionalValue).Ok? && ParseDecimal(filters.minOrderQty).Ok? && ParseDecimal(filters.qtyStep).Ok?
  }

  function BookOf(side: Side, bid: string, ask: string): Decimal
    requires ParseDecimal(if side == Buy then bid else ask).Ok?
  {
    ParseDecimal(if side == Buy then bid else ask).value
  }

  function MinimaOf(filters: Filters): Minima
    requires MinimaRead(filters)
  {
    Minima(ParseDecimal(filters.minNotionalValue).value, ParseDecimal(filters.minOrderQty).value, ParseDecimal(filters.qtyStep).value)
  }

  /** The outcome of every input, error by error, in the order in which the conditions are met. */
  ghost predicate SizeDecides(r: Result<ProbeSize, ProbeError>, side: Side, bid: string, ask: string, filters: Filters, tickOffset: int) {
    if !BookReads(side, bid, ask, filters) then r == Err(MalformedDecimal)
    else
      var book, tick := BookOf(side, bid, ask), ParseDecimal(filters.tickSize).value;
      if PriceOutOfScale(side, book, tick, tickOffset) then r == Err(ScaleOutOfRange)
      else if Value(tick) <= 0.0 then r == Err(BadStep)
      else if !HasPrice(side, book, tick, tickOffset) then r == Err(PriceNotPositive)
      else if !MinimaRead(filters) then r == Err(MalformedDecimal)
      else exists price :: PriceDecides(r, side, book, tick, tickOffset, MinimaOf(filters), price)
  }

  ghost predicate PriceDecides(r: Result<ProbeSize, ProbeError>, side: Side, book: Decimal, tick: Decimal, tickOffset: int, m: Minima, price: Decimal) {
    PassivePrice(price, side, book, tick, tickOffset) && QuantityDecides(r, side, book, tick, tickOffset, m, price)
  }

  /** What the quantity is worth at the price. */
  ghost function Worth(price: Decimal, quantity: Decimal): real {
    Value(price) * Value(quantity)
  }

  lemma NotionalCases(price: Decimal, quantity: Decimal)
    requires IsNormal(Times(price, quantity))
    ensures var r := CompareDecimals(Times(price, quantity), MAX_NOTIONAL);
            if Times(price, quantity).scale > MAX_SCALE then r == Err(ScaleOutOfRange)
            else r.Ok? && (r.value > 0 <==> Worth(price, quantity) > 10.0)
  {
    TenIsTen();
    hide Value, Times, Compare, CompareDecimals, IsNormal;
    NearOperations(Times(price, quantity), MAX_NOTIONAL);
    CompareIsExact(Times(price, quantity), MAX_NOTIONAL);
    TimesIsExact(price, quantity);
  }

  lemma TenIsTen()
    ensures Value(MAX_NOTIONAL) == 10.0
  {
  }

  lemma ParseFails(s: string)
    ensures ParseDecimal(s).Err? ==> ParseDecimal(s) == Err(MalformedDecimal)
  {
  }

  /** Which size is derived, or which error is thrown, for every book, filters and offset. */
  lemma DeriveSizeDecides(side: Side, bid: string, ask: string, filters: Filters, tickOffset: int)
    ensures SizeDecides(DeriveSize(side, bid, ask, filters, tickOffset), side, bid, ask, filters, tickOffset)
  {
    ParseFails(filters.tickSize);
    ParseFails(if side == Buy then bid else ask);
    ParseFails(filters.minNotionalValue);
    ParseFails(filters.minOrderQty);
    ParseFails(filters.qtyStep);
    hide ParseDecimal, DerivePrice, DeriveQuantity, DeriveExits, Times, CompareDecimals, ToDecimalString, PriceOutOfScale, HasPrice, Value, PriceDecides,
      PassivePrice;
    if BookReads(side, bid, ask, filters) {
      var book, tick := BookOf(side, bid, ask), ParseDecimal(filters.tickSize).value;
      DerivePriceCases(side, book, tick, tickOffset);
      var price := DerivePrice(side, book, tick, tickOffset);
      if price.Ok? && MinimaRead(filters) {
        PricedSizeDecides(side, bid, ask, filters, tickOffset);
        assert PriceDecides(DeriveSize(side, bid, ask, filters, tickOffset), side, book, tick, tickOffset, MinimaOf(filters), price.value);
      }
    }
  }

  /** The last part of the derivation, from the price and the minima on. */
  function Finish(side: Side, price: Decimal, tick: Decimal, quantity: Decimal): Result<ProbeSize, ProbeError> {
    var notional := Times(price, quantity);
    var capped :- CompareDecimals(notional, MAX_NOTIONAL);
    if capped > 0 then Err(NotionalAboveCap)
    else
      var (takeProfit, stopLoss) :- DeriveExits(side, price, tick);
      Ok(ProbeSize(side, ToDecimalString(price), ToDecimalString(quantity), ToDecimalString(notional),
                   ToDecimalString(takeProfit), ToDecimalString(stopLoss)))
  }

  lemma SizeByParts(side: Side, bid: string, ask: string, filters: Filters, tickOffset: int)
    requires BookReads(side, bid, ask, filters) && MinimaRead(filters)
    ensures var (tick, m) := (ParseDecimal(filters.tickSize).value, MinimaOf(filters));
            var (r, price) := (DeriveSize(side, bid, ask, filters, tickOffset), DerivePrice(side, BookOf(side, bid, ask), tick, tickOffset));
      price.Ok? ==>
        var quantity := DeriveQuantity(price.value, m.notional, m.quantity, m.step);
        r == if quantity.Err? then Err(quantity.error) else Finish(side, price.value, tick, quantity.value)
  {
    hide ParseDecimal, DerivePrice, DeriveQuantity, DeriveExits, Times, CompareDecimals, ToDecimalString;
  }

  lemma FinishByParts(side: Side, price: Decimal, tick: Decimal, quantity: Decimal)
    ensures var (r, capped, exits) :=
              (Finish(side, price, tick, quantity), CompareDecimals(Times(price, quantity), MAX_NOTIONAL), DeriveExits(side, price, tick));
      && (capped.Err? ==> r == Err(capped.error))
      && (capped.Ok? && capped.value > 0 ==> r == Err(NotionalAboveCap))
      && (capped.Ok? && capped.value <= 0 ==> (exits.Err? ==> r == Err(exits.error)) && (exits.Ok? ==> r.Ok?))
  {
    hide CompareDecimals, DeriveExits, Times, ToDecimalString;
  }

  /** The exits of a price on the tick fail on the scale limit, and then exactly for a single tick. */
  lemma ExitsDecide(side: Side, price: Decimal, tick: Decimal)
    requires Value(price) > 0.0 && tick.coefficient > 0 && IsMultiple(price, tick)
    ensures var r := DeriveExits(side, price, tick);
      if ExitsOutOfScale(price, tick) then r == Err(ScaleOutOfRange)
      else if Value(price) == Value(tick) then r == Err(ExitsInvalid)
      else r.Ok?
  {
    hide *;
    DeriveExitsCases(side, price, tick);
    if DeriveExits(side, price, tick) != Err(ScaleOutOfRange) {
      DerivedExits(side, price, tick);
    }
  }

  lemma FinishDecides(side: Side, price: Decimal, tick: Decimal, quantity: Decimal)
    requires Value(price) > 0.0 && tick.coefficient > 0 && IsMultiple(price, tick)
    ensures var r := Finish(side, price, tick, quantity);
       if Times(price, quantity).scale > MAX_SCALE then r == Err(ScaleOutOfRange)
       else if Worth(price, quantity) > 10.0 then r == Err(NotionalAboveCap)
       else if ExitsOutOfScale(price, tick) then r == Err(ScaleOutOfRange)
       else if Value(price) == Value(tick) then r == Err(ExitsInvalid)
       else r.Ok?
  {
    hide Worth, Value, Times, CompareDecimals, DeriveExits, Finish, ExitsOutOfScale, IsMultiple;
    NotionalFacts(price, quantity);
    ExitsDecide(side, price, tick);
    FinishByParts(side, price, tick, quantity);
  }

  lemma PricedSizeDecides(side: Side, bid: string, ask: string, filters: Filters, tickOffset: int)
    requires BookReads(side, bid, ask, filters) && MinimaRead(filters)
    requires DerivePrice(side, BookOf(side, bid, ask), ParseDecimal(filters.tickSize).value, tickOffset).Ok?
    ensures var (book, tick) := (BookOf(side, bid, ask), ParseDecimal(filters.tickSize).value);
            var price := DerivePrice(side, book, tick, tickOffset).value;
            PriceDecides(DeriveSize(side, bid, ask, filters, tickOffset), side, book, tick, tickOffset, MinimaOf(filters), price)
  {
    hide Worth, Value, ParseDecimal, DerivePrice, DeriveQuantity, DeriveSize, Finish, Times, LeastQuantity, PassivePrice, GoodSize, ExitsOutOfScale,
      MinimumOutOfScale, IsNeeded, QuantityOutOfScale, NotionalDecides, PriceDecides, IsMultiple;
    var book, tick, m := BookOf(side, bid, ask), ParseDecimal(filters.tickSize).value, MinimaOf(filters);
    DerivedPrice(side, book, tick, tickOffset);
    var price, r := DerivePrice(side, book, tick, tickOffset).value, DeriveSize(side, bid, ask, filters, tickOffset);
    PassiveIsPositive(price, side, book, tick, tickOffset);
    SizeByParts(side, bid, ask, filters, tickOffset);
    if r.Ok? {
      SizeIsGood(side, bid, ask, filters, tickOffset);
    }
    var needed := DeriveQuantityCases(price, m.notional, m.quantity, m.step);
    var quantity := DeriveQuantity(price, m.notional, m.quantity, m.step);
    if quantity.Ok? {
      FinishDecides(side, price, tick, quantity.value);
      NotionalDecided(r, side, book, tick, tickOffset, m, price, quantity.value);
    }
    Decided(r, side, book, tick, tickOffset, m, price, needed, quantity);
  }

  lemma PassiveIsPositive(price: Decimal, side: Side, book: Decimal, tick: Decimal, tickOffset: int)
    requires PassivePrice(price, side, book, tick, tickOffset)
    ensures Value(price) > 0.0 && IsMultiple(price, tick) && tick.coefficient > 0
  {
    PriceIsMultiple(price, side, book, tick, tickOffset);
  }

  lemma SizeIsGood(side: Side, bid: string, ask: string, filters: Filters, tickOffset: int)
    requires BookReads(side, bid, ask, filters) && MinimaRead(filters)
    requires DeriveSize(side, bid, ask, filters, tickOffset).Ok?
    ensures GoodSize(DeriveSize(side, bid, ask, filters, tickOffset).value, side, BookOf(side, bid, ask), ParseDecimal(filters.tickSize).value,
                     tickOffset, MinimaOf(filters).notional, MinimaOf(filters).quantity, MinimaOf(filters).step)
  {
    DeriveSizeIsOptimal(side, bid, ask, filters, tickOffset);
    hide DeriveSize, GoodSize, ParseDecimal;
  }

  lemma NotionalDecided(r: Result<ProbeSize, ProbeError>, side: Side, book: Decimal, tick: Decimal, tickOffset: int, m: Minima, price: Decimal,
                        quantity: Decimal)
    requires LeastQuantity(quantity, m.step, Value(m.quantity), Value(m.notional), Value(price))
    requires r.Ok? ==> GoodSize(r.value, side, book, tick, tickOffset, m.notional, m.quantity, m.step)
    requires if Times(price, quantity).scale > MAX_SCALE then r == Err(ScaleOutOfRange)
             else if Worth(price, quantity) > 10.0 then r == Err(NotionalAboveCap)
             else if ExitsOutOfScale(price, tick) then r == Err(ScaleOutOfRange)
             else if Value(price) == Value(tick) then r == Err(ExitsInvalid)
             else r.Ok?
    ensures NotionalDecides(r, side, book, tick, tickOffset, m, price, quantity)
  {
    hide Worth, LeastQuantity, GoodSize, Times, Value, ExitsOutOfScale;
  }

  lemma Decided(r: Result<ProbeSize, ProbeError>, side: Side, book: Decimal, tick: Decimal, tickOffset: int, m: Minima, price: Decimal,
                needed: Decimal, quantity: Result<Decimal, ProbeError>)
    requires PassivePrice(price, side, book, tick, tickOffset) && (quantity.Err? ==> r == Err(quantity.error))
    requires quantity.Ok? ==> NotionalDecides(r, side, book, tick, tickOffset, m, price, quantity.value)
    requires if Value(m.notional) < 0.0 || Value(m.step) <= 0.0 then quantity == Err(BadFactor)
             else if QuantityOutOfScale(price, m.notional, m.quantity, m.step) then quantity == Err(ScaleOutOfRange)
             else
               && IsNeeded(needed, price, m.notional, m.step)
               && if MinimumOutOfScale(m.quantity, needed) then quantity == Err(ScaleOutOfRange) else quantity.Ok?
    ensures PriceDecides(r, side, book, tick, tickOffset, m, price)
  {
    hide PassivePrice, NotionalDecides, Value, QuantityOutOfScale, IsNeeded, MinimumOutOfScale;
    if Value(m.notional) >= 0.0 && Value(m.step) > 0.0 && !QuantityOutOfScale(price, m.notional, m.quantity, m.step) {
      assert NeededDecides(r, side, book, tick, tickOffset, m, price, needed);
    }
  }

  lemma NotionalFacts(price: Decimal, quantity: Decimal)
    ensures var r := CompareDecimals(Times(price, quantity), MAX_NOTIONAL);
            if Times(price, quantity).scale > MAX_SCALE then r == Err(ScaleOutOfRange)
            else r.Ok? && (r.value > 0 <==> Worth(price, quantity) > 10.0)
  {
    TimesIsExact(price, quantity);
    NotionalCases(price, quantity);
  }

  // ------------------------------------------------------------ when it fits

  lemma PriceIsUnique(a: Decimal, b: Decimal, side: Side, book: Decimal, tick: Decimal, tickOffset: int)
    requires PassivePrice(a, side, book, tick, tickOffset) && PassivePrice(b, side, book, tick, tickOffset)
    ensures a == b
  {
    hide Value, Multiple, IsNormal;
    assert Value(a) == Value(b);
    NormalFormIsUnique(a, b);
  }

  lemma QuantityIsUnique(a: Decimal, b: Decimal, step: Decimal, minQty: real, minNotional: real, price: real)
    requires LeastQuantity(a, step, minQty, minNotional, price) && LeastQuantity(b, step, minQty, minNotional, price)
    ensures a == b
  {
    hide Value, Multiple, IsNormal, Reaches;
    assert Value(a) == Value(b);
    NormalFormIsUnique(a, b);
  }

  /** An order at the passive price in the least quantity is worth no more than 10, and its price is not a single tick. */
  ghost predicate Fits(price: Decimal, quantity: Decimal, side: Side, book: Decimal, tick: Decimal, tickOffset: int, m: Minima) {
    && PassivePrice(price, side, book, tick, tickOffset)
    && LeastQuantity(quantity, m.step, Value(m.quantity), Value(m.notional), Value(price))
    && Worth(price, quantity) <= 10.0 && Value(price) != Value(tick)
  }

  ghost predicate HasFit(side: Side, book: Decimal, tick: Decimal, tickOffset: int, m: Minima) {
    exists price, quantity :: Fits(price, quantity, side, book, tick, tickOffset, m)
  }

  /** Of readable input within the scale limit a size is derived exactly when tick and step are positive and such an order exists. */
  lemma DerivedExactly(side: Side, bid: string, ask: string, filters: Filters, tickOffset: int)
    requires BookReads(side, bid, ask, filters) && MinimaRead(filters)
    requires DeriveSize(side, bid, ask, filters, tickOffset) != Err(ScaleOutOfRange)
    ensures var (book, tick, m) := (BookOf(side, bid, ask), ParseDecimal(filters.tickSize).value, MinimaOf(filters));
      DeriveSize(side, bid, ask, filters, tickOffset).Ok? <==>
        && Value(tick) > 0.0 && HasPrice(side, book, tick, tickOffset)
        && Value(m.notional) >= 0.0 && Value(m.step) > 0.0 && HasFit(side, book, tick, tickOffset, m)
  {
    var r := DeriveSize(side, bid, ask, filters, tickOffset);
    var book, tick, m := BookOf(side, bid, ask), ParseDecimal(filters.tickSize).value, MinimaOf(filters);
    DeriveSizeDecides(side, bid, ask, filters, tickOffset);
    hide Value, ParseDecimal, DeriveSize, Times, LeastQuantity, PassivePrice, GoodSize, ExitsOutOfScale, MinimumOutOfScale, IsNeeded, QuantityOutOfScale,
      PriceOutOfScale, HasPrice, Worth;
    if !PriceOutOfScale(side, book, tick, tickOffset) && Value(tick) > 0.0 && HasPrice(side, book, tick, tickOffset) {
      var price :| PriceDecides(r, side, book, tick, tickOffset, m, price);
      if Value(m.notional) >= 0.0 && Value(m.step) > 0.0 {
        var needed :| NeededDecides(r, side, book, tick, tickOffset, m, price, needed);
        var quantity :| NotionalDecides(r, side, book, tick, tickOffset, m, price, quantity);
        if HasFit(side, book, tick, tickOffset, m) {
          var p, q :| Fits(p, q, side, book, tick, tickOffset, m);
          PriceIsUnique(p, price, side, book, tick, tickOffset);
          QuantityIsUnique(q, quantity, m.step, Value(m.quantity), Value(m.notional), Value(price));
        }
        if r.Ok? {
          assert Fits(price, quantity, side, book, tick, tickOffset, m);
        }
      }
    }
  }

  const SMALL_SCALE := 400

  /** Numbers of at most 400 decimal places never meet the scale limit. */
  lemma SmallScalesFit(side: Side, bid: string, ask: string, filters: Filters, tickOffset: int)
    requires BookReads(side, bid, ask, filters) && MinimaRead(filters)
    requires BookOf(side, bid, ask).scale <= SMALL_SCALE && ParseDecimal(filters.tickSize).value.scale <= SMALL_SCALE
    requires var m := MinimaOf(filters); m.notional.scale <= SMALL_SCALE && m.quantity.scale <= SMALL_SCALE && m.step.scale <= SMALL_SCALE
    ensures DeriveSize(side, bid, ask, filters, tickOffset) != Err(ScaleOutOfRange)
  {
    var r := DeriveSize(side, bid, ask, filters, tickOffset);
    var book, tick, m := BookOf(side, bid, ask), ParseDecimal(filters.tickSize).value, MinimaOf(filters);
    DeriveSizeDecides(side, bid, ask, filters, tickOffset);
    SmallPrice(side, book, tick, tickOffset);
    hide Value, ParseDecimal, DeriveSize, Times, LeastQuantity, PassivePrice, GoodSize, ExitsOutOfScale, MinimumOutOfScale, IsNeeded, QuantityOutOfScale,
      PriceOutOfScale, HasPrice, Worth;
    if r == Err(ScaleOutOfRange) {
      var price :| PriceDecides(r, side, book, tick, tickOffset, m, price);
      SmallOrder(price, side, book, tick, tickOffset, m);
      var needed :| NeededDecides(r, side, book, tick, tickOffset, m, price, needed);
      SmallNeeded(needed, price, m);
      var quantity :| NotionalDecides(r, side, book, tick, tickOffset, m, price, quantity);
      SmallNotional(price, quantity, m);
    }
  }

  lemma SmallPrice(side: Side, book: Decimal, tick: Decimal, tickOffset: int)
    requires book.scale <= SMALL_SCALE && tick.scale <= SMALL_SCALE
    ensures !PriceOutOfScale(side, book, tick, tickOffset)
  {
    NormalizedIsExact(tickOffset, 0);
    var offset := Times(tick, Normalized(tickOffset, 0));
    NormalizedIsExact(tick.coefficient * Normalized(tickOffset, 0).coefficient, tick.scale);
    var k := LargerScale(book, offset);
    NormalizedIsExact(Units(book, k) + Units(offset, k), k);
    NormalizedIsExact(Units(book, k) - Units(offset, k), k);
    hide Normalized, Units, Value;
  }

  lemma SmallOrder(price: Decimal, side: Side, book: Decimal, tick: Decimal, tickOffset: int, m: Minima)
    requires PassivePrice(price, side, book, tick, tickOffset) && tick.scale <= SMALL_SCALE
    requires m.notional.scale <= SMALL_SCALE && m.step.scale <= SMALL_SCALE
    ensures price.scale <= SMALL_SCALE && !QuantityOutOfScale(price, m.notional, m.quantity, m.step) && !ExitsOutOfScale(price, tick)
  {
    PriceIsMultiple(price, side, book, tick, tickOffset);
    MultipleScale(price, tick);
    NormalizedIsExact(price.coefficient * 102, price.scale + 2);
    NormalizedIsExact(price.coefficient * 98, price.scale + 2);
    hide Value, Normalized, PassivePrice;
  }

  lemma SmallNeeded(needed: Decimal, price: Decimal, m: Minima)
    requires IsNeeded(needed, price, m.notional, m.step) && m.quantity.scale <= SMALL_SCALE && m.step.scale <= SMALL_SCALE
    ensures !MinimumOutOfScale(m.quantity, needed)
  {
    MultipleScale(needed, m.step);
    hide Value, IsNeeded;
  }

  lemma SmallNotional(price: Decimal, quantity: Decimal, m: Minima)
    requires LeastQuantity(quantity, m.step, Value(m.quantity), Value(m.notional), Value(price))
    requires price.scale <= SMALL_SCALE && m.step.scale <= SMALL_SCALE
    ensures Times(price, quantity).scale <= MAX_SCALE
  {
    MultipleScale(quantity, m.step);
    NormalizedIsExact(price.coefficient * quantity.coefficient, price.scale + quantity.scale);
    hide Value, Normalized, LeastQuantity;
  }
}
