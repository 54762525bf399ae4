/** The probe's bounded operations and its rounding to a step (scripts/bybit-probe/decimal.ts). */
module StepRounding {
  import opened Common
  import opened Decimals

  datatype Rounding = Floor | Ceil

  /** What the decimal operations and the size derivation throw. */
  datatype ProbeError =
    | MalformedDecimal
    | ScaleOutOfRange
    | BadFactor
    | BadStep
    | PriceNotPositive
    | NotionalAboveCap
    | ExitsInvalid

  const MAX_SCALE := 1000

  function Power10(scale: int): Result<int, ProbeError> {
    if scale < 0 || scale > MAX_SCALE then Err(ScaleOutOfRange) else Ok(Pow10(scale))
  }

  function Aligned(left: Decimal, right: Decimal): Result<(int, int, nat), ProbeError> {
    var scale := LargerScale(left, right);
    var l :- Power10(scale - left.scale);
    var r :- Power10(scale - right.scale);
    Ok((left.coefficient * l, right.coefficient * r, scale))
  }

  function CompareDecimals(left: Decimal, right: Decimal): Result<int, ProbeError> {
    var (l, r, _) :- Aligned(left, right);
    Ok(if l < r then -1 else if l > r then 1 else 0)
  }

  function AddDecimals(left: Decimal, right: Decimal): Result<Decimal, ProbeError> {
    var (l, r, scale) :- Aligned(left, right);
    Ok(Normalized(l + r, scale))
  }

  function SubtractDecimals(left: Decimal, right: Decimal): Result<Decimal, ProbeError> {
    var (l, r, scale) :- Aligned(left, right);
    Ok(Normalized(l - r, scale))
  }

  /** Within the scale limit the bounded operations are the exact ones; past it they throw. */
  lemma BoundedOperations(left: Decimal, right: Decimal)
    ensures var apart := if left.scale > right.scale then left.scale - right.scale else right.scale - left.scale;
            if apart <= MAX_SCALE then
              && AddDecimals(left, right) == Ok(Plus(left, right))
              && SubtractDecimals(left, right) == Ok(Minus(left, right))
              && CompareDecimals(left, right) == Ok(Compare(left, right))
            else
              && AddDecimals(left, right) == Err(ScaleOutOfRange)
              && SubtractDecimals(left, right) == Err(ScaleOutOfRange)
              && CompareDecimals(left, right) == Err(ScaleOutOfRange)
  {
  }

  /** Close enough in decimal places for the bounded operations, which throw otherwise. */
  predicate Near(a: Decimal, b: Decimal) {
    a.scale <= b.scale + MAX_SCALE && b.scale <= a.scale + MAX_SCALE
  }

  lemma NearOperations(a: Decimal, b: Decimal)
    ensures if Near(a, b)
            then AddDecimals(a, b) == Ok(Plus(a, b)) && SubtractDecimals(a, b) == Ok(Minus(a, b)) && CompareDecimals(a, b) == Ok(Compare(a, b))
            else AddDecimals(a, b) == Err(ScaleOutOfRange) && SubtractDecimals(a, b) == Err(ScaleOutOfRange) && CompareDecimals(a, b) == Err(ScaleOutOfRange)
  {
    BoundedOperations(a, b);
  }

  // -------------------------------------------------------------- quotients

  /** BigInt division: towards zero. */
  function TruncatedQuotient(n: int, d: int): int
    requires d > 0
  {
    if n >= 0 then n / d else -(-n / d)
  }

  function IntegerQuotient(n: int, d: int, rounding: Rounding): (r: Result<int, ProbeError>)
    ensures r.Ok? <==> d > 0
  {
    if d <= 0 then Err(BadFactor)
    else
      var quotient := TruncatedQuotient(n, d);
      var remainder := n - quotient * d;
      Ok(if remainder == 0 then quotient
         else if rounding == Floor then (if n < 0 then quotient - 1 else quotient)
         else (if n < 0 then quotient else quotient + 1))
  }

  lemma ProductsAscend(a: int, b: int, d: int)
    requires d > 0 && a <= b
    ensures a * d <= b * d
  {
  }

  lemma QuotientBounds(n: int, d: int, rounding: Rounding)
    requires d > 0
    ensures var q := IntegerQuotient(n, d, rounding).value;
            if rounding == Floor then q * d <= n < q * d + d else q * d - d < n <= q * d
  {
    var t := TruncatedQuotient(n, d);
    if n >= 0 {
      assert t * d <= n < t * d + d;
    } else {
      assert (-t) * d <= -n < (-t) * d + d;
      assert (-t) * d == -(t * d);
    }
    assert (t + 1) * d == t * d + d && (t - 1) * d == t * d - d;
  }

  /** The quotient is the greatest (least) integer whose product stays below (above), negative numerators included. */
  lemma IntegerQuotientIsOptimal(n: int, d: int, rounding: Rounding, m: int)
    requires d > 0
    ensures var q := IntegerQuotient(n, d, rounding).value;
            if rounding == Floor then m * d <= n <==> m <= q else m * d >= n <==> m >= q
  {
    QuotientBounds(n, d, rounding);
    hide IntegerQuotient;
    var q := IntegerQuotient(n, d, rounding).value;
    assert (q + 1) * d == q * d + d && (q - 1) * d == q * d - d;
    if m < q { ProductsAscend(m, q - 1, d); }
    if m <= q { ProductsAscend(m, q, d); }
    if m >= q { ProductsAscend(q, m, d); }
    if m > q { ProductsAscend(q + 1, m, d); }
  }

  // --------------------------------------------------------- step rounding

  /** The m-th multiple of a step. */
  ghost function Multiple(m: int, step: Decimal): real {
    m as real * Value(step)
  }

  ghost predicate IsMultiple(d: Decimal, step: Decimal) {
    exists m :: Value(d) == Multiple(m, step)
  }

  /** `r` is the greatest multiple of `step` that is at most `v`. */
  ghost predicate GreatestMultiple(r: Decimal, step: Decimal, v: real) {
    && IsMultiple(r, step) && Value(r) <= v
    && forall m :: Multiple(m, step) <= v ==> Multiple(m, step) <= Value(r)
  }

  /** `r` is the least multiple of `step` that is at least `v`. */
  ghost predicate LeastMultiple(r: Decimal, step: Decimal, v: real) {
    && IsMultiple(r, step) && Value(r) >= v
    && forall m :: Multiple(m, step) >= v ==> Multiple(m, step) >= Value(r)
  }

  function StepUnits(value: Decimal, step: Decimal, rounding: Rounding): Result<int, ProbeError> {
    if step.coefficient <= 0 then Err(BadStep)
    else
      var stepPower :- Power10(step.scale);
      var valuePower :- Power10(value.scale);
      IntegerQuotient(value.coefficient * stepPower, step.coefficient * valuePower, rounding)
  }

  function RoundToStep(value: Decimal, step: Decimal, rounding: Rounding): Result<Decimal, ProbeError> {
    var units :- StepUnits(value, step, rounding);
    Ok(Times(step, Normalized(units, 0)))
  }

  function FloorToStep(value: Decimal, step: Decimal): Result<Decimal, ProbeError> {
    RoundToStep(value, step, Floor)
  }

  function CeilToStep(value: Decimal, step: Decimal): Result<Decimal, ProbeError> {
    RoundToStep(value, step, Ceil)
  }

  function CeilRatioToStep(numerator: Decimal, denominator: Decimal, step: Decimal): Result<Decimal, ProbeError> {
    if numerator.coefficient < 0 || denominator.coefficient <= 0 || step.coefficient <= 0 then Err(BadFactor)
    else
      var denominatorPower :- Power10(denominator.scale);
      var stepPower :- Power10(step.scale);
      var numeratorPower :- Power10(numerator.scale);
      var units :- IntegerQuotient(numerator.coefficient * denominatorPower * stepPower,
                                   denominator.coefficient * numeratorPower * step.coefficient, Ceil);
      Ok(Times(step, Normalized(units, 0)))
  }

  lemma StepTimes(step: Decimal, units: int)
    ensures Value(Times(step, Normalized(units, 0))) == Multiple(units, step)
    ensures IsNormal(Times(step, Normalized(units, 0)))
    ensures IsMultiple(Times(step, Normalized(units, 0)), step)
  {
    TimesIsExact(step, Normalized(units, 0));
    NormalizedIsExact(units, 0);
    assert Value(Times(step, Normalized(units, 0))) == Multiple(units, step);
  }

  /** A multiple of a step has no more decimal places than the step. */
  lemma MultipleScale(d: Decimal, step: Decimal)
    requires IsNormal(d) && IsMultiple(d, step)
    ensures d.scale <= step.scale
  {
    var m :| Value(d) == Multiple(m, step);
    StepTimes(step, m);
    NormalizedIsExact(m, 0);
    NormalizedIsExact(step.coefficient * Normalized(m, 0).coefficient, step.scale + Normalized(m, 0).scale);
    hide Value, Multiple, IsNormal, Normalized;
    NormalFormIsUnique(d, Times(step, Normalized(m, 0)));
  }

  /** Rounding throws exactly on a step that is not positive, and then on more decimal places than the limit. */
  lemma RoundToStepCases(value: Decimal, step: Decimal, rounding: Rounding)
    ensures var r := RoundToStep(value, step, rounding);
            if step.coefficient <= 0 then r == Err(BadStep)
            else if step.scale > MAX_SCALE || value.scale > MAX_SCALE then r == Err(ScaleOutOfRange)
            else r.Ok?
  {
    if step.coefficient > 0 && step.scale <= MAX_SCALE && value.scale <= MAX_SCALE {
      PositiveProduct(step.coefficient, Pow10(value.scale), 1);
    }
    hide Times, Normalized, TruncatedQuotient, Pow10;
  }

  /** The ratio throws exactly on a negative numerator or a denominator or step that is not positive, and then on the limit. */
  lemma CeilRatioCases(numerator: Decimal, denominator: Decimal, step: Decimal)
    ensures var r := CeilRatioToStep(numerator, denominator, step);
            if numerator.coefficient < 0 || denominator.coefficient <= 0 || step.coefficient <= 0 then r == Err(BadFactor)
            else if numerator.scale > MAX_SCALE || denominator.scale > MAX_SCALE || step.scale > MAX_SCALE then r == Err(ScaleOutOfRange)
            else r.Ok?
  {
    if denominator.coefficient > 0 && step.coefficient > 0 {
      PositiveProduct(denominator.coefficient, Pow10(numerator.scale), step.coefficient);
    }
    hide Times, Normalized, TruncatedQuotient, Pow10;
  }

  /** With `n` and `d` the value and the step at one scale, comparing m*d with n compares the multiple with the value. */
  lemma MultipleOrder(m: int, d: int, n: int, k: nat, step: Decimal, v: real)
    requires Value(Decimal(d, k)) == Value(step) && Value(Decimal(n, k)) == v
    ensures m * d <= n <==> Multiple(m, step) <= v
    ensures m * d >= n <==> Multiple(m, step) >= v
  {
    hide *;
    MultipleAtScale(m, d, k, step);
    OneScale(m * d, n, k);
    OneScale(n, m * d, k);
  }

  lemma MultipleAtScale(m: int, d: int, k: nat, step: Decimal)
    requires Value(Decimal(d, k)) == Value(step)
    ensures Multiple(m, step) == Value(Decimal(m * d, k))
  {
    hide Value;
    IntegerTimesValue(m, d, k);
  }

  /** Rounding down gives the greatest multiple, rounding up the least, for values of either sign. */
  lemma RoundToStepIsOptimal(value: Decimal, step: Decimal, rounding: Rounding)
    requires RoundToStep(value, step, rounding).Ok?
    ensures step.coefficient > 0
    ensures var r := RoundToStep(value, step, rounding).value;
            && IsNormal(r)
            && if rounding == Floor then GreatestMultiple(r, step, Value(value)) else LeastMultiple(r, step, Value(value))
  {
    var k := value.scale + step.scale;
    RescaleKeepsValue(value, k);
    RescaleKeepsValue(step, k);
    OptimalUnits(Units(value, k), Units(step, k), k, step, Value(value), rounding);
  }

  /** The quotient of `n` by `d` is the best number of steps, whatever value `n` stands for. */
  lemma OptimalUnits(n: int, d: int, k: nat, step: Decimal, v: real, rounding: Rounding)
    requires d > 0 && step.coefficient > 0
    requires Value(Decimal(d, k)) == Value(step) && Value(Decimal(n, k)) == v
    ensures var r := Times(step, Normalized(IntegerQuotient(n, d, rounding).value, 0));
            && IsNormal(r)
            && if rounding == Floor then GreatestMultiple(r, step, v) else LeastMultiple(r, step, v)
  {
    var units := IntegerQuotient(n, d, rounding).value;
    StepTimes(step, units);
    IntegerQuotientIsOptimal(n, d, rounding, units);
    MultipleOrder(units, d, n, k, step, v);
    forall m
      ensures rounding == Floor && Multiple(m, step) <= v ==> Multiple(m, step) <= Multiple(units, step)
      ensures rounding == Ceil && Multiple(m, step) >= v ==> Multiple(m, step) >= Multiple(units, step)
    {
      IntegerQuotientIsOptimal(n, d, rounding, m);
      MultipleOrder(m, d, n, k, step, v);
      MultiplesAscend(m, units, step);
      MultiplesAscend(units, m, step);
    }
  }

  lemma MultiplesAscend(a: int, b: int, step: Decimal)
    requires step.coefficient > 0
    ensures a <= b <==> Multiple(a, step) <= Multiple(b, step)
  {
    hide Value;
    SignOfValue(step);
    ScaleCancels(a as real, b as real, Value(step));
  }

  lemma ScaleCancels(x: real, y: real, v: real)
    requires v > 0.0
    ensures x <= y <==> x * v <= y * v
  {
  }

  // ------------------------------------------------------- ratio rounding

  /** x is at least numerator / denominator. */
  ghost predicate Reaches(x: real, numerator: real, denominator: real) {
    x * denominator >= numerator
  }

  /** `r` is the least multiple of `step` that reaches numerator / denominator. */
  ghost predicate LeastMultipleReaching(r: Decimal, step: Decimal, numerator: real, denominator: real) {
    && IsMultiple(r, step) && Reaches(Value(r), numerator, denominator)
    && forall m :: Reaches(Multiple(m, step), numerator, denominator) ==> Multiple(m, step) >= Value(r)
  }

  lemma Regroup(a: real, b: real, c: real)
    ensures (a * b) * c == a * (c * b)
  {
  }

  lemma RatioOrder(m: int, d: int, n: int, k: nat, step: Decimal, numerator: real, denominator: real)
    requires Value(Decimal(n, k)) == numerator
    requires Value(Decimal(d, k)) == denominator * Value(step)
    ensures m * d >= n <==> Reaches(Multiple(m, step), numerator, denominator)
  {
    hide Value;
    IntegerTimesValue(m, d, k);
    OneScale(m * d, n, k);
    Regroup(m as real, Value(step), denominator);
  }

  lemma OptimalRatio(n: int, d: int, k: nat, step: Decimal, numerator: real, denominator: real)
    requires d > 0 && step.coefficient > 0
    requires Value(Decimal(n, k)) == numerator
    requires Value(Decimal(d, k)) == denominator * Value(step)
    ensures var r := Times(step, Normalized(IntegerQuotient(n, d, Ceil).value, 0));
            IsNormal(r) && LeastMultipleReaching(r, step, numerator, denominator)
  {
    hide Value, Times, Normalized, Reaches, Multiple;
    var units := IntegerQuotient(n, d, Ceil).value;
    StepTimes(step, units);
    IntegerQuotientIsOptimal(n, d, Ceil, units);
    RatioOrder(units, d, n, k, step, numerator, denominator);
    forall m | Reaches(Multiple(m, step), numerator, denominator)
      ensures Multiple(m, step) >= Multiple(units, step)
    {
      IntegerQuotientIsOptimal(n, d, Ceil, m);
      RatioOrder(m, d, n, k, step, numerator, denominator);
      MultiplesAscend(units, m, step);
    }
  }

  /** The ratio is rounded up to the least multiple of the step that reaches it. */
  lemma CeilRatioIsOptimal(numerator: Decimal, denominator: Decimal, step: Decimal)
    requires CeilRatioToStep(numerator, denominator, step).Ok?
    ensures step.coefficient > 0 && denominator.coefficient > 0
    ensures var r := CeilRatioToStep(numerator, denominator, step).value;
            IsNormal(r) && LeastMultipleReaching(r, step, Value(numerator), Value(denominator))
  {
    hide Value, Times, Normalized, LeastMultipleReaching, IntegerQuotient, Pow10, IsNormal;
    var numeratorPower, denominatorPower, stepPower := Pow10(numerator.scale), Pow10(denominator.scale), Pow10(step.scale);
    var k := numerator.scale + denominator.scale + step.scale;
    RaisedTwice(numerator, denominator.scale, step.scale);
    DenominatorUnits(denominator, step, numerator.scale);
    PositiveProduct(denominator.coefficient, numeratorPower, step.coefficient);
    OptimalRatio(numerator.coefficient * denominatorPower * stepPower,
                 denominator.coefficient * numeratorPower * step.coefficient, k, step, Value(numerator), Value(denominator));
  }

  lemma PositiveProduct(a: int, b: int, c: int)
    requires a > 0 && b > 0 && c > 0
    ensures a * b * c > 0
  {
  }

  lemma RaisedTwice(d: Decimal, s: nat, t: nat)
    ensures Value(Decimal(d.coefficient * Pow10(s) * Pow10(t), d.scale + s + t)) == Value(d)
  {
    hide Value;
    RescaleKeepsValue(d, d.scale + s);
    RescaleKeepsValue(Decimal(d.coefficient * Pow10(s), d.scale + s), d.scale + s + t);
  }

  lemma DenominatorUnits(denominator: Decimal, step: Decimal, s: nat)
    ensures Value(Decimal(denominator.coefficient * Pow10(s) * step.coefficient, s + denominator.scale + step.scale))
            == Value(denominator) * Value(step)
  {
    hide Value;
    RescaleKeepsValue(denominator, denominator.scale + s);
    ProductValue(Decimal(denominator.coefficient * Pow10(s), denominator.scale + s), step);
  }

  // ---------------------------------------------------- rational multiples

  /** Division by ten until the last digit is not zero: what is left, and how often. */
  function StrippedTens(denominator: int): (r: (int, nat))
    requires denominator > 0
    ensures r.0 > 0 && r.0 % 10 != 0 && denominator == r.0 * Pow10(r.1)
  {
    if denominator % 10 == 0 then
      var (reduced, extra) := StrippedTens(denominator / 10);
      assert reduced * (10 * Pow10(extra)) == 10 * (reduced * Pow10(extra));
      (reduced, extra + 1)
    else (denominator, 0)
  }

  function MultiplyByRational(value: Decimal, numerator: int, denominator: int, rounding: Rounding)
    : Result<Decimal, ProbeError>
  {
    if denominator <= 0 || numerator < 0 then Err(BadFactor)
    else
      var (reduced, extra) := StrippedTens(denominator);
      if reduced == 1 then Ok(Normalized(value.coefficient * numerator, value.scale + extra))
      else
        var coefficient :- IntegerQuotient(value.coefficient * numerator, denominator, rounding);
        Ok(Normalized(coefficient, value.scale))
  }

  /** The loop over the reduced denominator computes `MultiplyByRational`. */
  method ScaleByRational(value: Decimal, numerator: int, denominator: int, rounding: Rounding)
    returns (r: Result<Decimal, ProbeError>)
    ensures r == MultiplyByRational(value, numerator, denominator, rounding)
  {
    if denominator <= 0 || numerator < 0 {
      return Err(BadFactor);
    }
    var reducedDenominator, extraScale := denominator, 0;
    while reducedDenominator % 10 == 0
      invariant reducedDenominator > 0 && extraScale >= 0
      invariant StrippedTens(denominator) ==
        (StrippedTens(reducedDenominator).0, StrippedTens(reducedDenominator).1 + extraScale)
      decreases reducedDenominator
    {
      reducedDenominator, extraScale := reducedDenominator / 10, extraScale + 1;
    }
    if reducedDenominator == 1 {
      return Ok(Normalized(value.coefficient * numerator, value.scale + extraScale));
    }
    var coefficient := IntegerQuotient(value.coefficient * numerator, denominator, rounding);
    r := Ok(Normalized(coefficient.value, value.scale));
  }

  /** The decimal c / 10^scale, d times over, is at most (at least) the target. */
  ghost predicate Within(d: int, c: int, scale: nat, target: real, rounding: Rounding) {
    if rounding == Floor then d as real * Value(Decimal(c, scale)) <= target
    else d as real * Value(Decimal(c, scale)) >= target
  }

  /** `q` at the given scale is the best decimal whose product with `d` stays within the target. */
  ghost predicate BestAtScale(q: int, scale: nat, d: int, target: real, rounding: Rounding) {
    && Within(d, q, scale, target, rounding)
    && forall c :: Within(d, c, scale, target, rounding) ==> if rounding == Floor then c <= q else c >= q
  }

  lemma QuotientIsBest(n: int, d: int, k: nat, target: real, rounding: Rounding)
    requires d > 0 && Value(Decimal(n, k)) == target
    ensures BestAtScale(IntegerQuotient(n, d, rounding).value, k, d, target, rounding)
  {
    hide IntegerQuotient, Within;
    var q := IntegerQuotient(n, d, rounding).value;
    forall c
      ensures Within(d, c, k, target, rounding) <==> if rounding == Floor then c <= q else c >= q
    {
      IntegerQuotientIsOptimal(n, d, rounding, c);
      WithinIsInteger(n, d, c, k, rounding);
    }
  }

  lemma WithinIsInteger(n: int, d: int, c: int, k: nat, rounding: Rounding)
    ensures Within(d, c, k, Value(Decimal(n, k)), rounding) <==> if rounding == Floor then c * d <= n else c * d >= n
  {
    hide Value;
    IntegerTimesValue(d, c, k);
    OneScale(n, d * c, k);
    OneScale(d * c, n, k);
    assert c * d == d * c;
  }

  lemma PowerOfTenIsExact(value: Decimal, numerator: int, denominator: int, extra: nat)
    requires denominator == Pow10(extra)
    ensures denominator as real * Value(Decimal(value.coefficient * numerator, value.scale + extra)) == numerator as real * Value(value)
  {
    hide Value;
    var n, k := value.coefficient * numerator, value.scale + extra;
    RescaleKeepsValue(Decimal(n, value.scale), k);
    IntegerTimesValue(denominator, n, k);
    IntegerTimesValue(numerator, value.coefficient, value.scale);
    assert n * denominator == denominator * n;
    assert n == numerator * value.coefficient;
  }

  /** Exact when the denominator is a power of ten. */
  lemma MultiplyByPowerOfTenIsExact(value: Decimal, numerator: int, denominator: int, rounding: Rounding)
    requires denominator > 0 && numerator >= 0 && StrippedTens(denominator).0 == 1
    ensures var r := MultiplyByRational(value, numerator, denominator, rounding);
            r.Ok? && IsNormal(r.value) && denominator as real * Value(r.value) == numerator as real * Value(value)
  {
    hide Value, Normalized, IntegerQuotient, IsNormal, Pow10;
    var extra := StrippedTens(denominator).1;
    NormalizedIsExact(value.coefficient * numerator, value.scale + extra);
    PowerOfTenIsExact(value, numerator, denominator, extra);
  }

  /** Otherwise the best decimal at the value's own scale, for values of either sign. */
  lemma MultiplyByRationalIsOptimal(value: Decimal, numerator: int, denominator: int, rounding: Rounding)
    requires denominator > 0 && numerator >= 0 && StrippedTens(denominator).0 != 1
    ensures var r := MultiplyByRational(value, numerator, denominator, rounding);
            && r.Ok? && IsNormal(r.value)
            && exists q :: && Value(r.value) == Value(Decimal(q, value.scale))
                           && BestAtScale(q, value.scale, denominator, numerator as real * Value(value), rounding)
  {
    hide Value, Normalized, IntegerQuotient, BestAtScale, IsNormal, Pow10;
    var n := value.coefficient * numerator;
    var q := IntegerQuotient(n, denominator, rounding).value;
    NormalizedIsExact(q, value.scale);
    IntegerTimesValue(numerator, value.coefficient, value.scale);
    assert n == numerator * value.coefficient;
    QuotientIsBest(n, denominator, value.scale, numerator as real * Value(value), rounding);
    assert Value(MultiplyByRational(value, numerator, denominator, rounding).value) == Value(Decimal(q, value.scale));
  }
}
