/** The exposure a probe run owns and the order that flattens it (deriveOwnedExposure, scripts/bybit-probe/cleanup.ts). */
module Exposure {
  import opened Common
  import opened Sums
  import opened Decimals
  import opened DecimalText
  import opened StepRounding
  import Sizing

  datatype OwnedExecution = OwnedExecution(executionId: string, orderId: string, orderLinkId: string, side: Sizing.Side, qty: string)

  datatype OwnedExposure =
    | Owned(remainingSignedQty: string, flattenSide: Sizing.Side, flattenQty: string)
    | AlreadyFlat
    | Unresolved

  function SignedQty(x: OwnedExecution): Result<Decimal, ProbeError> {
    var quantity :- ParseDecimal(x.qty);
    Ok(if x.side == Sizing.Buy then quantity else Negate(quantity))
  }

  predicate Identified(x: OwnedExecution) {
    x.executionId != "" && x.orderId != "" && x.orderLinkId != ""
  }

  /** What a buy adds to the position, or a sell takes from it. */
  ghost function SignedValue(x: OwnedExecution): real {
    if ParseDecimal(x.qty).Err? then 0.0
    else if x.side == Sizing.Buy then Value(ParseDecimal(x.qty).value)
    else -Value(ParseDecimal(x.qty).value)
  }

  lemma SignedMeaning(x: OwnedExecution)
    ensures SignedQty(x).Ok? <==> ParseDecimal(x.qty).Ok?
    ensures SignedQty(x).Ok? ==> Value(SignedQty(x).value) == SignedValue(x)
  {
    hide Value, ParseDecimal;
    if ParseDecimal(x.qty).Ok? {
      NegateIsExact(ParseDecimal(x.qty).value);
    }
  }

  ghost function SignedValues(executions: seq<OwnedExecution>): seq<real> {
    seq(|executions|, i requires 0 <= i < |executions| => SignedValue(executions[i]))
  }

  /** Executions of this run, each once, of readable quantity. */
  ghost predicate Attributed(executions: seq<OwnedExecution>) {
    && (forall i, j :: 0 <= i < j < |executions| ==> executions[i].executionId != executions[j].executionId)
    && (forall x :: x in executions ==> Identified(x) && ParseDecimal(x.qty).Ok?)
  }

  /** The executions explain the way from the baseline to the current position. */
  ghost predicate Explained(baseline: string, current: string, executions: seq<OwnedExecution>) {
    && Attributed(executions)
    && ParseDecimal(baseline).Ok? && ParseDecimal(current).Ok?
    && Value(ParseDecimal(current).value) - Value(ParseDecimal(baseline).value) == Sum(SignedValues(executions))
  }

  /** The exact signed total; an unreadable quantity adds nothing. */
  function SignedTotal(executions: seq<OwnedExecution>): Decimal {
    if executions == [] then Decimal(0, 0)
    else
      var before, signed := SignedTotal(executions[..|executions| - 1]), SignedQty(executions[|executions| - 1]);
      if signed.Ok? then Plus(before, signed.value) else before
  }

  /** Every quantity is near the total of those before it. */
  predicate StepsNear(executions: seq<OwnedExecution>) {
    forall i :: 0 <= i < |executions| ==> StepNear(executions, i)
  }

  predicate StepNear(executions: seq<OwnedExecution>, i: nat)
    requires i < |executions|
  {
    SignedQty(executions[i]).Ok? ==> Near(SignedTotal(executions[..i]), SignedQty(executions[i]).value)
  }

  /** The executions can be added up and both positions read, but the positions or the two changes are too far apart in decimal places. */
  ghost predicate Throws(baseline: string, current: string, executions: seq<OwnedExecution>) {
    && Attributed(executions) && StepsNear(executions)
    && ParseDecimal(baseline).Ok? && ParseDecimal(current).Ok?
    && var (from, to) := (ParseDecimal(baseline).value, ParseDecimal(current).value);
       !Near(to, from) || !Near(Minus(to, from), SignedTotal(executions))
  }

  lemma TotalNext(executions: seq<OwnedExecution>, i: nat)
    requires i < |executions|
    ensures SignedTotal(executions[..i + 1])
            == if SignedQty(executions[i]).Ok? then Plus(SignedTotal(executions[..i]), SignedQty(executions[i]).value) else SignedTotal(executions[..i])
  {
    assert executions[..i + 1][..i] == executions[..i];
  }

  lemma {:induction false} ModerateTotal(executions: seq<OwnedExecution>)
    requires forall x :: x in executions ==> Moderate(x.qty)
    ensures SignedTotal(executions).scale <= MAX_SCALE
  {
    if executions != [] {
      hide Moderate, SignedQty, Plus;
      var init, last := executions[..|executions| - 1], executions[|executions| - 1];
      ModerateTotal(init);
      assert last in executions;
      SignedScale(last);
      if SignedQty(last).Ok? {
        ModerateOperations(SignedTotal(init), SignedQty(last).value);
      }
    }
  }

  /** Short of the scale limit nothing throws and every step succeeds. */
  lemma ModerateIsNear(baseline: string, current: string, executions: seq<OwnedExecution>)
    requires AllModerate(baseline, current, executions)
    ensures StepsNear(executions) && !Throws(baseline, current, executions)
  {
    hide SignedTotal, SignedQty, ParseDecimal, Minus, Attributed;
    forall i | 0 <= i < |executions|
      ensures StepNear(executions, i)
    {
      ModerateTotal(executions[..i]);
      SignedScale(executions[i]);
    }
    ModerateTotal(executions);
    if ParseDecimal(baseline).Ok? && ParseDecimal(current).Ok? {
      ModerateOperations(ParseDecimal(current).value, ParseDecimal(baseline).value);
    }
  }

  /** No more decimal places than the bounded operations take. */
  predicate Moderate(s: string) {
    ParseDecimal(s).Ok? ==> ParseDecimal(s).value.scale <= MAX_SCALE
  }

  ghost predicate AllModerate(baseline: string, current: string, executions: seq<OwnedExecution>) {
    Moderate(baseline) && Moderate(current) && forall x :: x in executions ==> Moderate(x.qty)
  }

  lemma ModerateOperations(a: Decimal, b: Decimal)
    requires a.scale <= MAX_SCALE && b.scale <= MAX_SCALE
    ensures AddDecimals(a, b) == Ok(Plus(a, b)) && Plus(a, b).scale <= MAX_SCALE
    ensures SubtractDecimals(a, b) == Ok(Minus(a, b)) && Minus(a, b).scale <= MAX_SCALE
    ensures CompareDecimals(a, b) == Ok(Compare(a, b))
  {
    BoundedOperations(a, b);
    var k := LargerScale(a, b);
    NormalizedIsExact(Units(a, k) + Units(b, k), k);
    NormalizedIsExact(Units(a, k) - Units(b, k), k);
  }

  lemma BoundedMeaning(a: Decimal, b: Decimal)
    ensures AddDecimals(a, b).Ok? ==> Value(AddDecimals(a, b).value) == Value(a) + Value(b)
    ensures SubtractDecimals(a, b).Ok? ==> Value(SubtractDecimals(a, b).value) == Value(a) - Value(b) && IsNormal(SubtractDecimals(a, b).value)
    ensures CompareDecimals(a, b).Ok? ==> (CompareDecimals(a, b).value == 0 <==> Value(a) == Value(b))
  {
    BoundedOperations(a, b);
    PlusIsExact(a, b);
    CompareIsExact(a, b);
  }

  lemma SignedScale(x: OwnedExecution)
    ensures SignedQty(x).Ok? <==> ParseDecimal(x.qty).Ok?
    ensures SignedQty(x).Ok? && Moderate(x.qty) ==> SignedQty(x).value.scale <= MAX_SCALE
  {
  }

  lemma SumNext(executions: seq<OwnedExecution>, i: nat)
    requires i < |executions|
    ensures Sum(SignedValues(executions[..i + 1])) == Sum(SignedValues(executions[..i])) + SignedValue(executions[i])
  {
    assert SignedValues(executions[..i + 1])[..i] == SignedValues(executions[..i]);
  }

  function IdsOf(executions: seq<OwnedExecution>): set<string> {
    set x | x in executions :: x.executionId
  }

  predicate Usable(x: OwnedExecution) {
    Identified(x) && ParseDecimal(x.qty).Ok?
  }

  lemma AttributedNext(executions: seq<OwnedExecution>, i: nat)
    requires i < |executions|
    ensures IdsOf(executions[..i + 1]) == IdsOf(executions[..i]) + {executions[i].executionId}
    ensures Attributed(executions[..i + 1]) <==>
      Attributed(executions[..i]) && Usable(executions[i]) && executions[i].executionId !in IdsOf(executions[..i])
  {
    hide ParseDecimal, Identified;
    var now, next, x := executions[..i], executions[..i + 1], executions[i];
    assert next == now + [x];
    assert forall y :: y in next <==> y in now || y == x;
    assert forall k :: 0 <= k < i ==> next[k] == now[k] && now[k] in now;
    assert next[i] == x;
  }

  lemma AttributedPrefix(executions: seq<OwnedExecution>, i: nat)
    requires i <= |executions|
    ensures Attributed(executions) ==> Attributed(executions[..i])
  {
    hide ParseDecimal, Identified;
    assert forall x :: x in executions[..i] ==> x in executions;
  }

  /** The sum before an execution can be extended by it exactly when the step is near. */
  lemma NextSum(executions: seq<OwnedExecution>, i: nat, sum: Decimal, signed: Decimal)
    requires i < |executions| && sum == SignedTotal(executions[..i]) && SignedQty(executions[i]) == Ok(signed)
    requires Value(sum) == Sum(SignedValues(executions[..i]))
    ensures AddDecimals(sum, signed).Ok? <==> StepNear(executions, i)
    ensures AddDecimals(sum, signed).Ok? ==>
      && AddDecimals(sum, signed).value == SignedTotal(executions[..i + 1])
      && Value(AddDecimals(sum, signed).value) == Sum(SignedValues(executions[..i + 1]))
  {
    NearOperations(sum, signed);
    BoundedMeaning(sum, signed);
    SignedMeaning(executions[i]);
    SumNext(executions, i);
    TotalNext(executions, i);
    hide Value, AddDecimals, CompareDecimals, SubtractDecimals, Plus, Minus, Compare, Near, Sum, SignedValues, SignedTotal, SignedQty;
  }

  lemma UsableMeans(x: OwnedExecution)
    ensures Usable(x) <==> Identified(x) && SignedQty(x).Ok?
  {
    SignedScale(x);
  }

  /** The first `i` executions are of the run, each once, and add up to `sum`. */
  ghost predicate AddedUpTo(executions: seq<OwnedExecution>, i: nat, sum: Decimal, ids: set<string>)
    requires i <= |executions|
  {
    && ids == IdsOf(executions[..i]) && Attributed(executions[..i]) && (forall k :: 0 <= k < i ==> StepNear(executions, k))
    && sum == SignedTotal(executions[..i]) && Value(sum) == Sum(SignedValues(executions[..i]))
  }

  /** The sum with one execution more; none if the execution is not usable. */
  method AddExecution(executions: seq<OwnedExecution>, i: nat, sum: Decimal, ids: set<string>) returns (next: Option<Decimal>)
    requires i < |executions| && AddedUpTo(executions, i, sum, ids)
    ensures next.Some? ==> AddedUpTo(executions, i + 1, next.value, ids + {executions[i].executionId})
    ensures next.None? ==> !(Attributed(executions) && StepsNear(executions))
  {
    hide Value, ParseDecimal, AddDecimals, Sum, Attributed, IdsOf, SignedValues, Identified, SignedQty, SignedTotal, StepNear;
    var x := executions[i];
    AttributedNext(executions, i);
    AttributedPrefix(executions, i + 1);
    UsableMeans(x);
    if x.executionId in ids || !Identified(x) {
      return None;
    }
    var signed := SignedQty(x);
    if signed.Err? {
      return None;
    }
    NextSum(executions, i, sum, signed.value);
    var added := AddDecimals(sum, signed.value);
    next := if added.Ok? then Some(added.value) else None;
  }

  /** The signed sum of the executions, unless one is unidentified, repeated, unreadable or too far from the sum before it. */
  method ExpectedDelta(executions: seq<OwnedExecution>) returns (delta: Option<Decimal>)
    ensures delta.Some? <==> Attributed(executions) && StepsNear(executions)
    ensures delta.Some? ==> delta.value == SignedTotal(executions) && Value(delta.value) == Sum(SignedValues(executions))
  {
    var sum := Decimal(0, 0);
    var ids: set<string> := {};
    NothingSigned(executions);
    for i := 0 to |executions|
      invariant AddedUpTo(executions, i, sum, ids)
    {
      hide AddedUpTo;
      var next := AddExecution(executions, i, sum, ids);
      if next.None? {
        return None;
      }
      sum, ids := next.value, ids + {executions[i].executionId};
    }
    hide Value, SignedTotal, SignedValues, Sum, Attributed, StepNear;
    assert executions[..|executions|] == executions;
    delta := Some(sum);
  }

  lemma NothingSigned(executions: seq<OwnedExecution>)
    ensures Value(Decimal(0, 0)) == Sum(SignedValues(executions[..0])) && SignedTotal(executions[..0]) == Decimal(0, 0)
    ensures IdsOf(executions[..0]) == {} && Attributed(executions[..0])
  {
  }

  /** Executing the flatten order brings the position back to the baseline. */
  ghost predicate ReturnsToBaseline(baseline: string, current: string, side: Sizing.Side, qty: string) {
    && ParseDecimal(baseline).Ok? && ParseDecimal(current).Ok? && ParseDecimal(qty).Ok?
    && Value(ParseDecimal(qty).value) > 0.0
    && Value(ParseDecimal(baseline).value) == Value(ParseDecimal(current).value)
       + (if side == Sizing.Buy then Value(ParseDecimal(qty).value) else -Value(ParseDecimal(qty).value))
  }

  lemma FlattenMeaning(baseline: string, current: string, delta: Decimal)
    requires ParseDecimal(baseline).Ok? && ParseDecimal(current).Ok? && IsNormal(delta) && delta.coefficient != 0
    requires Value(delta) == Value(ParseDecimal(current).value) - Value(ParseDecimal(baseline).value)
    ensures ReturnsToBaseline(baseline, current, if delta.coefficient > 0 then Sizing.Sell else Sizing.Buy, ToDecimalString(Abs(delta)))
    ensures IsRemaining(ToDecimalString(delta), baseline, current)
  {
    NegateIsExact(delta);
    SignOfValue(delta);
    RoundTrip(Abs(delta));
    RoundTrip(delta);
  }

  /** The number printed is how far the position is from the baseline. */
  ghost predicate IsRemaining(remaining: string, baseline: string, current: string) {
    && ParseDecimal(baseline).Ok? && ParseDecimal(current).Ok? && ParseDecimal(remaining).Ok?
    && Value(ParseDecimal(remaining).value) == Value(ParseDecimal(current).value) - Value(ParseDecimal(baseline).value)
  }

  /**
   * The exposure is owned or flat exactly when distinct executions of the run explain the whole way
   * from the baseline and each can be added to those before it; flattening it returns exactly to the
   * baseline.  It throws exactly when the decimal places are too far apart for the last two operations.
   */
  method DeriveOwnedExposure(baseline: string, current: string, executions: seq<OwnedExecution>)
    returns (r: Result<OwnedExposure, ProbeError>)
    ensures r.Err? <==> Throws(baseline, current, executions)
    ensures r.Err? ==> r.error == ScaleOutOfRange
    ensures r.Ok? ==> (!r.value.Unresolved? <==> Explained(baseline, current, executions) && StepsNear(executions))
    ensures r.Ok? && r.value.Owned? ==>
      && ReturnsToBaseline(baseline, current, r.value.flattenSide, r.value.flattenQty)
      && IsRemaining(r.value.remainingSignedQty, baseline, current)
    ensures r.Ok? && r.value.AlreadyFlat? ==> Value(ParseDecimal(current).value) == Value(ParseDecimal(baseline).value)
    ensures AllModerate(baseline, current, executions) ==> r.Ok? && (!r.value.Unresolved? <==> Explained(baseline, current, executions))
  {
    var expected := ExpectedDelta(executions);
    hide Value, AddDecimals, SubtractDecimals, CompareDecimals, Sum, SignedValues, Attributed, Plus, Minus, Compare, ParseDecimal, Abs, ToDecimalString,
      SignedTotal, StepsNear, Near;
    if AllModerate(baseline, current, executions) {
      ModerateIsNear(baseline, current, executions);
    }
    hide AllModerate;
    if expected.None? {
      return Ok(Unresolved);
    }
    var from, to := ParseDecimal(baseline), ParseDecimal(current);
    if from.Err? || to.Err? {
      return Ok(Unresolved);
    }
    BoundedMeaning(to.value, from.value);
    NearOperations(to.value, from.value);
    var actual := SubtractDecimals(to.value, from.value);
    if actual.Err? {
      return Err(actual.error);
    }
    BoundedMeaning(actual.value, expected.value);
    NearOperations(actual.value, expected.value);
    var order := CompareDecimals(actual.value, expected.value);
    if order.Err? {
      return Err(order.error);
    }
    if order.value != 0 {
      return Ok(Unresolved);
    }
    SignOfValue(actual.value);
    if actual.value.coefficient == 0 {
      return Ok(AlreadyFlat);
    }
    FlattenMeaning(baseline, current, actual.value);
    r := Ok(Owned(ToDecimalString(actual.value), if actual.value.coefficient > 0 then Sizing.Sell else Sizing.Buy, ToDecimalString(Abs(actual.value))));
  }

  // ----------------------------------------------------------------- limits

  /** `units` in the given decimal place. */
  function Speck(units: int, place: nat): string {
    ToDecimalString(Decimal(units, place))
  }

  lemma SpeckIsRead(units: int, place: nat)
    requires units % 10 != 0
    ensures ParseDecimal(Speck(units, place)) == Ok(Decimal(units, place))
  {
    RoundTrip(Decimal(units, place));
  }

  lemma SpeckDifference(place: nat)
    ensures Minus(Decimal(2, place), Decimal(1, place)) == Decimal(1, place)
    ensures Value(Decimal(2, place)) - Value(Decimal(1, place)) == Value(Decimal(1, place))
  {
    assert Pow10(0) == 1;
    PlusIsExact(Decimal(2, place), Decimal(1, place));
    hide Value;
  }

  lemma ZeroIsRead()
    ensures ParseDecimal("0") == Ok(Decimal(0, 0))
  {
    RoundTrip(Decimal(0, 0));
    hide ParseDecimal;
  }

  lemma NoExecutions()
    ensures Attributed([]) && StepsNear([]) && SignedTotal([]) == Decimal(0, 0)
  {
  }

  /** A position beyond the scale limit and a flat baseline are too far apart. */
  lemma ThrowsOnPositions(place: nat)
    requires place > MAX_SCALE
    ensures Throws("0", Speck(1, place), [])
  {
    SpeckIsRead(1, place);
    ZeroIsRead();
    NoExecutions();
    hide Minus, Speck, ParseDecimal, Attributed, StepsNear, SignedTotal;
  }

  /** Positions of equal scale throw too, when their difference is too far from the executions' total. */
  lemma ThrowsOnChange(place: nat)
    requires place > MAX_SCALE
    ensures Throws(Speck(1, place), Speck(2, place), [])
  {
    SpeckIsRead(1, place);
    SpeckIsRead(2, place);
    SpeckDifference(place);
    NoExecutions();
    hide Minus, Speck, ParseDecimal, Attributed, StepsNear, SignedTotal, Value;
  }

  function SpeckBuy(place: nat): OwnedExecution {
    OwnedExecution("execution", "order", "link", Sizing.Buy, Speck(1, place))
  }

  lemma OneBuy(x: OwnedExecution, d: Decimal)
    requires Identified(x) && x.side == Sizing.Buy && ParseDecimal(x.qty) == Ok(d)
    ensures SignedQty(x) == Ok(d) && Attributed([x]) && SignedTotal([]) == Decimal(0, 0)
    ensures Sum(SignedValues([x])) == Value(d)
  {
    hide ParseDecimal, Value;
    var executions := [x];
    assert executions[..0] == [] && executions[..1] == executions;
    SumNext(executions, 0);
    assert Sum(SignedValues([])) == 0.0;
  }

  lemma Unaddable(baseline: string, current: string, x: OwnedExecution, d: Decimal)
    requires Identified(x) && x.side == Sizing.Buy && ParseDecimal(x.qty) == Ok(d) && d.scale > MAX_SCALE
    requires ParseDecimal(baseline).Ok? && ParseDecimal(current).Ok?
    requires Value(ParseDecimal(current).value) - Value(ParseDecimal(baseline).value) == Value(d)
    ensures Explained(baseline, current, [x]) && !StepsNear([x]) && !Throws(baseline, current, [x])
  {
    OneBuy(x, d);
    hide ParseDecimal, Value, Sum, SignedValues, Attributed, SignedQty, SignedTotal, Identified, Minus;
    var executions := [x];
    assert executions[..0] == [];
    assert !StepNear(executions, 0);
  }

  lemma SpeckIsBought(place: nat)
    ensures Identified(SpeckBuy(place)) && SpeckBuy(place).side == Sizing.Buy && SpeckBuy(place).qty == Speck(1, place)
  {
    hide Speck;
  }

  /** A position explained in full stays unresolved when an execution cannot be added. */
  lemma ExplainedUnresolved(place: nat)
    requires place > MAX_SCALE
    ensures Explained(Speck(1, place), Speck(2, place), [SpeckBuy(place)])
    ensures !StepsNear([SpeckBuy(place)]) && !Throws(Speck(1, place), Speck(2, place), [SpeckBuy(place)])
  {
    SpeckIsRead(1, place);
    SpeckIsRead(2, place);
    SpeckDifference(place);
    SpeckIsBought(place);
    hide Value, Minus, Speck, SpeckBuy, Identified, ParseDecimal, Explained, StepsNear, Throws;
    Unaddable(Speck(1, place), Speck(2, place), SpeckBuy(place), Decimal(1, place));
  }
}
