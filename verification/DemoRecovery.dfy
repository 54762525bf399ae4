/** Recovery of earlier guarded runs (src/application/demo-recovery.ts). */
module DemoRecovery {
  import opened Common
  import opened Sums
  import opened Decimals
  import opened Journal

  // ------------------------------------------------------------------ lookup

  function FindIntent(intents: seq<Intent>, id: string): Option<Intent> {
    if intents == [] then None
    else if intents[0].intentId == id then Some(intents[0])
    else FindIntent(intents[1..], id)
  }

  function Latest(run: Run): Option<Reconciliation> {
    if run.reconciliations == [] then None else Some(run.reconciliations[|run.reconciliations| - 1])
  }

  function AttemptsFor(attempts: seq<Attempt>, intentId: string): seq<Attempt> {
    if attempts == [] then []
    else
      var last := attempts[|attempts| - 1];
      AttemptsFor(attempts[..|attempts| - 1], intentId) + if last.intentId == intentId then [last] else []
  }

  function BindingFor(bindings: seq<IdentityBinding>, attemptId: string): Option<IdentityBinding> {
    if bindings == [] then None
    else if bindings[0].attemptId == attemptId then Some(bindings[0])
    else BindingFor(bindings[1..], attemptId)
  }

  predicate LeverageIsOne(s: ExchangeState) {
    s.leverage == Decimal(1, 0)
  }

  lemma LeverageMeaning(s: ExchangeState)
    ensures LeverageIsOne(s) <==> Value(s.leverage) == 1.0
  {
    assert Value(Decimal(1, 0)) == 1.0;
    if Value(s.leverage) == 1.0 {
      NormalFormIsUnique(s.leverage, Decimal(1, 0));
    }
  }

  predicate Equal(a: Normal, b: Normal) {
    Compare(a, b) == 0
  }

  /** The observation is of the order that the attempt's intent asks for, not from before it. */
  predicate ValidCandidate(o: Order, plan: Plan, attempt: Attempt) {
    var intent := FindIntent(plan.intents, attempt.intentId);
    && intent.Some? && o.clientOrderId == attempt.clientOrderId
    && o.instrument == intent.value.instrument && o.side == intent.value.side
    && Equal(o.requestedQuantity, intent.value.quantity) && o.observedAt >= attempt.submittedAt
  }

  /** The intent asks for that much of the instrument on that side. */
  ghost predicate AsksFor(intent: Intent, o: Order) {
    intent.instrument == o.instrument && intent.side == o.side && Value(intent.quantity) == Value(o.requestedQuantity)
  }

  lemma CandidateMeaning(o: Order, plan: Plan, attempt: Attempt)
    ensures ValidCandidate(o, plan, attempt) <==>
      && FindIntent(plan.intents, attempt.intentId).Some? && AsksFor(FindIntent(plan.intents, attempt.intentId).value, o)
      && o.clientOrderId == attempt.clientOrderId && !(o.observedAt < attempt.submittedAt)
  {
    var intent := FindIntent(plan.intents, attempt.intentId);
    if intent.Some? {
      CompareIsExact(o.requestedQuantity, intent.value.quantity);
    }
    hide Value, Compare, FindIntent;
  }

  /** reconcileAttempt (src/domain/execution/reconciliation.ts) */
  function ReconcileAttempt(attempt: Attempt, order: Option<Order>, plan: Plan): Result<RunStatus, Failure> {
    var intent := FindIntent(plan.intents, attempt.intentId);
    if attempt.planHash != plan.planHash || intent.None? then Err(OwnershipMismatch)
    else if order.None? then Ok(if attempt.acknowledgement == Rejected then FAILED else UNRESOLVED)
    else
      var o := order.value;
      if attempt.exchangeOrderId != Some(o.exchangeOrderId) || !ValidCandidate(o, plan, attempt) then Err(OwnershipMismatch)
      else if o.status == OrderFilled && Equal(o.filledQuantity, o.requestedQuantity) then Ok(RECONCILED)
      else if o.status == OrderOpen || o.status == OrderPartiallyFilled then Ok(PENDING)
      else if o.filledQuantity.coefficient > 0 then Ok(PARTIAL)
      else Ok(FAILED)
  }

  /** What a status says of the order read: filled in full, still working, ended with something filled, or ended with nothing. */
  ghost predicate Shows(order: Order, status: RunStatus) {
    var full := order.status == OrderFilled && Value(order.filledQuantity) == Value(order.requestedQuantity);
    var working := order.status == OrderOpen || order.status == OrderPartiallyFilled;
    match status
    case RECONCILED => full
    case PENDING => working
    case PARTIAL => !full && !working && Value(order.filledQuantity) > 0.0
    case FAILED => !full && !working && Value(order.filledQuantity) <= 0.0
    case UNRESOLVED => false
  }

  /** The candidate is of the attempt: as planned, as asked for, and under its exchange ID. */
  predicate IsOrderOf(order: Order, attempt: Attempt, plan: Plan) {
    && attempt.planHash == plan.planHash && attempt.exchangeOrderId == Some(order.exchangeOrderId)
    && ValidCandidate(order, plan, attempt)
  }

  /** Reconciling gives the one status that the order shows, and fails exactly on an order that is not the attempt's. */
  lemma StatusMeaning(attempt: Attempt, order: Order, plan: Plan)
    ensures var r := ReconcileAttempt(attempt, Some(order), plan);
      && (r.Ok? <==> IsOrderOf(order, attempt, plan))
      && (r.Err? ==> r.error == OwnershipMismatch) && r != Ok(UNRESOLVED)
      && (forall status :: r == Ok(status) <==> IsOrderOf(order, attempt, plan) && Shows(order, status))
  {
    CompareIsExact(order.filledQuantity, order.requestedQuantity);
    SignOfValue(order.filledQuantity);
    hide Value, Compare, FindIntent;
  }

  /** Without an order only a refused attempt of the plan has failed. */
  lemma NoOrderMeaning(attempt: Attempt, plan: Plan)
    requires attempt.planHash == plan.planHash && FindIntent(plan.intents, attempt.intentId).Some?
    ensures ReconcileAttempt(attempt, None, plan) == Ok(FAILED) <==> attempt.acknowledgement == Rejected
    ensures ReconcileAttempt(attempt, None, plan) == Ok(UNRESOLVED) <==> attempt.acknowledgement != Rejected
  {
  }

  function Opposite(s: Side): Side {
    if s == Buy then Sell else Buy
  }

  predicate ProtectionMatchesEntry(entry: Order, child: Order) {
    && child.parentOrderLinkId == Some(entry.clientOrderId) && child.instrument == entry.instrument
    && child.side == Opposite(entry.side) && Equal(child.requestedQuantity, entry.requestedQuantity)
    && child.isTakeProfit && child.status == OrderOpen && child.filledQuantity.coefficient == 0
  }

  /** An open take-profit child of the client ID, on the other side, over the full quantity and with nothing filled. */
  ghost predicate Protects(child: Order, clientOrderId: string, instrument: string, side: Side, quantity: Normal) {
    && child.parentOrderLinkId == Some(clientOrderId) && child.instrument == instrument && child.side != side
    && child.isTakeProfit && child.status == OrderOpen
    && Value(child.requestedQuantity) == Value(quantity) && Value(child.filledQuantity) == 0.0
  }

  lemma ProtectionMeaning(entry: Order, child: Order)
    ensures ProtectionMatchesEntry(entry, child) <==>
              Protects(child, entry.clientOrderId, entry.instrument, entry.side, entry.requestedQuantity)
  {
    CompareIsExact(child.requestedQuantity, entry.requestedQuantity);
    SignOfValue(child.filledQuantity);
    hide Value, Compare;
  }

  /** The same evidence apart from when it was observed. */
  predicate SameStable(a: Order, b: Order) {
    a == b.(observedAt := a.observedAt)
  }

  function QueryOf(order: Order): OrderQuery {
    OrderQuery(order.instrument, order.clientOrderId, Some(order.exchangeOrderId))
  }

  function Quantities(fills: seq<Fill>): seq<Normal> {
    seq(|fills|, i requires 0 <= i < |fills| => fills[i].quantity)
  }

  // -------------------------------------------------------------- accounting

  predicate IsParent(f: StoredFact, lineageId: string, exchangeOrderId: string, owned: OwnedIntent, intent: Intent) {
    && f.ObservationFact? && "exchange-parent-" + lineageId + "-" <= f.eventIdentity && f.order.Some?
    && var o := f.order.value;
       && o.exchangeOrderId == exchangeOrderId && o.clientOrderId == owned.clientOrderId
       && o.instrument == intent.instrument && o.side == intent.side && Equal(o.requestedQuantity, intent.quantity)
  }

  /** The last stored observation of the lineage's own order. */
  function ParentOf(facts: seq<StoredFact>, lineageId: string, exchangeOrderId: string, owned: OwnedIntent, intent: Intent): Option<Order> {
    if facts == [] then None
    else if IsParent(facts[|facts| - 1], lineageId, exchangeOrderId, owned, intent) then facts[|facts| - 1].order
    else ParentOf(facts[..|facts| - 1], lineageId, exchangeOrderId, owned, intent)
  }

  predicate CountsFor(f: StoredFact, attempts: seq<Attempt>, parent: Order) {
    && f.FillFact? && f.fill.Some?
    && (exists a :: a in attempts && a.attemptId == f.fill.value.attemptId)
    && f.fill.value.exchangeOrderId == parent.exchangeOrderId
    && f.fill.value.instrument == parent.instrument && f.fill.value.side == parent.side
  }

  function FillIds(fills: seq<Fill>): set<string> {
    set f | f in fills :: f.fillId
  }

  /** The fills of the parent order, the first stored of each ID. */
  function CountedFills(facts: seq<StoredFact>, attempts: seq<Attempt>, parent: Order): seq<Fill> {
    if facts == [] then []
    else
      var before, last := CountedFills(facts[..|facts| - 1], attempts, parent), facts[|facts| - 1];
      if CountsFor(last, attempts, parent) && last.fill.value.fillId !in FillIds(before) then before + [last.fill.value] else before
  }

  /** The filled parent order is persisted, its distinct fills add up to it, and each has a ledger entry. */
  predicate AccountingProven(facts: seq<StoredFact>, run: Run) {
    && run.ownedIntents != []
    && var owned := run.ownedIntents[0];
    && var intent := FindIntent(run.plan.intents, owned.intentId);
    && intent.Some? && Latest(run).Some? && Latest(run).value.exchangeOrderId.Some?
    && var parent := ParentOf(facts, run.lineageId, Latest(run).value.exchangeOrderId.value, owned, intent.value);
    && parent.Some? && parent.value.status == OrderFilled && parent.value.filledQuantity.coefficient > 0
    && var fills := CountedFills(facts, AttemptsFor(run.attempts, owned.intentId), parent.value);
    && fills != [] && Equal(Total(Quantities(fills)), parent.value.filledQuantity)
    && forall f :: f in fills ==> LedgerFact(Some(f.fillId)) in facts
  }

  lemma CountedStep(facts: seq<StoredFact>, i: nat, attempts: seq<Attempt>, parent: Order)
    requires i < |facts|
    ensures var before := CountedFills(facts[..i], attempts, parent);
      CountedFills(facts[..i + 1], attempts, parent)
      == if CountsFor(facts[i], attempts, parent) && facts[i].fill.value.fillId !in FillIds(before) then before + [facts[i].fill.value] else before
  {
    assert facts[..i + 1][..i] == facts[..i] && facts[..i + 1][i] == facts[i];
  }

  lemma ParentStep(facts: seq<StoredFact>, i: nat, lineageId: string, exchangeOrderId: string, owned: OwnedIntent, intent: Intent)
    requires i < |facts|
    ensures ParentOf(facts[..i + 1], lineageId, exchangeOrderId, owned, intent)
            == if IsParent(facts[i], lineageId, exchangeOrderId, owned, intent) then facts[i].order
               else ParentOf(facts[..i], lineageId, exchangeOrderId, owned, intent)
  {
    assert facts[..i + 1][..i] == facts[..i] && facts[..i + 1][i] == facts[i];
  }

  lemma TotalStep(fills: seq<Fill>, f: Fill)
    ensures Total(Quantities(fills + [f])) == Add(Total(Quantities(fills)), f.quantity)
    ensures FillIds(fills + [f]) == FillIds(fills) + {f.fillId}
  {
    assert Quantities(fills + [f])[..|fills|] == Quantities(fills);
    assert forall x :: x in fills + [f] <==> x in fills || x == f;
  }

  method FindParent(facts: seq<StoredFact>, lineageId: string, exchangeOrderId: string, owned: OwnedIntent, intent: Intent)
    returns (parent: Option<Order>)
    ensures parent == ParentOf(facts, lineageId, exchangeOrderId, owned, intent)
  {
    parent := None;
    hide ParentOf, IsParent;
    assert ParentOf(facts[..0], lineageId, exchangeOrderId, owned, intent) == None by { NoParent(lineageId, exchangeOrderId, owned, intent); }
    for i := 0 to |facts|
      invariant parent == ParentOf(facts[..i], lineageId, exchangeOrderId, owned, intent)
    {
      ParentStep(facts, i, lineageId, exchangeOrderId, owned, intent);
      if IsParent(facts[i], lineageId, exchangeOrderId, owned, intent) {
        parent := ObservedIn(facts[i]);
        ParentIsObserved(facts[i], lineageId, exchangeOrderId, owned, intent);
      }
    }
    assert facts[..|facts|] == facts;
  }

  function ObservedIn(f: StoredFact): Option<Order> {
    match f case ObservationFact(_, order) => order case _ => None
  }

  lemma ParentIsObserved(f: StoredFact, lineageId: string, exchangeOrderId: string, owned: OwnedIntent, intent: Intent)
    requires IsParent(f, lineageId, exchangeOrderId, owned, intent)
    ensures f.ObservationFact? && ObservedIn(f) == f.order
  {
  }

  lemma NoParent(lineageId: string, exchangeOrderId: string, owned: OwnedIntent, intent: Intent)
    ensures ParentOf([], lineageId, exchangeOrderId, owned, intent) == None
  {
  }

  method ExpectedAccounting(facts: seq<StoredFact>, run: Run) returns (proven: bool)
    ensures proven <==> AccountingProven(facts, run)
  {
    if run.ownedIntents == [] {
      return false;
    }
    var owned := run.ownedIntents[0];
    var intent := FindIntent(run.plan.intents, owned.intentId);
    var latest := Latest(run);
    if intent.None? || latest.None? || latest.value.exchangeOrderId.None? {
      return false;
    }
    hide ParentOf, CountedFills, CountsFor, FindIntent, AttemptsFor, FillIds, Total, Quantities, IsParent;
    var parent := FindParent(facts, run.lineageId, latest.value.exchangeOrderId.value, owned, intent.value);
    if parent.None? || parent.value.status != OrderFilled || parent.value.filledQuantity.coefficient <= 0 {
      return false;
    }
    var attempts := AttemptsFor(run.attempts, owned.intentId);
    var fillIds, total := SumFills(facts, attempts, parent.value);
    ghost var fills := CountedFills(facts, attempts, parent.value);
    NoFillsNoIds(fills);
    if fillIds == {} || !Equal(total, parent.value.filledQuantity) {
      return false;
    }
    var ledgerReferences: set<string> := {};
    for i := 0 to |facts|
      invariant forall x :: x in ledgerReferences <==> x in fillIds && LedgerFact(Some(x)) in facts[..i]
    {
      assert facts[..i + 1] == facts[..i] + [facts[i]];
      match facts[i] {
        case LedgerFact(reference) =>
          if reference.Some? && reference.value in fillIds {
            ledgerReferences := ledgerReferences + {reference.value};
          }
        case _ =>
      }
    }
    assert facts[..|facts|] == facts;
    FillIdMembers(fills);
    proven := fillIds <= ledgerReferences;
  }

  lemma NoFillsNoIds(fills: seq<Fill>)
    ensures FillIds(fills) == {} <==> fills == []
  {
    assert fills != [] ==> fills[0].fillId in FillIds(fills);
  }

  lemma FillIdMembers(fills: seq<Fill>)
    ensures forall x :: x in FillIds(fills) <==> exists f :: f in fills && f.fillId == x
    ensures forall f :: f in fills ==> f.fillId in FillIds(fills)
  {
  }

  method SumFills(facts: seq<StoredFact>, attempts: seq<Attempt>, parent: Order) returns (fillIds: set<string>, total: Normal)
    ensures var fills := CountedFills(facts, attempts, parent); fillIds == FillIds(fills) && total == Total(Quantities(fills))
  {
    fillIds, total := {}, ZERO;
    ghost var fills: seq<Fill> := [];
    assert CountedFills(facts[..0], attempts, parent) == [] && FillIds([]) == {} && Total(Quantities([])) == ZERO;
    hide CountedFills, CountsFor, FillIds, Total, Quantities, Plus;
    for i := 0 to |facts|
      invariant fills == CountedFills(facts[..i], attempts, parent) && fillIds == FillIds(fills) && total == Total(Quantities(fills))
    {
      CountedStep(facts, i, attempts, parent);
      if CountsFor(facts[i], attempts, parent) {
        CountedIsFill(facts[i], attempts, parent);
        var fill := facts[i].fill.value;
        if fill.fillId !in fillIds {
          TotalStep(fills, fill);
          fillIds, total := fillIds + {fill.fillId}, Add(total, fill.quantity);
          fills := fills + [fill];
        }
      }
    }
    assert facts[..|facts|] == facts;
  }

  lemma CountedIsFill(f: StoredFact, attempts: seq<Attempt>, parent: Order)
    requires CountsFor(f, attempts, parent)
    ensures f.FillFact? && f.fill.Some?
  {
  }

  ghost predicate DistinctFills(fills: seq<Fill>) {
    forall i, j :: 0 <= i < j < |fills| ==> fills[i].fillId != fills[j].fillId
  }

  lemma DistinctFillsAppend(fills: seq<Fill>, f: Fill)
    requires DistinctFills(fills) && f.fillId !in FillIds(fills)
    ensures DistinctFills(fills + [f])
  {
    FillIdMembers(fills);
    hide FillIds;
  }

  /** `fills` are persisted fills of the order, of distinct IDs, leaving no ID of the order's persisted fills out. */
  ghost predicate IsFillsOf(fills: seq<Fill>, parent: Order, facts: seq<StoredFact>, attempts: seq<Attempt>) {
    && DistinctFills(fills)
    && (forall f :: f in fills ==> FillFact(Some(f)) in facts && IsFillOf(f, parent, attempts))
    && (forall f :: FillFact(Some(f)) in facts && IsFillOf(f, parent, attempts) ==> f.fillId in FillIds(fills))
  }

  /** A fill of the order, on its side, that one of the attempts is credited with. */
  ghost predicate IsFillOf(f: Fill, parent: Order, attempts: seq<Attempt>) {
    && f.exchangeOrderId == parent.exchangeOrderId && f.instrument == parent.instrument && f.side == parent.side
    && exists a :: a in attempts && a.attemptId == f.attemptId
  }

  lemma CountsMeaning(s: StoredFact, attempts: seq<Attempt>, parent: Order)
    ensures CountsFor(s, attempts, parent) <==> s.FillFact? && s.fill.Some? && IsFillOf(s.fill.value, parent, attempts)
  {
  }

  lemma {:induction false} CountedFillsMeaning(facts: seq<StoredFact>, attempts: seq<Attempt>, parent: Order)
    ensures IsFillsOf(CountedFills(facts, attempts, parent), parent, facts, attempts)
  {
    if facts != [] {
      var init, last := facts[..|facts| - 1], facts[|facts| - 1];
      var before := CountedFills(init, attempts, parent);
      CountedFillsMeaning(init, attempts, parent);
      assert forall s :: s in facts <==> s in init || s == last;
      CountsMeaning(last, attempts, parent);
      hide CountsFor, IsFillOf, DistinctFills, FillIds;
      if CountsFor(last, attempts, parent) {
        CountedIsFill(last, attempts, parent);
        TotalStep(before, last.fill.value);
        if last.fill.value.fillId !in FillIds(before) {
          DistinctFillsAppend(before, last.fill.value);
          assert FillFact(Some(last.fill.value)) == last;
        }
      }
    }
  }

  /** The accounting of a filled parent order. */
  ghost predicate Accounted(parent: Order, fills: seq<Fill>, facts: seq<StoredFact>, run: Run) {
    && run.ownedIntents != [] && fills != [] && parent.status == OrderFilled && Value(parent.filledQuantity) > 0.0
    && parent.clientOrderId == run.ownedIntents[0].clientOrderId
    && Latest(run).Some? && Latest(run).value.exchangeOrderId == Some(parent.exchangeOrderId)
    && FindIntent(run.plan.intents, run.ownedIntents[0].intentId).Some?
    && AsksFor(FindIntent(run.plan.intents, run.ownedIntents[0].intentId).value, parent)
    && IsFillsOf(fills, parent, facts, AttemptsFor(run.attempts, run.ownedIntents[0].intentId))
    && Sum(Values(Quantities(fills))) == Value(parent.filledQuantity)
    && forall f :: f in fills ==> LedgerFact(Some(f.fillId)) in facts
  }

  lemma {:induction false} ParentIsOwn(facts: seq<StoredFact>, lineageId: string, exchangeOrderId: string, owned: OwnedIntent, intent: Intent)
    requires ParentOf(facts, lineageId, exchangeOrderId, owned, intent).Some?
    ensures var o := ParentOf(facts, lineageId, exchangeOrderId, owned, intent).value;
      o.exchangeOrderId == exchangeOrderId && o.clientOrderId == owned.clientOrderId && AsksFor(intent, o)
  {
    var last := facts[|facts| - 1];
    if IsParent(last, lineageId, exchangeOrderId, owned, intent) {
      CompareIsExact(last.order.value.requestedQuantity, intent.quantity);
      hide Value, Compare;
    } else {
      ParentIsOwn(facts[..|facts| - 1], lineageId, exchangeOrderId, owned, intent);
    }
  }

  /** Proven accounting: the persisted fills of distinct IDs add up to the filled quantity, and each has its ledger entry. */
  lemma AccountingMeaning(facts: seq<StoredFact>, run: Run) returns (parent: Order, fills: seq<Fill>)
    requires AccountingProven(facts, run)
    ensures Accounted(parent, fills, facts, run)
  {
    var owned := run.ownedIntents[0];
    var intent := FindIntent(run.plan.intents, owned.intentId).value;
    parent := ParentOf(facts, run.lineageId, Latest(run).value.exchangeOrderId.value, owned, intent).value;
    fills := CountedFills(facts, AttemptsFor(run.attempts, owned.intentId), parent);
    CountedFillsMeaning(facts, AttemptsFor(run.attempts, owned.intentId), parent);
    ParentIsOwn(facts, run.lineageId, Latest(run).value.exchangeOrderId.value, owned, intent);
    SignOfValue(parent.filledQuantity);
    hide ParentOf, CountedFills, IsFillsOf, AsksFor, Total, Value, Values, Sum, Quantities, FindIntent, AttemptsFor, Compare;
    TotalIsSum(Quantities(fills));
    CompareIsExact(Total(Quantities(fills)), parent.filledQuantity);
  }

  /** An open take-profit child of the full size is persisted. */
  predicate ProtectionProven(facts: seq<StoredFact>, run: Run) {
    && run.ownedIntents != []
    && var owned := run.ownedIntents[0];
    && var intent := FindIntent(run.plan.intents, owned.intentId);
    && intent.Some?
    && exists f :: f in facts && f.ObservationFact? && "exchange-protection-" + run.lineageId + "-" <= f.eventIdentity && f.order.Some?
         && f.order.value.parentOrderLinkId == Some(owned.clientOrderId) && f.order.value.instrument == intent.value.instrument
         && f.order.value.side == Opposite(intent.value.side) && Equal(f.order.value.requestedQuantity, intent.value.quantity)
         && f.order.value.isTakeProfit && f.order.value.status == OrderOpen && f.order.value.filledQuantity.coefficient == 0
  }

  /** The fact stores the protection of the lineage's own order, as its intent asks for it. */
  ghost predicate StoresProtection(f: StoredFact, lineageId: string, clientOrderId: string, intent: Intent) {
    && f.ObservationFact? && "exchange-protection-" + lineageId + "-" <= f.eventIdentity && f.order.Some?
    && Protects(f.order.value, clientOrderId, intent.instrument, intent.side, intent.quantity)
  }

  /** Proven protection: the protection of the intent the run owns is stored. */
  lemma StoredProtection(facts: seq<StoredFact>, run: Run)
    ensures ProtectionProven(facts, run) <==>
      && run.ownedIntents != [] && FindIntent(run.plan.intents, run.ownedIntents[0].intentId).Some?
      && exists f :: f in facts && StoresProtection(f, run.lineageId, run.ownedIntents[0].clientOrderId,
                                                    FindIntent(run.plan.intents, run.ownedIntents[0].intentId).value)
  {
    if run.ownedIntents != [] && FindIntent(run.plan.intents, run.ownedIntents[0].intentId).Some? {
      var intent := FindIntent(run.plan.intents, run.ownedIntents[0].intentId).value;
      forall f | f in facts && f.ObservationFact? && f.order.Some?
        ensures Equal(f.order.value.requestedQuantity, intent.quantity) <==> Value(f.order.value.requestedQuantity) == Value(intent.quantity)
        ensures f.order.value.filledQuantity.coefficient == 0 <==> Value(f.order.value.filledQuantity) == 0.0
      {
        CompareIsExact(f.order.value.requestedQuantity, intent.quantity);
        SignOfValue(f.order.value.filledQuantity);
      }
      hide Value, Equal, FindIntent;
    }
  }
}
