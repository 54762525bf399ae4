/**
 * The recovery protocol (reconcileRun, allLineagesSafe, clearHaltIfSafe and recoverPriorDemoRuns,
 * src/application/demo-recovery.ts): what its calls leave in the trace.
 */
module RecoverRuns {
  import opened Common
  import opened Sums
  import opened Decimals
  import opened Journal
  import opened DemoRecovery

  // ------------------------------------------------------------------ traces

  ghost predicate Continues(before: Trace, after: Trace) {
    |before| <= |after| && forall i :: 0 <= i < |before| ==> before[i] == after[i]
  }

  /** `after` continues `before` without writing to the exchange. */
  ghost predicate Grows(before: Trace, after: Trace) {
    Continues(before, after) && forall i :: |before| <= i < |after| ==> !IsWrite(after[i])
  }

  /** ... and without clearing HALT. */
  ghost predicate GrowsQuietly(before: Trace, after: Trace) {
    Grows(before, after) && forall i :: |before| <= i < |after| ==> !after[i].HaltCleared?
  }

  ghost predicate ReadsOne(e: Event, instrument: string) {
    e.StateRead? && e.target == instrument && e.state.Some? && LeverageIsOne(e.state.value)
  }

  ghost predicate ReadBackAsOne(t: Trace, instrument: string) {
    exists e :: e in t && ReadsOne(e, instrument)
  }

  /** Every instrument of the plan was read back with leverage 1. */
  ghost predicate LeverageProven(plan: Plan, t: Trace) {
    forall k :: 0 <= k < |plan.intents| ==> ReadBackAsOne(t, plan.intents[k].instrument)
  }

  ghost predicate Concluded(run: Run, status: RunStatus, t: Trace) {
    exists x :: ReconciliationAppended(run.lineageId, Reconciliation(status, x), true) in t
  }

  /** The exchange's ID of the order, as far as the journal knows it. */
  function KnownOrderId(run: Run, stored: Attempt): Option<string> {
    var binding := BindingFor(run.bindings, stored.attemptId);
    if stored.exchangeOrderId.Some? then stored.exchangeOrderId
    else if binding.Some? then Some(binding.value.exchangeOrderId) else None
  }

  /** The order observed was bound to the attempt, under the ID the attempt then has. */
  ghost predicate Binds(e: Event, run: Run, stored: Attempt, order: Order, attempt: Attempt) {
    attempt.exchangeOrderId.Some? && e == BindingAppended(run.lineageId, stored, order, attempt.exchangeOrderId)
  }

  /** The attempt is the only one the run has of its owned intent, or was recorded just now under the intent's client ID. */
  ghost predicate IsOwnAttempt(run: Run, stored: Attempt, t: Trace) {
    && run.ownedIntents != []
    && var owned := run.ownedIntents[0];
    && stored.intentId == owned.intentId
    && (AttemptsFor(run.attempts, owned.intentId) == [stored]
        || (AttemptsFor(run.attempts, owned.intentId) == []
            && stored.clientOrderId == owned.clientOrderId && stored.planHash == owned.planHash && stored.submittedAt == owned.preparedAt
            && stored.acknowledgement == AckPending && stored.terminalStatus == Unverified && stored.exchangeOrderId == None
            && AttemptAppended(run.lineageId, stored, true) in t))
  }

  /** The order was observed when the run's own attempt was asked for, matches it, and has the ID known of it or bound to it. */
  ghost predicate IsOwnOrder(run: Run, stored: Attempt, order: Order, attempt: Attempt, t: Trace) {
    && attempt == stored.(exchangeOrderId := attempt.exchangeOrderId)
    && ValidCandidate(order, run.plan, attempt)
    && OrderObserved(OrderQuery(order.instrument, order.clientOrderId, KnownOrderId(run, stored)), Some(order)) in t
    && (if KnownOrderId(run, stored).Some? then attempt.exchangeOrderId == KnownOrderId(run, stored)
        else exists e :: e in t && Binds(e, run, stored, order, attempt))
  }

  ghost predicate OrderOfRun(run: Run, order: Order, attempt: Attempt, t: Trace) {
    exists stored :: IsOwnAttempt(run, stored, t) && IsOwnOrder(run, stored, order, attempt, t)
  }

  /** The run's own order was observed and is on record. */
  ghost predicate ParentKnown(run: Run, order: Order, attempt: Attempt, t: Trace) {
    OrderOfRun(run, order, attempt, t) && OnRecord(run.lineageId, Parent, order, t)
  }

  /** The order is one the run asked for: under the client ID of its attempt, which is the intent's if the run had no attempt. */
  lemma OwnOrderIsAskedFor(run: Run, order: Order, attempt: Attempt, t: Trace)
    requires OrderOfRun(run, order, attempt, t)
    ensures run.ownedIntents != [] && attempt.intentId == run.ownedIntents[0].intentId && order.clientOrderId == attempt.clientOrderId
    ensures var owned := run.ownedIntents[0];
            if AttemptsFor(run.attempts, owned.intentId) == [] then order.clientOrderId == owned.clientOrderId
            else exists a :: a in run.attempts && a.intentId == owned.intentId && a.clientOrderId == order.clientOrderId
  {
    var stored :| IsOwnAttempt(run, stored, t) && IsOwnOrder(run, stored, order, attempt, t);
    AttemptsForMembers(run.attempts, run.ownedIntents[0].intentId);
    if AttemptsFor(run.attempts, run.ownedIntents[0].intentId) == [stored] {
      assert stored in AttemptsFor(run.attempts, run.ownedIntents[0].intentId);
    }
  }

  /** The observation is stored, now or before. */
  ghost predicate OnRecord(lineageId: string, role: Role, order: Order, t: Trace) {
    || ObservationStored(lineageId, role, order, true) in t
    || exists held :: SameStable(held, order) && ObservationRead(lineageId, role, order, Held(held)) in t
  }

  /** The order of the run's intent is filled in full, by the fills listed, under the protection listed. */
  ghost predicate FilledAndProtected(run: Run, order: Order, fills: seq<Fill>, children: seq<Order>) {
    && run.ownedIntents != []
    && var intent := FindIntent(run.plan.intents, run.ownedIntents[0].intentId);
    && intent.Some? && order.instrument == intent.value.instrument && order.side == intent.value.side
    && order.status == OrderFilled && Value(order.filledQuantity) == Value(intent.value.quantity)
    && fills != [] && Sum(Values(Quantities(fills))) == Value(order.filledQuantity)
    && children != [] && forall child :: child in children ==> ProtectionMatchesEntry(order, child)
  }

  ghost predicate OrderProven(run: Run, t: Trace) {
    exists order, attempt, fills, children :: OrderEvidence(run, t, order, attempt, fills, children)
  }

  /** The run's own order, its fills and its protection were read, stored and ingested, and it is filled and protected. */
  ghost predicate OrderEvidence(run: Run, t: Trace, order: Order, attempt: Attempt, fills: seq<Fill>, children: seq<Order>) {
    && ParentKnown(run, order, attempt, t)
    && FillsProven(run.lineageId, attempt.attemptId, order, fills, t) && ProtectionProvenBy(run.lineageId, order, children, t)
    && FilledAndProtected(run, order, fills, children)
  }

  /** The fills listed for the order were ingested for its attempt. */
  ghost predicate FillsProven(lineageId: string, attemptId: string, order: Order, fills: seq<Fill>, t: Trace) {
    FillsListed(QueryOf(order), Some(fills)) in t && AccountingIngested(lineageId, attemptId, fills, true) in t
  }

  /** The protection listed for the order is stored. */
  ghost predicate ProtectionProvenBy(lineageId: string, order: Order, children: seq<Order>, t: Trace) {
    && ProtectionListed(order.instrument, order.clientOrderId, Some(children)) in t
    && forall child :: child in children ==> OnRecord(lineageId, Protection, child, t)
  }

  /** The run's own order, as it was read, shows what the status says. */
  ghost predicate Justified(run: Run, status: RunStatus, t: Trace) {
    status == UNRESOLVED || exists order, attempt :: JustifiedBy(run, status, order, attempt, t)
  }

  ghost predicate JustifiedBy(run: Run, status: RunStatus, order: Order, attempt: Attempt, t: Trace) {
    ParentKnown(run, order, attempt, t) && IsOrderOf(order, attempt, run.plan) && Shows(order, status)
  }

  lemma OrderOfRunLater(run: Run, order: Order, attempt: Attempt, t: Trace, later: Trace)
    requires OrderOfRun(run, order, attempt, t) && forall e :: e in t ==> e in later
    ensures OrderOfRun(run, order, attempt, later)
  {
    hide ValidCandidate, KnownOrderId, AttemptsFor, Binds;
    var stored :| IsOwnAttempt(run, stored, t) && IsOwnOrder(run, stored, order, attempt, t);
    assert IsOwnAttempt(run, stored, later) && IsOwnOrder(run, stored, order, attempt, later);
  }

  lemma OnRecordLater(lineageId: string, role: Role, order: Order, t: Trace, later: Trace)
    requires OnRecord(lineageId, role, order, t) && forall e :: e in t ==> e in later
    ensures OnRecord(lineageId, role, order, later)
  {
  }

  lemma ParentKnownLater(run: Run, order: Order, attempt: Attempt, t: Trace, later: Trace)
    requires ParentKnown(run, order, attempt, t) && forall e :: e in t ==> e in later
    ensures ParentKnown(run, order, attempt, later)
  {
    hide OrderOfRun, OnRecord;
    OrderOfRunLater(run, order, attempt, t, later);
    OnRecordLater(run.lineageId, Parent, order, t, later);
  }

  lemma JustifiedLater(run: Run, status: RunStatus, t: Trace, later: Trace)
    requires Justified(run, status, t) && forall e :: e in t ==> e in later
    ensures Justified(run, status, later)
  {
    hide ParentKnown, IsOrderOf, Shows;
    if status != UNRESOLVED {
      var order, attempt :| JustifiedBy(run, status, order, attempt, t);
      ParentKnownLater(run, order, attempt, t, later);
      assert JustifiedBy(run, status, order, attempt, later);
    }
  }

  lemma EvidenceLater(run: Run, t: Trace, later: Trace, order: Order, attempt: Attempt, fills: seq<Fill>, children: seq<Order>)
    requires OrderEvidence(run, t, order, attempt, fills, children) && forall e :: e in t ==> e in later
    ensures OrderEvidence(run, later, order, attempt, fills, children)
  {
    hide FilledAndProtected, ParentKnown, OnRecord;
    ParentKnownLater(run, order, attempt, t, later);
    forall child | child in children
      ensures OnRecord(run.lineageId, Protection, child, later)
    {
      OnRecordLater(run.lineageId, Protection, child, t, later);
    }
  }

  /** What a run's recovery as RECONCILED or FAILED rests on. */
  ghost predicate Recovered(run: Run, t: Trace) {
    if run.ownedIntents == [] then LeverageProven(run.plan, t)
    else
      || (Latest(run).Some? && Latest(run).value.status == FAILED)
      || (Concluded(run, FAILED, t) && Justified(run, FAILED, t))
      || (Concluded(run, RECONCILED, t) && OrderProven(run, t))
  }

  /** A run recovered now as FAILED had its own order read neither working nor with anything filled. */
  lemma FailedHasEnded(run: Run, t: Trace) returns (order: Order, attempt: Attempt)
    requires Recovered(run, t) && run.ownedIntents != [] && !Concluded(run, RECONCILED, t)
    requires Latest(run).None? || Latest(run).value.status != FAILED
    ensures OrderOfRun(run, order, attempt, t) && order.status != OrderOpen && order.status != OrderPartiallyFilled
    ensures Value(order.filledQuantity) <= 0.0
  {
    hide OrderOfRun, OnRecord, IsOrderOf, Value, OrderProven;
    order, attempt :| JustifiedBy(run, FAILED, order, attempt, t);
  }

  lemma ReadBackLater(t: Trace, later: Trace, instrument: string)
    requires ReadBackAsOne(t, instrument) && forall e :: e in t ==> e in later
    ensures ReadBackAsOne(later, instrument)
  {
  }

  lemma RecoveredLater(run: Run, t: Trace, later: Trace)
    requires Recovered(run, t) && forall e :: e in t ==> e in later
    ensures Recovered(run, later)
  {
    if run.ownedIntents == [] {
      forall k | 0 <= k < |run.plan.intents|
        ensures ReadBackAsOne(later, run.plan.intents[k].instrument)
      {
        ReadBackLater(t, later, run.plan.intents[k].instrument);
      }
    } else {
      hide FilledAndProtected, Justified, OrderEvidence;
      if Concluded(run, FAILED, t) && Justified(run, FAILED, t) {
        ConcludedLater(run, FAILED, t, later);
        JustifiedLater(run, FAILED, t, later);
      }
      if Concluded(run, RECONCILED, t) && OrderProven(run, t) {
        ProvenLater(run, t, later);
      }
    }
  }

  lemma ProvenLater(run: Run, t: Trace, later: Trace)
    requires Concluded(run, RECONCILED, t) && OrderProven(run, t) && forall e :: e in t ==> e in later
    ensures Concluded(run, RECONCILED, later) && OrderProven(run, later)
  {
    hide OrderEvidence;
    var x :| ReconciliationAppended(run.lineageId, Reconciliation(RECONCILED, x), true) in t;
    var order, attempt, fills, children :| OrderEvidence(run, t, order, attempt, fills, children);
    EvidenceLater(run, t, later, order, attempt, fills, children);
  }

  /** The trace since `from`. */
  ghost function Since(t: Trace, from: Trace): Trace
    requires Continues(from, t)
  {
    t[|from|..]
  }

  lemma SinceLater(from: Trace, a: Trace, b: Trace)
    requires Continues(from, a) && Continues(a, b)
    ensures Continues(from, b) && forall e :: e in Since(a, from) ==> e in Since(b, from)
  {
    assert forall i :: 0 <= i < |Since(a, from)| ==> Since(a, from)[i] == Since(b, from)[i];
  }

  /** What was recorded between two moments is in the trace since any earlier one, at any later one. */
  lemma Carry(from: Trace, a: Trace, b: Trace, t: Trace)
    requires Continues(from, a) && Continues(a, b) && Continues(b, t)
    ensures Continues(from, t) && forall e :: e in Since(b, a) ==> e in Since(t, from)
  {
    forall e | e in Since(b, a)
      ensures e in Since(t, from)
    {
      var i :| 0 <= i < |Since(b, a)| && Since(b, a)[i] == e;
      assert Since(t, from)[i + |a| - |from|] == e;
    }
  }

  lemma Recorded(from: Trace, t: Trace, i: nat)
    requires Continues(from, t) && |from| <= i < |t|
    ensures t[i] in Since(t, from)
  {
    assert Since(t, from)[i - |from|] == t[i];
  }

  // ------------------------------------------------------------ one lineage

  method AppendUnresolved(ports: Ports, lineageId: string, exchangeOrderId: Option<string>) returns (r: Result<RunStatus, Failure>)
    modifies ports
    ensures GrowsQuietly(old(ports.trace), ports.trace)
    ensures r.Ok? ==> r.value == UNRESOLVED
    ensures r.Ok? ==>
      ports.trace == old(ports.trace) + [ReconciliationAppended(lineageId, Reconciliation(UNRESOLVED, exchangeOrderId), true)]
  {
    var built := ports.Built();
    if !built {
      return Err(UnresolvedState);
    }
    var done := ports.AppendReconciliation(lineageId, Reconciliation(UNRESOLVED, exchangeOrderId));
    r := if done then Ok(UNRESOLVED) else Err(PortFailure);
  }

  /** A run that owns no intent is safe when the leverage of all its instruments reads 1. */
  method ReadLeverages(ports: Ports, plan: Plan) returns (proven: bool)
    modifies ports
    ensures GrowsQuietly(old(ports.trace), ports.trace)
    ensures OnlyReadsState(ports.trace, |old(ports.trace)|)
    ensures proven ==> LeverageProven(plan, Since(ports.trace, old(ports.trace)))
  {
    ghost var start := ports.trace;
    hide ReadBackAsOne, ReadsOne;
    for i := 0 to |plan.intents|
      invariant GrowsQuietly(start, ports.trace) && OnlyReadsState(ports.trace, |start|)
      invariant forall k :: 0 <= k < i ==> ReadBackAsOne(Since(ports.trace, start), plan.intents[k].instrument)
    {
      ghost var before := ports.trace;
      var state := ports.ReadState(plan.intents[i].instrument);
      if state.None? || !LeverageIsOne(state.value) {
        return false;
      }
      KeepReading(plan, start, before, state.value, i);
    }
    proven := true;
  }

  lemma KeepReading(plan: Plan, start: Trace, before: Trace, state: ExchangeState, i: nat)
    requires Continues(start, before) && i < |plan.intents| && LeverageIsOne(state)
    requires forall k :: 0 <= k < i ==> ReadBackAsOne(Since(before, start), plan.intents[k].instrument)
    ensures var after := before + [StateRead(plan.intents[i].instrument, Some(state))];
      && Continues(start, after)
      && forall k :: 0 <= k <= i ==> ReadBackAsOne(Since(after, start), plan.intents[k].instrument)
  {
    var read := StateRead(plan.intents[i].instrument, Some(state));
    var after := before + [read];
    Recorded(start, after, |before|);
    SinceLater(start, before, after);
    assert ReadsOne(read, plan.intents[i].instrument);
    forall k | 0 <= k < i
      ensures ReadBackAsOne(Since(after, start), plan.intents[k].instrument)
    {
      ReadBackLater(Since(before, start), Since(after, start), plan.intents[k].instrument);
    }
  }

  /** The order of the owned intent as the exchange reports it, with the attempt it belongs to; or how the run ends without one. */
  datatype Located = Located(order: Order, attempt: Attempt) | Ended(outcome: Result<RunStatus, Failure>)

  lemma UnresolvedIsConcluded(run: Run, exchangeOrderId: Option<string>, start: Trace, before: Trace)
    requires Continues(start, before)
    ensures var after := before + [ReconciliationAppended(run.lineageId, Reconciliation(UNRESOLVED, exchangeOrderId), true)];
            Continues(start, after) && Concluded(run, UNRESOLVED, Since(after, start))
  {
    var after := before + [ReconciliationAppended(run.lineageId, Reconciliation(UNRESOLVED, exchangeOrderId), true)];
    Recorded(start, after, |before|);
  }

  /** End unresolved, on record. */
  method EndUnresolved(ports: Ports, run: Run, exchangeOrderId: Option<string>, ghost start: Trace) returns (l: Located)
    requires GrowsQuietly(start, ports.trace)
    modifies ports
    ensures GrowsQuietly(start, ports.trace)
    ensures l.Ended? && (l.outcome.Ok? ==> l.outcome.value == UNRESOLVED && Concluded(run, UNRESOLVED, Since(ports.trace, start)))
  {
    hide Concluded, Since;
    ghost var before := ports.trace;
    var outcome := AppendUnresolved(ports, run.lineageId, exchangeOrderId);
    UnresolvedIsConcluded(run, exchangeOrderId, start, before);
    l := Ended(outcome);
  }

  /** The order of the run's attempt, with the attempt as completed by its exchange ID. */
  method LocateOrder(ports: Ports, run: Run, intent: Intent, stored: Attempt) returns (l: Located)
    requires FindIntent(run.plan.intents, stored.intentId) == Some(intent)
    modifies ports
    ensures GrowsQuietly(old(ports.trace), ports.trace)
    ensures l.Ended? && l.outcome.Ok? ==> l.outcome.value == UNRESOLVED && Concluded(run, UNRESOLVED, Since(ports.trace, old(ports.trace)))
    ensures l.Located? ==> IsOwnOrder(run, stored, l.order, l.attempt, Since(ports.trace, old(ports.trace)))
  {
    ghost var start := ports.trace;
    hide Concluded, FindIntent;
    var binding := BindingFor(run.bindings, stored.attemptId);
    if stored.exchangeOrderId.Some? && binding.Some? && stored.exchangeOrderId.value != binding.value.exchangeOrderId {
      return Ended(Err(OwnershipMismatch));
    }
    var exchangeOrderId :=
      if stored.exchangeOrderId.Some? then stored.exchangeOrderId
      else if binding.Some? then Some(binding.value.exchangeOrderId) else None;
    var observed := ports.ObserveOrder(OrderQuery(intent.instrument, stored.clientOrderId, exchangeOrderId));
    ghost var at := |start|;
    ghost var bindingAt := |start|;
    if observed.None? {
      l := EndUnresolved(ports, run, exchangeOrderId, start);
      return;
    }
    var order := observed.value;
    if exchangeOrderId.None? {
      if !ValidCandidate(order, run.plan, stored) {
        l := EndUnresolved(ports, run, None, start);
        return;
      }
      var now := ports.Now();
      bindingAt := |ports.trace|;
      var done, bound := ports.AppendIdentityBinding(run.lineageId, stored, order);
      if !done {
        return Ended(Err(PortFailure));
      }
      if bound.None? {
        l := EndUnresolved(ports, run, None, start);
        return;
      }
      exchangeOrderId := bound;
    }
    var attempt := stored;
    if attempt.exchangeOrderId.None? {
      var built := ports.Built();
      if !built {
        return Ended(Err(UnresolvedState));
      }
      attempt := attempt.(exchangeOrderId := exchangeOrderId);
    }
    if !ValidCandidate(order, run.plan, attempt) {
      l := EndUnresolved(ports, run, exchangeOrderId, start);
      return;
    }
    Recorded(start, ports.trace, at);
    Recorded(start, ports.trace, bindingAt);
    assert KnownOrderId(run, stored).None? ==> Binds(ports.trace[bindingAt], run, stored, order, attempt);
    l := Located(order, attempt);
  }

  /** Put an observation on record, unless the same evidence already is. */
  method RecordObservation(ports: Ports, lineageId: string, role: Role, order: Order) returns (done: bool)
    modifies ports
    ensures GrowsQuietly(old(ports.trace), ports.trace)
    ensures done ==> OnRecord(lineageId, role, order, Since(ports.trace, old(ports.trace)))
  {
    ghost var start := ports.trace;
    var held := ports.ReadObservation(lineageId, role, order);
    if held.Unreadable? {
      return false;
    }
    Recorded(start, ports.trace, |start|);
    if held.Held? && SameStable(held.order, order) {
      return true;
    }
    done := ports.StoreObservation(lineageId, role, order);
    Recorded(start, ports.trace, |start| + 1);
  }

  /** Protection of a filled order: proven, not proven, or a failed call. */
  method CheckProtection(ports: Ports, lineageId: string, order: Order) returns (r: Result<bool, Failure>, ghost children: seq<Order>)
    modifies ports
    ensures GrowsQuietly(old(ports.trace), ports.trace)
    ensures r.Ok? && r.value ==>
      && ProtectionProvenBy(lineageId, order, children, Since(ports.trace, old(ports.trace)))
      && children != [] && forall child :: child in children ==> ProtectionMatchesEntry(order, child)
  {
    ghost var start := ports.trace;
    hide ProtectionMatchesEntry, OnRecord, Since;
    var protection := ports.ListAttachedProtection(order.instrument, order.clientOrderId);
    if protection.None? {
      return Ok(false), [];
    }
    children := protection.value;
    for i := 0 to |protection.value|
      invariant Continues(start + [ProtectionListed(order.instrument, order.clientOrderId, protection)], ports.trace)
      invariant GrowsQuietly(start, ports.trace)
      invariant forall k :: 0 <= k < i ==> OnRecord(lineageId, Protection, children[k], Since(ports.trace, start))
    {
      ghost var before := ports.trace;
      var stored := RecordObservation(ports, lineageId, Protection, protection.value[i]);
      if !stored {
        return Err(PortFailure), children;
      }
      Carry(start, before, ports.trace, ports.trace);
      OnRecordLater(lineageId, Protection, children[i], Since(ports.trace, before), Since(ports.trace, start));
      Carry(start, start, before, ports.trace);
      forall k | 0 <= k < i
        ensures OnRecord(lineageId, Protection, children[k], Since(ports.trace, start))
      {
        OnRecordLater(lineageId, Protection, children[k], Since(before, start), Since(ports.trace, start));
      }
    }
    Recorded(start, ports.trace, |start|);
    r := Ok(protection.value != [] && forall child :: child in protection.value ==> ProtectionMatchesEntry(order, child));
  }

  /** The fills of a filled order: proven to add up, not proven, or a failed call. */
  method CheckFills(ports: Ports, lineageId: string, attemptId: string, order: Order) returns (r: Result<bool, Failure>, ghost fills: seq<Fill>)
    modifies ports
    ensures GrowsQuietly(old(ports.trace), ports.trace)
    ensures r.Ok? && r.value ==>
      && FillsProven(lineageId, attemptId, order, fills, Since(ports.trace, old(ports.trace)))
      && fills != [] && Equal(Total(Quantities(fills)), order.filledQuantity)
  {
    ghost var start := ports.trace;
    hide Total, Quantities, Equal;
    var listed := ports.ListFills(QueryOf(order));
    if listed.None? || listed.value == [] {
      return Ok(false), [];
    }
    fills := listed.value;
    if !ports.hasIngestor {
      return Ok(false), fills;
    }
    var now := ports.Now();
    var ingested := ports.IngestAccounting(lineageId, attemptId, listed.value);
    if !ingested {
      return Err(PortFailure), fills;
    }
    Recorded(start, ports.trace, |start|);
    Recorded(start, ports.trace, |start| + 2);
    r := Ok(Equal(Total(Quantities(listed.value)), order.filledQuantity));
  }

  lemma ReconciledMeans(run: Run, attempt: Attempt, order: Order)
    requires run.ownedIntents != [] && attempt.intentId == run.ownedIntents[0].intentId
    requires ReconcileAttempt(attempt, Some(order), run.plan) == Ok(RECONCILED)
    ensures var intent := FindIntent(run.plan.intents, run.ownedIntents[0].intentId);
      && intent.Some? && order.instrument == intent.value.instrument && order.side == intent.value.side
      && order.status == OrderFilled && Value(order.filledQuantity) == Value(intent.value.quantity)
  {
    var intent := FindIntent(run.plan.intents, attempt.intentId).value;
    CompareIsExact(order.filledQuantity, order.requestedQuantity);
    CompareIsExact(order.requestedQuantity, intent.quantity);
  }

  lemma FillsAddUp(fills: seq<Fill>, order: Order)
    requires Equal(Total(Quantities(fills)), order.filledQuantity)
    ensures Sum(Values(Quantities(fills))) == Value(order.filledQuantity)
  {
    TotalIsSum(Quantities(fills));
    CompareIsExact(Total(Quantities(fills)), order.filledQuantity);
  }

  lemma OrderIsProven(run: Run, attempt: Attempt, order: Order, fills: seq<Fill>, children: seq<Order>, t: Trace)
    requires ReconcileAttempt(attempt, Some(order), run.plan) == Ok(RECONCILED) && ParentKnown(run, order, attempt, t)
    requires FillsProven(run.lineageId, attempt.attemptId, order, fills, t) && ProtectionProvenBy(run.lineageId, order, children, t)
    requires fills != [] && Equal(Total(Quantities(fills)), order.filledQuantity)
    requires children != [] && forall child :: child in children ==> ProtectionMatchesEntry(order, child)
    ensures OrderProven(run, t)
  {
    OwnOrderIsAskedFor(run, order, attempt, t);
    ReconciledMeans(run, attempt, order);
    FillsAddUp(fills, order);
    hide Total, Quantities, Equal, Value, Values, Sum, ProtectionMatchesEntry, FindIntent, ReconcileAttempt, ParentKnown, FillsProven,
      ProtectionProvenBy;
    assert OrderEvidence(run, t, order, attempt, fills, children);
  }

  lemma {:induction false} AttemptsForMembers(attempts: seq<Attempt>, intentId: string)
    ensures forall a :: a in AttemptsFor(attempts, intentId) <==> a in attempts && a.intentId == intentId
  {
    if attempts != [] {
      var init, last := attempts[..|attempts| - 1], attempts[|attempts| - 1];
      AttemptsForMembers(init, intentId);
      assert forall a :: a in attempts <==> a in init || a == last;
    }
  }

  /** The attempt to reconcile, recorded now if the intent has none. */
  method AttemptOf(ports: Ports, run: Run, owned: OwnedIntent) returns (r: Result<Attempt, Failure>)
    requires run.ownedIntents != [] && owned == run.ownedIntents[0]
    modifies ports
    ensures GrowsQuietly(old(ports.trace), ports.trace)
    ensures r.Ok? ==> IsOwnAttempt(run, r.value, Since(ports.trace, old(ports.trace)))
  {
    hide AttemptsFor;
    var attempts := AttemptsFor(run.attempts, owned.intentId);
    if attempts != [] {
      AttemptsForMembers(run.attempts, owned.intentId);
      var attempt := attempts[|attempts| - 1];
      return if |attempts| > 1 then Err(UnresolvedState) else Ok(attempt);
    }
    var built := ports.Built();
    if !built {
      return Err(UnresolvedState);
    }
    var attemptId: string := *;
    var attempt := Attempt(attemptId, owned.planHash, owned.intentId, owned.clientOrderId, owned.preparedAt, AckPending, Unverified, None);
    ghost var start := ports.trace;
    var now := ports.Now();
    var done := ports.AppendAttempt(run.lineageId, attempt);
    Recorded(start, ports.trace, |start| + 1);
    r := if done then Ok(attempt) else Err(PortFailure);
  }

  /**
   * Recovery of one run.  It writes nothing to the exchange and clears no HALT; what it reports of
   * a run with an owned intent is on record, and RECONCILED or FAILED rests on the evidence of `Recovered`.
   */
  method ReconcileRun(ports: Ports, scope: JournalScope, run: Run) returns (r: Result<RunStatus, Failure>)
    modifies ports
    ensures GrowsQuietly(old(ports.trace), ports.trace)
    ensures r.Ok? && (r.value == RECONCILED || r.value == FAILED) ==> Recovered(run, Since(ports.trace, old(ports.trace)))
    ensures r.Ok? && run.ownedIntents != [] ==>
      Concluded(run, r.value, Since(ports.trace, old(ports.trace))) && Justified(run, r.value, Since(ports.trace, old(ports.trace)))
  {
    hide Concluded, OrderProven, LeverageProven, Justified;
    if run.scope != scope {
      return Err(PersistenceEnvironment);
    }
    if |run.ownedIntents| == 0 {
      var proven := ReadLeverages(ports, run.plan);
      return Ok(if proven then FAILED else UNRESOLVED);
    }
    hide Recovered, Since;
    if |run.ownedIntents| != 1 {
      return Err(UnresolvedState);
    }
    var owned := run.ownedIntents[0];
    var intent := FindIntent(run.plan.intents, owned.intentId);
    if intent.None? {
      return Err(OwnershipMismatch);
    }
    ghost var start := ports.trace;
    var attempt := AttemptOf(ports, run, owned);
    if attempt.Err? {
      return Err(attempt.error);
    }
    r := ReconcileOwned(ports, run, intent.value, attempt.value, start);
  }

  /** A conclusion recorded, on evidence when it is RECONCILED, is a recovery. */
  lemma ConclusionRecovers(run: Run, result: Reconciliation, start: Trace, concluding: Trace)
    requires run.ownedIntents != [] && Continues(start, concluding)
    requires (result.status == FAILED && Justified(run, FAILED, Since(concluding, start)))
             || (result.status == RECONCILED && OrderProven(run, Since(concluding, start)))
    ensures var t := concluding + [ReconciliationAppended(run.lineageId, result, true)];
            Continues(start, t) && Recovered(run, Since(t, start))
  {
    hide OrderProven, Justified, Concluded, Since;
    var t := concluding + [ReconciliationAppended(run.lineageId, result, true)];
    ConclusionIsRecorded(run, result, start, concluding);
    Carry(start, start, concluding, t);
    if result.status == RECONCILED {
      OrderProvenLater(run, Since(concluding, start), Since(t, start));
    } else {
      JustifiedLater(run, FAILED, Since(concluding, start), Since(t, start));
    }
  }

  lemma ConclusionIsRecorded(run: Run, result: Reconciliation, start: Trace, concluding: Trace)
    requires Continues(start, concluding)
    ensures var t := concluding + [ReconciliationAppended(run.lineageId, result, true)];
            Continues(start, t) && Concluded(run, result.status, Since(t, start))
  {
    var t := concluding + [ReconciliationAppended(run.lineageId, result, true)];
    Recorded(start, t, |concluding|);
    assert result == Reconciliation(result.status, result.exchangeOrderId);
  }

  lemma ConcludedLater(run: Run, status: RunStatus, t: Trace, later: Trace)
    requires Concluded(run, status, t) && forall e :: e in t ==> e in later
    ensures Concluded(run, status, later)
  {
  }

  /** The order of the run's intent, once it was located and put on record. */
  method LocateAndRecord(ports: Ports, run: Run, intent: Intent, stored: Attempt, ghost start: Trace) returns (l: Located)
    requires FindIntent(run.plan.intents, stored.intentId) == Some(intent)
    requires GrowsQuietly(start, ports.trace) && IsOwnAttempt(run, stored, Since(ports.trace, start))
    modifies ports
    ensures GrowsQuietly(start, ports.trace)
    ensures l.Ended? && l.outcome.Ok? ==> l.outcome.value == UNRESOLVED && Concluded(run, UNRESOLVED, Since(ports.trace, start))
    ensures l.Located? ==> ParentKnown(run, l.order, l.attempt, Since(ports.trace, start))
  {
    ghost var entered := ports.trace;
    hide Concluded, Since, FindIntent, IsOwnAttempt, IsOwnOrder, OrderOfRun, ParentKnown;
    l := LocateOrder(ports, run, intent, stored);
    ghost var observed := ports.trace;
    Carry(start, entered, observed, observed);
    if l.Ended? {
      if l.outcome.Ok? {
        ConcludedLater(run, UNRESOLVED, Since(observed, entered), Since(observed, start));
      }
      return;
    }
    Carry(start, start, entered, observed);
    OwnOrderFound(run, stored, l.order, l.attempt, Since(entered, start), Since(observed, entered), Since(observed, start));
    var recorded := RecordParent(ports, run, l.order, l.attempt, start);
    if !recorded {
      l := Ended(Err(PortFailure));
    }
  }

  method RecordParent(ports: Ports, run: Run, order: Order, ghost attempt: Attempt, ghost start: Trace) returns (recorded: bool)
    requires GrowsQuietly(start, ports.trace) && OrderOfRun(run, order, attempt, Since(ports.trace, start))
    modifies ports
    ensures GrowsQuietly(start, ports.trace)
    ensures recorded ==> ParentKnown(run, order, attempt, Since(ports.trace, start))
  {
    hide OnRecord, Since, OrderOfRun;
    ghost var observed := ports.trace;
    recorded := RecordObservation(ports, run.lineageId, Parent, order);
    if recorded {
      Carry(start, start, observed, ports.trace);
      Carry(start, observed, ports.trace, ports.trace);
      OrderOfRunLater(run, order, attempt, Since(observed, start), Since(ports.trace, start));
      OnRecordLater(run.lineageId, Parent, order, Since(ports.trace, observed), Since(ports.trace, start));
    }
  }

  lemma OwnOrderFound(run: Run, stored: Attempt, order: Order, attempt: Attempt, before: Trace, since: Trace, t: Trace)
    requires IsOwnAttempt(run, stored, before) && IsOwnOrder(run, stored, order, attempt, since)
    requires (forall e :: e in before ==> e in t) && forall e :: e in since ==> e in t
    ensures OrderOfRun(run, order, attempt, t)
  {
    hide ValidCandidate, KnownOrderId, AttemptsFor, Binds;
    assert IsOwnAttempt(run, stored, t) && IsOwnOrder(run, stored, order, attempt, t);
  }

  method ReconcileOwned(ports: Ports, run: Run, intent: Intent, stored: Attempt, ghost start: Trace) returns (r: Result<RunStatus, Failure>)
    requires FindIntent(run.plan.intents, stored.intentId) == Some(intent)
    requires GrowsQuietly(start, ports.trace) && IsOwnAttempt(run, stored, Since(ports.trace, start))
    modifies ports
    ensures GrowsQuietly(start, ports.trace)
    ensures r.Ok? ==> Concluded(run, r.value, Since(ports.trace, start)) && Justified(run, r.value, Since(ports.trace, start))
    ensures r.Ok? && (r.value == RECONCILED || r.value == FAILED) ==> Recovered(run, Since(ports.trace, start))
  {
    hide Recovered, OrderProven, Concluded, Since, ParentKnown, Justified, FindIntent;
    UnresolvedIsJustified(run);
    HasIntent(run, stored, Since(ports.trace, start));
    hide IsOwnAttempt;
    var located := LocateAndRecord(ports, run, intent, stored, start);
    if located.Ended? {
      return located.outcome;
    }
    var order := located.order;
    ghost var recorded := ports.trace;
    var judged := JudgeOrder(ports, run, located.attempt, order, start);
    if judged.Err? {
      return Err(judged.error);
    }
    ghost var decided := ports.trace;
    Carry(start, start, recorded, decided);
    JustifiedLater(run, judged.value, Since(recorded, start), Since(decided, start));
    r := Conclude(ports, run, Reconciliation(judged.value, Some(order.exchangeOrderId)), start);
  }

  lemma HasIntent(run: Run, stored: Attempt, t: Trace)
    requires IsOwnAttempt(run, stored, t)
    ensures run.ownedIntents != []
  {
  }

  /** The status the order calls for; unresolved when it is filled without proof. */
  method JudgeOrder(ports: Ports, run: Run, attempt: Attempt, order: Order, ghost start: Trace) returns (r: Result<RunStatus, Failure>)
    requires GrowsQuietly(start, ports.trace) && ParentKnown(run, order, attempt, Since(ports.trace, start))
    modifies ports
    ensures GrowsQuietly(old(ports.trace), ports.trace) && GrowsQuietly(start, ports.trace)
    ensures r.Ok? ==> Justified(run, r.value, Since(old(ports.trace), start))
    ensures r.Ok? ==> IsOrderOf(order, attempt, run.plan)
    ensures r.Ok? ==> if r.value == UNRESOLVED then order.status == OrderFilled else Shows(order, r.value)
    ensures r.Ok? && r.value == RECONCILED ==> OrderProven(run, Since(ports.trace, start))
  {
    StatusMeaning(attempt, order, run.plan);
    hide OrderProven, ReconcileAttempt, Since, ParentKnown, Justified, Shows, IsOrderOf;
    var result := ReconcileAttempt(attempt, Some(order), run.plan);
    if result.Err? {
      return Err(result.error);
    }
    UnresolvedIsJustified(run);
    IsJustified(run, result.value, order, attempt, Since(ports.trace, start));
    OnlyFilledReconciles(attempt, order, run.plan);
    if order.status == OrderFilled {
      var proven := ProveFilled(ports, run, attempt, order, start);
      if proven.Err? {
        return Err(proven.error);
      }
      if !proven.value {
        var built := ports.Built();
        return if built then Ok(UNRESOLVED) else Err(UnresolvedState);
      }
    } else if order.status == OrderPartiallyFilled {
      var fills := ports.ListFills(QueryOf(order));
      if fills.Some? && fills.value != [] && ports.hasIngestor {
        var now := ports.Now();
        var ingested := ports.IngestAccounting(run.lineageId, attempt.attemptId, fills.value);
        if !ingested {
          return Err(PortFailure);
        }
      }
    }
    r := result;
  }

  lemma UnresolvedIsJustified(run: Run)
    ensures forall t :: Justified(run, UNRESOLVED, t)
  {
  }

  lemma IsJustified(run: Run, status: RunStatus, order: Order, attempt: Attempt, t: Trace)
    requires ParentKnown(run, order, attempt, t) && ReconcileAttempt(attempt, Some(order), run.plan) == Ok(status)
    ensures Justified(run, status, t)
  {
    StatusMeaning(attempt, order, run.plan);
    hide ParentKnown, ReconcileAttempt, IsOrderOf, Shows;
    assert JustifiedBy(run, status, order, attempt, t);
  }

  /** Put the result on record. */
  method Conclude(ports: Ports, run: Run, result: Reconciliation, ghost start: Trace) returns (r: Result<RunStatus, Failure>)
    requires run.ownedIntents != [] && GrowsQuietly(start, ports.trace)
    requires result.status == RECONCILED ==> OrderProven(run, Since(ports.trace, start))
    requires Justified(run, result.status, Since(ports.trace, start))
    modifies ports
    ensures GrowsQuietly(old(ports.trace), ports.trace) && GrowsQuietly(start, ports.trace)
    ensures r.Ok? ==> r.value == result.status && Concluded(run, r.value, Since(ports.trace, start))
    ensures r.Ok? ==> Justified(run, r.value, Since(ports.trace, start))
    ensures r.Ok? && (r.value == RECONCILED || r.value == FAILED) ==> Recovered(run, Since(ports.trace, start))
  {
    hide Recovered, OrderProven, Concluded, Since, Justified;
    ghost var concluding := ports.trace;
    var done := ports.AppendReconciliation(run.lineageId, result);
    if !done {
      return Err(PortFailure);
    }
    ConclusionIsRecorded(run, result, start, concluding);
    Carry(start, start, concluding, ports.trace);
    JustifiedLater(run, result.status, Since(concluding, start), Since(ports.trace, start));
    if result.status == RECONCILED || result.status == FAILED {
      ConclusionRecovers(run, result, start, concluding);
    }
    r := Ok(result.status);
  }

  lemma OnlyFilledReconciles(attempt: Attempt, order: Order, plan: Plan)
    ensures ReconcileAttempt(attempt, Some(order), plan) == Ok(RECONCILED) ==> order.status == OrderFilled
  {
  }

  lemma OrderProvenLater(run: Run, t: Trace, later: Trace)
    requires OrderProven(run, t) && forall e :: e in t ==> e in later
    ensures OrderProven(run, later)
  {
    hide OrderEvidence;
    var order, attempt, fills, children :| OrderEvidence(run, t, order, attempt, fills, children);
    EvidenceLater(run, t, later, order, attempt, fills, children);
  }

  /** Protection and accounting of a filled order. */
  method ProveFilled(ports: Ports, run: Run, attempt: Attempt, order: Order, ghost start: Trace)
    returns (r: Result<bool, Failure>)
    requires Continues(start, ports.trace) && ParentKnown(run, order, attempt, Since(ports.trace, start))
    modifies ports
    ensures GrowsQuietly(old(ports.trace), ports.trace)
    ensures r.Ok? && r.value && ReconcileAttempt(attempt, Some(order), run.plan) == Ok(RECONCILED) ==>
      Continues(start, ports.trace) && OrderProven(run, Since(ports.trace, start))
  {
    hide OrderProven, ReconcileAttempt, ProtectionMatchesEntry, Equal, Total, Quantities, Since, ParentKnown, OnRecord, FillsProven, ProtectionProvenBy;
    ghost var beforeProtection := ports.trace;
    ghost var children, fills;
    var protection;
    protection, children := CheckProtection(ports, run.lineageId, order);
    if protection.Err? {
      return Err(protection.error);
    }
    ghost var beforeFills := ports.trace;
    var accounting;
    accounting, fills := CheckFills(ports, run.lineageId, attempt.attemptId, order);
    if accounting.Err? {
      return Err(accounting.error);
    }
    Carry(start, start, beforeProtection, ports.trace);
    ParentKnownLater(run, order, attempt, Since(beforeProtection, start), Since(ports.trace, start));
    Carry(start, beforeProtection, beforeFills, ports.trace);
    Carry(start, beforeFills, ports.trace, ports.trace);
    if protection.value && accounting.value && ReconcileAttempt(attempt, Some(order), run.plan) == Ok(RECONCILED) {
      ProtectionProvenLater(run.lineageId, order, children, Since(beforeFills, beforeProtection), Since(ports.trace, start));
      FillsProvenLater(run.lineageId, attempt.attemptId, order, fills, Since(ports.trace, beforeFills), Since(ports.trace, start));
      OrderIsProven(run, attempt, order, fills, children, Since(ports.trace, start));
    }
    r := Ok(protection.value && accounting.value);
  }

  lemma ProtectionProvenLater(lineageId: string, order: Order, children: seq<Order>, t: Trace, later: Trace)
    requires ProtectionProvenBy(lineageId, order, children, t) && forall e :: e in t ==> e in later
    ensures ProtectionProvenBy(lineageId, order, children, later)
  {
    hide OnRecord;
    forall child | child in children
      ensures OnRecord(lineageId, Protection, child, later)
    {
      OnRecordLater(lineageId, Protection, child, t, later);
    }
  }

  lemma FillsProvenLater(lineageId: string, attemptId: string, order: Order, fills: seq<Fill>, t: Trace, later: Trace)
    requires FillsProven(lineageId, attemptId, order, fills, t) && forall e :: e in t ==> e in later
    ensures FillsProven(lineageId, attemptId, order, fills, later)
  {
  }

  // -------------------------------------------------------------------- HALT

  /** A lineage that lets HALT be cleared. */
  ghost predicate LineageSafe(run: Run, facts: seq<StoredFact>, t: Trace) {
    if run.ownedIntents == [] then LeverageProven(run.plan, t)
    else
      && Latest(run).Some?
      && (Latest(run).value.status == FAILED
          || (Latest(run).value.status == RECONCILED && AccountingProven(facts, run) && ProtectionProven(facts, run)))
  }

  lemma SafeLater(run: Run, facts: seq<StoredFact>, t: Trace, later: Trace)
    requires LineageSafe(run, facts, t) && forall e :: e in t ==> e in later
    ensures LineageSafe(run, facts, later)
  {
    hide AccountingProven, ProtectionProven;
    if run.ownedIntents == [] {
      forall k | 0 <= k < |run.plan.intents|
        ensures ReadBackAsOne(later, run.plan.intents[k].instrument)
      {
        ReadBackLater(t, later, run.plan.intents[k].instrument);
      }
    }
  }

  ghost predicate AllSafe(runs: seq<Run>, facts: seq<StoredFact>, t: Trace) {
    forall run :: run in runs ==> LineageSafe(run, facts, t)
  }

  method AllLineagesSafe(ports: Ports, runs: seq<Run>, facts: seq<StoredFact>) returns (safe: bool)
    modifies ports
    ensures GrowsQuietly(old(ports.trace), ports.trace)
    ensures OnlyReadsState(ports.trace, |old(ports.trace)|)
    ensures safe ==> AllSafe(runs, facts, Since(ports.trace, old(ports.trace)))
  {
    ghost var start := ports.trace;
    hide LeverageProven, AccountingProven, ProtectionProven, Latest, Since;
    for i := 0 to |runs|
      invariant GrowsQuietly(start, ports.trace) && OnlyReadsState(ports.trace, |start|)
      invariant forall k :: 0 <= k < i ==> LineageSafe(runs[k], facts, Since(ports.trace, start))
    {
      var run := runs[i];
      ghost var before := ports.trace;
      if |run.ownedIntents| == 0 {
        var proven := ReadLeverages(ports, run.plan);
        if !proven {
          return false;
        }
      } else {
        var latest := Latest(run);
        if latest.None? || (latest.value.status != RECONCILED && latest.value.status != FAILED) {
          return false;
        }
        if latest.value.status != FAILED {
          var accounted := ExpectedAccounting(facts, run);
          if !accounted || !ProtectionProven(facts, run) {
            return false;
          }
        }
      }
      assert LineageSafe(run, facts, Since(ports.trace, before));
      Carry(start, before, ports.trace, ports.trace);
      SafeLater(run, facts, Since(ports.trace, before), Since(ports.trace, start));
      Carry(start, start, before, ports.trace);
      forall k | 0 <= k < i
        ensures LineageSafe(runs[k], facts, Since(ports.trace, start))
      {
        SafeLater(runs[k], facts, Since(before, start), Since(ports.trace, start));
      }
    }
    safe := true;
  }

  /** HALT read active at `a`, then all runs and facts, then every lineage found safe, and nothing else since. */
  ghost predicate Clearance(t: Trace, a: nat, revision: nat) {
    && a + 2 < |t|
    && t[a].HaltRead? && t[a].halt.Some? && t[a].halt.value.active && t[a].halt.value.revision == revision
    && t[a + 1].RunsRead? && t[a + 1].runs.Some?
    && t[a + 2].FactsRead? && t[a + 2].facts.Some?
    && AllSafe(t[a + 1].runs.value, t[a + 2].facts.value, t[a + 3..])
    && OnlyReadsState(t, a + 3)
  }

  /** From `from` on, only the clock and the state of the exchange are read. */
  ghost predicate OnlyReadsState(t: Trace, from: nat) {
    forall m :: from <= m < |t| ==> t[m].StateRead? || t[m].ClockRead?
  }

  ghost predicate HasClearance(t: Trace, revision: nat) {
    exists a :: Clearance(t, a, revision)
  }

  /** HALT is cleared only when every recorded lineage is safe. */
  ghost predicate ClearsSafely(t: Trace) {
    forall i {:trigger ClearedAt(t, i)} :: ClearedAt(t, i) ==> HasClearance(t[..i], t[i].revision)
  }

  predicate ClearedAt(t: Trace, i: int) {
    0 <= i < |t| && t[i].HaltCleared?
  }

  lemma ClearsSafelyLater(before: Trace, after: Trace)
    requires ClearsSafely(before) && GrowsQuietly(before, after)
    ensures ClearsSafely(after)
  {
    forall i | ClearedAt(after, i)
      ensures HasClearance(after[..i], after[i].revision)
    {
      assert after[..i] == before[..i] && ClearedAt(before, i);
    }
  }

  lemma ClearsWithClearance(before: Trace, revision: nat)
    requires ClearsSafely(before) && HasClearance(before, revision)
    ensures ClearsSafely(before + [HaltCleared(revision)])
  {
    var after := before + [HaltCleared(revision)];
    forall i | ClearedAt(after, i)
      ensures HasClearance(after[..i], after[i].revision)
    {
      assert after[..i] == before[..i] && (i < |before| ==> ClearedAt(before, i));
      assert before[..|before|] == before;
    }
  }

  /** The HALT to clear, if there is one and every lineage is safe. */
  method JudgeHalt(ports: Ports) returns (r: Result<Option<Halt>, Failure>)
    modifies ports
    ensures GrowsQuietly(old(ports.trace), ports.trace)
    ensures r.Ok? && r.value.Some? ==> HasClearance(ports.trace, r.value.value.revision)
  {
    ghost var start := ports.trace;
    hide HasClearance, AllSafe, Since;
    var halt := ports.ReadHalt();
    if halt.None? || !halt.value.active {
      return if halt.None? then Err(PortFailure) else Ok(None);
    }
    var runs := ports.ReadRuns();
    if runs.None? {
      return Err(PortFailure);
    }
    var facts := ports.ReadFacts();
    if facts.None? {
      return Err(PortFailure);
    }
    ghost var read := ports.trace;
    var safe := AllLineagesSafe(ports, runs.value, facts.value);
    if !safe {
      return Ok(None);
    }
    ghost var judged := ports.trace;
    var now := ports.Now();
    ClearanceFound(start, halt.value, runs.value, facts.value, read, judged, ports.trace);
    r := Ok(halt);
  }

  lemma ClearanceFound(start: Trace, halt: Halt, runs: seq<Run>, facts: seq<StoredFact>, read: Trace, judged: Trace, t: Trace)
    requires read == start + [HaltRead(Some(halt))] + [RunsRead(Some(runs))] + [FactsRead(Some(facts))] && halt.active
    requires Continues(read, judged) && Continues(judged, t) && AllSafe(runs, facts, Since(judged, read))
    requires OnlyReadsState(t, |read|)
    ensures HasClearance(t, halt.revision)
  {
    hide LineageSafe;
    var a := |start|;
    assert t[a] == read[a] && t[a + 1] == read[a + 1] && t[a + 2] == read[a + 2];
    Carry(read, read, judged, t);
    assert t[a + 3..] == Since(t, read);
    forall run | run in runs
      ensures LineageSafe(run, facts, Since(t, read))
    {
      SafeLater(run, facts, Since(judged, read), Since(t, read));
    }
    assert Clearance(t, a, halt.revision);
  }

  method ClearHaltIfSafe(ports: Ports) returns (r: Result<bool, Failure>)
    modifies ports
    ensures Grows(old(ports.trace), ports.trace)
    ensures ClearsSafely(old(ports.trace)) ==> ClearsSafely(ports.trace)
  {
    ghost var start := ports.trace;
    hide ClearsSafely, HasClearance;
    var halt := JudgeHalt(ports);
    ghost var judged := ports.trace;
    if ClearsSafely(start) {
      ClearsSafelyLater(start, judged);
    }
    if halt.Err? || halt.value.None? {
      return if halt.Err? then Err(halt.error) else Ok(false);
    }
    var built := ports.Built();
    if !built {
      return Err(UnresolvedState);
    }
    var done := ports.ClearHalt(halt.value.value.revision);
    if ClearsSafely(start) {
      ClearsWithClearance(judged, halt.value.value.revision);
    }
    r := if done then Ok(true) else Err(PortFailure);
  }

  // ---------------------------------------------------------------- recovery

  datatype Summary = Summary(safeToProceed: bool, clearedHalt: bool, reconciledLineages: nat, blockedLineages: nat, unresolved: seq<string>)

  /** The runs read at `a` have all been recovered since, but for those of the lineages listed. */
  ghost predicate RecoveredExcept(t: Trace, a: nat, unresolved: seq<string>) {
    && a < |t| && t[a].RunsRead? && t[a].runs.Some?
    && forall run :: run in t[a].runs.value && run.lineageId !in unresolved ==> Recovered(run, t[a + 1..])
  }

  ghost predicate AllRecovered(t: Trace, a: nat) {
    RecoveredExcept(t, a, [])
  }

  method RecoverEach(ports: Ports, scope: JournalScope, runs: seq<Run>)
    returns (r: Result<(nat, seq<string>), Failure>)
    modifies ports
    ensures GrowsQuietly(old(ports.trace), ports.trace)
    ensures r.Ok? ==> r.value.0 + |r.value.1| == |runs|
    ensures r.Ok? ==> forall run :: run in runs && run.lineageId !in r.value.1 ==> Recovered(run, Since(ports.trace, old(ports.trace)))
    ensures r.Ok? ==> forall id :: id in r.value.1 ==> exists run :: run in runs && run.lineageId == id
  {
    ghost var start := ports.trace;
    var reconciled: nat, unresolved: seq<string> := 0, [];
    hide Recovered, Since;
    for i := 0 to |runs|
      invariant GrowsQuietly(start, ports.trace) && reconciled + |unresolved| == i
      invariant forall k :: 0 <= k < i && runs[k].lineageId !in unresolved ==> Recovered(runs[k], Since(ports.trace, start))
      invariant forall id :: id in unresolved ==> exists run :: run in runs && run.lineageId == id
    {
      var run := runs[i];
      ghost var before := ports.trace;
      var status: RunStatus := FAILED;
      if |run.ownedIntents| > 0 && Latest(run).Some? && Latest(run).value.status == FAILED {
        AlreadyFailed(run, Since(ports.trace, start));
      } else {
        var recovered := ReconcileRun(ports, scope, run);
        if recovered.Err? {
          return Err(recovered.error);
        }
        status := recovered.value;
        Carry(start, before, ports.trace, ports.trace);
        if status == RECONCILED || status == FAILED {
          RecoveredLater(run, Since(ports.trace, before), Since(ports.trace, start));
        }
      }
      Carry(start, start, before, ports.trace);
      if status == RECONCILED || status == FAILED {
        reconciled := reconciled + 1;
      } else {
        unresolved := unresolved + [run.lineageId];
      }
      forall k | 0 <= k < i && runs[k].lineageId !in unresolved
        ensures Recovered(runs[k], Since(ports.trace, start))
      {
        RecoveredLater(runs[k], Since(before, start), Since(ports.trace, start));
      }
    }
    r := Ok((reconciled, unresolved));
  }

  lemma AlreadyFailed(run: Run, t: Trace)
    requires run.ownedIntents != [] && Latest(run).Some? && Latest(run).value.status == FAILED
    ensures Recovered(run, t)
  {
  }

  /**
   * Recovery of all earlier runs.  It writes nothing to the exchange, clears HALT only safely, and
   * reports that it is safe to proceed only after every run it read was recovered and HALT read inactive.
   */
  method RecoverPriorRuns(ports: Ports, scope: JournalScope) returns (r: Result<Summary, Failure>)
    modifies ports
    ensures Grows(old(ports.trace), ports.trace)
    ensures ClearsSafely(old(ports.trace)) ==> ClearsSafely(ports.trace)
    ensures r.Ok? ==>
      && RecoveredExcept(ports.trace, |old(ports.trace)|, r.value.unresolved)
      && r.value.reconciledLineages + r.value.blockedLineages == |ports.trace[|old(ports.trace)|].runs.value|
      && r.value.blockedLineages == |r.value.unresolved|
    ensures r.Ok? && r.value.safeToProceed ==>
      && AllRecovered(ports.trace, |old(ports.trace)|)
      && |ports.trace| > 0 && ports.trace[|ports.trace| - 1].HaltRead?
      && ports.trace[|ports.trace| - 1].halt.Some? && !ports.trace[|ports.trace| - 1].halt.value.active
  {
    ghost var start := ports.trace;
    hide ClearsSafely, Recovered;
    var runs := ports.ReadRuns();
    ghost var read := ports.trace;
    if runs.None? {
      if ClearsSafely(start) { ClearsSafelyLater(start, ports.trace); }
      return Err(PortFailure);
    }
    var each := RecoverEach(ports, scope, runs.value);
    ghost var recovered := ports.trace;
    if ClearsSafely(start) { ClearsSafelyLater(start, ports.trace); }
    if each.Err? {
      return Err(each.error);
    }
    var (reconciled, unresolved) := each.value;
    var cleared := ClearHaltIfSafe(ports);
    if cleared.Err? {
      return Err(cleared.error);
    }
    ghost var before := ports.trace;
    var halt := ports.ReadHalt();
    if ClearsSafely(start) { ClearsSafelyLater(before, ports.trace); }
    if halt.None? {
      return Err(PortFailure);
    }
    RecoveredSince(runs.value, unresolved, start, read, recovered, ports.trace);
    r := Ok(Summary(unresolved == [] && !halt.value.active, cleared.value, reconciled, |unresolved|, unresolved));
  }

  lemma RecoveredSince(runs: seq<Run>, unresolved: seq<string>, start: Trace, read: Trace, recovered: Trace, t: Trace)
    requires read == start + [RunsRead(Some(runs))] && Continues(read, recovered) && Continues(recovered, t)
    requires forall run :: run in runs && run.lineageId !in unresolved ==> Recovered(run, Since(recovered, read))
    ensures RecoveredExcept(t, |start|, unresolved) && t[|start|] == RunsRead(Some(runs))
  {
    hide Recovered;
    assert t[|start|] == read[|start|];
    Carry(read, read, recovered, t);
    forall run | run in runs && run.lineageId !in unresolved
      ensures Recovered(run, t[|start| + 1..])
    {
      assert t[|start| + 1..] == Since(t, read);
      RecoveredLater(run, Since(recovered, read), Since(t, read));
    }
  }
}
