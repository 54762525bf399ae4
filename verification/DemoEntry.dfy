/**
 * The guarded Demo entry (src/application/demo-entry-use-case.ts): one approved order, written to
 * the exchange behind a lease, recovery of earlier runs, HALT, approval and durable intent.
 */
module DemoEntry {
  import opened Common
  import opened Decimals
  import opened Journal
  import opened DemoRecovery
  import opened RecoverRuns

  datatype EntryPlan = EntryPlan(plan: Plan, intent: Intent, clientOrderId: string)

  /** What the operator approved, from which reading, and until when. */
  datatype Review = Review(symbol: string, plan: EntryPlan, state: ExchangeState, runId: string, approvalExpiresAt: int)

  datatype Verdict = CONFIRMED_FILLED | CONFIRMED_OPEN | DECLINED | HALTED | NOT_READY | UNRESOLVED_ENTRY

  datatype Outcome = Outcome(verdict: Verdict, lineageId: Option<string>, reconciliation: Option<RunStatus>)

  // --------------------------------------------------------------- authority

  predicate SameMarketScope(a: MarketScope, s: JournalScope) {
    a.exchange == s.exchange && a.environment == s.environment && a.category == s.category && a.positionMode == s.positionMode
  }

  predicate HasAuthority(s: ExchangeState, scope: JournalScope) {
    && SameMarketScope(s.accountScope, scope)
    && s.keys.accountId == scope.accountId && s.keys.userId == scope.accountId
    && !s.keys.readOnly && s.keys.mayOrder && s.keys.mayPosition && !s.keys.mayWithdraw && !s.keys.mayTransfer
  }

  function PositionsIn(positions: seq<Position>, symbol: string): seq<Position> {
    if positions == [] then []
    else (if positions[0].instrument == symbol then [positions[0]] else []) + PositionsIn(positions[1..], symbol)
  }

  function OrdersIn(orders: seq<OpenOrder>, symbol: string): seq<OpenOrder> {
    if orders == [] then []
    else (if orders[0].instrument == symbol then [orders[0]] else []) + OrdersIn(orders[1..], symbol)
  }

  /** The same positions and open orders in the instrument, in any order. */
  predicate SameBaseline(a: ExchangeState, b: ExchangeState, symbol: string) {
    && multiset(PositionsIn(a.positions, symbol)) == multiset(PositionsIn(b.positions, symbol))
    && multiset(OrdersIn(a.openOrders, symbol)) == multiset(OrdersIn(b.openOrders, symbol))
  }

  lemma {:induction false} PositionCounts(positions: seq<Position>, symbol: string, p: Position)
    ensures multiset(PositionsIn(positions, symbol))[p] == if p.instrument == symbol then multiset(positions)[p] else 0
  {
    if positions != [] {
      PositionCounts(positions[1..], symbol, p);
      assert positions == [positions[0]] + positions[1..];
    }
  }

  lemma {:induction false} OrderCounts(orders: seq<OpenOrder>, symbol: string, o: OpenOrder)
    ensures multiset(OrdersIn(orders, symbol))[o] == if o.instrument == symbol then multiset(orders)[o] else 0
  {
    if orders != [] {
      OrderCounts(orders[1..], symbol, o);
      assert orders == [orders[0]] + orders[1..];
    }
  }

  /** The baselines agree exactly when every position and open order of the instrument is in both as often. */
  lemma BaselineMeaning(a: ExchangeState, b: ExchangeState, symbol: string)
    ensures SameBaseline(a, b, symbol) <==>
      && (forall p: Position :: p.instrument == symbol ==> multiset(a.positions)[p] == multiset(b.positions)[p])
      && (forall o: OpenOrder :: o.instrument == symbol ==> multiset(a.openOrders)[o] == multiset(b.openOrders)[o])
  {
    var (p, q) := (multiset(PositionsIn(a.positions, symbol)), multiset(PositionsIn(b.positions, symbol)));
    var (x, y) := (multiset(OrdersIn(a.openOrders, symbol)), multiset(OrdersIn(b.openOrders, symbol)));
    forall i: Position
      ensures p[i] == if i.instrument == symbol then multiset(a.positions)[i] else 0
      ensures q[i] == if i.instrument == symbol then multiset(b.positions)[i] else 0
    {
      PositionCounts(a.positions, symbol, i);
      PositionCounts(b.positions, symbol, i);
    }
    forall i: OpenOrder
      ensures x[i] == if i.instrument == symbol then multiset(a.openOrders)[i] else 0
      ensures y[i] == if i.instrument == symbol then multiset(b.openOrders)[i] else 0
    {
      OrderCounts(a.openOrders, symbol, i);
      OrderCounts(b.openOrders, symbol, i);
    }
    assert p == q <==> forall i :: p[i] == q[i];
    assert x == y <==> forall i :: x[i] == y[i];
  }

  /** The reading still is what was approved, apart from the capabilities, which are trusted or not. */
  predicate SameApproved(initial: ExchangeState, current: ExchangeState, plan: EntryPlan, allowLeverageChange: bool) {
    && current.ready
    && initial.accountScope == current.accountScope
    && current.instrument == plan.intent.instrument
    && initial.marketScope == current.marketScope
    && initial.keys == current.keys
    && SameBaseline(initial, current, plan.intent.instrument)
    && initial.constraints == current.constraints
    && (allowLeverageChange || initial.leverage == current.leverage)
  }

  // ------------------------------------------------------------------ safety

  /** The trace ends in a fence: approval not expired, HALT read clear, lease renewed at the same time. */
  ghost predicate Fenced(t: Trace, expiresAt: int) {
    var n := |t|;
    && n >= 3
    && t[n - 3].ClockRead? && t[n - 3].now < expiresAt
    && t[n - 2].HaltRead? && t[n - 2].halt.Some? && !t[n - 2].halt.value.active && !t[n - 2].halt.value.reconciliationRequired
    && t[n - 1] == LeaseRenewed(t[n - 3].now, Some(false))
  }

  /** All runs recorded when the lease was acquired have been recovered since. */
  ghost predicate RecoveredBefore(t: Trace) {
    exists a :: RecoveredAt(t, a)
  }

  ghost predicate RecoveredAt(t: Trace, a: int) {
    0 < a && AllRecovered(t, a) && t[a - 1] == LeaseAcquired(true)
  }

  ghost predicate NoWrites(t: Trace) {
    forall i :: 0 <= i < |t| ==> !IsWrite(t[i])
  }

  ghost predicate NoOrders(t: Trace) {
    forall i :: 0 <= i < |t| ==> !t[i].OrderCreated?
  }

  /** The last reading, with no leverage written since, is `s`. */
  ghost predicate LastReading(t: Trace, s: ExchangeState) {
    exists k :: ReadingAt(t, k, s)
  }

  ghost predicate ReadingAt(t: Trace, k: int, s: ExchangeState) {
    && 0 <= k < |t| && t[k].StateRead? && t[k].state == Some(s)
    && forall m :: k < m < |t| ==> !t[m].StateRead? && !t[m].LeverageSet?
  }

  /** The lineage and the owned intent are durable. */
  ghost predicate Durable(t: Trace, review: Review) {
    exists lineageId :: LineagePrepared(review.plan.plan, Some(lineageId)) in t
      && IntentPrepared(lineageId, review.plan.intent.intentId, review.plan.clientOrderId, true) in t
  }

  /** The exchange was last read as approved, with leverage 1. */
  ghost predicate ReadAsApproved(t: Trace, review: Review) {
    exists s :: LastReading(t, s) && LeverageIsOne(s) && SameApproved(review.state, s, review.plan, true)
  }

  /** What a write to the exchange must follow. */
  ghost predicate WriteIsSafe(t: Trace, e: Event, review: Review) {
    && Fenced(t, review.approvalExpiresAt) && RecoveredBefore(t)
    && (e.LeverageSet? ==> NoWrites(t) && e.instrument == review.symbol)
    && (e.OrderCreated? ==>
          && NoOrders(t) && Durable(t, review) && ReadAsApproved(t, review)
          && e.intent == review.plan.intent && e.clientOrderId == review.plan.clientOrderId)
  }

  ghost predicate IsSafe(t: Trace, review: Review) {
    forall i {:trigger WriteAt(t, i)} :: WriteAt(t, i) ==> WriteIsSafe(t[..i], t[i], review)
  }

  predicate WriteAt(t: Trace, i: int) {
    0 <= i < |t| && IsWrite(t[i])
  }

  /** A safe run sets the leverage at most once and creates at most one order, in this order. */
  lemma AtMostOneEach(t: Trace, review: Review, i: nat, j: nat)
    requires IsSafe(t, review) && i < j < |t| && IsWrite(t[i]) && IsWrite(t[j])
    ensures t[i].LeverageSet? && t[j].OrderCreated?
  {
    assert WriteAt(t, j);
    hide RecoveredBefore, Durable, ReadAsApproved, Fenced;
    assert t[..j][i] == t[i];
  }

  lemma SafeQuietly(before: Trace, after: Trace, review: Review)
    requires IsSafe(before, review) && Grows(before, after)
    ensures IsSafe(after, review)
    ensures NoWrites(before) ==> NoWrites(after)
    ensures NoOrders(before) ==> NoOrders(after)
  {
    hide WriteIsSafe;
    forall i | WriteAt(after, i)
      ensures WriteIsSafe(after[..i], after[i], review)
    {
      assert after[..i] == before[..i] && WriteAt(before, i);
    }
  }

  lemma SafeWrite(before: Trace, e: Event, review: Review)
    requires IsSafe(before, review) && WriteIsSafe(before, e, review)
    ensures IsSafe(before + [e], review)
  {
    hide WriteIsSafe;
    var after := before + [e];
    forall i | WriteAt(after, i)
      ensures WriteIsSafe(after[..i], after[i], review)
    {
      assert after[..i] == before[..i] && (i < |before| ==> WriteAt(before, i));
      assert before[..|before|] == before;
    }
  }

  lemma RecoveredBeforeLater(before: Trace, after: Trace)
    requires RecoveredBefore(before) && Continues(before, after)
    ensures RecoveredBefore(after)
  {
    hide AllRecovered;
    var a :| RecoveredAt(before, a);
    AllRecoveredLater(before, after, a);
    assert RecoveredAt(after, a);
  }

  lemma AllRecoveredLater(before: Trace, after: Trace, a: nat)
    requires AllRecovered(before, a) && Continues(before, after)
    ensures AllRecovered(after, a) && a < |before|
  {
    hide Recovered;
    assert after[a] == before[a];
    var from := before[..a + 1];
    SinceLater(from, before, after);
    assert Since(before, from) == before[a + 1..] && Since(after, from) == after[a + 1..];
    forall run | run in before[a].runs.value
      ensures Recovered(run, after[a + 1..])
    {
      RecoveredLater(run, before[a + 1..], after[a + 1..]);
    }
  }

  // ---------------------------------------------------------------- protocol

  datatype Step<T> = Go(value: T) | Stop(result: Result<Outcome, Failure>)

  class DemoEntryUseCase {
    const ports: Ports
    const scope: JournalScope

    constructor (ports: Ports, scope: JournalScope)
      ensures this.ports == ports && this.scope == scope
    {
      this.ports, this.scope := ports, scope;
    }

    /** An outcome names the account, which may fail to hash. */
    method Report(verdict: Verdict, lineageId: Option<string>, reconciliation: Option<RunStatus>) returns (r: Result<Outcome, Failure>)
      ensures r.Ok? ==> r.value == Outcome(verdict, lineageId, reconciliation)
    {
      var built := ports.Built();
      r := if built then Ok(Outcome(verdict, lineageId, reconciliation)) else Err(UnresolvedState);
    }

    /** Raise HALT and report. */
    method Halted(verdict: Verdict, lineageId: Option<string>) returns (r: Result<Outcome, Failure>)
      modifies ports
      ensures GrowsQuietly(old(ports.trace), ports.trace)
      ensures r.Ok? ==> r.value.verdict == verdict && HaltRaised(true) in ports.trace
    {
      var now := ports.Now();
      ghost var before := ports.trace;
      var done := ports.RaiseHalt();
      if !done {
        return Err(PortFailure);
      }
      assert ports.trace[|before|] == HaltRaised(true);
      r := Report(verdict, lineageId, None);
    }

    method AcquireAndRecover() returns (r: Result<(), Failure>)
      modifies ports
      ensures Grows(old(ports.trace), ports.trace)
      ensures ClearsSafely(old(ports.trace)) ==> ClearsSafely(ports.trace)
      ensures r.Ok? ==> RecoveredBefore(ports.trace)
    {
      ghost var start := ports.trace;
      hide ClearsSafely, AllRecovered;
      var now := ports.Now();
      var acquired := ports.AcquireLease();
      if ClearsSafely(start) { ClearsSafelyLater(start, ports.trace); }
      if !acquired {
        return Err(PortFailure);
      }
      ghost var leased := ports.trace;
      var recovered := RecoverPriorRuns(ports, scope);
      if recovered.Err? {
        return Err(recovered.error);
      }
      if !recovered.value.safeToProceed {
        return Err(UnresolvedState);
      }
      assert RecoveredAt(ports.trace, |leased|);
      r := Ok(());
    }

    method FenceForWrite(review: Review) returns (r: Result<int, Failure>)
      modifies ports
      ensures GrowsQuietly(old(ports.trace), ports.trace)
      ensures forall i :: |old(ports.trace)| <= i < |ports.trace| ==> !ports.trace[i].StateRead?
      ensures r.Ok? ==> Fenced(ports.trace, review.approvalExpiresAt) && ports.trace[|ports.trace| - 3] == ClockRead(r.value)
      ensures r.Err? ==> r.error in {PlanExpired, HaltActive, UnresolvedState, PortFailure}
    {
      var now := ports.Now();
      if now >= review.approvalExpiresAt {
        return Err(PlanExpired);
      }
      var halt := ports.ReadHalt();
      if halt.None? {
        return Err(PortFailure);
      }
      if halt.value.active || halt.value.reconciliationRequired {
        return Err(HaltActive);
      }
      var renewed := ports.RenewLease(now);
      if renewed.None? {
        return Err(PortFailure);
      }
      r := if renewed.value then Err(UnresolvedState) else Ok(now);
    }

    /** The reading before any write, once it still is what was approved, and the durable lineage. */
    method PrepareWrite(review: Review) returns (s: Step<(ExchangeState, string)>)
      modifies ports
      ensures Grows(old(ports.trace), ports.trace)
      ensures ClearsSafely(old(ports.trace)) ==> ClearsSafely(ports.trace)
      ensures s.Stop? && s.result.Ok? ==> s.result.value.verdict in {HALTED, NOT_READY, DECLINED}
      ensures s.Go? ==>
        && RecoveredBefore(ports.trace)
        && LastReading(ports.trace, s.value.0) && SameApproved(review.state, s.value.0, review.plan, false)
        && LineagePrepared(review.plan.plan, Some(s.value.1)) in ports.trace
    {
      ghost var start := ports.trace;
      hide ClearsSafely, RecoveredBefore, SameApproved, HasAuthority;
      var preflight := ports.ReadState(review.symbol);
      if ClearsSafely(start) { ClearsSafelyLater(start, ports.trace); }
      if preflight.None? || !HasAuthority(preflight.value, scope) {
        var report := Report(if preflight.None? then HALTED else NOT_READY, None, None);
        return Stop(report);
      }
      var acquired := AcquireAndRecover();
      if acquired.Err? {
        return Stop(Err(acquired.error));
      }
      ghost var recovered := ports.trace;
      var step := ReadAndApprove(review);
      if ClearsSafely(recovered) { ClearsSafelyLater(recovered, ports.trace); }
      RecoveredBeforeLater(recovered, ports.trace);
      s := step;
    }

    method ReadAndApprove(review: Review) returns (s: Step<(ExchangeState, string)>)
      modifies ports
      ensures GrowsQuietly(old(ports.trace), ports.trace)
      ensures s.Stop? && s.result.Ok? ==> s.result.value.verdict in {HALTED, NOT_READY, DECLINED}
      ensures s.Stop? && s.result.Ok? && s.result.value.verdict != DECLINED ==> HaltRaised(true) in ports.trace
      ensures s.Go? ==>
        && LastReading(ports.trace, s.value.0) && SameApproved(review.state, s.value.0, review.plan, false)
        && LineagePrepared(review.plan.plan, Some(s.value.1)) in ports.trace
    {
      hide SameApproved, LastReading;
      var read := ReadOrHalt(review);
      if read.Stop? {
        return Stop(read.result);
      }
      ghost var before := ports.trace;
      var lineage := ApproveLineage(review);
      if lineage.Stop? {
        return Stop(lineage.result);
      }
      ReadingStays(before, ports.trace, read.value);
      s := Go((read.value, lineage.value));
    }

    /** Read the exchange; raise HALT unless it has the authority and still is as approved. */
    method ReadOrHalt(review: Review) returns (s: Step<ExchangeState>)
      modifies ports
      ensures GrowsQuietly(old(ports.trace), ports.trace)
      ensures s.Stop? && s.result.Ok? ==> s.result.value.verdict in {HALTED, NOT_READY} && HaltRaised(true) in ports.trace
      ensures s.Go? ==> LastReading(ports.trace, s.value) && SameApproved(review.state, s.value, review.plan, false)
    {
      hide SameApproved, HasAuthority, LastReading;
      var beforeWrite := ports.ReadState(review.symbol);
      if beforeWrite.None? || !HasAuthority(beforeWrite.value, scope) {
        var report := Halted(if beforeWrite.None? then HALTED else NOT_READY, None);
        return Stop(report);
      }
      var trusted := ports.Built();
      if !trusted || !SameApproved(review.state, beforeWrite.value, review.plan, false) {
        var report := Halted(NOT_READY, None);
        return Stop(report);
      }
      ReadNow(ports.trace, beforeWrite.value, review.symbol);
      s := Go(beforeWrite.value);
    }

    method ApproveLineage(review: Review) returns (s: Step<string>)
      modifies ports
      ensures GrowsQuietly(old(ports.trace), ports.trace)
      ensures forall i :: |old(ports.trace)| <= i < |ports.trace| ==> !ports.trace[i].StateRead?
      ensures s.Stop? && s.result.Ok? ==> s.result.value.verdict == DECLINED
      ensures s.Go? ==> LineagePrepared(review.plan.plan, Some(s.value)) in ports.trace
    {
      var approvedAt := ports.Now();
      if approvedAt >= review.approvalExpiresAt {
        var report := Report(DECLINED, None, None);
        return Stop(report);
      }
      var approvalTime := ports.Now();
      var built := ports.Built();
      if !built {
        return Stop(Err(UnresolvedState));
      }
      var preparedAt := ports.Now();
      var lineage := ports.PrepareLineage(review.plan.plan);
      s := if lineage.None? then Stop(Err(PortFailure)) else Go(lineage.value);
    }

    /** Leverage 1, set if it is not read so; the reading then still is as approved. */
    method EnsureLeverage(review: Review, current: ExchangeState, lineageId: string) returns (s: Step<ExchangeState>)
      requires NoWrites(ports.trace) && RecoveredBefore(ports.trace)
      requires LastReading(ports.trace, current) && SameApproved(review.state, current, review.plan, false)
      modifies ports
      ensures Continues(old(ports.trace), ports.trace) && IsSafe(ports.trace, review) && NoOrders(ports.trace)
      ensures ClearsSafely(old(ports.trace)) ==> ClearsSafely(ports.trace)
      ensures s.Stop? && s.result.Ok? ==> s.result.value.verdict in {HALTED, DECLINED}
      ensures s.Go? ==>
        LastReading(ports.trace, s.value) && LeverageIsOne(s.value) && SameApproved(review.state, s.value, review.plan, true)
    {
      ghost var start := ports.trace;
      hide ClearsSafely, RecoveredBefore, SameBaseline, Fenced, WriteIsSafe, LastReading;
      SafeWithoutWrites(start, review);
      if LeverageIsOne(current) {
        return Go(current);
      }
      var fenced := FenceForWrite(review);
      ghost var ready := ports.trace;
      SafeQuietly(start, ready, review);
      if ClearsSafely(start) { ClearsSafelyLater(start, ready); }
      if fenced.Err? {
        var report := Report(if fenced.error == PlanExpired then DECLINED else HALTED, Some(lineageId), None);
        return Stop(report);
      }
      RecoveredBeforeLater(start, ready);
      var effective := ports.SetLeverage(review.symbol);
      ghost var written := ports.trace;
      LeverageIsSafe(ready, review);
      SafeWrite(ready, LeverageSet(review.symbol), review);
      s := RereadLeverage(review, lineageId, effective);
      SafeQuietly(written, ports.trace, review);
      if ClearsSafely(start) { ClearsAfterWrite(ready, LeverageSet(review.symbol), ports.trace); }
    }

    method RereadLeverage(review: Review, lineageId: string, effective: Option<Normal>) returns (s: Step<ExchangeState>)
      modifies ports
      ensures GrowsQuietly(old(ports.trace), ports.trace)
      ensures s.Stop? && s.result.Ok? ==> s.result.value.verdict == HALTED && HaltRaised(true) in ports.trace
      ensures s.Go? ==>
        LastReading(ports.trace, s.value) && LeverageIsOne(s.value) && SameApproved(review.state, s.value, review.plan, true)
    {
      ghost var start := ports.trace;
      hide SameApproved, LastReading;
      if effective != Some(Decimal(1, 0)) {
        var report := Halted(HALTED, Some(lineageId));
        return Stop(report);
      }
      var reread := ports.ReadState(review.symbol);
      if reread.None? {
        return Stop(Err(UnresolvedState));
      }
      var trusted := ports.Built();
      if !trusted || !SameApproved(review.state, reread.value, review.plan, true) || !LeverageIsOne(reread.value) {
        var report := Halted(HALTED, Some(lineageId));
        return Stop(report);
      }
      ReadNow(ports.trace, reread.value, review.symbol);
      s := Go(reread.value);
    }

    /** The owned intent, the fence and the order. */
    method Dispatch(review: Review, current: ExchangeState, lineageId: string)
      returns (s: Step<(Answer, int)>)
      requires IsSafe(ports.trace, review) && NoOrders(ports.trace) && RecoveredBefore(ports.trace)
      requires LastReading(ports.trace, current) && LeverageIsOne(current) && SameApproved(review.state, current, review.plan, true)
      requires LineagePrepared(review.plan.plan, Some(lineageId)) in ports.trace
      modifies ports
      ensures Continues(old(ports.trace), ports.trace) && IsSafe(ports.trace, review)
      ensures ClearsSafely(old(ports.trace)) ==> ClearsSafely(ports.trace)
      ensures s.Stop? ==> NoOrders(ports.trace)
      ensures s.Stop? && s.result.Ok? ==> s.result.value.verdict in {HALTED, DECLINED}
      ensures s.Go? ==> Dispatched(ports.trace, |ports.trace| - 2, review, s.value.0, s.value.1)
    {
      ghost var start := ports.trace;
      hide *;
      var fenced := FenceIntent(review, lineageId);
      ghost var ready := ports.trace;
      StillSafe(start, ready, review);
      if fenced.Stop? {
        return Stop(fenced.result);
      }
      OrderAfterFence(start, ready, review, current, lineageId);
      var answer := ports.CreateOrder(review.plan.intent, review.plan.clientOrderId);
      AnswerAfterOrder(start, ready, ports.trace, review, answer, fenced.value);
      s := Go((answer, fenced.value));
    }

    method FenceIntent(review: Review, lineageId: string) returns (s: Step<int>)
      modifies ports
      ensures GrowsQuietly(old(ports.trace), ports.trace)
      ensures forall i :: |old(ports.trace)| <= i < |ports.trace| ==> !ports.trace[i].StateRead?
      ensures s.Stop? && s.result.Ok? ==> s.result.value.verdict in {HALTED, DECLINED}
      ensures s.Go? ==>
        && Fenced(ports.trace, review.approvalExpiresAt) && |ports.trace| >= 3 && ports.trace[|ports.trace| - 3] == ClockRead(s.value)
        && IntentPrepared(lineageId, review.plan.intent.intentId, review.plan.clientOrderId, true) in ports.trace
    {
      var now := ports.Now();
      var preparedAt := ports.Now();
      var owned := ports.PrepareOwnedIntent(lineageId, review.plan.intent.intentId, review.plan.clientOrderId);
      if !owned {
        return Stop(Err(PortFailure));
      }
      ghost var prepared := ports.trace;
      var fenced := FenceForWrite(review);
      if fenced.Err? {
        var report := Report(if fenced.error == PlanExpired then DECLINED else HALTED, Some(lineageId), None);
        return Stop(report);
      }
      assert ports.trace[|prepared| - 1] == prepared[|prepared| - 1];
      s := Go(fenced.value);
    }

    /** Record the attempt, then reconcile: a refused order at once, any other through recovery. */
    method FinishOrder(review: Review, lineageId: string, answer: Answer, dispatchAt: int) returns (r: Result<Outcome, Failure>)
      modifies ports
      ensures Grows(old(ports.trace), ports.trace)
      ensures ClearsSafely(old(ports.trace)) ==> ClearsSafely(ports.trace)
      ensures r.Ok? && r.value.verdict == CONFIRMED_FILLED ==> FilledSince(ports.trace, |old(ports.trace)|, lineageId)
      ensures r.Ok? ==> r.value.verdict != DECLINED && r.value.lineageId == Some(lineageId)
      ensures r.Ok? ==> AttemptRecorded(ports.trace, review, lineageId, answer, dispatchAt)
      ensures r.Ok? ==> if IsRefusal(answer) then RejectionRecorded(ports.trace, r.value)
                        else ReportsStatus(ports.trace, |old(ports.trace)|, r.value)
    {
      ghost var start := ports.trace;
      hide ClearsSafely, FilledSince, AttemptRecorded, ReportsStatus;
      var attempt := RecordAttempt(review, lineageId, answer, dispatchAt);
      ghost var before := ports.trace;
      if ClearsSafely(start) { ClearsSafelyLater(start, before); }
      if attempt.Err? {
        return Err(attempt.error);
      }
      if IsRefusal(answer) {
        r := RecordRejection(review, lineageId, attempt.value);
        if ClearsSafely(before) { ClearsSafelyLater(before, ports.trace); }
      } else {
        r := ReconcileOrder(lineageId);
        if r.Ok? { ReportedEarlier(ports.trace, |start|, |before|, r.value); }
        if r.Ok? && r.value.verdict == CONFIRMED_FILLED {
          FilledEarlier(ports.trace, |start|, |before|, lineageId);
        }
      }
      AttemptStays(before, ports.trace, review, lineageId, answer, dispatchAt);
    }

    /** Record what the exchange answered; any attempt appended says just that. */
    method RecordAttempt(review: Review, lineageId: string, answer: Answer, dispatchAt: int) returns (r: Result<Attempt, Failure>)
      modifies ports
      ensures GrowsQuietly(old(ports.trace), ports.trace)
      ensures forall i :: |old(ports.trace)| <= i < |ports.trace| && ports.trace[i].AttemptAppended? ==>
                ports.trace[i].lineageId == lineageId && IsAttemptOf(ports.trace[i].attempt, review)
                && RecordsAnswer(ports.trace[i].attempt, answer, dispatchAt)
      ensures r.Ok? ==> RecordsAnswer(r.value, answer, dispatchAt) && AttemptRecorded(ports.trace, review, lineageId, answer, dispatchAt)
    {
      var built := ports.Built();
      var attemptId: string := *;
      if !built {
        return Err(UnresolvedState);
      }
      var knownRejected := IsRefusal(answer);
      var attempt := Attempt(
        attemptId, review.plan.plan.planHash, review.plan.intent.intentId, review.plan.clientOrderId, dispatchAt,
        if answer.Acknowledged? then answer.status else if knownRejected then Rejected else AckPending,
        if answer.Acknowledged? || !knownRejected then Unverified else RejectedSeen,
        if answer.Acknowledged? then answer.exchangeOrderId else None);
      var now := ports.Now();
      var appended := ports.AppendAttempt(lineageId, attempt);
      if !appended {
        return Err(PortFailure);
      }
      AttemptIsRecorded(ports.trace, review, lineageId, attempt, answer, dispatchAt);
      r := Ok(attempt);
    }

    method RecordRejection(review: Review, lineageId: string, attempt: Attempt) returns (r: Result<Outcome, Failure>)
      requires attempt.acknowledgement == Rejected
      modifies ports
      ensures GrowsQuietly(old(ports.trace), ports.trace)
      ensures r.Ok? ==> r.value.lineageId == Some(lineageId) && RejectionRecorded(ports.trace, r.value)
    {
      var failed := ReconcileAttempt(attempt, None, review.plan.plan);
      if failed.Err? {
        return Err(failed.error);
      }
      var now := ports.Now();
      ghost var before := ports.trace;
      var recorded := ports.AppendReconciliation(lineageId, Reconciliation(failed.value, None));
      if !recorded {
        return Err(PortFailure);
      }
      var released := ports.ReleaseLease();
      if !released {
        return Err(PortFailure);
      }
      assert ports.trace[|before|] == ReconciliationAppended(lineageId, Reconciliation(FAILED, None), true);
      assert ports.trace[|before| + 1] == LeaseReleased(true);
      r := Report(NOT_READY, Some(lineageId), Some(failed.value));
    }

    /** Recover everything recorded, then report how the order's own run ended. */
    method ReconcileOrder(lineageId: string) returns (r: Result<Outcome, Failure>)
      modifies ports
      ensures Grows(old(ports.trace), ports.trace)
      ensures ClearsSafely(old(ports.trace)) ==> ClearsSafely(ports.trace)
      ensures r.Ok? && r.value.verdict == CONFIRMED_FILLED ==>
        && FilledSince(ports.trace, |old(ports.trace)|, lineageId)
        && |ports.trace| > 0 && ports.trace[|ports.trace| - 1] == LeaseReleased(true)
      ensures r.Ok? ==> r.value.verdict != DECLINED && r.value.lineageId == Some(lineageId) && ReportsStatus(ports.trace, |old(ports.trace)|, r.value)
    {
      ghost var start := ports.trace;
      hide ClearsSafely, AllRecovered, FilledSince, ReadsStatus, ReportsStatus;
      var recovered := RecoverPriorRuns(ports, scope);
      ghost var reconciled := ports.trace;
      if recovered.Err? {
        return Err(recovered.error);
      }
      var safe := recovered.value.safeToProceed;
      var latest := ReadOutcome(lineageId);
      if ClearsSafely(reconciled) { ClearsSafelyLater(reconciled, ports.trace); }
      ghost var read := ports.trace;
      if latest.Err? {
        return Err(latest.error);
      }
      if latest.value != Some(RECONCILED) {
        r := ReportUnfinished(lineageId, latest.value);
        if r.Ok? { StatusIsReported(read, ports.trace, |start|, r.value, latest.value); }
        return;
      }
      r := ConfirmFilled(lineageId, safe);
      if ClearsSafely(reconciled) { ClearsSafelyLater(reconciled, ports.trace); }
      if r.Ok? {
        StatusIsReported(read, ports.trace, |start|, r.value, latest.value);
      }
      if r.Ok? && r.value.verdict == CONFIRMED_FILLED {
        FilledNow(start, reconciled, read, ports.trace, lineageId);
      }
    }

    /** The lease is released and the order reported filled only if recovery found it safe and HALT reads inactive. */
    method ConfirmFilled(lineageId: string, safe: bool) returns (r: Result<Outcome, Failure>)
      modifies ports
      ensures GrowsQuietly(old(ports.trace), ports.trace)
      ensures r.Ok? ==> Follows(r.value, Some(RECONCILED)) && r.value.lineageId == Some(lineageId)
      ensures r.Ok? ==>
        && |ports.trace| > |old(ports.trace)| && ports.trace[|old(ports.trace)|].HaltRead? && ports.trace[|old(ports.trace)|].halt.Some?
        && (r.value.verdict == CONFIRMED_FILLED <==> safe && !ports.trace[|old(ports.trace)|].halt.value.active)
      ensures r.Ok? && r.value.verdict == CONFIRMED_FILLED ==> ports.trace[|ports.trace| - 1] == LeaseReleased(true)
    {
      var halt := ports.ReadHalt();
      if halt.None? {
        return Err(PortFailure);
      }
      if !safe || halt.value.active {
        r := Report(UNRESOLVED_ENTRY, Some(lineageId), Some(UNRESOLVED));
        return;
      }
      var released := ports.ReleaseLease();
      if !released {
        return Err(PortFailure);
      }
      r := Report(CONFIRMED_FILLED, Some(lineageId), Some(RECONCILED));
    }

    method ReportUnfinished(lineageId: string, status: Option<RunStatus>) returns (r: Result<Outcome, Failure>)
      requires status != Some(RECONCILED)
      ensures r.Ok? ==> Follows(r.value, status) && r.value.lineageId == Some(lineageId) && r.value.verdict !in {DECLINED, CONFIRMED_FILLED}
    {
      var verdict := if status == None then HALTED else if status == Some(PENDING) || status == Some(PARTIAL) then CONFIRMED_OPEN
                     else UNRESOLVED_ENTRY;
      r := Report(verdict, Some(lineageId), status);
    }

    /** The latest status of the lineage's run, freshly read. */
    method ReadOutcome(lineageId: string) returns (r: Result<Option<RunStatus>, Failure>)
      modifies ports
      ensures GrowsQuietly(old(ports.trace), ports.trace)
      ensures |ports.trace| == |old(ports.trace)| + 1
      ensures r.Ok? ==> ReadsStatus(ports.trace[|old(ports.trace)|], lineageId, r.value)
    {
      var runs := ports.ReadRuns();
      if runs.None? {
        return Err(PortFailure);
      }
      for i := 0 to |runs.value|
        invariant forall k :: 0 <= k < i ==> runs.value[k].lineageId != lineageId
      {
        if runs.value[i].lineageId == lineageId {
          assert ShowsStatus(runs.value, i, lineageId, StatusOf(runs.value[i]));
          return Ok(StatusOf(runs.value[i]));
        }
      }
      r := Err(PersistenceIntegrity);
    }

    /**
     * One run of the entry, whatever the ports answer and wherever it stops: every write is safe and
     * HALT is cleared only safely; declined means no order; confirmed filled means that the order was
     * created and afterwards every recorded run, its own included, was recovered; and an outcome of
     * an order is reported only with an attempt on record that says what the exchange answered, and
     * then it is a recorded refusal or what the run's latest status, read after the order, calls for.
     */
    method Execute(review: Review, approved: bool) returns (r: Result<Outcome, Failure>)
      requires ports.trace == []
      modifies ports
      ensures IsSafe(ports.trace, review) && ClearsSafely(ports.trace)
      ensures !approved ==> ports.trace == []
      ensures r.Ok? && r.value.verdict == DECLINED ==> NoOrders(ports.trace)
      ensures r.Ok? && r.value.verdict == CONFIRMED_FILLED ==> FilledAfterOrder(ports.trace, review)
      ensures r.Ok? && !NoOrders(ports.trace) ==> ReportsOrder(ports.trace, review, r.value)
    {
      hide IsSafe, ClearsSafely, FilledAfterOrder, FilledSince, SameApproved, RecoveredBefore, LastReading, NoOrders, AttemptRecorded,
        RejectionRecorded, ReportsStatus, ReportsOrder, Dispatched;
      NothingYet(review);
      if !approved {
        r := Report(DECLINED, None, None);
        return;
      }
      var prepared := PrepareWrite(review);
      SafeQuietly([], ports.trace, review);
      if prepared.Stop? {
        return prepared.result;
      }
      var (current, lineageId) := prepared.value;
      ghost var first := ports.trace;
      var leveraged := EnsureLeverage(review, current, lineageId);
      if leveraged.Stop? {
        return leveraged.result;
      }
      RecoveredBeforeLater(first, ports.trace);
      KeptIn(first, ports.trace, LineagePrepared(review.plan.plan, Some(lineageId)));
      var dispatched := Dispatch(review, leveraged.value, lineageId);
      if dispatched.Stop? {
        return dispatched.result;
      }
      ghost var created := ports.trace;
      var (answer, dispatchAt) := dispatched.value;
      DispatchedIsCreated(created, review, answer, dispatchAt);
      r := FinishOrder(review, lineageId, answer, dispatchAt);
      SafeQuietly(created, ports.trace, review);
      if r.Ok? {
        OrderIsReported(created, ports.trace, review, r.value, answer, dispatchAt);
      }
      if r.Ok? && r.value.verdict == CONFIRMED_FILLED {
        FilledAfterCreation(created, ports.trace, review, lineageId);
      }
    }
  }

  /** A refused order was recorded as FAILED and the lease released. */
  ghost predicate RejectionRecorded(t: Trace, o: Outcome) {
    && o.lineageId.Some? && o == Outcome(NOT_READY, o.lineageId, Some(FAILED))
    && ReconciliationAppended(o.lineageId.value, Reconciliation(FAILED, None), true) in t && LeaseReleased(true) in t
  }

  /** The exchange refused the order; any other failure leaves open whether it was created. */
  predicate IsRefusal(answer: Answer) {
    answer.Failed? && answer.kind in {Permission, Precondition, ExchangeError}
  }

  /** The attempt says what the exchange answered, and when the order was fenced. */
  ghost predicate RecordsAnswer(attempt: Attempt, answer: Answer, dispatchAt: int) {
    && attempt.submittedAt == dispatchAt
    && match answer
       case Acknowledged(status, exchangeOrderId) =>
         attempt.acknowledgement == status && attempt.exchangeOrderId == exchangeOrderId && attempt.terminalStatus == Unverified
       case Failed(kind) =>
         && attempt.exchangeOrderId == None
         && (attempt.acknowledgement == Rejected <==> kind == Permission || kind == Precondition || kind == ExchangeError)
         && (attempt.terminalStatus == RejectedSeen <==> attempt.acknowledgement == Rejected)
         && (attempt.acknowledgement != Rejected ==> attempt.acknowledgement == AckPending && attempt.terminalStatus == Unverified)
  }

  /** The order was created at `i`, fenced at this time, and answered so. */
  ghost predicate Dispatched(t: Trace, i: int, review: Review, answer: Answer, at: int) {
    && 3 <= i && i + 1 < |t| && t[i - 3] == ClockRead(at)
    && t[i] == OrderCreated(review.plan.intent, review.plan.clientOrderId) && t[i + 1] == OrderAnswered(answer)
  }

  /** An attempt of the order that records its answer is durable. */
  ghost predicate AttemptRecorded(t: Trace, review: Review, lineageId: string, answer: Answer, at: int) {
    exists attempt :: IsAttemptOf(attempt, review) && RecordsAnswer(attempt, answer, at) && AttemptAppended(lineageId, attempt, true) in t
  }

  /** The outcome is one of the order created, whose answer is on record: the refusal, or what its run's latest status calls for. */
  ghost predicate ReportsOrder(t: Trace, review: Review, o: Outcome) {
    exists i, answer, at :: ReportsOrderAt(t, review, o, i, answer, at)
  }

  ghost predicate ReportsOrderAt(t: Trace, review: Review, o: Outcome, i: int, answer: Answer, at: int) {
    && Dispatched(t, i, review, answer, at)
    && o.lineageId.Some? && AttemptRecorded(t, review, o.lineageId.value, answer, at)
    && if IsRefusal(answer) then RejectionRecorded(t, o) else ReportsStatus(t, i + 1, o)
  }

  lemma OrderIsReported(created: Trace, t: Trace, review: Review, o: Outcome, answer: Answer, at: int)
    requires Dispatched(created, |created| - 2, review, answer, at) && Continues(created, t)
    requires o.lineageId.Some? && AttemptRecorded(t, review, o.lineageId.value, answer, at)
    requires if IsRefusal(answer) then RejectionRecorded(t, o) else ReportsStatus(t, |created|, o)
    ensures ReportsOrder(t, review, o)
  {
    hide AttemptRecorded, RejectionRecorded, ReportsStatus;
    var i := |created| - 2;
    assert t[i] == created[i] && t[i + 1] == created[i + 1] && t[i - 3] == created[i - 3];
    if !IsRefusal(answer) {
      ReportedEarlier(t, i + 1, |created|, o);
    }
    assert ReportsOrderAt(t, review, o, i, answer, at);
  }

  lemma DispatchedIsCreated(created: Trace, review: Review, answer: Answer, at: int)
    requires Dispatched(created, |created| - 2, review, answer, at)
    ensures OrderCreated(review.plan.intent, review.plan.clientOrderId) in created
  {
  }

  predicate IsAttemptOf(attempt: Attempt, review: Review) {
    && attempt.planHash == review.plan.plan.planHash && attempt.intentId == review.plan.intent.intentId
    && attempt.clientOrderId == review.plan.clientOrderId
  }

  lemma AttemptIsRecorded(t: Trace, review: Review, lineageId: string, attempt: Attempt, answer: Answer, at: int)
    requires IsAttemptOf(attempt, review) && RecordsAnswer(attempt, answer, at)
    requires |t| > 0 && t[|t| - 1] == AttemptAppended(lineageId, attempt, true)
    ensures AttemptRecorded(t, review, lineageId, answer, at)
  {
    hide IsAttemptOf, RecordsAnswer;
  }

  lemma AttemptStays(before: Trace, after: Trace, review: Review, lineageId: string, answer: Answer, at: int)
    requires AttemptRecorded(before, review, lineageId, answer, at) && Continues(before, after)
    ensures AttemptRecorded(after, review, lineageId, answer, at)
  {
    hide IsAttemptOf, RecordsAnswer;
    var attempt :| IsAttemptOf(attempt, review) && RecordsAnswer(attempt, answer, at) && AttemptAppended(lineageId, attempt, true) in before;
    KeptIn(before, after, AttemptAppended(lineageId, attempt, true));
  }

  lemma NothingYet(review: Review)
    ensures IsSafe([], review) && ClearsSafely([]) && NoWrites([]) && NoOrders([])
  {
  }

  lemma KeptIn(before: Trace, after: Trace, e: Event)
    requires e in before && Continues(before, after)
    ensures e in after
  {
    var i :| 0 <= i < |before| && before[i] == e;
    assert after[i] == e;
  }

  function StatusOf(run: Run): Option<RunStatus> {
    match Latest(run) case None => None case Some(latest) => Some(latest.status)
  }

  /** The runs read show this latest status of the lineage's run. */
  ghost predicate ReadsStatus(e: Event, lineageId: string, latest: Option<RunStatus>) {
    e.RunsRead? && e.runs.Some? && exists i :: ShowsStatus(e.runs.value, i, lineageId, latest)
  }

  ghost predicate ShowsStatus(runs: seq<Run>, i: int, lineageId: string, latest: Option<RunStatus>) {
    && 0 <= i < |runs| && runs[i].lineageId == lineageId && StatusOf(runs[i]) == latest
    && forall k :: 0 <= k < i ==> runs[k].lineageId != lineageId
  }

  /** The verdict on an order is the one its latest status calls for. */
  predicate Follows(o: Outcome, latest: Option<RunStatus>) {
    if latest == Some(RECONCILED) then
      (o.verdict == CONFIRMED_FILLED && o.reconciliation == latest) || (o.verdict == UNRESOLVED_ENTRY && o.reconciliation == Some(UNRESOLVED))
    else
      && o.reconciliation == latest
      && (o.verdict == HALTED <==> latest == None)
      && (o.verdict == CONFIRMED_OPEN <==> latest in {Some(PENDING), Some(PARTIAL)})
      && o.verdict in {HALTED, CONFIRMED_OPEN, UNRESOLVED_ENTRY}
  }

  /** Since `from` the lineage's run was read with the status the outcome reports. */
  ghost predicate ReportsStatus(t: Trace, from: nat, o: Outcome) {
    o.lineageId.Some? && exists k, latest :: from <= k < |t| && ReadsStatus(t[k], o.lineageId.value, latest) && Follows(o, latest)
  }

  lemma StatusIsReported(read: Trace, t: Trace, from: nat, o: Outcome, latest: Option<RunStatus>)
    requires from < |read| && Continues(read, t) && o.lineageId.Some?
    requires ReadsStatus(read[|read| - 1], o.lineageId.value, latest) && Follows(o, latest)
    ensures ReportsStatus(t, from, o)
  {
    hide ReadsStatus, Follows;
    assert t[|read| - 1] == read[|read| - 1];
  }

  lemma ReportedEarlier(t: Trace, from: nat, later: nat, o: Outcome)
    requires ReportsStatus(t, later, o) && from <= later
    ensures ReportsStatus(t, from, o)
  {
    hide ReadsStatus, Follows;
  }

  /** Since `from`, every recorded run was recovered, and then the lineage's own run read as reconciled. */
  ghost predicate FilledSince(t: Trace, from: nat, lineageId: string) {
    exists b, k :: FilledAt(t, from, b, k, lineageId)
  }

  ghost predicate FilledAt(t: Trace, from: nat, b: int, k: int, lineageId: string) {
    from <= b < k < |t| && AllRecovered(t, b) && ReadsStatus(t[k], lineageId, Some(RECONCILED))
  }

  ghost predicate FilledAfterOrder(t: Trace, review: Review) {
    exists i, lineageId :: OrderThenFilled(t, i, lineageId, review)
  }

  ghost predicate OrderThenFilled(t: Trace, i: int, lineageId: string, review: Review) {
    0 <= i < |t| && t[i] == OrderCreated(review.plan.intent, review.plan.clientOrderId) && FilledSince(t, i + 1, lineageId)
  }

  lemma FilledEarlier(t: Trace, from: nat, later: nat, lineageId: string)
    requires FilledSince(t, later, lineageId) && from <= later
    ensures FilledSince(t, from, lineageId)
  {
    hide AllRecovered, ReadsStatus;
    var b, k :| FilledAt(t, later, b, k, lineageId);
    assert FilledAt(t, from, b, k, lineageId);
  }

  lemma FilledNow(start: Trace, reconciled: Trace, read: Trace, t: Trace, lineageId: string)
    requires Continues(start, reconciled) && Continues(reconciled, read) && Continues(read, t)
    requires AllRecovered(reconciled, |start|) && |read| == |reconciled| + 1 && ReadsStatus(read[|reconciled|], lineageId, Some(RECONCILED))
    ensures FilledSince(t, |start|, lineageId)
  {
    AllRecoveredLater(reconciled, t, |start|);
    hide AllRecovered, ReadsStatus;
    assert t[|reconciled|] == read[|reconciled|];
    assert FilledAt(t, |start|, |start|, |reconciled|, lineageId);
  }

  lemma FilledAfterCreation(created: Trace, t: Trace, review: Review, lineageId: string)
    requires OrderCreated(review.plan.intent, review.plan.clientOrderId) in created && Continues(created, t)
    requires FilledSince(t, |created|, lineageId)
    ensures FilledAfterOrder(t, review)
  {
    var i :| 0 <= i < |created| && created[i] == OrderCreated(review.plan.intent, review.plan.clientOrderId);
    FilledEarlier(t, i + 1, |created|, lineageId);
    assert t[i] == created[i];
    assert OrderThenFilled(t, i, lineageId, review);
  }

  lemma SafeWithoutWrites(t: Trace, review: Review)
    requires NoWrites(t)
    ensures IsSafe(t, review) && NoOrders(t)
  {
  }

  lemma LeverageIsSafe(t: Trace, review: Review)
    requires NoWrites(t) && RecoveredBefore(t) && Fenced(t, review.approvalExpiresAt)
    ensures WriteIsSafe(t, LeverageSet(review.symbol), review)
  {
  }

  lemma OrderIsSafe(t: Trace, review: Review)
    requires NoOrders(t) && RecoveredBefore(t) && Fenced(t, review.approvalExpiresAt) && Durable(t, review) && ReadAsApproved(t, review)
    ensures WriteIsSafe(t, OrderCreated(review.plan.intent, review.plan.clientOrderId), review)
  {
  }

  lemma ClearsAfterWrite(before: Trace, e: Event, after: Trace)
    requires ClearsSafely(before) && IsWrite(e) && GrowsQuietly(before + [e], after)
    ensures ClearsSafely(after)
  {
    hide HasClearance;
    var written := before + [e];
    forall i | ClearedAt(after, i)
      ensures HasClearance(after[..i], after[i].revision)
    {
      assert after[i] == written[i] && after[..i] == before[..i] && ClearedAt(before, i);
    }
  }

  lemma StillSafe(before: Trace, after: Trace, review: Review)
    requires IsSafe(before, review) && NoOrders(before) && GrowsQuietly(before, after)
    ensures IsSafe(after, review) && NoOrders(after) && Continues(before, after)
    ensures ClearsSafely(before) ==> ClearsSafely(after)
  {
    hide IsSafe, NoOrders, ClearsSafely;
    SafeQuietly(before, after, review);
    if ClearsSafely(before) {
      ClearsSafelyLater(before, after);
    }
  }

  lemma ClearsAfterOrder(before: Trace, intent: Intent, clientOrderId: string)
    requires ClearsSafely(before)
    ensures ClearsSafely(before + [OrderCreated(intent, clientOrderId)])
  {
    ClearsAfterWrite(before, OrderCreated(intent, clientOrderId), before + [OrderCreated(intent, clientOrderId)]);
  }

  /** After a fence, with nothing read or written since the leverage was proven, the order is safe. */
  lemma OrderAfterFence(start: Trace, ready: Trace, review: Review, current: ExchangeState, lineageId: string)
    requires IsSafe(start, review) && NoOrders(start) && RecoveredBefore(start) && GrowsQuietly(start, ready)
    requires LastReading(start, current) && LeverageIsOne(current) && SameApproved(review.state, current, review.plan, true)
    requires LineagePrepared(review.plan.plan, Some(lineageId)) in start && Fenced(ready, review.approvalExpiresAt)
    requires forall i :: |start| <= i < |ready| ==> !ready[i].StateRead?
    requires IntentPrepared(lineageId, review.plan.intent.intentId, review.plan.clientOrderId, true) in ready
    ensures var after := ready + [OrderCreated(review.plan.intent, review.plan.clientOrderId)];
      && IsSafe(after, review) && Continues(start, after)
      && OrderCreated(review.plan.intent, review.plan.clientOrderId) in after
      && (ClearsSafely(ready) ==> ClearsSafely(after))
  {
    hide RecoveredBefore, SameApproved, Fenced, WriteIsSafe, LastReading, Durable, ReadAsApproved, IsSafe, NoOrders, ClearsSafely;
    if ClearsSafely(ready) {
      ClearsAfterOrder(ready, review.plan.intent, review.plan.clientOrderId);
    }
    SafeQuietly(start, ready, review);
    RecoveredBeforeLater(start, ready);
    IntentIsDurable(start, ready, review, lineageId);
    ReadingKept(start, ready, current, review);
    OrderIsSafe(ready, review);
    SafeWrite(ready, OrderCreated(review.plan.intent, review.plan.clientOrderId), review);
  }

  /** The answer changes nothing of what was safe. */
  lemma AnswerAfterOrder(start: Trace, ready: Trace, t: Trace, review: Review, answer: Answer, at: int)
    requires |ready| >= 3 && ready[|ready| - 3] == ClockRead(at)
    requires var created := ready + [OrderCreated(review.plan.intent, review.plan.clientOrderId)];
      IsSafe(created, review) && Continues(start, created) && t == created + [OrderAnswered(answer)]
    ensures IsSafe(t, review) && Continues(start, t) && Dispatched(t, |t| - 2, review, answer, at)
    ensures ClearsSafely(ready + [OrderCreated(review.plan.intent, review.plan.clientOrderId)]) ==> ClearsSafely(t)
  {
    hide IsSafe, ClearsSafely;
    var created := ready + [OrderCreated(review.plan.intent, review.plan.clientOrderId)];
    SafeQuietly(created, t, review);
    if ClearsSafely(created) {
      ClearsSafelyLater(created, t);
    }
  }

  lemma IntentIsDurable(start: Trace, t: Trace, review: Review, lineageId: string)
    requires LineagePrepared(review.plan.plan, Some(lineageId)) in start && Continues(start, t)
    requires IntentPrepared(lineageId, review.plan.intent.intentId, review.plan.clientOrderId, true) in t
    ensures Durable(t, review)
  {
    var i :| 0 <= i < |start| && start[i] == LineagePrepared(review.plan.plan, Some(lineageId));
    assert t[i] == LineagePrepared(review.plan.plan, Some(lineageId));
  }

  lemma ReadNow(t: Trace, s: ExchangeState, target: string)
    requires |t| > 0 && t[|t| - 1] == StateRead(target, Some(s))
    ensures LastReading(t, s)
  {
    assert ReadingAt(t, |t| - 1, s);
  }

  lemma ReadingStays(before: Trace, after: Trace, s: ExchangeState)
    requires LastReading(before, s) && Continues(before, after)
    requires forall m :: |before| <= m < |after| ==> !after[m].StateRead? && !after[m].LeverageSet?
    ensures LastReading(after, s)
  {
    var k :| ReadingAt(before, k, s);
    assert ReadingAt(after, k, s);
  }

  lemma ReadingKept(start: Trace, t: Trace, s: ExchangeState, review: Review)
    requires LastReading(start, s) && Continues(start, t)
    requires LeverageIsOne(s) && SameApproved(review.state, s, review.plan, true)
    requires forall m :: |start| <= m < |t| ==> !t[m].StateRead? && !t[m].LeverageSet?
    ensures ReadAsApproved(t, review)
  {
    hide SameApproved, LastReading;
    ReadingStays(start, t, s);
  }
}
