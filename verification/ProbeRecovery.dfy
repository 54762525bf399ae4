/**
 * Recovery of an interrupted probe run (scripts/bybit-probe/recovery.ts) with the order
 * reconciliation (scenarios.ts) and the cleanup writes (cleanup.ts) it uses.  Every call may throw or
 * answer anything; a ghost trace records each.
 */
module ProbeRecovery {
  import opened Common
  import Decimals
  import opened DecimalText
  import opened Canonical
  import opened ProbePlans
  import opened Exposure
  import Sizing
  import StepRounding

  datatype ExchangeOrder = ExchangeOrder(orderId: string, orderLinkId: string, orderStatus: string)

  datatype Query = Query(orderLinkId: string, exchangeOrderId: Option<string>, category: string, symbol: string)

  datatype Verdict = CONFIRMED_CLEAN | UNRESOLVED | PRECONDITION_FAILED | CONTRADICTION

  /** A saved intent: its plan without the account, whose digest stands beside it. */
  datatype SavedIntent = SavedIntent(
    attemptId: string, accountHash: Digest, plan: ProbePlan, planDigest: Digest, exchangeOrderId: Option<string>,
    orderLinkId: Option<string>, baselineSignedQty: Option<string>)

  datatype SavedRun = SavedRun(runId: string, verdict: Option<Verdict>, intents: seq<SavedIntent>)

  datatype Ownership = Ownership(
    currentSignedQty: string, ownedOrderIds: seq<string>, protectiveExitOrderIds: seq<string>, executionFingerprints: seq<string>)

  datatype OwnedState = OwnedState(baselineSignedQty: string, current: Ownership, executions: seq<OwnedExecution>)

  datatype PositionRow = PositionRow(size: Option<string>, side: Option<string>)

  /** An answer of the exchange: none, one without a list, or a list. */
  datatype Reply<T> = Threw | NoList | Listed(items: seq<T>)

  datatype Thrown = Thrown

  datatype ProbeEvent =
    | LockTaken(done: bool)
    | LockReleased
    | RunsListed(runs: Option<seq<SavedRun>>)
    | LookedUp(query: Query, history: bool, reply: Reply<ExchangeOrder>)
    | OrdersRead(category: string, symbol: string, orders: Reply<ExchangeOrder>)
    | PositionsRead(category: string, symbol: string, positions: Reply<PositionRow>)
    | OwnershipRead(state: Option<OwnedState>)
    | TimeRead(now: int)
    | Authorized(plan: ProbePlan, approval: ProbeApproval)
    | AuthorizationThrew
    | IntentStored(plan: ProbePlan, digest: Digest)
    | IntentUpdated(attemptId: string, exchangeOrderId: string)
    | VerdictWritten(verdict: Verdict)
    | Posted(plan: ProbePlan)

  type ProbeTrace = seq<ProbeEvent>

  predicate IsTerminal(o: ExchangeOrder) {
    o.orderStatus in {"Filled", "Cancelled", "Rejected", "Deactivated"}
  }

  predicate IsMatch(o: ExchangeOrder, q: Query) {
    o.orderLinkId == q.orderLinkId && (q.exchangeOrderId.Some? ==> o.orderId == q.exchangeOrderId.value)
  }

  function MatchingOrders(orders: seq<ExchangeOrder>, q: Query): seq<ExchangeOrder> {
    if orders == [] then []
    else MatchingOrders(orders[..|orders| - 1], q) + if IsMatch(orders[|orders| - 1], q) then [orders[|orders| - 1]] else []
  }

  function ActiveOrders(orders: seq<ExchangeOrder>): seq<ExchangeOrder> {
    if orders == [] then []
    else ActiveOrders(orders[..|orders| - 1]) + if IsTerminal(orders[|orders| - 1]) then [] else [orders[|orders| - 1]]
  }

  datatype Selection = NoOrder | OneOrder(order: ExchangeOrder) | Ambiguous

  function SelectOrder(candidates: seq<ExchangeOrder>): Selection {
    if candidates == [] then NoOrder
    else if |candidates| == 1 then OneOrder(candidates[0])
    else if |ActiveOrders(candidates)| == 1 then OneOrder(ActiveOrders(candidates)[0])
    else Ambiguous
  }

  lemma {:induction false} MatchingMembers(orders: seq<ExchangeOrder>, q: Query)
    ensures forall o :: o in MatchingOrders(orders, q) <==> o in orders && IsMatch(o, q)
  {
    if orders != [] {
      var init, last := orders[..|orders| - 1], orders[|orders| - 1];
      MatchingMembers(init, q);
      assert forall o :: o in orders <==> o in init || o == last;
    }
  }

  lemma {:induction false} ActiveMembers(orders: seq<ExchangeOrder>)
    ensures forall o :: o in ActiveOrders(orders) <==> o in orders && !IsTerminal(o)
  {
    if orders != [] {
      hide IsTerminal;
      var init, last := orders[..|orders| - 1], orders[|orders| - 1];
      ActiveMembers(init);
      assert forall o :: o in orders <==> o in init || o == last;
    }
  }

  /** The order selected matches the query, and is the only match or the only active one. */
  lemma SelectedOrder(orders: seq<ExchangeOrder>, q: Query)
    requires SelectOrder(MatchingOrders(orders, q)).OneOrder?
    ensures var o := SelectOrder(MatchingOrders(orders, q)).order;
      && o in orders && IsMatch(o, q)
      && forall p :: p in orders && IsMatch(p, q) && !IsTerminal(p) ==> p == o
  {
    var matches := MatchingOrders(orders, q);
    MatchingMembers(orders, q);
    ActiveMembers(matches);
    hide IsTerminal, MatchingOrders, ActiveOrders, IsMatch;
    if |matches| == 1 {
      assert matches[0] in matches;
    } else {
      var active := ActiveOrders(matches);
      assert active[0] in active;
    }
  }

  // ------------------------------------------------------------------- ports

  class ProbePorts {
    ghost var trace: ProbeTrace

    constructor ()
      ensures trace == []
    {
      trace := [];
    }

    method TakeLock() returns (done: bool)
      modifies this
      ensures trace == old(trace) + [LockTaken(done)]
    {
      done := *;
      trace := trace + [LockTaken(done)];
    }

    method ReleaseLock()
      modifies this
      ensures trace == old(trace) + [LockReleased]
    {
      trace := trace + [LockReleased];
    }

    method ListRuns() returns (runs: Option<seq<SavedRun>>)
      modifies this
      ensures trace == old(trace) + [RunsListed(runs)]
    {
      runs := *;
      trace := trace + [RunsListed(runs)];
    }

    method LookUp(query: Query, history: bool) returns (r: Reply<ExchangeOrder>)
      modifies this
      ensures trace == old(trace) + [LookedUp(query, history, r)]
    {
      r := *;
      trace := trace + [LookedUp(query, history, r)];
    }

    method ReadOrders(category: string, symbol: string) returns (r: Reply<ExchangeOrder>)
      modifies this
      ensures trace == old(trace) + [OrdersRead(category, symbol, r)]
    {
      r := *;
      trace := trace + [OrdersRead(category, symbol, r)];
    }

    method ReadPositions(category: string, symbol: string) returns (r: Reply<PositionRow>)
      modifies this
      ensures trace == old(trace) + [PositionsRead(category, symbol, r)]
    {
      r := *;
      trace := trace + [PositionsRead(category, symbol, r)];
    }

    method ReadOwnership() returns (r: Option<OwnedState>)
      modifies this
      ensures trace == old(trace) + [OwnershipRead(r)]
    {
      r := *;
      trace := trace + [OwnershipRead(r)];
    }

    method Now() returns (now: int)
      modifies this
      ensures trace == old(trace) + [TimeRead(now)]
    {
      now := *;
      trace := trace + [TimeRead(now)];
    }

    method Authorize(plan: ProbePlan) returns (approval: Option<ProbeApproval>)
      modifies this
      ensures trace == old(trace) + [if approval.Some? then Authorized(plan, approval.value) else AuthorizationThrew]
    {
      approval := *;
      trace := trace + [if approval.Some? then Authorized(plan, approval.value) else AuthorizationThrew];
    }

    /** Stores the intent, or throws without a record of it. */
    method StoreIntent(plan: ProbePlan, digest: Digest) returns (done: bool)
      modifies this
      ensures done ==> trace == old(trace) + [IntentStored(plan, digest)]
      ensures !done ==> trace == old(trace)
    {
      done := *;
      if done {
        trace := trace + [IntentStored(plan, digest)];
      }
    }

    method UpdateIntent(attemptId: string, exchangeOrderId: string) returns (done: bool)
      modifies this
      ensures trace == old(trace) + [IntentUpdated(attemptId, exchangeOrderId)]
    {
      done := *;
      trace := trace + [IntentUpdated(attemptId, exchangeOrderId)];
    }

    method WriteVerdict(verdict: Verdict) returns (done: bool)
      modifies this
      ensures trace == old(trace) + [VerdictWritten(verdict)]
    {
      done := *;
      trace := trace + [VerdictWritten(verdict)];
    }

    /** A write to the exchange; it may take effect even if it throws. */
    method Post(plan: ProbePlan) returns (done: bool)
      modifies this
      ensures trace == old(trace) + [Posted(plan)]
    {
      done := *;
      trace := trace + [Posted(plan)];
    }
  }

  // ------------------------------------------------------------------ plans

  datatype RecoveryContext = RecoveryContext(runId: string, accountId: string, environment: string, realtimeAttempts: nat, historyAttempts: nat)

  function SideName(side: Sizing.Side): string {
    if side == Sizing.Buy then "Buy" else "Sell"
  }

  function AsSet(s: seq<string>): set<string> {
    set x | x in s
  }

  /** The reading before the flatten order agrees with the one it was derived from. */
  predicate SameOwnership(a: Ownership, b: Ownership) {
    && ParseDecimal(a.currentSignedQty).Ok? && ParseDecimal(b.currentSignedQty).Ok?
    && StepRounding.CompareDecimals(ParseDecimal(a.currentSignedQty).value, ParseDecimal(b.currentSignedQty).value) == Ok(0)
    && AsSet(a.ownedOrderIds) == AsSet(b.ownedOrderIds)
    && AsSet(a.protectiveExitOrderIds) == AsSet(b.protectiveExitOrderIds)
    && AsSet(a.executionFingerprints) == AsSet(b.executionFingerprints)
  }

  /** The same position, of the same orders and executions. */
  ghost predicate ReadAlike(a: Ownership, b: Ownership) {
    && ParseDecimal(a.currentSignedQty).Ok? && ParseDecimal(b.currentSignedQty).Ok?
    && Decimals.Value(ParseDecimal(a.currentSignedQty).value) == Decimals.Value(ParseDecimal(b.currentSignedQty).value)
    && (forall id :: id in a.ownedOrderIds <==> id in b.ownedOrderIds)
    && (forall id :: id in a.protectiveExitOrderIds <==> id in b.protectiveExitOrderIds)
    && (forall x :: x in a.executionFingerprints <==> x in b.executionFingerprints)
  }

  lemma SameIsReadAlike(a: Ownership, b: Ownership)
    requires SameOwnership(a, b)
    ensures ReadAlike(a, b)
  {
    BoundedMeaning(ParseDecimal(a.currentSignedQty).value, ParseDecimal(b.currentSignedQty).value);
    assert forall id :: id in AsSet(a.ownedOrderIds) <==> id in a.ownedOrderIds;
    assert forall id :: id in AsSet(a.protectiveExitOrderIds) <==> id in a.protectiveExitOrderIds;
    assert forall id :: id in AsSet(a.executionFingerprints) <==> id in a.executionFingerprints;
    hide ParseDecimal, Decimals.Value;
  }

  /** Every execution is of an order known to be the run's, under the link ID known for it or one of the run. */
  predicate ExecutionsOwned(context: RecoveryContext, state: OwnedState, identities: map<string, string>) {
    forall x :: x in state.executions ==>
      && (x.orderId in state.current.ownedOrderIds || x.orderId in state.current.protectiveExitOrderIds)
      && (if x.orderId in identities then identities[x.orderId] == x.orderLinkId else context.runId + "-" <= x.orderLinkId)
  }

  function FlattenFields(category: string, symbol: string, side: Sizing.Side, orderLinkId: string, qty: string): seq<(string, Json)> {
    [("category", Text(category)), ("symbol", Text(symbol)), ("side", Text(SideName(side))), ("orderLinkId", Text(orderLinkId)),
     ("qty", Text(qty)), ("orderType", Text("Market")), ("timeInForce", Text("IOC")), ("reduceOnly", Boolean(true)), ("positionIdx", Number(0))]
  }

  function TextOf(j: Json): Option<string> {
    match j case Text(t) => Some(t) case _ => None
  }

  function ParamOf(intent: SavedIntent, field: string): Option<string> {
    match intent.plan.params case Object(entries) => TextOf(Lookup(entries, field)) case _ => None
  }

  function OrderLinkOf(intent: SavedIntent): Option<string> {
    if intent.orderLinkId.Some? then intent.orderLinkId else ParamOf(intent, "orderLinkId")
  }

  /** The lookup of an intent's order, if its identity is complete. */
  function QueryOf(intent: SavedIntent): Option<Query> {
    var orderLinkId, category, symbol := OrderLinkOf(intent), ParamOf(intent, "category"), ParamOf(intent, "symbol");
    if orderLinkId.Some? && category.Some? && symbol.Some?
    then Some(Query(orderLinkId.value, intent.exchangeOrderId, category.value, symbol.value))
    else None
  }

  function FindRun(runs: seq<SavedRun>, runId: string): Option<SavedRun> {
    if runs == [] then None else if runs[0].runId == runId then Some(runs[0]) else FindRun(runs[1..], runId)
  }

  function CancelFields(category: string, symbol: string, side: string, order: ExchangeOrder): seq<(string, Json)> {
    [("category", Text(category)), ("symbol", Text(symbol)), ("side", Text(side)), ("orderId", Text(order.orderId)),
     ("orderLinkId", Text(order.orderLinkId)), ("positionIdx", Number(0))]
  }

  predicate IsCancelPlan(plan: ProbePlan, context: RecoveryContext, expiresAt: int, category: string, symbol: string, side: string, order: ExchangeOrder) {
    BuildProbePlan(context.environment, context.accountId, "cleanup-cancel-entry", expiresAt, "POST", "/v5/order/cancel",
                   CancelFields(category, symbol, side, order)) == Ok(plan)
  }

  predicate IsFlattenPlan(plan: ProbePlan, context: RecoveryContext, expiresAt: int, category: string, symbol: string, side: Sizing.Side,
                          orderLinkId: string, qty: string) {
    BuildProbePlan(context.environment, context.accountId, "cleanup-flatten-exposure", expiresAt, "POST", "/v5/order/create",
                   FlattenFields(category, symbol, side, orderLinkId, qty)) == Ok(plan)
  }

  lemma {:induction false} LookupFirst(entries: seq<(string, Json)>, i: nat)
    requires i < |entries| && forall k :: 0 <= k < i ==> entries[k].0 != entries[i].0
    ensures Lookup(entries, entries[i].0) == entries[i].1
  {
    if i > 0 {
      LookupFirst(entries[1..], i - 1);
    }
  }

  lemma CancelFieldsSet(category: string, symbol: string, side: string, order: ExchangeOrder)
    ensures var fields := CancelFields(category, symbol, side, order);
      && Lookup(fields, "category") == Text(category) && Lookup(fields, "symbol") == Text(symbol)
      && Lookup(fields, "orderId") == Text(order.orderId) && Lookup(fields, "orderLinkId") == Text(order.orderLinkId)
  {
    var fields := CancelFields(category, symbol, side, order);
    LookupFirst(fields, 0);
    LookupFirst(fields, 1);
    LookupFirst(fields, 3);
    LookupFirst(fields, 4);
  }

  lemma FlattenFieldsSet(category: string, symbol: string, side: Sizing.Side, orderLinkId: string, qty: string)
    ensures var fields := FlattenFields(category, symbol, side, orderLinkId, qty);
      && Lookup(fields, "category") == Text(category) && Lookup(fields, "symbol") == Text(symbol)
      && Lookup(fields, "side") == Text(if side == Sizing.Buy then "Buy" else "Sell")
      && Lookup(fields, "qty") == Text(qty)
  {
    hide Lookup;
    var fields := FlattenFields(category, symbol, side, orderLinkId, qty);
    LookupFirst(fields, 0);
    LookupFirst(fields, 1);
    LookupFirst(fields, 2);
    LookupFirst(fields, 4);
  }

  lemma FlattenReduces(category: string, symbol: string, side: Sizing.Side, orderLinkId: string, qty: string)
    ensures var fields := FlattenFields(category, symbol, side, orderLinkId, qty);
      Lookup(fields, "reduceOnly") == Boolean(true) && Lookup(fields, "orderType") == Text("Market")
  {
    hide Lookup;
    var fields := FlattenFields(category, symbol, side, orderLinkId, qty);
    LookupFirst(fields, 5);
    LookupFirst(fields, 7);
  }

  /** What is sent of field `i` of the allowed ones, if it is no decimal and set in `params`. */
  lemma SentAsIs(plan: ProbePlan, context: RecoveryContext, scenario: string, expiresAt: int, endpoint: string, params: seq<(string, Json)>, i: nat)
    requires BuildProbePlan(context.environment, context.accountId, scenario, expiresAt, "POST", endpoint, params) == Ok(plan)
    requires i < |ALLOWED_FIELDS| && !IsDecimalField(ALLOWED_FIELDS[i])
    ensures Sent(plan, ALLOWED_FIELDS[i]) == Lookup(params, ALLOWED_FIELDS[i])
    ensures plan.httpMethod == "POST" && plan.endpoint == endpoint
  {
    BuiltPlanSends(context.environment, context.accountId, scenario, expiresAt, "POST", endpoint, params, ALLOWED_FIELDS[i]);
    hide BuildProbePlan, Lookup, Sent, IsDecimalField;
    assert ALLOWED_FIELDS[i] in ALLOWED_FIELDS;
  }

  /** A cancel plan asks to cancel the very order. */
  lemma CancelPlanMeaning(plan: ProbePlan, context: RecoveryContext, expiresAt: int, category: string, symbol: string, side: string, order: ExchangeOrder)
    requires IsCancelPlan(plan, context, expiresAt, category, symbol, side, order)
    ensures plan.httpMethod == "POST" && plan.endpoint == "/v5/order/cancel"
    ensures Sent(plan, "category") == Text(category) && Sent(plan, "symbol") == Text(symbol)
    ensures Sent(plan, "orderId") == Text(order.orderId) && Sent(plan, "orderLinkId") == Text(order.orderLinkId)
  {
    var fields := CancelFields(category, symbol, side, order);
    CancelFieldsSet(category, symbol, side, order);
    hide BuildProbePlan, Lookup, Sent, CancelFields;
    SentAsIs(plan, context, "cleanup-cancel-entry", expiresAt, "/v5/order/cancel", fields, 0);
    SentAsIs(plan, context, "cleanup-cancel-entry", expiresAt, "/v5/order/cancel", fields, 1);
    SentAsIs(plan, context, "cleanup-cancel-entry", expiresAt, "/v5/order/cancel", fields, 3);
    SentAsIs(plan, context, "cleanup-cancel-entry", expiresAt, "/v5/order/cancel", fields, 4);
  }

  /** A flatten plan asks for a market order that only reduces, on the given side and over the given quantity. */
  lemma FlattenPlanMeaning(plan: ProbePlan, context: RecoveryContext, expiresAt: int, category: string, symbol: string, side: Sizing.Side,
                           orderLinkId: string, qty: string)
    requires IsFlattenPlan(plan, context, expiresAt, category, symbol, side, orderLinkId, qty)
    ensures plan.httpMethod == "POST" && plan.endpoint == "/v5/order/create"
    ensures Sent(plan, "category") == Text(category) && Sent(plan, "symbol") == Text(symbol)
    ensures Sent(plan, "side") == Text(if side == Sizing.Buy then "Buy" else "Sell")
    ensures Sent(plan, "orderType") == Text("Market") && Sent(plan, "reduceOnly") == Boolean(true)
    ensures ParseDecimal(qty).Ok? && Sent(plan, "qty") == Text(ToDecimalString(ParseDecimal(qty).value))
  {
    var fields := FlattenFields(category, symbol, side, orderLinkId, qty);
    FlattenFieldsSet(category, symbol, side, orderLinkId, qty);
    FlattenReduces(category, symbol, side, orderLinkId, qty);
    hide BuildProbePlan, Lookup, Sent, FlattenFields, ParseDecimal;
    SentAsIs(plan, context, "cleanup-flatten-exposure", expiresAt, "/v5/order/create", fields, 0);
    SentAsIs(plan, context, "cleanup-flatten-exposure", expiresAt, "/v5/order/create", fields, 1);
    SentAsIs(plan, context, "cleanup-flatten-exposure", expiresAt, "/v5/order/create", fields, 2);
    SentAsIs(plan, context, "cleanup-flatten-exposure", expiresAt, "/v5/order/create", fields, 9);
    SentAsIs(plan, context, "cleanup-flatten-exposure", expiresAt, "/v5/order/create", fields, 11);
    assert ALLOWED_FIELDS[6] in ALLOWED_FIELDS;
    BuiltPlanSends(context.environment, context.accountId, "cleanup-flatten-exposure", expiresAt, "POST", "/v5/order/create", fields, "qty");
  }

  // ------------------------------------------------------------------ safety

  /** The reading shows exactly one matching or active order for the query. */
  predicate Selects(e: ProbeEvent, q: Query, order: ExchangeOrder) {
    e.LookedUp? && e.query == q && e.reply.Listed? && SelectOrder(MatchingOrders(e.reply.items, q)) == OneOrder(order)
  }

  ghost predicate SelectedIn(t: ProbeTrace, q: Query, order: ExchangeOrder) {
    exists i :: 0 <= i < |t| && Selects(t[i], q, order)
  }

  /** The exchange lists exactly this order under its ID. */
  predicate ListsOnly(e: ProbeEvent, order: ExchangeOrder, category: string, symbol: string) {
    && e.LookedUp? && e.query == Query(order.orderLinkId, Some(order.orderId), category, symbol)
    && e.reply.Listed? && |e.reply.items| == 1
    && e.reply.items[0].orderId == order.orderId && e.reply.items[0].orderLinkId == order.orderLinkId
  }

  /** The run's intents are those saved under its ID. */
  ghost predicate IsSaved(t: ProbeTrace, runId: string, saved: SavedRun) {
    exists runs :: RunsListed(Some(runs)) in t && FindRun(runs, runId) == Some(saved)
  }

  /** The plan cancels an order of a saved intent, read resting and still listed, under a link ID of the run. */
  ghost predicate CancelsOwn(t: ProbeTrace, plan: ProbePlan, context: RecoveryContext, saved: SavedRun) {
    exists intent, order, side, expiresAt :: CancelsOrder(t, plan, context, saved, intent, order, side, expiresAt)
  }

  ghost predicate CancelsOrder(t: ProbeTrace, plan: ProbePlan, context: RecoveryContext, saved: SavedRun, intent: SavedIntent,
                               order: ExchangeOrder, side: string, expiresAt: int) {
    && intent in saved.intents && QueryOf(intent).Some? && ParamOf(intent, "side") == Some(side)
    && var q := QueryOf(intent).value;
       && IsCancelPlan(plan, context, expiresAt, q.category, q.symbol, side, order)
       && SelectedIn(t, q, order) && !IsTerminal(order) && context.runId + "-" <= order.orderLinkId
       && exists e :: e in t && ListsOnly(e, order, q.category, q.symbol)
  }

  /** Link IDs of orders come from the saved intents or from readings that select them. */
  ghost predicate IdentitiesKnown(t: ProbeTrace, saved: SavedRun, identities: map<string, string>) {
    forall id :: id in identities ==> IdentityKnown(t, saved, id, identities[id])
  }

  ghost predicate IdentityKnown(t: ProbeTrace, saved: SavedRun, id: string, link: string) {
    || (exists intent :: intent in saved.intents && intent.exchangeOrderId == Some(id) && intent.orderLinkId == Some(link))
    || (exists q, order :: SelectedIn(t, q, order) && order.orderId == id && order.orderLinkId == link)
  }

  /** The plan returns a position explained by the run's own executions to its baseline, as read and read again. */
  ghost predicate FlattensOwn(t: ProbeTrace, plan: ProbePlan, context: RecoveryContext, saved: SavedRun) {
    exists intent, state, again, identities, side, qty :: FlattensExposure(t, plan, context, saved, intent, state, again, identities, side, qty)
  }

  ghost predicate FlattensExposure(t: ProbeTrace, plan: ProbePlan, context: RecoveryContext, saved: SavedRun, intent: SavedIntent,
                                   state: OwnedState, again: OwnedState, identities: map<string, string>, side: Sizing.Side, qty: string) {
    && intent in saved.intents && QueryOf(intent).Some?
    && (exists expiresAt, orderLinkId :: IsFlattenPlan(plan, context, expiresAt, QueryOf(intent).value.category, QueryOf(intent).value.symbol,
                                                       side, orderLinkId, qty))
    && IdentitiesKnown(t, saved, identities)
    && IsOwnedExposure(context, state, identities, side, qty)
    && OwnershipRead(Some(state)) in t && OwnershipRead(Some(again)) in t && ReadAlike(again.current, state.current)
  }

  ghost predicate IsOwnedExposure(context: RecoveryContext, state: OwnedState, identities: map<string, string>, side: Sizing.Side, qty: string) {
    && ExecutionsOwned(context, state, identities)
    && Explained(state.baselineSignedQty, state.current.currentSignedQty, state.executions)
    && ReturnsToBaseline(state.baselineSignedQty, state.current.currentSignedQty, side, qty)
  }

  /** The plan is a cleanup of what the saved run owns. */
  ghost predicate IsOwnCleanup(t: ProbeTrace, plan: ProbePlan, context: RecoveryContext) {
    exists saved :: IsSaved(t, context.runId, saved) && (CancelsOwn(t, plan, context, saved) || FlattensOwn(t, plan, context, saved))
  }

  ghost predicate Extends(before: ProbeTrace, after: ProbeTrace) {
    |before| <= |after| && forall i :: 0 <= i < |before| ==> before[i] == after[i]
  }

  ghost predicate ExtendsQuietly(before: ProbeTrace, after: ProbeTrace) {
    Extends(before, after) && forall i :: |before| <= i < |after| ==> !after[i].Posted?
  }

  /** The plan cleans up what the run owns; the clock was just read, and at that time an approval given for it holds, under a stored intent. */
  ghost predicate PostIsSafe(t: ProbeTrace, plan: ProbePlan, context: RecoveryContext) {
    && |t| > 0 && t[|t| - 1].TimeRead?
    && HasApproval(t, plan, t[|t| - 1].now)
    && IsOwnCleanup(t, plan, context)
  }

  ghost predicate HasApproval(t: ProbeTrace, plan: ProbePlan, now: int) {
    exists approval :: ApprovedIn(t, plan, approval, now)
  }

  ghost predicate ApprovedIn(t: ProbeTrace, plan: ProbePlan, approval: ProbeApproval, now: int) {
    && Authorized(plan, approval) in t && approval.Approved? && ReverifyProbeApproval(approval, plan, now).Ok?
    && IntentStored(plan, approval.digest) in t
  }

  /** Every write follows its authorization, its stored intent and the re-verification of both. */
  ghost predicate PostsAreSafe(t: ProbeTrace, context: RecoveryContext) {
    forall i {:trigger PostAt(t, i)} :: PostAt(t, i) ==> PostIsSafe(t[..i], t[i].plan, context)
  }

  predicate PostAt(t: ProbeTrace, i: int) {
    0 <= i < |t| && t[i].Posted?
  }

  lemma SafeQuietly(before: ProbeTrace, after: ProbeTrace, context: RecoveryContext)
    requires PostsAreSafe(before, context) && ExtendsQuietly(before, after)
    ensures PostsAreSafe(after, context)
  {
    hide PostIsSafe;
    forall i | PostAt(after, i)
      ensures PostIsSafe(after[..i], after[i].plan, context)
    {
      assert after[..i] == before[..i] && PostAt(before, i);
    }
  }

  lemma SafePost(before: ProbeTrace, plan: ProbePlan, context: RecoveryContext)
    requires PostsAreSafe(before, context) && PostIsSafe(before, plan, context)
    ensures PostsAreSafe(before + [Posted(plan)], context)
  {
    hide PostIsSafe;
    var after := before + [Posted(plan)];
    forall i | PostAt(after, i)
      ensures PostIsSafe(after[..i], after[i].plan, context)
    {
      assert after[..i] == before[..i] && (i < |before| ==> PostAt(before, i));
      assert before[..|before|] == before;
    }
  }

  predicate IsFlat(p: PositionRow) {
    && p.size.Some? && p.size.value != "" && ParseDecimal(p.size.value).Ok? && ParseDecimal(p.size.value).value.coefficient == 0
    && (p.side.None? || p.side.value == "" || p.side.value == "None")
  }

  /** The row states a size of zero and names no side. */
  ghost predicate NoPosition(p: PositionRow) {
    && p.size.Some? && ParseDecimal(p.size.value).Ok? && Decimals.Value(ParseDecimal(p.size.value).value) == 0.0
    && p.side in {None, Some(""), Some("None")}
  }

  lemma FlatMeaning(p: PositionRow)
    ensures IsFlat(p) <==> NoPosition(p)
  {
    if p.size.Some? && ParseDecimal(p.size.value).Ok? {
      Decimals.SignOfValue(ParseDecimal(p.size.value).value);
      assert ParseDecimal("").Err?;
    }
    hide Decimals.Value;
  }

  /** At `j`, no open order and then no open position in the symbol. */
  ghost predicate CleanRead(t: ProbeTrace, j: int, category: string, symbol: string) {
    && 0 <= j && j + 1 < |t|
    && t[j] == OrdersRead(category, symbol, Listed([]))
    && t[j + 1].PositionsRead? && t[j + 1].category == category && t[j + 1].symbol == symbol
    && t[j + 1].positions.Listed? && forall p :: p in t[j + 1].positions.items ==> NoPosition(p)
  }

  ghost predicate CleanSince(t: ProbeTrace, from: nat, category: string, symbol: string) {
    exists j :: from <= j && CleanRead(t, j, category, symbol)
  }

  method ProveCleanState(ports: ProbePorts, category: string, symbol: string) returns (r: Result<bool, Thrown>)
    modifies ports
    ensures ExtendsQuietly(old(ports.trace), ports.trace)
    ensures r == Ok(true) ==> CleanSince(ports.trace, |old(ports.trace)|, category, symbol)
  {
    hide IsFlat, NoPosition;
    ghost var start := ports.trace;
    var orders := ports.ReadOrders(category, symbol);
    match orders {
      case Threw => return Err(Thrown);
      case NoList => return Ok(false);
      case Listed(items) =>
        if items != [] {
          return Ok(false);
        }
    }
    var positions := ports.ReadPositions(category, symbol);
    ghost var t := ports.trace;
    assert ExtendsQuietly(start, t);
    match positions {
      case Threw => return Err(Thrown);
      case NoList => return Ok(false);
      case Listed(items) =>
        assert t[|start| + 1] == PositionsRead(category, symbol, Listed(items)) && |t| == |start| + 2;
        for i := 0 to |items|
          invariant ports.trace == t && forall k :: 0 <= k < i ==> NoPosition(items[k])
        {
          FlatMeaning(items[i]);
          if !IsFlat(items[i]) {
            return Ok(false);
          }
        }
    }
    assert CleanRead(ports.trace, |start|, category, symbol);
    r := Ok(true);
  }

  // ---------------------------------------------------------- reconciliation

  datatype Reconciliation = Resting(order: ExchangeOrder) | Ended(order: ExchangeOrder) | NotResolved

  predicate IsRestingReading(e: ProbeEvent, q: Query) {
    && e.LookedUp? && e.query == q && e.reply.Listed?
    && var selected := SelectOrder(MatchingOrders(e.reply.items, q));
       selected.OneOrder? && !IsTerminal(selected.order)
  }

  /** How many readings show one order that is not in a terminal status. */
  function RestingReadings(t: ProbeTrace, q: Query): nat {
    if t == [] then 0 else RestingReadings(t[..|t| - 1], q) + if IsRestingReading(t[|t| - 1], q) then 1 else 0
  }

  lemma NextReading(t: ProbeTrace, from: nat, e: ProbeEvent, q: Query)
    requires from <= |t|
    ensures RestingReadings((t + [e])[from..], q) == RestingReadings(t[from..], q) + if IsRestingReading(e, q) then 1 else 0
  {
    assert (t + [e])[from..] == t[from..] + [e];
    assert (t[from..] + [e])[..|t[from..]|] == t[from..];
  }

  lemma {:induction false} ReadingsConcat(a: ProbeTrace, b: ProbeTrace, q: Query)
    ensures RestingReadings(a + b, q) == RestingReadings(a, q) + RestingReadings(b, q)
  {
    if b == [] {
      assert a + b == a;
    } else {
      ReadingsConcat(a, b[..|b| - 1], q);
      assert (a + b)[..|a + b| - 1] == a + b[..|b| - 1];
    }
  }

  /** What a reconciliation rests on: the last reading shows its order, which is ended if it is terminal there. */
  ghost predicate ReadLast(t: ProbeTrace, from: nat, q: Query, r: Reconciliation) {
    !r.NotResolved? ==>
      && |t| > from && Selects(t[|t| - 1], q, r.order) && IsMatch(r.order, q)
      && (r.Ended? <==> IsTerminal(r.order))
  }

  /** One series of lookups; `None` when it ends without a result. */
  method LookUpOrder(ports: ProbePorts, q: Query, attempts: nat, history: bool, restingBefore: nat)
    returns (r: Result<Option<Reconciliation>, Thrown>, resting: nat)
    requires restingBefore < 2
    modifies ports
    ensures ExtendsQuietly(old(ports.trace), ports.trace) && |ports.trace| <= |old(ports.trace)| + attempts
    ensures forall i :: |old(ports.trace)| <= i < |ports.trace| ==>
              ports.trace[i].LookedUp? && ports.trace[i].query == q && ports.trace[i].history == history
    ensures resting == restingBefore + RestingReadings(ports.trace[|old(ports.trace)|..], q)
    ensures r.Ok? && r.value.Some? ==> ReadLast(ports.trace, |old(ports.trace)|, q, r.value.value) && (r.value.value.Resting? <==> resting == 2)
    ensures r.Ok? && r.value.None? ==> resting < 2
  {
    ghost var start := ports.trace;
    hide IsMatch, IsTerminal, MatchingOrders, SelectOrder, RestingReadings;
    resting := restingBefore;
    NoReadings(start, q);
    for attempt := 0 to attempts
      invariant ExtendsQuietly(start, ports.trace) && |ports.trace| == |start| + attempt
      invariant forall i :: |start| <= i < |ports.trace| ==> ports.trace[i].LookedUp? && ports.trace[i].query == q && ports.trace[i].history == history
      invariant resting == restingBefore + RestingReadings(ports.trace[|start|..], q) && resting < 2
    {
      ghost var before := ports.trace;
      var reply := ports.LookUp(q, history);
      NextReading(before, |start|, LookedUp(q, history, reply), q);
      if reply.Threw? {
        return Err(Thrown), resting;
      }
      if reply.NoList? {
        return Ok(Some(NotResolved)), resting;
      }
      var selected := SelectOrder(MatchingOrders(reply.items, q));
      if selected.Ambiguous? {
        return Ok(Some(NotResolved)), resting;
      }
      if selected.OneOrder? {
        SelectedOrder(reply.items, q);
        if IsTerminal(selected.order) {
          return Ok(Some(Ended(selected.order))), resting;
        }
        resting := resting + 1;
        if resting >= 2 {
          return Ok(Some(Resting(selected.order))), resting;
        }
      }
    }
    r := Ok(None);
  }

  lemma NoReadings(t: ProbeTrace, q: Query)
    ensures RestingReadings(t[|t|..], q) == 0
  {
  }

  /**
   * Bounded reconciliation.  An order is reported ended only when the last reading shows it in a
   * terminal status, and resting exactly when two readings showed one that is not; otherwise the
   * run stays unresolved.
   */
  method ReconcileOrder(ports: ProbePorts, q: Query, realtimeAttempts: nat, historyAttempts: nat)
    returns (r: Result<Reconciliation, Thrown>)
    modifies ports
    ensures ExtendsQuietly(old(ports.trace), ports.trace)
    ensures |ports.trace| <= |old(ports.trace)| + realtimeAttempts + historyAttempts
    ensures r.Ok? ==>
      && ReadLast(ports.trace, |old(ports.trace)|, q, r.value)
      && (r.value.Resting? <==> RestingReadings(ports.trace[|old(ports.trace)|..], q) == 2)
  {
    ghost var start := ports.trace;
    hide ReadLast, RestingReadings;
    var realtime, resting := LookUpOrder(ports, q, realtimeAttempts, false, 0);
    if realtime.Err? {
      return Err(realtime.error);
    }
    if realtime.value.Some? {
      return Ok(realtime.value.value);
    }
    ghost var middle := ports.trace;
    var older, restingAfter := LookUpOrder(ports, q, historyAttempts, true, resting);
    ReadingsConcat(middle[|start|..], ports.trace[|middle|..], q);
    assert ports.trace[|start|..] == middle[|start|..] + ports.trace[|middle|..];
    if older.Err? {
      return Err(older.error);
    }
    if older.value.Some? {
      ReadLastEarlier(ports.trace, |start|, |middle|, q, older.value.value);
      return Ok(older.value.value);
    }
    NothingRead(ports.trace, |start|, q);
    r := Ok(NotResolved);
  }

  lemma ReadLastEarlier(t: ProbeTrace, from: nat, later: nat, q: Query, r: Reconciliation)
    requires ReadLast(t, later, q, r) && from <= later
    ensures ReadLast(t, from, q, r)
  {
  }

  lemma NothingRead(t: ProbeTrace, from: nat, q: Query)
    ensures ReadLast(t, from, q, NotResolved)
  {
  }

  // ----------------------------------------------------------------- cleanup

  datatype CleanupResult = ConfirmedClean | CleanAlready | CleanupUnresolved

  /** Authorise a cleanup plan and store its intent; `None` when refused. */
  method AuthorizeCleanup(ports: ProbePorts, plan: ProbePlan) returns (r: Result<Option<ProbeApproval>, Thrown>)
    modifies ports
    ensures ExtendsQuietly(old(ports.trace), ports.trace)
    ensures r.Ok? && r.value.Some? ==>
      && r.value.value.Approved? && Authorized(plan, r.value.value) in ports.trace && IntentStored(plan, r.value.value.digest) in ports.trace
  {
    ghost var start := ports.trace;
    var approval := ports.Authorize(plan);
    if approval.None? {
      return Err(Thrown);
    }
    if !approval.value.Approved? {
      return Ok(None);
    }
    assert ports.trace[|start|] == Authorized(plan, approval.value);
    var createdAt := ports.Now();
    ghost var before := ports.trace;
    var stored := ports.StoreIntent(plan, approval.value.digest);
    if !stored {
      return Err(Thrown);
    }
    assert ports.trace[|before|] == IntentStored(plan, approval.value.digest);
    assert ports.trace[|start|] == Authorized(plan, approval.value);
    r := Ok(approval);
  }

  // ------------------------------------------------- what the run owns, later

  lemma KeptIn(before: ProbeTrace, after: ProbeTrace, e: ProbeEvent)
    requires e in before && Extends(before, after)
    ensures e in after
  {
    var i :| 0 <= i < |before| && before[i] == e;
    assert after[i] == e;
  }

  lemma SelectedLater(before: ProbeTrace, after: ProbeTrace, q: Query, order: ExchangeOrder)
    requires SelectedIn(before, q, order) && Extends(before, after)
    ensures SelectedIn(after, q, order)
  {
    hide Selects;
    var i :| 0 <= i < |before| && Selects(before[i], q, order);
    assert Selects(after[i], q, order);
  }

  lemma SavedLater(before: ProbeTrace, after: ProbeTrace, runId: string, saved: SavedRun)
    requires IsSaved(before, runId, saved) && Extends(before, after)
    ensures IsSaved(after, runId, saved)
  {
    var runs :| RunsListed(Some(runs)) in before && FindRun(runs, runId) == Some(saved);
    KeptIn(before, after, RunsListed(Some(runs)));
  }

  lemma IdentitiesLater(before: ProbeTrace, after: ProbeTrace, saved: SavedRun, identities: map<string, string>)
    requires IdentitiesKnown(before, saved, identities) && Extends(before, after)
    ensures IdentitiesKnown(after, saved, identities)
  {
    hide SelectedIn;
    forall id | id in identities
      ensures IdentityKnown(after, saved, id, identities[id])
    {
      assert IdentityKnown(before, saved, id, identities[id]);
      if q, order :| SelectedIn(before, q, order) && order.orderId == id && order.orderLinkId == identities[id] {
        SelectedLater(before, after, q, order);
      }
    }
  }

  lemma CancelsLater(before: ProbeTrace, after: ProbeTrace, plan: ProbePlan, context: RecoveryContext, saved: SavedRun)
    requires CancelsOwn(before, plan, context, saved) && Extends(before, after)
    ensures CancelsOwn(after, plan, context, saved)
  {
    hide SelectedIn, ListsOnly, IsCancelPlan, QueryOf, ParamOf, IsTerminal;
    var intent, order, side, expiresAt :| CancelsOrder(before, plan, context, saved, intent, order, side, expiresAt);
    var q := QueryOf(intent).value;
    SelectedLater(before, after, q, order);
    var e :| e in before && ListsOnly(e, order, q.category, q.symbol);
    KeptIn(before, after, e);
    assert CancelsOrder(after, plan, context, saved, intent, order, side, expiresAt);
  }

  lemma FlattensLater(before: ProbeTrace, after: ProbeTrace, plan: ProbePlan, context: RecoveryContext, saved: SavedRun)
    requires FlattensOwn(before, plan, context, saved) && Extends(before, after)
    ensures FlattensOwn(after, plan, context, saved)
  {
    hide IdentitiesKnown, IsOwnedExposure, IsFlattenPlan, SameOwnership, QueryOf;
    var intent, state, again, identities, side, qty :| FlattensExposure(before, plan, context, saved, intent, state, again, identities, side, qty);
    IdentitiesLater(before, after, saved, identities);
    KeptIn(before, after, OwnershipRead(Some(state)));
    KeptIn(before, after, OwnershipRead(Some(again)));
    assert FlattensExposure(after, plan, context, saved, intent, state, again, identities, side, qty);
  }

  lemma OwnCleanupLater(before: ProbeTrace, after: ProbeTrace, plan: ProbePlan, context: RecoveryContext)
    requires IsOwnCleanup(before, plan, context) && Extends(before, after)
    ensures IsOwnCleanup(after, plan, context)
  {
    hide IsSaved, CancelsOwn, FlattensOwn;
    var saved :| IsSaved(before, context.runId, saved) && (CancelsOwn(before, plan, context, saved) || FlattensOwn(before, plan, context, saved));
    SavedLater(before, after, context.runId, saved);
    if CancelsOwn(before, plan, context, saved) {
      CancelsLater(before, after, plan, context, saved);
    } else {
      FlattensLater(before, after, plan, context, saved);
    }
  }

  /** Re-verify the approval and post the plan, then prove the state clean. */
  method PostAndProve(ports: ProbePorts, context: RecoveryContext, plan: ProbePlan, approval: ProbeApproval, category: string, symbol: string)
    returns (r: Result<CleanupResult, Thrown>)
    requires approval.Approved? && PostsAreSafe(ports.trace, context) && IsOwnCleanup(ports.trace, plan, context)
    requires Authorized(plan, approval) in ports.trace && IntentStored(plan, approval.digest) in ports.trace
    modifies ports
    ensures Extends(old(ports.trace), ports.trace) && PostsAreSafe(ports.trace, context)
    ensures r.Ok? && r.value.ConfirmedClean? ==> CleanSince(ports.trace, |old(ports.trace)|, category, symbol)
    ensures r.Ok? && r.value.ConfirmedClean? ==> Posted(plan) in ports.trace
    ensures r.Ok? ==> !r.value.CleanAlready?
  {
    hide PostsAreSafe, PostIsSafe, CleanSince, IsOwnCleanup;
    ghost var start := ports.trace;
    var now := ports.Now();
    ghost var ready := ports.trace;
    SafeQuietly(start, ready, context);
    if ReverifyProbeApproval(approval, plan, now).Err? {
      return Ok(CleanupUnresolved);
    }
    ApprovedPost(start, plan, approval, now, context);
    var posted := ports.Post(plan);
    ghost var written := ports.trace;
    SafePost(ready, plan, context);
    if !posted {
      return Ok(CleanupUnresolved);
    }
    var clean := ProveCleanState(ports, category, symbol);
    SafeQuietly(written, ports.trace, context);
    if clean.Err? {
      return Err(clean.error);
    }
    if clean.value {
      CleanEarlier(ports.trace, |start|, |written|, category, symbol);
      KeptIn(written, ports.trace, Posted(plan));
    }
    r := Ok(if clean.value then ConfirmedClean else CleanupUnresolved);
  }

  lemma CleanEarlier(t: ProbeTrace, from: nat, later: nat, category: string, symbol: string)
    requires CleanSince(t, later, category, symbol) && from <= later
    ensures CleanSince(t, from, category, symbol)
  {
  }

  lemma ApprovedPost(start: ProbeTrace, plan: ProbePlan, approval: ProbeApproval, now: int, context: RecoveryContext)
    requires approval.Approved? && Authorized(plan, approval) in start && IntentStored(plan, approval.digest) in start
    requires ReverifyProbeApproval(approval, plan, now).Ok? && IsOwnCleanup(start, plan, context)
    ensures PostIsSafe(start + [TimeRead(now)], plan, context)
  {
    hide ReverifyProbeApproval, IsOwnCleanup;
    var t := start + [TimeRead(now)];
    OwnCleanupLater(start, t, plan, context);
    assert Authorized(plan, approval) in t && IntentStored(plan, approval.digest) in t;
    assert ApprovedIn(t, plan, approval, now);
  }

  /** The order is known to the run and under a link ID of it. */
  predicate IsOwnedEntry(order: ExchangeOrder, context: RecoveryContext, entryOrderIds: set<string>) {
    order.orderId in entryOrderIds && context.runId + "-" <= order.orderLinkId
  }

  /** Cancel the run's own resting entry; one that has ended already is reported clean without a call. */
  method CleanupOwnedEntry(ports: ProbePorts, context: RecoveryContext, ghost saved: SavedRun, ghost intent: SavedIntent, order: ExchangeOrder,
                           side: string, category: string, symbol: string, entryOrderIds: set<string>)
    returns (r: Result<CleanupResult, Thrown>)
    requires PostsAreSafe(ports.trace, context) && IsSaved(ports.trace, context.runId, saved) && intent in saved.intents
    requires QueryOf(intent).Some? && QueryOf(intent).value.category == category && QueryOf(intent).value.symbol == symbol
    requires ParamOf(intent, "side") == Some(side) && SelectedIn(ports.trace, QueryOf(intent).value, order)
    modifies ports
    ensures Extends(old(ports.trace), ports.trace) && PostsAreSafe(ports.trace, context)
    ensures r.Ok? && !IsTerminal(order) && !r.value.CleanupUnresolved? ==> CleanSince(ports.trace, |old(ports.trace)|, category, symbol)
    ensures r == Ok(CleanAlready) <==> IsOwnedEntry(order, context, entryOrderIds) && IsTerminal(order)
    ensures !IsOwnedEntry(order, context, entryOrderIds) ==> r == Ok(CleanupUnresolved)
    ensures IsTerminal(order) || !IsOwnedEntry(order, context, entryOrderIds) ==> ports.trace == old(ports.trace)
  {
    hide PostsAreSafe, CleanSince, BuildProbePlan, IsTerminal, CancelFields, QueryOf, ParamOf, SelectedIn, IsSaved;
    ghost var start := ports.trace;
    if !IsOwnedEntry(order, context, entryOrderIds) {
      return Ok(CleanupUnresolved);
    }
    if IsTerminal(order) {
      return Ok(CleanAlready);
    }
    var now := ports.Now();
    SafeQuietly(start, ports.trace, context);
    var plan := BuildProbePlan(
      context.environment, context.accountId, "cleanup-cancel-entry", now + 120000, "POST", "/v5/order/cancel",
      CancelFields(category, symbol, side, order));
    if plan.Err? {
      return Err(Thrown);
    }
    assert IsCancelPlan(plan.value, context, now + 120000, category, symbol, side, order);
    hide IsCancelPlan;
    SavedLater(start, ports.trace, context.runId, saved);
    SelectedLater(start, ports.trace, QueryOf(intent).value, order);
    ghost var planned := ports.trace;
    r := CancelByPlan(ports, context, saved, intent, order, side, now + 120000, plan.value, category, symbol);
    if r.Ok? && !r.value.CleanupUnresolved? {
      CleanEarlier(ports.trace, |start|, |planned|, category, symbol);
    }
  }

  method CancelByPlan(ports: ProbePorts, context: RecoveryContext, ghost saved: SavedRun, ghost intent: SavedIntent, order: ExchangeOrder,
                      ghost side: string, ghost expiresAt: int, plan: ProbePlan, category: string, symbol: string)
    returns (r: Result<CleanupResult, Thrown>)
    requires PostsAreSafe(ports.trace, context) && IsSaved(ports.trace, context.runId, saved) && intent in saved.intents
    requires QueryOf(intent).Some? && QueryOf(intent).value.category == category && QueryOf(intent).value.symbol == symbol
    requires ParamOf(intent, "side") == Some(side) && SelectedIn(ports.trace, QueryOf(intent).value, order)
    requires !IsTerminal(order) && context.runId + "-" <= order.orderLinkId
    requires IsCancelPlan(plan, context, expiresAt, category, symbol, side, order)
    modifies ports
    ensures Extends(old(ports.trace), ports.trace) && PostsAreSafe(ports.trace, context)
    ensures r.Ok? && !r.value.CleanupUnresolved? ==> CleanSince(ports.trace, |old(ports.trace)|, category, symbol)
    ensures r.Ok? ==> !r.value.CleanAlready?
  {
    hide PostsAreSafe, CleanSince, IsTerminal, QueryOf, ParamOf, SelectedIn, IsSaved, IsCancelPlan, IsOwnCleanup, ListsOnly;
    ghost var start := ports.trace;
    var approval := AuthorizeCleanup(ports, plan);
    SafeQuietly(start, ports.trace, context);
    if approval.Err? || approval.value.None? {
      return if approval.Err? then Err(Thrown) else Ok(CleanupUnresolved);
    }
    ghost var authorized := ports.trace;
    var owned := StillListed(ports, order, category, symbol);
    SafeQuietly(authorized, ports.trace, context);
    if !owned {
      return Ok(CleanupUnresolved);
    }
    KeptIn(authorized, ports.trace, Authorized(plan, approval.value.value));
    KeptIn(authorized, ports.trace, IntentStored(plan, approval.value.value.digest));
    ghost var ready := ports.trace;
    CancelIsOwn(start, ready, context, saved, intent, order, side, expiresAt, plan);
    r := PostAndProve(ports, context, plan, approval.value.value, category, symbol);
    if r.Ok? && r.value.ConfirmedClean? {
      CleanEarlier(ports.trace, |start|, |ready|, category, symbol);
    }
  }

  lemma CancelIsOwn(start: ProbeTrace, t: ProbeTrace, context: RecoveryContext, saved: SavedRun, intent: SavedIntent, order: ExchangeOrder,
                    side: string, expiresAt: int, plan: ProbePlan)
    requires Extends(start, t) && IsSaved(start, context.runId, saved) && intent in saved.intents && QueryOf(intent).Some?
    requires ParamOf(intent, "side") == Some(side) && SelectedIn(start, QueryOf(intent).value, order)
    requires !IsTerminal(order) && context.runId + "-" <= order.orderLinkId
    requires IsCancelPlan(plan, context, expiresAt, QueryOf(intent).value.category, QueryOf(intent).value.symbol, side, order)
    requires |t| > 0 && ListsOnly(t[|t| - 1], order, QueryOf(intent).value.category, QueryOf(intent).value.symbol)
    ensures IsOwnCleanup(t, plan, context)
  {
    hide IsSaved, SelectedIn, IsTerminal, QueryOf, ParamOf, IsCancelPlan, ListsOnly;
    SavedLater(start, t, context.runId, saved);
    SelectedLater(start, t, QueryOf(intent).value, order);
    assert t[|t| - 1] in t;
    assert CancelsOrder(t, plan, context, saved, intent, order, side, expiresAt);
    assert CancelsOwn(t, plan, context, saved);
    hide CancelsOwn, FlattensOwn;
  }

  /** The exchange lists exactly this order under its ID; a failed reading counts as no. */
  method StillListed(ports: ProbePorts, order: ExchangeOrder, category: string, symbol: string) returns (owned: bool)
    modifies ports
    ensures ExtendsQuietly(old(ports.trace), ports.trace)
    ensures owned ==> |ports.trace| > 0 && ListsOnly(ports.trace[|ports.trace| - 1], order, category, symbol)
  {
    var reply := ports.LookUp(Query(order.orderLinkId, Some(order.orderId), category, symbol), false);
    owned := reply.Listed? && |reply.items| == 1 && reply.items[0].orderId == order.orderId && reply.items[0].orderLinkId == order.orderLinkId;
  }

  /** Flatten the exposure the run owns with one reduce-only market order. */
  method FlattenOwnedExposure(ports: ProbePorts, context: RecoveryContext, ghost saved: SavedRun, ghost intent: SavedIntent, state: OwnedState,
                              identities: map<string, string>, category: string, symbol: string)
    returns (r: Result<CleanupResult, Thrown>)
    requires PostsAreSafe(ports.trace, context) && IsSaved(ports.trace, context.runId, saved) && intent in saved.intents
    requires QueryOf(intent).Some? && QueryOf(intent).value.category == category && QueryOf(intent).value.symbol == symbol
    requires IdentitiesKnown(ports.trace, saved, identities) && OwnershipRead(Some(state)) in ports.trace
    modifies ports
    ensures Extends(old(ports.trace), ports.trace) && PostsAreSafe(ports.trace, context)
    ensures r.Ok? && !r.value.CleanupUnresolved? ==> CleanSince(ports.trace, |old(ports.trace)|, category, symbol)
  {
    hide PostsAreSafe, CleanSince, BuildProbePlan, SameOwnership, ExecutionsOwned, FlattenFields, QueryOf, IsSaved, IdentitiesKnown, Explained,
      ReturnsToBaseline;
    ghost var start := ports.trace;
    if !ExecutionsOwned(context, state, identities) {
      return Ok(CleanupUnresolved);
    }
    var exposure := DeriveOwnedExposure(state.baselineSignedQty, state.current.currentSignedQty, state.executions);
    if exposure.Err? || exposure.value.Unresolved? {
      return if exposure.Err? then Err(Thrown) else Ok(CleanupUnresolved);
    }
    if exposure.value.AlreadyFlat? {
      var clean := ProveCleanState(ports, category, symbol);
      SafeQuietly(start, ports.trace, context);
      return if clean.Err? then Err(Thrown) else Ok(if clean.value then CleanAlready else CleanupUnresolved);
    }
    assert IsOwnedExposure(context, state, identities, exposure.value.flattenSide, exposure.value.flattenQty);
    hide IsOwnedExposure;
    var orderLinkId: string := *;
    var now := ports.Now();
    SafeQuietly(start, ports.trace, context);
    var plan := BuildProbePlan(
      context.environment, context.accountId, "cleanup-flatten-exposure", now + 120000, "POST", "/v5/order/create",
      FlattenFields(category, symbol, exposure.value.flattenSide, orderLinkId, exposure.value.flattenQty));
    if plan.Err? {
      return Err(Thrown);
    }
    assert IsFlattenPlan(plan.value, context, now + 120000, category, symbol, exposure.value.flattenSide, orderLinkId, exposure.value.flattenQty);
    hide IsFlattenPlan;
    SavedLater(start, ports.trace, context.runId, saved);
    IdentitiesLater(start, ports.trace, saved, identities);
    KeptIn(start, ports.trace, OwnershipRead(Some(state)));
    ghost var planned := ports.trace;
    r := FlattenByPlan(ports, context, saved, intent, state, identities, exposure.value.flattenSide, exposure.value.flattenQty, orderLinkId,
                       now + 120000, plan.value, category, symbol);
    if r.Ok? && !r.value.CleanupUnresolved? {
      CleanEarlier(ports.trace, |start|, |planned|, category, symbol);
    }
  }

  method FlattenByPlan(ports: ProbePorts, context: RecoveryContext, ghost saved: SavedRun, ghost intent: SavedIntent, state: OwnedState,
                       ghost identities: map<string, string>, ghost side: Sizing.Side, ghost qty: string, ghost orderLinkId: string,
                       ghost expiresAt: int, plan: ProbePlan, category: string, symbol: string)
    returns (r: Result<CleanupResult, Thrown>)
    requires PostsAreSafe(ports.trace, context) && IsSaved(ports.trace, context.runId, saved) && intent in saved.intents
    requires QueryOf(intent).Some? && QueryOf(intent).value.category == category && QueryOf(intent).value.symbol == symbol
    requires IdentitiesKnown(ports.trace, saved, identities) && OwnershipRead(Some(state)) in ports.trace
    requires IsOwnedExposure(context, state, identities, side, qty)
    requires IsFlattenPlan(plan, context, expiresAt, category, symbol, side, orderLinkId, qty)
    modifies ports
    ensures Extends(old(ports.trace), ports.trace) && PostsAreSafe(ports.trace, context)
    ensures r.Ok? && !r.value.CleanupUnresolved? ==> CleanSince(ports.trace, |old(ports.trace)|, category, symbol)
  {
    hide PostsAreSafe, CleanSince, SameOwnership, QueryOf, IsSaved, IdentitiesKnown, IsOwnedExposure, IsFlattenPlan, IsOwnCleanup;
    ghost var start := ports.trace;
    var approval := AuthorizeCleanup(ports, plan);
    SafeQuietly(start, ports.trace, context);
    if approval.Err? || approval.value.None? {
      return if approval.Err? then Err(Thrown) else Ok(CleanupUnresolved);
    }
    ghost var authorized := ports.trace;
    var reread := ports.ReadOwnership();
    SafeQuietly(authorized, ports.trace, context);
    if reread.None? || !SameOwnership(reread.value.current, state.current) {
      return Ok(CleanupUnresolved);
    }
    KeptIn(authorized, ports.trace, Authorized(plan, approval.value.value));
    KeptIn(authorized, ports.trace, IntentStored(plan, approval.value.value.digest));
    ghost var ready := ports.trace;
    assert IsFlattenPlan(plan, context, expiresAt, QueryOf(intent).value.category, QueryOf(intent).value.symbol, side, orderLinkId, qty);
    FlattenIsOwn(start, ready, context, saved, intent, state, reread.value, identities, side, qty, plan);
    r := PostAndProve(ports, context, plan, approval.value.value, category, symbol);
    if r.Ok? && r.value.ConfirmedClean? {
      CleanEarlier(ports.trace, |start|, |ready|, category, symbol);
    }
  }

  lemma FlattenIsOwn(start: ProbeTrace, t: ProbeTrace, context: RecoveryContext, saved: SavedRun, intent: SavedIntent, state: OwnedState,
                     again: OwnedState, identities: map<string, string>, side: Sizing.Side, qty: string, plan: ProbePlan)
    requires Extends(start, t) && IsSaved(start, context.runId, saved) && intent in saved.intents && QueryOf(intent).Some?
    requires IdentitiesKnown(start, saved, identities) && OwnershipRead(Some(state)) in start && OwnershipRead(Some(again)) in t
    requires IsOwnedExposure(context, state, identities, side, qty) && SameOwnership(again.current, state.current)
    requires exists expiresAt, orderLinkId ::
               IsFlattenPlan(plan, context, expiresAt, QueryOf(intent).value.category, QueryOf(intent).value.symbol, side, orderLinkId, qty)
    ensures IsOwnCleanup(t, plan, context)
  {
    SameIsReadAlike(again.current, state.current);
    hide IsSaved, IdentitiesKnown, IsOwnedExposure, IsFlattenPlan, SameOwnership, ReadAlike, QueryOf;
    SavedLater(start, t, context.runId, saved);
    IdentitiesLater(start, t, saved, identities);
    KeptIn(start, t, OwnershipRead(Some(state)));
    assert FlattensExposure(t, plan, context, saved, intent, state, again, identities, side, qty);
    assert FlattensOwn(t, plan, context, saved);
    hide CancelsOwn, FlattensOwn;
  }

  // ---------------------------------------------------------------- recovery

  /** Since `from` the intent's order was looked up, and afterwards its symbol was read clean. */
  ghost predicate Settled(intent: SavedIntent, t: ProbeTrace, from: nat) {
    exists i :: from <= i && SettledAt(intent, t, i)
  }

  ghost predicate SettledAt(intent: SavedIntent, t: ProbeTrace, i: int) {
    var query := QueryOf(intent);
    && query.Some? && 0 <= i < |t| && t[i].LookedUp? && t[i].query == query.value
    && CleanSince(t, i + 1, query.value.category, query.value.symbol)
  }

  /** The intents were settled one after another, each in a part of the trace of its own. */
  ghost predicate SettledInTurn(intents: seq<SavedIntent>, t: ProbeTrace, cuts: seq<nat>) {
    && |cuts| == |intents| + 1
    && (forall k :: 0 <= k < |intents| ==> cuts[k] <= cuts[k + 1])
    && (forall k :: 0 <= k <= |intents| ==> cuts[k] <= |t|)
    && forall k :: 0 <= k < |intents| ==> Settled(intents[k], t[..cuts[k + 1]], cuts[k])
  }

  lemma InTurnLater(intents: seq<SavedIntent>, before: ProbeTrace, after: ProbeTrace, cuts: seq<nat>)
    requires SettledInTurn(intents, before, cuts) && Extends(before, after)
    ensures SettledInTurn(intents, after, cuts)
  {
    hide Settled;
    forall k | 0 <= k < |intents|
      ensures Settled(intents[k], after[..cuts[k + 1]], cuts[k])
    {
      assert after[..cuts[k + 1]] == before[..cuts[k + 1]];
    }
  }

  lemma NextInTurn(intents: seq<SavedIntent>, i: nat, before: ProbeTrace, after: ProbeTrace, cuts: seq<nat>)
    requires i < |intents| && SettledInTurn(intents[..i], before, cuts) && cuts[i] == |before| && Extends(before, after)
    requires Settled(intents[i], after, |before|)
    ensures SettledInTurn(intents[..i + 1], after, cuts + [|after|])
  {
    InTurnLater(intents[..i], before, after, cuts);
    hide Settled;
    var next, more := intents[..i + 1], cuts + [|after|];
    assert after[..|after|] == after;
    forall k | 0 <= k < |next|
      ensures more[k] <= more[k + 1] && Settled(next[k], after[..more[k + 1]], more[k])
    {
      if k < i {
        assert next[k] == intents[..i][k];
      }
    }
  }

  lemma SettledBy(intent: SavedIntent, start: ProbeTrace, looked: ProbeTrace, t: ProbeTrace)
    requires QueryOf(intent).Some? && Extends(start, looked) && Extends(looked, t)
    requires |start| < |looked| && looked[|looked| - 1].LookedUp? && looked[|looked| - 1].query == QueryOf(intent).value
    requires CleanSince(t, |looked|, QueryOf(intent).value.category, QueryOf(intent).value.symbol)
    ensures Settled(intent, t, |start|)
  {
    hide QueryOf, CleanSince;
    assert SettledAt(intent, t, |looked| - 1);
  }

  /** After an ended order: clean already, or flattened to be so. */
  method SettleEnded(ports: ProbePorts, context: RecoveryContext, ghost saved: SavedRun, intent: SavedIntent, canReadExposure: bool,
                     identities: map<string, string>, category: string, symbol: string)
    returns (r: Result<bool, Thrown>)
    requires PostsAreSafe(ports.trace, context) && IsSaved(ports.trace, context.runId, saved) && intent in saved.intents
    requires QueryOf(intent).Some? && QueryOf(intent).value.category == category && QueryOf(intent).value.symbol == symbol
    requires IdentitiesKnown(ports.trace, saved, identities)
    modifies ports
    ensures Extends(old(ports.trace), ports.trace) && PostsAreSafe(ports.trace, context)
    ensures r == Ok(true) ==> CleanSince(ports.trace, |old(ports.trace)|, category, symbol)
  {
    hide PostsAreSafe, CleanSince, QueryOf, IsSaved, IdentitiesKnown;
    ghost var start := ports.trace;
    var clean := ProveCleanState(ports, category, symbol);
    SafeQuietly(start, ports.trace, context);
    if clean.Err? || clean.value {
      return clean;
    }
    if !canReadExposure || intent.baselineSignedQty.None? {
      return Ok(false);
    }
    var exposure := ports.ReadOwnership();
    ghost var read := ports.trace;
    SafeQuietly(start, read, context);
    if exposure.None? {
      return Err(Thrown);
    }
    SavedLater(start, read, context.runId, saved);
    IdentitiesLater(start, read, saved, identities);
    var cleanup := FlattenOwnedExposure(ports, context, saved, intent, exposure.value, identities, category, symbol);
    if cleanup.Err? {
      return Err(Thrown);
    }
    if !cleanup.value.CleanupUnresolved? {
      CleanEarlier(ports.trace, |start|, |read|, category, symbol);
    }
    r := Ok(!cleanup.value.CleanupUnresolved?);
  }

  lemma LearnIdentity(t: ProbeTrace, saved: SavedRun, identities: map<string, string>, q: Query, order: ExchangeOrder)
    requires IdentitiesKnown(t, saved, identities) && SelectedIn(t, q, order)
    ensures IdentitiesKnown(t, saved, identities[order.orderId := order.orderLinkId])
  {
    hide SelectedIn, IdentityKnown;
    assert IdentityKnown(t, saved, order.orderId, order.orderLinkId) by { IdentityRead(t, saved, q, order); }
  }

  lemma IdentityRead(t: ProbeTrace, saved: SavedRun, q: Query, order: ExchangeOrder)
    requires SelectedIn(t, q, order)
    ensures IdentityKnown(t, saved, order.orderId, order.orderLinkId)
  {
    hide SelectedIn;
  }

  /** One saved intent: reconcile its order, then cancel, flatten or find the state clean. */
  method SettleIntent(ports: ProbePorts, context: RecoveryContext, ghost saved: SavedRun, intent: SavedIntent, canReadExposure: bool,
                      known: map<string, string>)
    returns (r: Result<bool, Thrown>, identities: map<string, string>)
    requires PostsAreSafe(ports.trace, context) && IsSaved(ports.trace, context.runId, saved) && intent in saved.intents
    requires IdentitiesKnown(ports.trace, saved, known)
    modifies ports
    ensures Extends(old(ports.trace), ports.trace) && PostsAreSafe(ports.trace, context)
    ensures r == Ok(true) ==> Settled(intent, ports.trace, |old(ports.trace)|) && IdentitiesKnown(ports.trace, saved, identities)
  {
    hide PostsAreSafe, CleanSince, QueryOf, Settled, IsMatch, IsTerminal, ParamOf, IsSaved, IdentitiesKnown, SelectedIn, RestingReadings, SelectOrder,
      MatchingOrders;
    ghost var start := ports.trace;
    identities := known;
    var query := QueryOf(intent);
    if query.None? {
      return Ok(false), identities;
    }
    var reconciled := ReconcileOrder(ports, query.value, context.realtimeAttempts, context.historyAttempts);
    ghost var looked := ports.trace;
    SafeQuietly(start, looked, context);
    if reconciled.Err? || reconciled.value.NotResolved? {
      return if reconciled.Err? then Err(Thrown) else Ok(false), identities;
    }
    var order := reconciled.value.order;
    identities := identities[order.orderId := order.orderLinkId];
    if intent.exchangeOrderId.None? {
      var updated := ports.UpdateIntent(intent.attemptId, order.orderId);
      if !updated {
        SafeQuietly(start, ports.trace, context);
        return Err(Thrown), identities;
      }
    }
    ghost var ready := ports.trace;
    SafeQuietly(start, ready, context);
    ReadyToSettle(start, looked, ready, context, saved, known, query.value, order);
    if reconciled.value.Resting? {
      var side := ParamOf(intent, "side");
      if side != Some("Buy") && side != Some("Sell") {
        return Ok(false), identities;
      }
      var cleanup := CleanupOwnedEntry(ports, context, saved, intent, order, side.value, query.value.category, query.value.symbol, identities.Keys);
      if cleanup.Err? {
        return Err(Thrown), identities;
      }
      r := Ok(!cleanup.value.CleanupUnresolved?);
    } else {
      r := SettleEnded(ports, context, saved, intent, canReadExposure, identities, query.value.category, query.value.symbol);
    }
    if r == Ok(true) {
      CleanEarlier(ports.trace, |looked|, |ready|, query.value.category, query.value.symbol);
      SettledBy(intent, start, looked, ports.trace);
      IdentitiesLater(ready, ports.trace, saved, identities);
    }
  }

  lemma ReadyToSettle(start: ProbeTrace, looked: ProbeTrace, ready: ProbeTrace, context: RecoveryContext, saved: SavedRun,
                      known: map<string, string>, q: Query, order: ExchangeOrder)
    requires Extends(start, looked) && Extends(looked, ready) && |looked| > 0 && Selects(looked[|looked| - 1], q, order)
    requires IsSaved(start, context.runId, saved) && IdentitiesKnown(start, saved, known)
    ensures IsSaved(ready, context.runId, saved) && SelectedIn(ready, q, order)
    ensures IdentitiesKnown(ready, saved, known[order.orderId := order.orderLinkId])
  {
    assert SelectedIn(looked, q, order);
    hide IsSaved, IdentitiesKnown, SelectedIn, Selects;
    SelectedLater(looked, ready, q, order);
    SavedLater(start, ready, context.runId, saved);
    IdentitiesLater(start, ready, saved, known);
    LearnIdentity(ready, saved, known, q, order);
  }

  predicate MatchesAccount(intent: SavedIntent, accountId: string) {
    intent.accountHash == Sha256(accountId)
  }

  predicate MatchesDigest(intent: SavedIntent, accountId: string) {
    HashProbePlan(intent.plan.(accountId := accountId)) == Ok(intent.planDigest)
  }

  function KnownOrders(intents: seq<SavedIntent>): map<string, string> {
    if intents == [] then map[]
    else
      var before, last := KnownOrders(intents[..|intents| - 1]), intents[|intents| - 1];
      if last.exchangeOrderId.Some? && last.orderLinkId.Some? then before[last.exchangeOrderId.value := last.orderLinkId.value] else before
  }

  lemma {:induction false} KnownFromIntents(intents: seq<SavedIntent>)
    ensures forall id :: id in KnownOrders(intents) ==>
              exists intent :: intent in intents && intent.exchangeOrderId == Some(id) && intent.orderLinkId == Some(KnownOrders(intents)[id])
  {
    if intents != [] {
      KnownFromIntents(intents[..|intents| - 1]);
      assert intents[|intents| - 1] in intents;
    }
  }

  /** Every intent of the run was made for this account and plan, and they were settled in turn. */
  ghost predicate RunIsClean(saved: SavedRun, accountId: string, t: ProbeTrace) {
    && saved.intents != []
    && (forall intent :: intent in saved.intents ==> MatchesAccount(intent, accountId) && MatchesDigest(intent, accountId))
    && exists cuts :: SettledInTurn(saved.intents, t, cuts)
  }

  /** The verdict on a saved run; a throw counts as unresolved, and a contradiction found earlier stays one. */
  method JudgeRun(ports: ProbePorts, context: RecoveryContext, saved: SavedRun, canReadExposure: bool) returns (verdict: Verdict)
    requires PostsAreSafe(ports.trace, context) && IsSaved(ports.trace, context.runId, saved)
    modifies ports
    ensures Extends(old(ports.trace), ports.trace) && PostsAreSafe(ports.trace, context)
    ensures verdict != UNRESOLVED ==> RunIsClean(saved, context.accountId, ports.trace)
    ensures verdict != UNRESOLVED ==> verdict == if saved.verdict == Some(CONTRADICTION) then CONTRADICTION else CONFIRMED_CLEAN
  {
    hide PostsAreSafe, Settled, HashProbePlan, KnownOrders, IsSaved, IdentitiesKnown;
    ghost var start := ports.trace;
    if saved.intents == [] {
      return UNRESOLVED;
    }
    if exists intent :: intent in saved.intents && !MatchesAccount(intent, context.accountId) {
      return UNRESOLVED;
    }
    if exists intent :: intent in saved.intents && !MatchesDigest(intent, context.accountId) {
      return UNRESOLVED;
    }
    var identities := KnownOrders(saved.intents);
    SavedIdentities(start, saved);
    ghost var cuts: seq<nat> := [|start|];
    for i := 0 to |saved.intents|
      invariant Extends(start, ports.trace) && PostsAreSafe(ports.trace, context)
      invariant IdentitiesKnown(ports.trace, saved, identities)
      invariant SettledInTurn(saved.intents[..i], ports.trace, cuts) && cuts[i] == |ports.trace|
    {
      ghost var before := ports.trace;
      SavedLater(start, before, context.runId, saved);
      var settled;
      settled, identities := SettleIntent(ports, context, saved, saved.intents[i], canReadExposure, identities);
      if settled != Ok(true) {
        return UNRESOLVED;
      }
      NextInTurn(saved.intents, i, before, ports.trace, cuts);
      cuts := cuts + [|ports.trace|];
    }
    assert saved.intents[..|saved.intents|] == saved.intents;
    verdict := if saved.verdict == Some(CONTRADICTION) then CONTRADICTION else CONFIRMED_CLEAN;
  }

  lemma SavedIdentities(t: ProbeTrace, saved: SavedRun)
    ensures IdentitiesKnown(t, saved, KnownOrders(saved.intents))
  {
    KnownFromIntents(saved.intents);
    hide KnownOrders, SelectedIn;
  }

  ghost predicate CleanEvidence(t: ProbeTrace, runId: string, accountId: string) {
    exists runs :: RunsListed(Some(runs)) in t && CleanRun(runs, runId, accountId, t)
  }

  ghost predicate CleanRun(runs: seq<SavedRun>, runId: string, accountId: string, t: ProbeTrace) {
    var saved := FindRun(runs, runId);
    saved.Some? && (saved.value.verdict == Some(CONFIRMED_CLEAN) || RunIsClean(saved.value, accountId, t))
  }

  /**
   * Recovery of a saved run.  Every exchange write is safe; the run is confirmed clean only if it was
   * already, or if every saved intent matches the account and its digest and its symbol was read clean
   * after its own bounded reconciliation.
   */
  method RecoverInterruptedRun(ports: ProbePorts, context: RecoveryContext, canReadExposure: bool) returns (r: Result<Verdict, Thrown>)
    requires ports.trace == []
    modifies ports
    ensures PostsAreSafe(ports.trace, context)
    ensures r == Ok(CONFIRMED_CLEAN) ==> CleanEvidence(ports.trace, context.runId, context.accountId)
    ensures r.Ok? && r.value in {UNRESOLVED, CONTRADICTION} ==> VerdictWritten(r.value) in ports.trace
  {
    hide PostsAreSafe, RunIsClean, FindRun;
    NothingPosted(context);
    var locked := ports.TakeLock();
    SafeQuietly([], ports.trace, context);
    if !locked {
      return Ok(PRECONDITION_FAILED);
    }
    ghost var start := ports.trace;
    r := RecoverLocked(ports, context, canReadExposure);
    ghost var judged := ports.trace;
    ports.ReleaseLock();
    SafeQuietly(judged, ports.trace, context);
    if r.Ok? && r.value in {UNRESOLVED, CONTRADICTION} {
      KeptIn(judged, ports.trace, VerdictWritten(r.value));
    }
    if r == Ok(CONFIRMED_CLEAN) {
      EvidenceLater(judged, ports.trace, context.runId, context.accountId);
    }
  }

  method RecoverLocked(ports: ProbePorts, context: RecoveryContext, canReadExposure: bool) returns (r: Result<Verdict, Thrown>)
    requires PostsAreSafe(ports.trace, context)
    modifies ports
    ensures Extends(old(ports.trace), ports.trace) && PostsAreSafe(ports.trace, context)
    ensures r == Ok(CONFIRMED_CLEAN) ==> CleanEvidence(ports.trace, context.runId, context.accountId)
    ensures r.Ok? && r.value in {UNRESOLVED, CONTRADICTION} ==> VerdictWritten(r.value) in ports.trace
  {
    hide PostsAreSafe, RunIsClean, FindRun;
    ghost var start := ports.trace;
    var runs := ports.ListRuns();
    ghost var listed := ports.trace;
    SafeQuietly(start, listed, context);
    var verdict := UNRESOLVED;
    if runs.Some? {
      var saved := FindRun(runs.value, context.runId);
      if saved.None? {
        return Ok(PRECONDITION_FAILED);
      }
      if saved.value.verdict == Some(CONFIRMED_CLEAN) {
        assert ports.trace[|start|] == RunsListed(runs);
        assert CleanRun(runs.value, context.runId, context.accountId, ports.trace);
        return Ok(CONFIRMED_CLEAN);
      }
      assert ports.trace[|start|] == RunsListed(runs);
      assert IsSaved(ports.trace, context.runId, saved.value);
      verdict := JudgeRun(ports, context, saved.value, canReadExposure);
    }
    ghost var judged := ports.trace;
    var written := ports.WriteVerdict(verdict);
    SafeQuietly(judged, ports.trace, context);
    if verdict == CONFIRMED_CLEAN {
      assert ports.trace[|start|] == RunsListed(runs);
      RunStaysClean(FindRun(runs.value, context.runId).value, context.accountId, judged, ports.trace);
      assert CleanRun(runs.value, context.runId, context.accountId, ports.trace);
    }
    r := if written then Ok(verdict) else Err(Thrown);
  }

  lemma NothingPosted(context: RecoveryContext)
    ensures PostsAreSafe([], context)
  {
  }

  lemma RunStaysClean(saved: SavedRun, accountId: string, before: ProbeTrace, after: ProbeTrace)
    requires RunIsClean(saved, accountId, before) && Extends(before, after)
    ensures RunIsClean(saved, accountId, after)
  {
    hide SettledInTurn, MatchesDigest;
    var cuts :| SettledInTurn(saved.intents, before, cuts);
    InTurnLater(saved.intents, before, after, cuts);
  }

  lemma EvidenceLater(before: ProbeTrace, after: ProbeTrace, runId: string, accountId: string)
    requires CleanEvidence(before, runId, accountId) && Extends(before, after)
    ensures CleanEvidence(after, runId, accountId)
  {
    hide RunIsClean, FindRun;
    var runs :| RunsListed(Some(runs)) in before && CleanRun(runs, runId, accountId, before);
    KeptIn(before, after, RunsListed(Some(runs)));
    if FindRun(runs, runId).value.verdict != Some(CONFIRMED_CLEAN) {
      RunStaysClean(FindRun(runs, runId).value, accountId, before, after);
    }
    assert CleanRun(runs, runId, accountId, after);
  }
}
