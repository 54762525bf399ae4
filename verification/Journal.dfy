/**
 * The durable journal and the exchange as the guarded Demo entry sees them (src/ports/persistence.ts,
 * exchange-execution.ts).  Every call may fail or answer anything; a ghost trace records each call
 * with its answer, and the safety properties are stated of that trace.
 */
module Journal {
  import opened Common
  import opened Decimals

  datatype Side = Buy | Sell

  datatype JournalScope = JournalScope(exchange: string, environment: string, accountId: string, category: string, positionMode: string)

  datatype Intent = Intent(intentId: string, instrument: string, side: Side, quantity: Normal)

  datatype Plan = Plan(planHash: string, intents: seq<Intent>)

  datatype OwnedIntent = OwnedIntent(intentId: string, planHash: string, clientOrderId: string, preparedAt: int)

  datatype Acknowledgement = Accepted | Rejected | AckPending

  datatype TerminalStatus = Unverified | OpenSeen | FilledSeen | CancelledSeen | RejectedSeen

  datatype Attempt = Attempt(
    attemptId: string, planHash: string, intentId: string, clientOrderId: string, submittedAt: int,
    acknowledgement: Acknowledgement, terminalStatus: TerminalStatus, exchangeOrderId: Option<string>)

  datatype IdentityBinding = IdentityBinding(attemptId: string, exchangeOrderId: string)

  datatype RunStatus = RECONCILED | PARTIAL | FAILED | PENDING | UNRESOLVED

  datatype Reconciliation = Reconciliation(status: RunStatus, exchangeOrderId: Option<string>)

  /** What the journal holds of one lineage. */
  datatype Run = Run(
    lineageId: string, scope: JournalScope, plan: Plan, ownedIntents: seq<OwnedIntent>, attempts: seq<Attempt>,
    bindings: seq<IdentityBinding>, reconciliations: seq<Reconciliation>)

  datatype OrderStatus = OrderOpen | OrderFilled | OrderPartiallyFilled | OrderCancelled | OrderRejected

  datatype Order = Order(
    exchangeOrderId: string, clientOrderId: string, instrument: string, side: Side, requestedQuantity: Normal,
    filledQuantity: Normal, status: OrderStatus, parentOrderLinkId: Option<string>, isTakeProfit: bool, observedAt: int)

  datatype Fill = Fill(fillId: string, attemptId: string, exchangeOrderId: string, instrument: string, side: Side, quantity: Normal)

  /** What an order, or its fills, are asked for by. */
  datatype OrderQuery = OrderQuery(instrument: string, clientOrderId: string, exchangeOrderId: Option<string>)

  datatype Role = Parent | Protection

  /** What is stored of an observation's identity: it cannot be read, is absent, or is the order observed then. */
  datatype Held = Unreadable | Absent | Held(order: Order)

  /** A stored fact; `None` where its artifact cannot be read back. */
  datatype StoredFact =
    | ObservationFact(eventIdentity: string, order: Option<Order>)
    | FillFact(fill: Option<Fill>)
    | LedgerFact(fillReference: Option<string>)
    | OtherFact

  datatype KeyMetadata = KeyMetadata(
    accountId: string, userId: string, readOnly: bool, mayOrder: bool, mayPosition: bool, mayWithdraw: bool, mayTransfer: bool,
    ipBinding: string, ips: seq<string>, expiresAt: string)

  datatype MarketScope = MarketScope(exchange: string, environment: string, category: string, positionMode: string)

  datatype Constraints = Constraints(
    instrument: string, version: string, priceTickSize: Normal, quantityStep: Normal, minQuantity: Normal, minNotional: Option<Normal>)

  datatype Position = Position(instrument: string, side: string, quantity: Normal, entryPrice: Option<Normal>)

  datatype OpenOrder = OpenOrder(
    exchangeOrderId: string, clientOrderId: string, instrument: string, side: string, requestedQuantity: Normal,
    filledQuantity: Normal, status: OrderStatus, parentOrderLinkId: Option<string>)

  /** One reading of the exchange. */
  datatype ExchangeState = ExchangeState(
    ready: bool, accountScope: MarketScope, marketScope: MarketScope, instrument: string, constraints: Constraints,
    keys: KeyMetadata, leverage: Normal, positions: seq<Position>, openOrders: seq<OpenOrder>)

  datatype Halt = Halt(active: bool, reconciliationRequired: bool, revision: nat)

  datatype Failure =
    | PlanExpired | HaltActive | UnresolvedState | OwnershipMismatch | PersistenceEnvironment | CapabilityUnsupported
    | ConstraintViolation | PersistenceIntegrity | PortFailure

  datatype ExchangeFailure =
    | Configuration | Authentication | Permission | ClockSkew | RateLimited | AmbiguousOutcome | OwnershipFailure | Precondition
    | InvalidResponse | Transport | ExchangeError

  /** What the exchange answered to an order; after a failure it may have been created all the same. */
  datatype Answer = Acknowledged(status: Acknowledgement, exchangeOrderId: Option<string>) | Failed(kind: ExchangeFailure)

  /** A call of a port with what it answered; `None` or `false` where it failed.  `IsWrite` says which write to the exchange. */
  datatype Event =
    | ClockRead(now: int)
    | LeaseAcquired(done: bool)
    | LeaseRenewed(at: int, reconciliationRequired: Option<bool>)
    | LeaseReleased(done: bool)
    | HaltRead(halt: Option<Halt>)
    | HaltRaised(done: bool)
    | HaltCleared(revision: nat)
    | RunsRead(runs: Option<seq<Run>>)
    | FactsRead(facts: Option<seq<StoredFact>>)
    | ObservationRead(lineageId: string, role: Role, order: Order, held: Held)
    | ObservationStored(lineageId: string, role: Role, order: Order, done: bool)
    | AccountingIngested(lineageId: string, attemptId: string, ingested: seq<Fill>, done: bool)
    | LineagePrepared(plan: Plan, lineage: Option<string>)
    | IntentPrepared(lineageId: string, intentId: string, clientOrderId: string, done: bool)
    | AttemptAppended(lineageId: string, attempt: Attempt, done: bool)
    | BindingAppended(lineageId: string, attempt: Attempt, order: Order, exchangeOrderId: Option<string>)
    | ReconciliationAppended(lineageId: string, result: Reconciliation, done: bool)
    | StateRead(target: string, state: Option<ExchangeState>)
    | OrderObserved(query: OrderQuery, observed: Option<Order>)
    | FillsListed(query: OrderQuery, fills: Option<seq<Fill>>)
    | ProtectionListed(instrument: string, parentClientOrderId: string, children: Option<seq<Order>>)
    | LeverageSet(instrument: string)
    | OrderCreated(intent: Intent, clientOrderId: string)
    | OrderAnswered(answer: Answer)

  predicate IsWrite(e: Event) {
    e.LeverageSet? || e.OrderCreated?
  }

  type Trace = seq<Event>

  /** The ports.  The state behind them is not constrained: each call records itself and answers anything. */
  class Ports {
    ghost var trace: Trace

    /** Whether accounting can be ingested at all. */
    const hasIngestor: bool

    constructor (hasIngestor: bool)
      ensures trace == [] && this.hasIngestor == hasIngestor
    {
      trace, this.hasIngestor := [], hasIngestor;
    }

    /** A value of the domain could be built; nothing outside is asked. */
    method Built() returns (ok: bool)
    {
      ok := *;
    }

    method Now() returns (now: int)
      modifies this
      ensures trace == old(trace) + [ClockRead(now)]
    {
      now := *;
      trace := trace + [ClockRead(now)];
    }

    method AcquireLease() returns (done: bool)
      modifies this
      ensures trace == old(trace) + [LeaseAcquired(done)]
    {
      done := *;
      trace := trace + [LeaseAcquired(done)];
    }

    method RenewLease(now: int) returns (reconciliationRequired: Option<bool>)
      modifies this
      ensures trace == old(trace) + [LeaseRenewed(now, reconciliationRequired)]
    {
      reconciliationRequired := *;
      trace := trace + [LeaseRenewed(now, reconciliationRequired)];
    }

    method ReleaseLease() returns (done: bool)
      modifies this
      ensures trace == old(trace) + [LeaseReleased(done)]
    {
      done := *;
      trace := trace + [LeaseReleased(done)];
    }

    method ReadHalt() returns (halt: Option<Halt>)
      modifies this
      ensures trace == old(trace) + [HaltRead(halt)]
    {
      halt := *;
      trace := trace + [HaltRead(halt)];
    }

    method RaiseHalt() returns (done: bool)
      modifies this
      ensures trace == old(trace) + [HaltRaised(done)]
    {
      done := *;
      trace := trace + [HaltRaised(done)];
    }

    method ClearHalt(revision: nat) returns (done: bool)
      modifies this
      ensures trace == old(trace) + [HaltCleared(revision)]
    {
      done := *;
      trace := trace + [HaltCleared(revision)];
    }

    method ReadRuns() returns (runs: Option<seq<Run>>)
      modifies this
      ensures trace == old(trace) + [RunsRead(runs)]
    {
      runs := *;
      trace := trace + [RunsRead(runs)];
    }

    method ReadFacts() returns (facts: Option<seq<StoredFact>>)
      modifies this
      ensures trace == old(trace) + [FactsRead(facts)]
    {
      facts := *;
      trace := trace + [FactsRead(facts)];
    }

    method ReadObservation(lineageId: string, role: Role, order: Order) returns (held: Held)
      modifies this
      ensures trace == old(trace) + [ObservationRead(lineageId, role, order, held)]
    {
      held := *;
      trace := trace + [ObservationRead(lineageId, role, order, held)];
    }

    method StoreObservation(lineageId: string, role: Role, order: Order) returns (done: bool)
      modifies this
      ensures trace == old(trace) + [ObservationStored(lineageId, role, order, done)]
    {
      done := *;
      trace := trace + [ObservationStored(lineageId, role, order, done)];
    }

    method IngestAccounting(lineageId: string, attemptId: string, fills: seq<Fill>) returns (done: bool)
      modifies this
      ensures trace == old(trace) + [AccountingIngested(lineageId, attemptId, fills, done)]
    {
      done := *;
      trace := trace + [AccountingIngested(lineageId, attemptId, fills, done)];
    }

    method PrepareLineage(plan: Plan) returns (lineageId: Option<string>)
      modifies this
      ensures trace == old(trace) + [LineagePrepared(plan, lineageId)]
    {
      lineageId := *;
      trace := trace + [LineagePrepared(plan, lineageId)];
    }

    method PrepareOwnedIntent(lineageId: string, intentId: string, clientOrderId: string) returns (done: bool)
      modifies this
      ensures trace == old(trace) + [IntentPrepared(lineageId, intentId, clientOrderId, done)]
    {
      done := *;
      trace := trace + [IntentPrepared(lineageId, intentId, clientOrderId, done)];
    }

    method AppendAttempt(lineageId: string, attempt: Attempt) returns (done: bool)
      modifies this
      ensures trace == old(trace) + [AttemptAppended(lineageId, attempt, done)]
    {
      done := *;
      trace := trace + [AttemptAppended(lineageId, attempt, done)];
    }

    /** Fails, leaves the identity unresolved, or binds it. */
    method AppendIdentityBinding(lineageId: string, attempt: Attempt, order: Order) returns (done: bool, exchangeOrderId: Option<string>)
      modifies this
      ensures trace == old(trace) + [BindingAppended(lineageId, attempt, order, exchangeOrderId)]
    {
      done, exchangeOrderId := *, *;
      trace := trace + [BindingAppended(lineageId, attempt, order, exchangeOrderId)];
    }

    method AppendReconciliation(lineageId: string, result: Reconciliation) returns (done: bool)
      modifies this
      ensures trace == old(trace) + [ReconciliationAppended(lineageId, result, done)]
    {
      done := *;
      trace := trace + [ReconciliationAppended(lineageId, result, done)];
    }

    method ReadState(instrument: string) returns (state: Option<ExchangeState>)
      modifies this
      ensures trace == old(trace) + [StateRead(instrument, state)]
    {
      state := *;
      trace := trace + [StateRead(instrument, state)];
    }

    method ObserveOrder(query: OrderQuery) returns (order: Option<Order>)
      modifies this
      ensures trace == old(trace) + [OrderObserved(query, order)]
    {
      order := *;
      trace := trace + [OrderObserved(query, order)];
    }

    method ListFills(query: OrderQuery) returns (fills: Option<seq<Fill>>)
      modifies this
      ensures trace == old(trace) + [FillsListed(query, fills)]
    {
      fills := *;
      trace := trace + [FillsListed(query, fills)];
    }

    method ListAttachedProtection(instrument: string, parentClientOrderId: string) returns (children: Option<seq<Order>>)
      modifies this
      ensures trace == old(trace) + [ProtectionListed(instrument, parentClientOrderId, children)]
    {
      children := *;
      trace := trace + [ProtectionListed(instrument, parentClientOrderId, children)];
    }

    /** The leverage read back, or nothing: the write may have taken effect either way. */
    method SetLeverage(instrument: string) returns (effective: Option<Normal>)
      modifies this
      ensures trace == old(trace) + [LeverageSet(instrument)]
    {
      effective := *;
      trace := trace + [LeverageSet(instrument)];
    }

    method CreateOrder(intent: Intent, clientOrderId: string) returns (answer: Answer)
      modifies this
      ensures trace == old(trace) + [OrderCreated(intent, clientOrderId)] + [OrderAnswered(answer)]
    {
      answer := *;
      trace := trace + [OrderCreated(intent, clientOrderId)] + [OrderAnswered(answer)];
    }
  }
}
