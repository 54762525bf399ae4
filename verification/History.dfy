/** Stored history observations, their facts and the conflicts recorded for them (src/ports/history-store.ts). */
module History {
  import opened Common
  import opened Coverage

  /** A timestamp string with the epoch millisecond it parses to, if it is one. */
  datatype Timestamp = Timestamp(text: string, ms: Option<int>)

  datatype Execution = Execution(
    orderId: string, category: string, symbol: string, side: string, execType: string,
    execQty: string, execPrice: string, execFee: Option<string>, feeCurrency: Option<string>,
    execFeeV2: Option<string>, extraFees: Option<string>)

  datatype GroupingKey = GroupingKey(category: string, symbol: string, orderId: string, createdTime: string)

  datatype ClosedPnlRow = ClosedPnlRow(
    groupingKey: GroupingKey, category: string, symbol: string, orderId: string, closedPnl: Option<string>,
    openFee: Option<string>, closeFee: Option<string>, fundingFee: Option<string>, fillCount: Option<string>)

  /** `kind` and `subKind` are the provider's type and subtype, trimmed and in upper case. */
  datatype Transaction = Transaction(
    transactionId: string, category: Option<string>, symbol: Option<string>, side: Option<string>,
    orderId: Option<string>, currency: Option<string>, kind: Option<string>, subKind: Option<string>,
    qty: Option<string>, tradePrice: Option<string>, cashFlow: Option<string>, funding: Option<string>,
    fee: Option<string>, change: Option<string>, bonusChange: Option<string>, cashBalance: Option<string>)

  datatype FactBody =
    | OrderBody
    | ExecutionBody(execution: Execution)
    | ClosedPnlBody(row: ClosedPnlRow)
    | TransactionBody(transaction: Transaction)

  datatype Fact = Fact(
    contentHash: string, eventTime: Timestamp, revisionTime: Option<Timestamp>, collectedAt: string, body: FactBody)

  datatype Observation = Observation(
    observationId: string, scope: Scope, source: Source, eventIdentity: string, contentHash: string,
    eventTime: Timestamp, revisionTime: Option<Timestamp>, collectedAt: string, fact: Fact)

  datatype ConflictReason = ImmutableIdContentChanged | OrderRevisionContentChanged

  datatype StoredConflict = StoredConflict(
    conflictId: string, source: Source, eventIdentity: string, reason: ConflictReason,
    windows: Option<seq<(string, Interval)>>)

  function SourceOf(body: FactBody): Source {
    match body
    case OrderBody => OrderHistory
    case ExecutionBody(_) => Executions
    case ClosedPnlBody(_) => ClosedPnl
    case TransactionBody(_) => TransactionLog
  }

  /** The copies of the fact's fields on the observation agree with it, and a transaction is identified by its ID. */
  predicate ValidObservation(o: Observation) {
    && o.observationId != ""
    && o.contentHash == o.fact.contentHash
    && o.eventTime == o.fact.eventTime
    && o.revisionTime == o.fact.revisionTime
    && o.collectedAt == o.fact.collectedAt
    && o.source == SourceOf(o.fact.body)
    && (o.fact.body.TransactionBody? ==> o.eventIdentity == "transaction:" + o.fact.body.transaction.transactionId)
  }

  predicate IsTransaction(o: Observation, id: string) {
    o.fact.body.TransactionBody? && o.fact.body.transaction.transactionId == id
  }

  predicate InGroup(o: Observation, key: GroupingKey) {
    o.fact.body.ClosedPnlBody? && o.fact.body.row.groupingKey == key
  }

  /** No two observations share an ID. */
  ghost predicate DistinctIds(obs: seq<Observation>) {
    forall i, j :: 0 <= i < j < |obs| ==> obs[i].observationId != obs[j].observationId
  }

  ghost predicate IdsIdentify(obs: set<Observation>) {
    forall a, b :: a in obs && b in obs && a.observationId == b.observationId ==> a == b
  }
}
