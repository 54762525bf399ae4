/** The rows an accounting epoch is made of: which observations it selects from and what each selected one adds. */
module EpochRows {
  import opened Common
  import opened Sums
  import opened Decimals
  import opened Coverage
  import opened History
  import opened Selection
  import opened Normalization
  import opened Bridge
  import opened Anchors

  // -------------------------------------------------- selection observations

  /** A relevant transaction of the same ID. */
  predicate SharesTransaction(o: Observation, input: EpochInput, from: int, to: int) {
    o.fact.body.TransactionBody? &&
    exists p :: p in input.observations && IsTransaction(p, o.fact.body.transaction.transactionId) && InEpochOrBoundary(p, input, from, to)
  }

  /** An execution of an order closed in the epoch. */
  predicate SupportsClose(o: Observation, input: EpochInput, from: int, to: int) {
    o.fact.body.ExecutionBody? &&
    exists p :: p in input.observations && p.fact.body.ClosedPnlBody? && p.fact.body.row.orderId == o.fact.body.execution.orderId
                && InEpoch(p, from, to)
  }

  predicate Relevant(o: Observation, input: EpochInput, from: int, to: int) {
    InEpochOrBoundary(o, input, from, to) || SharesTransaction(o, input, from, to) || SupportsClose(o, input, from, to)
  }

  function RelevantOf(observations: seq<Observation>, input: EpochInput, from: int, to: int): seq<Observation> {
    if observations == [] then []
    else
      var last := observations[|observations| - 1];
      RelevantOf(observations[..|observations| - 1], input, from, to) + if Relevant(last, input, from, to) then [last] else []
  }

  lemma {:induction false} RelevantMembers(observations: seq<Observation>, input: EpochInput, from: int, to: int)
    ensures forall o :: o in RelevantOf(observations, input, from, to) <==> o in observations && Relevant(o, input, from, to)
  {
    if observations != [] {
      hide Relevant;
      var init, last := observations[..|observations| - 1], observations[|observations| - 1];
      RelevantMembers(init, input, from, to);
      assert forall o :: o in observations <==> o in init || o == last;
    }
  }

  lemma {:induction false} RelevantKeepsIds(observations: seq<Observation>, input: EpochInput, from: int, to: int)
    requires DistinctIds(observations)
    ensures DistinctIds(RelevantOf(observations, input, from, to))
  {
    if observations != [] {
      hide Relevant;
      var init, last := observations[..|observations| - 1], observations[|observations| - 1];
      RelevantKeepsIds(init, input, from, to);
      RelevantMembers(init, input, from, to);
      assert forall p :: p in init ==> p.observationId != last.observationId;
    }
  }

  function ConflictsInEpoch(conflicts: seq<StoredConflict>, input: EpochInput, from: int, to: int): seq<StoredConflict> {
    if conflicts == [] then []
    else
      var last := conflicts[|conflicts| - 1];
      ConflictsInEpoch(conflicts[..|conflicts| - 1], input, from, to) + if ConflictIsInEpoch(last, input, from, to) then [last] else []
  }

  lemma {:induction false} ConflictMembers(conflicts: seq<StoredConflict>, input: EpochInput, from: int, to: int)
    ensures forall c :: c in ConflictsInEpoch(conflicts, input, from, to) <==> c in conflicts && ConflictIsInEpoch(c, input, from, to)
  {
    if conflicts != [] {
      hide ConflictIsInEpoch;
      var init, last := conflicts[..|conflicts| - 1], conflicts[|conflicts| - 1];
      ConflictMembers(init, input, from, to);
      assert forall c :: c in conflicts <==> c in init || c == last;
    }
  }

  predicate SelectionConflictIsInEpoch(c: SelectionConflict, observations: seq<Observation>, input: EpochInput, from: int, to: int) {
    (exists o :: o in observations && o.observationId in c.observationIds) ==>
      exists o :: o in observations && o.observationId in c.observationIds && InEpochOrBoundary(o, input, from, to)
  }

  // -------------------------------------------------------------- movements

  /** The row of a normalised transaction, whose printed amounts are parsed again. */
  function RowFrom(n: NormalizedTransaction): Row {
    Row(n.category, n.movementKind, n.currency, Reparsed(n.change), Reparsed(n.bonusChange), n.componentCheck)
  }

  function Reparsed(amount: Option<string>): Option<Normal> {
    if amount.Some? then ParseAmount(amount.value) else None
  }

  function MovementReasons(n: NormalizedTransaction): set<Reason> {
    var row := RowFrom(n);
    (if (n.change.Some? && row.change.None?) || (n.bonusChange.Some? && row.bonusChange.None?) then {InvalidHistoryEvidence} else {})
    + (if row.movementKind == UnknownMovement then {UnknownTransactionType} else {})
    + (if row.movementKind != TransferMovement && row.category != Some("linear") then {UnsupportedTransactionCategory} else {})
    + (if row.currency.None? then {UnknownTransactionCurrency} else {})
    + (if row.change.None? then {UnknownTransactionChange} else {})
    + (if row.componentCheck == Incomplete then {TransactionComponentsIncomplete} else {})
    + (if row.componentCheck == Mismatched then {TransactionComponentMismatch} else {})
    + (if row.currency.Some? && row.currency != Some(USDT) then {UnsupportedCurrency} else {})
    + (if row.bonusChange.Some? && row.bonusChange.value.coefficient != 0 then {UnsupportedBonusMovement} else {})
  }

  /** What one selected observation raises. */
  function ObservationReasons(o: Observation, input: EpochInput, from: int, to: int): set<Reason> {
    if o.eventTime.ms.None? then {InvalidHistoryEvidence}
    else
      (if !o.fact.body.OrderBody? && AtBoundary(o.eventTime.ms.value, input, from, to) then {AnchorBoundaryEventAmbiguous} else {})
      + (if !o.fact.body.TransactionBody? || !InEpoch(o, from, to) then {}
         else if NormalizeTransaction(o).Err? then {InvalidHistoryEvidence}
         else MovementReasons(NormalizeTransaction(o).value))
  }

  /** A linear or transfer movement in USDT whose change is what its components add up to, without a bonus. */
  ghost predicate Settled(t: Transaction) {
    && Readable(t) && Explained(t)
    && MovementKindOf(t) != UnknownMovement
    && (MovementKindOf(t) == TransferMovement || t.category == Some("linear"))
    && t.currency == Some(USDT)
    && (t.bonusChange.Some? ==> Stated(t.bonusChange) && Amount(t.bonusChange) == 0.0)
  }

  ghost predicate Sound(o: Observation, input: EpochInput, from: int, to: int) {
    && o.eventTime.ms.Some?
    && (!o.fact.body.OrderBody? ==> !AtBoundary(o.eventTime.ms.value, input, from, to))
    && (o.fact.body.TransactionBody? && InEpoch(o, from, to) ==> Settled(o.fact.body.transaction))
  }

  lemma BonusMeaning(o: Observation)
    requires ValidObservation(o) && o.fact.body.TransactionBody? && Readable(o.fact.body.transaction)
    ensures var (t, n) := (o.fact.body.transaction, NormalizeTransaction(o));
            n.Ok? && (n.value.bonusChange.Some? <==> t.bonusChange.Some?)
            && (t.bonusChange.Some? ==>
                  && Stated(t.bonusChange) && Reparsed(n.value.bonusChange).Some?
                  && (Reparsed(n.value.bonusChange).value.coefficient == 0 <==> Amount(t.bonusChange) == 0.0))
  {
    var t := o.fact.body.transaction;
    NormalizationMeaning(o);
    ReadableFields(t);
    FieldMeaning(t.bonusChange);
    PrintedMeaning(DecimalField(t.bonusChange).value);
    hide Value, Amount, Stated, Readable, ParseAmount, Explained, MovementKindOf, Movement, ExpectedChange, CheckComponents;
    if t.bonusChange.Some? {
      SignOfValue(DecimalField(t.bonusChange).value.value);
    }
  }

  lemma RowFacts(o: Observation)
    requires ValidObservation(o) && o.fact.body.TransactionBody? && Readable(o.fact.body.transaction)
    ensures var (t, n) := (o.fact.body.transaction, NormalizeTransaction(o));
      && n.Ok?
      && var row := RowFrom(n.value);
         && row.movementKind == MovementKindOf(t) && row.category == t.category && row.currency == t.currency
         && (row.change.Some? <==> n.value.change.Some?)
         && (row.componentCheck == Matched <==> Explained(t))
         && (Explained(t) ==> row.change.Some? && Value(row.change.value) == Movement(t))
  {
    NormalizationMeaning(o);
    var t := o.fact.body.transaction;
    ReadableFields(t);
    PrintedMeaning(DecimalField(t.change).value);
    hide Value, Readable, ValidObservation, MovementKindOf, Movement, HasComponents, ExpectedChange, CheckComponents, DecimalField, Printed;
  }

  lemma SettledRaisesNothing(o: Observation)
    requires ValidObservation(o) && o.fact.body.TransactionBody?
    ensures (NormalizeTransaction(o).Ok? && MovementReasons(NormalizeTransaction(o).value) == {}) <==> Settled(o.fact.body.transaction)
  {
    var t := o.fact.body.transaction;
    NormalizationMeaning(o);
    if Readable(t) {
      RowFacts(o);
      BonusMeaning(o);
      hide NormalizeTransaction, Value, Amount, Stated, Readable, ValidObservation, Explained, MovementKindOf, Movement, Reparsed, HasComponents;
      var reasons := MovementReasons(NormalizeTransaction(o).value);
      assert reasons == {} ==>
        && InvalidHistoryEvidence !in reasons && UnknownTransactionType !in reasons && UnsupportedTransactionCategory !in reasons
        && UnknownTransactionCurrency !in reasons && UnknownTransactionChange !in reasons
        && TransactionComponentsIncomplete !in reasons && TransactionComponentMismatch !in reasons
        && UnsupportedCurrency !in reasons && UnsupportedBonusMovement !in reasons;
    }
  }

  /** A selected observation raises nothing exactly when it is sound. */
  lemma QuietObservation(o: Observation, input: EpochInput, from: int, to: int)
    requires ValidObservation(o)
    ensures ObservationReasons(o, input, from, to) == {} <==> Sound(o, input, from, to)
  {
    if o.fact.body.TransactionBody? {
      SettledRaisesNothing(o);
    }
    hide Settled, AtBoundary, InEpoch, MovementReasons, NormalizeTransaction, ValidObservation;
    var reasons := ObservationReasons(o, input, from, to);
    assert reasons == {} ==> InvalidHistoryEvidence !in reasons && AnchorBoundaryEventAmbiguous !in reasons;
  }
}
