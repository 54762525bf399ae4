/**
 * Reconciliation of an accounting epoch (`project`, src/application/history-accounting-epoch.ts):
 * two wallet anchors, the stored history between them, and whether one explains the other.
 */
module Epoch {
  import opened Common
  import opened Sums
  import opened Orders
  import opened Decimals
  import opened Coverage
  import opened History
  import opened Selection
  import opened SelectEvidence
  import opened Normalization
  import opened Bridge
  import opened Matching
  import opened Anchors
  import opened EpochRows

  datatype Status = Reconciled | NotReady

  /** A boundary is `None` where the source prints "unknown". */
  datatype Projection = Projection(
    status: Status, ready: bool, scope: Scope, openingAnchorId: string, closingAnchorId: string,
    openingBoundary: Option<Timestamp>, closingBoundary: Option<Timestamp>, sourceCoverage: seq<SourceCoverage>,
    currencies: seq<CurrencyBridge>, selectedTransactionCount: nat, reasonCodes: set<Reason>)

  // --------------------------------------------------------- selected facts

  /** The selected transactions of the epoch. */
  function LedgerOf(selected: seq<Observation>, from: int, to: int): seq<Observation> {
    if selected == [] then []
    else
      var last := selected[|selected| - 1];
      LedgerOf(selected[..|selected| - 1], from, to) + if last.fact.body.TransactionBody? && InEpoch(last, from, to) then [last] else []
  }

  function RowsFrom(ledger: seq<Observation>): seq<Row> {
    if ledger == [] then []
    else
      var n := NormalizeTransaction(ledger[|ledger| - 1]);
      RowsFrom(ledger[..|ledger| - 1]) + if n.Ok? then [RowFrom(n.value)] else []
  }

  function TransactionsIn(ledger: seq<Observation>): seq<Transaction> {
    if ledger == [] then []
    else
      var body := ledger[|ledger| - 1].fact.body;
      TransactionsIn(ledger[..|ledger| - 1]) + if body.TransactionBody? then [body.transaction] else []
  }

  /** The selected executions of known time; of the epoch only, or all of them. */
  function ExecutionsIn(selected: seq<Observation>, from: int, to: int, epochOnly: bool): seq<Execution> {
    if selected == [] then []
    else
      var last := selected[|selected| - 1];
      ExecutionsIn(selected[..|selected| - 1], from, to, epochOnly)
      + if last.fact.body.ExecutionBody? && last.eventTime.ms.Some? && (!epochOnly || InEpoch(last, from, to))
        then [last.fact.body.execution] else []
  }

  function ClosesIn(selected: seq<Observation>, from: int, to: int): seq<ClosedPnlRow> {
    if selected == [] then []
    else
      var last := selected[|selected| - 1];
      ClosesIn(selected[..|selected| - 1], from, to)
      + if last.fact.body.ClosedPnlBody? && InEpoch(last, from, to) then [last.fact.body.row] else []
  }

  function SelectedReasons(selected: seq<Observation>, input: EpochInput, from: int, to: int): set<Reason> {
    if selected == [] then {}
    else SelectedReasons(selected[..|selected| - 1], input, from, to) + ObservationReasons(selected[|selected| - 1], input, from, to)
  }

  lemma LedgerStep(ledger: seq<Observation>, o: Observation)
    requires o.fact.body.TransactionBody?
    ensures RowsFrom(ledger + [o]) == RowsFrom(ledger) + if NormalizeTransaction(o).Ok? then [RowFrom(NormalizeTransaction(o).value)] else []
    ensures TradesOf(TransactionsIn(ledger + [o]))
            == TradesOf(TransactionsIn(ledger)) + if IsTrade(o.fact.body.transaction) then [o.fact.body.transaction] else []
  {
    hide NormalizeTransaction, RowFrom, IsTrade;
    assert (ledger + [o])[..|ledger|] == ledger;
    var before, t := TransactionsIn(ledger), o.fact.body.transaction;
    assert TransactionsIn(ledger + [o]) == before + [t];
    assert (before + [t])[..|before|] == before;
  }

  lemma SelectedStep(selected: seq<Observation>, i: nat, input: EpochInput, from: int, to: int)
    requires i < |selected|
    ensures var (now, next, o) := (selected[..i], selected[..i + 1], selected[i]);
      && LedgerOf(next, from, to) == LedgerOf(now, from, to) + (if o.fact.body.TransactionBody? && InEpoch(o, from, to) then [o] else [])
      && (forall only :: ExecutionsIn(next, from, to, only) == ExecutionsIn(now, from, to, only)
            + if o.fact.body.ExecutionBody? && o.eventTime.ms.Some? && (!only || InEpoch(o, from, to)) then [o.fact.body.execution] else [])
      && ClosesIn(next, from, to) == ClosesIn(now, from, to)
            + (if o.fact.body.ClosedPnlBody? && InEpoch(o, from, to) then [o.fact.body.row] else [])
      && SelectedReasons(next, input, from, to) == SelectedReasons(now, input, from, to) + ObservationReasons(o, input, from, to)
  {
    hide InEpoch, ObservationReasons;
    assert selected[..i + 1][..i] == selected[..i] && selected[..i + 1][i] == selected[i];
  }

  /** The loop over the selected observations. */
  method SortSelected(selected: seq<Observation>, input: EpochInput, from: int, to: int)
    returns (rows: seq<Row>, trades: seq<Transaction>, epochExecutions: seq<Execution>, executions: seq<Execution>,
             closes: seq<ClosedPnlRow>, reasons: set<Reason>)
    ensures rows == RowsFrom(LedgerOf(selected, from, to))
    ensures trades == TradesOf(TransactionsIn(LedgerOf(selected, from, to)))
    ensures epochExecutions == ExecutionsIn(selected, from, to, true)
    ensures executions == ExecutionsIn(selected, from, to, false)
    ensures closes == ClosesIn(selected, from, to)
    ensures reasons == SelectedReasons(selected, input, from, to)
  {
    rows, trades, epochExecutions, executions, closes, reasons := [], [], [], [], [], {};
    ghost var ledger: seq<Observation> := [];
    assert selected[..0] == [];
    hide NormalizeTransaction, ObservationReasons, RowFrom, IsTrade;
    for i := 0 to |selected|
      invariant ledger == LedgerOf(selected[..i], from, to)
      invariant rows == RowsFrom(ledger)
      invariant trades == TradesOf(TransactionsIn(ledger))
      invariant epochExecutions == ExecutionsIn(selected[..i], from, to, true)
      invariant executions == ExecutionsIn(selected[..i], from, to, false)
      invariant closes == ClosesIn(selected[..i], from, to)
      invariant reasons == SelectedReasons(selected[..i], input, from, to)
    {
      hide LedgerOf, RowsFrom, TradesOf, TransactionsIn, ExecutionsIn, ClosesIn, SelectedReasons;
      var o := selected[i];
      SelectedStep(selected, i, input, from, to);
      reasons := reasons + ObservationReasons(o, input, from, to);
      if o.eventTime.ms.None? {
        continue;
      }
      match o.fact.body {
        case ExecutionBody(execution) =>
          executions := executions + [execution];
          if InEpoch(o, from, to) {
            epochExecutions := epochExecutions + [execution];
          }
        case ClosedPnlBody(row) =>
          if InEpoch(o, from, to) {
            closes := closes + [row];
          }
        case TransactionBody(t) =>
          if InEpoch(o, from, to) {
            LedgerStep(ledger, o);
            if IsTrade(t) {
              trades := trades + [t];
            }
            var normalized := NormalizeTransaction(o);
            if normalized.Ok? {
              rows := rows + [RowFrom(normalized.value)];
            }
            ledger := ledger + [o];
          }
        case OrderBody =>
      }
    }
    assert selected[..|selected|] == selected;
  }

  lemma {:induction false} SelectedRaise(selected: seq<Observation>, input: EpochInput, from: int, to: int)
    ensures forall r :: r in SelectedReasons(selected, input, from, to) <==>
              exists o :: o in selected && r in ObservationReasons(o, input, from, to)
  {
    if selected != [] {
      hide ObservationReasons;
      var init, last := selected[..|selected| - 1], selected[|selected| - 1];
      SelectedRaise(init, input, from, to);
      assert forall o :: o in selected <==> o in init || o == last;
    }
  }

  /** All selected observations together raise nothing exactly when each is sound. */
  lemma QuietSelected(selected: seq<Observation>, input: EpochInput, from: int, to: int)
    requires forall o :: o in selected ==> ValidObservation(o)
    ensures SelectedReasons(selected, input, from, to) == {} <==> forall o :: o in selected ==> Sound(o, input, from, to)
  {
    SelectedRaise(selected, input, from, to);
    forall o | o in selected
      ensures ObservationReasons(o, input, from, to) == {} <==> Sound(o, input, from, to)
    {
      QuietObservation(o, input, from, to);
    }
    hide ObservationReasons, Sound, SelectedReasons, ValidObservation;
    if SelectedReasons(selected, input, from, to) == {} {
      forall o | o in selected
        ensures ObservationReasons(o, input, from, to) == {}
      {
        assert forall r :: r in ObservationReasons(o, input, from, to) ==> r in SelectedReasons(selected, input, from, to);
      }
    } else {
      var r :| r in SelectedReasons(selected, input, from, to);
      var o :| o in selected && r in ObservationReasons(o, input, from, to);
      assert ObservationReasons(o, input, from, to) != {};
    }
  }

  // ----------------------------------------------------------------- ledger

  /** Rows of one content hash report the same fact at the same time. */
  ghost predicate HashesDecide(observations: seq<Observation>) {
    forall a, b :: a in observations && b in observations && a.contentHash == b.contentHash ==>
      a.eventTime == b.eventTime && a.fact.body == b.fact.body
  }

  ghost predicate IsEntry(o: Observation, from: int, to: int) {
    o.fact.body.TransactionBody? && InEpoch(o, from, to)
  }

  predicate SameTransaction(a: Observation, b: Observation) {
    a.fact.body.TransactionBody? && IsTransaction(b, a.fact.body.transaction.transactionId)
  }

  /** Every transaction ID with an observation in the epoch has exactly one entry, which reports what that observation does. */
  ghost predicate IsLedger(ledger: seq<Observation>, observations: seq<Observation>, from: int, to: int) {
    && (forall o :: o in ledger ==> o in observations && IsEntry(o, from, to) && Settled(o.fact.body.transaction))
    && (forall a, b :: a in ledger && b in ledger && SameTransaction(a, b) ==> a == b)
    && Distinct(ledger)
    && (forall o :: o in observations && IsEntry(o, from, to) ==> exists l :: l in ledger && l.fact.body == o.fact.body)
  }

  ghost function MovementOf(o: Observation): real {
    if o.fact.body.TransactionBody? && HasComponents(o.fact.body.transaction) then Movement(o.fact.body.transaction) else 0.0
  }

  /** cashFlow + funding - fee of every entry. */
  ghost function Movements(ledger: seq<Observation>): seq<real> {
    seq(|ledger|, i requires 0 <= i < |ledger| => MovementOf(ledger[i]))
  }

  lemma {:induction false} LedgerMembers(selected: seq<Observation>, from: int, to: int)
    ensures forall o :: o in LedgerOf(selected, from, to) <==> o in selected && IsEntry(o, from, to)
  {
    if selected != [] {
      hide InEpoch;
      var init, last := selected[..|selected| - 1], selected[|selected| - 1];
      LedgerMembers(init, from, to);
      assert forall o :: o in selected <==> o in init || o == last;
    }
  }

  lemma {:induction false} LedgerKeepsDistinct(selected: seq<Observation>, from: int, to: int)
    requires Distinct(selected)
    ensures Distinct(LedgerOf(selected, from, to))
  {
    if selected != [] {
      hide InEpoch;
      var init, last := selected[..|selected| - 1], selected[|selected| - 1];
      LedgerKeepsDistinct(init, from, to);
      LedgerMembers(init, from, to);
      assert last !in init;
    }
  }

  ghost predicate SettledEntry(o: Observation) {
    ValidObservation(o) && o.fact.body.TransactionBody? && Settled(o.fact.body.transaction)
  }

  /** The rows of a settled ledger: one for each entry, in USDT, classified, and adding up to its movements. */
  lemma {:induction false} SettledRows(ledger: seq<Observation>)
    requires forall o :: o in ledger ==> SettledEntry(o)
    ensures |RowsFrom(ledger)| == |ledger|
    ensures forall r :: r in RowsFrom(ledger) ==> r.currency == Some(USDT) && r.change.Some? && r.movementKind != UnknownMovement
    ensures Moved(RowsFrom(ledger)) == Sum(Movements(ledger))
  {
    if ledger != [] {
      var init, last := ledger[..|ledger| - 1], ledger[|ledger| - 1];
      assert last in ledger && SettledEntry(last);
      SettledRows(init);
      RowFacts(last);
      hide Value, NormalizeTransaction, RowFrom, Readable, ValidObservation, MovementKindOf, Movement, Explained, HasComponents, Stated, Amount;
      var rows, row := RowsFrom(init), RowFrom(NormalizeTransaction(last).value);
      assert RowsFrom(ledger) == rows + [row];
      assert Values(Changes(rows + [row]))[..|rows|] == Values(Changes(rows));
      assert Movements(ledger)[..|init|] == Movements(init);
      ExplainedMovement(last);
    }
  }

  lemma ExplainedMovement(o: Observation)
    requires o.fact.body.TransactionBody? && Explained(o.fact.body.transaction)
    ensures MovementOf(o) == Movement(o.fact.body.transaction)
  {
  }

  // --------------------------------------------------------------- coverage

  function ToReason(reason: CoverageReason): Reason {
    match reason
    case FilterIncompatible => HistoryCoverageFilterIncompatible
    case ScopeMismatch => HistoryScopeMismatch
    case CoverageGap => HistoryCoverageGap
  }

  /** Every point of [a, b] was queried for, and no checkpoint of the source is refused. */
  ghost predicate SourceComplete(source: Source, input: EpochInput, a: int, b: int, hash: Filters -> string) {
    && (forall t :: a <= t <= b ==> Queried(input.coverage, source, input.scope, a, b, hash, t))
    && !RefusedWith(input.coverage, source, input.scope, a, b, hash, FilterIncompatible)
    && !RefusedWith(input.coverage, source, input.scope, a, b, hash, ScopeMismatch)
  }

  ghost predicate ExactCoverage(c: SourceCoverage, input: EpochInput, a: int, b: int, hash: Filters -> string) {
    && (c.covered <==> c.gaps == [])
    && ExactGaps(c.gaps, a, b, t => Queried(input.coverage, c.source, input.scope, a, b, hash, t))
  }

  lemma QuietCoverage(c: SourceCoverage, reasons: set<CoverageReason>, input: EpochInput, a: int, b: int, hash: Filters -> string)
    requires ExactCoverage(c, input, a, b, hash)
    requires CoverageGap in reasons <==> c.gaps != []
    requires forall r :: r in {FilterIncompatible, ScopeMismatch} ==>
               (r in reasons <==> RefusedWith(input.coverage, c.source, input.scope, a, b, hash, r))
    ensures reasons == {} <==> SourceComplete(c.source, input, a, b, hash)
    ensures SourceComplete(c.source, input, a, b, hash) ==> c.covered
  {
    hide Queried, RefusedWith;
    assert FilterIncompatible in {FilterIncompatible, ScopeMismatch} && ScopeMismatch in {FilterIncompatible, ScopeMismatch};
    if c.gaps == [] {
      forall t | a <= t <= b
        ensures Queried(input.coverage, c.source, input.scope, a, b, hash, t)
      {
        assert !InSome(c.gaps, t);
      }
      assert reasons != {} ==> FilterIncompatible in reasons || ScopeMismatch in reasons by {
        if reasons != {} {
          var r :| r in reasons;
          assert r == FilterIncompatible || r == ScopeMismatch || r == CoverageGap;
        }
      }
    } else {
      var t := c.gaps[0].from;
      HeldBy(c.gaps, 0, t);
      assert CoverageGap in reasons;
      assert !Queried(input.coverage, c.source, input.scope, a, b, hash, t);
    }
  }

  /** What the coverage of one source raises. */
  ghost predicate SourceRaises(r: Reason, source: Source, input: EpochInput, a: int, b: int, hash: Filters -> string) {
    match r
    case HistoryCoverageGap => exists t :: a <= t <= b && !Queried(input.coverage, source, input.scope, a, b, hash, t)
    case HistoryCoverageFilterIncompatible => RefusedWith(input.coverage, source, input.scope, a, b, hash, FilterIncompatible)
    case HistoryScopeMismatch => RefusedWith(input.coverage, source, input.scope, a, b, hash, ScopeMismatch)
    case _ => false
  }

  ghost predicate CoverageRaises(r: Reason, input: EpochInput, a: int, b: int, hash: Filters -> string) {
    exists k :: 0 <= k < |SOURCES| && SourceRaises(r, SOURCES[k], input, a, b, hash)
  }

  lemma RaisedByCoverage(c: SourceCoverage, found: set<CoverageReason>, input: EpochInput, a: int, b: int, hash: Filters -> string, r: Reason)
    requires ExactCoverage(c, input, a, b, hash)
    requires CoverageGap in found <==> c.gaps != []
    requires forall k :: k in {FilterIncompatible, ScopeMismatch} ==>
               (k in found <==> RefusedWith(input.coverage, c.source, input.scope, a, b, hash, k))
    ensures (exists k :: k in found && ToReason(k) == r) <==> SourceRaises(r, c.source, input, a, b, hash)
  {
    hide Queried, RefusedWith;
    assert FilterIncompatible in {FilterIncompatible, ScopeMismatch} && ScopeMismatch in {FilterIncompatible, ScopeMismatch};
    assert (exists k :: k in found && ToReason(k) == r) <==>
      || (r == HistoryCoverageFilterIncompatible && FilterIncompatible in found)
      || (r == HistoryScopeMismatch && ScopeMismatch in found)
      || (r == HistoryCoverageGap && CoverageGap in found);
    if c.gaps == [] {
      forall t | a <= t <= b
        ensures Queried(input.coverage, c.source, input.scope, a, b, hash, t)
      {
        assert !InSome(c.gaps, t);
      }
    } else {
      HeldBy(c.gaps, 0, c.gaps[0].from);
    }
  }

  method ProjectCoverage(input: EpochInput, a: int, b: int, hash: Filters -> string)
    returns (coverage: seq<SourceCoverage>, reasons: set<Reason>)
    ensures |coverage| == |SOURCES|
    ensures forall k :: 0 <= k < |SOURCES| ==> coverage[k].source == SOURCES[k] && ExactCoverage(coverage[k], input, a, b, hash)
    ensures forall r :: r in reasons <==> CoverageRaises(r, input, a, b, hash)
    ensures reasons == {} <==> forall k :: 0 <= k < |SOURCES| ==> SourceComplete(SOURCES[k], input, a, b, hash)
    ensures reasons == {} ==> forall k :: 0 <= k < |SOURCES| ==> coverage[k].covered
  {
    coverage, reasons := [], {};
    hide ExactCoverage, SourceComplete, SourceRaises, Queried, RefusedWith;
    for i := 0 to |SOURCES|
      invariant |coverage| == i
      invariant forall k :: 0 <= k < i ==> coverage[k].source == SOURCES[k] && ExactCoverage(coverage[k], input, a, b, hash)
      invariant forall r :: r in reasons <==> exists k :: 0 <= k < i && SourceRaises(r, SOURCES[k], input, a, b, hash)
      invariant reasons == {} <==> forall k :: 0 <= k < i ==> SourceComplete(SOURCES[k], input, a, b, hash)
      invariant reasons == {} ==> forall k :: 0 <= k < i ==> coverage[k].covered
    {
      var c, found := CoverSource(SOURCES[i], input, a, b, hash);
      coverage := coverage + [c];
      reasons := reasons + found;
    }
  }

  method CoverSource(source: Source, input: EpochInput, a: int, b: int, hash: Filters -> string)
    returns (c: SourceCoverage, reasons: set<Reason>)
    ensures c.source == source && ExactCoverage(c, input, a, b, hash)
    ensures forall r :: r in reasons <==> SourceRaises(r, source, input, a, b, hash)
    ensures reasons == {} <==> SourceComplete(source, input, a, b, hash)
    ensures reasons == {} ==> c.covered
  {
    var found;
    c, found := ProjectSourceCoverage(source, input.coverage, input.scope, a, b, hash);
    QuietCoverage(c, found, input, a, b, hash);
    reasons := set r | r in found :: ToReason(r);
    forall r
      ensures r in reasons <==> SourceRaises(r, source, input, a, b, hash)
    {
      RaisedByCoverage(c, found, input, a, b, hash, r);
    }
    hide SourceRaises, SourceComplete, ExactCoverage;
    assert reasons == {} <==> found == {} by {
      assert forall r :: r in found ==> ToReason(r) in reasons;
    }
  }

  // ---------------------------------------------------------- reconciliation

  function CoverageStart(input: EpochInput, from: int): int {
    match input.opening.capture.providerTimeBefore.ms case None => from + 1 case Some(t) => Min(t, from + 1)
  }

  function CoverageEnd(input: EpochInput, to: int): int {
    match input.closing.capture.providerTimeAfter.ms case None => to case Some(t) => Max(t, to)
  }

  ghost predicate ValidAnchors(input: EpochInput, from: int, to: int) {
    && ValidAnchor(input.opening, OpeningAnchor, input.scope) && ValidAnchor(input.closing, ClosingAnchor, input.scope)
    && input.opening.capture.providerResponseTime.ms == Some(from)
    && input.closing.capture.providerResponseTime.ms == Some(to)
    && from < to
  }

  /** All four sources were queried for without a gap, from the opening capture to the closing one. */
  ghost predicate CoverageComplete(input: EpochInput, from: int, to: int, hash: Filters -> string) {
    forall k :: 0 <= k < |SOURCES| ==> SourceComplete(SOURCES[k], input, CoverageStart(input, from), CoverageEnd(input, to), hash)
  }

  ghost predicate CountsLocated(input: EpochInput, from: int, to: int, hash: Filters -> string) {
    forall c :: c in input.coverage ==> CountReasons(c, input, CoverageStart(input, from), CoverageEnd(input, to), hash) == {}
  }

  /** The input is of the scope and valid, and no stored conflict is of the epoch. */
  ghost predicate ClearInput(input: EpochInput, from: int, to: int) {
    && (forall o :: o in input.observations ==> o.scope == input.scope)
    && (forall o :: o in RelevantOf(input.observations, input, from, to) ==> ValidObservation(o))
    && (forall c :: c in input.conflicts ==> !ConflictIsInEpoch(c, input, from, to))
  }

  ghost predicate Clear(input: EpochInput, from: int, to: int, e: Evidence) {
    && ClearInput(input, from, to)
    && (forall c :: c in e.conflicts ==> !SelectionConflictIsInEpoch(c, RelevantOf(input.observations, input, from, to), input, from, to))
  }

  ghost predicate Matched(selected: seq<Observation>, from: int, to: int) {
    && (forall x :: x in ExecutionsIn(selected, from, to, true) ==> x.execType == "Trade")
    && OneToOne(TradeExecutionsOf(ExecutionsIn(selected, from, to, true)), TradesOf(TransactionsIn(LedgerOf(selected, from, to))))
    && (forall row :: row in ClosesIn(selected, from, to) ==> CloseAgrees(row, ExecutionsIn(selected, from, to, false)))
  }

  ghost predicate Balanced(input: EpochInput, ledger: seq<Observation>) {
    && PlainUsdt(input.opening.assets) && PlainUsdt(input.closing.assets)
    && Value(KnownBalance(input.closing.assets[0]).value)
       == Value(KnownBalance(input.opening.assets[0]).value) + Sum(Movements(ledger))
  }

  /** What RECONCILED promises of an input, its boundaries and what was selected from it. */
  ghost predicate Reconciles(input: EpochInput, hash: Filters -> string, from: int, to: int, e: Evidence) {
    && ValidAnchors(input, from, to)
    && CoverageComplete(input, from, to, hash)
    && CountsLocated(input, from, to, hash)
    && Clear(input, from, to, e)
    && (forall o :: o in e.observations ==> Sound(o, input, from, to))
    && Matched(e.observations, from, to)
    && Balanced(input, LedgerOf(e.observations, from, to))
  }

  ghost predicate IsEvidence(input: EpochInput, from: int, to: int, e: Evidence) {
    IsSelection(Elements(RelevantOf(input.observations, input, from, to)),
                Elements(ConflictsInEpoch(input.conflicts, input, from, to)), e)
  }

  lemma {:induction false} TradesAgain(transactions: seq<Transaction>)
    ensures TradesOf(TradesOf(transactions)) == TradesOf(transactions)
  {
    if transactions != [] {
      hide IsTrade;
      var init, last := transactions[..|transactions| - 1], transactions[|transactions| - 1];
      TradesAgain(init);
      var trades := TradesOf(init);
      assert TradesOf(transactions) == if IsTrade(last) then trades + [last] else trades;
      assert (trades + [last])[..|trades|] == trades;
    }
  }

  /** What the selection and the stored conflicts of the epoch raise. */
  ghost predicate SelectionRaises(r: Reason, input: EpochInput, relevant: seq<Observation>, conflicts: seq<StoredConflict>, from: int, to: int,
                                  e: Evidence) {
    match r
    case InvalidHistoryEvidence => !ValidInput(input.scope, relevant, conflicts)
    case HistorySourceConflict => exists c :: c in conflicts && c.source != TransactionLog
    case TransactionIdentityConflict =>
      || (exists c :: c in conflicts && c.source == TransactionLog)
      || (exists c :: c in e.conflicts && c.TransactionConflict? && SelectionConflictIsInEpoch(c, relevant, input, from, to))
    case ClosedPnlRevisionConflict =>
      exists c :: c in e.conflicts && !c.TransactionConflict? && SelectionConflictIsInEpoch(c, relevant, input, from, to)
    case _ => false
  }

  /** What the first `i` stored conflicts and the first `j` conflicts of a selection raise. */
  ghost predicate ConflictsRaise(r: Reason, input: EpochInput, relevant: seq<Observation>, conflicts: seq<StoredConflict>, from: int, to: int,
                                 e: Evidence, i: int, j: int)
    requires 0 <= i <= |conflicts| && 0 <= j <= |e.conflicts|
  {
    match r
    case HistorySourceConflict => exists k :: 0 <= k < i && conflicts[k].source != TransactionLog
    case TransactionIdentityConflict =>
      || (exists k :: 0 <= k < i && conflicts[k].source == TransactionLog)
      || (exists k :: 0 <= k < j && e.conflicts[k].TransactionConflict? && SelectionConflictIsInEpoch(e.conflicts[k], relevant, input, from, to))
    case ClosedPnlRevisionConflict =>
      exists k :: 0 <= k < j && !e.conflicts[k].TransactionConflict? && SelectionConflictIsInEpoch(e.conflicts[k], relevant, input, from, to)
    case _ => false
  }

  method SelectEpoch(input: EpochInput, relevant: seq<Observation>, conflicts: seq<StoredConflict>, from: int, to: int)
    returns (e: Evidence, reasons: set<Reason>)
    ensures reasons == {} <==>
      && ValidInput(input.scope, relevant, conflicts) && conflicts == []
      && forall c :: c in e.conflicts ==> !SelectionConflictIsInEpoch(c, relevant, input, from, to)
    ensures ValidInput(input.scope, relevant, conflicts) && DistinctIds(relevant) ==>
      IsSelection(Elements(relevant), Elements(conflicts), e)
    ensures !ValidInput(input.scope, relevant, conflicts) ==> e == Evidence([], [])
    ensures forall r :: r in reasons <==> SelectionRaises(r, input, relevant, conflicts, from, to, e)
  {
    hide IsSelection, ValidInput, SelectionConflictIsInEpoch, DistinctIds;
    reasons := {};
    e := Evidence([], []);
    var selected := SelectCanonicalHistoryEvidence(input.scope, relevant, conflicts);
    for i := 0 to |conflicts|
      invariant reasons == {} <==> i == 0
      invariant forall r :: r in reasons <==> ConflictsRaise(r, input, relevant, conflicts, from, to, e, i, 0)
    {
      reasons := reasons + {if conflicts[i].source == TransactionLog then TransactionIdentityConflict else HistorySourceConflict};
    }
    if selected.Err? {
      return Evidence([], []), reasons + {InvalidHistoryEvidence};
    }
    e := selected.value;
    for i := 0 to |e.conflicts|
      invariant reasons == {} <==>
        conflicts == [] && forall k :: 0 <= k < i ==> !SelectionConflictIsInEpoch(e.conflicts[k], relevant, input, from, to)
      invariant forall r :: r in reasons <==> ConflictsRaise(r, input, relevant, conflicts, from, to, e, |conflicts|, i)
    {
      if SelectionConflictIsInEpoch(e.conflicts[i], relevant, input, from, to) {
        reasons := reasons + {if e.conflicts[i].TransactionConflict? then TransactionIdentityConflict else ClosedPnlRevisionConflict};
      }
    }
  }

  method CheckCounts(input: EpochInput, a: int, b: int, hash: Filters -> string) returns (reasons: set<Reason>)
    ensures reasons == set c, r | c in input.coverage && r in CountReasons(c, input, a, b, hash) :: r
  {
    hide CountReasons;
    reasons := {};
    for i := 0 to |input.coverage|
      invariant reasons == set c, r | c in input.coverage[..i] && r in CountReasons(c, input, a, b, hash) :: r
    {
      assert forall c :: c in input.coverage[..i + 1] <==> c in input.coverage[..i] || c == input.coverage[i];
      reasons := reasons + CountReasons(input.coverage[i], input, a, b, hash);
    }
    assert input.coverage[..|input.coverage|] == input.coverage;
  }

  lemma QuietCounts(input: EpochInput, from: int, to: int, hash: Filters -> string)
    ensures CountsLocated(input, from, to, hash) <==>
      (set c, r | c in input.coverage && r in CountReasons(c, input, CoverageStart(input, from), CoverageEnd(input, to), hash) :: r) == {}
  {
    hide CountReasons, CoverageStart, CoverageEnd;
    var a, b := CoverageStart(input, from), CoverageEnd(input, to);
    var all := set c, r | c in input.coverage && r in CountReasons(c, input, a, b, hash) :: r;
    forall c | c in input.coverage
      ensures CountReasons(c, input, a, b, hash) <= all
    {
    }
    if CountsLocated(input, from, to, hash) {
      assert forall r :: r !in all;
    }
  }

  /** The bridge of the epoch when both wallets hold USDT alone and every row is a known USDT movement. */
  function UsdtBridge(input: EpochInput, rows: seq<Row>): CurrencyBridge
    requires |input.opening.assets| > 0 && |input.closing.assets| > 0
  {
    BridgeRow(USDT, KnownBalance(input.opening.assets[0]), KnownBalance(input.closing.assets[0]), rows)
  }

  lemma {:induction false} UsdtRows(rows: seq<Row>)
    requires forall r :: r in rows ==> r.currency == Some(USDT)
    ensures RowsIn(rows, USDT) == rows && RowCurrencies(rows) <= {USDT}
  {
    if rows != [] {
      var init, last := rows[..|rows| - 1], rows[|rows| - 1];
      assert last in rows;
      assert RowsIn(rows, USDT) == RowsIn(init, USDT) + [last];
      assert RowCurrencies(rows) <= RowCurrencies(init) + {USDT};
      hide RowsIn, RowCurrencies;
      UsdtRows(init);
      assert rows == init + [last];
    }
  }

  lemma OneCurrency()
    ensures OrderedWithin({USDT}) == [USDT]
  {
    var all := OrderedWithin({USDT});
    assert USDT in all && all[0] in all;
    DistinctSameElements(all, [USDT]);
    SameMultiset(all, [USDT]);
  }

  /** With plain wallets and USDT rows there is one bridge, and it is quiet exactly when it balances. */
  lemma OneBridge(input: EpochInput, rows: seq<Row>, opening: map<string, Option<Normal>>, closing: map<string, Option<Normal>>)
    requires PlainUsdt(input.opening.assets) && PlainUsdt(input.closing.assets)
    requires IsBalanceIndex(opening, input.opening.assets) && IsBalanceIndex(closing, input.closing.assets)
    requires forall r :: r in rows ==> r.currency == Some(USDT) && r.change.Some?
    ensures AllBridges(opening, closing, rows) == [UsdtBridge(input, rows)]
    ensures CurrencyReasons(AllBridges(opening, closing, rows), rows) == {} <==>
              Value(KnownBalance(input.closing.assets[0]).value)
              == Value(KnownBalance(input.opening.assets[0]).value) + Moved(rows)
  {
    PlainIndex(input.opening.assets, opening);
    PlainIndex(input.closing.assets, closing);
    UsdtRows(rows);
    OneCurrency();
    var bridge := UsdtBridge(input, rows);
    QuietBridge(USDT, KnownBalance(input.opening.assets[0]), KnownBalance(input.closing.assets[0]), rows);
    hide IsBalanceIndex, BridgeRow, BridgeReasons, RowsIn, KnownBalance, OrderedWithin, RowCurrencies, Moved, OnlyOwnCoins;
    assert opening.Keys + closing.Keys + RowCurrencies(rows) == {USDT};
    assert AllBridges(opening, closing, rows) == [bridge];
    assert RaisedBy([bridge]) == BridgeReasons(bridge) by {
      RaisedByNext([], bridge);
      assert [] + [bridge] == [bridge] && RaisedBy([]) == {};
    }
  }

  function Boundary(t: Timestamp): Option<Timestamp> {
    if t.ms.Some? then Some(t) else None
  }

  lemma RelevantIsSelection(input: EpochInput, from: int, to: int, e: Evidence)
    ensures ClearInput(input, from, to) <==>
      && (forall o :: o in input.observations ==> o.scope == input.scope)
      && ValidInput(input.scope, RelevantOf(input.observations, input, from, to), ConflictsInEpoch(input.conflicts, input, from, to))
      && ConflictsInEpoch(input.conflicts, input, from, to) == []
    ensures var relevant := RelevantOf(input.observations, input, from, to);
            var conflicts := ConflictsInEpoch(input.conflicts, input, from, to);
      Clear(input, from, to, e) <==>
        && (forall o :: o in input.observations ==> o.scope == input.scope)
        && ValidInput(input.scope, relevant, conflicts) && conflicts == []
        && forall c :: c in e.conflicts ==> !SelectionConflictIsInEpoch(c, relevant, input, from, to)
  {
    var conflicts := ConflictsInEpoch(input.conflicts, input, from, to);
    RelevantMembers(input.observations, input, from, to);
    ConflictMembers(input.conflicts, input, from, to);
    hide ConflictIsInEpoch, Relevant, ValidObservation, SelectionConflictIsInEpoch, ConflictsInEpoch, RelevantOf, WellFormedConflict;
    if conflicts != [] {
      assert conflicts[0] in conflicts;
    }
  }

  /** What an epoch selects from; nothing without one. */
  function SelectableRows(input: EpochInput, validEpoch: bool, from: int, to: int): seq<Observation> {
    if validEpoch then RelevantOf(input.observations, input, from, to) else []
  }

  function SelectableConflicts(input: EpochInput, validEpoch: bool, from: int, to: int): seq<StoredConflict> {
    if validEpoch then ConflictsInEpoch(input.conflicts, input, from, to) else []
  }

  /** The evidence used: the canonical selection, or nothing from malformed rows. */
  ghost predicate IsUsed(e: Evidence, input: EpochInput, validEpoch: bool, from: int, to: int) {
    var relevant, conflicts := SelectableRows(input, validEpoch, from, to), SelectableConflicts(input, validEpoch, from, to);
    if ValidInput(input.scope, relevant, conflicts) then IsSelection(Elements(relevant), Elements(conflicts), e) else e == Evidence([], [])
  }

  /** What the boundaries, the coverage of the epoch and the checkpoint counts raise. */
  ghost predicate TimesRaise(r: Reason, input: EpochInput, validEpoch: bool, from: int, to: int, hash: Filters -> string) {
    if validEpoch then
      || CoverageRaises(r, input, CoverageStart(input, from), CoverageEnd(input, to), hash)
      || (exists c :: c in input.coverage && r in CountReasons(c, input, CoverageStart(input, from), CoverageEnd(input, to), hash))
    else r == AnchorEpochInvalid || r == HistoryCoverageGap
  }

  /** What the stored history raises, apart from the accounts. */
  ghost predicate HistoryRaises(r: Reason, input: EpochInput, validEpoch: bool, from: int, to: int, hash: Filters -> string, e: Evidence) {
    || TimesRaise(r, input, validEpoch, from, to, hash)
    || (r == HistoryScopeMismatch && exists o :: o in input.observations && o.scope != input.scope)
    || SelectionRaises(r, input, SelectableRows(input, validEpoch, from, to), SelectableConflicts(input, validEpoch, from, to), from, to, e)
  }

  /** The coverage of the four sources, the selection, and what they raise. */
  method SelectHistory(input: EpochInput, validEpoch: bool, from: int, to: int, hash: Filters -> string)
    returns (coverage: seq<SourceCoverage>, e: Evidence, reasons: set<Reason>)
    ensures |coverage| == |SOURCES| && forall k :: 0 <= k < |SOURCES| ==> coverage[k].source == SOURCES[k]
    ensures validEpoch ==> forall k :: 0 <= k < |SOURCES| ==>
      ExactCoverage(coverage[k], input, CoverageStart(input, from), CoverageEnd(input, to), hash)
    ensures !validEpoch ==> forall k :: 0 <= k < |SOURCES| ==> !coverage[k].covered && coverage[k].gaps == []
    ensures forall r :: r in reasons <==> HistoryRaises(r, input, validEpoch, from, to, hash, e)
    ensures DistinctIds(input.observations) ==> IsUsed(e, input, validEpoch, from, to)
    ensures reasons == {} ==> validEpoch && forall k :: 0 <= k < |SOURCES| ==> coverage[k].covered
    ensures validEpoch ==>
      (reasons == {} <==> CoverageComplete(input, from, to, hash) && CountsLocated(input, from, to, hash) && Clear(input, from, to, e))
    ensures validEpoch && DistinctIds(input.observations) && ClearInput(input, from, to) ==> IsEvidence(input, from, to, e)
  {
    hide ExactCoverage, SourceComplete, CountReasons, CoverageStart, CoverageEnd, IsSelection, ValidInput, SelectionConflictIsInEpoch,
      RelevantOf, ConflictsInEpoch, Clear, ClearInput, DistinctIds, CoverageRaises, SelectionRaises;
    coverage := seq(|SOURCES|, i requires 0 <= i < |SOURCES| => SourceCoverage(SOURCES[i], false, []));
    reasons := {AnchorEpochInvalid, HistoryCoverageGap};
    var relevant: seq<Observation>, conflicts: seq<StoredConflict> := [], [];
    if validEpoch {
      coverage, reasons := ProjectCoverage(input, CoverageStart(input, from), CoverageEnd(input, to), hash);
      var countReasons := CheckCounts(input, CoverageStart(input, from), CoverageEnd(input, to), hash);
      QuietCounts(input, from, to, hash);
      reasons := reasons + countReasons;
      relevant := RelevantOf(input.observations, input, from, to);
      conflicts := ConflictsInEpoch(input.conflicts, input, from, to);
    }
    assert validEpoch ==> (reasons == {} <==> CoverageComplete(input, from, to, hash) && CountsLocated(input, from, to, hash));
    hide CoverageComplete, CountsLocated;
    assert forall r :: r in reasons <==> TimesRaise(r, input, validEpoch, from, to, hash);
    hide TimesRaise;
    if exists o :: o in input.observations && o.scope != input.scope {
      reasons := reasons + {HistoryScopeMismatch};
    }
    var selectionReasons;
    e, selectionReasons := SelectEpoch(input, relevant, conflicts, from, to);
    reasons := reasons + selectionReasons;
    assert relevant == SelectableRows(input, validEpoch, from, to) && conflicts == SelectableConflicts(input, validEpoch, from, to);
    RelevantIsSelection(input, from, to, e);
    if DistinctIds(input.observations) {
      SelectableIds(input, validEpoch, from, to);
    }
  }

  lemma SelectableIds(input: EpochInput, validEpoch: bool, from: int, to: int)
    requires DistinctIds(input.observations)
    ensures DistinctIds(SelectableRows(input, validEpoch, from, to))
  {
    if validEpoch {
      RelevantKeepsIds(input.observations, input, from, to);
    }
  }

  lemma SelectedRowsSettled(selected: seq<Observation>, input: EpochInput, from: int, to: int)
    requires forall o :: o in selected ==> ValidObservation(o) && Sound(o, input, from, to)
    ensures var rows := RowsFrom(LedgerOf(selected, from, to));
      && |rows| == |LedgerOf(selected, from, to)|
      && (forall r :: r in rows ==> r.currency == Some(USDT) && r.change.Some? && r.movementKind != UnknownMovement)
      && Moved(rows) == Sum(Movements(LedgerOf(selected, from, to)))
  {
    LedgerMembers(selected, from, to);
    hide Settled, ValidObservation, AtBoundary, InEpoch, LedgerOf, RowsFrom, Moved, Sum, Movements;
    SettledRows(LedgerOf(selected, from, to));
  }

  /** What matching the executions of a selection raises. */
  ghost function MatchReasons(selected: seq<Observation>, from: int, to: int): set<Reason> {
    var trades := TradesOf(TransactionsIn(LedgerOf(selected, from, to)));
    var executions := ExecutionsIn(selected, from, to, true);
    (if (forall x :: x in executions ==> x.execType == "Trade") && OneToOne(TradeExecutionsOf(executions), trades)
     then {} else {TransactionExecutionMismatch})
    + (if forall row :: row in ClosesIn(selected, from, to) ==> CloseAgrees(row, ExecutionsIn(selected, from, to, false))
       then {} else {ClosedPnlExecutionMismatch})
  }

  /** The bridges between both wallets over the rows of a selection. */
  ghost function BridgesOf(input: EpochInput, selected: seq<Observation>, from: int, to: int): seq<CurrencyBridge> {
    AllBridges(Balances(input.opening.assets), Balances(input.closing.assets), RowsFrom(LedgerOf(selected, from, to)))
  }

  /** What the accounts of a selection raise: its rows, its matching, both wallets and the bridges. */
  ghost function AccountReasons(input: EpochInput, selected: seq<Observation>, from: int, to: int): set<Reason> {
    SelectedReasons(selected, input, from, to) + MatchReasons(selected, from, to)
    + BalanceReasons(input.opening.assets) + BalanceReasons(input.closing.assets)
    + CurrencyReasons(BridgesOf(input, selected, from, to), RowsFrom(LedgerOf(selected, from, to)))
  }

  /** The rows of a selection, its matching, both wallets and the bridges between them. */
  method SettleAccounts(input: EpochInput, selected: seq<Observation>, from: int, to: int)
    returns (currencies: seq<CurrencyBridge>, count: nat, reasons: set<Reason>)
    ensures currencies == BridgesOf(input, selected, from, to)
    ensures reasons == AccountReasons(input, selected, from, to)
    ensures (forall o :: o in selected ==> ValidObservation(o)) ==>
      (reasons == {} <==>
         && (forall o :: o in selected ==> Sound(o, input, from, to))
         && Matched(selected, from, to)
         && Balanced(input, LedgerOf(selected, from, to)))
    ensures (forall o :: o in selected ==> ValidObservation(o)) && reasons == {} ==>
      currencies == [UsdtBridge(input, RowsFrom(LedgerOf(selected, from, to)))]
    ensures count == |RowsFrom(LedgerOf(selected, from, to))|
  {
    hide *;
    var rows, trades, epochExecutions, executions, closes, rowReasons := SortSelected(selected, input, from, to);
    count := |rows|;
    var matchReasons := VerifyExecutionAndCloseEvidence(trades, epochExecutions, executions, closes);
    TradesAgain(TransactionsIn(LedgerOf(selected, from, to)));
    MatchedMeans(selected, from, to, matchReasons);
    IsMatchReasons(selected, from, to, matchReasons);
    var opening, openingReasons := ReadBalances(input.opening.assets);
    var closing, closingReasons := ReadBalances(input.closing.assets);
    QuietWallet(input.opening.assets);
    QuietWallet(input.closing.assets);
    var currencyReasons;
    currencies, currencyReasons := ProjectCurrencies(opening, closing, rows);
    reasons := rowReasons + matchReasons + openingReasons + closingReasons + currencyReasons;
    IndexIsBalances(opening, input.opening.assets);
    IndexIsBalances(closing, input.closing.assets);
    AccountsOf(input, selected, from, to);
    if forall o :: o in selected ==> ValidObservation(o) {
      QuietSelected(selected, input, from, to);
      if (forall o :: o in selected ==> Sound(o, input, from, to)) && PlainUsdt(input.opening.assets) && PlainUsdt(input.closing.assets) {
        SelectedRowsSettled(selected, input, from, to);
        OneBridge(input, rows, opening, closing);
      }
      BalancedMeans(input, LedgerOf(selected, from, to));
    }
  }

  lemma AccountsOf(input: EpochInput, selected: seq<Observation>, from: int, to: int)
    ensures BridgesOf(input, selected, from, to)
            == AllBridges(Balances(input.opening.assets), Balances(input.closing.assets), RowsFrom(LedgerOf(selected, from, to)))
    ensures AccountReasons(input, selected, from, to)
            == SelectedReasons(selected, input, from, to) + MatchReasons(selected, from, to)
               + BalanceReasons(input.opening.assets) + BalanceReasons(input.closing.assets)
               + CurrencyReasons(BridgesOf(input, selected, from, to), RowsFrom(LedgerOf(selected, from, to)))
  {
  }

  lemma IsMatchReasons(selected: seq<Observation>, from: int, to: int, reasons: set<Reason>)
    requires var (trades, epochExecutions, executions) :=
      (TradesOf(TransactionsIn(LedgerOf(selected, from, to))), ExecutionsIn(selected, from, to, true), ExecutionsIn(selected, from, to, false));
      && reasons <= {TransactionExecutionMismatch, ClosedPnlExecutionMismatch}
      && (TransactionExecutionMismatch !in reasons <==>
            (forall x :: x in epochExecutions ==> x.execType == "Trade") && OneToOne(TradeExecutionsOf(epochExecutions), trades))
      && (ClosedPnlExecutionMismatch !in reasons <==> forall row :: row in ClosesIn(selected, from, to) ==> CloseAgrees(row, executions))
    ensures reasons == MatchReasons(selected, from, to)
  {
    hide TradesOf, TransactionsIn, LedgerOf, ExecutionsIn, OneToOne, TradeExecutionsOf, CloseAgrees, ClosesIn;
    assert forall r :: r in reasons ==> r == TransactionExecutionMismatch || r == ClosedPnlExecutionMismatch;
  }

  lemma MatchedMeans(selected: seq<Observation>, from: int, to: int, reasons: set<Reason>)
    requires var (trades, epochExecutions, executions) :=
      (TradesOf(TransactionsIn(LedgerOf(selected, from, to))), ExecutionsIn(selected, from, to, true), ExecutionsIn(selected, from, to, false));
      && reasons <= {TransactionExecutionMismatch, ClosedPnlExecutionMismatch}
      && (TransactionExecutionMismatch !in reasons <==>
            (forall x :: x in epochExecutions ==> x.execType == "Trade") && OneToOne(TradeExecutionsOf(epochExecutions), trades))
      && (ClosedPnlExecutionMismatch !in reasons <==> forall row :: row in ClosesIn(selected, from, to) ==> CloseAgrees(row, executions))
    ensures reasons == {} <==> Matched(selected, from, to)
  {
    hide TradesOf, TransactionsIn, LedgerOf, ExecutionsIn, OneToOne, TradeExecutionsOf, CloseAgrees, ClosesIn;
    assert reasons == {} <==> TransactionExecutionMismatch !in reasons && ClosedPnlExecutionMismatch !in reasons;
  }

  lemma BalancedMeans(input: EpochInput, ledger: seq<Observation>)
    ensures PlainUsdt(input.opening.assets) && PlainUsdt(input.closing.assets) ==>
      (Balanced(input, ledger) <==>
         Value(KnownBalance(input.closing.assets[0]).value) == Value(KnownBalance(input.opening.assets[0]).value) + Sum(Movements(ledger)))
    ensures Balanced(input, ledger) ==> PlainUsdt(input.opening.assets) && PlainUsdt(input.closing.assets)
  {
  }

  /** The boundaries an input is evaluated between; the opening of the epoch is excluded. */
  function EpochStart(input: EpochInput): int {
    match ValidateAnchor(input.opening, OpeningAnchor, input.scope).0 case None => 0 case Some(t) => t
  }

  function EpochEnd(input: EpochInput): int {
    match ValidateAnchor(input.closing, ClosingAnchor, input.scope).0 case None => EpochStart(input) case Some(t) => t
  }

  /** Both anchors set a boundary, the opening one first. */
  predicate HasEpoch(input: EpochInput) {
    var opening, closing := ValidateAnchor(input.opening, OpeningAnchor, input.scope).0, ValidateAnchor(input.closing, ClosingAnchor, input.scope).0;
    opening.Some? && closing.Some? && opening.value < closing.value
  }

  lemma AnchorFacts(input: EpochInput)
    ensures var (opening, closing) :=
        (ValidateAnchor(input.opening, OpeningAnchor, input.scope), ValidateAnchor(input.closing, ClosingAnchor, input.scope));
      ValidAnchors(input, EpochStart(input), EpochEnd(input)) <==>
        opening.1 == {} && closing.1 == {} && HasEpoch(input)
  {
    QuietAnchor(input.opening, OpeningAnchor, input.scope);
    QuietAnchor(input.closing, ClosingAnchor, input.scope);
    hide ValidAnchor;
  }

  /** Selection `e` of the input reconciles its epoch. */
  ghost predicate Explains(e: Evidence, input: EpochInput, hash: Filters -> string) {
    var from, to := EpochStart(input), EpochEnd(input);
    IsEvidence(input, from, to, e) && Reconciles(input, hash, from, to, e)
  }

  ghost predicate IsReconcilable(input: EpochInput, hash: Filters -> string) {
    exists e :: Explains(e, input, hash)
  }

  /** The projection reports the one USDT bridge of the rows selected, and every source covered. */
  ghost predicate ReportsSelection(p: Projection, input: EpochInput, e: Evidence) {
    var rows := RowsFrom(LedgerOf(e.observations, EpochStart(input), EpochEnd(input)));
    && |input.opening.assets| > 0 && |input.closing.assets| > 0 && p.currencies == [UsdtBridge(input, rows)]
    && p.selectedTransactionCount == |rows|
    && |p.sourceCoverage| == |SOURCES|
    && forall k :: 0 <= k < |SOURCES| ==> p.sourceCoverage[k].covered
  }

  ghost predicate ReportsReconciliation(p: Projection, input: EpochInput, hash: Filters -> string) {
    exists e :: Explains(e, input, hash) && ReportsSelection(p, input, e)
  }

  /** A reason raised by the anchors, the history or the accounts of an input from which `e` is used. */
  ghost predicate Raises(r: Reason, input: EpochInput, hash: Filters -> string, e: Evidence) {
    var from, to := EpochStart(input), EpochEnd(input);
    || r in ValidateAnchor(input.opening, OpeningAnchor, input.scope).1
    || r in ValidateAnchor(input.closing, ClosingAnchor, input.scope).1
    || HistoryRaises(r, input, HasEpoch(input), from, to, hash, e)
    || r in AccountReasons(input, e.observations, from, to)
  }

  /** Reasons, bridges and row count are those of the evidence used. */
  ghost predicate IsMadeFrom(p: Projection, input: EpochInput, hash: Filters -> string, e: Evidence) {
    var from, to := EpochStart(input), EpochEnd(input);
    && IsUsed(e, input, HasEpoch(input), from, to)
    && (forall r :: r in p.reasonCodes <==> Raises(r, input, hash, e))
    && p.currencies == BridgesOf(input, e.observations, from, to)
    && p.selectedTransactionCount == |RowsFrom(LedgerOf(e.observations, from, to))|
  }

  ghost predicate IsMade(p: Projection, input: EpochInput, hash: Filters -> string) {
    exists e :: IsMadeFrom(p, input, hash, e)
  }

  /**
   * The projection of an input.  With distinct observation IDs its reasons, bridges and count are
   * those of the evidence used, and the status is RECONCILED exactly when some selection of the
   * input reconciles its epoch; that selection is what is reported.
   */
  ghost predicate IsProjectionOf(p: Projection, input: EpochInput, hash: Filters -> string) {
    && (p.status == Reconciled <==> p.reasonCodes == {})
    && (p.ready <==> p.status == Reconciled)
    && p.scope == input.scope && p.openingAnchorId == input.opening.anchorId && p.closingAnchorId == input.closing.anchorId
    && p.openingBoundary == Boundary(input.opening.capture.providerResponseTime)
    && p.closingBoundary == Boundary(input.closing.capture.providerResponseTime)
    && |p.sourceCoverage| == |SOURCES|
    && (forall k :: 0 <= k < |SOURCES| ==> p.sourceCoverage[k].source == SOURCES[k])
    && (HasEpoch(input) ==> forall k :: 0 <= k < |SOURCES| ==>
          ExactCoverage(p.sourceCoverage[k], input, CoverageStart(input, EpochStart(input)), CoverageEnd(input, EpochEnd(input)), hash))
    && (!HasEpoch(input) ==> forall k :: 0 <= k < |SOURCES| ==> !p.sourceCoverage[k].covered && p.sourceCoverage[k].gaps == [])
    && (DistinctIds(input.observations) ==> IsMade(p, input, hash))
    && (DistinctIds(input.observations) ==> (p.status == Reconciled <==> IsReconcilable(input, hash)))
    && (DistinctIds(input.observations) && p.status == Reconciled ==> ReportsReconciliation(p, input, hash))
  }

  method ProjectEpoch(input: EpochInput, hash: Filters -> string) returns (p: Projection)
    ensures IsProjectionOf(p, input, hash)
  {
    hide ValidateAnchor, ValidAnchors, CoverageComplete, CountsLocated, Clear, ClearInput, Sound, Matched, Balanced, LedgerOf, RowsFrom, Reconciles,
      ExactCoverage, CoverageStart, CoverageEnd, DistinctIds, IsEvidence, UsdtBridge, ValidObservation, Boundary, IsUsed, HistoryRaises,
      AccountReasons, BridgesOf;
    var (opening, openingReasons) := ValidateAnchor(input.opening, OpeningAnchor, input.scope);
    var (closing, closingReasons) := ValidateAnchor(input.closing, ClosingAnchor, input.scope);
    var validEpoch := opening.Some? && closing.Some? && opening.value < closing.value;
    var epochStart := if opening.Some? then opening.value else 0;
    var epochEnd := if closing.Some? then closing.value else epochStart;
    AnchorFacts(input);
    var coverage, evidence, historyReasons := SelectHistory(input, validEpoch, epochStart, epochEnd, hash);
    var currencies, count, accountReasons := SettleAccounts(input, evidence.observations, epochStart, epochEnd);
    var reasons := openingReasons + closingReasons + historyReasons + accountReasons;
    p := Projection(if reasons == {} then Reconciled else NotReady, reasons == {}, input.scope, input.opening.anchorId, input.closing.anchorId,
                    Boundary(input.opening.capture.providerResponseTime), Boundary(input.closing.capture.providerResponseTime),
                    coverage, currencies, count, reasons);
    if DistinctIds(input.observations) {
      assert IsMadeFrom(p, input, hash, evidence);
      Verdict(input, hash, epochStart, epochEnd, evidence);
      PlainHasAssets(input, LedgerOf(evidence.observations, epochStart, epochEnd));
      OnlyEvidence(input, hash, evidence);
      assert reasons == {} <==> Explains(evidence, input, hash);
    }
  }

  /** If any selection reconciles the epoch, it is the one that was made. */
  lemma OnlyEvidence(input: EpochInput, hash: Filters -> string, e: Evidence)
    requires DistinctIds(input.observations)
    requires HasEpoch(input) && ClearInput(input, EpochStart(input), EpochEnd(input)) ==>
               IsEvidence(input, EpochStart(input), EpochEnd(input), e)
    ensures IsReconcilable(input, hash) <==> Explains(e, input, hash)
  {
    var from, to := EpochStart(input), EpochEnd(input);
    if other :| Explains(other, input, hash) {
      Verdict(input, hash, from, to, other);
      AnchorFacts(input);
      RelevantKeepsIds(input.observations, input, from, to);
      DistinctIdsIdentify(RelevantOf(input.observations, input, from, to));
      hide RelevantOf, ConflictsInEpoch, IsSelection, IdsIdentify, DistinctIds, Reconciles, ClearInput, EpochStart, EpochEnd, HasEpoch, ValidateAnchor, ValidAnchors;
      SelectionIsUnique(Elements(RelevantOf(input.observations, input, from, to)), Elements(ConflictsInEpoch(input.conflicts, input, from, to)), e, other);
    }
  }

  lemma PlainHasAssets(input: EpochInput, ledger: seq<Observation>)
    ensures Balanced(input, ledger) ==> |input.opening.assets| > 0 && |input.closing.assets| > 0
  {
  }

  lemma Verdict(input: EpochInput, hash: Filters -> string, from: int, to: int, e: Evidence)
    ensures Reconciles(input, hash, from, to, e) <==>
      && ValidAnchors(input, from, to) && CoverageComplete(input, from, to, hash) && CountsLocated(input, from, to, hash)
      && Clear(input, from, to, e) && (forall o :: o in e.observations ==> Sound(o, input, from, to))
      && Matched(e.observations, from, to) && Balanced(input, LedgerOf(e.observations, from, to))
    ensures Clear(input, from, to, e) ==> ClearInput(input, from, to)
    ensures Clear(input, from, to, e) && IsEvidence(input, from, to, e) ==> forall o :: o in e.observations ==> ValidObservation(o)
  {
    hide ValidAnchors, CoverageComplete, CountsLocated, Sound, Matched, Balanced, ValidObservation, OrderedWithin, SelectionConflictIsInEpoch,
      ConflictIsInEpoch, RelevantOf, SortedBy, Distinct, Winner, MostRecent, Reported;
  }

  // -------------------------------------------------------------- theorems

  lemma ChosenRow(input: EpochInput, from: int, to: int, e: Evidence, o: Observation) returns (l: Observation)
    requires IsEvidence(input, from, to, e) && Clear(input, from, to, e)
    requires o in input.observations && IsEntry(o, from, to)
    ensures l in e.observations && SameTransaction(o, l) && l.contentHash == o.contentHash && l in input.observations
  {
    var id := o.fact.body.transaction.transactionId;
    var relevant := RelevantOf(input.observations, input, from, to);
    var obs, conflicts := Elements(relevant), Elements(ConflictsInEpoch(input.conflicts, input, from, to));
    RelevantMembers(input.observations, input, from, to);
    assert o in relevant && o in TransactionRows(obs, id);
    if !Clean(obs, conflicts, id) {
      UncleanIsNotClear(input, from, to, e, o);
    }
    hide RelevantOf, ConflictsInEpoch, ConflictIsInEpoch, Relevant, RecencyLe, OrderedWithin, ValidObservation, SortedBy, Distinct, AtBoundary;
    l := MostRecentExists(TransactionRows(obs, id));
    assert Chosen(l, obs, conflicts);
  }

  /** A transaction of the epoch that is not clean is a conflict of the epoch. */
  lemma UncleanIsNotClear(input: EpochInput, from: int, to: int, e: Evidence, o: Observation)
    requires IsEvidence(input, from, to, e) && o in input.observations && IsEntry(o, from, to)
    requires !Clean(Elements(RelevantOf(input.observations, input, from, to)), Elements(ConflictsInEpoch(input.conflicts, input, from, to)),
                    o.fact.body.transaction.transactionId)
    ensures !Clear(input, from, to, e)
  {
    var id := o.fact.body.transaction.transactionId;
    var relevant := RelevantOf(input.observations, input, from, to);
    var obs, conflicts := Elements(relevant), Elements(ConflictsInEpoch(input.conflicts, input, from, to));
    RelevantMembers(input.observations, input, from, to);
    assert o in relevant && o in TransactionRows(obs, id);
    hide RelevantOf, ConflictsInEpoch, ConflictIsInEpoch, Relevant, RecencyLe, OrderedWithin, ValidObservation, SortedBy, Distinct, AtBoundary, Clean;
    var c := TransactionConflict(id, Ids(TransactionRows(obs, id)), ConflictIds(StoredAgainst(conflicts, id)));
    assert Reported(c, obs, conflicts);
    assert c in e.conflicts && o.observationId in c.observationIds;
    assert SelectionConflictIsInEpoch(c, relevant, input, from, to);
  }

  /** The selected transactions of a reconciled epoch are its ledger. */
  lemma SelectionIsLedger(input: EpochInput, hash: Filters -> string, from: int, to: int, e: Evidence)
    requires DistinctIds(input.observations) && HashesDecide(input.observations)
    requires IsEvidence(input, from, to, e) && Reconciles(input, hash, from, to, e)
    ensures IsLedger(LedgerOf(e.observations, from, to), input.observations, from, to)
  {
    EvidenceFacts(input, from, to, e);
    LedgerKeepsDistinct(e.observations, from, to);
    Verdict(input, hash, from, to, e);
    hide *;
    LedgerCovers(input, from, to, e);
    EntriesAreSettled(input, from, to, e.observations);
    AssembleLedger(LedgerOf(e.observations, from, to), e.observations, input.observations, from, to);
  }

  lemma EntriesAreSettled(input: EpochInput, from: int, to: int, selected: seq<Observation>)
    requires forall o :: o in selected ==> Sound(o, input, from, to)
    ensures forall o :: o in LedgerOf(selected, from, to) ==> o in selected && IsEntry(o, from, to) && Settled(o.fact.body.transaction)
  {
    LedgerMembers(selected, from, to);
    hide LedgerOf, Settled, AtBoundary, InEpoch;
  }

  lemma AssembleLedger(ledger: seq<Observation>, selected: seq<Observation>, observations: seq<Observation>, from: int, to: int)
    requires Distinct(ledger) && forall o :: o in selected ==> o in observations
    requires forall o :: o in ledger ==> o in selected && IsEntry(o, from, to) && Settled(o.fact.body.transaction)
    requires forall a, b :: a in selected && b in selected && SameTransaction(a, b) ==> a == b
    requires forall o :: o in observations && IsEntry(o, from, to) ==> exists l :: l in ledger && l.fact.body == o.fact.body
    ensures IsLedger(ledger, observations, from, to)
  {
    hide Settled, InEpoch, Distinct, IsTransaction;
  }

  lemma LedgerCovers(input: EpochInput, from: int, to: int, e: Evidence)
    requires HashesDecide(input.observations) && IsEvidence(input, from, to, e) && Clear(input, from, to, e)
    ensures forall o :: o in input.observations && IsEntry(o, from, to) ==>
              exists l :: l in LedgerOf(e.observations, from, to) && l.fact.body == o.fact.body
  {
    LedgerMembers(e.observations, from, to);
    hide LedgerOf, IsEvidence, Clear;
    forall o | o in input.observations && IsEntry(o, from, to)
      ensures exists l :: l in LedgerOf(e.observations, from, to) && l.fact.body == o.fact.body
    {
      var l := ChosenRow(input, from, to, e, o);
      assert l.eventTime == o.eventTime && l.fact.body == o.fact.body;
      assert l in LedgerOf(e.observations, from, to);
    }
  }

  lemma EvidenceFacts(input: EpochInput, from: int, to: int, e: Evidence)
    requires DistinctIds(input.observations) && IsEvidence(input, from, to, e)
    ensures Distinct(e.observations)
    ensures forall o :: o in e.observations ==> o in input.observations
    ensures forall a, b :: a in e.observations && b in e.observations && SameTransaction(a, b) ==> a == b
  {
    var obs, conflicts := Elements(RelevantOf(input.observations, input, from, to)), Elements(ConflictsInEpoch(input.conflicts, input, from, to));
    RelevantMembers(input.observations, input, from, to);
    RelevantKeepsIds(input.observations, input, from, to);
    DistinctIdsIdentify(RelevantOf(input.observations, input, from, to));
    hide RelevantOf, ConflictsInEpoch, Relevant, DistinctIds, IdsIdentify, OrderedWithin, SortedBy, Clean, MostRecent, Winner, Reported;
    forall o | o in e.observations
      ensures o in input.observations
    {
      assert Chosen(o, obs, conflicts);
    }
    forall a, b | a in e.observations && b in e.observations && SameTransaction(a, b)
      ensures a == b
    {
      OnePerSubject(obs, conflicts, e, a, b);
    }
  }

  /**
   * Conservation.  When an epoch reconciles, the closing USDT balance it reports is the opening
   * one plus cash flow, funding and less fee of every transaction ID observed in the epoch, each
   * counted once, whatever else the input holds; nothing is left as drift.
   */
  lemma Conservation(input: EpochInput, hash: Filters -> string, from: int, to: int, e: Evidence)
    requires DistinctIds(input.observations) && HashesDecide(input.observations)
    requires IsEvidence(input, from, to, e) && Reconciles(input, hash, from, to, e)
    ensures var ledger := LedgerOf(e.observations, from, to);
      && IsLedger(ledger, input.observations, from, to)
      && |RowsFrom(ledger)| == |ledger|
      && var bridge := UsdtBridge(input, RowsFrom(ledger));
         && Stated(bridge.openingBalance) && Stated(bridge.closingBalance)
         && Amount(bridge.closingBalance) == Amount(bridge.openingBalance) + Sum(Movements(ledger))
         && bridge.unexplainedDrift == Some("0")
  {
    SelectionIsLedger(input, hash, from, to, e);
    Verdict(input, hash, from, to, e);
    hide IsLedger, IsEvidence, ValidAnchors, CoverageComplete, CountsLocated, Matched, Clear, Sound, Value, Amount, Stated, KnownBalance,
      OnlyOwnCoins, BridgeRow, Moved, Sum, Movements, RowsFrom, LedgerOf;
    SelectedRowsSettled(e.observations, input, from, to);
    var rows := RowsFrom(LedgerOf(e.observations, from, to));
    BridgeMeaning(USDT, KnownBalance(input.opening.assets[0]), KnownBalance(input.closing.assets[0]), rows);
  }

  /** The projection reports a ledger of the input, and its balances differ by exactly what the ledger adds up to. */
  ghost predicate ConservedBy(p: Projection, input: EpochInput, ledger: seq<Observation>) {
    && IsLedger(ledger, input.observations, EpochStart(input), EpochEnd(input))
    && p.selectedTransactionCount == |ledger|
    && |p.currencies| == 1 && p.currencies[0].currency == USDT
    && Stated(p.currencies[0].openingBalance) && Stated(p.currencies[0].closingBalance)
    && Amount(p.currencies[0].closingBalance) == Amount(p.currencies[0].openingBalance) + Sum(Movements(ledger))
    && p.currencies[0].unexplainedDrift == Some("0")
  }

  /** Every RECONCILED projection conserves. */
  lemma ReconciledConserves(p: Projection, input: EpochInput, hash: Filters -> string) returns (ledger: seq<Observation>)
    requires DistinctIds(input.observations) && HashesDecide(input.observations)
    requires IsProjectionOf(p, input, hash) && p.status == Reconciled
    ensures ConservedBy(p, input, ledger)
  {
    hide IsMade, IsReconcilable, HasEpoch, ExactCoverage, Boundary, Explains, ReportsSelection, HashesDecide, DistinctIds, ConservedBy;
    var e :| Explains(e, input, hash) && ReportsSelection(p, input, e);
    ledger := ReportConserves(p, input, hash, e);
  }

  lemma ReportConserves(p: Projection, input: EpochInput, hash: Filters -> string, e: Evidence) returns (ledger: seq<Observation>)
    requires DistinctIds(input.observations) && HashesDecide(input.observations)
    requires Explains(e, input, hash) && ReportsSelection(p, input, e)
    ensures ConservedBy(p, input, ledger)
  {
    ledger := LedgerOf(e.observations, EpochStart(input), EpochEnd(input));
    hide ExactCoverage, EpochStart, EpochEnd, LedgerOf, RowsFrom, IsLedger, BridgeRow, Reconciles, IsEvidence, DistinctIds, HashesDecide,
      Sum, Movements, Amount, Stated;
    Conservation(input, hash, EpochStart(input), EpochEnd(input), e);
    BridgeIsUsdt(input, RowsFrom(ledger));
  }

  lemma BridgeIsUsdt(input: EpochInput, rows: seq<Row>)
    requires |input.opening.assets| > 0 && |input.closing.assets| > 0
    ensures UsdtBridge(input, rows).currency == USDT
  {
  }

  /** The executions of a reconciled epoch and its trades are paired by a bijection that keeps quantities and fees. */
  lemma ExecutionsMatchTrades(input: EpochInput, hash: Filters -> string, from: int, to: int, e: Evidence)
    requires Reconciles(input, hash, from, to, e)
    ensures var executions := ExecutionsIn(e.observations, from, to, true);
            var trades := TradesOf(TransactionsIn(LedgerOf(e.observations, from, to)));
      && Paired(executions, trades)
      && |executions| == |trades|
      && Sum(ExecutionQuantities(executions)) == Sum(TradeQuantities(trades))
      && Sum(ExecutionFees(executions)) == Sum(TradeFees(trades))
  {
    Verdict(input, hash, from, to, e);
    hide ValidAnchors, CoverageComplete, CountsLocated, Clear, Sound, Balanced, OneToOne, Paired, Sum, CloseAgrees,
      ExecutionsIn, TradesOf, TransactionsIn, LedgerOf, TradeExecutionsOf, ExecutionQuantities, ExecutionFees, TradeQuantities, TradeFees;
    var executions := ExecutionsIn(e.observations, from, to, true);
    AllTrades(executions);
    MatchingIsBijection(executions, TradesOf(TransactionsIn(LedgerOf(e.observations, from, to))));
  }

  /** All sources of a reconciled epoch were queried for all of its time. */
  lemma EpochIsCovered(input: EpochInput, hash: Filters -> string, from: int, to: int, e: Evidence)
    requires Reconciles(input, hash, from, to, e)
    ensures forall k, t :: 0 <= k < |SOURCES| && from < t <= to ==>
              Queried(input.coverage, SOURCES[k], input.scope, CoverageStart(input, from), CoverageEnd(input, to), hash, t)
  {
    Verdict(input, hash, from, to, e);
    hide Queried, RefusedWith, ValidAnchors, Clear, Sound, Balanced, CountsLocated, Matched, LedgerOf, Reconciles;
    forall k | 0 <= k < |SOURCES|
      ensures SourceComplete(SOURCES[k], input, CoverageStart(input, from), CoverageEnd(input, to), hash)
    {
    }
  }

  /** Every execution observed in the epoch is selected, so the bijection is over all of them. */
  lemma ExecutionsAreKept(input: EpochInput, from: int, to: int, e: Evidence, o: Observation)
    requires IsEvidence(input, from, to, e) && o.fact.body.ExecutionBody? && InEpoch(o, from, to)
    ensures o in e.observations <==> o in input.observations
  {
    var obs, conflicts := Elements(RelevantOf(input.observations, input, from, to)), Elements(ConflictsInEpoch(input.conflicts, input, from, to));
    RelevantMembers(input.observations, input, from, to);
    hide RelevantOf, ConflictsInEpoch, Reported, SortedBy, Distinct, AtBoundary;
    assert o in e.observations <==> Chosen(o, obs, conflicts);
  }

  lemma {:induction false} AllTrades(executions: seq<Execution>)
    requires forall x :: x in executions ==> x.execType == "Trade"
    ensures TradeExecutionsOf(executions) == executions
  {
    if executions != [] {
      AllTrades(executions[..|executions| - 1]);
      assert executions[|executions| - 1] in executions;
      assert executions == executions[..|executions| - 1] + [executions[|executions| - 1]];
    }
  }
}