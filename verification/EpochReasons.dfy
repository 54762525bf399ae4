/**
 * When each reason code of an accounting epoch is listed, in terms of the anchors, checkpoints,
 * conflicts and transactions of the input (`project`, src/application/history-accounting-epoch.ts).
 */
module EpochReasons {
  import opened Common
  import opened Orders
  import opened DecimalText
  import opened Sums
  import opened Coverage
  import opened History
  import opened Selection
  import opened SelectEvidence
  import opened Normalization
  import opened Bridge
  import opened Matching
  import opened Anchors
  import opened EpochRows
  import opened Epoch
  import opened BalanceCodes
  import opened HistoryCodes

  // --------------------------------------------------------------- matching

  /** The row is closed by as many of the executions as it counts, whose fees are stated and add up to its close fee. */
  ghost predicate IsClosedBy(row: ClosedPnlRow, executions: seq<Execution>) {
    var closes := CloseExecutions(executions, row);
    && closes != [] && row.fillCount.Some? && row.fillCount.value != ""
    && AllDigits(row.fillCount.value) && Number(row.fillCount.value) == |closes|
    && (forall e :: e in closes ==> Stated(e.execFee))
    && Stated(row.closeFee) && Amount(row.closeFee) == Sum(ExecutionFees(closes))
  }

  /** What the executions of a selection raise: they are no other report of its trades, or do not close a row. */
  ghost predicate MatchRaises(r: Reason, selected: seq<Observation>, from: int, to: int) {
    match r
    case TransactionExecutionMismatch =>
      !Paired(ExecutionsIn(selected, from, to, true), TradesOf(TransactionsIn(LedgerOf(selected, from, to))))
    case ClosedPnlExecutionMismatch =>
      exists row :: row in ClosesIn(selected, from, to) && !IsClosedBy(row, ExecutionsIn(selected, from, to, false))
    case _ => false
  }

  lemma MatchReasonsMeaning(r: Reason, selected: seq<Observation>, from: int, to: int)
    ensures r in MatchReasons(selected, from, to) <==> MatchRaises(r, selected, from, to)
  {
    var executions, trades := ExecutionsIn(selected, from, to, true), TradesOf(TransactionsIn(LedgerOf(selected, from, to)));
    hide ExecutionsIn, TradesOf, TransactionsIn, LedgerOf, ClosesIn, OneToOne, Paired, TradeExecutionsOf, Sum, ExecutionFees, ExecutionQuantities,
      TradeQuantities, TradeFees, CloseAgrees, IsClosedBy;
    if forall x :: x in executions ==> x.execType == "Trade" {
      AllTrades(executions);
      if OneToOne(executions, trades) {
        MatchingIsBijection(executions, trades);
      }
    }
    if Paired(executions, trades) {
      PairedIsOneToOne(executions, trades);
      AllTrades(executions);
    }
    forall row
      ensures CloseAgrees(row, ExecutionsIn(selected, from, to, false)) <==> IsClosedBy(row, ExecutionsIn(selected, from, to, false))
    {
      ClosedMeaning(row, ExecutionsIn(selected, from, to, false));
    }
  }

  lemma ClosedMeaning(row: ClosedPnlRow, executions: seq<Execution>)
    ensures CloseAgrees(row, executions) <==> IsClosedBy(row, executions)
  {
    CloseMeaning(row, executions);
    hide CloseAgrees, CloseExecutions, AllDigits, Number, Sum, ExecutionFees, Stated, Amount;
  }

  // ------------------------------------------------------------- selections

  /** What the selected rows raise: of unknown time, during a capture, or a transaction of the epoch that is not as it should be. */
  ghost predicate SelectedRaises(r: Reason, input: EpochInput, selected: seq<Observation>, from: int, to: int) {
    || (r == InvalidHistoryEvidence && exists o :: o in selected && o.eventTime.ms.None?)
    || (r == AnchorBoundaryEventAmbiguous && exists o :: o in selected && !o.fact.body.OrderBody? && o.eventTime.ms.Some?
                                                         && DuringCapture(o.eventTime.ms.value, input))
    || exists o :: o in selected && IsEntry(o, from, to) && EntryRaises(r, o.fact.body.transaction)
  }

  lemma ObservationRaises(r: Reason, o: Observation, input: EpochInput, from: int, to: int)
    requires o.eventTime.ms.Some?
    ensures r in ObservationReasons(o, input, from, to) <==>
      || (r == AnchorBoundaryEventAmbiguous && !o.fact.body.OrderBody? && AtBoundary(o.eventTime.ms.value, input, from, to))
      || (o.fact.body.TransactionBody? && InEpoch(o, from, to)
          && if NormalizeTransaction(o).Ok? then r in MovementReasons(NormalizeTransaction(o).value) else r == InvalidHistoryEvidence)
  {
    hide AtBoundary, InEpoch, MovementReasons, NormalizeTransaction;
  }

  lemma ObservationReasonsMeaning(r: Reason, o: Observation, input: EpochInput, from: int, to: int)
    requires HasEpoch(input) && from == EpochStart(input) && to == EpochEnd(input) && ValidObservation(o)
    ensures r in ObservationReasons(o, input, from, to) <==>
      || (r == InvalidHistoryEvidence && o.eventTime.ms.None?)
      || (r == AnchorBoundaryEventAmbiguous && !o.fact.body.OrderBody? && o.eventTime.ms.Some? && DuringCapture(o.eventTime.ms.value, input))
      || (IsEntry(o, from, to) && EntryRaises(r, o.fact.body.transaction))
  {
    hide HasEpoch, EpochStart, EpochEnd, AtBoundary, DuringCapture, InRange, MovementReasons, NormalizeTransaction, EntryRaises, ValidObservation;
    if o.eventTime.ms.Some? {
      BoundaryMeaning(o.eventTime.ms.value, input, from, to);
      ObservationRaises(r, o, input, from, to);
      hide ObservationReasons;
      if o.fact.body.TransactionBody? {
        EntryReasonsMeaning(o, r);
      }
    }
  }

  lemma SelectedReasonsMeaning(r: Reason, input: EpochInput, selected: seq<Observation>, from: int, to: int)
    requires HasEpoch(input) && from == EpochStart(input) && to == EpochEnd(input)
    requires forall o :: o in selected ==> ValidObservation(o)
    ensures r in SelectedReasons(selected, input, from, to) <==> SelectedRaises(r, input, selected, from, to)
  {
    SelectedRaise(selected, input, from, to);
    forall o | o in selected
      ensures r in ObservationReasons(o, input, from, to) <==>
        || (r == InvalidHistoryEvidence && o.eventTime.ms.None?)
        || (r == AnchorBoundaryEventAmbiguous && !o.fact.body.OrderBody? && o.eventTime.ms.Some? && DuringCapture(o.eventTime.ms.value, input))
        || (IsEntry(o, from, to) && EntryRaises(r, o.fact.body.transaction))
    {
      ObservationReasonsMeaning(r, o, input, from, to);
    }
    hide SelectedReasons, ObservationReasons, IsEntry, EntryRaises, DuringCapture, ValidObservation, HasEpoch, EpochStart, EpochEnd;
  }

  // --------------------------------------------------------------- accounts

  /** The wallets of both anchors and the bridges between them. */
  lemma WalletsAndBridges(r: Reason, input: EpochInput, ledger: seq<Observation>, bridges: seq<CurrencyBridge>)
    requires forall o :: o in ledger ==> ValidEntry(o)
    requires bridges == AllBridges(Balances(input.opening.assets), Balances(input.closing.assets), RowsFrom(ledger))
    ensures r in BalanceReasons(input.opening.assets) + BalanceReasons(input.closing.assets) + RaisedBy(bridges) <==>
      WalletRaises(r, input.opening.assets) || WalletRaises(r, input.closing.assets) || BalancesRaise(r, input, ledger)
    ensures r in {MissingCoinBalance, UnexplainedDrift, UnsupportedCurrency} ==>
      (WalletRaises(r, input.opening.assets) || WalletRaises(r, input.closing.assets) || BalancesRaise(r, input, ledger) <==> BridgesRaise(r, bridges))
  {
    WalletReasonsMeaning(input.opening.assets);
    WalletReasonsMeaning(input.closing.assets);
    RaisedByBridges(r, input, ledger, bridges);
    BridgesDescribe(input, ledger, bridges);
    BridgesDecided(r, input, ledger, bridges);
    hide BalanceReasons, RaisedBy, AllBridges, Balances, RowsFrom, IsCurrency, HeldByBoth, Adds, Drifts, FirstOfCoin, NothingOwed, Describes, BridgesRaise,
      AllChangesStated;
    if r in {MissingCoinBalance, UnexplainedDrift, UnsupportedCurrency} {
      BalanceReasonsMeaning(r, input, ledger, bridges);
    }
    assert BridgesRaise(r, bridges) || r !in RaisedBy(bridges) by {
      assert r in RaisedBy(bridges) ==> exists b :: b in bridges && BridgeRaises(r, b);
      RaisedIsRaised(r, bridges);
    }
  }

  lemma RaisedIsRaised(r: Reason, bridges: seq<CurrencyBridge>)
    ensures (exists b :: b in bridges && BridgeRaises(r, b)) ==> BridgesRaise(r, bridges)
  {
  }

  lemma {:induction false} RowsWithoutCurrency(ledger: seq<Observation>)
    requires forall o :: o in ledger ==> ValidEntry(o)
    requires exists row :: row in RowsFrom(ledger) && row.currency.None?
    ensures exists o :: o in ledger && ValidEntry(o) && EntryRaises(UnknownTransactionCurrency, o.fact.body.transaction)
  {
    hide NormalizeTransaction, RowFrom, Readable, ValidObservation;
    assert ledger != [];
    var init, last := ledger[..|ledger| - 1], ledger[|ledger| - 1];
    assert ValidEntry(last) && last in ledger;
    RowFields(last);
    if row :| row in RowsFrom(init) && row.currency.None? {
      RowsWithoutCurrency(init);
      var o :| o in init && ValidEntry(o) && EntryRaises(UnknownTransactionCurrency, o.fact.body.transaction);
      assert o in ledger;
    } else {
      assert EntryRaises(UnknownTransactionCurrency, last.fact.body.transaction);
    }
  }

  lemma UnnamedIsRaised(input: EpochInput, selected: seq<Observation>, from: int, to: int)
    requires forall o :: o in selected ==> ValidObservation(o)
    ensures forall o :: o in LedgerOf(selected, from, to) ==> ValidEntry(o)
    ensures UnknownTransactionCurrency in CurrencyReasons([], RowsFrom(LedgerOf(selected, from, to))) ==>
              SelectedRaises(UnknownTransactionCurrency, input, selected, from, to)
  {
    LedgerMembers(selected, from, to);
    hide LedgerOf, RowsFrom, ValidObservation, EntryRaises, InEpoch;
    if exists row :: row in RowsFrom(LedgerOf(selected, from, to)) && row.currency.None? {
      RowsWithoutCurrency(LedgerOf(selected, from, to));
    }
  }

  lemma CurrencyCodes(r: Reason, bridges: seq<CurrencyBridge>, rows: seq<Row>)
    ensures r in CurrencyReasons(bridges, rows) <==>
      r in RaisedBy(bridges) || (r == UnknownTransactionCurrency && UnknownTransactionCurrency in CurrencyReasons([], rows))
  {
    assert RaisedBy([]) == {};
    hide RaisedBy;
  }

  /** The codes of the accounts of a selection. */
  lemma AccountReasonsMeaning(r: Reason, input: EpochInput, selected: seq<Observation>, from: int, to: int)
    requires HasEpoch(input) && from == EpochStart(input) && to == EpochEnd(input)
    requires forall o :: o in selected ==> ValidObservation(o)
    ensures r in AccountReasons(input, selected, from, to) <==>
      || SelectedRaises(r, input, selected, from, to) || MatchRaises(r, selected, from, to)
      || WalletRaises(r, input.opening.assets) || WalletRaises(r, input.closing.assets)
      || BalancesRaise(r, input, LedgerOf(selected, from, to))
  {
    AccountsOf(input, selected, from, to);
    SelectedReasonsMeaning(r, input, selected, from, to);
    MatchReasonsMeaning(r, selected, from, to);
    UnnamedIsRaised(input, selected, from, to);
    var ledger, bridges := LedgerOf(selected, from, to), BridgesOf(input, selected, from, to);
    hide AccountReasons, SelectedReasons, MatchReasons, MatchRaises, BalanceReasons, WalletRaises, BalancesRaise, BridgesOf, AllBridges, Balances, LedgerOf,
      RowsFrom, ValidObservation, ValidEntry, HasEpoch, EpochStart, EpochEnd, SelectedRaises, RaisedBy, CurrencyReasons;
    WalletsAndBridges(r, input, ledger, bridges);
    CurrencyCodes(r, bridges, RowsFrom(ledger));
  }

  /** Without an epoch nothing is selected, and only wallets and bridges raise anything. */
  lemma WithoutSelection(r: Reason, input: EpochInput, from: int, to: int)
    ensures r in AccountReasons(input, [], from, to) <==>
      WalletRaises(r, input.opening.assets) || WalletRaises(r, input.closing.assets) || BalancesRaise(r, input, [])
  {
    AccountsOf(input, [], from, to);
    assert SelectedReasons([], input, from, to) == {} && MatchReasons([], from, to) == {} && LedgerOf([], from, to) == [] && RowsFrom([]) == [];
    var bridges := BridgesOf(input, [], from, to);
    hide AccountReasons, SelectedReasons, MatchReasons, BalanceReasons, WalletRaises, BalancesRaise, BridgesOf, AllBridges, Balances, LedgerOf, RowsFrom,
      RaisedBy;
    WalletsAndBridges(r, input, [], bridges);
  }

  // ---------------------------------------------------------------- history

  lemma HasElement<T>(s: seq<T>)
    ensures s == [] || s[0] in s
  {
  }

  lemma NothingChosen(e: Evidence)
    requires IsSelection({}, {}, e)
    ensures e == Evidence([], [])
  {
    forall o
      ensures o !in e.observations
    {
      assert !Chosen(o, {}, {});
    }
    forall c
      ensures c !in e.conflicts
    {
      assert !Reported(c, {}, {});
    }
    HasElement(e.observations);
    HasElement(e.conflicts);
  }

  /** The evidence used consists of valid observations, and of nothing without an epoch. */
  lemma UsedIsValid(e: Evidence, input: EpochInput, from: int, to: int)
    requires IsUsed(e, input, HasEpoch(input), from, to)
    ensures forall o :: o in e.observations ==> ValidObservation(o)
    ensures !HasEpoch(input) ==> e == Evidence([], [])
  {
    var relevant, conflicts := SelectableRows(input, HasEpoch(input), from, to), SelectableConflicts(input, HasEpoch(input), from, to);
    hide RelevantOf, ConflictsInEpoch, HasEpoch, SortedBy, Distinct, ValidObservation, Winner, MostRecent, HasWinner, Ids, ConflictIds;
    if ValidInput(input.scope, relevant, conflicts) {
      assert forall o :: o in e.observations ==> o in Elements(relevant);
      if !HasEpoch(input) {
        assert Elements(relevant) == {} && Elements(conflicts) == {};
        NothingChosen(e);
      }
    }
  }

  // ------------------------------------------------------------- projection

  /** What an epoch between `from` and `to` raises, whose captures reach from `first` to `last`. */
  ghost predicate EpochRaises(r: Reason, input: EpochInput, hash: Filters -> string, selected: seq<Observation>,
                              from: int, to: int, first: int, last: int) {
    || (r == HistoryCoverageGap && HasGap(input, first, last, hash))
    || (exists c :: c in input.coverage && CheckpointRaises(r, c, input, first, last, hash))
    || ConflictRaises(r, input, from, to)
    || SelectedRaises(r, input, selected, from, to)
    || MatchRaises(r, selected, from, to)
    || BalancesRaise(r, input, LedgerOf(selected, from, to))
  }

  /** What is raised with or without an epoch: by each anchor, its wallet, and observations of another scope. */
  ghost predicate AlwaysRaises(r: Reason, input: EpochInput) {
    || AnchorRaises(r, input.opening, OpeningAnchor, input.scope) || AnchorRaises(r, input.closing, ClosingAnchor, input.scope)
    || WalletRaises(r, input.opening.assets) || WalletRaises(r, input.closing.assets)
    || (r == HistoryScopeMismatch && exists o :: o in input.observations && o.scope != input.scope)
  }

  ghost predicate SpannedRaises(r: Reason, input: EpochInput, hash: Filters -> string, e: Evidence) {
    exists from, to, first, last :: SpansEpoch(input, from, to, first, last)
                                    && EpochRaises(r, input, hash, e.observations, from, to, first, last)
  }

  ghost predicate IsSpanned(input: EpochInput) {
    exists from, to, first, last :: SpansEpoch(input, from, to, first, last)
  }

  /** The conditions under which the reason is listed for an input from which `e` is selected. */
  ghost predicate Deserves(r: Reason, input: EpochInput, hash: Filters -> string, e: Evidence) {
    || AlwaysRaises(r, input)
    || SpannedRaises(r, input, hash, e)
    || (!IsSpanned(input) && (r == AnchorEpochInvalid || r == HistoryCoverageGap || BalancesRaise(r, input, [])))
  }

  lemma AnchorsRaise(r: Reason, input: EpochInput, hash: Filters -> string, e: Evidence)
    ensures Raises(r, input, hash, e) <==>
      || AnchorRaises(r, input.opening, OpeningAnchor, input.scope) || AnchorRaises(r, input.closing, ClosingAnchor, input.scope)
      || HistoryRaises(r, input, HasEpoch(input), EpochStart(input), EpochEnd(input), hash, e)
      || r in AccountReasons(input, e.observations, EpochStart(input), EpochEnd(input))
  {
    AnchorReasonsMeaning(input.opening, OpeningAnchor, input.scope);
    AnchorReasonsMeaning(input.closing, ClosingAnchor, input.scope);
    hide ValidateAnchor, AnchorRaises, HistoryRaises, AccountReasons, HasEpoch, EpochStart, EpochEnd;
  }

  lemma SpannedHistory(r: Reason, input: EpochInput, hash: Filters -> string, e: Evidence, from: int, to: int, first: int, last: int)
    requires HasEpoch(input) && from == EpochStart(input) && to == EpochEnd(input)
    requires first == CoverageStart(input, from) && last == CoverageEnd(input, to)
    requires IsUsed(e, input, true, from, to)
    ensures HistoryRaises(r, input, true, from, to, hash, e) <==>
      || (r == HistoryScopeMismatch && exists o :: o in input.observations && o.scope != input.scope)
      || (r == HistoryCoverageGap && HasGap(input, first, last, hash))
      || (exists c :: c in input.coverage && CheckpointRaises(r, c, input, first, last, hash))
      || ConflictRaises(r, input, from, to)
  {
    CoverageReasonsMeaning(r, input, first, last, hash);
    SelectionReasonsMeaning(r, input, from, to, e);
    hide HasEpoch, EpochStart, EpochEnd, CoverageStart, CoverageEnd, IsUsed, CoverageRaises, CountReasons, SelectionRaises, ConflictRaises, CheckpointRaises,
      HasGap, RelevantOf, ConflictsInEpoch;
  }

  lemma SpannedReason(r: Reason, input: EpochInput, hash: Filters -> string, e: Evidence)
    requires HasEpoch(input) && IsUsed(e, input, true, EpochStart(input), EpochEnd(input))
    ensures Raises(r, input, hash, e) <==> AlwaysRaises(r, input) || SpannedRaises(r, input, hash, e)
    ensures IsSpanned(input)
  {
    var from, to := EpochStart(input), EpochEnd(input);
    var first, last := CoverageStart(input, from), CoverageEnd(input, to);
    AnchorsRaise(r, input, hash, e);
    UsedIsValid(e, input, from, to);
    EpochMeaning(input);
    SpannedHistory(r, input, hash, e, from, to, first, last);
    AccountReasonsMeaning(r, input, e.observations, from, to);
    hide Raises, HistoryRaises, AccountReasons, AnchorRaises, WalletRaises, HasGap, CheckpointRaises, ConflictRaises, SelectedRaises, MatchRaises,
      BalancesRaise, HasEpoch, EpochStart, EpochEnd, CoverageStart, CoverageEnd, LedgerOf, ValidObservation, IsUsed, SpansEpoch;
    var a, b, c, d :| SpansEpoch(input, a, b, c, d);
    assert a == from && b == to && c == first && d == last;
    assert EpochRaises(r, input, hash, e.observations, from, to, first, last) <==>
      || (r == HistoryCoverageGap && HasGap(input, first, last, hash))
      || (exists c :: c in input.coverage && CheckpointRaises(r, c, input, first, last, hash))
      || ConflictRaises(r, input, from, to) || SelectedRaises(r, input, e.observations, from, to)
      || MatchRaises(r, e.observations, from, to) || BalancesRaise(r, input, LedgerOf(e.observations, from, to));
    hide EpochRaises;
  }

  lemma UnspannedReason(r: Reason, input: EpochInput, hash: Filters -> string)
    requires !HasEpoch(input)
    ensures Raises(r, input, hash, Evidence([], [])) <==>
      AlwaysRaises(r, input) || r == AnchorEpochInvalid || r == HistoryCoverageGap || BalancesRaise(r, input, [])
    ensures !IsSpanned(input)
  {
    var from, to := EpochStart(input), EpochEnd(input);
    AnchorsRaise(r, input, hash, Evidence([], []));
    EpochMeaning(input);
    WithoutHistory(r, input, hash, from, to);
    WithoutSelection(r, input, from, to);
    hide Raises, HistoryRaises, AccountReasons, AnchorRaises, WalletRaises, BalancesRaise, HasEpoch, EpochStart, EpochEnd, CoverageStart, CoverageEnd,
      SpansEpoch;
  }

  /** Every reason raised is deserved, and every reason deserved is raised. */
  lemma ReasonIsDeserved(r: Reason, input: EpochInput, hash: Filters -> string, e: Evidence)
    requires IsUsed(e, input, HasEpoch(input), EpochStart(input), EpochEnd(input))
    ensures Raises(r, input, hash, e) <==> Deserves(r, input, hash, e)
  {
    UsedIsValid(e, input, EpochStart(input), EpochEnd(input));
    hide Raises, AlwaysRaises, EpochRaises, BalancesRaise, HasEpoch, EpochStart, EpochEnd, SpansEpoch, IsUsed, ValidObservation;
    if HasEpoch(input) {
      SpannedReason(r, input, hash, e);
    } else {
      UnspannedReason(r, input, hash);
    }
  }

  lemma WithoutHistory(r: Reason, input: EpochInput, hash: Filters -> string, from: int, to: int)
    ensures HistoryRaises(r, input, false, from, to, hash, Evidence([], [])) <==>
      || r == AnchorEpochInvalid || r == HistoryCoverageGap
      || (r == HistoryScopeMismatch && exists o :: o in input.observations && o.scope != input.scope)
  {
  }

  /** The reasons of every projection, each exactly under its own conditions. */
  lemma ReasonsAreDeserved(p: Projection, input: EpochInput, hash: Filters -> string) returns (e: Evidence)
    requires DistinctIds(input.observations) && IsProjectionOf(p, input, hash)
    ensures IsUsed(e, input, HasEpoch(input), EpochStart(input), EpochEnd(input))
    ensures forall r :: r in p.reasonCodes <==> Deserves(r, input, hash, e)
  {
    hide IsReconcilable, ReportsReconciliation, ExactCoverage, Boundary, HasEpoch, EpochStart, EpochEnd, CoverageStart, CoverageEnd, Raises, Deserves, IsUsed,
      BridgesOf, RowsFrom, LedgerOf, DistinctIds;
    e :| IsMadeFrom(p, input, hash, e);
    forall r
      ensures Raises(r, input, hash, e) <==> Deserves(r, input, hash, e)
    {
      ReasonIsDeserved(r, input, hash, e);
    }
  }

  lemma OtherCodes(r: Reason, input: EpochInput, hash: Filters -> string, selected: seq<Observation>, from: int, to: int, first: int, last: int)
    requires r in {MissingCoinBalance, UnexplainedDrift, UnsupportedCurrency}
    ensures !AnchorRaises(r, input.opening, OpeningAnchor, input.scope) && !AnchorRaises(r, input.closing, ClosingAnchor, input.scope)
    ensures forall c :: !CheckpointRaises(r, c, input, first, last, hash)
    ensures !ConflictRaises(r, input, from, to) && !MatchRaises(r, selected, from, to)
    ensures SelectedRaises(r, input, selected, from, to) ==> BalancesRaise(r, input, LedgerOf(selected, from, to))
  {
    LedgerMembers(selected, from, to);
    hide LedgerOf, Readable, InEpoch, DuringCapture;
    if SelectedRaises(r, input, selected, from, to) {
      var o :| o in selected && IsEntry(o, from, to) && EntryRaises(r, o.fact.body.transaction);
      var c := o.fact.body.transaction.currency.value;
      assert Moves(o, c);
      assert IsCurrency(input, LedgerOf(selected, from, to), c);
    }
  }

  /**
   * The bridges reported are those of the currencies that occur, with what both wallets hold and
   * the ledger credits; and they alone decide three of the codes.
   */
  lemma ReportDecides(p: Projection, input: EpochInput, hash: Filters -> string, e: Evidence)
    requires IsMadeFrom(p, input, hash, e)
    ensures Describes(p.currencies, input, LedgerOf(e.observations, EpochStart(input), EpochEnd(input)))
    ensures MissingCoinBalance in p.reasonCodes <==> !IsListed(p.currencies, "USDT") || exists b :: b in p.currencies && b.openingBalance.None?
    ensures UnexplainedDrift in p.reasonCodes <==> exists b :: b in p.currencies && Drifts(b)
    ensures UnsupportedCurrency in p.reasonCodes <==> exists b :: b in p.currencies && b.currency != "USDT"
  {
    BridgesAreOf(p, input, hash, e);
    hide IsMadeFrom, LedgerOf, EpochStart, EpochEnd, ValidEntry, BridgesRaise, AllBridges, RowsFrom, Balances;
    BridgesDescribe(input, LedgerOf(e.observations, EpochStart(input), EpochEnd(input)), p.currencies);
    BridgesRaised(MissingCoinBalance, p, input, hash, e);
    BridgesRaised(UnexplainedDrift, p, input, hash, e);
    BridgesRaised(UnsupportedCurrency, p, input, hash, e);
    ReportedCodes(p.currencies);
    hide Describes, Drifts, IsListed;
  }

  lemma ReportedCodes(bridges: seq<CurrencyBridge>)
    ensures BridgesRaise(MissingCoinBalance, bridges) <==> !IsListed(bridges, "USDT") || exists b :: b in bridges && b.openingBalance.None?
    ensures BridgesRaise(UnexplainedDrift, bridges) <==> exists b :: b in bridges && Drifts(b)
    ensures BridgesRaise(UnsupportedCurrency, bridges) <==> exists b :: b in bridges && b.currency != "USDT"
  {
    hide Drifts, IsListed;
  }

  lemma BridgesAreOf(p: Projection, input: EpochInput, hash: Filters -> string, e: Evidence)
    requires IsMadeFrom(p, input, hash, e)
    ensures var ledger := LedgerOf(e.observations, EpochStart(input), EpochEnd(input));
      && (forall o :: o in ledger ==> ValidEntry(o))
      && p.currencies == AllBridges(Balances(input.opening.assets), Balances(input.closing.assets), RowsFrom(ledger))
  {
    var from, to := EpochStart(input), EpochEnd(input);
    UsedIsValid(e, input, from, to);
    LedgerMembers(e.observations, from, to);
    hide IsUsed, AllBridges, LedgerOf, RowsFrom, Balances, HasEpoch, EpochStart, EpochEnd, Raises, ValidObservation;
  }

  lemma BridgesRaised(r: Reason, p: Projection, input: EpochInput, hash: Filters -> string, e: Evidence)
    requires IsMadeFrom(p, input, hash, e) && r in {MissingCoinBalance, UnexplainedDrift, UnsupportedCurrency}
    ensures r in p.reasonCodes <==> BridgesRaise(r, p.currencies)
  {
    var from, to := EpochStart(input), EpochEnd(input);
    var first, last := CoverageStart(input, from), CoverageEnd(input, to);
    var ledger := LedgerOf(e.observations, from, to);
    UsedIsValid(e, input, from, to);
    LedgerMembers(e.observations, from, to);
    AnchorsRaise(r, input, hash, e);
    OtherCodes(r, input, hash, e.observations, from, to, first, last);
    assert p.currencies == AllBridges(Balances(input.opening.assets), Balances(input.closing.assets), RowsFrom(ledger));
    hide BridgesOf, AllBridges, RowsFrom, Balances, HasEpoch, EpochStart, EpochEnd, CoverageStart, CoverageEnd, Raises, ValidObservation, BridgesRaise,
      HistoryRaises, AccountReasons, BalancesRaise, WalletRaises, AnchorRaises, SelectedRaises, MatchRaises, ConflictRaises, CheckpointRaises, IsUsed;
    WalletsAndBridges(r, input, ledger, p.currencies);
    if HasEpoch(input) {
      SpannedHistory(r, input, hash, e, from, to, first, last);
      AccountReasonsMeaning(r, input, e.observations, from, to);
    } else {
      WithoutHistory(r, input, hash, from, to);
      WithoutSelection(r, input, from, to);
    }
  }
}
