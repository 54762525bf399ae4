/**
 * The reason codes of anchors, transactions, checkpoints and conflicts (validateAnchor and `project`,
 * src/application/history-accounting-epoch.ts), by what is wrong with them.
 */
module HistoryCodes {
  import opened Common
  import opened Orders
  import opened Decimals
  import opened Coverage
  import opened History
  import opened Selection
  import opened SelectEvidence
  import opened Normalization
  import opened Bridge
  import opened Matching
  import opened Anchors
  import opened EpochRows
  import opened Epoch
  import opened BalanceCodes

  // ---------------------------------------------------------------- anchors

  /** The times of a capture in the order they have to be taken in. */
  function Readings(c: Capture): seq<Option<int>> {
    [c.providerTimeBefore.ms, c.collectionStartedAt.ms, c.identityObservedAt.ms, c.providerResponseTime.ms,
     c.collectionEndedAt.ms, c.providerTimeAfter.ms]
  }

  ghost predicate TakenInOrder(a: Anchor) {
    var times := Readings(a.capture);
    && (forall i :: 0 <= i < |times| ==> times[i].Some?)
    && (forall i, j :: 0 <= i < j < |times| ==> times[i].value <= times[j].value)
    && a.authenticatedAt.ms.Some? && a.recordedAt.ms.Some?
    && times[4].value <= a.recordedAt.ms.value
  }

  /** What one anchor raises, whatever its wallet holds. */
  ghost predicate AnchorRaises(r: Reason, a: Anchor, expected: AnchorKind, scope: Scope) {
    match r
    case AnchorKindMismatch => a.authentic && a.kind != expected
    case AnchorScopeMismatch => a.authentic &&
      !(&& scope.exchange == "bybit" && scope.environment in {"demo", "testnet", "mainnet"} && IsAccountHash(scope.accountId)
        && a.scope == scope && a.hasPosture
        && exists origin :: && a.binding == Some(Binding("bybit", scope.environment, origin, scope.accountId, true))
                            && (scope.environment, origin) in {("demo", "https://api-demo.bybit.com"),
                                 ("testnet", "https://api-testnet.bybit.com"), ("mainnet", "https://api.bybit.com")})
    case AnchorCaptureInvalid => a.authentic ==>
      !(&& IsAccountHash(a.contentHash) && a.anchorId != "" && a.capture.identityEndpoint == "/v5/user/query-api"
        && a.capture.walletEndpoint == "/v5/account/wallet-balance" && a.capture.accountType == "UNIFIED")
    case AnchorTimeInvalid => a.authentic && !TakenInOrder(a)
    case _ => false
  }

  lemma TimesAreOrdered(a: Anchor)
    ensures WellTimed(a) <==> TakenInOrder(a)
  {
    var times := Readings(a.capture);
    if TakenInOrder(a) {
      assert times[0].Some? && times[1].Some? && times[2].Some? && times[3].Some? && times[4].Some? && times[5].Some?;
      assert times[0].value <= times[1].value <= times[2].value <= times[3].value <= times[4].value <= times[5].value;
    }
  }

  /** Each code of an anchor, and the boundary it sets: the time its wallet was read, if its times are in order. */
  lemma AnchorReasonsMeaning(a: Anchor, expected: AnchorKind, scope: Scope)
    ensures forall r :: r in ValidateAnchor(a, expected, scope).1 <==> AnchorRaises(r, a, expected, scope)
    ensures ValidateAnchor(a, expected, scope).0 == if a.authentic && TakenInOrder(a) then a.capture.providerResponseTime.ms else None
  {
    TimesAreOrdered(a);
    hide TakenInOrder, WellTimed, IsAccountHash;
  }

  // -------------------------------------------------------------- movements

  /** What a selected transaction of the epoch raises. */
  ghost predicate EntryRaises(r: Reason, t: Transaction) {
    match r
    case InvalidHistoryEvidence => !Readable(t)
    case UnknownTransactionType => Readable(t) && !IsClassified(t)
    case UnsupportedTransactionCategory => Readable(t) && !IsTransfer(t) && t.category != Some("linear")
    case UnknownTransactionCurrency => Readable(t) && t.currency.None?
    case UnsupportedCurrency => Readable(t) && t.currency.Some? && t.currency.value != "USDT"
    case UnknownTransactionChange => Readable(t) && t.change.None?
    case TransactionComponentsIncomplete => Readable(t) && (!HasComponents(t) || t.change.None?)
    case TransactionComponentMismatch => Readable(t) && HasComponents(t) && Stated(t.change) && Amount(t.change) != Movement(t)
    case UnsupportedBonusMovement => Readable(t) && Stated(t.bonusChange) && Amount(t.bonusChange) != 0.0
    case _ => false
  }

  lemma MovementRaises(n: NormalizedTransaction, r: Reason)
    ensures var row := RowFrom(n);
      r in MovementReasons(n) <==>
        || (r == InvalidHistoryEvidence && ((n.change.Some? && row.change.None?) || (n.bonusChange.Some? && row.bonusChange.None?)))
        || (r == UnknownTransactionType && row.movementKind == UnknownMovement)
        || (r == UnsupportedTransactionCategory && row.movementKind != TransferMovement && row.category != Some("linear"))
        || (r == UnknownTransactionCurrency && row.currency.None?)
        || (r == UnknownTransactionChange && row.change.None?)
        || (r == TransactionComponentsIncomplete && row.componentCheck == Incomplete)
        || (r == TransactionComponentMismatch && row.componentCheck == Mismatched)
        || (r == UnsupportedCurrency && row.currency.Some? && row.currency.value != "USDT")
        || (r == UnsupportedBonusMovement && row.bonusChange.Some? && row.bonusChange.value.coefficient != 0)
  {
    hide RowFrom;
  }

  /** What the row of a readable transaction says of it. */
  ghost predicate RowStates(n: NormalizedTransaction, t: Transaction) {
    var row := RowFrom(n);
    && (row.movementKind == TransferMovement <==> IsTransfer(t))
    && (row.movementKind == UnknownMovement <==> !IsClassified(t))
    && row.category == t.category && row.currency == t.currency
    && (row.change.Some? <==> t.change.Some?) && (n.change.Some? <==> t.change.Some?) && (Stated(t.change) <==> t.change.Some?)
    && (row.bonusChange.Some? <==> t.bonusChange.Some?) && (n.bonusChange.Some? <==> t.bonusChange.Some?)
    && (Stated(t.bonusChange) <==> t.bonusChange.Some?)
    && (t.bonusChange.Some? ==> (row.bonusChange.value.coefficient == 0 <==> Amount(t.bonusChange) == 0.0))
    && (row.componentCheck == Incomplete <==> !HasComponents(t) || t.change.None?)
    && (row.componentCheck == Matched <==> HasComponents(t) && Stated(t.change) && Amount(t.change) == Movement(t))
  }

  lemma RowIsStated(o: Observation)
    requires ValidEntry(o) && Readable(o.fact.body.transaction)
    ensures NormalizeTransaction(o).Ok? && RowStates(NormalizeTransaction(o).value, o.fact.body.transaction)
  {
    var t := o.fact.body.transaction;
    NormalizationMeaning(o);
    RowFacts(o);
    RowFields(o);
    BonusMeaning(o);
    KindMeaning(t);
    ReadableFields(t);
    FieldMeaning(t.change);
    FieldMeaning(t.bonusChange);
    hide NormalizeTransaction, Value, Amount, Stated, Readable, ValidObservation, MovementKindOf, Movement, Reparsed, HasComponents, IsClassified, IsTransfer,
      DecimalField, ChangeOf;
  }

  lemma StatedRowRaises(n: NormalizedTransaction, t: Transaction, r: Reason)
    requires Readable(t) && RowStates(n, t)
    ensures r in MovementReasons(n) <==> EntryRaises(r, t)
  {
    MovementRaises(n, r);
    hide MovementReasons, RowFrom, Readable, Stated, Amount, Movement, HasComponents, IsClassified, IsTransfer;
  }

  lemma UnreadableRaises(t: Transaction, r: Reason)
    requires !Readable(t)
    ensures EntryRaises(r, t) <==> r == InvalidHistoryEvidence
  {
    hide Readable;
  }

  /** Each code of a transaction: it cannot be read, or is readable and not the movement it should be. */
  lemma EntryReasonsMeaning(o: Observation, r: Reason)
    requires ValidEntry(o)
    ensures (if NormalizeTransaction(o).Ok? then r in MovementReasons(NormalizeTransaction(o).value) else r == InvalidHistoryEvidence)
            <==> EntryRaises(r, o.fact.body.transaction)
  {
    RowFields(o);
    hide NormalizeTransaction, Value, Readable, ChangeOf, AmountOr0, RowFrom, MovementReasons, RowStates, EntryRaises;
    if Readable(o.fact.body.transaction) {
      RowIsStated(o);
      StatedRowRaises(NormalizeTransaction(o).value, o.fact.body.transaction, r);
    } else {
      UnreadableRaises(o.fact.body.transaction, r);
    }
  }

  // ------------------------------------------------------------------ times

  /** The boundaries of the epoch, and the earliest and latest time of the two captures. */
  ghost predicate SpansEpoch(input: EpochInput, from: int, to: int, first: int, last: int) {
    && input.opening.authentic && TakenInOrder(input.opening) && input.closing.authentic && TakenInOrder(input.closing)
    && input.opening.capture.providerResponseTime.ms == Some(from) && input.closing.capture.providerResponseTime.ms == Some(to)
    && input.opening.capture.providerTimeBefore.ms == Some(first) && input.closing.capture.providerTimeAfter.ms == Some(last)
    && from < to
  }

  lemma OrderedTimes(a: Anchor)
    requires TakenInOrder(a)
    ensures var c := a.capture;
      && c.providerTimeBefore.ms.Some? && c.providerResponseTime.ms.Some? && c.providerTimeAfter.ms.Some?
      && c.providerTimeBefore.ms.value <= c.providerResponseTime.ms.value <= c.providerTimeAfter.ms.value
  {
    var times := Readings(a.capture);
    assert times[0].Some? && times[3].Some? && times[5].Some?;
    assert times[0].value <= times[3].value <= times[5].value;
  }

  /** An epoch lies between two captures; what it needs covered is all from the first reading of one to the last of the other. */
  lemma EpochMeaning(input: EpochInput)
    ensures HasEpoch(input) <==> exists from, to, first, last :: SpansEpoch(input, from, to, first, last)
    ensures forall from, to, first, last :: SpansEpoch(input, from, to, first, last) ==>
              && EpochStart(input) == from && EpochEnd(input) == to
              && CoverageStart(input, from) == first && CoverageEnd(input, to) == last
  {
    AnchorReasonsMeaning(input.opening, OpeningAnchor, input.scope);
    AnchorReasonsMeaning(input.closing, ClosingAnchor, input.scope);
    hide ValidateAnchor, AnchorRaises;
    if HasEpoch(input) {
      OrderedTimes(input.opening);
      OrderedTimes(input.closing);
      hide TakenInOrder;
      assert SpansEpoch(input, EpochStart(input), EpochEnd(input), input.opening.capture.providerTimeBefore.ms.value,
                        input.closing.capture.providerTimeAfter.ms.value);
    }
    forall from, to, first, last | SpansEpoch(input, from, to, first, last)
      ensures EpochStart(input) == from && EpochEnd(input) == to
      ensures CoverageStart(input, from) == first && CoverageEnd(input, to) == last
    {
      OrderedTimes(input.opening);
      OrderedTimes(input.closing);
    }
    hide TakenInOrder;
  }

  /** During one of the two captures. */
  ghost predicate DuringCapture(time: int, input: EpochInput) {
    exists c :: c in {input.opening.capture, input.closing.capture}
      && c.providerTimeBefore.ms.Some? && c.providerTimeAfter.ms.Some?
      && c.providerTimeBefore.ms.value <= time <= c.providerTimeAfter.ms.value
  }

  lemma BoundaryMeaning(time: int, input: EpochInput, from: int, to: int)
    requires HasEpoch(input) && from == EpochStart(input) && to == EpochEnd(input)
    ensures AtBoundary(time, input, from, to) <==> DuringCapture(time, input)
  {
    AnchorReasonsMeaning(input.opening, OpeningAnchor, input.scope);
    AnchorReasonsMeaning(input.closing, ClosingAnchor, input.scope);
    OrderedTimes(input.opening);
    OrderedTimes(input.closing);
    hide ValidateAnchor, AnchorRaises, TakenInOrder;
  }

  // --------------------------------------------------------------- coverage

  /** The window is known and overlaps [first, last]. */
  ghost predicate Touches(c: Checkpoint, first: int, last: int) {
    c.fromMs.Some? && c.toMs.Some? && c.fromMs.value <= last && c.toMs.value >= first
  }

  ghost predicate IsWindow(c: Checkpoint) {
    c.fromMs.Some? && c.toMs.Some? && 0 <= c.fromMs.value < c.toMs.value
  }

  /** At most seven days, in milliseconds. */
  ghost predicate IsShort(c: Checkpoint)
    requires IsWindow(c)
  {
    c.toMs.value - c.fromMs.value <= 604_800_000
  }

  /** The conflicts stored for the very query of the checkpoint. */
  ghost function Associated(c: Checkpoint, conflicts: seq<StoredConflict>): set<int> {
    set i | 0 <= i < |conflicts| && IsAssociated(conflicts[i], c)
  }

  ghost predicate IsAssociated(stored: StoredConflict, c: Checkpoint) {
    && stored.source == c.source && stored.windows.Some? && c.fromMs.Some? && c.toMs.Some?
    && (c.filterHash, Interval(c.fromMs.value, c.toMs.value)) in stored.windows.value
  }

  lemma {:induction false} LocatedCount(c: Checkpoint, conflicts: seq<StoredConflict>)
    requires c.fromMs.Some? && c.toMs.Some?
    ensures CountLocated(conflicts, c) == |Associated(c, conflicts)|
  {
    if conflicts != [] {
      var init, last := conflicts[..|conflicts| - 1], |conflicts| - 1;
      LocatedCount(c, init);
      assert IsAssociated(conflicts[last], c) <==> LocatedAt(conflicts[last], c);
      hide IsAssociated, LocatedAt;
      assert Associated(c, conflicts) == if IsAssociated(conflicts[last], c) then Associated(c, init) + {last} else Associated(c, init);
    }
  }

  /** The filters are those of a history query of the source over the checkpoint's own window, and are hashed as stated. */
  lemma FiltersMeaning(c: Checkpoint, hash: Filters -> string)
    ensures CompatibleFilters(c, hash) <==> c.filters.Some? && IsHistoryQuery(c, c.filters.value) && hash(c.filters.value) == c.filterHash
  {
  }

  ghost predicate IsHistoryQuery(c: Checkpoint, filters: Filters) {
    var (key, value) := if c.source == TransactionLog then ("accountType", "UNIFIED") else ("category", "linear");
    && c.fromMs.Some? && c.toMs.Some?
    && {key, "purpose", "rangeStartMs", "rangeEndMs"} <= filters.Keys <= {key, "purpose", "rangeStartMs", "rangeEndMs", "replayId"}
    && filters[key] == FText(value)
    && filters["purpose"] in {FText("backfill"), FText("recent-refresh"), FText("explicit-replay")}
    && filters["rangeStartMs"] == FInteger(c.fromMs.value) && filters["rangeEndMs"] == FInteger(c.toMs.value)
  }

  /** What one checkpoint raises against an epoch that needs [first, last] covered. */
  ghost predicate CheckpointRaises(r: Reason, c: Checkpoint, input: EpochInput, first: int, last: int, hash: Filters -> string) {
    match r
    case HistoryScopeMismatch => IsWindow(c) && Touches(c, first, last) && IsShort(c) && c.scope != input.scope
    case HistoryCoverageFilterIncompatible =>
      || !IsWindow(c)
      || (&& Touches(c, first, last)
          && (!IsShort(c) || (c.scope == input.scope && (!CompatibleFilters(c, hash) || !CountedConflicts(c)))))
    case HistoryCoverageConflict =>
      && Touches(c, first, last) && c.scope == input.scope && CompatibleFilters(c, hash) && CountedConflicts(c)
      && c.conflictCount.value != |Associated(c, input.conflicts)|
    case _ => false
  }

  /** The checkpoint answers for instant `t`: its query of the source traversed a window of the scope that holds it. */
  ghost predicate Answers(c: Checkpoint, source: Source, input: EpochInput, hash: Filters -> string, t: int) {
    && c.source == source && c.scope == input.scope && IsWindow(c) && IsShort(c) && c.fromMs.value <= t <= c.toMs.value
    && CompatibleFilters(c, hash) && c.status == Traversed && c.cursor.None? && c.reasonCode.None?
    && c.conflictCount.Some? && c.conflictCount.value >= 0
  }

  ghost predicate Unanswered(source: Source, input: EpochInput, hash: Filters -> string, t: int) {
    forall c :: c in input.coverage ==> !Answers(c, source, input, hash, t)
  }

  lemma QueriedMeaning(source: Source, input: EpochInput, first: int, last: int, hash: Filters -> string, t: int)
    requires first <= t <= last
    ensures Queried(input.coverage, source, input.scope, first, last, hash, t) <==> !Unanswered(source, input, hash, t)
  {
    hide CompatibleFilters;
    forall i | 0 <= i < |input.coverage|
      ensures var c := input.coverage[i];
              var admission := Admit(c, source, input.scope, first, last, hash);
              admission.Admitted? && Holds(admission.window, t) <==> Answers(c, source, input, hash, t)
    {
    }
    hide Admit, Answers;
  }

  lemma SourceIsRead(source: Source) returns (k: nat)
    ensures k < |SOURCES| && SOURCES[k] == source
  {
    k := match source case OrderHistory => 0 case Executions => 1 case ClosedPnl => 2 case TransactionLog => 3;
  }

  lemma CheckpointMeaning(c: Checkpoint, input: EpochInput, first: int, last: int, hash: Filters -> string)
    ensures var (admission, counts) := (Admit(c, c.source, input.scope, first, last, hash), CountReasons(c, input, first, last, hash));
      && (CheckpointRaises(HistoryScopeMismatch, c, input, first, last, hash) <==> admission == Refused(ScopeMismatch))
      && (CheckpointRaises(HistoryCoverageFilterIncompatible, c, input, first, last, hash) <==>
            admission == Refused(FilterIncompatible) || HistoryCoverageFilterIncompatible in counts)
      && (CheckpointRaises(HistoryCoverageConflict, c, input, first, last, hash) <==> HistoryCoverageConflict in counts)
      && counts <= {HistoryCoverageFilterIncompatible, HistoryCoverageConflict}
  {
    hide CompatibleFilters;
    if c.fromMs.Some? && c.toMs.Some? {
      LocatedCount(c, input.conflicts);
    }
    hide CountLocated, Associated;
  }

  lemma RefusedMeaning(input: EpochInput, first: int, last: int, hash: Filters -> string, reason: CoverageReason)
    ensures (exists k :: 0 <= k < |SOURCES| && RefusedWith(input.coverage, SOURCES[k], input.scope, first, last, hash, reason)) <==>
            exists c :: c in input.coverage && Admit(c, c.source, input.scope, first, last, hash) == Refused(reason)
  {
    if c :| c in input.coverage && Admit(c, c.source, input.scope, first, last, hash) == Refused(reason) {
      hide Admit;
      var k := SourceIsRead(c.source);
      var i :| 0 <= i < |input.coverage| && input.coverage[i] == c;
      assert RefusedWith(input.coverage, SOURCES[k], input.scope, first, last, hash, reason);
    }
    if k :| 0 <= k < |SOURCES| && RefusedWith(input.coverage, SOURCES[k], input.scope, first, last, hash, reason) {
      var i :| 0 <= i < |input.coverage| && Admit(input.coverage[i], SOURCES[k], input.scope, first, last, hash) == Refused(reason);
      assert input.coverage[i].source == SOURCES[k];
      assert input.coverage[i] in input.coverage;
    }
  }

  /** An instant of [first, last] that no checkpoint of some source answers for. */
  ghost predicate HasGap(input: EpochInput, first: int, last: int, hash: Filters -> string) {
    exists source, t :: first <= t <= last && Unanswered(source, input, hash, t)
  }

  lemma GapMeaning(input: EpochInput, first: int, last: int, hash: Filters -> string)
    ensures CoverageRaises(HistoryCoverageGap, input, first, last, hash) <==> HasGap(input, first, last, hash)
  {
    hide Queried, Unanswered;
    if source, t :| first <= t <= last && Unanswered(source, input, hash, t) {
      var k := SourceIsRead(source);
      QueriedMeaning(source, input, first, last, hash, t);
      assert SourceRaises(HistoryCoverageGap, SOURCES[k], input, first, last, hash);
    }
    if k :| 0 <= k < |SOURCES| && SourceRaises(HistoryCoverageGap, SOURCES[k], input, first, last, hash) {
      var t :| first <= t <= last && !Queried(input.coverage, SOURCES[k], input.scope, first, last, hash, t);
      QueriedMeaning(SOURCES[k], input, first, last, hash, t);
    }
  }

  lemma CountsRaise(r: Reason, input: EpochInput, first: int, last: int, hash: Filters -> string, c: Checkpoint)
    requires c in input.coverage && r in CountReasons(c, input, first, last, hash)
    ensures CheckpointRaises(r, c, input, first, last, hash)
  {
    CheckpointMeaning(c, input, first, last, hash);
    hide CountReasons, CheckpointRaises, Admit;
  }

  ghost predicate Refuses(input: EpochInput, first: int, last: int, hash: Filters -> string, reason: CoverageReason) {
    exists c :: c in input.coverage && Admit(c, c.source, input.scope, first, last, hash) == Refused(reason)
  }

  lemma SourcesRaise(r: Reason, input: EpochInput, first: int, last: int, hash: Filters -> string)
    ensures CoverageRaises(r, input, first, last, hash) <==>
      || (r == HistoryCoverageGap && HasGap(input, first, last, hash))
      || (r == HistoryCoverageFilterIncompatible && Refuses(input, first, last, hash, FilterIncompatible))
      || (r == HistoryScopeMismatch && Refuses(input, first, last, hash, ScopeMismatch))
  {
    GapMeaning(input, first, last, hash);
    RefusedMeaning(input, first, last, hash, ScopeMismatch);
    RefusedMeaning(input, first, last, hash, FilterIncompatible);
    hide HasGap, RefusedWith, Admit, Queried;
    if r == HistoryScopeMismatch || r == HistoryCoverageFilterIncompatible {
      var reason := if r == HistoryScopeMismatch then ScopeMismatch else FilterIncompatible;
      assert forall k :: 0 <= k < |SOURCES| ==>
        (SourceRaises(r, SOURCES[k], input, first, last, hash) <==> RefusedWith(input.coverage, SOURCES[k], input.scope, first, last, hash, reason));
      hide SourceRaises;
    }
  }

  /** The codes of coverage and conflict counts, checkpoint by checkpoint and instant by instant. */
  lemma CoverageReasonsMeaning(r: Reason, input: EpochInput, first: int, last: int, hash: Filters -> string)
    ensures (CoverageRaises(r, input, first, last, hash) || exists c :: c in input.coverage && r in CountReasons(c, input, first, last, hash))
            <==> (|| (r == HistoryCoverageGap && HasGap(input, first, last, hash))
                  || exists c :: c in input.coverage && CheckpointRaises(r, c, input, first, last, hash))
  {
    SourcesRaise(r, input, first, last, hash);
    hide CoverageRaises, HasGap, Admit, CountReasons, Touches, IsWindow, IsShort, Associated, CompatibleFilters, CountedConflicts;
    forall c
      ensures CheckpointRaises(r, c, input, first, last, hash) <==>
        || r in CountReasons(c, input, first, last, hash)
        || (r == HistoryCoverageFilterIncompatible && Admit(c, c.source, input.scope, first, last, hash) == Refused(FilterIncompatible))
        || (r == HistoryScopeMismatch && Admit(c, c.source, input.scope, first, last, hash) == Refused(ScopeMismatch))
    {
      CheckpointMeaning(c, input, first, last, hash);
    }
    hide CheckpointRaises;
  }

  // -------------------------------------------------------------- conflicts

  /** Of unknown time, or of a time between the first reading of the earlier capture and the last of the later one. */
  ghost predicate Around(o: Observation, input: EpochInput) {
    var (a, b) := (input.opening.capture, input.closing.capture);
    o.eventTime.ms.Some? && a.providerTimeBefore.ms.Some? && b.providerTimeBefore.ms.Some? && a.providerTimeAfter.ms.Some? && b.providerTimeAfter.ms.Some?
    ==> && (a.providerTimeBefore.ms.value <= o.eventTime.ms.value || b.providerTimeBefore.ms.value <= o.eventTime.ms.value)
        && (o.eventTime.ms.value <= a.providerTimeAfter.ms.value || o.eventTime.ms.value <= b.providerTimeAfter.ms.value)
  }

  lemma AroundMeaning(o: Observation, input: EpochInput, from: int, to: int)
    requires HasEpoch(input) && from == EpochStart(input) && to == EpochEnd(input)
    ensures InEpochOrBoundary(o, input, from, to) <==> Around(o, input)
  {
    AnchorReasonsMeaning(input.opening, OpeningAnchor, input.scope);
    AnchorReasonsMeaning(input.closing, ClosingAnchor, input.scope);
    OrderedTimes(input.opening);
    OrderedTimes(input.closing);
    hide ValidateAnchor, AnchorRaises, TakenInOrder;
  }

  ghost predicate Observed(stored: StoredConflict, o: Observation, input: EpochInput) {
    o in input.observations && o.source == stored.source && o.eventIdentity == stored.eventIdentity
  }

  ghost predicate DuringOneCapture(window: Interval, input: EpochInput) {
    exists c :: c in {input.opening.capture, input.closing.capture}
      && c.providerTimeBefore.ms.Some? && c.providerTimeAfter.ms.Some?
      && c.providerTimeBefore.ms.value <= window.from && window.to <= c.providerTimeAfter.ms.value
  }

  /** A stored conflict about an observation around the epoch or queried during a capture; an unobserved one of a window that meets the epoch, or of none. */
  ghost predicate OfEpoch(stored: StoredConflict, input: EpochInput, from: int, to: int) {
    if exists o :: Observed(stored, o, input) then
      || (exists o :: Observed(stored, o, input) && Around(o, input))
      || (stored.windows.Some? && exists w :: w in stored.windows.value && DuringOneCapture(w.1, input))
    else
      stored.windows in {None, Some([])} || exists w :: w in stored.windows.value && from <= w.1.to && w.1.from <= to
  }

  lemma OfEpochMeaning(stored: StoredConflict, input: EpochInput, from: int, to: int)
    requires HasEpoch(input) && from == EpochStart(input) && to == EpochEnd(input)
    ensures ConflictIsInEpoch(stored, input, from, to) <==> OfEpoch(stored, input, from, to)
  {
    forall o
      ensures InEpochOrBoundary(o, input, from, to) <==> Around(o, input)
    {
      AroundMeaning(o, input, from, to);
    }
    hide InEpochOrBoundary, Around, HasEpoch, EpochStart, EpochEnd;
    assert forall o :: o in input.observations && Identifies(stored, o) <==> Observed(stored, o, input);
    forall w
      ensures ConfinedToBracket(w, input.opening) || ConfinedToBracket(w, input.closing) <==> DuringOneCapture(w, input)
    {
    }
    hide Identifies, Observed, ConfinedToBracket, DuringOneCapture;
  }

  /** Two observations of one transaction disagree in content, and one of them is around the epoch. */
  ghost predicate Disagree(a: Observation, b: Observation, input: EpochInput) {
    && a in input.observations && b in input.observations && Around(a, input)
    && a.fact.body.TransactionBody? && IsTransaction(b, a.fact.body.transaction.transactionId)
    && a.contentHash != b.contentHash
  }

  ghost function RowsAround(input: EpochInput, key: GroupingKey): set<Observation> {
    set o | o in input.observations && InGroup(o, key) && Around(o, input)
  }

  /** The closed-PnL rows of a group around the epoch have no last revision. */
  ghost predicate Undecided(input: EpochInput, key: GroupingKey) {
    RowsAround(input, key) != {} && !HasWinner(RowsAround(input, key))
  }

  /**
   * Around the epoch, or of a transaction that is, or an execution of an order whose closed PnL is of
   * the epoch, wherever it was itself.
   */
  ghost predicate IsSelectable(o: Observation, input: EpochInput, from: int, to: int) {
    || Around(o, input)
    || (o.fact.body.TransactionBody? &&
          exists p :: p in input.observations && IsTransaction(p, o.fact.body.transaction.transactionId) && Around(p, input))
    || (o.fact.body.ExecutionBody? && exists p :: ClosesOrder(p, o.fact.body.execution.orderId, input, from, to))
  }

  ghost predicate ClosesOrder(p: Observation, orderId: string, input: EpochInput, from: int, to: int) {
    && p in input.observations && p.fact.body.ClosedPnlBody? && p.fact.body.row.orderId == orderId
    && p.eventTime.ms.Some? && from < p.eventTime.ms.value <= to
  }

  lemma SelectableMeaning(o: Observation, input: EpochInput, from: int, to: int)
    requires HasEpoch(input) && from == EpochStart(input) && to == EpochEnd(input)
    ensures Relevant(o, input, from, to) <==> IsSelectable(o, input, from, to)
  {
    forall p
      ensures InEpochOrBoundary(p, input, from, to) <==> Around(p, input)
    {
      AroundMeaning(p, input, from, to);
    }
    hide InEpochOrBoundary, Around, HasEpoch, EpochStart, EpochEnd;
    if o.fact.body.ExecutionBody? {
      assert forall p :: ClosesOrder(p, o.fact.body.execution.orderId, input, from, to) <==>
        p in input.observations && p.fact.body.ClosedPnlBody? && p.fact.body.row.orderId == o.fact.body.execution.orderId && InEpoch(p, from, to);
      hide ClosesOrder;
    }
  }

  /** Something selected from is malformed. */
  ghost predicate Malformed(input: EpochInput, from: int, to: int) {
    || (exists o :: o in input.observations && IsSelectable(o, input, from, to) && (!ValidObservation(o) || o.scope != input.scope))
    || (exists c :: c in input.conflicts && OfEpoch(c, input, from, to) && !WellFormedConflict(c))
  }

  ghost predicate StoredLogConflict(input: EpochInput, from: int, to: int) {
    exists c :: c in input.conflicts && OfEpoch(c, input, from, to) && c.source == TransactionLog
  }

  ghost predicate SomeDisagree(input: EpochInput) {
    exists a, b :: Disagree(a, b, input)
  }

  ghost predicate SomeUndecided(input: EpochInput) {
    exists key :: Undecided(input, key)
  }

  /** What the conflicts of an epoch raise: those stored, and those found among the observations. */
  ghost predicate ConflictRaises(r: Reason, input: EpochInput, from: int, to: int) {
    match r
    case InvalidHistoryEvidence => Malformed(input, from, to)
    case HistorySourceConflict => exists c :: c in input.conflicts && OfEpoch(c, input, from, to) && c.source != TransactionLog
    case TransactionIdentityConflict =>
      StoredLogConflict(input, from, to) || (!Malformed(input, from, to) && SomeDisagree(input))
    case ClosedPnlRevisionConflict => !Malformed(input, from, to) && SomeUndecided(input)
    case _ => false
  }

  /** What an epoch selects from: relevant observations and stored conflicts of the epoch. */
  lemma EpochMembers(input: EpochInput, from: int, to: int)
    requires HasEpoch(input) && from == EpochStart(input) && to == EpochEnd(input)
    ensures forall o :: o in RelevantOf(input.observations, input, from, to) <==> o in input.observations && IsSelectable(o, input, from, to)
    ensures forall c :: c in ConflictsInEpoch(input.conflicts, input, from, to) <==> c in input.conflicts && OfEpoch(c, input, from, to)
    ensures ValidInput(input.scope, RelevantOf(input.observations, input, from, to), ConflictsInEpoch(input.conflicts, input, from, to))
            <==> !Malformed(input, from, to)
  {
    RelevantMembers(input.observations, input, from, to);
    ConflictMembers(input.conflicts, input, from, to);
    forall c
      ensures ConflictIsInEpoch(c, input, from, to) <==> OfEpoch(c, input, from, to)
    {
      OfEpochMeaning(c, input, from, to);
    }
    forall o
      ensures Relevant(o, input, from, to) <==> IsSelectable(o, input, from, to)
    {
      SelectableMeaning(o, input, from, to);
    }
    hide OfEpoch, ConflictIsInEpoch, Relevant, IsSelectable, ValidObservation, WellFormedConflict, RelevantOf, ConflictsInEpoch, HasEpoch, EpochStart, EpochEnd;
  }

  lemma DisagreeIsReported(input: EpochInput, from: int, to: int, e: Evidence, a: Observation, b: Observation)
    requires HasEpoch(input) && from == EpochStart(input) && to == EpochEnd(input)
    requires IsEvidence(input, from, to, e) && Disagree(a, b, input)
    ensures exists c :: c in e.conflicts && c.TransactionConflict?
                        && SelectionConflictIsInEpoch(c, RelevantOf(input.observations, input, from, to), input, from, to)
  {
    EpochMembers(input, from, to);
    AroundMeaning(a, input, from, to);
    var id := a.fact.body.transaction.transactionId;
    var relevant := RelevantOf(input.observations, input, from, to);
    var obs, conflicts := Elements(relevant), Elements(ConflictsInEpoch(input.conflicts, input, from, to));
    assert IsTransaction(a, id);
    assert a in TransactionRows(obs, id) && b in TransactionRows(obs, id);
    hide RelevantOf, ConflictsInEpoch, OfEpoch, IsSelectable, OrderedWithin, ValidObservation, SortedBy, Distinct, InEpochOrBoundary, Around, Chosen,
      HasEpoch, EpochStart, EpochEnd;
    var c := TransactionConflict(id, Ids(TransactionRows(obs, id)), ConflictIds(StoredAgainst(conflicts, id)));
    assert !OneContent(TransactionRows(obs, id));
    assert Reported(c, obs, conflicts);
    assert c in e.conflicts && a.observationId in c.observationIds;
  }

  lemma ReportedDisagrees(input: EpochInput, from: int, to: int, e: Evidence, c: SelectionConflict)
    requires HasEpoch(input) && from == EpochStart(input) && to == EpochEnd(input)
    requires IsEvidence(input, from, to, e) && c in e.conflicts && c.TransactionConflict?
    ensures || (exists a, b :: Disagree(a, b, input))
            || (exists k :: k in input.conflicts && OfEpoch(k, input, from, to) && k.source == TransactionLog)
  {
    EpochMembers(input, from, to);
    var relevant := RelevantOf(input.observations, input, from, to);
    var obs, conflicts := Elements(relevant), Elements(ConflictsInEpoch(input.conflicts, input, from, to));
    hide RelevantOf, ConflictsInEpoch, OfEpoch, IsSelectable, OrderedWithin, ValidObservation, SortedBy, Distinct, InEpochOrBoundary, Around, Chosen,
      HasEpoch, EpochStart, EpochEnd, Ids, ConflictIds;
    assert !Clean(obs, conflicts, c.transactionId);
    if OneContent(TransactionRows(obs, c.transactionId)) {
      var k :| k in StoredAgainst(conflicts, c.transactionId);
      assert k in input.conflicts && OfEpoch(k, input, from, to);
    } else {
      var x, y :| x in TransactionRows(obs, c.transactionId) && y in TransactionRows(obs, c.transactionId) && x.contentHash != y.contentHash;
      var a := RowAround(input, from, to, x);
      assert if a.contentHash != x.contentHash then Disagree(a, x, input) else Disagree(a, y, input);
    }
  }

  /** A transaction selected from is one of an observation around the epoch. */
  lemma RowAround(input: EpochInput, from: int, to: int, o: Observation) returns (p: Observation)
    requires o in input.observations && IsSelectable(o, input, from, to) && o.fact.body.TransactionBody?
    ensures p in input.observations && IsTransaction(p, o.fact.body.transaction.transactionId) && Around(p, input)
  {
    hide Around;
    if Around(o, input) {
      p := o;
    } else {
      p :| p in input.observations && IsTransaction(p, o.fact.body.transaction.transactionId) && Around(p, input);
    }
  }

  /** Closed-PnL rows are selected from exactly when they are around the epoch. */
  lemma GroupIsAround(input: EpochInput, from: int, to: int, key: GroupingKey)
    requires HasEpoch(input) && from == EpochStart(input) && to == EpochEnd(input)
    ensures GroupRows(Elements(RelevantOf(input.observations, input, from, to)), key) == RowsAround(input, key)
  {
    EpochMembers(input, from, to);
    forall o
      ensures o in GroupRows(Elements(RelevantOf(input.observations, input, from, to)), key) <==> o in RowsAround(input, key)
    {
      AroundMeaning(o, input, from, to);
    }
  }

  lemma UndecidedIsReported(input: EpochInput, from: int, to: int, e: Evidence, key: GroupingKey)
    requires HasEpoch(input) && from == EpochStart(input) && to == EpochEnd(input)
    requires IsEvidence(input, from, to, e) && Undecided(input, key)
    ensures exists c :: c in e.conflicts && !c.TransactionConflict?
                        && SelectionConflictIsInEpoch(c, RelevantOf(input.observations, input, from, to), input, from, to)
  {
    EpochMembers(input, from, to);
    GroupIsAround(input, from, to, key);
    var rows := RowsAround(input, key);
    var o :| o in rows;
    AroundMeaning(o, input, from, to);
    hide ConflictsInEpoch, RelevantOf, OfEpoch, OrderedWithin, ValidObservation, SortedBy, Distinct, InEpoch, Around, Chosen, HasWinner,
      HasEpoch, EpochStart, EpochEnd;
    var relevant := RelevantOf(input.observations, input, from, to);
    assert o in relevant;
    hide IsSelectable, InEpochOrBoundary;
    var c := RevisionConflict(key, Ids(rows));
    assert Reported(c, Elements(relevant), Elements(ConflictsInEpoch(input.conflicts, input, from, to)));
    assert c in e.conflicts && o.observationId in c.observationIds;
  }

  lemma ReportedIsUndecided(input: EpochInput, from: int, to: int, e: Evidence, c: SelectionConflict)
    requires HasEpoch(input) && from == EpochStart(input) && to == EpochEnd(input)
    requires IsEvidence(input, from, to, e) && c in e.conflicts && !c.TransactionConflict?
    ensures Undecided(input, c.groupingKey)
  {
    GroupIsAround(input, from, to, c.groupingKey);
    hide ConflictsInEpoch, RelevantOf, OrderedWithin, SortedBy, Distinct, Chosen, HasWinner, HasEpoch, EpochStart, EpochEnd, GroupRows, RowsAround, Ids;
  }

  /** The selection reports a transaction, or a group, of the epoch. */
  ghost predicate Finds(e: Evidence, input: EpochInput, from: int, to: int, transactions: bool) {
    exists c :: c in e.conflicts && c.TransactionConflict? == transactions
                && SelectionConflictIsInEpoch(c, RelevantOf(input.observations, input, from, to), input, from, to)
  }

  lemma FoundMeaning(input: EpochInput, from: int, to: int, e: Evidence)
    requires HasEpoch(input) && from == EpochStart(input) && to == EpochEnd(input)
    requires IsEvidence(input, from, to, e)
    ensures SomeDisagree(input) ==> Finds(e, input, from, to, true)
    ensures Finds(e, input, from, to, true) ==> SomeDisagree(input) || StoredLogConflict(input, from, to)
    ensures Finds(e, input, from, to, false) <==> SomeUndecided(input)
  {
    hide IsEvidence, OfEpoch, HasEpoch, EpochStart, EpochEnd, SelectionConflictIsInEpoch, Disagree, Undecided, RelevantOf;
    if a, b :| Disagree(a, b, input) {
      DisagreeIsReported(input, from, to, e, a, b);
    }
    if key :| Undecided(input, key) {
      UndecidedIsReported(input, from, to, e, key);
    }
    if c :| c in e.conflicts && c.TransactionConflict? {
      ReportedDisagrees(input, from, to, e, c);
    }
    if c :| c in e.conflicts && !c.TransactionConflict? {
      ReportedIsUndecided(input, from, to, e, c);
    }
  }

  lemma SelectionRaisesFound(r: Reason, input: EpochInput, from: int, to: int, e: Evidence)
    requires HasEpoch(input) && from == EpochStart(input) && to == EpochEnd(input)
    ensures SelectionRaises(r, input, RelevantOf(input.observations, input, from, to), ConflictsInEpoch(input.conflicts, input, from, to), from, to, e)
            <==> (match r
                  case InvalidHistoryEvidence => Malformed(input, from, to)
                  case HistorySourceConflict => exists c :: c in input.conflicts && OfEpoch(c, input, from, to) && c.source != TransactionLog
                  case TransactionIdentityConflict => StoredLogConflict(input, from, to) || Finds(e, input, from, to, true)
                  case ClosedPnlRevisionConflict => Finds(e, input, from, to, false)
                  case _ => false)
  {
    EpochMembers(input, from, to);
    hide ConflictsInEpoch, RelevantOf, OfEpoch, Malformed, HasEpoch, EpochStart, EpochEnd, ValidInput, SelectionConflictIsInEpoch, IsSelectable;
  }

  /** The codes of the selection are those of the conflicts, stored or found. */
  lemma SelectionReasonsMeaning(r: Reason, input: EpochInput, from: int, to: int, e: Evidence)
    requires HasEpoch(input) && from == EpochStart(input) && to == EpochEnd(input)
    requires IsUsed(e, input, true, from, to)
    ensures SelectionRaises(r, input, RelevantOf(input.observations, input, from, to), ConflictsInEpoch(input.conflicts, input, from, to), from, to, e)
            <==> ConflictRaises(r, input, from, to)
  {
    EpochMembers(input, from, to);
    SelectionRaisesFound(r, input, from, to, e);
    hide ConflictsInEpoch, RelevantOf, IsSelection, OfEpoch, Malformed, HasEpoch, EpochStart, EpochEnd, ValidInput, SelectionConflictIsInEpoch, SomeDisagree,
      SomeUndecided, StoredLogConflict, IsSelectable, SelectionRaises;
    if !Malformed(input, from, to) {
      FoundMeaning(input, from, to, e);
      hide Finds;
    }
  }
}
