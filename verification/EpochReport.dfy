/** The validator of stored epoch projections (isEpochProjection, src/application/history-accounting-report.ts). */
module EpochReport {
  import opened Common
  import opened Decimals
  import opened DecimalText
  import opened Coverage
  import opened History
  import opened Bridge
  import opened Anchors
  import opened Epoch

  /** A decimal string as DecimalValue prints it. */
  predicate IsDecimal(s: string) {
    ParseDecimal(s).Ok? && ToDecimalString(ParseDecimal(s).value) == s
  }

  predicate IsNullableDecimal(s: Option<string>) {
    s.Some? ==> IsDecimal(s.value)
  }

  predicate IsCurrencyBridge(b: CurrencyBridge) {
    && b.currency != ""
    && IsNullableDecimal(b.openingBalance) && IsNullableDecimal(b.transactionChange) && IsNullableDecimal(b.transferChange)
    && IsNullableDecimal(b.expectedClosingBalance) && IsNullableDecimal(b.closingBalance) && IsNullableDecimal(b.unexplainedDrift)
  }

  predicate IsCoverageRow(row: SourceCoverage) {
    && (forall g :: g in row.gaps ==> 0 <= g.from <= g.to)
    && (row.covered <==> row.gaps == [])
  }

  predicate IsReadyBridge(b: CurrencyBridge) {
    && b.currency == USDT && b.openingBalance.Some? && b.transactionChange.Some? && b.transferChange.Some?
    && b.expectedClosingBalance.Some? && b.closingBalance.Some? && b.unexplainedDrift == Some("0")
  }

  predicate HeaderIsValid(p: Projection, scope: Scope) {
    && p.scope == scope && IsScope(scope) && p.openingAnchorId != "" && p.closingAnchorId != ""
    && p.openingBoundary.Some? && p.openingBoundary.value.ms.Some?
    && p.closingBoundary.Some? && p.closingBoundary.value.ms.Some?
    && p.openingBoundary.value.ms.value < p.closingBoundary.value.ms.value
  }

  ghost predicate DistinctSources(rows: seq<SourceCoverage>) {
    forall i, j :: 0 <= i < j < |rows| ==> rows[i].source != rows[j].source
  }

  /** A projection that the report may hold. */
  ghost predicate ValidProjection(p: Projection, scope: Scope) {
    && HeaderIsValid(p, scope)
    && |p.sourceCoverage| == |SOURCES|
    && DistinctSources(p.sourceCoverage)
    && (forall row :: row in p.sourceCoverage ==> IsCoverageRow(row))
    && (forall b :: b in p.currencies ==> IsCurrencyBridge(b))
    && (p.status == Reconciled <==> p.reasonCodes == {}) && (p.status == Reconciled <==> p.ready)
    && (p.ready ==>
          && (forall row :: row in p.sourceCoverage ==> row.covered)
          && p.currencies != [] && forall b :: b in p.currencies ==> IsReadyBridge(b))
  }

  function SourcesOf(rows: seq<SourceCoverage>): set<Source> {
    set row | row in rows :: row.source
  }

  lemma SourceStep(rows: seq<SourceCoverage>, row: SourceCoverage)
    ensures SourcesOf(rows + [row]) == SourcesOf(rows) + {row.source}
    ensures DistinctSources(rows + [row]) <==> DistinctSources(rows) && row.source !in SourcesOf(rows)
  {
    var all := rows + [row];
    assert forall r :: r in all <==> r in rows || r == row;
    assert forall k :: 0 <= k < |rows| ==> all[k] == rows[k] && rows[k] in rows;
    assert all[|rows|] == row;
  }

  lemma {:induction false} SourceCount(rows: seq<SourceCoverage>)
    requires DistinctSources(rows)
    ensures |SourcesOf(rows)| == |rows|
  {
    if rows != [] {
      var init, last := rows[..|rows| - 1], rows[|rows| - 1];
      assert rows == init + [last];
      SourceStep(init, last);
      SourceCount(init);
    }
  }

  lemma {:induction false} DistinctPrefix(rows: seq<SourceCoverage>, i: nat)
    requires i <= |rows| && !DistinctSources(rows[..i])
    ensures !DistinctSources(rows)
  {
  }

  method IsEpochProjection(p: Projection, scope: Scope) returns (ok: bool)
    ensures ok <==> ValidProjection(p, scope)
  {
    if !HeaderIsValid(p, scope) {
      return false;
    }
    hide HeaderIsValid, IsCoverageRow, IsCurrencyBridge, IsReadyBridge, SourcesOf, DistinctSources;
    var coverageSources: set<Source> := {};
    assert SourcesOf([]) == {} && DistinctSources([]) by { NoSources(); }
    for i := 0 to |p.sourceCoverage|
      invariant coverageSources == SourcesOf(p.sourceCoverage[..i]) && DistinctSources(p.sourceCoverage[..i])
      invariant forall k :: 0 <= k < i ==> IsCoverageRow(p.sourceCoverage[k])
    {
      var row := p.sourceCoverage[i];
      assert p.sourceCoverage[..i + 1] == p.sourceCoverage[..i] + [row];
      SourceStep(p.sourceCoverage[..i], row);
      if row.source in coverageSources || !IsCoverageRow(row) {
        BrokenRow(p, scope, i);
        return false;
      }
      coverageSources := coverageSources + {row.source};
    }
    assert p.sourceCoverage[..|p.sourceCoverage|] == p.sourceCoverage;
    SourceCount(p.sourceCoverage);
    ok := && |coverageSources| == |SOURCES|
          && (forall b :: b in p.currencies ==> IsCurrencyBridge(b))
          && (p.status == Reconciled <==> p.reasonCodes == {}) && (p.status == Reconciled <==> p.ready)
          && (p.ready ==>
                && (forall row :: row in p.sourceCoverage ==> row.covered)
                && p.currencies != [] && forall b :: b in p.currencies ==> IsReadyBridge(b));
  }

  lemma NoSources()
    ensures SourcesOf([]) == {} && DistinctSources([])
  {
  }

  lemma BrokenRow(p: Projection, scope: Scope, i: nat)
    requires i < |p.sourceCoverage|
    requires !DistinctSources(p.sourceCoverage[..i + 1]) || !IsCoverageRow(p.sourceCoverage[i])
    ensures !ValidProjection(p, scope)
  {
    hide HeaderIsValid, IsCoverageRow, IsCurrencyBridge, IsReadyBridge;
    if !DistinctSources(p.sourceCoverage[..i + 1]) {
      DistinctPrefix(p.sourceCoverage, i + 1);
    } else {
      assert p.sourceCoverage[i] in p.sourceCoverage;
    }
  }

  lemma PrintedIsDecimal(d: Normal)
    ensures IsDecimal(ToDecimalString(d))
  {
    RoundTrip(d);
  }

  lemma UsdtBridgeIsReady(opening: Option<Normal>, closing: Option<Normal>, rows: seq<Row>)
    requires opening.Some? && closing.Some? && AllKnown(rows) && AllClassified(rows)
    requires Value(closing.value) == Value(opening.value) + Moved(rows)
    ensures var b := BridgeRow(USDT, opening, closing, rows); IsCurrencyBridge(b) && IsReadyBridge(b)
  {
    BridgeMeaning(USDT, opening, closing, rows);
    hide Value, Moved, Total, Changes, ToDecimalString, ParseDecimal, Plus, Minus, TransfersOf, IsDecimal;
    var total := Total(Changes(rows));
    PrintedIsDecimal(opening.value);
    PrintedIsDecimal(closing.value);
    PrintedIsDecimal(total);
    PrintedIsDecimal(Total(Changes(TransfersOf(rows))));
    PrintedIsDecimal(Add(opening.value, total));
    PrintedIsDecimal(Subtract(closing.value, Add(opening.value, total)));
  }

  /** What `ProjectEpoch` calls RECONCILED, the validator of stored reports accepts. */
  lemma ReconciledIsValid(p: Projection, input: EpochInput, hash: Filters -> string)
    requires DistinctIds(input.observations) && IsProjectionOf(p, input, hash) && p.status == Reconciled
    ensures ValidProjection(p, input.scope)
  {
    var e := ReconciledFacts(p, input, hash);
    hide *;
    AnchoredHeader(p, input, EpochStart(input), EpochEnd(input));
    BalancedBridge(p, input, e);
    CoveredRows(p);
    AssembleProjection(p, input.scope);
  }

  lemma ReconciledFacts(p: Projection, input: EpochInput, hash: Filters -> string) returns (e: Selection.Evidence)
    requires DistinctIds(input.observations) && IsProjectionOf(p, input, hash) && p.status == Reconciled
    ensures ValidAnchors(input, EpochStart(input), EpochEnd(input))
    ensures Balanced(input, LedgerOf(e.observations, EpochStart(input), EpochEnd(input)))
    ensures forall o :: o in e.observations ==> ValidObservation(o) && EpochRows.Sound(o, input, EpochStart(input), EpochEnd(input))
    ensures p.scope == input.scope && p.openingAnchorId == input.opening.anchorId && p.closingAnchorId == input.closing.anchorId
    ensures p.openingBoundary == Boundary(input.opening.capture.providerResponseTime)
    ensures p.closingBoundary == Boundary(input.closing.capture.providerResponseTime)
    ensures p.reasonCodes == {} && p.ready
    ensures ReportsSelection(p, input, e) && |p.sourceCoverage| == |SOURCES|
    ensures forall k :: 0 <= k < |SOURCES| ==>
      p.sourceCoverage[k].source == SOURCES[k] && p.sourceCoverage[k].gaps == [] && p.sourceCoverage[k].covered
  {
    e :| Explains(e, input, hash) && ReportsSelection(p, input, e);
    Verdict(input, hash, EpochStart(input), EpochEnd(input), e);
    AnchorFacts(input);
    hide ValidAnchors, Balanced, LedgerOf, ValidObservation, EpochRows.Sound, Boundary, Reconciles, IsEvidence, DistinctIds, ExactGaps,
      CoverageStart, CoverageEnd, UsdtBridge, RowsFrom, EpochStart, EpochEnd, HasEpoch, ValidateAnchor;
  }

  lemma AnchoredHeader(p: Projection, input: EpochInput, from: int, to: int)
    requires ValidAnchors(input, from, to)
    requires p.scope == input.scope && p.openingAnchorId == input.opening.anchorId && p.closingAnchorId == input.closing.anchorId
    requires p.openingBoundary == Boundary(input.opening.capture.providerResponseTime)
    requires p.closingBoundary == Boundary(input.closing.capture.providerResponseTime)
    ensures HeaderIsValid(p, input.scope)
  {
    hide IsScope, BoundTo, IsAccountHash;
  }

  lemma BalancedBridge(p: Projection, input: EpochInput, e: Selection.Evidence)
    requires ReportsSelection(p, input, e) && Balanced(input, LedgerOf(e.observations, EpochStart(input), EpochEnd(input)))
    requires forall o :: o in e.observations ==> ValidObservation(o) && EpochRows.Sound(o, input, EpochStart(input), EpochEnd(input))
    ensures p.currencies != [] && forall b :: b in p.currencies ==> IsCurrencyBridge(b) && IsReadyBridge(b)
  {
    hide ValidObservation, EpochRows.Sound, Value, KnownBalance, OnlyOwnCoins, LedgerOf, RowsFrom, BridgeRow, Moved,
      IsCurrencyBridge, IsReadyBridge, EpochStart, EpochEnd;
    var from, to := EpochStart(input), EpochEnd(input);
    SelectedRowsSettled(e.observations, input, from, to);
    UsdtBridgeIsReady(KnownBalance(input.opening.assets[0]), KnownBalance(input.closing.assets[0]), RowsFrom(LedgerOf(e.observations, from, to)));
  }

  lemma CoveredRows(p: Projection)
    requires |p.sourceCoverage| == |SOURCES|
    requires forall k :: 0 <= k < |SOURCES| ==>
      p.sourceCoverage[k].source == SOURCES[k] && p.sourceCoverage[k].gaps == [] && p.sourceCoverage[k].covered
    ensures DistinctSources(p.sourceCoverage)
    ensures forall row :: row in p.sourceCoverage ==> IsCoverageRow(row) && row.covered
  {
  }

  lemma AssembleProjection(p: Projection, scope: Scope)
    requires HeaderIsValid(p, scope) && |p.sourceCoverage| == |SOURCES|
    requires DistinctSources(p.sourceCoverage)
    requires forall row :: row in p.sourceCoverage ==> IsCoverageRow(row) && row.covered
    requires p.currencies != [] && forall b :: b in p.currencies ==> IsCurrencyBridge(b) && IsReadyBridge(b)
    requires p.status == Reconciled && p.reasonCodes == {} && p.ready
    ensures ValidProjection(p, scope)
  {
  }
}
