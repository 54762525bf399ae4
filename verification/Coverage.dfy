/**
 * Which part of a time range history was queried for: the gap sweep of the accounting epoch
 * (src/application/history-accounting-epoch.ts), the interval merge of the scoped report
 * (history-accounting-report-v2.ts) and the chronology sweep of history-coverage.ts.
 */
module Coverage {
  import opened Common
  import opened Orders

  datatype Source = OrderHistory | Executions | ClosedPnl | TransactionLog

  const SOURCES: seq<Source> := [OrderHistory, Executions, ClosedPnl, TransactionLog]

  datatype Scope = Scope(exchange: string, environment: string, accountId: string)

  datatype FilterValue = FText(s: string) | FInteger(n: int) | FOther

  type Filters = map<string, FilterValue>

  datatype Status = Paging | Partial | Traversed | Unavailable

  /** `None` stands for a number that is not a safe integer, and for filters that are no plain record. */
  datatype Checkpoint = Checkpoint(
    source: Source,
    scope: Scope,
    fromMs: Option<int>,
    toMs: Option<int>,
    filters: Option<Filters>,
    filterHash: string,
    status: Status,
    cursor: Option<string>,
    reasonCode: Option<string>,
    conflictCount: Option<int>)

  datatype Interval = Interval(from: int, to: int)

  datatype CoverageReason = FilterIncompatible | ScopeMismatch | CoverageGap

  const MAX_WINDOW_MS := 7 * 24 * 60 * 60 * 1000

  // ------------------------------------------------------------- intervals

  predicate Holds(v: Interval, t: int) {
    v.from <= t <= v.to
  }

  ghost predicate InSome(s: seq<Interval>, t: int) {
    exists i :: 0 <= i < |s| && Holds(s[i], t)
  }

  predicate IntervalLe(a: Interval, b: Interval) {
    a.from < b.from || (a.from == b.from && a.to <= b.to)
  }

  lemma IntervalsAreOrdered()
    ensures TotalPreorder(IntervalLe)
  {
  }

  /** In order, none empty, and a point missing between any two. */
  ghost predicate Separated(s: seq<Interval>) {
    && (forall i :: 0 <= i < |s| ==> s[i].from <= s[i].to)
    && (forall i, j :: 0 <= i < j < |s| ==> s[i].to + 1 < s[j].from)
  }

  function Max(a: int, b: int): int { if a > b then a else b }

  function Min(a: int, b: int): int { if a < b then a else b }

  function SortIntervals(s: seq<Interval>): (r: seq<Interval>)
    ensures SortedBy(r, IntervalLe) && forall v :: v in r <==> v in s
  {
    IntervalsAreOrdered();
    SortByIsSorted(s, IntervalLe);
    SortBy(s, IntervalLe)
  }

  // ------------------------------------------------------------- admission

  datatype Admission = Skipped | Refused(reason: CoverageReason) | Admitted(window: Interval)

  predicate HasText(filters: Filters, key: string, allowed: set<string>) {
    key in filters && filters[key].FText? && filters[key].s in allowed
  }

  predicate CompatibleFilters(checkpoint: Checkpoint, hash: Filters -> string) {
    checkpoint.filters.Some? &&
    var filters := checkpoint.filters.value;
    var required := if checkpoint.source == TransactionLog then "accountType" else "category";
    var expected := if checkpoint.source == TransactionLog then "UNIFIED" else "linear";
    && HasText(filters, required, {expected})
    && HasText(filters, "purpose", {"backfill", "recent-refresh", "explicit-replay"})
    && "rangeStartMs" in filters && "rangeEndMs" in filters
    && (forall key :: key in filters ==> key in {required, "purpose", "rangeStartMs", "rangeEndMs", "replayId"})
    && checkpoint.fromMs.Some? && filters["rangeStartMs"] == FInteger(checkpoint.fromMs.value)
    && checkpoint.toMs.Some? && filters["rangeEndMs"] == FInteger(checkpoint.toMs.value)
    && hash(filters) == checkpoint.filterHash
  }

  predicate IsTerminal(checkpoint: Checkpoint) {
    checkpoint.status == Traversed && checkpoint.cursor == None && checkpoint.reasonCode == None
  }

  predicate CountedConflicts(checkpoint: Checkpoint) {
    checkpoint.conflictCount.Some? && checkpoint.conflictCount.value >= 0
  }

  /** What the epoch sweep makes of one checkpoint of its source. */
  function Admit(checkpoint: Checkpoint, source: Source, scope: Scope, from: int, to: int, hash: Filters -> string): Admission {
    if checkpoint.source != source then Skipped
    else if checkpoint.fromMs == None || checkpoint.toMs == None then Refused(FilterIncompatible)
    else
      var start, end := checkpoint.fromMs.value, checkpoint.toMs.value;
      if start < 0 || end <= start then Refused(FilterIncompatible)
      else if end < from || start > to then Skipped
      else if end - start > MAX_WINDOW_MS then Refused(FilterIncompatible)
      else if checkpoint.scope != scope then Refused(ScopeMismatch)
      else if !CompatibleFilters(checkpoint, hash) then Refused(FilterIncompatible)
      else if !IsTerminal(checkpoint) then Skipped
      else if !CountedConflicts(checkpoint) then Refused(FilterIncompatible)
      else Admitted(Interval(start, end))
  }

  /** Some admitted window holds `t`. */
  ghost predicate Queried(checkpoints: seq<Checkpoint>, source: Source, scope: Scope, from: int, to: int,
                          hash: Filters -> string, t: int) {
    exists i :: 0 <= i < |checkpoints|
      && Admit(checkpoints[i], source, scope, from, to, hash).Admitted?
      && Holds(Admit(checkpoints[i], source, scope, from, to, hash).window, t)
  }

  /** `gaps` are exactly the points of [from, to] that satisfy nothing of `covered`, as maximal intervals. */
  ghost predicate ExactGaps(gaps: seq<Interval>, from: int, to: int, covered: int -> bool) {
    && Separated(gaps)
    && forall t :: InSome(gaps, t) <==> from <= t <= to && !covered(t)
  }

  // ------------------------------------------------------------- the sweep

  /** The gap sweep over sorted intervals. */
  method SweepGaps(intervals: seq<Interval>, from: int, to: int) returns (gaps: seq<Interval>)
    requires SortedBy(intervals, IntervalLe)
    requires forall i :: 0 <= i < |intervals| ==> from <= intervals[i].from <= intervals[i].to <= to
    ensures ExactGaps(gaps, from, to, t => InSome(intervals, t))
  {
    gaps := [];
    var coveredThrough := from - 1;
    ghost var seen: seq<Interval> := [];
    var i := 0;
    while i < |intervals|
      invariant 0 <= i <= |intervals| && seen == intervals[..i]
      invariant if i == 0 then coveredThrough == from - 1 && gaps == [] else from <= coveredThrough <= to
      invariant Separated(gaps)
      invariant forall k :: 0 <= k < |gaps| ==> from <= gaps[k].from && gaps[k].to < intervals[i - 1].from <= coveredThrough
      invariant SweptSoFar(seen, gaps, from, coveredThrough)
    {
      var interval := intervals[i];
      ghost var before := gaps;
      if interval.from > coveredThrough + 1 {
        gaps := gaps + [Interval(coveredThrough + 1, interval.from - 1)];
      }
      SweepStep(seen, interval, before, gaps, from, coveredThrough);
      coveredThrough := Max(coveredThrough, interval.to);
      seen := seen + [interval];
      i := i + 1;
    }
    ghost var before := gaps;
    if coveredThrough < to {
      gaps := gaps + [Interval(coveredThrough + 1, to)];
    }
    assert seen == intervals;
    forall t
      ensures InSome(gaps, t) <==> from <= t <= to && !InSome(intervals, t)
    {
      LastGap(before, gaps, coveredThrough + 1, to, t);
    }
  }

  /** Up to `coveredThrough`, the gaps are what the intervals seen so far leave out; neither reaches further. */
  ghost predicate SweptSoFar(seen: seq<Interval>, gaps: seq<Interval>, from: int, coveredThrough: int) {
    && (forall t :: InSome(gaps, t) ==> from <= t <= coveredThrough && !InSome(seen, t))
    && (forall t :: InSome(seen, t) ==> from <= t <= coveredThrough)
    && (forall t :: from <= t <= coveredThrough ==> InSome(gaps, t) || InSome(seen, t))
  }

  lemma InSomeAppend(s: seq<Interval>, v: Interval, t: int)
    ensures InSome(s + [v], t) <==> InSome(s, t) || Holds(v, t)
  {
    var r := s + [v];
    if InSome(s, t) {
      var i :| 0 <= i < |s| && Holds(s[i], t);
      assert Holds(r[i], t);
    }
    if Holds(v, t) {
      assert Holds(r[|s|], t);
    }
  }

  lemma LastGap(before: seq<Interval>, gaps: seq<Interval>, first: int, to: int, t: int)
    requires gaps == (if first <= to then before + [Interval(first, to)] else before)
    ensures InSome(gaps, t) <==> InSome(before, t) || first <= t <= to
  {
    if first <= to {
      InSomeAppend(before, Interval(first, to), t);
    }
  }

  lemma SweepStep(seen: seq<Interval>, interval: Interval, before: seq<Interval>, gaps: seq<Interval>, from: int, coveredThrough: int)
    requires SweptSoFar(seen, before, from, coveredThrough)
    requires from - 1 <= coveredThrough && from <= interval.from <= interval.to
    requires forall k :: 0 <= k < |before| ==> before[k].to < interval.from
    requires gaps == (if coveredThrough + 1 <= interval.from - 1
                      then before + [Interval(coveredThrough + 1, interval.from - 1)] else before)
    ensures SweptSoFar(seen + [interval], gaps, from, Max(coveredThrough, interval.to))
  {
    forall t
      ensures InSome(seen + [interval], t) <==> InSome(seen, t) || Holds(interval, t)
      ensures InSome(gaps, t) <==> InSome(before, t) || coveredThrough + 1 <= t <= interval.from - 1
      ensures InSome(before, t) ==> t < interval.from
    {
      InSomeAppend(seen, interval, t);
      LastGap(before, gaps, coveredThrough + 1, interval.from - 1, t);
    }
  }

  // -------------------------------------------------------- epoch coverage

  datatype SourceCoverage = SourceCoverage(source: Source, covered: bool, gaps: seq<Interval>)

  ghost predicate RefusedWith(checkpoints: seq<Checkpoint>, source: Source, scope: Scope, from: int, to: int,
                              hash: Filters -> string, reason: CoverageReason) {
    exists i :: 0 <= i < |checkpoints| && Admit(checkpoints[i], source, scope, from, to, hash) == Refused(reason)
  }

  function Clip(v: Interval, from: int, to: int): Interval {
    Interval(Max(from, v.from), Min(to, v.to))
  }

  /**
   * The coverage of one source: its gaps are exactly the points of [from, to] that no admitted
   * checkpoint window holds, in order, disjoint and maximal.
   */
  method ProjectSourceCoverage(source: Source, checkpoints: seq<Checkpoint>, scope: Scope, from: int, to: int,
                               hash: Filters -> string)
    returns (coverage: SourceCoverage, reasons: set<CoverageReason>)
    ensures coverage.source == source && (coverage.covered <==> coverage.gaps == [])
    ensures ExactGaps(coverage.gaps, from, to, t => Queried(checkpoints, source, scope, from, to, hash, t))
    ensures CoverageGap in reasons <==> coverage.gaps != []
    ensures forall r :: r in {FilterIncompatible, ScopeMismatch} ==>
              (r in reasons <==> RefusedWith(checkpoints, source, scope, from, to, hash, r))
  {
    reasons := {};
    var intervals: seq<Interval> := [];
    for i := 0 to |checkpoints|
      invariant forall k :: 0 <= k < |intervals| ==> from <= intervals[k].from <= intervals[k].to <= to
      invariant forall t :: from <= t <= to ==>
        (InSome(intervals, t) <==> Queried(checkpoints[..i], source, scope, from, to, hash, t))
      invariant CoverageGap !in reasons
      invariant forall r :: r in {FilterIncompatible, ScopeMismatch} ==>
        (r in reasons <==> RefusedWith(checkpoints[..i], source, scope, from, to, hash, r))
    {
      var admission := Admit(checkpoints[i], source, scope, from, to, hash);
      assert checkpoints[..i + 1] == checkpoints[..i] + [checkpoints[i]];
      ghost var before := intervals;
      match admission {
        case Skipped =>
        case Refused(reason) => reasons := reasons + {reason};
        case Admitted(window) =>
          var clipped := Clip(window, from, to);
          if clipped.from <= clipped.to {
            intervals := intervals + [clipped];
          }
      }
      AdmitStep(checkpoints[..i], checkpoints[i], source, scope, from, to, hash, before, intervals);
    }
    assert checkpoints[..|checkpoints|] == checkpoints;
    var sorted := SortIntervals(intervals);
    SameIntervals(intervals, sorted);
    var gaps := SweepGaps(sorted, from, to);
    if |gaps| > 0 {
      reasons := reasons + {CoverageGap};
    }
    coverage := SourceCoverage(source, |gaps| == 0, gaps);
  }

  lemma SameIntervals(a: seq<Interval>, b: seq<Interval>)
    requires forall v :: v in a <==> v in b
    ensures forall t :: InSome(a, t) <==> InSome(b, t)
    ensures forall i :: 0 <= i < |b| ==> b[i] in a
  {
    forall t
      ensures InSome(a, t) <==> InSome(b, t)
    {
      if InSome(a, t) {
        var i :| 0 <= i < |a| && Holds(a[i], t);
        assert a[i] in b;
      }
      if InSome(b, t) {
        var i :| 0 <= i < |b| && Holds(b[i], t);
        assert b[i] in a;
      }
    }
  }

  lemma AdmitStep(done: seq<Checkpoint>, next: Checkpoint, source: Source, scope: Scope, from: int, to: int,
                  hash: Filters -> string, before: seq<Interval>, after: seq<Interval>)
    requires var admission := Admit(next, source, scope, from, to, hash);
             after == if admission.Admitted? && Clip(admission.window, from, to).from <= Clip(admission.window, from, to).to
                      then before + [Clip(admission.window, from, to)] else before
    ensures forall r :: RefusedWith(done + [next], source, scope, from, to, hash, r) <==>
              RefusedWith(done, source, scope, from, to, hash, r) || Admit(next, source, scope, from, to, hash) == Refused(r)
    ensures forall t :: from <= t <= to && (InSome(before, t) <==> Queried(done, source, scope, from, to, hash, t)) ==>
              (InSome(after, t) <==> Queried(done + [next], source, scope, from, to, hash, t))
  {
    hide Admit;
    var all := done + [next];
    var admission := Admit(next, source, scope, from, to, hash);
    forall r
      ensures RefusedWith(all, source, scope, from, to, hash, r) <==>
        RefusedWith(done, source, scope, from, to, hash, r) || admission == Refused(r)
    {
      assert all[|done|] == next;
      assert forall i :: 0 <= i < |done| ==> all[i] == done[i];
    }
    forall t | from <= t <= to && (InSome(before, t) <==> Queried(done, source, scope, from, to, hash, t))
      ensures InSome(after, t) <==> Queried(all, source, scope, from, to, hash, t)
    {
      QueriedAppend(done, next, source, scope, from, to, hash, t);
      if admission.Admitted? {
        InSomeAppend(before, Clip(admission.window, from, to), t);
      }
    }
  }

  lemma QueriedAppend(done: seq<Checkpoint>, next: Checkpoint, source: Source, scope: Scope, from: int, to: int,
                      hash: Filters -> string, t: int)
    ensures Queried(done + [next], source, scope, from, to, hash, t) <==>
              || Queried(done, source, scope, from, to, hash, t)
              || var admission := Admit(next, source, scope, from, to, hash); admission.Admitted? && Holds(admission.window, t)
  {
    hide Admit;
    var all := done + [next];
    assert all[|done|] == next;
    assert forall i :: 0 <= i < |done| ==> all[i] == done[i];
  }

  // ------------------------------------------------------- interval merging

  /** Merging keeps the union and leaves intervals with a missing point between any two. */
  method MergeCoverageIntervals(intervals: seq<Interval>) returns (merged: seq<Interval>)
    requires forall i :: 0 <= i < |intervals| ==> intervals[i].from <= intervals[i].to
    ensures Separated(merged)
    ensures forall t :: InSome(merged, t) <==> InSome(intervals, t)
  {
    merged := [];
    var sorted := SortIntervals(intervals);
    SameIntervals(intervals, sorted);
    ghost var seen: seq<Interval> := [];
    var i := 0;
    while i < |sorted|
      invariant 0 <= i <= |sorted| && seen == sorted[..i]
      invariant Separated(merged) && (i > 0 <==> merged != [])
      invariant i > 0 ==> merged[|merged| - 1].from <= sorted[i - 1].from
      invariant forall t :: InSome(merged, t) <==> InSome(seen, t)
    {
      var interval := sorted[i];
      ghost var before := merged;
      if |merged| == 0 || interval.from > merged[|merged| - 1].to + 1 {
        merged := merged + [interval];
        forall t
          ensures InSome(merged, t) <==> InSome(before, t) || Holds(interval, t)
        {
          InSomeAppend(before, interval, t);
        }
      } else {
        var last := merged[|merged| - 1];
        merged := merged[|merged| - 1 := Interval(last.from, Max(last.to, interval.to))];
        forall t
          ensures InSome(merged, t) <==> InSome(before, t) || Holds(interval, t)
        {
          Widen(before, interval, merged, t);
        }
      }
      forall t
        ensures InSome(seen + [interval], t) <==> InSome(seen, t) || Holds(interval, t)
      {
        InSomeAppend(seen, interval, t);
      }
      seen := seen + [interval];
      i := i + 1;
    }
    assert seen == sorted;
  }

  lemma Widen(before: seq<Interval>, interval: Interval, after: seq<Interval>, t: int)
    requires before != []
    requires var last := before[|before| - 1];
             last.from <= interval.from <= last.to + 1 && last.from <= last.to && interval.from <= interval.to
             && after == before[|before| - 1 := Interval(last.from, Max(last.to, interval.to))]
    ensures InSome(after, t) <==> InSome(before, t) || Holds(interval, t)
  {
    var init, last := before[..|before| - 1], before[|before| - 1];
    assert before == init + [last];
    assert after == init + [Interval(last.from, Max(last.to, interval.to))];
    InSomeAppend(init, last, t);
    InSomeAppend(init, Interval(last.from, Max(last.to, interval.to)), t);
  }

  /** Separated intervals inside [from, to] hold all of it exactly when they are that one interval. */
  lemma WholeRange(s: seq<Interval>, from: int, to: int)
    requires Separated(s) && from <= to
    requires forall t :: InSome(s, t) ==> from <= t <= to
    ensures s == [Interval(from, to)] <==> forall t :: from <= t <= to ==> InSome(s, t)
  {
    hide Separated, InSome;
    if forall t :: from <= t <= to ==> InSome(s, t) {
      var i := Holder(s, from);
      EndsAreHeld(s, i);
      PointAfter(s, i);
      assert s[i] == Interval(from, to);
      forall k | 0 <= k < |s|
        ensures from <= s[k].from && s[k].to <= to
      {
        EndsAreHeld(s, k);
      }
      OnlyOne(s, i);
    } else if s == [Interval(from, to)] {
      forall t | from <= t <= to
        ensures InSome(s, t)
      {
        HeldBy(s, 0, t);
      }
    }
  }

  lemma Holder(s: seq<Interval>, t: int) returns (i: nat)
    requires InSome(s, t)
    ensures i < |s| && Holds(s[i], t)
  {
    i :| i < |s| && Holds(s[i], t);
  }

  lemma HeldBy(s: seq<Interval>, i: nat, t: int)
    requires i < |s| && Holds(s[i], t)
    ensures InSome(s, t)
  {
  }

  lemma EndsAreHeld(s: seq<Interval>, k: nat)
    requires Separated(s) && k < |s|
    ensures s[k].from <= s[k].to && InSome(s, s[k].from) && InSome(s, s[k].to)
  {
    HeldBy(s, k, s[k].from);
    HeldBy(s, k, s[k].to);
  }

  /** The point after a separated interval is missing. */
  lemma PointAfter(s: seq<Interval>, i: nat)
    requires Separated(s) && i < |s|
    ensures !InSome(s, s[i].to + 1)
  {
  }

  lemma OnlyOne(s: seq<Interval>, i: nat)
    requires Separated(s) && i < |s|
    requires forall k :: 0 <= k < |s| ==> s[i].from <= s[k].from && s[k].to <= s[i].to
    ensures s == [s[i]]
  {
    assert s[0] == s[i] && s[|s| - 1] == s[i];
  }

  // -------------------------------------------------------- scoped witness

  predicate IsScope(scope: Scope) {
    && scope.exchange == "bybit"
    && scope.environment in {"demo", "testnet", "mainnet"}
    && IsAccountHash(scope.accountId)
  }

  predicate IsAccountHash(id: string) {
    && |id| == 71 && id[..7] == "sha256:"
    && forall i :: 7 <= i < |id| ==> '0' <= id[i] <= '9' || 'a' <= id[i] <= 'f'
  }

  predicate ValidScopedFilter(checkpoint: Checkpoint, source: Source, scope: Scope, hash: Filters -> string) {
    && checkpoint.source == source
    && IsScope(checkpoint.scope) && IsScope(scope) && checkpoint.scope == scope
    && checkpoint.fromMs.Some? && checkpoint.toMs.Some?
    && checkpoint.fromMs.value >= 0 && checkpoint.toMs.value > checkpoint.fromMs.value
    && checkpoint.toMs.value - checkpoint.fromMs.value <= MAX_WINDOW_MS
    && CompatibleFilters(checkpoint, hash)
  }

  predicate Overlaps(v: Interval, from: int, to: int) {
    v.from <= to && v.to >= from
  }

  /** A candidate of the scoped witness that adds an interval. */
  predicate Witnesses(checkpoint: Checkpoint, source: Source, scope: Scope, from: int, to: int, hash: Filters -> string) {
    && ValidScopedFilter(checkpoint, source, scope, hash)
    && Overlaps(Interval(checkpoint.fromMs.value, checkpoint.toMs.value), from, to)
    && IsTerminal(checkpoint) && CountedConflicts(checkpoint)
  }

  /** Both reports admit the same checkpoints when the account scope is well formed. */
  lemma SameAdmission(checkpoint: Checkpoint, source: Source, scope: Scope, from: int, to: int, hash: Filters -> string)
    requires IsScope(scope)
    ensures var admission := Admit(checkpoint, source, scope, from, to, hash);
            && (Witnesses(checkpoint, source, scope, from, to, hash) <==> admission.Admitted?)
            && (admission.Admitted? ==> admission.window == Interval(checkpoint.fromMs.value, checkpoint.toMs.value)
                                        && admission.window.from <= admission.window.to && Overlaps(admission.window, from, to))
  {
    hide CompatibleFilters, IsScope;
  }

  /**
   * The scoped report's witness for one source.  It calls the coverage terminally complete
   * exactly when every point of [from, to] lies in an admitted window, that is, exactly when
   * the epoch sweep over the same checkpoints reports `covered`.
   */
  method MakeCoverageWitness(source: Source, coverage: seq<Checkpoint>, scope: Scope, from: int, to: int, hash: Filters -> string)
    returns (merged: seq<Interval>, terminalComplete: bool)
    requires from <= to && IsScope(scope)
    ensures Separated(merged)
    ensures forall t :: InSome(merged, t) <==> from <= t <= to && Queried(coverage, source, scope, from, to, hash, t)
    ensures terminalComplete <==> forall t :: from <= t <= to ==> Queried(coverage, source, scope, from, to, hash, t)
  {
    var covered: seq<Interval> := [];
    for i := 0 to |coverage|
      invariant forall k :: 0 <= k < |covered| ==> from <= covered[k].from <= covered[k].to <= to
      invariant forall t :: from <= t <= to ==>
        (InSome(covered, t) <==> Queried(coverage[..i], source, scope, from, to, hash, t))
    {
      var checkpoint := coverage[i];
      assert coverage[..i + 1] == coverage[..i] + [checkpoint];
      SameAdmission(checkpoint, source, scope, from, to, hash);
      ghost var before := covered;
      if Witnesses(checkpoint, source, scope, from, to, hash) {
        covered := covered + [Clip(Interval(checkpoint.fromMs.value, checkpoint.toMs.value), from, to)];
      }
      AdmitStep(coverage[..i], checkpoint, source, scope, from, to, hash, before, covered);
    }
    assert coverage[..|coverage|] == coverage;
    merged := MergeCoverageIntervals(covered);
    InsideRange(covered, from, to);
    terminalComplete := merged == [Interval(from, to)];
    WholeRange(merged, from, to);
  }

  lemma InsideRange(s: seq<Interval>, from: int, to: int)
    requires forall k :: 0 <= k < |s| ==> from <= s[k].from <= s[k].to <= to
    ensures forall t :: InSome(s, t) ==> from <= t <= to
  {
  }

  /** The epoch sweep is covered exactly when the witness is terminally complete, both stated of the same checkpoints. */
  lemma SweepAndWitnessAgree(gaps: seq<Interval>, merged: seq<Interval>, from: int, to: int, covered: int -> bool)
    requires from <= to && ExactGaps(gaps, from, to, covered)
    requires Separated(merged) && forall t :: InSome(merged, t) <==> from <= t <= to && covered(t)
    ensures gaps == [] <==> merged == [Interval(from, to)]
    ensures forall t :: from <= t <= to ==> (InSome(gaps, t) <==> !InSome(merged, t))
  {
    WholeRange(merged, from, to);
    if gaps != [] {
      assert Holds(gaps[0], gaps[0].from) && InSome(gaps, gaps[0].from);
    }
  }

  // ------------------------------------------------------ unqueried windows

  /** A queried window and the hash of the filters it was queried with. */
  datatype QueryWindow = QueryWindow(window: Interval, filterHash: string)

  datatype UnqueriedWindow = UnqueriedWindow(window: Interval, filterHashes: set<string>)

  predicate ChronologicalLe(a: QueryWindow, b: QueryWindow) {
    || a.window.from < b.window.from
    || (a.window.from == b.window.from && a.window.to < b.window.to)
    || (a.window == b.window && StrLe(a.filterHash, b.filterHash))
  }

  lemma ChronologyIsOrdered()
    ensures TotalPreorder(ChronologicalLe)
  {
    StrLeIsTotalOrder();
    hide StrLe;
  }

  function Windows(s: seq<QueryWindow>): seq<Interval> {
    seq(|s|, i requires 0 <= i < |s| => s[i].window)
  }

  function GapWindows(s: seq<UnqueriedWindow>): seq<Interval> {
    seq(|s|, i requires 0 <= i < |s| => s[i].window)
  }

  /** Between the first start and the last end. */
  ghost predicate InHull(s: seq<QueryWindow>, t: int) {
    && (exists i :: 0 <= i < |s| && s[i].window.from <= t)
    && (exists j :: 0 <= j < |s| && t <= s[j].window.to)
  }

  /** The hashes of the windows that end at `t`. */
  function EndingAt(s: seq<QueryWindow>, t: int): set<string> {
    set i | 0 <= i < |s| && s[i].window.to == t :: s[i].filterHash
  }

  /** The first window, in chronological order, that starts at `t`. */
  ghost predicate FirstStartingAt(s: seq<QueryWindow>, t: int, c: QueryWindow) {
    && c in s && c.window.from == t
    && forall d :: d in s && d.window.from == t ==> ChronologicalLe(c, d)
  }

  /** A gap carries the hashes of the windows that end just before it and of the one that ends it. */
  ghost predicate CarriesHashes(s: seq<QueryWindow>, gap: UnqueriedWindow) {
    exists c :: FirstStartingAt(s, gap.window.to + 1, c) && gap.filterHashes == EndingAt(s, gap.window.from - 1) + {c.filterHash}
  }

  /**
   * The unqueried windows of one source: exactly the hull of the queried windows minus their
   * union, maximal and in order, each with the filter hashes on its two sides.
   */
  method UnqueriedWindows(checkpoints: seq<QueryWindow>) returns (gaps: seq<UnqueriedWindow>)
    requires forall c :: c in checkpoints ==> c.window.from <= c.window.to
    ensures Separated(GapWindows(gaps))
    ensures forall t :: InSome(GapWindows(gaps), t) <==> InHull(checkpoints, t) && !InSome(Windows(checkpoints), t)
    ensures forall i :: 0 <= i < |gaps| ==> CarriesHashes(checkpoints, gaps[i])
  {
    hide *;
    var chronological := SortChronologically(checkpoints);
    gaps := [];
    if |chronological| == 0 {
      NothingQueried(checkpoints);
      return;
    }
    var coveredThrough := chronological[0].window.to;
    var endFilterHashes := {chronological[0].filterHash};
    StartOfChronology(chronological);
    var i := 1;
    while i < |chronological|
      invariant 1 <= i <= |chronological|
      invariant ChronologyState(chronological, i, gaps, coveredThrough, endFilterHashes)
    {
      var checkpoint := chronological[i];
      ghost var gaps0, through0, hashes0 := gaps, coveredThrough, endFilterHashes;
      if checkpoint.window.from > coveredThrough + 1 {
        gaps := gaps + [UnqueriedWindow(Interval(coveredThrough + 1, checkpoint.window.from - 1),
                                        endFilterHashes + {checkpoint.filterHash})];
        coveredThrough := checkpoint.window.to;
        endFilterHashes := {checkpoint.filterHash};
        NextAfterGap(chronological, i, gaps0, through0, hashes0);
      } else {
        if checkpoint.window.to > coveredThrough {
          coveredThrough := checkpoint.window.to;
          endFilterHashes := {checkpoint.filterHash};
        } else if checkpoint.window.to == coveredThrough {
          endFilterHashes := endFilterHashes + {checkpoint.filterHash};
        }
        NextWithoutGap(chronological, i, gaps, through0, hashes0);
      }
      i := i + 1;
    }
    EndOfChronology(checkpoints, chronological, gaps, coveredThrough, endFilterHashes);
  }

  function SortChronologically(s: seq<QueryWindow>): (r: seq<QueryWindow>)
    ensures SortedBy(r, ChronologicalLe) && |r| == |s| && forall c :: c in r <==> c in s
  {
    ChronologyIsOrdered();
    SortByIsSorted(s, ChronologicalLe);
    SortBy(s, ChronologicalLe)
  }

  lemma NothingQueried(checkpoints: seq<QueryWindow>)
    requires checkpoints == []
    ensures Separated(GapWindows([]))
    ensures forall t :: InSome(GapWindows([]), t) <==> InHull(checkpoints, t) && !InSome(Windows(checkpoints), t)
  {
  }

  /** What the chronology sweep knows after the first `i` windows. */
  ghost predicate ChronologyState(s: seq<QueryWindow>, i: nat, gaps: seq<UnqueriedWindow>, coveredThrough: int, endHashes: set<string>)
    requires 1 <= i <= |s|
  {
    && (forall k :: 0 <= k < |s| ==> s[k].window.from <= s[k].window.to)
    && SortedBy(s, ChronologicalLe)
    && s[i - 1].window.from <= coveredThrough
    && endHashes == EndingAt(s[..i], coveredThrough)
    && (exists k :: 0 <= k < i && s[k].window.to == coveredThrough)
    && (forall k :: 0 <= k < i ==> s[k].window.to <= coveredThrough)
    && Separated(GapWindows(gaps))
    && (forall k :: 0 <= k < |gaps| ==> s[0].window.from <= gaps[k].window.from && gaps[k].window.to < s[i - 1].window.from)
    && SweptSoFar(Windows(s[..i]), GapWindows(gaps), s[0].window.from, coveredThrough)
    && (forall k :: 0 <= k < |gaps| ==> CarriesHashes(s, gaps[k]))
  }

  lemma StartOfChronology(s: seq<QueryWindow>)
    requires s != [] && SortedBy(s, ChronologicalLe) && forall k :: 0 <= k < |s| ==> s[k].window.from <= s[k].window.to
    ensures ChronologyState(s, 1, [], s[0].window.to, {s[0].filterHash})
  {
    var seen := Windows(s[..1]);
    assert seen[0] == s[0].window && s[..1][0] == s[0];
    forall t
      ensures InSome(seen, t) <==> Holds(s[0].window, t)
    {
      if Holds(s[0].window, t) {
        HeldBy(seen, 0, t);
      }
    }
  }

  lemma NextWindows(s: seq<QueryWindow>, i: nat)
    requires i < |s|
    ensures Windows(s[..i + 1]) == Windows(s[..i]) + [s[i].window]
  {
  }

  lemma NextIsLater(s: seq<QueryWindow>, i: nat)
    requires 1 <= i < |s| && SortedBy(s, ChronologicalLe)
    ensures s[i - 1].window.from <= s[i].window.from && s[0].window.from <= s[i].window.from
  {
    assert ChronologicalLe(s[i - 1], s[i]) && ChronologicalLe(s[0], s[i]);
  }

  lemma NextAfterGap(s: seq<QueryWindow>, i: nat, gaps: seq<UnqueriedWindow>, coveredThrough: int, endHashes: set<string>)
    requires 1 <= i < |s| && ChronologyState(s, i, gaps, coveredThrough, endHashes)
    requires s[i].window.from > coveredThrough + 1
    ensures ChronologyState(s, i + 1,
              gaps + [UnqueriedWindow(Interval(coveredThrough + 1, s[i].window.from - 1), endHashes + {s[i].filterHash})],
              s[i].window.to, {s[i].filterHash})
  {
    hide InSome, EndingAt, CarriesHashes, SortedBy;
    var gap := UnqueriedWindow(Interval(coveredThrough + 1, s[i].window.from - 1), endHashes + {s[i].filterHash});
    ChronologyIsOrdered();
    NextIsLater(s, i);
    EndingStep(s, i, coveredThrough);
    GapHashes(s, i, coveredThrough, gap);
    NextWindows(s, i);
    assert GapWindows(gaps + [gap]) == GapWindows(gaps) + [gap.window];
    SweepStep(Windows(s[..i]), s[i].window, GapWindows(gaps), GapWindows(gaps + [gap]), s[0].window.from, coveredThrough);
  }

  lemma NextWithoutGap(s: seq<QueryWindow>, i: nat, gaps: seq<UnqueriedWindow>, coveredThrough: int, endHashes: set<string>)
    requires 1 <= i < |s| && ChronologyState(s, i, gaps, coveredThrough, endHashes)
    requires s[i].window.from <= coveredThrough + 1
    ensures ChronologyState(s, i + 1, gaps, if s[i].window.to > coveredThrough then s[i].window.to else coveredThrough,
              if s[i].window.to > coveredThrough then {s[i].filterHash}
              else if s[i].window.to == coveredThrough then endHashes + {s[i].filterHash} else endHashes)
  {
    hide InSome, EndingAt, CarriesHashes, SortedBy;
    NextIsLater(s, i);
    EndingStep(s, i, coveredThrough);
    NextWindows(s, i);
    SweepStep(Windows(s[..i]), s[i].window, GapWindows(gaps), GapWindows(gaps), s[0].window.from, coveredThrough);
  }

  lemma EndOfChronology(checkpoints: seq<QueryWindow>, s: seq<QueryWindow>, gaps: seq<UnqueriedWindow>, coveredThrough: int, endHashes: set<string>)
    requires s != [] && ChronologyState(s, |s|, gaps, coveredThrough, endHashes)
    requires forall c :: c in s <==> c in checkpoints
    ensures Separated(GapWindows(gaps))
    ensures forall t :: InSome(GapWindows(gaps), t) <==> InHull(checkpoints, t) && !InSome(Windows(checkpoints), t)
    ensures forall i :: 0 <= i < |gaps| ==> CarriesHashes(checkpoints, gaps[i])
  {
    hide InSome, EndingAt, CarriesHashes, SortedBy, InHull;
    assert s[..|s|] == s;
    SameWindows(checkpoints, s, coveredThrough);
    forall k | 0 <= k < |gaps|
      ensures CarriesHashes(checkpoints, gaps[k])
    {
      SameHashes(s, checkpoints, gaps[k]);
    }
  }

  lemma EndingStep(s: seq<QueryWindow>, i: nat, t: int)
    requires i < |s| && forall k :: 0 <= k < i ==> s[k].window.to <= t
    ensures EndingAt(s[..i + 1], t) == if s[i].window.to == t then EndingAt(s[..i], t) + {s[i].filterHash} else EndingAt(s[..i], t)
    ensures s[i].window.to > t ==> EndingAt(s[..i + 1], s[i].window.to) == {s[i].filterHash}
  {
    var r := s[..i + 1];
    assert r[i] == s[i];
    assert forall k :: 0 <= k < i ==> r[k] == s[k] == s[..i][k];
  }

  lemma GapHashes(s: seq<QueryWindow>, i: nat, t: int, gap: UnqueriedWindow)
    requires i < |s| && SortedBy(s, ChronologicalLe) && TotalPreorder(ChronologicalLe)
    requires forall k :: 0 <= k < |s| ==> s[k].window.from <= s[k].window.to
    requires (forall k :: 0 <= k < i ==> s[k].window.to <= t) && s[i].window.from > t + 1
    requires gap == UnqueriedWindow(Interval(t + 1, s[i].window.from - 1), EndingAt(s[..i], t) + {s[i].filterHash})
    ensures CarriesHashes(s, gap)
  {
    assert forall k :: i < k < |s| ==> ChronologicalLe(s[i], s[k]);
    assert EndingAt(s, t) == EndingAt(s[..i], t);
    forall d | d in s && d.window.from == gap.window.to + 1
      ensures ChronologicalLe(s[i], d)
    {
      var k :| 0 <= k < |s| && s[k] == d;
    }
    assert FirstStartingAt(s, gap.window.to + 1, s[i]);
  }

  lemma SameWindows(a: seq<QueryWindow>, b: seq<QueryWindow>, last: int)
    requires (forall c :: c in a <==> c in b) && b != [] && SortedBy(b, ChronologicalLe)
    requires (exists k :: 0 <= k < |b| && b[k].window.to == last) && forall k :: 0 <= k < |b| ==> b[k].window.to <= last
    ensures forall t :: InSome(Windows(a), t) <==> InSome(Windows(b), t)
    ensures forall t :: InHull(a, t) <==> b[0].window.from <= t <= last
  {
    forall v
      ensures v in Windows(a) <==> v in Windows(b)
    {
      if v in Windows(a) {
        var i :| 0 <= i < |a| && a[i].window == v;
        assert a[i] in b;
        var j :| 0 <= j < |b| && b[j] == a[i];
        assert Windows(b)[j] == v;
      }
      if v in Windows(b) {
        var i :| 0 <= i < |b| && b[i].window == v;
        assert b[i] in a;
        var j :| 0 <= j < |a| && a[j] == b[i];
        assert Windows(a)[j] == v;
      }
    }
    SameIntervals(Windows(a), Windows(b));
    forall t
      ensures InHull(a, t) <==> b[0].window.from <= t <= last
    {
      HullOf(a, b, last, t);
    }
  }

  lemma HullOf(a: seq<QueryWindow>, b: seq<QueryWindow>, last: int, t: int)
    requires (forall c :: c in a <==> c in b) && b != [] && SortedBy(b, ChronologicalLe)
    requires (exists k :: 0 <= k < |b| && b[k].window.to == last) && forall k :: 0 <= k < |b| ==> b[k].window.to <= last
    ensures InHull(a, t) <==> b[0].window.from <= t <= last
  {
    var k :| 0 <= k < |b| && b[k].window.to == last;
    assert b[0] in a && b[k] in a;
    var x :| 0 <= x < |a| && a[x] == b[0];
    var y :| 0 <= y < |a| && a[y] == b[k];
    forall i | 0 <= i < |a|
      ensures b[0].window.from <= a[i].window.from && a[i].window.to <= last
    {
      assert a[i] in b;
      var j :| 0 <= j < |b| && b[j] == a[i];
      assert j == 0 || ChronologicalLe(b[0], b[j]);
    }
  }

  lemma SameHashes(a: seq<QueryWindow>, b: seq<QueryWindow>, gap: UnqueriedWindow)
    requires (forall c :: c in a <==> c in b) && CarriesHashes(a, gap)
    ensures CarriesHashes(b, gap)
  {
    var t := gap.window.from - 1;
    forall h
      ensures h in EndingAt(a, t) <==> h in EndingAt(b, t)
    {
      if h in EndingAt(a, t) {
        var i :| 0 <= i < |a| && a[i].window.to == t && a[i].filterHash == h;
        assert a[i] in b;
      }
      if h in EndingAt(b, t) {
        var i :| 0 <= i < |b| && b[i].window.to == t && b[i].filterHash == h;
        assert b[i] in a;
      }
    }
    assert EndingAt(a, t) == EndingAt(b, t);
    var c :| FirstStartingAt(a, gap.window.to + 1, c) && gap.filterHashes == EndingAt(a, t) + {c.filterHash};
    assert FirstStartingAt(b, gap.window.to + 1, c);
  }
}
