/**
 * The projection of an epoch is decided by what is stored, not by the order in which it is listed
 * (`project`, src/application/history-accounting-epoch.ts).
 */
module EpochOrder {
  import opened Common
  import opened Orders
  import opened Sums
  import opened Coverage
  import opened History
  import opened Selection
  import opened SelectEvidence
  import opened Normalization
  import opened Bridge
  import opened Anchors
  import opened EpochRows
  import opened Epoch

  /** The same epoch, its observations, conflicts and checkpoints listed in another order. */
  ghost predicate Reordered(a: EpochInput, b: EpochInput) {
    && a.scope == b.scope && a.opening == b.opening && a.closing == b.closing
    && multiset(a.observations) == multiset(b.observations)
    && multiset(a.conflicts) == multiset(b.conflicts)
    && multiset(a.coverage) == multiset(b.coverage)
  }

  /** What `Reordered` leaves to be used: the same boundaries and the same elements. */
  ghost predicate Alike(a: EpochInput, b: EpochInput) {
    && a.scope == b.scope && a.opening == b.opening && a.closing == b.closing
    && (forall o :: o in a.observations <==> o in b.observations)
    && (forall c :: c in a.conflicts <==> c in b.conflicts)
    && (forall c :: c in a.coverage <==> c in b.coverage)
  }

  lemma ReorderedAlike(a: EpochInput, b: EpochInput)
    requires Reordered(a, b)
    ensures Alike(a, b)
  {
    SameMultiset(a.observations, b.observations);
    SameMultiset(a.conflicts, b.conflicts);
    SameMultiset(a.coverage, b.coverage);
  }

  lemma ReorderedIds(obs: seq<Observation>, again: seq<Observation>)
    requires DistinctIds(obs) && multiset(obs) == multiset(again)
    ensures DistinctIds(again)
  {
    DistinctIdsIdentify(obs);
    SameMultiset(obs, again);
    DistinctByMultiset(obs, again);
    forall i, j | 0 <= i < j < |again|
      ensures again[i].observationId != again[j].observationId
    {
      assert again[i] in obs && again[j] in obs;
    }
  }

  // -------------------------------------------------------------- selection

  lemma SameRelevance(a: EpochInput, b: EpochInput, from: int, to: int, o: Observation)
    requires Alike(a, b)
    ensures Relevant(o, a, from, to) <==> Relevant(o, b, from, to)
  {
  }

  lemma SameConflictOfEpoch(a: EpochInput, b: EpochInput, from: int, to: int, c: StoredConflict)
    requires Alike(a, b)
    ensures ConflictIsInEpoch(c, a, from, to) <==> ConflictIsInEpoch(c, b, from, to)
  {
    hide Identifies, ConfinedToBracket;
  }

  lemma SameSelectable(a: EpochInput, b: EpochInput, validEpoch: bool, from: int, to: int)
    requires Alike(a, b)
    ensures forall o :: o in SelectableRows(a, validEpoch, from, to) <==> o in SelectableRows(b, validEpoch, from, to)
    ensures forall c :: c in SelectableConflicts(a, validEpoch, from, to) <==> c in SelectableConflicts(b, validEpoch, from, to)
  {
    RelevantMembers(a.observations, a, from, to);
    RelevantMembers(b.observations, b, from, to);
    ConflictMembers(a.conflicts, a, from, to);
    ConflictMembers(b.conflicts, b, from, to);
    hide Relevant, ConflictIsInEpoch, RelevantOf, ConflictsInEpoch;
    forall o
      ensures Relevant(o, a, from, to) <==> Relevant(o, b, from, to)
    {
      SameRelevance(a, b, from, to, o);
    }
    forall c
      ensures ConflictIsInEpoch(c, a, from, to) <==> ConflictIsInEpoch(c, b, from, to)
    {
      SameConflictOfEpoch(a, b, from, to, c);
    }
  }

  lemma SameEvidence(a: EpochInput, b: EpochInput, validEpoch: bool, from: int, to: int, e: Evidence, g: Evidence)
    requires Alike(a, b) && DistinctIds(a.observations)
    requires IsUsed(e, a, validEpoch, from, to) && IsUsed(g, b, validEpoch, from, to)
    ensures e == g
  {
    SameSelectable(a, b, validEpoch, from, to);
    SelectableIds(a, validEpoch, from, to);
    hide SelectableRows, SelectableConflicts, IsSelection, ValidObservation, WellFormedConflict, DistinctIds, IdsIdentify;
    var (rows, conflicts) := (SelectableRows(a, validEpoch, from, to), SelectableConflicts(a, validEpoch, from, to));
    var (rows', conflicts') := (SelectableRows(b, validEpoch, from, to), SelectableConflicts(b, validEpoch, from, to));
    assert Elements(rows) == Elements(rows') && Elements(conflicts) == Elements(conflicts');
    assert ValidInput(a.scope, rows, conflicts) <==> ValidInput(b.scope, rows', conflicts');
    DistinctIdsIdentify(rows);
    if ValidInput(a.scope, rows, conflicts) {
      SelectionIsUnique(Elements(rows), Elements(conflicts), e, g);
    }
  }

  lemma SameSelectionReasons(a: EpochInput, b: EpochInput, validEpoch: bool, from: int, to: int, e: Evidence, r: Reason)
    requires Alike(a, b)
    requires SelectionRaises(r, a, SelectableRows(a, validEpoch, from, to), SelectableConflicts(a, validEpoch, from, to), from, to, e)
    ensures SelectionRaises(r, b, SelectableRows(b, validEpoch, from, to), SelectableConflicts(b, validEpoch, from, to), from, to, e)
  {
    SameSelectable(a, b, validEpoch, from, to);
    hide SelectableRows, SelectableConflicts, ValidObservation, WellFormedConflict;
    var rows, rows' := SelectableRows(a, validEpoch, from, to), SelectableRows(b, validEpoch, from, to);
    forall c
      ensures SelectionConflictIsInEpoch(c, rows, a, from, to) <==> SelectionConflictIsInEpoch(c, rows', b, from, to)
    {
      assert forall o :: InEpochOrBoundary(o, a, from, to) <==> InEpochOrBoundary(o, b, from, to);
      hide InEpochOrBoundary;
    }
    hide SelectionConflictIsInEpoch;
  }

  // --------------------------------------------------------------- coverage

  lemma SameQueries(a: EpochInput, b: EpochInput, source: Source, from: int, to: int, hash: Filters -> string)
    requires Alike(a, b)
    ensures forall t :: Queried(a.coverage, source, a.scope, from, to, hash, t) ==> Queried(b.coverage, source, b.scope, from, to, hash, t)
    ensures forall r :: RefusedWith(a.coverage, source, a.scope, from, to, hash, r) ==> RefusedWith(b.coverage, source, b.scope, from, to, hash, r)
  {
    hide Admit, Holds;
    forall i | 0 <= i < |a.coverage|
      ensures exists j :: 0 <= j < |b.coverage| && b.coverage[j] == a.coverage[i]
    {
      assert a.coverage[i] in b.coverage;
    }
  }

  lemma SameCoverageReasons(a: EpochInput, b: EpochInput, from: int, to: int, hash: Filters -> string, r: Reason)
    requires Alike(a, b) && CoverageRaises(r, a, from, to, hash)
    ensures CoverageRaises(r, b, from, to, hash)
  {
    var k :| 0 <= k < |SOURCES| && SourceRaises(r, SOURCES[k], a, from, to, hash);
    SameQueries(a, b, SOURCES[k], from, to, hash);
    SameQueries(b, a, SOURCES[k], from, to, hash);
    hide Queried, RefusedWith;
    assert SourceRaises(r, SOURCES[k], b, from, to, hash);
  }

  lemma {:induction false} SameCount(s: seq<StoredConflict>, t: seq<StoredConflict>, checkpoint: Checkpoint)
    requires checkpoint.fromMs.Some? && checkpoint.toMs.Some? && multiset(s) == multiset(t)
    ensures CountLocated(s, checkpoint) == CountLocated(t, checkpoint)
  {
    SameMultiset(s, t);
    if s != [] {
      hide LocatedAt;
      var init, last := s[..|s| - 1], s[|s| - 1];
      assert s == init + [last];
      assert last in t;
      var i :| 0 <= i < |t| && t[i] == last;
      WithoutMultiset(t, i);
      SameCount(init, Without(t, i), checkpoint);
      CountWithout(t, i, checkpoint);
    }
  }

  lemma {:induction false} CountWithout(s: seq<StoredConflict>, i: nat, checkpoint: Checkpoint)
    requires checkpoint.fromMs.Some? && checkpoint.toMs.Some? && i < |s|
    ensures CountLocated(s, checkpoint) == CountLocated(Without(s, i), checkpoint) + if LocatedAt(s[i], checkpoint) then 1 else 0
  {
    hide LocatedAt;
    var rest := Without(s, i);
    if i == |s| - 1 {
      assert rest == s[..i];
    } else {
      var init := s[..|s| - 1];
      CountWithout(init, i, checkpoint);
      assert rest[..|rest| - 1] == Without(init, i);
      assert rest[|rest| - 1] == s[|s| - 1];
    }
  }

  lemma SameCountReasons(a: EpochInput, b: EpochInput, c: Checkpoint, from: int, to: int, hash: Filters -> string)
    requires Reordered(a, b)
    ensures CountReasons(c, a, from, to, hash) == CountReasons(c, b, from, to, hash)
  {
    hide CompatibleFilters, CountLocated;
    if c.fromMs.Some? && c.toMs.Some? {
      SameCount(a.conflicts, b.conflicts, c);
    }
  }

  lemma SameTimes(a: EpochInput, b: EpochInput, validEpoch: bool, from: int, to: int, hash: Filters -> string, r: Reason)
    requires Reordered(a, b) && TimesRaise(r, a, validEpoch, from, to, hash)
    ensures TimesRaise(r, b, validEpoch, from, to, hash)
  {
    ReorderedAlike(a, b);
    if validEpoch {
      var start, end := CoverageStart(a, from), CoverageEnd(a, to);
      assert start == CoverageStart(b, from) && end == CoverageEnd(b, to);
      hide CoverageRaises, CountReasons, CoverageStart, CoverageEnd;
      if CoverageRaises(r, a, start, end, hash) {
        SameCoverageReasons(a, b, start, end, hash, r);
      } else {
        var c :| c in a.coverage && r in CountReasons(c, a, start, end, hash);
        SameCountReasons(a, b, c, start, end, hash);
        assert c in b.coverage;
      }
    }
  }

  /** Exact gaps are determined by what they are the gaps of. */
  lemma ExactGapsAreUnique(s: seq<Interval>, t: seq<Interval>)
    requires Separated(s) && Separated(t) && forall p :: InSome(s, p) <==> InSome(t, p)
    ensures s == t
  {
    assert |s| == |t| && forall i :: 0 <= i < |s| ==> s[i] == t[i] by {
      SameUpTo(s, t, if |s| <= |t| then |s| else |t|);
      if |s| < |t| {
        NoneLeft(s, t);
      } else if |t| < |s| {
        NoneLeft(t, s);
      }
    }
  }

  lemma NoneLeft(s: seq<Interval>, t: seq<Interval>)
    requires Separated(s) && Separated(t) && |s| < |t| && forall i :: 0 <= i < |s| ==> s[i] == t[i]
    ensures exists p :: InSome(t, p) && !InSome(s, p)
  {
    var p := t[|s|].from;
    assert Holds(t[|s|], p);
    assert InSome(t, p);
    forall i | 0 <= i < |s|
      ensures !Holds(s[i], p)
    {
      assert t[i].to + 1 < t[|s|].from;
    }
  }

  lemma {:induction false} SameUpTo(s: seq<Interval>, t: seq<Interval>, n: nat)
    requires Separated(s) && Separated(t) && (forall p :: InSome(s, p) <==> InSome(t, p)) && n <= |s| && n <= |t|
    ensures forall i :: 0 <= i < n ==> s[i] == t[i]
  {
    if n > 0 {
      SameUpTo(s, t, n - 1);
      StartsLater(s, t, n - 1);
      StartsLater(t, s, n - 1);
      EndsLater(s, t, n - 1);
      EndsLater(t, s, n - 1);
    }
  }

  lemma StartsLater(s: seq<Interval>, t: seq<Interval>, k: nat)
    requires Separated(s) && Separated(t) && (forall p :: InSome(s, p) ==> InSome(t, p)) && k < |s| && k < |t|
    requires forall i :: 0 <= i < k ==> s[i] == t[i]
    ensures t[k].from <= s[k].from
  {
    var p := s[k].from;
    assert Holds(s[k], p);
    assert InSome(s, p);
    var i :| 0 <= i < |t| && Holds(t[i], p);
    assert forall j :: 0 <= j < k ==> s[j].to + 1 < s[k].from;
    assert k < i ==> t[k].to + 1 < t[i].from;
  }

  lemma Outside(t: seq<Interval>, k: nat, p: int)
    requires Separated(t) && k < |t| && p == t[k].to + 1
    ensures !InSome(t, p)
  {
    forall i | 0 <= i < |t|
      ensures !Holds(t[i], p)
    {
      assert i < k ==> t[i].to + 1 < t[k].from;
      assert k < i ==> t[k].to + 1 < t[i].from;
    }
  }

  lemma EndsLater(s: seq<Interval>, t: seq<Interval>, k: nat)
    requires Separated(s) && Separated(t) && (forall p :: InSome(s, p) ==> InSome(t, p)) && k < |s| && k < |t|
    requires (forall i :: 0 <= i < k ==> s[i] == t[i]) && s[k].from == t[k].from
    ensures s[k].to <= t[k].to
  {
    if t[k].to < s[k].to {
      var p := t[k].to + 1;
      assert Holds(s[k], p);
      assert InSome(s, p);
      Outside(t, k, p);
    }
  }

  lemma SameCoverage(a: EpochInput, b: EpochInput, c: SourceCoverage, d: SourceCoverage, from: int, to: int, hash: Filters -> string)
    requires Alike(a, b) && c.source == d.source && ExactCoverage(c, a, from, to, hash) && ExactCoverage(d, b, from, to, hash)
    ensures c == d
  {
    SameQueries(a, b, c.source, from, to, hash);
    SameQueries(b, a, c.source, from, to, hash);
    hide Queried, RefusedWith, Separated, InSome;
    ExactGapsAreUnique(c.gaps, d.gaps);
  }

  // --------------------------------------------------------------- accounts

  lemma {:induction false} SameSelectedReasons(a: EpochInput, b: EpochInput, selected: seq<Observation>, from: int, to: int)
    requires Alike(a, b)
    ensures SelectedReasons(selected, a, from, to) == SelectedReasons(selected, b, from, to)
  {
    if selected != [] {
      SameSelectedReasons(a, b, selected[..|selected| - 1], from, to);
      var last := selected[|selected| - 1];
      assert ObservationReasons(last, a, from, to) == ObservationReasons(last, b, from, to) by {
        hide MovementReasons, NormalizeTransaction;
      }
      hide ObservationReasons;
    }
  }

  lemma SameAccounts(a: EpochInput, b: EpochInput, selected: seq<Observation>, from: int, to: int)
    requires Alike(a, b)
    ensures BridgesOf(a, selected, from, to) == BridgesOf(b, selected, from, to)
    ensures AccountReasons(a, selected, from, to) == AccountReasons(b, selected, from, to)
  {
    SameSelectedReasons(a, b, selected, from, to);
    hide SelectedReasons, MatchReasons, BalanceReasons, CurrencyReasons, AllBridges, Balances, RowsFrom, LedgerOf;
  }

  // ----------------------------------------------------------------- result

  lemma SameReason(a: EpochInput, b: EpochInput, hash: Filters -> string, e: Evidence, r: Reason)
    requires Reordered(a, b) && Raises(r, a, hash, e)
    ensures Raises(r, b, hash, e)
  {
    ReorderedAlike(a, b);
    var validEpoch, from, to := HasEpoch(a), EpochStart(a), EpochEnd(a);
    assert validEpoch == HasEpoch(b) && from == EpochStart(b) && to == EpochEnd(b);
    hide ValidateAnchor, HasEpoch, EpochStart, EpochEnd, TimesRaise, SelectionRaises, AccountReasons, SelectableRows, SelectableConflicts;
    SameAccounts(a, b, e.observations, from, to);
    if TimesRaise(r, a, validEpoch, from, to, hash) {
      SameTimes(a, b, validEpoch, from, to, hash, r);
    }
    if SelectionRaises(r, a, SelectableRows(a, validEpoch, from, to), SelectableConflicts(a, validEpoch, from, to), from, to, e) {
      SameSelectionReasons(a, b, validEpoch, from, to, e, r);
    }
  }

  lemma SameMaking(a: EpochInput, b: EpochInput, hash: Filters -> string, p: Projection, q: Projection)
    requires DistinctIds(a.observations) && Reordered(a, b) && IsMade(p, a, hash) && IsMade(q, b, hash)
    ensures p.reasonCodes == q.reasonCodes && p.currencies == q.currencies && p.selectedTransactionCount == q.selectedTransactionCount
  {
    ReorderedAlike(a, b);
    var e :| IsMadeFrom(p, a, hash, e);
    var g :| IsMadeFrom(q, b, hash, g);
    assert HasEpoch(a) == HasEpoch(b) && EpochStart(a) == EpochStart(b) && EpochEnd(a) == EpochEnd(b);
    hide HasEpoch, EpochStart, EpochEnd, IsUsed, Raises, DistinctIds, BridgesOf, LedgerOf, RowsFrom;
    SameEvidence(a, b, HasEpoch(a), EpochStart(a), EpochEnd(a), e, g);
    SameAccounts(a, b, e.observations, EpochStart(a), EpochEnd(a));
    forall r
      ensures r in p.reasonCodes <==> r in q.reasonCodes
    {
      if Raises(r, a, hash, e) { SameReason(a, b, hash, e, r); }
      if Raises(r, b, hash, e) { SameReason(b, a, hash, e, r); }
    }
  }

  /** Whatever the order in which the history is listed, there is one projection. */
  lemma ProjectionIgnoresOrder(a: EpochInput, b: EpochInput, hash: Filters -> string, p: Projection, q: Projection)
    requires DistinctIds(a.observations) && Reordered(a, b)
    requires IsProjectionOf(p, a, hash) && IsProjectionOf(q, b, hash)
    ensures p == q
  {
    ReorderedAlike(a, b);
    ReorderedIds(a.observations, b.observations);
    assert HasEpoch(a) == HasEpoch(b) && EpochStart(a) == EpochStart(b) && EpochEnd(a) == EpochEnd(b);
    var start, end := CoverageStart(a, EpochStart(a)), CoverageEnd(a, EpochEnd(a));
    assert start == CoverageStart(b, EpochStart(b)) && end == CoverageEnd(b, EpochEnd(b));
    hide HasEpoch, EpochStart, EpochEnd, CoverageStart, CoverageEnd, IsMade, IsReconcilable, ReportsReconciliation, DistinctIds, ExactCoverage, Boundary;
    SameMaking(a, b, hash, p, q);
    forall k | 0 <= k < |SOURCES|
      ensures p.sourceCoverage[k] == q.sourceCoverage[k]
    {
      if HasEpoch(a) {
        SameCoverage(a, b, p.sourceCoverage[k], q.sourceCoverage[k], start, end, hash);
      }
    }
    assert p.sourceCoverage == q.sourceCoverage;
  }
}
