/** The loops of selectCanonicalHistoryEvidence and selectClosedPnlGroup (src/application/history-accounting-normalization.ts). */
module SelectEvidence {
  import opened Common
  import opened Orders
  import opened Coverage
  import opened History
  import opened Selection

  // ---------------------------------------------------------------- filters

  /** The rows of one transaction, in input order. */
  function TransactionSeq(obs: seq<Observation>, id: string): seq<Observation> {
    if obs == [] then []
    else TransactionSeq(obs[..|obs| - 1], id) + if IsTransaction(obs[|obs| - 1], id) then [obs[|obs| - 1]] else []
  }

  function GroupSeq(obs: seq<Observation>, key: GroupingKey): seq<Observation> {
    if obs == [] then []
    else GroupSeq(obs[..|obs| - 1], key) + if InGroup(obs[|obs| - 1], key) then [obs[|obs| - 1]] else []
  }

  predicate IsOther(o: Observation) {
    o.fact.body.OrderBody? || o.fact.body.ExecutionBody?
  }

  function OtherSeq(obs: seq<Observation>): seq<Observation> {
    if obs == [] then []
    else OtherSeq(obs[..|obs| - 1]) + if IsOther(obs[|obs| - 1]) then [obs[|obs| - 1]] else []
  }

  lemma {:induction false} FilterMembers(obs: seq<Observation>, id: string, key: GroupingKey)
    ensures forall o :: o in TransactionSeq(obs, id) <==> o in obs && IsTransaction(o, id)
    ensures forall o :: o in GroupSeq(obs, key) <==> o in obs && InGroup(o, key)
    ensures forall o :: o in OtherSeq(obs) <==> o in obs && IsOther(o)
  {
    if obs != [] {
      var init, last := obs[..|obs| - 1], obs[|obs| - 1];
      FilterMembers(init, id, key);
      assert forall o :: o in obs <==> o in init || o == last;
    }
  }

  lemma TransactionStep(obs: seq<Observation>, i: nat)
    requires i < |obs|
    ensures forall id :: TransactionSeq(obs[..i + 1], id) == TransactionSeq(obs[..i], id) + if IsTransaction(obs[i], id) then [obs[i]] else []
  {
    assert obs[..i + 1][..i] == obs[..i] && obs[..i + 1][i] == obs[i];
  }

  lemma GroupStep(obs: seq<Observation>, i: nat)
    requires i < |obs|
    ensures forall key :: GroupSeq(obs[..i + 1], key) == GroupSeq(obs[..i], key) + if InGroup(obs[i], key) then [obs[i]] else []
  {
    assert obs[..i + 1][..i] == obs[..i] && obs[..i + 1][i] == obs[i];
  }

  lemma OtherStep(obs: seq<Observation>, i: nat)
    requires i < |obs|
    ensures OtherSeq(obs[..i + 1]) == OtherSeq(obs[..i]) + if IsOther(obs[i]) then [obs[i]] else []
  {
    assert obs[..i + 1][..i] == obs[..i] && obs[..i + 1][i] == obs[i];
  }

  lemma DistinctIdsExtend(s: seq<Observation>, o: Observation)
    requires DistinctIds(s) && forall p :: p in s ==> p.observationId != o.observationId
    ensures DistinctIds(s + [o])
  {
  }

  lemma {:induction false} FiltersKeepDistinct(obs: seq<Observation>, id: string, key: GroupingKey)
    requires DistinctIds(obs)
    ensures DistinctIds(TransactionSeq(obs, id)) && DistinctIds(GroupSeq(obs, key)) && DistinctIds(OtherSeq(obs))
  {
    if obs != [] {
      var init, last := obs[..|obs| - 1], obs[|obs| - 1];
      FiltersKeepDistinct(init, id, key);
      FilterMembers(init, id, key);
      assert forall p :: p in init ==> p.observationId != last.observationId;
      DistinctIdsExtend(TransactionSeq(init, id), last);
      DistinctIdsExtend(GroupSeq(init, key), last);
      DistinctIdsExtend(OtherSeq(init), last);
      assert TransactionSeq(init, id) + [] == TransactionSeq(init, id);
    }
  }

  // -------------------------------------------------------------- validation

  predicate WellFormedConflict(c: StoredConflict) {
    c.source == TransactionLog ==>
      |c.eventIdentity| > 12 && c.eventIdentity[..12] == "transaction:" && c.reason == ImmutableIdContentChanged
  }

  function ConflictTransaction(c: StoredConflict): string
    requires c.source == TransactionLog && WellFormedConflict(c)
  {
    c.eventIdentity[12..]
  }

  predicate Against(c: StoredConflict, id: string) {
    c.source == TransactionLog && WellFormedConflict(c) && ConflictTransaction(c) == id
  }

  /** The IDs of the stored conflicts against one transaction. */
  function ConflictIdSeq(conflicts: seq<StoredConflict>, id: string): seq<string> {
    if conflicts == [] then []
    else
      var last := conflicts[|conflicts| - 1];
      ConflictIdSeq(conflicts[..|conflicts| - 1], id) + if Against(last, id) then [last.conflictId] else []
  }

  lemma {:induction false} ConflictIdMembers(conflicts: seq<StoredConflict>, id: string)
    ensures forall x :: x in ConflictIdSeq(conflicts, id) <==> exists c :: c in conflicts && Against(c, id) && c.conflictId == x
  {
    if conflicts != [] {
      var init, last := conflicts[..|conflicts| - 1], conflicts[|conflicts| - 1];
      ConflictIdMembers(init, id);
      assert forall c :: c in conflicts <==> c in init || c == last;
    }
  }

  lemma ConflictStep(conflicts: seq<StoredConflict>, i: nat)
    requires i < |conflicts|
    ensures forall id :: ConflictIdSeq(conflicts[..i + 1], id) ==
              ConflictIdSeq(conflicts[..i], id) + if Against(conflicts[i], id) then [conflicts[i].conflictId] else []
  {
    assert conflicts[..i + 1][..i] == conflicts[..i] && conflicts[..i + 1][i] == conflicts[i];
  }

  /** The index holds the conflict IDs of every transaction that has any. */
  ghost predicate ConflictsIndexed(m: map<string, seq<string>>, conflicts: seq<StoredConflict>) {
    && (forall id :: id in m <==> ConflictIdSeq(conflicts, id) != [])
    && (forall id :: id in m ==> m[id] == ConflictIdSeq(conflicts, id))
  }

  lemma IndexNextConflict(m: map<string, seq<string>>, conflicts: seq<StoredConflict>, i: nat)
    requires i < |conflicts| && WellFormedConflict(conflicts[i]) && ConflictsIndexed(m, conflicts[..i])
    ensures conflicts[i].source != TransactionLog ==> ConflictsIndexed(m, conflicts[..i + 1])
    ensures conflicts[i].source == TransactionLog ==>
              var id := ConflictTransaction(conflicts[i]);
              ConflictsIndexed(m[id := (if id in m then m[id] else []) + [conflicts[i].conflictId]], conflicts[..i + 1])
  {
    ConflictStep(conflicts, i);
    hide ConflictIdSeq;
  }

  method IndexConflicts(conflicts: seq<StoredConflict>) returns (r: Result<map<string, seq<string>>, SelectionError>)
    ensures r.Ok? <==> forall c :: c in conflicts ==> WellFormedConflict(c)
    ensures r.Ok? ==> ConflictsIndexed(r.value, conflicts)
  {
    var transactionConflicts: map<string, seq<string>> := map[];
    assert ConflictsIndexed(transactionConflicts, conflicts[..0]);
    hide ConflictsIndexed, WellFormedConflict, ConflictTransaction, ConflictIdSeq;
    for i := 0 to |conflicts|
      invariant forall k :: 0 <= k < i ==> WellFormedConflict(conflicts[k])
      invariant ConflictsIndexed(transactionConflicts, conflicts[..i])
    {
      var conflict := conflicts[i];
      if conflict.source == TransactionLog && !WellFormedConflict(conflict) {
        return Err(InvalidValue);
      }
      OtherSourcesAreWellFormed(conflict);
      IndexNextConflict(transactionConflicts, conflicts, i);
      if conflict.source == TransactionLog {
        var id := ConflictTransaction(conflict);
        var known := if id in transactionConflicts then transactionConflicts[id] else [];
        transactionConflicts := transactionConflicts[id := known + [conflict.conflictId]];
      }
    }
    assert conflicts[..|conflicts|] == conflicts;
    r := Ok(transactionConflicts);
  }

  lemma OtherSourcesAreWellFormed(c: StoredConflict)
    ensures c.source != TransactionLog ==> WellFormedConflict(c)
  {
  }

  ghost predicate TransactionsIndexed(m: map<string, seq<Observation>>, obs: seq<Observation>) {
    && (forall id :: id in m <==> TransactionSeq(obs, id) != [])
    && (forall id :: id in m ==> m[id] == TransactionSeq(obs, id))
  }

  ghost predicate GroupsIndexed(m: map<GroupingKey, seq<Observation>>, obs: seq<Observation>) {
    && (forall key :: key in m <==> GroupSeq(obs, key) != [])
    && (forall key :: key in m ==> m[key] == GroupSeq(obs, key))
  }

  lemma IndexNextTransaction(m: map<string, seq<Observation>>, obs: seq<Observation>, i: nat)
    requires i < |obs| && TransactionsIndexed(m, obs[..i])
    ensures !obs[i].fact.body.TransactionBody? ==> TransactionsIndexed(m, obs[..i + 1])
    ensures obs[i].fact.body.TransactionBody? ==>
              var id := obs[i].fact.body.transaction.transactionId;
              TransactionsIndexed(m[id := (if id in m then m[id] else []) + [obs[i]]], obs[..i + 1])
  {
    TransactionStep(obs, i);
    hide TransactionSeq;
  }

  lemma IndexNextGroup(m: map<GroupingKey, seq<Observation>>, obs: seq<Observation>, i: nat)
    requires i < |obs| && GroupsIndexed(m, obs[..i])
    ensures !obs[i].fact.body.ClosedPnlBody? ==> GroupsIndexed(m, obs[..i + 1])
    ensures obs[i].fact.body.ClosedPnlBody? ==>
              var key := obs[i].fact.body.row.groupingKey;
              GroupsIndexed(m[key := (if key in m then m[key] else []) + [obs[i]]], obs[..i + 1])
  {
    GroupStep(obs, i);
    hide GroupSeq;
  }

  method GroupObservations(obs: seq<Observation>)
    returns (others: seq<Observation>, byId: map<string, seq<Observation>>, byGroup: map<GroupingKey, seq<Observation>>)
    ensures others == OtherSeq(obs) && TransactionsIndexed(byId, obs) && GroupsIndexed(byGroup, obs)
  {
    others, byId, byGroup := [], map[], map[];
    assert OtherSeq(obs[..0]) == [] && TransactionsIndexed(byId, obs[..0]) && GroupsIndexed(byGroup, obs[..0]);
    hide OtherSeq, TransactionSeq, GroupSeq, TransactionsIndexed, GroupsIndexed;
    for i := 0 to |obs|
      invariant others == OtherSeq(obs[..i]) && TransactionsIndexed(byId, obs[..i]) && GroupsIndexed(byGroup, obs[..i])
    {
      var observation := obs[i];
      OtherStep(obs, i);
      IndexNextTransaction(byId, obs, i);
      IndexNextGroup(byGroup, obs, i);
      match observation.fact.body {
        case TransactionBody(t) =>
          var group := if t.transactionId in byId then byId[t.transactionId] else [];
          byId := byId[t.transactionId := group + [observation]];
        case ClosedPnlBody(row) =>
          var group := if row.groupingKey in byGroup then byGroup[row.groupingKey] else [];
          byGroup := byGroup[row.groupingKey := group + [observation]];
        case _ =>
          others := others + [observation];
      }
    }
    assert obs[..|obs|] == obs;
  }

  // ------------------------------------------------------------- newest row

  /** The newest row, as sorting by recency puts it first. */
  method NewestOf(rows: seq<Observation>) returns (o: Observation)
    requires rows != []
    ensures MostRecent(o, Elements(rows))
  {
    RecencyIsOrdered();
    SortByIsSorted(rows, RecencyLe);
    hide RecencyLe;
    var sorted := SortBy(rows, RecencyLe);
    o := sorted[0];
    forall p | p in rows
      ensures RecencyLe(o, p)
    {
      SmallestIsFirst(sorted, p, RecencyLe);
    }
  }

  predicate SameContent(rows: seq<Observation>) {
    forall i :: 0 <= i < |rows| ==> rows[i].contentHash == rows[0].contentHash
  }

  function IdsOf(rows: seq<Observation>): seq<string> {
    SortBy(seq(|rows|, i requires 0 <= i < |rows| => rows[i].observationId), StrLe)
  }

  lemma SortedIds(rows: seq<Observation>)
    requires DistinctIds(rows)
    ensures IdsOf(rows) == Ids(Elements(rows))
  {
    var ids := seq(|rows|, i requires 0 <= i < |rows| => rows[i].observationId);
    SortedStrings(ids);
    forall x
      ensures x in ids <==> x in set o | o in Elements(rows) :: o.observationId
    {
      if x in ids {
        var i :| 0 <= i < |ids| && ids[i] == x;
        assert rows[i] in Elements(rows);
      }
      if o :| o in Elements(rows) && o.observationId == x {
        var i :| 0 <= i < |rows| && rows[i] == o;
        assert ids[i] == x;
      }
    }
    assert (set x | x in ids) == set o | o in Elements(rows) :: o.observationId;
  }

  // -------------------------------------------------------- closed-PnL group

  function HashSeq(rows: seq<Observation>, hash: string): seq<Observation> {
    if rows == [] then []
    else HashSeq(rows[..|rows| - 1], hash) + if rows[|rows| - 1].contentHash == hash then [rows[|rows| - 1]] else []
  }

  lemma {:induction false} HashMembers(rows: seq<Observation>, hash: string)
    ensures forall o :: o in HashSeq(rows, hash) <==> o in rows && o.contentHash == hash
  {
    if rows != [] {
      var init, last := rows[..|rows| - 1], rows[|rows| - 1];
      HashMembers(init, hash);
      assert forall o :: o in rows <==> o in init || o == last;
    }
  }

  lemma HashStep(rows: seq<Observation>, i: nat)
    requires i < |rows|
    ensures forall h :: HashSeq(rows[..i + 1], h) == HashSeq(rows[..i], h) + if rows[i].contentHash == h then [rows[i]] else []
  {
    assert rows[..i + 1][..i] == rows[..i] && rows[..i + 1][i] == rows[i];
  }

  method GroupByContent(rows: seq<Observation>) returns (unique: map<string, seq<Observation>>)
    ensures forall h :: h in unique <==> HashSeq(rows, h) != []
    ensures forall h :: h in unique ==> unique[h] == HashSeq(rows, h)
  {
    unique := map[];
    assert forall h :: HashSeq(rows[..0], h) == [];
    hide HashSeq;
    for i := 0 to |rows|
      invariant forall h :: h in unique <==> HashSeq(rows[..i], h) != []
      invariant forall h :: h in unique ==> unique[h] == HashSeq(rows[..i], h)
    {
      HashStep(rows, i);
      var versions := if rows[i].contentHash in unique then unique[rows[i].contentHash] else [];
      unique := unique[rows[i].contentHash := versions + [rows[i]]];
    }
    assert rows[..|rows|] == rows;
  }

  /** One newest row for every content, in any order. */
  ghost predicate NewestPerContent(distinct: seq<Observation>, rows: seq<Observation>) {
    && (forall i, j :: 0 <= i < j < |distinct| ==> distinct[i].contentHash != distinct[j].contentHash)
    && (forall o :: o in distinct ==> Representative(o, Elements(rows)))
    && (forall p :: p in rows ==> p.contentHash in ContentsOf(distinct))
  }

  ghost function ContentsOf(rows: seq<Observation>): set<string> {
    set o | o in rows :: o.contentHash
  }

  lemma ContentsAppend(rows: seq<Observation>, o: Observation)
    ensures ContentsOf(rows + [o]) == ContentsOf(rows) + {o.contentHash}
  {
    assert forall p :: p in rows + [o] <==> p in rows || p == o;
  }

  lemma NewestIsRepresentative(o: Observation, rows: seq<Observation>, hash: string)
    requires MostRecent(o, Elements(HashSeq(rows, hash)))
    ensures o.contentHash == hash && Representative(o, Elements(rows))
  {
    hide RecencyLe, HashSeq;
    HashMembers(rows, hash);
  }

  method DistinctContents(rows: seq<Observation>) returns (distinct: seq<Observation>)
    requires rows != []
    ensures NewestPerContent(distinct, rows) && distinct != []
  {
    var unique := GroupByContent(rows);
    distinct := [];
    var hashes := unique.Keys;
    hide HashSeq, MostRecent, Representative;
    while hashes != {}
      invariant hashes <= unique.Keys
      invariant forall o :: o in distinct ==> Representative(o, Elements(rows))
      invariant unique.Keys - hashes == ContentsOf(distinct)
      invariant forall i, j :: 0 <= i < j < |distinct| ==> distinct[i].contentHash != distinct[j].contentHash
      decreases hashes
    {
      var hash :| hash in hashes;
      var newest := NewestOf(unique[hash]);
      NewestIsRepresentative(newest, rows, hash);
      hashes := hashes - {hash};
      ContentsAppend(distinct, newest);
      assert newest.contentHash !in ContentsOf(distinct);
      distinct := distinct + [newest];
    }
    forall p | p in rows
      ensures p.contentHash in ContentsOf(distinct)
    {
      HashMembers(rows, p.contentHash);
      assert p in HashSeq(rows, p.contentHash);
    }
    assert rows[0] in rows;
  }

  lemma RepresentativesAreDistinct(distinct: seq<Observation>, rows: seq<Observation>)
    requires DistinctIds(rows) && NewestPerContent(distinct, rows)
    ensures forall o :: o in distinct <==> Representative(o, Elements(rows))
    ensures forall i, j :: 0 <= i < j < |distinct| ==> distinct[i] != distinct[j]
  {
    RecencyIsOrdered();
    hide RecencyLe;
    DistinctIdsIdentify(rows);
    forall o | Representative(o, Elements(rows))
      ensures o in distinct
    {
      var p :| p in distinct && p.contentHash == o.contentHash;
      assert Representative(p, Elements(rows));
      assert RecencyLe(o, p) && RecencyLe(p, o);
    }
  }

  predicate StrGe(a: string, b: string) {
    StrLe(b, a)
  }

  lemma StrGeIsOrdered()
    ensures TotalPreorder(StrGe)
  {
    StrLeIsTotalOrder();
    hide StrLe;
  }

  function RevisionTexts(rows: seq<Observation>): seq<string>
    requires forall o :: o in rows ==> o.revisionTime.Some?
  {
    seq(|rows|, i requires 0 <= i < |rows| => rows[i].revisionTime.value.text)
  }

  function LatestRevision(rows: seq<Observation>): string
    requires rows != [] && forall o :: o in rows ==> o.revisionTime.Some?
  {
    StrGeIsOrdered();
    SortByIsSorted(RevisionTexts(rows), StrGe);
    SortBy(RevisionTexts(rows), StrGe)[0]
  }

  lemma LatestRevisionIsGreatest(rows: seq<Observation>)
    requires rows != [] && forall o :: o in rows ==> o.revisionTime.Some?
    ensures forall o :: o in rows ==> StrLe(o.revisionTime.value.text, LatestRevision(rows))
    ensures exists o :: o in rows && o.revisionTime.value.text == LatestRevision(rows)
  {
    hide StrLe;
    StrGeIsOrdered();
    var texts := RevisionTexts(rows);
    SortByIsSorted(texts, StrGe);
    var sorted := SortBy(texts, StrGe);
    assert sorted[0] in texts;
    var k :| 0 <= k < |texts| && texts[k] == sorted[0];
    assert rows[k] in rows;
    forall o | o in rows
      ensures StrLe(o.revisionTime.value.text, sorted[0])
    {
      var i :| 0 <= i < |rows| && rows[i] == o;
      assert texts[i] in texts;
      SmallestIsFirst(sorted, texts[i], StrGe);
      StrLeTotal(texts[i], texts[i]);
    }
  }

  function RevisedAt(rows: seq<Observation>, text: string): seq<Observation>
    requires forall o :: o in rows ==> o.revisionTime.Some?
  {
    if rows == [] then []
    else (if rows[0].revisionTime.value.text == text then [rows[0]] else []) + RevisedAt(rows[1..], text)
  }

  lemma {:induction false} RevisedMembers(rows: seq<Observation>, text: string)
    requires forall o :: o in rows ==> o.revisionTime.Some?
    requires forall i, j :: 0 <= i < j < |rows| ==> rows[i].contentHash != rows[j].contentHash
    ensures var r := RevisedAt(rows, text);
            && (forall o :: o in r <==> o in rows && o.revisionTime.value.text == text)
            && (forall i, j :: 0 <= i < j < |r| ==> r[i].contentHash != r[j].contentHash)
  {
    if rows != [] {
      RevisedMembers(rows[1..], text);
      assert forall o :: o in rows <==> o == rows[0] || o in rows[1..];
    }
  }

  lemma UnrevisedHasNoWinner(distinct: seq<Observation>, rows: seq<Observation>)
    requires DistinctIds(rows) && NewestPerContent(distinct, rows) && |distinct| >= 2
    requires exists o :: o in distinct && o.revisionTime.None?
    ensures !HasWinner(Elements(rows))
  {
    RepresentativesAreDistinct(distinct, rows);
    var o :| o in distinct && o.revisionTime.None?;
    var p := if distinct[0] == o then distinct[1] else distinct[0];
    assert p in distinct && p != o;
    assert Representative(o, Elements(rows)) && Representative(p, Elements(rows));
    hide Representative, NewestPerContent, DistinctIds, StrLt;
    forall w
      ensures !Winner(w, Elements(rows))
    {
      assert Winner(w, Elements(rows)) ==> (w == o || LaterRevision(w, o)) && (w == p || LaterRevision(w, p));
    }
  }

  lemma LatestDecides(distinct: seq<Observation>, rows: seq<Observation>)
    requires DistinctIds(rows) && NewestPerContent(distinct, rows) && distinct != []
    requires forall o :: o in distinct ==> o.revisionTime.Some?
    ensures var latest := RevisedAt(distinct, LatestRevision(distinct));
            && latest != []
            && (forall i, j :: 0 <= i < j < |latest| ==> latest[i].contentHash != latest[j].contentHash)
            && (|latest| == 1 ==> Winner(latest[0], Elements(rows)))
            && (|latest| > 1 ==> !HasWinner(Elements(rows)))
  {
    var text := LatestRevision(distinct);
    RevisedMembers(distinct, text);
    LatestRevisionIsGreatest(distinct);
    NewestAreApart(distinct, rows);
    RepresentativesAreDistinct(distinct, rows);
    hide *;
    LatestRowsDecide(distinct, Elements(rows), RevisedAt(distinct, text), text);
  }

  lemma LatestRowsDecide(distinct: seq<Observation>, rows: set<Observation>, latest: seq<Observation>, text: string)
    requires forall p :: p in distinct <==> Representative(p, rows)
    requires forall p :: p in distinct ==> p.revisionTime.Some? && StrLe(p.revisionTime.value.text, text)
    requires exists p :: p in distinct && p.revisionTime.value.text == text
    requires forall p :: p in latest <==> p in distinct && p.revisionTime.value.text == text
    requires forall i, j :: 0 <= i < j < |latest| ==> latest[i].contentHash != latest[j].contentHash
    ensures latest != []
    ensures |latest| == 1 ==> Winner(latest[0], rows)
    ensures |latest| > 1 ==> !HasWinner(rows)
  {
    hide Representative, StrLe, Winner, HasWinner;
    assert latest[0] in latest;
    if |latest| == 1 {
      LoneLatestWins(distinct, rows, latest[0], text);
    } else {
      assert latest[1] in latest;
      TiedLatestLose(distinct, rows, latest[0], latest[1], text);
    }
  }

  lemma LoneLatestWins(distinct: seq<Observation>, rows: set<Observation>, o: Observation, text: string)
    requires forall p :: Representative(p, rows) <==> p in distinct
    requires forall p :: p in distinct ==> p.revisionTime.Some? && StrLe(p.revisionTime.value.text, text)
    requires o in distinct && o.revisionTime.value.text == text
    requires forall p :: p in distinct && p.revisionTime.value.text == text ==> p == o
    ensures Winner(o, rows)
  {
    hide Representative, StrLe;
  }

  lemma TiedLatestLose(distinct: seq<Observation>, rows: set<Observation>, a: Observation, b: Observation, text: string)
    requires forall p :: Representative(p, rows) <==> p in distinct
    requires forall p :: p in distinct ==> p.revisionTime.Some? && StrLe(p.revisionTime.value.text, text)
    requires a in distinct && b in distinct && a != b && a.revisionTime.value.text == b.revisionTime.value.text == text
    ensures !HasWinner(rows)
  {
    hide Representative, StrLe;
    forall w
      ensures !Winner(w, rows)
    {
      if w in distinct {
        StrLeTotal(w.revisionTime.value.text, text);
      }
      assert Representative(a, rows) && Representative(b, rows);
    }
  }

  lemma {:induction false} HashCount(rows: seq<Observation>)
    requires forall i, j :: 0 <= i < j < |rows| ==> rows[i].contentHash != rows[j].contentHash
    ensures |set o | o in rows :: o.contentHash| == |rows|
  {
    if rows != [] {
      var rest := rows[1..];
      HashCount(rest);
      assert (set o | o in rows :: o.contentHash) == (set o | o in rest :: o.contentHash) + {rows[0].contentHash};
      assert rows[0].contentHash !in set o | o in rest :: o.contentHash;
    }
  }

  method SelectClosedPnlGroup(rows: seq<Observation>, groupKey: GroupingKey)
    returns (selected: Option<Observation>, conflict: Option<SelectionConflict>)
    requires rows != [] && forall o :: o in rows ==> InGroup(o, groupKey)
    ensures selected.None? <==> conflict.Some?
    ensures conflict.Some? ==> conflict.value == RevisionConflict(groupKey, IdsOf(rows))
    ensures DistinctIds(rows) ==> (selected.Some? <==> HasWinner(Elements(rows)))
    ensures DistinctIds(rows) && selected.Some? ==> Winner(selected.value, Elements(rows))
  {
    var distinct := DistinctContents(rows);
    selected, conflict := None, Some(RevisionConflict(groupKey, IdsOf(rows)));
    hide Representative, NewestPerContent, InGroup, IdsOf;
    if |distinct| == 1 {
      if DistinctIds(rows) {
        LoneContentWins(distinct, rows);
      }
      selected, conflict := Some(distinct[0]), None;
      return;
    }
    if exists o :: o in distinct && o.revisionTime.None? {
      if DistinctIds(rows) {
        UnrevisedHasNoWinner(distinct, rows);
      }
      return;
    }
    var latest := RevisedAt(distinct, LatestRevision(distinct));
    LatestRowsExist(distinct, rows);
    if DistinctIds(rows) {
      LatestDecides(distinct, rows);
    }
    HashCount(latest);
    hide *;
    if |set o | o in latest :: o.contentHash| > 1 {
      return;
    }
    var newest := NewestOf(latest);
    OnlyRowIsNewest(latest, newest);
    selected, conflict := Some(newest), None;
  }

  lemma LatestRowsExist(distinct: seq<Observation>, rows: seq<Observation>)
    requires NewestPerContent(distinct, rows) && distinct != [] && forall o :: o in distinct ==> o.revisionTime.Some?
    ensures var latest := RevisedAt(distinct, LatestRevision(distinct));
            latest != [] && forall i, j :: 0 <= i < j < |latest| ==> latest[i].contentHash != latest[j].contentHash
  {
    NewestAreApart(distinct, rows);
    RevisedMembers(distinct, LatestRevision(distinct));
    LatestRevisionIsGreatest(distinct);
    hide *;
  }

  lemma OnlyRowIsNewest(rows: seq<Observation>, newest: Observation)
    requires |rows| == 1 && MostRecent(newest, Elements(rows))
    ensures newest == rows[0]
  {
    hide RecencyLe;
  }

  lemma NewestAreApart(distinct: seq<Observation>, rows: seq<Observation>)
    requires NewestPerContent(distinct, rows)
    ensures forall i, j :: 0 <= i < j < |distinct| ==> distinct[i].contentHash != distinct[j].contentHash
  {
  }

  lemma LoneContentWins(distinct: seq<Observation>, rows: seq<Observation>)
    requires DistinctIds(rows) && NewestPerContent(distinct, rows) && |distinct| == 1
    ensures Winner(distinct[0], Elements(rows))
  {
    RepresentativesAreDistinct(distinct, rows);
    hide Representative, NewestPerContent;
  }

  // ------------------------------------------------------------ transactions

  function Deduplicated(s: seq<string>): (r: seq<string>)
    ensures Distinct(r) && forall x :: x in r <==> x in s
  {
    if s == [] then []
    else
      var init := Deduplicated(s[..|s| - 1]);
      assert forall x :: x in s <==> x in s[..|s| - 1] || x == s[|s| - 1];
      if s[|s| - 1] in init then init else init + [s[|s| - 1]]
  }

  function SortedSet(s: seq<string>): seq<string> {
    SortBy(Deduplicated(s), StrLe)
  }

  /** What the input says of one transaction, in terms of the sets that selection is stated in. */
  lemma TransactionFacts(obs: seq<Observation>, conflicts: seq<StoredConflict>, id: string)
    requires forall c :: c in conflicts ==> WellFormedConflict(c)
    ensures Elements(TransactionSeq(obs, id)) == TransactionRows(Elements(obs), id)
    ensures SameContent(TransactionSeq(obs, id)) <==> OneContent(TransactionRows(Elements(obs), id))
    ensures ConflictIdSeq(conflicts, id) == [] <==> StoredAgainst(Elements(conflicts), id) == {}
    ensures SortedSet(ConflictIdSeq(conflicts, id)) == ConflictIds(StoredAgainst(Elements(conflicts), id))
    ensures DistinctIds(obs) ==> IdsOf(TransactionSeq(obs, id)) == Ids(TransactionRows(Elements(obs), id))
  {
    var rows := TransactionSeq(obs, id);
    FilterMembers(obs, id, GroupingKey("", "", "", ""));
    hide TransactionSeq, GroupSeq, OtherSeq, ConflictIdSeq, OrderedWithin, IdsOf;
    assert Elements(rows) == TransactionRows(Elements(obs), id);
    assert SameContent(rows) <==> OneContent(Elements(rows)) by {
      assert forall i :: 0 <= i < |rows| ==> rows[i] in Elements(rows);
    }
    StoredFacts(conflicts, id);
    if DistinctIds(obs) {
      FiltersKeepDistinct(obs, id, GroupingKey("", "", "", ""));
      SortedIds(rows);
    }
  }

  lemma StoredFacts(conflicts: seq<StoredConflict>, id: string)
    requires forall c :: c in conflicts ==> WellFormedConflict(c)
    ensures ConflictIdSeq(conflicts, id) == [] <==> StoredAgainst(Elements(conflicts), id) == {}
    ensures SortedSet(ConflictIdSeq(conflicts, id)) == ConflictIds(StoredAgainst(Elements(conflicts), id))
  {
    var ids, stored := ConflictIdSeq(conflicts, id), StoredAgainst(Elements(conflicts), id);
    hide OrderedWithin, Against;
    ConflictIdMembers(conflicts, id);
    forall c | c in conflicts
      ensures Against(c, id) <==> c in stored
    {
      AgainstMeansStored(c, id);
    }
    assert ids != [] ==> ids[0] in ids;
    SortedStrings(Deduplicated(ids));
    assert (set x | x in Deduplicated(ids)) == set c | c in stored :: c.conflictId;
  }

  lemma AgainstMeansStored(c: StoredConflict, id: string)
    requires WellFormedConflict(c)
    ensures Against(c, id) <==> c.source == TransactionLog && c.eventIdentity == "transaction:" + id
  {
    if c.source == TransactionLog {
      assert c.eventIdentity == c.eventIdentity[..12] + c.eventIdentity[12..];
      assert ("transaction:" + id)[12..] == id;
    }
  }

  /** The transactions in `done` have been decided, and nothing else. */
  ghost predicate Decided(selected: seq<Observation>, reported: seq<SelectionConflict>, obs: set<Observation>,
                          conflicts: set<StoredConflict>, done: set<string>) {
    && Distinct(selected) && Distinct(reported)
    && (forall o :: o in selected <==>
          o.fact.body.TransactionBody? && o.fact.body.transaction.transactionId in done && Chosen(o, obs, conflicts))
    && (forall c :: c in reported <==> c.TransactionConflict? && c.transactionId in done && Reported(c, obs, conflicts))
  }

  lemma DecideRow(selected: seq<Observation>, reported: seq<SelectionConflict>, obs: set<Observation>,
                  conflicts: set<StoredConflict>, done: set<string>, id: string, o: Observation)
    requires Decided(selected, reported, obs, conflicts, done) && id !in done && IdsIdentify(obs)
    requires Clean(obs, conflicts, id) && MostRecent(o, TransactionRows(obs, id))
    ensures Decided(selected + [o], reported, obs, conflicts, done + {id})
  {
    hide MostRecent, Clean, OrderedWithin, Distinct;
    MostRecentIsRow(o, TransactionRows(obs, id));
    assert Chosen(o, obs, conflicts);
    forall q | IsTransaction(q, id) && Chosen(q, obs, conflicts)
      ensures q == o
    {
      MostRecentIsUnique(q, o, TransactionRows(obs, id));
    }
    assert o !in selected;
    DistinctAppend(selected, o);
    assert forall q :: q in selected + [o] <==> q in selected || q == o;
  }

  lemma DistinctAppend<T>(s: seq<T>, x: T)
    requires Distinct(s) && x !in s
    ensures Distinct(s + [x])
  {
  }

  lemma MostRecentIsRow(o: Observation, rows: set<Observation>)
    requires MostRecent(o, rows)
    ensures o in rows
  {
  }

  lemma DecideConflict(selected: seq<Observation>, reported: seq<SelectionConflict>, obs: set<Observation>,
                       conflicts: set<StoredConflict>, done: set<string>, id: string)
    requires Decided(selected, reported, obs, conflicts, done) && id !in done
    requires !Clean(obs, conflicts, id)
    ensures var c := TransactionConflict(id, Ids(TransactionRows(obs, id)), ConflictIds(StoredAgainst(conflicts, id)));
            Decided(selected, reported + [c], obs, conflicts, done + {id})
  {
    hide MostRecent, Clean, OrderedWithin, Distinct;
    var c := TransactionConflict(id, Ids(TransactionRows(obs, id)), ConflictIds(StoredAgainst(conflicts, id)));
    assert Reported(c, obs, conflicts);
    assert c !in reported;
    DistinctAppend(reported, c);
    assert forall d :: d in reported + [c] <==> d in reported || d == c;
  }

  /** The loops over the transactions seen and over the conflicts of transactions not seen. */
  method SelectTransactions(obs: seq<Observation>, conflicts: seq<StoredConflict>,
                            byId: map<string, seq<Observation>>, transactionConflicts: map<string, seq<string>>)
    returns (selected: seq<Observation>, reported: seq<SelectionConflict>)
    requires forall c :: c in conflicts ==> WellFormedConflict(c)
    requires TransactionsIndexed(byId, obs) && ConflictsIndexed(transactionConflicts, conflicts)
    ensures DistinctIds(obs) ==>
      Decided(selected, reported, Elements(obs), Elements(conflicts), byId.Keys + transactionConflicts.Keys)
  {
    selected, reported := [], [];
    hide Decided, TransactionSeq, ConflictIdSeq, MostRecent, OrderedWithin, SortedSet, IdsOf, SameContent, OneContent, DistinctIds;
    NothingDecided(Elements(obs), Elements(conflicts));
    var ids := byId.Keys;
    assert byId.Keys - ids == {};
    while ids != {}
      invariant ids <= byId.Keys
      invariant DistinctIds(obs) ==> Decided(selected, reported, Elements(obs), Elements(conflicts), byId.Keys - ids)
      decreases ids
    {
      var id :| id in ids;
      var rows := byId[id];
      var conflictIds := if id in transactionConflicts then transactionConflicts[id] else [];
      ghost var done := byId.Keys - ids;
      assert conflictIds == ConflictIdSeq(conflicts, id);
      TransactionFacts(obs, conflicts, id);
      ghost var selected0, reported0 := selected, reported;
      if !SameContent(rows) || |conflictIds| > 0 {
        reported := reported + [TransactionConflict(id, IdsOf(rows), SortedSet(conflictIds))];
        if DistinctIds(obs) {
          DecideConflict(selected0, reported0, Elements(obs), Elements(conflicts), done, id);
        }
      } else {
        var newest := NewestOf(rows);
        selected := selected + [newest];
        if DistinctIds(obs) {
          DistinctIdsIdentify(obs);
          DecideRow(selected0, reported0, Elements(obs), Elements(conflicts), done, id, newest);
        }
      }
      ids := ids - {id};
      assert byId.Keys - ids == done + {id};
    }
    assert byId.Keys - ids == byId.Keys;
    var left := transactionConflicts.Keys - byId.Keys;
    assert byId.Keys + (transactionConflicts.Keys - byId.Keys - left) == byId.Keys;
    while left != {}
      invariant left <= transactionConflicts.Keys - byId.Keys
      invariant DistinctIds(obs) ==> Decided(selected, reported, Elements(obs), Elements(conflicts),
                                             byId.Keys + (transactionConflicts.Keys - byId.Keys - left))
      decreases left
    {
      var id :| id in left;
      ghost var done := byId.Keys + (transactionConflicts.Keys - byId.Keys - left);
      ghost var reported0 := reported;
      TransactionFacts(obs, conflicts, id);
      reported := reported + [TransactionConflict(id, [], SortedSet(transactionConflicts[id]))];
      if DistinctIds(obs) {
        NoRowsNoIds(obs, id);
        DecideConflict(selected, reported0, Elements(obs), Elements(conflicts), done, id);
      }
      left := left - {id};
      assert byId.Keys + (transactionConflicts.Keys - byId.Keys - left) == done + {id};
    }
    assert byId.Keys + (transactionConflicts.Keys - byId.Keys - left) == byId.Keys + transactionConflicts.Keys;
  }

  lemma NothingDecided(obs: set<Observation>, conflicts: set<StoredConflict>)
    ensures Decided([], [], obs, conflicts, {})
  {
  }

  lemma NoRowsNoIds(obs: seq<Observation>, id: string)
    requires TransactionSeq(obs, id) == []
    ensures IdsOf(TransactionSeq(obs, id)) == []
  {
  }

  // ----------------------------------------------------------------- groups

  /** The groups in `done` have been decided, and nothing else. */
  ghost predicate GroupsDecided(selected: seq<Observation>, reported: seq<SelectionConflict>, obs: set<Observation>,
                                conflicts: set<StoredConflict>, done: set<GroupingKey>) {
    && Distinct(selected) && Distinct(reported)
    && (forall o :: o in selected <==>
          o.fact.body.ClosedPnlBody? && o.fact.body.row.groupingKey in done && Chosen(o, obs, conflicts))
    && (forall c :: c in reported <==> c.RevisionConflict? && c.groupingKey in done && Reported(c, obs, conflicts))
  }

  lemma DecideWinner(selected: seq<Observation>, reported: seq<SelectionConflict>, obs: set<Observation>,
                     conflicts: set<StoredConflict>, done: set<GroupingKey>, key: GroupingKey, o: Observation)
    requires GroupsDecided(selected, reported, obs, conflicts, done) && key !in done
    requires Winner(o, GroupRows(obs, key))
    ensures GroupsDecided(selected + [o], reported, obs, conflicts, done + {key})
  {
    hide Winner, OrderedWithin, Distinct, Clean;
    WinnerIsRow(o, GroupRows(obs, key));
    assert Chosen(o, obs, conflicts);
    forall q | InGroup(q, key) && Chosen(q, obs, conflicts)
      ensures q == o
    {
      WinnerIsUnique(q, o, GroupRows(obs, key));
    }
    assert HasWinner(GroupRows(obs, key));
    DistinctAppend(selected, o);
    assert forall q :: q in selected + [o] <==> q in selected || q == o;
  }

  lemma DecideRevisionConflict(selected: seq<Observation>, reported: seq<SelectionConflict>, obs: set<Observation>,
                               conflicts: set<StoredConflict>, done: set<GroupingKey>, key: GroupingKey)
    requires GroupsDecided(selected, reported, obs, conflicts, done) && key !in done
    requires GroupRows(obs, key) != {} && !HasWinner(GroupRows(obs, key))
    ensures GroupsDecided(selected, reported + [RevisionConflict(key, Ids(GroupRows(obs, key)))], obs, conflicts, done + {key})
  {
    hide Winner, OrderedWithin, Distinct, Clean;
    var c := RevisionConflict(key, Ids(GroupRows(obs, key)));
    assert Reported(c, obs, conflicts);
    assert c !in reported;
    DistinctAppend(reported, c);
    assert forall d :: d in reported + [c] <==> d in reported || d == c;
  }

  lemma GroupFacts(obs: seq<Observation>, key: GroupingKey)
    ensures Elements(GroupSeq(obs, key)) == GroupRows(Elements(obs), key)
    ensures forall o :: o in GroupSeq(obs, key) ==> InGroup(o, key)
    ensures DistinctIds(obs) ==> DistinctIds(GroupSeq(obs, key)) && IdsOf(GroupSeq(obs, key)) == Ids(GroupRows(Elements(obs), key))
  {
    FilterMembers(obs, "", key);
    hide TransactionSeq, GroupSeq, OtherSeq, OrderedWithin, IdsOf;
    assert Elements(GroupSeq(obs, key)) == GroupRows(Elements(obs), key);
    if DistinctIds(obs) {
      FiltersKeepDistinct(obs, "", key);
      SortedIds(GroupSeq(obs, key));
    }
  }

  /** The loop over the closed-PnL groups. */
  method SelectGroups(obs: seq<Observation>, ghost conflicts: seq<StoredConflict>, byGroup: map<GroupingKey, seq<Observation>>)
    returns (selected: seq<Observation>, reported: seq<SelectionConflict>)
    requires GroupsIndexed(byGroup, obs)
    ensures DistinctIds(obs) ==> GroupsDecided(selected, reported, Elements(obs), Elements(conflicts), byGroup.Keys)
  {
    selected, reported := [], [];
    hide GroupsDecided, GroupSeq, Winner, HasWinner, OrderedWithin, IdsOf, DistinctIds, InGroup;
    NoGroupDecided(Elements(obs), Elements(conflicts));
    var keys := byGroup.Keys;
    assert byGroup.Keys - keys == {};
    while keys != {}
      invariant keys <= byGroup.Keys
      invariant DistinctIds(obs) ==> GroupsDecided(selected, reported, Elements(obs), Elements(conflicts), byGroup.Keys - keys)
      decreases keys
    {
      var key :| key in keys;
      var rows := byGroup[key];
      ghost var done := byGroup.Keys - keys;
      GroupFacts(obs, key);
      assert rows[0] in Elements(rows);
      ghost var selected0, reported0 := selected, reported;
      var winner, conflict := SelectClosedPnlGroup(rows, key);
      if winner.Some? {
        selected := selected + [winner.value];
        if DistinctIds(obs) {
          DecideWinner(selected0, reported0, Elements(obs), Elements(conflicts), done, key, winner.value);
        }
      }
      if conflict.Some? {
        reported := reported + [conflict.value];
        if DistinctIds(obs) {
          DecideRevisionConflict(selected0, reported0, Elements(obs), Elements(conflicts), done, key);
        }
      }
      keys := keys - {key};
      assert byGroup.Keys - keys == done + {key};
    }
    assert byGroup.Keys - keys == byGroup.Keys;
  }

  lemma NoGroupDecided(obs: set<Observation>, conflicts: set<StoredConflict>)
    ensures GroupsDecided([], [], obs, conflicts, {})
  {
  }

  // -------------------------------------------------------------- selection

  predicate ValidInput(scope: Scope, observations: seq<Observation>, conflicts: seq<StoredConflict>) {
    && (forall o :: o in observations ==> ValidObservation(o) && o.scope == scope)
    && (forall c :: c in conflicts ==> WellFormedConflict(c))
  }

  /**
   * Canonical selection.  It fails exactly on malformed input; with distinct observation IDs its
   * lists are the selection of the sets of observations and conflicts, whatever their order.
   */
  method SelectCanonicalHistoryEvidence(scope: Scope, observations: seq<Observation>, conflicts: seq<StoredConflict>)
    returns (r: Result<Evidence, SelectionError>)
    ensures r.Ok? <==> ValidInput(scope, observations, conflicts)
    ensures r.Ok? && DistinctIds(observations) ==> IsSelection(Elements(observations), Elements(conflicts), r.value)
    ensures r.Ok? && DistinctIds(observations) ==> ListsNewest(r.value, Elements(observations)) && ListsInOrder(r.value)
  {
    hide ListsNewest, ListsInOrder;
    for i := 0 to |observations|
      invariant forall k :: 0 <= k < i ==> ValidObservation(observations[k]) && observations[k].scope == scope
    {
      if !ValidObservation(observations[i]) || observations[i].scope != scope {
        assert observations[i] in observations;
        return Err(InvalidValue);
      }
    }
    var indexed := IndexConflicts(conflicts);
    if indexed.Err? {
      return Err(InvalidValue);
    }
    var others, byId, byGroup := GroupObservations(observations);
    var rows, identityConflicts := SelectTransactions(observations, conflicts, byId, indexed.value);
    var winners, revisionConflicts := SelectGroups(observations, conflicts, byGroup);
    var selected := SortBy(others + rows + winners, ObservationLe);
    var reported := SortBy(identityConflicts + revisionConflicts, ConflictLe);
    if DistinctIds(observations) {
      SelectionComplete(observations, conflicts, rows, identityConflicts, winners, revisionConflicts,
                        byId.Keys + indexed.value.Keys, byGroup.Keys);
      SelectionListsNewest(Elements(observations), Elements(conflicts), Evidence(selected, reported));
    }
    r := Ok(Evidence(selected, reported));
  }

  lemma SelectionComplete(obs: seq<Observation>, conflicts: seq<StoredConflict>, rows: seq<Observation>,
                          identityConflicts: seq<SelectionConflict>, winners: seq<Observation>,
                          revisionConflicts: seq<SelectionConflict>, ids: set<string>, keys: set<GroupingKey>)
    requires DistinctIds(obs) && forall c :: c in conflicts ==> WellFormedConflict(c)
    requires Decided(rows, identityConflicts, Elements(obs), Elements(conflicts), ids)
    requires GroupsDecided(winners, revisionConflicts, Elements(obs), Elements(conflicts), keys)
    requires forall id :: id in ids <==> TransactionSeq(obs, id) != [] || ConflictIdSeq(conflicts, id) != []
    requires forall key :: key in keys <==> GroupSeq(obs, key) != []
    ensures IsSelection(Elements(obs), Elements(conflicts),
              Evidence(SortBy(OtherSeq(obs) + rows + winners, ObservationLe), SortBy(identityConflicts + revisionConflicts, ConflictLe)))
  {
    var selected, reported := OtherSeq(obs) + rows + winners, identityConflicts + revisionConflicts;
    hide TransactionSeq, GroupSeq, OtherSeq, ConflictIdSeq, StrLe, KeysLe, ConflictText;
    AllChosen(obs, conflicts, rows, identityConflicts, winners, revisionConflicts, ids, keys);
    AllReported(obs, conflicts, rows, identityConflicts, winners, revisionConflicts, ids, keys);
    hide *;
    ObservationsAreOrdered();
    ConflictsAreOrdered();
    SortedSelection(selected, reported, Elements(obs), Elements(conflicts));
  }

  lemma ConflictsAreOrdered()
    ensures TotalPreorder(ConflictLe)
  {
    StrLeIsTotalOrder();
    hide StrLe, ConflictText;
  }

  lemma SortedSelection(selected: seq<Observation>, reported: seq<SelectionConflict>, obs: set<Observation>, conflicts: set<StoredConflict>)
    requires TotalPreorder(ObservationLe) && TotalPreorder(ConflictLe)
    requires Distinct(selected) && Distinct(reported)
    requires forall o :: o in selected <==> Chosen(o, obs, conflicts)
    requires forall c :: c in reported <==> Reported(c, obs, conflicts)
    ensures IsSelection(obs, conflicts, Evidence(SortBy(selected, ObservationLe), SortBy(reported, ConflictLe)))
  {
    hide TotalPreorder, Chosen, Reported, ObservationLe, ConflictLe, SortBy, SortedBy, Distinct;
    SortByIsSorted(selected, ObservationLe);
    SortByIsSorted(reported, ConflictLe);
    DistinctByMultiset(selected, SortBy(selected, ObservationLe));
    DistinctByMultiset(reported, SortBy(reported, ConflictLe));
  }

  lemma AllChosen(obs: seq<Observation>, conflicts: seq<StoredConflict>, rows: seq<Observation>,
                  identityConflicts: seq<SelectionConflict>, winners: seq<Observation>,
                  revisionConflicts: seq<SelectionConflict>, ids: set<string>, keys: set<GroupingKey>)
    requires DistinctIds(obs)
    requires Decided(rows, identityConflicts, Elements(obs), Elements(conflicts), ids)
    requires GroupsDecided(winners, revisionConflicts, Elements(obs), Elements(conflicts), keys)
    requires forall id :: id in ids <==> TransactionSeq(obs, id) != [] || ConflictIdSeq(conflicts, id) != []
    requires forall key :: key in keys <==> GroupSeq(obs, key) != []
    ensures Distinct(OtherSeq(obs) + rows + winners)
    ensures forall o :: o in OtherSeq(obs) + rows + winners <==> Chosen(o, Elements(obs), Elements(conflicts))
  {
    var others := OtherSeq(obs);
    FilterMembers(obs, "", GroupingKey("", "", "", ""));
    FiltersKeepDistinct(obs, "", GroupingKey("", "", "", ""));
    DistinctIdsIdentify(others);
    hide Distinct, DistinctIds, TransactionSeq, GroupSeq, OtherSeq, ConflictIdSeq, Clean, MostRecent, Winner, OrderedWithin, HasWinner;
    DistinctConcat(others, rows);
    DistinctConcat(others + rows, winners);
    forall o
      ensures o in others + rows + winners <==> Chosen(o, Elements(obs), Elements(conflicts))
    {
      if Chosen(o, Elements(obs), Elements(conflicts)) {
        if o.fact.body.TransactionBody? {
          FilterMembers(obs, o.fact.body.transaction.transactionId, GroupingKey("", "", "", ""));
        }
        if o.fact.body.ClosedPnlBody? {
          FilterMembers(obs, "", o.fact.body.row.groupingKey);
        }
      }
    }
  }

  lemma AllReported(obs: seq<Observation>, conflicts: seq<StoredConflict>, rows: seq<Observation>,
                    identityConflicts: seq<SelectionConflict>, winners: seq<Observation>,
                    revisionConflicts: seq<SelectionConflict>, ids: set<string>, keys: set<GroupingKey>)
    requires forall c :: c in conflicts ==> WellFormedConflict(c)
    requires Decided(rows, identityConflicts, Elements(obs), Elements(conflicts), ids)
    requires GroupsDecided(winners, revisionConflicts, Elements(obs), Elements(conflicts), keys)
    requires forall id :: id in ids <==> TransactionSeq(obs, id) != [] || ConflictIdSeq(conflicts, id) != []
    requires forall key :: key in keys <==> GroupSeq(obs, key) != []
    ensures Distinct(identityConflicts + revisionConflicts)
    ensures forall c :: c in identityConflicts + revisionConflicts <==> Reported(c, Elements(obs), Elements(conflicts))
  {
    hide Distinct, DistinctIds, TransactionSeq, GroupSeq, OtherSeq, ConflictIdSeq, MostRecent, Winner, OrderedWithin, HasWinner, SortedSet, SameContent;
    DistinctConcat(identityConflicts, revisionConflicts);
    forall c | Reported(c, Elements(obs), Elements(conflicts))
      ensures c in identityConflicts + revisionConflicts
    {
      match c
      case TransactionConflict(id, _, _) =>
        TransactionFacts(obs, conflicts, id);
        assert id in ids;
      case RevisionConflict(key, _) =>
        GroupFacts(obs, key);
        assert key in keys;
    }
  }
}
