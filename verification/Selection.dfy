/**
 * Canonical selection of history evidence (src/application/history-accounting-normalization.ts):
 * one row for every transaction and every closed-PnL group, or a conflict instead.
 */
module Selection {
  import opened Common
  import opened Orders
  import opened Coverage
  import opened History
  import opened Canonical

  datatype SelectionConflict =
    | TransactionConflict(transactionId: string, observationIds: seq<string>, conflictIds: seq<string>)
    | RevisionConflict(groupingKey: GroupingKey, observationIds: seq<string>)

  datatype Evidence = Evidence(observations: seq<Observation>, conflicts: seq<SelectionConflict>)

  datatype SelectionError = InvalidValue

  // ------------------------------------------------------------ comparators

  /** Newest collection first, then by ID. */
  predicate RecencyLe(a: Observation, b: Observation) {
    StrLt(b.collectedAt, a.collectedAt) || (a.collectedAt == b.collectedAt && StrLe(a.observationId, b.observationId))
  }

  function RevisionText(o: Observation): string {
    match o.revisionTime case None => "" case Some(t) => t.text
  }

  function SourceName(s: Source): string {
    match s
    case OrderHistory => "order-history"
    case Executions => "executions"
    case ClosedPnl => "closed-pnl"
    case TransactionLog => "transaction-log"
  }

  function OrderKey(o: Observation): seq<string> {
    [SourceName(o.source), o.eventTime.text, o.eventIdentity, RevisionText(o), o.contentHash, o.observationId]
  }

  /** Field by field, each compared only when the ones before are equal. */
  predicate KeysLe(a: seq<string>, b: seq<string>) {
    a == [] || (b != [] && (StrLt(a[0], b[0]) || (a[0] == b[0] && KeysLe(a[1..], b[1..]))))
  }

  predicate ObservationLe(a: Observation, b: Observation) {
    KeysLe(OrderKey(a), OrderKey(b))
  }

  lemma {:induction false} KeysLeTotal(a: seq<string>, b: seq<string>)
    ensures KeysLe(a, b) || KeysLe(b, a)
    ensures KeysLe(a, b) && KeysLe(b, a) <==> a == b
  {
    if a != [] && b != [] {
      hide StrLe;
      KeysLeTotal(a[1..], b[1..]);
      StrLeTotal(a[0], b[0]);
      assert a == [a[0]] + a[1..] && b == [b[0]] + b[1..];
    }
  }

  lemma {:induction false} KeysLeTransitive(a: seq<string>, b: seq<string>, c: seq<string>)
    requires KeysLe(a, b) && KeysLe(b, c)
    ensures KeysLe(a, c)
  {
    if a != [] {
      hide StrLe;
      StrLeTotal(a[0], b[0]);
      StrLeTotal(b[0], c[0]);
      if StrLe(a[0], b[0]) && StrLe(b[0], c[0]) {
        StrLeTransitive(a[0], b[0], c[0]);
        StrLeTotal(a[0], c[0]);
      }
      if a[0] == b[0] == c[0] {
        KeysLeTransitive(a[1..], b[1..], c[1..]);
      }
    }
  }

  lemma ObservationsAreOrdered()
    ensures TotalPreorder(ObservationLe)
    ensures forall a, b :: ObservationLe(a, b) && ObservationLe(b, a) ==> a.observationId == b.observationId
  {
    hide KeysLe;
    forall a, b
      ensures ObservationLe(a, b) || ObservationLe(b, a)
      ensures ObservationLe(a, b) && ObservationLe(b, a) ==> a.observationId == b.observationId
    {
      KeysLeTotal(OrderKey(a), OrderKey(b));
      assert OrderKey(a) == OrderKey(b) ==> OrderKey(a)[5] == OrderKey(b)[5];
    }
    forall a, b, c | ObservationLe(a, b) && ObservationLe(b, c)
      ensures ObservationLe(a, c)
    {
      KeysLeTransitive(OrderKey(a), OrderKey(b), OrderKey(c));
    }
  }

  lemma RecencyIsOrdered()
    ensures TotalPreorder(RecencyLe)
    ensures forall a, b :: RecencyLe(a, b) && RecencyLe(b, a) ==> a.observationId == b.observationId
  {
    StrLeIsTotalOrder();
    hide StrLe;
  }

  /** `o` was collected no earlier than `p`, and at one time has the lesser ID. */
  predicate NoOlder(o: Observation, p: Observation) {
    StrLe(p.collectedAt, o.collectedAt) && (p.collectedAt == o.collectedAt ==> StrLe(o.observationId, p.observationId))
  }

  lemma RecencyMeaning(o: Observation, p: Observation)
    ensures RecencyLe(o, p) <==> NoOlder(o, p)
  {
    StrLeTotal(p.collectedAt, o.collectedAt);
    hide StrLe;
  }

  /** `a` comes no later than `b` by source, event time, identity, revision time, content and ID, each deciding where those before are equal. */
  predicate ComesBefore(a: Observation, b: Observation) {
    var (x, y) := (SourceName(a.source), SourceName(b.source));
    if x != y then StrLe(x, y)
    else if a.eventTime.text != b.eventTime.text then StrLe(a.eventTime.text, b.eventTime.text)
    else if a.eventIdentity != b.eventIdentity then StrLe(a.eventIdentity, b.eventIdentity)
    else if RevisionText(a) != RevisionText(b) then StrLe(RevisionText(a), RevisionText(b))
    else if a.contentHash != b.contentHash then StrLe(a.contentHash, b.contentHash)
    else StrLe(a.observationId, b.observationId)
  }

  lemma KeysStep(a: seq<string>, b: seq<string>, i: nat)
    requires i < |a| && i < |b|
    ensures KeysLe(a[i..], b[i..]) <==> if a[i] != b[i] then StrLe(a[i], b[i]) else KeysLe(a[i + 1..], b[i + 1..])
  {
    assert a[i..][1..] == a[i + 1..] && b[i..][1..] == b[i + 1..];
    hide StrLe;
  }

  lemma ObservationOrderMeaning(a: Observation, b: Observation)
    ensures ObservationLe(a, b) <==> ComesBefore(a, b)
  {
    var x, y := OrderKey(a), OrderKey(b);
    assert x[0..] == x && y[0..] == y && x[6..] == [] && y[6..] == [];
    KeysStep(x, y, 0);
    KeysStep(x, y, 1);
    KeysStep(x, y, 2);
    KeysStep(x, y, 3);
    KeysStep(x, y, 4);
    KeysStep(x, y, 5);
    assert KeysLe(x[6..], y[6..]);
    StrLeTotal(a.observationId, b.observationId);
    hide KeysLe, StrLe, RevisionText, SourceName;
  }

  // ---------------------------------------------------- what is to be chosen

  /** The rows of one transaction ID. */
  ghost function TransactionRows(obs: set<Observation>, id: string): set<Observation> {
    set o | o in obs && IsTransaction(o, id)
  }

  ghost function GroupRows(obs: set<Observation>, key: GroupingKey): set<Observation> {
    set o | o in obs && InGroup(o, key)
  }

  /** The conflicts stored against one transaction ID. */
  ghost function StoredAgainst(conflicts: set<StoredConflict>, id: string): set<StoredConflict> {
    set c | c in conflicts && c.source == TransactionLog && c.eventIdentity == "transaction:" + id
  }

  ghost predicate OneContent(rows: set<Observation>) {
    forall a, b :: a in rows && b in rows ==> a.contentHash == b.contentHash
  }

  ghost predicate Clean(obs: set<Observation>, conflicts: set<StoredConflict>, id: string) {
    OneContent(TransactionRows(obs, id)) && StoredAgainst(conflicts, id) == {}
  }

  ghost predicate MostRecent(o: Observation, rows: set<Observation>) {
    o in rows && forall p :: p in rows ==> RecencyLe(o, p)
  }

  /** The most recent row among those of its own content. */
  ghost predicate Representative(o: Observation, rows: set<Observation>) {
    o in rows && forall p :: p in rows && p.contentHash == o.contentHash ==> RecencyLe(o, p)
  }

  ghost predicate LaterRevision(o: Observation, p: Observation) {
    o.revisionTime.Some? && p.revisionTime.Some? && StrLt(p.revisionTime.value.text, o.revisionTime.value.text)
  }

  /** The group's revision: its only content, or the content revised strictly last. */
  ghost predicate Winner(o: Observation, rows: set<Observation>) {
    && Representative(o, rows)
    && forall p :: Representative(p, rows) ==> p == o || LaterRevision(o, p)
  }

  ghost predicate HasWinner(rows: set<Observation>) {
    exists o :: Winner(o, rows)
  }

  /** The rows that selection keeps. */
  ghost predicate Chosen(o: Observation, obs: set<Observation>, conflicts: set<StoredConflict>) {
    && o in obs
    && match o.fact.body
       case TransactionBody(t) =>
         Clean(obs, conflicts, t.transactionId) && MostRecent(o, TransactionRows(obs, t.transactionId))
       case ClosedPnlBody(row) => Winner(o, GroupRows(obs, row.groupingKey))
       case _ => true
  }

  ghost function Ids(rows: set<Observation>): seq<string> {
    OrderedWithin(set o | o in rows :: o.observationId)
  }

  ghost function ConflictIds(conflicts: set<StoredConflict>): seq<string> {
    OrderedWithin(set c | c in conflicts :: c.conflictId)
  }

  /** The conflicts that selection reports. */
  ghost predicate Reported(c: SelectionConflict, obs: set<Observation>, conflicts: set<StoredConflict>) {
    match c
    case TransactionConflict(id, observationIds, conflictIds) =>
      && !Clean(obs, conflicts, id)
      && observationIds == Ids(TransactionRows(obs, id))
      && conflictIds == ConflictIds(StoredAgainst(conflicts, id))
    case RevisionConflict(key, observationIds) =>
      && GroupRows(obs, key) != {} && !HasWinner(GroupRows(obs, key))
      && observationIds == Ids(GroupRows(obs, key))
  }

  function KeyJson(key: GroupingKey): Json {
    Array([Text(key.category), Text(key.symbol), Text(key.orderId), Text(key.createdTime)])
  }

  function KeyText(key: GroupingKey): string {
    CanonicalDecidesMeaning(KeyJson(key), KeyJson(key));
    CanonicalValue(KeyJson(key)).value
  }

  function ConflictText(c: SelectionConflict): string {
    match c
    case TransactionConflict(id, _, _) => "transaction:" + id
    case RevisionConflict(key, _) => "closed-pnl:" + KeyText(key)
  }

  predicate ConflictLe(a: SelectionConflict, b: SelectionConflict) {
    StrLe(ConflictText(a), ConflictText(b))
  }

  /** `e` lists the chosen rows and the reported conflicts, each once and in order. */
  ghost predicate IsSelection(obs: set<Observation>, conflicts: set<StoredConflict>, e: Evidence) {
    && Distinct(e.observations) && SortedBy(e.observations, ObservationLe)
    && (forall o :: o in e.observations <==> Chosen(o, obs, conflicts))
    && Distinct(e.conflicts) && SortedBy(e.conflicts, ConflictLe)
    && (forall c :: c in e.conflicts <==> Reported(c, obs, conflicts))
  }

  /** The row was collected last among those of its content. */
  ghost predicate NewestOfContent(o: Observation, rows: set<Observation>) {
    o in rows && forall p :: p in rows && p.contentHash == o.contentHash ==> NoOlder(o, p)
  }

  /**
   * Of a transaction, the row collected last; of a group, the row collected last of its content,
   * revised strictly after the newest row of any other content.
   */
  ghost predicate IsNewestRow(o: Observation, obs: set<Observation>) {
    match o.fact.body
    case TransactionBody(t) => forall p :: p in TransactionRows(obs, t.transactionId) ==> NoOlder(o, p)
    case ClosedPnlBody(row) =>
      && NewestOfContent(o, GroupRows(obs, row.groupingKey))
      && forall p :: NewestOfContent(p, GroupRows(obs, row.groupingKey)) ==> p == o || LaterRevision(o, p)
    case _ => true
  }

  ghost predicate ListsNewest(e: Evidence, obs: set<Observation>) {
    forall o :: o in e.observations ==> IsNewestRow(o, obs)
  }

  ghost predicate ListsInOrder(e: Evidence) {
    forall i, j :: 0 <= i < j < |e.observations| ==> ComesBefore(e.observations[i], e.observations[j])
  }

  lemma RepresentativeIsNewest(o: Observation, rows: set<Observation>)
    ensures Representative(o, rows) <==> NewestOfContent(o, rows)
  {
    forall p
      ensures RecencyLe(o, p) <==> NoOlder(o, p)
    {
      RecencyMeaning(o, p);
    }
    hide RecencyLe, NoOlder;
  }

  lemma SelectionListsNewest(obs: set<Observation>, conflicts: set<StoredConflict>, e: Evidence)
    requires IsSelection(obs, conflicts, e)
    ensures ListsNewest(e, obs) && ListsInOrder(e)
  {
    forall a, b
      ensures RecencyLe(a, b) <==> NoOlder(a, b)
      ensures ObservationLe(a, b) <==> ComesBefore(a, b)
    {
      RecencyMeaning(a, b);
      ObservationOrderMeaning(a, b);
    }
    forall o, rows
      ensures Representative(o, rows) <==> NewestOfContent(o, rows)
    {
      RepresentativeIsNewest(o, rows);
    }
    hide RecencyLe, NoOlder, ObservationLe, ComesBefore, Representative, NewestOfContent, TransactionRows, GroupRows, Clean, Reported, ConflictLe,
      LaterRevision;
    forall o | o in e.observations
      ensures IsNewestRow(o, obs)
    {
      assert Chosen(o, obs, conflicts);
    }
  }

  // ------------------------------------------------------------ uniqueness

  lemma KeyTextIsInjective(a: GroupingKey, b: GroupingKey)
    requires KeyText(a) == KeyText(b)
    ensures a == b
  {
    hide CanonicalValue;
    var x, y := KeyJson(a), KeyJson(b);
    CanonicalDecidesMeaning(x, y);
    var p, q := MeaningOf(x), MeaningOf(y);
    assert p.items[0] == q.items[0] && p.items[1] == q.items[1] && p.items[2] == q.items[2] && p.items[3] == q.items[3];
  }

  /** Reported conflicts of one identity are one conflict. */
  lemma ConflictTextDecides(a: SelectionConflict, b: SelectionConflict, obs: set<Observation>, conflicts: set<StoredConflict>)
    requires Reported(a, obs, conflicts) && Reported(b, obs, conflicts) && ConflictText(a) == ConflictText(b)
    ensures a == b
  {
    hide KeyText, Clean, HasWinner, OrderedWithin;
    var x, y := ConflictText(a), ConflictText(b);
    assert x[0] == y[0];
    if a.TransactionConflict? {
      assert x[12..] == a.transactionId && y[12..] == b.transactionId;
    } else {
      assert x[11..] == KeyText(a.groupingKey) && y[11..] == KeyText(b.groupingKey);
      KeyTextIsInjective(a.groupingKey, b.groupingKey);
    }
  }

  /**
   * The selection is determined by the sets of observations and conflicts: any two
   * selections of them are equal, lists, order and all.
   */
  lemma SelectionIsUnique(obs: set<Observation>, conflicts: set<StoredConflict>, a: Evidence, b: Evidence)
    requires IdsIdentify(obs) && IsSelection(obs, conflicts, a) && IsSelection(obs, conflicts, b)
    ensures a == b
  {
    hide Reported, Chosen, ConflictText, ObservationLe, SortedBy, Distinct;
    ObservationsAreOrdered();
    DistinctSameElements(a.observations, b.observations);
    forall x, y | x in multiset(a.observations) && y in multiset(a.observations) && ObservationLe(x, y) && ObservationLe(y, x)
      ensures x == y
    {
      assert x in a.observations && y in a.observations;
      ChosenIsObserved(x, obs, conflicts);
      ChosenIsObserved(y, obs, conflicts);
    }
    SortedIsUnique(a.observations, b.observations, ObservationLe);
    StrLeIsTotalOrder();
    DistinctSameElements(a.conflicts, b.conflicts);
    forall x, y | x in multiset(a.conflicts) && y in multiset(a.conflicts) && ConflictLe(x, y) && ConflictLe(y, x)
      ensures x == y
    {
      assert x in a.conflicts && y in a.conflicts;
      ConflictTextDecides(x, y, obs, conflicts);
    }
    SortedIsUnique(a.conflicts, b.conflicts, ConflictLe);
  }

  lemma ChosenIsObserved(o: Observation, obs: set<Observation>, conflicts: set<StoredConflict>)
    requires Chosen(o, obs, conflicts)
    ensures o in obs
  {
  }

  lemma DistinctIdsIdentify(obs: seq<Observation>)
    requires DistinctIds(obs)
    ensures IdsIdentify(Elements(obs)) && Distinct(obs)
  {
  }

  /** Reordering the observations and the stored conflicts changes nothing. */
  lemma PermutationInvariance(obs: seq<Observation>, obs': seq<Observation>,
                              conflicts: seq<StoredConflict>, conflicts': seq<StoredConflict>, a: Evidence, b: Evidence)
    requires DistinctIds(obs) && multiset(obs) == multiset(obs') && multiset(conflicts) == multiset(conflicts')
    requires IsSelection(Elements(obs), Elements(conflicts), a)
    requires IsSelection(Elements(obs'), Elements(conflicts'), b)
    ensures a == b
  {
    hide IsSelection;
    SameMultiset(obs, obs');
    SameMultiset(conflicts, conflicts');
    assert Elements(obs) == Elements(obs') && Elements(conflicts) == Elements(conflicts');
    DistinctIdsIdentify(obs);
    SelectionIsUnique(Elements(obs), Elements(conflicts), a, b);
  }

  // ------------------------------------------------------------- existence

  lemma {:induction false} MostRecentExists(rows: set<Observation>) returns (o: Observation)
    requires rows != {}
    ensures MostRecent(o, rows)
  {
    hide RecencyLe;
    RecencyIsOrdered();
    o :| o in rows;
    var rest := rows - {o};
    assert forall p :: p in rows ==> p == o || p in rest;
    if rest != {} {
      var q := MostRecentExists(rest);
      if RecencyLe(q, o) {
        o := q;
      }
    }
  }

  lemma MostRecentIsUnique(a: Observation, b: Observation, rows: set<Observation>)
    requires IdsIdentify(rows) && MostRecent(a, rows) && MostRecent(b, rows)
    ensures a == b
  {
    RecencyIsOrdered();
    hide RecencyLe;
  }

  lemma WinnerIsUnique(a: Observation, b: Observation, rows: set<Observation>)
    requires Winner(a, rows) && Winner(b, rows)
    ensures a == b
  {
    hide Representative;
    if a != b {
      StrLeTotal(a.revisionTime.value.text, b.revisionTime.value.text);
    }
  }

  // -------------------------------------------------------------- partition

  /** What selection decides about: a transaction ID or a closed-PnL group. */
  datatype Subject = TransactionSubject(id: string) | GroupSubject(key: GroupingKey)

  ghost predicate RowOf(o: Observation, subject: Subject) {
    match subject
    case TransactionSubject(id) => IsTransaction(o, id)
    case GroupSubject(key) => InGroup(o, key)
  }

  ghost predicate ConflictOf(c: SelectionConflict, subject: Subject) {
    match subject
    case TransactionSubject(id) => c.TransactionConflict? && c.transactionId == id
    case GroupSubject(key) => c.RevisionConflict? && c.groupingKey == key
  }

  /** Some observation or stored conflict is about it. */
  ghost predicate Occurs(subject: Subject, obs: set<Observation>, conflicts: set<StoredConflict>) {
    || (exists o :: o in obs && RowOf(o, subject))
    || (subject.TransactionSubject? && StoredAgainst(conflicts, subject.id) != {})
  }

  ghost predicate OnlyRow(o: Observation, e: Evidence, subject: Subject) {
    o in e.observations && RowOf(o, subject) && forall q :: q in e.observations && RowOf(q, subject) ==> q == o
  }

  ghost predicate OnlyConflict(c: SelectionConflict, e: Evidence, subject: Subject) {
    c in e.conflicts && ConflictOf(c, subject) && forall d :: d in e.conflicts && ConflictOf(d, subject) ==> d == c
  }

  /** Every subject that occurs has exactly one selected row and no conflict, or exactly one conflict and no row. */
  lemma SelectionPartition(obs: set<Observation>, conflicts: set<StoredConflict>, e: Evidence, subject: Subject)
    requires IdsIdentify(obs) && IsSelection(obs, conflicts, e) && Occurs(subject, obs, conflicts)
    ensures || ((exists o :: OnlyRow(o, e, subject)) && forall c :: c in e.conflicts ==> !ConflictOf(c, subject))
            || ((exists c :: OnlyConflict(c, e, subject)) && forall o :: o in e.observations ==> !RowOf(o, subject))
  {
    match subject
    case TransactionSubject(id) =>
      if StoredAgainst(conflicts, id) == {} {
        var o :| o in obs && IsTransaction(o, id);
        assert o in TransactionRows(obs, id);
      }
      TransactionPartition(obs, conflicts, e, id);
    case GroupSubject(key) =>
      var o :| o in obs && InGroup(o, key);
      assert o in GroupRows(obs, key);
      GroupPartition(obs, conflicts, e, key);
  }

  lemma TransactionPartition(obs: set<Observation>, conflicts: set<StoredConflict>, e: Evidence, id: string)
    requires IdsIdentify(obs) && IsSelection(obs, conflicts, e)
    requires TransactionRows(obs, id) != {} || StoredAgainst(conflicts, id) != {}
    ensures var subject := TransactionSubject(id);
            || ((exists o :: OnlyRow(o, e, subject)) && forall c :: c in e.conflicts ==> !ConflictOf(c, subject))
            || ((exists c :: OnlyConflict(c, e, subject)) && forall o :: o in e.observations ==> !RowOf(o, subject))
  {
    hide RecencyLe, SortedBy, Distinct, OrderedWithin, Winner, HasWinner, ConflictLe, ObservationLe;
    var subject, rows := TransactionSubject(id), TransactionRows(obs, id);
    if Clean(obs, conflicts, id) {
      var o := MostRecentExists(rows);
      assert Chosen(o, obs, conflicts);
      forall q | q in e.observations && RowOf(q, subject)
        ensures q == o
      {
        assert Chosen(q, obs, conflicts);
        MostRecentIsUnique(q, o, rows);
      }
      assert OnlyRow(o, e, subject);
    } else {
      var c := TransactionConflict(id, Ids(rows), ConflictIds(StoredAgainst(conflicts, id)));
      assert Reported(c, obs, conflicts);
      assert OnlyConflict(c, e, subject);
      forall q | q in e.observations
        ensures !RowOf(q, subject)
      {
        assert Chosen(q, obs, conflicts);
      }
    }
  }

  lemma GroupPartition(obs: set<Observation>, conflicts: set<StoredConflict>, e: Evidence, key: GroupingKey)
    requires IsSelection(obs, conflicts, e) && GroupRows(obs, key) != {}
    ensures var subject := GroupSubject(key);
            || ((exists o :: OnlyRow(o, e, subject)) && forall c :: c in e.conflicts ==> !ConflictOf(c, subject))
            || ((exists c :: OnlyConflict(c, e, subject)) && forall o :: o in e.observations ==> !RowOf(o, subject))
  {
    hide RecencyLe, SortedBy, Distinct, OrderedWithin, Winner, Clean, ConflictLe, ObservationLe;
    var subject, rows := GroupSubject(key), GroupRows(obs, key);
    if HasWinner(rows) {
      var o :| Winner(o, rows);
      WinnerIsRow(o, rows);
      assert Chosen(o, obs, conflicts);
      forall q | q in e.observations && RowOf(q, subject)
        ensures q == o
      {
        assert Chosen(q, obs, conflicts);
        WinnerIsUnique(q, o, rows);
      }
      assert OnlyRow(o, e, subject);
    } else {
      var c := RevisionConflict(key, Ids(rows));
      assert Reported(c, obs, conflicts);
      assert OnlyConflict(c, e, subject);
      forall q | q in e.observations
        ensures !RowOf(q, subject)
      {
        assert Chosen(q, obs, conflicts);
      }
    }
  }

  lemma WinnerIsRow(o: Observation, rows: set<Observation>)
    requires Winner(o, rows)
    ensures o in rows
  {
  }

  // -------------------------------------------------------------- projection

  /** Any part of a selection, selected again on its own, is kept whole and without conflict. */
  lemma Reselection(obs: set<Observation>, conflicts: set<StoredConflict>, e: Evidence, part: set<Observation>)
    requires IdsIdentify(obs) && IsSelection(obs, conflicts, e)
    requires forall o :: o in part ==> o in e.observations
    ensures forall o :: Chosen(o, part, {}) <==> o in part
    ensures forall c :: !Reported(c, part, {})
  {
    hide SortedBy, Distinct, OrderedWithin, RecencyLe, LaterRevision, IsSelection;
    forall o, p | o in part && p in part && SameSubject(o, p)
      ensures o == p
    {
      OnePerSubject(obs, conflicts, e, o, p);
    }
    forall o | o in part
      ensures Chosen(o, part, {})
    {
      LoneRowIsChosen(part, o);
    }
    forall c
      ensures !Reported(c, part, {})
    {
      NothingToReport(part, c);
    }
  }

  /** Selecting part of a selection again, without stored conflicts, lists that part and reports nothing. */
  lemma ReselectionReportsNothing(obs: set<Observation>, conflicts: set<StoredConflict>, e: Evidence, part: set<Observation>, again: Evidence)
    requires IdsIdentify(obs) && IsSelection(obs, conflicts, e) && IsSelection(part, {}, again)
    requires forall o :: o in part ==> o in e.observations
    ensures again.conflicts == []
    ensures Distinct(again.observations) && forall o :: o in again.observations <==> o in part
  {
    Reselection(obs, conflicts, e, part);
    hide Chosen, Reported, SortedBy, ObservationLe, ConflictLe;
    SomeMember(again.conflicts);
  }

  lemma SomeMember<T>(s: seq<T>)
    ensures s == [] || exists x :: x in s
  {
    if s != [] {
      assert s[0] in s;
    }
  }

  /** Rows of one transaction, or of one closed-PnL group. */
  ghost predicate SameSubject(o: Observation, p: Observation) {
    || (o.fact.body.TransactionBody? && IsTransaction(p, o.fact.body.transaction.transactionId))
    || (o.fact.body.ClosedPnlBody? && InGroup(p, o.fact.body.row.groupingKey))
  }

  lemma OnePerSubject(obs: set<Observation>, conflicts: set<StoredConflict>, e: Evidence, o: Observation, p: Observation)
    requires IdsIdentify(obs) && IsSelection(obs, conflicts, e)
    requires o in e.observations && p in e.observations && SameSubject(o, p)
    ensures o == p
  {
    hide SortedBy, Distinct, OrderedWithin, RecencyLe, Winner, ConflictLe, ObservationLe;
    assert Chosen(o, obs, conflicts) && Chosen(p, obs, conflicts);
    if o.fact.body.TransactionBody? {
      MostRecentIsUnique(o, p, TransactionRows(obs, o.fact.body.transaction.transactionId));
    } else {
      WinnerIsUnique(o, p, GroupRows(obs, o.fact.body.row.groupingKey));
    }
  }

  lemma LoneRowIsChosen(part: set<Observation>, o: Observation)
    requires o in part && forall p :: p in part && SameSubject(o, p) ==> p == o
    ensures Chosen(o, part, {})
  {
    RecencyIsOrdered();
    hide RecencyLe;
    if o.fact.body.TransactionBody? {
      assert forall p :: p in TransactionRows(part, o.fact.body.transaction.transactionId) ==> p == o;
    }
    if o.fact.body.ClosedPnlBody? {
      assert forall p :: p in GroupRows(part, o.fact.body.row.groupingKey) ==> p == o;
    }
  }

  lemma NothingToReport(part: set<Observation>, c: SelectionConflict)
    requires forall o, p :: o in part && p in part && SameSubject(o, p) ==> o == p
    ensures !Reported(c, part, {})
  {
    hide OrderedWithin, RecencyLe;
    match c
    case TransactionConflict(id, _, _) =>
      assert forall o, p :: o in TransactionRows(part, id) && p in TransactionRows(part, id) ==> SameSubject(o, p) && o == p;
    case RevisionConflict(key, _) =>
      var rows := GroupRows(part, key);
      if rows != {} {
        var o :| o in rows;
        assert forall p :: p in rows ==> SameSubject(o, p) && p == o;
        LoneRowIsChosen(part, o);
        assert Winner(o, rows);
      }
  }
}
