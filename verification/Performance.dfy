/** Realized-PnL roll-ups (makeGroups, src/application/history-accounting-performance.ts). */
module Performance {
  import opened Common
  import opened Orders
  import opened Sums
  import opened Decimals
  import opened DecimalText
  import opened Normalization
  import Selection

  datatype Lineage = Lineage(kind: string, sourceId: string)

  /** An owned closed-PnL row; its amount is reported only in a verified currency. */
  datatype OwnedRow = OwnedRow(
    observationId: string, source: Lineage, symbol: string, utcDay: string, currency: Option<string>,
    reportedClosedPnl: Option<string>, feesComplete: bool)

  datatype Level = AccountDay | RunDay | RunSymbolDay

  datatype Key = Key(source: Option<Lineage>, symbol: Option<string>, utcDay: string)

  datatype GroupStatus = Complete | Partial | Unknown

  datatype GroupReason = MixedCurrency | CurrencyUnverified | ClosedPnlUnknown | ComponentsIncomplete

  datatype Group = Group(
    level: Level, key: Key, currency: Option<string>, amount: Option<string>, status: GroupStatus,
    reasonCodes: set<GroupReason>, observationIds: seq<string>)

  datatype GroupError = MalformedAmount

  function KeyOf(row: OwnedRow, level: Level): Key {
    Key(if level == AccountDay then None else Some(row.source), if level == RunSymbolDay then Some(row.symbol) else None, row.utcDay)
  }

  /** The rows of one key, in input order. */
  function RowsOf(rows: seq<OwnedRow>, level: Level, key: Key): seq<OwnedRow> {
    if rows == [] then []
    else
      var last := rows[|rows| - 1];
      RowsOf(rows[..|rows| - 1], level, key) + if KeyOf(last, level) == key then [last] else []
  }

  function Currencies(rows: seq<OwnedRow>): set<Option<string>> {
    set r | r in rows :: r.currency
  }

  /** The currency all rows are in, if there is one. */
  function OnlyCurrency(rows: seq<OwnedRow>): Option<string> {
    if rows != [] && forall r :: r in rows ==> r.currency == rows[0].currency then rows[0].currency else None
  }

  predicate AllAmountsKnown(rows: seq<OwnedRow>) {
    forall r :: r in rows ==> r.reportedClosedPnl.Some?
  }

  predicate Readable(rows: seq<OwnedRow>) {
    forall r :: r in rows ==> r.reportedClosedPnl.Some? && ParseDecimal(r.reportedClosedPnl.value).Ok?
  }

  /** An amount is summed up in one verified currency, all are stated, and one of them is no decimal. */
  predicate Malformed(rows: seq<OwnedRow>) {
    OnlyCurrency(rows).Some? && AllAmountsKnown(rows) && !Readable(rows)
  }

  function ReportedAmount(r: OwnedRow): Normal {
    if r.reportedClosedPnl.None? then ZERO
    else match ParseAmount(r.reportedClosedPnl.value) case None => ZERO case Some(d) => d
  }

  function Amounts(rows: seq<OwnedRow>): seq<Normal> {
    seq(|rows|, i requires 0 <= i < |rows| => ReportedAmount(rows[i]))
  }

  function Reasons(rows: seq<OwnedRow>): set<GroupReason> {
    (if |Currencies(rows)| > 1 then {MixedCurrency} else {})
    + (if None in Currencies(rows) then {CurrencyUnverified} else {})
    + (if AllAmountsKnown(rows) then {} else {ClosedPnlUnknown})
    + (if exists r :: r in rows && !r.feesComplete then {ComponentsIncomplete} else {})
  }

  function ObservationIds(rows: seq<OwnedRow>): seq<string> {
    SortBy(seq(|rows|, i requires 0 <= i < |rows| => rows[i].observationId), StrLe)
  }

  /** The group of some rows: an amount only when all are known in one verified currency. */
  function Summary(level: Level, key: Key, rows: seq<OwnedRow>): Result<Group, GroupError> {
    var currency := OnlyCurrency(rows);
    var known := currency.Some? && AllAmountsKnown(rows);
    if known && !Readable(rows) then Err(MalformedAmount)
    else
      Ok(Group(
        level, key, currency, if known then Some(ToDecimalString(Total(Amounts(rows)))) else None,
        if !known then Unknown else if Reasons(rows) != {} then Partial else Complete,
        Reasons(rows), ObservationIds(rows)))
  }

  predicate GroupLe(a: Group, b: Group) {
    Selection.KeysLe(SortKey(a), SortKey(b))
  }

  function SortKey(g: Group): seq<string> {
    [g.key.utcDay,
     match g.key.source case None => "" case Some(s) => s.kind,
     match g.key.source case None => "" case Some(s) => s.sourceId,
     match g.key.symbol case None => "" case Some(s) => s]
  }

  lemma GroupsAreOrdered()
    ensures TotalPreorder(GroupLe)
  {
    hide Selection.KeysLe;
    forall a, b
      ensures GroupLe(a, b) || GroupLe(b, a)
    {
      Selection.KeysLeTotal(SortKey(a), SortKey(b));
    }
    forall a, b, c | GroupLe(a, b) && GroupLe(b, c)
      ensures GroupLe(a, c)
    {
      Selection.KeysLeTransitive(SortKey(a), SortKey(b), SortKey(c));
    }
  }

  // ---------------------------------------------------------------- grouping

  /** One group for every key that occurs, summing up exactly the rows of the key. */
  ghost predicate IsGrouping(groups: seq<Group>, rows: seq<OwnedRow>, level: Level) {
    && (forall i, j :: 0 <= i < j < |groups| ==> groups[i].key != groups[j].key)
    && (forall g :: g in groups ==> RowsOf(rows, level, g.key) != [] && Summary(level, g.key, RowsOf(rows, level, g.key)) == Ok(g))
    && (forall r :: r in rows ==> exists g :: g in groups && g.key == KeyOf(r, level))
  }

  lemma {:induction false} RowsOfMembers(rows: seq<OwnedRow>, level: Level, key: Key)
    ensures forall r :: r in RowsOf(rows, level, key) <==> r in rows && KeyOf(r, level) == key
  {
    if rows != [] {
      var init, last := rows[..|rows| - 1], rows[|rows| - 1];
      RowsOfMembers(init, level, key);
      assert forall r :: r in rows <==> r in init || r == last;
    }
  }

  lemma RowsOfStep(rows: seq<OwnedRow>, i: nat, level: Level)
    requires i < |rows|
    ensures forall key :: RowsOf(rows[..i + 1], level, key) == RowsOf(rows[..i], level, key) + if KeyOf(rows[i], level) == key then [rows[i]] else []
  {
    assert rows[..i + 1][..i] == rows[..i] && rows[..i + 1][i] == rows[i];
  }

  /** The rows of every key seen, and the keys in the order they were first seen. */
  method Collect(rows: seq<OwnedRow>, level: Level) returns (groups: map<Key, seq<OwnedRow>>, keys: seq<Key>)
    ensures Distinct(keys) && forall key :: key in keys <==> RowsOf(rows, level, key) != []
    ensures forall key :: key in keys ==> key in groups && groups[key] == RowsOf(rows, level, key)
  {
    groups, keys := map[], [];
    hide RowsOf, KeyOf;
    assert forall key :: RowsOf(rows[..0], level, key) == [] by { NoRows(rows[..0], level); }
    for i := 0 to |rows|
      invariant Distinct(keys) && forall key :: key in keys <==> RowsOf(rows[..i], level, key) != []
      invariant forall key :: key in groups <==> key in keys
      invariant forall key :: key in groups ==> groups[key] == RowsOf(rows[..i], level, key)
    {
      RowsOfStep(rows, i, level);
      var key := KeyOf(rows[i], level);
      if key in groups {
        groups := groups[key := groups[key] + [rows[i]]];
      } else {
        groups := groups[key := [rows[i]]];
        keys := keys + [key];
      }
    }
    assert rows[..|rows|] == rows;
  }

  lemma NoRows(rows: seq<OwnedRow>, level: Level)
    requires rows == []
    ensures forall key :: RowsOf(rows, level, key) == []
  {
  }

  /** The groups of one level, in order; it fails exactly on a group that sums up an amount that is no decimal. */
  method MakeGroups(rows: seq<OwnedRow>, level: Level) returns (r: Result<seq<Group>, GroupError>)
    ensures r.Ok? ==> IsGrouping(r.value, rows, level) && SortedBy(r.value, GroupLe)
    ensures r.Err? <==> exists row :: row in rows && Malformed(RowsOf(rows, level, KeyOf(row, level)))
    ensures (forall row :: row in rows && row.reportedClosedPnl.Some? ==> ParseDecimal(row.reportedClosedPnl.value).Ok?) ==> r.Ok?
  {
    var collected, keys := Collect(rows, level);
    var output: seq<Group> := [];
    hide RowsOf, Summary, GroupLe, ParseDecimal;
    for i := 0 to |keys|
      invariant |output| == i && forall k :: 0 <= k < i ==> output[k].key == keys[k]
      invariant forall k :: 0 <= k < i ==> Summary(level, keys[k], RowsOf(rows, level, keys[k])) == Ok(output[k])
    {
      assert keys[i] in keys;
      var group := Summary(level, keys[i], collected[keys[i]]);
      SummaryKey(level, keys[i], collected[keys[i]]);
      if group.Err? {
        Unreadable(rows, level, keys[i]);
        return Err(group.error);
      }
      output := output + [group.value];
    }
    GroupsCover(output, keys, rows, level);
    NoneMalformed(rows, level, output);
    hide Malformed;
    GroupsAreOrdered();
    SortByIsSorted(output, GroupLe);
    Regrouped(output, SortBy(output, GroupLe), rows, level);
    r := Ok(SortBy(output, GroupLe));
  }

  lemma SummaryKey(level: Level, key: Key, rows: seq<OwnedRow>)
    ensures Summary(level, key, rows).Ok? ==> Summary(level, key, rows).value.key == key
  {
  }

  lemma Unreadable(rows: seq<OwnedRow>, level: Level, key: Key)
    requires Summary(level, key, RowsOf(rows, level, key)).Err?
    ensures exists row :: row in rows && row.reportedClosedPnl.Some? && ParseDecimal(row.reportedClosedPnl.value).Err?
    ensures exists row :: row in rows && Malformed(RowsOf(rows, level, KeyOf(row, level)))
  {
    RowsOfMembers(rows, level, key);
    hide RowsOf, ParseDecimal;
    assert RowsOf(rows, level, key)[0] in RowsOf(rows, level, key);
  }

  lemma NoneMalformed(rows: seq<OwnedRow>, level: Level, groups: seq<Group>)
    requires IsGrouping(groups, rows, level)
    ensures forall row :: row in rows ==> !Malformed(RowsOf(rows, level, KeyOf(row, level)))
  {
    hide RowsOf, Readable, OnlyCurrency, AllAmountsKnown, Reasons;
    forall row | row in rows
      ensures !Malformed(RowsOf(rows, level, KeyOf(row, level)))
    {
      var g :| g in groups && g.key == KeyOf(row, level);
      assert Summary(level, g.key, RowsOf(rows, level, g.key)) == Ok(g);
    }
  }

  lemma GroupsCover(groups: seq<Group>, keys: seq<Key>, rows: seq<OwnedRow>, level: Level)
    requires |groups| == |keys| && Distinct(keys) && forall key :: key in keys <==> RowsOf(rows, level, key) != []
    requires forall k :: 0 <= k < |keys| ==> groups[k].key == keys[k] && Summary(level, keys[k], RowsOf(rows, level, keys[k])) == Ok(groups[k])
    ensures IsGrouping(groups, rows, level)
  {
    hide RowsOf, Summary;
    forall g | g in groups
      ensures RowsOf(rows, level, g.key) != [] && Summary(level, g.key, RowsOf(rows, level, g.key)) == Ok(g)
    {
      var k :| 0 <= k < |groups| && groups[k] == g;
      assert keys[k] in keys;
    }
    forall r | r in rows
      ensures exists g :: g in groups && g.key == KeyOf(r, level)
    {
      RowsOfMembers(rows, level, KeyOf(r, level));
      assert r in RowsOf(rows, level, KeyOf(r, level));
      var k :| 0 <= k < |keys| && keys[k] == KeyOf(r, level);
      assert groups[k] in groups;
    }
  }

  /** Reordering the groups of a grouping is a grouping. */
  lemma Regrouped(groups: seq<Group>, sorted: seq<Group>, rows: seq<OwnedRow>, level: Level)
    requires IsGrouping(groups, rows, level) && multiset(groups) == multiset(sorted)
    ensures IsGrouping(sorted, rows, level)
  {
    hide RowsOf, Summary;
    SameMultiset(groups, sorted);
    DistinctByMultiset(groups, sorted);
    forall i, j | 0 <= i < j < |sorted|
      ensures sorted[i].key != sorted[j].key
    {
      assert sorted[i] in groups && sorted[j] in groups && sorted[i] != sorted[j];
    }
  }

  // ------------------------------------------------------------ conservation

  ghost function AmountOf(r: OwnedRow): real {
    if Stated(r.reportedClosedPnl) then Amount(r.reportedClosedPnl) else 0.0
  }

  ghost function RowAmounts(rows: seq<OwnedRow>): seq<real> {
    seq(|rows|, i requires 0 <= i < |rows| => AmountOf(rows[i]))
  }

  ghost function GroupAmounts(groups: seq<Group>): seq<real> {
    seq(|groups|, i requires 0 <= i < |groups| => if Stated(groups[i].amount) then Amount(groups[i].amount) else 0.0)
  }

  ghost function KeySums(rows: seq<OwnedRow>, level: Level, keys: seq<Key>): seq<real> {
    seq(|keys|, i requires 0 <= i < |keys| => Sum(RowAmounts(RowsOf(rows, level, keys[i]))))
  }

  lemma {:induction false} SumBump(s: seq<real>, p: nat, v: real)
    requires p < |s|
    ensures Sum(s[p := s[p] + v]) == Sum(s) + v
  {
    var t := s[p := s[p] + v];
    var init := s[..|s| - 1];
    if p == |s| - 1 {
      assert t[..|t| - 1] == init;
    } else {
      SumBump(init, p, v);
      assert t[..|t| - 1] == init[p := init[p] + v];
    }
  }

  /** Adding up the rows key by key is adding up the rows. */
  lemma {:induction false} KeyByKey(rows: seq<OwnedRow>, level: Level, keys: seq<Key>)
    requires Distinct(keys) && forall r :: r in rows ==> KeyOf(r, level) in keys
    ensures Sum(KeySums(rows, level, keys)) == Sum(RowAmounts(rows))
  {
    if rows == [] {
      NothingToSum(keys, level);
    } else {
      hide KeySums, RowAmounts, Sum, Distinct, KeyOf;
      var init, last := rows[..|rows| - 1], rows[|rows| - 1];
      assert last in rows && rows == init + [last];
      KeyByKey(init, level, keys);
      var p :| 0 <= p < |keys| && keys[p] == KeyOf(last, level);
      OneMoreRow(init, last, level, keys, p);
      NextAmount(init, last);
    }
  }

  lemma OneMoreRow(init: seq<OwnedRow>, last: OwnedRow, level: Level, keys: seq<Key>, p: nat)
    requires Distinct(keys) && p < |keys| && keys[p] == KeyOf(last, level)
    ensures Sum(KeySums(init + [last], level, keys)) == Sum(KeySums(init, level, keys)) + AmountOf(last)
  {
    hide *;
    NextRow(init, last, level, keys, p);
    SumBump(KeySums(init, level, keys), p, AmountOf(last));
  }

  lemma NextAmount(init: seq<OwnedRow>, last: OwnedRow)
    ensures Sum(RowAmounts(init + [last])) == Sum(RowAmounts(init)) + AmountOf(last)
  {
    hide AmountOf;
    assert RowAmounts(init + [last])[..|init|] == RowAmounts(init);
  }

  lemma {:induction false} NothingToSum(keys: seq<Key>, level: Level)
    ensures Sum(KeySums([], level, keys)) == 0.0
  {
    if keys != [] {
      NothingToSum(keys[..|keys| - 1], level);
      assert KeySums([], level, keys)[..|keys| - 1] == KeySums([], level, keys[..|keys| - 1]);
    }
  }

  lemma NextRow(init: seq<OwnedRow>, last: OwnedRow, level: Level, keys: seq<Key>, p: nat)
    requires Distinct(keys) && p < |keys| && keys[p] == KeyOf(last, level)
    ensures |KeySums(init, level, keys)| == |keys|
    ensures var before := KeySums(init, level, keys);
            KeySums(init + [last], level, keys) == before[p := before[p] + AmountOf(last)]
  {
    hide KeyOf, AmountOf;
    var all := init + [last];
    assert all[..|init|] == init;
    forall i | 0 <= i < |keys|
      ensures Sum(RowAmounts(RowsOf(all, level, keys[i])))
              == Sum(RowAmounts(RowsOf(init, level, keys[i]))) + if i == p then AmountOf(last) else 0.0
    {
      var before := RowsOf(init, level, keys[i]);
      assert RowsOf(all, level, keys[i]) == if i == p then before + [last] else before;
      assert RowAmounts(before + [last])[..|before|] == RowAmounts(before);
    }
  }

  /** What a group with a known amount says: one currency, every row stated in it, and their sum. */
  lemma KnownGroup(level: Level, key: Key, rows: seq<OwnedRow>)
    requires Summary(level, key, rows).Ok?
    ensures var g := Summary(level, key, rows).value;
      && g.key == key && g.level == level
      && (g.amount.Some? <==> g.currency.Some? && AllAmountsKnown(rows))
      && (g.currency.Some? <==> rows != [] && exists c :: forall r :: r in rows ==> r.currency == Some(c))
      && (g.currency.Some? ==> forall r :: r in rows ==> r.currency == g.currency)
      && (g.amount.Some? ==> Readable(rows) && Stated(g.amount) && Amount(g.amount) == Sum(RowAmounts(rows)))
  {
    var g := Summary(level, key, rows).value;
    assert rows != [] ==> rows[0] in rows;
    if g.amount.Some? {
      TotalIsSum(Amounts(rows));
      RoundTrip(Total(Amounts(rows)));
      hide Total, Sum, Value, ToDecimalString, ParseDecimal;
      forall i | 0 <= i < |rows|
        ensures Values(Amounts(rows))[i] == RowAmounts(rows)[i]
      {
        assert rows[i] in rows;
      }
      assert Values(Amounts(rows)) == RowAmounts(rows);
    }
  }

  /** When a group gives a reason. */
  ghost predicate GroupRaises(r: GroupReason, rows: seq<OwnedRow>) {
    match r
    case MixedCurrency => exists a, b :: a in rows && b in rows && a.currency != b.currency
    case CurrencyUnverified => exists a :: a in rows && a.currency.None?
    case ClosedPnlUnknown => exists a :: a in rows && a.reportedClosedPnl.None?
    case ComponentsIncomplete => exists a :: a in rows && !a.feesComplete
  }

  lemma CurrenciesMixed(rows: seq<OwnedRow>)
    ensures |Currencies(rows)| > 1 <==> exists a, b :: a in rows && b in rows && a.currency != b.currency
  {
    var all := Currencies(rows);
    if a, b :| a in rows && b in rows && a.currency != b.currency {
      assert {a.currency, b.currency} <= all;
      SubsetSize({a.currency, b.currency}, all);
    } else if rows != [] {
      assert rows[0] in rows;
      assert all == {rows[0].currency};
    } else {
      assert all == {};
    }
  }

  lemma SubsetSize<T>(a: set<T>, b: set<T>)
    requires a <= b
    ensures |a| <= |b|
  {
    assert b == a + (b - a);
  }

  /**
   * Each reason of a group, and its status: without a known amount it is unknown, and with one only
   * incomplete fees make it partial, so nothing else is wrong with a group whose amount is known.
   */
  lemma GroupMeaning(level: Level, key: Key, rows: seq<OwnedRow>)
    requires rows != [] && Summary(level, key, rows).Ok?
    ensures var g := Summary(level, key, rows).value;
      && (forall r :: r in g.reasonCodes <==> GroupRaises(r, rows))
      && (g.status == Unknown <==> g.amount.None?)
      && (g.status == Complete <==> g.reasonCodes == {})
      && (g.status == Partial <==> g.amount.Some? && ComponentsIncomplete in g.reasonCodes)
      && (g.amount.Some? ==> g.reasonCodes <= {ComponentsIncomplete})
      && (g.amount.None? ==> exists r :: r in {MixedCurrency, CurrencyUnverified, ClosedPnlUnknown} && r in g.reasonCodes)
      && SortedBy(g.observationIds, StrLe) && (forall id :: id in g.observationIds <==> exists a :: a in rows && a.observationId == id)
  {
    CurrenciesMixed(rows);
    assert rows[0] in rows;
    var g := Summary(level, key, rows).value;
    var ids := seq(|rows|, i requires 0 <= i < |rows| => rows[i].observationId);
    StrLeIsTotalOrder();
    SortByIsSorted(ids, StrLe);
    forall id
      ensures id in ids <==> exists a :: a in rows && a.observationId == id
    {
      if a :| a in rows && a.observationId == id {
        var i :| 0 <= i < |rows| && rows[i] == a;
        assert ids[i] == id;
      }
    }
    assert g.amount.None? ==> MixedCurrency in g.reasonCodes || CurrencyUnverified in g.reasonCodes || ClosedPnlUnknown in g.reasonCodes;
    assert forall r :: r in g.reasonCodes ==> r in {MixedCurrency, CurrencyUnverified, ClosedPnlUnknown, ComponentsIncomplete};
  }

  /** The groups of one day. */
  ghost function OfDay(groups: seq<Group>, day: string): seq<Group> {
    if groups == [] then []
    else
      var last := groups[|groups| - 1];
      OfDay(groups[..|groups| - 1], day) + if last.key.utcDay == day then [last] else []
  }

  lemma {:induction false} OfDayFacts(groups: seq<Group>, day: string)
    requires forall i, j :: 0 <= i < j < |groups| ==> groups[i].key != groups[j].key
    ensures var s := OfDay(groups, day);
      && (forall g :: g in s <==> g in groups && g.key.utcDay == day)
      && (forall i, j :: 0 <= i < j < |s| ==> s[i].key != s[j].key)
  {
    if groups != [] {
      var init, last := groups[..|groups| - 1], groups[|groups| - 1];
      OfDayFacts(init, day);
      assert forall g :: g in groups <==> g in init || g == last;
      assert forall g :: g in init ==> g.key != last.key;
    }
  }

  lemma {:induction false} WithinDay(rows: seq<OwnedRow>, level: Level, key: Key)
    ensures RowsOf(RowsOf(rows, AccountDay, Key(None, None, key.utcDay)), level, key) == RowsOf(rows, level, key)
  {
    if rows != [] {
      var init, last := rows[..|rows| - 1], rows[|rows| - 1];
      WithinDay(init, level, key);
      var ofDay := RowsOf(init, AccountDay, Key(None, None, key.utcDay));
      assert (ofDay + [last])[..|ofDay|] == ofDay;
      assert RowsOf(rows, AccountDay, Key(None, None, key.utcDay)) == if last.utcDay == key.utcDay then ofDay + [last] else ofDay;
    }
  }

  /**
   * When the amount of an account day is known, so is every amount of that day at the level, in
   * the same currency, and they add up to it.
   */
  lemma RollUp(rows: seq<OwnedRow>, level: Level, groups: seq<Group>, accountDays: seq<Group>, account: Group)
    requires IsGrouping(groups, rows, level) && IsGrouping(accountDays, rows, AccountDay)
    requires account in accountDays && account.amount.Some?
    ensures var ofDay := OfDay(groups, account.key.utcDay);
      && (forall g :: g in ofDay ==> g.amount.Some? && g.currency == account.currency)
      && Stated(account.amount) && Sum(GroupAmounts(ofDay)) == Amount(account.amount)
  {
    var rowsOfDay := RowsOf(rows, AccountDay, account.key);
    var ofDay := OfDay(groups, account.key.utcDay);
    AccountKey(rows, account.key);
    KnownGroup(AccountDay, account.key, rowsOfDay);
    OfDayFacts(groups, account.key.utcDay);
    var keys := seq(|ofDay|, i requires 0 <= i < |ofDay| => ofDay[i].key);
    KeysCoverDay(rows, level, groups, ofDay, keys, account.key);
    hide Summary, RowsOf, Sum, Amount, Stated, KeyOf, OfDay, OnlyCurrency, RowAmounts, GroupAmounts, KeySums;
    forall g | g in ofDay
      ensures g.amount.Some? && g.currency == account.currency && Stated(g.amount)
      ensures Amount(g.amount) == Sum(RowAmounts(RowsOf(rowsOfDay, level, g.key)))
    {
      GroupOfKnownDay(rows, level, g, account);
    }
    GroupByGroup(ofDay, rowsOfDay, level, keys);
    KeyByKey(rowsOfDay, level, keys);
  }

  lemma GroupByGroup(groups: seq<Group>, rows: seq<OwnedRow>, level: Level, keys: seq<Key>)
    requires |keys| == |groups| && forall i :: 0 <= i < |groups| ==> keys[i] == groups[i].key
    requires forall g :: g in groups ==> Stated(g.amount) && Amount(g.amount) == Sum(RowAmounts(RowsOf(rows, level, g.key)))
    ensures GroupAmounts(groups) == KeySums(rows, level, keys)
  {
    hide Stated, Amount, Sum, RowAmounts, RowsOf;
    assert forall i :: 0 <= i < |groups| ==> groups[i] in groups;
  }

  lemma AccountKey(rows: seq<OwnedRow>, key: Key)
    requires RowsOf(rows, AccountDay, key) != []
    ensures key == Key(None, None, key.utcDay)
  {
    RowsOfMembers(rows, AccountDay, key);
    assert RowsOf(rows, AccountDay, key)[0] in RowsOf(rows, AccountDay, key);
  }

  lemma GroupOfKnownDay(rows: seq<OwnedRow>, level: Level, g: Group, account: Group)
    requires RowsOf(rows, level, g.key) != [] && Summary(level, g.key, RowsOf(rows, level, g.key)) == Ok(g)
    requires account.key == Key(None, None, g.key.utcDay)
    requires Summary(AccountDay, account.key, RowsOf(rows, AccountDay, account.key)) == Ok(account) && account.amount.Some?
    ensures g.amount.Some? && g.currency == account.currency && Stated(g.amount)
    ensures Amount(g.amount) == Sum(RowAmounts(RowsOf(RowsOf(rows, AccountDay, account.key), level, g.key)))
  {
    var rowsOfDay, own := RowsOf(rows, AccountDay, account.key), RowsOf(rows, level, g.key);
    WithinDay(rows, level, g.key);
    RowsOfMembers(rowsOfDay, level, g.key);
    KnownGroup(AccountDay, account.key, rowsOfDay);
    KnownGroup(level, g.key, own);
    hide Summary, RowsOf, Sum, Amount, Stated, KeyOf, OnlyCurrency, RowAmounts;
    assert own[0] in own;
  }

  lemma KeysCoverDay(rows: seq<OwnedRow>, level: Level, groups: seq<Group>, ofDay: seq<Group>, keys: seq<Key>, accountKey: Key)
    requires IsGrouping(groups, rows, level)
    requires |keys| == |ofDay| && forall i :: 0 <= i < |ofDay| ==> keys[i] == ofDay[i].key
    requires forall i, j :: 0 <= i < j < |ofDay| ==> ofDay[i].key != ofDay[j].key
    requires forall g :: g in ofDay <==> g in groups && g.key.utcDay == accountKey.utcDay
    ensures Distinct(keys)
    ensures forall r :: r in RowsOf(rows, AccountDay, accountKey) ==> KeyOf(r, level) in keys
  {
    RowsOfMembers(rows, AccountDay, accountKey);
    hide RowsOf, Summary;
    forall r | r in RowsOf(rows, AccountDay, accountKey)
      ensures KeyOf(r, level) in keys
    {
      var g :| g in groups && g.key == KeyOf(r, level);
      assert g in ofDay;
      var i :| 0 <= i < |ofDay| && ofDay[i] == g;
      assert keys[i] == g.key;
    }
  }
}
