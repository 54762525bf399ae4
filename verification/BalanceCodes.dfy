/**
 * The reason codes of two wallets and the bridges between them (readBalances and projectCurrencies,
 * src/application/history-accounting-epoch.ts), by what the wallets hold and the ledger credits.
 */
module BalanceCodes {
  import opened Common
  import opened Orders
  import opened Decimals
  import opened History
  import opened Normalization
  import opened Bridge
  import opened Matching
  import opened Anchors
  import opened EpochRows
  import opened Epoch

  // ------------------------------------------------------------------ kinds

  ghost predicate PartAt(s: string, part: string, i: int) {
    0 <= i <= |s| && part <= s[i..]
  }

  ghost predicate HasPart(s: string, part: string) {
    exists i :: PartAt(s, part, i)
  }

  lemma {:induction false} ContainsMeaning(s: string, part: string)
    requires part != ""
    ensures Contains(s, part) <==> HasPart(s, part)
  {
    assert s[0..] == s;
    if part <= s {
      assert PartAt(s, part, 0);
    } else if s != "" {
      var rest := s[1..];
      ContainsMeaning(rest, part);
      forall i | 0 <= i <= |rest|
        ensures PartAt(rest, part, i) <==> PartAt(s, part, i + 1)
      {
        assert rest[i..] == s[i + 1..];
      }
      if i :| PartAt(s, part, i) {
        assert i > 0;
        assert PartAt(rest, part, i - 1);
      }
      if i :| PartAt(rest, part, i) {
        assert PartAt(s, part, i + 1);
      }
    }
  }

  ghost predicate IsTransfer(t: Transaction) {
    t.kind in {Some("TRANSFER_IN"), Some("TRANSFER_OUT")}
  }

  /** A transfer, a trade, or settlement or funding, by type or the two type names together. */
  ghost predicate IsClassified(t: Transaction) {
    || IsTransfer(t)
    || t.kind in {Some("TRADE"), Some("TRADE_REBATE"), Some("SETTLEMENT")}
    || HasPart(Text(t.kind) + " " + Text(t.subKind), "FUND")
  }

  lemma KindMeaning(t: Transaction)
    ensures MovementKindOf(t) == TransferMovement <==> IsTransfer(t)
    ensures MovementKindOf(t) == UnknownMovement <==> !IsClassified(t)
  {
    ContainsMeaning(Text(t.kind) + " " + Text(t.subKind), "FUND");
    hide Contains, HasPart;
  }

  // ---------------------------------------------------------------- wallets

  predicate Names(assets: seq<Asset>, i: int, coin: string) {
    0 <= i < |assets| && coin != "" && assets[i].coin == coin
  }

  /** Only asset `i` names the coin, and it states a balance that is not negative. */
  ghost predicate HoldsAt(assets: seq<Asset>, i: int, coin: string) {
    && Names(assets, i, coin) && (forall k :: Names(assets, k, coin) ==> k == i)
    && assets[i].walletBalance.Some? && Value(assets[i].walletBalance.value) >= 0.0
  }

  ghost predicate HoldsCoin(assets: seq<Asset>, coin: string) {
    exists i :: HoldsAt(assets, i, coin)
  }

  ghost function Held(assets: seq<Asset>, coin: string): real
    requires HoldsCoin(assets, coin)
  {
    var i :| HoldsAt(assets, i, coin);
    Value(assets[i].walletBalance.value)
  }

  /** The first asset of its coin. */
  ghost predicate FirstOfCoin(assets: seq<Asset>, i: int) {
    && 0 <= i < |assets| && assets[i].coin != ""
    && forall k :: 0 <= k < i ==> assets[k].coin != assets[i].coin
  }

  ghost predicate IsNothing(amount: Option<Normal>) {
    amount.Some? && Value(amount.value) == 0.0
  }

  ghost predicate NothingOwed(a: Asset) {
    IsNothing(a.bonus) && IsNothing(a.borrowAmount) && IsNothing(a.spotBorrow) && IsNothing(a.accruedInterest)
  }

  /** What one wallet raises, apart from balances it does not state. */
  ghost predicate WalletRaises(r: Reason, assets: seq<Asset>) {
    match r
    case AnchorCaptureInvalid => exists i :: 0 <= i < |assets| && assets[i].coin == ""
    case DuplicateCoinBalance => exists k, i :: 0 <= k < i < |assets| && assets[k].coin == assets[i].coin != ""
    case UnsupportedCurrency => exists i :: 0 <= i < |assets| && assets[i].coin !in {"", "USDT"}
    case UnsupportedBalanceSemantics => exists i :: FirstOfCoin(assets, i) && !NothingOwed(assets[i])
    case _ => false
  }

  lemma KnownMeaning(a: Asset)
    ensures KnownBalance(a).Some? <==> a.walletBalance.Some? && Value(a.walletBalance.value) >= 0.0
    ensures KnownBalance(a).Some? ==> KnownBalance(a) == a.walletBalance
    ensures OnlyOwnCoins(a) <==> NothingOwed(a)
  {
    hide Value;
    if a.walletBalance.Some? { SignOfValue(a.walletBalance.value); }
    if a.bonus.Some? { SignOfValue(a.bonus.value); }
    if a.borrowAmount.Some? { SignOfValue(a.borrowAmount.value); }
    if a.spotBorrow.Some? { SignOfValue(a.spotBorrow.value); }
    if a.accruedInterest.Some? { SignOfValue(a.accruedInterest.value); }
  }

  /** The first asset of the coin of asset `i`. */
  lemma {:induction false} FirstExists(assets: seq<Asset>, i: nat) returns (k: nat)
    requires i < |assets| && assets[i].coin != ""
    ensures k <= i && assets[k].coin == assets[i].coin && FirstOfCoin(assets, k)
    decreases i
  {
    if FirstOfCoin(assets, i) {
      k := i;
    } else {
      var j :| 0 <= j < i && assets[j].coin == assets[i].coin;
      k := FirstExists(assets, j);
    }
  }

  lemma RaisedAt(assets: seq<Asset>, r: Reason)
    ensures r in BalanceReasons(assets) <==>
      || (exists i :: 0 <= i < |assets| && r in AssetReasons(assets, i))
      || (r == MissingCoinBalance && forall i :: 0 <= i < |assets| ==> assets[i].coin != "USDT")
  {
    hide AssetReasons;
  }

  lemma AssetRaises(assets: seq<Asset>, i: nat)
    requires i < |assets|
    ensures AnchorCaptureInvalid in AssetReasons(assets, i) <==> assets[i].coin == ""
    ensures DuplicateCoinBalance in AssetReasons(assets, i) <==> assets[i].coin != "" && !FirstOfCoin(assets, i)
    ensures UnsupportedCurrency in AssetReasons(assets, i) <==> FirstOfCoin(assets, i) && assets[i].coin != "USDT"
    ensures MissingCoinBalance in AssetReasons(assets, i) <==>
      FirstOfCoin(assets, i) && !(assets[i].walletBalance.Some? && Value(assets[i].walletBalance.value) >= 0.0)
    ensures UnsupportedBalanceSemantics in AssetReasons(assets, i) <==>
      FirstOfCoin(assets, i) && !NothingOwed(assets[i])
    ensures AssetReasons(assets, i) <=
      {AnchorCaptureInvalid, DuplicateCoinBalance, UnsupportedCurrency, MissingCoinBalance, UnsupportedBalanceSemantics}
  {
    KnownMeaning(assets[i]);
    hide Value, KnownBalance, OnlyOwnCoins, NothingOwed;
    assert assets[i].coin != "" ==> (FirstOfCoin(assets, i) <==> !SeenBefore(assets, i));
    hide FirstOfCoin, SeenBefore;
  }

  lemma RaisedSomewhere(assets: seq<Asset>, r: Reason) returns (i: nat)
    requires WalletRaises(r, assets)
    ensures i < |assets| && r in AssetReasons(assets, i)
  {
    hide NothingOwed, AssetReasons;
    match r {
      case AnchorCaptureInvalid =>
        i :| 0 <= i < |assets| && assets[i].coin == "";
      case DuplicateCoinBalance =>
        var k;
        k, i :| 0 <= k < i < |assets| && assets[k].coin == assets[i].coin != "";
      case UnsupportedCurrency =>
        i :| 0 <= i < |assets| && assets[i].coin !in {"", "USDT"};
        i := FirstExists(assets, i);
      case UnsupportedBalanceSemantics =>
        i :| FirstOfCoin(assets, i) && !NothingOwed(assets[i]);
    }
    AssetRaises(assets, i);
  }

  lemma AssetRaisesWallet(assets: seq<Asset>, i: nat, r: Reason)
    requires i < |assets| && r in AssetReasons(assets, i) && r != MissingCoinBalance
    ensures WalletRaises(r, assets)
  {
    AssetRaises(assets, i);
    hide NothingOwed, AssetReasons;
    if r == DuplicateCoinBalance {
      var k :| 0 <= k < i && assets[k].coin == assets[i].coin;
    }
  }

  /** Each code of a wallet but MissingCoinBalance, which is decided together with the bridges. */
  lemma WalletReasonsMeaning(assets: seq<Asset>)
    ensures forall r :: r != MissingCoinBalance ==> (r in BalanceReasons(assets) <==> WalletRaises(r, assets))
  {
    forall r | r != MissingCoinBalance
      ensures r in BalanceReasons(assets) <==> WalletRaises(r, assets)
    {
      hide AssetReasons, BalanceReasons, WalletRaises;
      RaisedAt(assets, r);
      if r in BalanceReasons(assets) {
        var i :| 0 <= i < |assets| && r in AssetReasons(assets, i);
        AssetRaisesWallet(assets, i, r);
      } else if WalletRaises(r, assets) {
        var i := RaisedSomewhere(assets, r);
      }
    }
  }

  // ---------------------------------------------------------------- bridges

  lemma HeldMeaning(assets: seq<Asset>, coin: string)
    ensures HoldsCoin(assets, coin) <==> Entry(Balances(assets), coin).Some?
    ensures HoldsCoin(assets, coin) ==> Value(Entry(Balances(assets), coin).value) == Held(assets, coin)
    ensures coin in Balances(assets) <==> exists i :: Names(assets, i, coin)
  {
    IndexedMeaning(assets, coin);
    BalanceMeaning(assets, coin);
    hide Value, BalanceOf, KnownBalance, Balances;
    if coin in Balances(assets) {
      var i :| 0 <= i < |assets| && assets[i].coin == coin;
      assert Names(assets, i, coin);
      KnownMeaning(assets[i]);
      assert coin != "";
      if forall k :: Names(assets, k, coin) ==> k == i {
        forall k | 0 <= k < |assets| && assets[k].coin == coin
          ensures k == i
        {
          assert Names(assets, k, coin);
        }
      }
      assert Entry(Balances(assets), coin).Some? <==> HoldsAt(assets, i, coin);
      assert forall k :: HoldsAt(assets, k, coin) ==> k == i;
    }
  }

  lemma IndexedMeaning(assets: seq<Asset>, coin: string)
    ensures coin in Balances(assets) <==> BalanceOf(assets, coin).Some?
    ensures coin in Balances(assets) ==> Balances(assets)[coin] == BalanceOf(assets, coin).value
  {
    BalanceMeaning(assets, coin);
    hide BalanceOf;
    if BalanceOf(assets, coin).Some? {
      var i :| 0 <= i < |assets| && assets[i].coin == coin;
      assert assets[i] in assets;
    }
  }

  /** A transaction of the ledger that moves the currency and can be read. */
  ghost predicate Moves(o: Observation, currency: string) {
    o.fact.body.TransactionBody? && Readable(o.fact.body.transaction) && o.fact.body.transaction.currency == Some(currency)
  }

  /** What the readable transactions of the ledger state as their changes of the currency, added up. */
  ghost function Credited(ledger: seq<Observation>, currency: string): real {
    if ledger == [] then 0.0
    else
      var last := ledger[|ledger| - 1];
      Credited(ledger[..|ledger| - 1], currency) + if Moves(last, currency) then AmountOr0(last.fact.body.transaction.change) else 0.0
  }

  ghost predicate AllChangesStated(ledger: seq<Observation>, currency: string) {
    forall o :: o in ledger && Moves(o, currency) ==> o.fact.body.transaction.change.Some?
  }

  ghost predicate Transfers(o: Observation, currency: string) {
    Moves(o, currency) && IsTransfer(o.fact.body.transaction)
  }

  /** What the transfers among them state. */
  ghost function Transferred(ledger: seq<Observation>, currency: string): real {
    if ledger == [] then 0.0
    else
      var last := ledger[|ledger| - 1];
      Transferred(ledger[..|ledger| - 1], currency) + if Transfers(last, currency) then AmountOr0(last.fact.body.transaction.change) else 0.0
  }

  ghost predicate AllMovesClassified(ledger: seq<Observation>, currency: string) {
    forall o :: o in ledger && Moves(o, currency) ==> IsClassified(o.fact.body.transaction)
  }

  ghost predicate ValidEntry(o: Observation) {
    ValidObservation(o) && o.fact.body.TransactionBody?
  }

  /** The row of a readable transaction has its currency and the amount of its change. */
  lemma RowFields(o: Observation)
    requires ValidEntry(o)
    ensures NormalizeTransaction(o).Ok? <==> Readable(o.fact.body.transaction)
    ensures NormalizeTransaction(o).Ok? ==>
      var (t, row) := (o.fact.body.transaction, RowFrom(NormalizeTransaction(o).value));
      && row.currency == t.currency
      && (row.change.Some? <==> t.change.Some?)
      && Value(ChangeOf(row)) == AmountOr0(t.change)
      && (row.movementKind == TransferMovement <==> IsTransfer(t))
      && (row.movementKind == UnknownMovement <==> !IsClassified(t))
  {
    NormalizationMeaning(o);
    var t := o.fact.body.transaction;
    if Readable(t) {
      RowFacts(o);
      KindMeaning(t);
      ReadableFields(t);
      FieldMeaning(t.change);
      PrintedMeaning(DecimalField(t.change).value);
      hide Value, Readable, ValidObservation, MovementKindOf, Movement, HasComponents, ExpectedChange, CheckComponents, DecimalField, Printed, Explained,
        ParseAmount, IsTransfer, IsClassified;
      SignOfValue(ZERO);
    }
  }

  lemma NextRow(rows: seq<Row>, row: Row, currency: string)
    ensures RowsIn(rows + [row], currency) == if row.currency == Some(currency) then RowsIn(rows, currency) + [row] else RowsIn(rows, currency)
    ensures Moved(rows + [row]) == Moved(rows) + Value(ChangeOf(row))
    ensures AllKnown(rows + [row]) <==> AllKnown(rows) && row.change.Some?
    ensures currency in RowCurrencies(rows + [row]) <==> currency in RowCurrencies(rows) || row.currency == Some(currency)
  {
    hide Value, ChangeOf;
    var all := rows + [row];
    assert all[..|rows|] == rows;
    assert Values(Changes(all))[..|rows|] == Values(Changes(rows));
    assert forall r :: r in all <==> r in rows || r == row;
  }

  lemma {:induction false} TransfersOfCurrency(ledger: seq<Observation>, currency: string)
    requires forall o :: o in ledger ==> ValidEntry(o)
    ensures AllClassified(RowsIn(RowsFrom(ledger), currency)) <==> AllMovesClassified(ledger, currency)
    ensures Moved(TransfersOf(RowsIn(RowsFrom(ledger), currency))) == Transferred(ledger, currency)
  {
    hide Value, ChangeOf, NormalizeTransaction, RowFrom, AmountOr0, Readable, AllClassified, Moved, RowsIn, ValidObservation, TransfersOf, IsTransfer,
      IsClassified;
    if ledger == [] {
      NoTransfers(currency);
    } else {
      var init, last := ledger[..|ledger| - 1], ledger[|ledger| - 1];
      assert ValidEntry(last);
      TransfersOfCurrency(init, currency);
      RowFields(last);
      hide ValidEntry;
      assert forall o :: o in ledger <==> o in init || o == last;
      var rows := RowsFrom(init);
      if NormalizeTransaction(last).Ok? {
        var row := RowFrom(NormalizeTransaction(last).value);
        NextRow(rows, row, currency);
        NextTransfer(RowsIn(rows, currency), row);
        assert RowsFrom(ledger) == rows + [row];
      } else {
        assert RowsFrom(ledger) == rows;
      }
    }
  }

  lemma NextTransfer(rows: seq<Row>, row: Row)
    ensures AllClassified(rows + [row]) <==> AllClassified(rows) && row.movementKind != UnknownMovement
    ensures Moved(TransfersOf(rows + [row])) == Moved(TransfersOf(rows)) + if row.movementKind == TransferMovement then Value(ChangeOf(row)) else 0.0
  {
    hide Value, ChangeOf, Moved;
    var all, transfers := rows + [row], TransfersOf(rows);
    assert all[..|rows|] == rows;
    assert forall r :: r in all <==> r in rows || r == row;
    assert TransfersOf(all) == if row.movementKind == TransferMovement then transfers + [row] else transfers;
    NextRow(transfers, row, "");
  }

  lemma NoTransfers(currency: string)
    ensures AllClassified(RowsIn(RowsFrom([]), currency)) && Moved(TransfersOf(RowsIn(RowsFrom([]), currency))) == 0.0
  {
  }

  lemma NoRows(currency: string)
    ensures AllKnown(RowsIn(RowsFrom([]), currency)) && Moved(RowsIn(RowsFrom([]), currency)) == 0.0
    ensures currency !in RowCurrencies(RowsFrom([]))
  {
  }

  lemma {:induction false} RowsOfCurrency(ledger: seq<Observation>, currency: string)
    requires forall o :: o in ledger ==> ValidEntry(o)
    ensures AllKnown(RowsIn(RowsFrom(ledger), currency)) <==> AllChangesStated(ledger, currency)
    ensures Moved(RowsIn(RowsFrom(ledger), currency)) == Credited(ledger, currency)
    ensures currency in RowCurrencies(RowsFrom(ledger)) <==> exists o :: o in ledger && Moves(o, currency)
  {
    hide Value, ChangeOf, NormalizeTransaction, RowFrom, AmountOr0, Readable, AllKnown, Moved, RowCurrencies, RowsIn, ValidObservation;
    if ledger == [] {
      NoRows(currency);
    } else {
      var init, last := ledger[..|ledger| - 1], ledger[|ledger| - 1];
      assert ValidEntry(last);
      RowsOfCurrency(init, currency);
      RowFields(last);
      hide ValidEntry;
      assert forall o :: o in ledger <==> o in init || o == last;
      var rows := RowsFrom(init);
      if NormalizeTransaction(last).Ok? {
        var row := RowFrom(NormalizeTransaction(last).value);
        NextRow(rows, row, currency);
        NextRow(RowsIn(rows, currency), row, currency);
        assert RowsFrom(ledger) == rows + [row];
      } else {
        assert RowsFrom(ledger) == rows;
      }
    }
  }

  /** Both balances and the change are reported, and the change does not lead from one balance to the other. */
  ghost predicate Drifts(b: CurrencyBridge) {
    && Stated(b.openingBalance) && Stated(b.closingBalance) && Stated(b.transactionChange)
    && Amount(b.closingBalance) != Amount(b.openingBalance) + Amount(b.transactionChange)
  }

  /** The codes of one bridge, by what it reports. */
  lemma BridgeReasonsMeaning(currency: string, opening: Option<Normal>, closing: Option<Normal>, rows: seq<Row>)
    ensures var (b, reasons) := (BridgeRow(currency, opening, closing, rows), BridgeReasons(BridgeRow(currency, opening, closing, rows)));
      && (MissingCoinBalance in reasons <==> b.openingBalance.None?)
      && (UnexplainedDrift in reasons <==> Drifts(b))
      && (UnsupportedCurrency in reasons <==> b.currency != "USDT")
      && reasons <= {MissingCoinBalance, UnexplainedDrift, UnsupportedCurrency}
  {
    BridgeMeaning(currency, opening, closing, rows);
    hide BridgeRow, Amount, Value, Moved, AllKnown, AllClassified, TransfersOf;
  }

  /** Named by a wallet or moved by a transaction of the ledger. */
  ghost predicate IsCurrency(input: EpochInput, ledger: seq<Observation>, currency: string) {
    || (exists i :: Names(input.opening.assets, i, currency))
    || (exists i :: Names(input.closing.assets, i, currency))
    || (exists o :: o in ledger && Moves(o, currency))
  }

  /** The bridge reports what both wallets hold of its currency and what the ledger credits it with. */
  ghost predicate ReportsCurrency(b: CurrencyBridge, input: EpochInput, ledger: seq<Observation>) {
    var (opening, closing) := (input.opening.assets, input.closing.assets);
    && (b.openingBalance.Some? <==> HoldsCoin(opening, b.currency) && HoldsCoin(closing, b.currency))
    && (b.closingBalance.Some? <==> b.openingBalance.Some?)
    && (b.openingBalance.Some? ==>
          && Stated(b.openingBalance) && Amount(b.openingBalance) == Held(opening, b.currency)
          && Stated(b.closingBalance) && Amount(b.closingBalance) == Held(closing, b.currency))
    && (b.transactionChange.Some? <==> AllChangesStated(ledger, b.currency))
    && (b.transactionChange.Some? ==> Stated(b.transactionChange) && Amount(b.transactionChange) == Credited(ledger, b.currency))
    && (b.transferChange.Some? <==> AllChangesStated(ledger, b.currency) && AllMovesClassified(ledger, b.currency))
    && (b.transferChange.Some? ==> Stated(b.transferChange) && Amount(b.transferChange) == Transferred(ledger, b.currency))
    && (b.unexplainedDrift.Some? <==> b.openingBalance.Some? && b.transactionChange.Some?)
    && (b.unexplainedDrift.Some? ==>
          && Stated(b.unexplainedDrift)
          && Amount(b.unexplainedDrift) == Held(closing, b.currency) - Held(opening, b.currency) - Credited(ledger, b.currency))
  }

  ghost function BridgeOf(input: EpochInput, ledger: seq<Observation>, currency: string): CurrencyBridge {
    BridgeRow(currency, Entry(Balances(input.opening.assets), currency), Entry(Balances(input.closing.assets), currency),
              RowsIn(RowsFrom(ledger), currency))
  }

  lemma BridgeReports(input: EpochInput, ledger: seq<Observation>, currency: string)
    requires forall o :: o in ledger ==> ValidEntry(o)
    ensures BridgeOf(input, ledger, currency).currency == currency
    ensures ReportsCurrency(BridgeOf(input, ledger, currency), input, ledger)
  {
    var opening, closing := Entry(Balances(input.opening.assets), currency), Entry(Balances(input.closing.assets), currency);
    BridgeMeaning(currency, opening, closing, RowsIn(RowsFrom(ledger), currency));
    HeldMeaning(input.opening.assets, currency);
    HeldMeaning(input.closing.assets, currency);
    RowsOfCurrency(ledger, currency);
    TransfersOfCurrency(ledger, currency);
    hide Transferred, AllMovesClassified;
    hide BridgeRow, Amount, Value, Moved, AllKnown, AllClassified, TransfersOf, HoldsCoin, Held, Balances, Entry, RowsIn, RowsFrom, Credited, AllChangesStated,
      ValidEntry, Stated;
  }

  lemma BridgedCurrencies(input: EpochInput, ledger: seq<Observation>)
    requires forall o :: o in ledger ==> ValidEntry(o)
    ensures forall c :: c in Balances(input.opening.assets).Keys + Balances(input.closing.assets).Keys + RowCurrencies(RowsFrom(ledger))
                        <==> IsCurrency(input, ledger, c)
  {
    forall c
      ensures c in Balances(input.opening.assets).Keys + Balances(input.closing.assets).Keys + RowCurrencies(RowsFrom(ledger))
              <==> IsCurrency(input, ledger, c)
    {
      HeldMeaning(input.opening.assets, c);
      HeldMeaning(input.closing.assets, c);
      RowsOfCurrency(ledger, c);
      hide Balances, RowCurrencies, RowsFrom, Names, Moves, ValidEntry, HoldsCoin, Held, Credited, AllChangesStated, RowsIn, AllKnown, Moved;
    }
  }

  /** There is a bridge for exactly the currencies that occur. */
  lemma BridgesReport(input: EpochInput, ledger: seq<Observation>, bridges: seq<CurrencyBridge>)
    requires forall o :: o in ledger ==> ValidEntry(o)
    requires bridges == AllBridges(Balances(input.opening.assets), Balances(input.closing.assets), RowsFrom(ledger))
    ensures forall c :: IsCurrency(input, ledger, c) <==> BridgeOf(input, ledger, c) in bridges
    ensures forall b :: b in bridges ==> b == BridgeOf(input, ledger, b.currency) && IsCurrency(input, ledger, b.currency)
  {
    var rows := RowsFrom(ledger);
    var keys := Balances(input.opening.assets).Keys + Balances(input.closing.assets).Keys + RowCurrencies(rows);
    BridgedCurrencies(input, ledger);
    var currencies := OrderedWithin(keys);
    hide Balances, RowsFrom, RowCurrencies, IsCurrency, ValidEntry, BridgeRow, RowsIn, Entry, OrderedWithin;
    assert |bridges| == |currencies| && forall i :: 0 <= i < |bridges| ==> bridges[i] == BridgeOf(input, ledger, currencies[i]);
    forall c
      ensures BridgeOf(input, ledger, c).currency == c
    {
      BridgeIsOf(input, ledger, c);
    }
    hide BridgeOf, AllBridges;
    forall c
      ensures IsCurrency(input, ledger, c) <==> BridgeOf(input, ledger, c) in bridges
    {
      if BridgeOf(input, ledger, c) in bridges {
        var i :| 0 <= i < |bridges| && bridges[i] == BridgeOf(input, ledger, c);
        assert currencies[i] == c;
        assert c in currencies;
      }
      if IsCurrency(input, ledger, c) {
        assert c in currencies;
        var i :| 0 <= i < |currencies| && currencies[i] == c;
        assert bridges[i] == BridgeOf(input, ledger, c);
      }
    }
    forall b | b in bridges
      ensures b == BridgeOf(input, ledger, b.currency) && IsCurrency(input, ledger, b.currency)
    {
      var i :| 0 <= i < |bridges| && bridges[i] == b;
      assert currencies[i] in currencies;
    }
  }

  lemma BridgeIsOf(input: EpochInput, ledger: seq<Observation>, currency: string)
    ensures BridgeOf(input, ledger, currency).currency == currency
  {
  }

  // --------------------------------------------------------------- balances

  ghost predicate BridgeRaises(r: Reason, b: CurrencyBridge) {
    match r
    case MissingCoinBalance => b.openingBalance.None?
    case UnexplainedDrift => Drifts(b)
    case UnsupportedCurrency => b.currency != "USDT"
    case _ => false
  }

  ghost predicate IsListed(bridges: seq<CurrencyBridge>, currency: string) {
    exists b :: b in bridges && b.currency == currency
  }

  /** What the bridges reported raise; that there is none for USDT as well. */
  ghost predicate BridgesRaise(r: Reason, bridges: seq<CurrencyBridge>) {
    (r == MissingCoinBalance && !IsListed(bridges, "USDT")) || exists b :: b in bridges && BridgeRaises(r, b)
  }

  /** The same by what both wallets hold and the transactions of the ledger state. */
  ghost predicate BalancesRaise(r: Reason, input: EpochInput, ledger: seq<Observation>) {
    match r
    case MissingCoinBalance => exists c :: (c == "USDT" || IsCurrency(input, ledger, c)) && !HeldByBoth(input, c)
    case UnexplainedDrift => exists c :: HeldByBoth(input, c) && AllChangesStated(ledger, c) && !Adds(input, ledger, c)
    case UnsupportedCurrency => exists c :: IsCurrency(input, ledger, c) && c != "USDT"
    case _ => false
  }

  ghost predicate HeldByBoth(input: EpochInput, currency: string) {
    HoldsCoin(input.opening.assets, currency) && HoldsCoin(input.closing.assets, currency)
  }

  /** The closing wallet holds what the opening one did and the ledger credits. */
  ghost predicate Adds(input: EpochInput, ledger: seq<Observation>, currency: string)
    requires HeldByBoth(input, currency)
  {
    Held(input.closing.assets, currency) == Held(input.opening.assets, currency) + Credited(ledger, currency)
  }

  lemma HoldsOccurs(input: EpochInput, ledger: seq<Observation>, currency: string)
    requires HoldsCoin(input.opening.assets, currency)
    ensures IsCurrency(input, ledger, currency)
  {
    var i :| HoldsAt(input.opening.assets, i, currency);
    assert Names(input.opening.assets, i, currency);
  }

  /** Every bridge reports its currency, and every currency that occurs has one. */
  ghost predicate Describes(bridges: seq<CurrencyBridge>, input: EpochInput, ledger: seq<Observation>) {
    && (forall b :: b in bridges ==> IsCurrency(input, ledger, b.currency) && ReportsCurrency(b, input, ledger))
    && (forall c :: IsCurrency(input, ledger, c) ==> IsListed(bridges, c))
  }

  lemma BridgesDescribe(input: EpochInput, ledger: seq<Observation>, bridges: seq<CurrencyBridge>)
    requires forall o :: o in ledger ==> ValidEntry(o)
    requires bridges == AllBridges(Balances(input.opening.assets), Balances(input.closing.assets), RowsFrom(ledger))
    ensures Describes(bridges, input, ledger)
  {
    BridgesReport(input, ledger, bridges);
    forall c
      ensures BridgeOf(input, ledger, c).currency == c && ReportsCurrency(BridgeOf(input, ledger, c), input, ledger)
    {
      BridgeReports(input, ledger, c);
    }
    hide AllBridges, IsCurrency, BridgeOf, ReportsCurrency, ValidEntry, RowsFrom, Balances;
  }

  lemma MissingDecided(input: EpochInput, ledger: seq<Observation>, bridges: seq<CurrencyBridge>)
    requires Describes(bridges, input, ledger)
    ensures BridgesRaise(MissingCoinBalance, bridges) <==> BalancesRaise(MissingCoinBalance, input, ledger)
  {
    hide IsCurrency, HoldsCoin, Held, AllChangesStated, Credited, Amount, Stated;
    if c :| (c == "USDT" || IsCurrency(input, ledger, c)) && !HeldByBoth(input, c) {
      if IsListed(bridges, c) {
        var b :| b in bridges && b.currency == c;
        assert b.openingBalance.None?;
      }
    }
    if !IsListed(bridges, "USDT") && HeldByBoth(input, "USDT") {
      HoldsOccurs(input, ledger, "USDT");
      assert false;
    }
  }

  lemma DriftDecided(input: EpochInput, ledger: seq<Observation>, bridges: seq<CurrencyBridge>)
    requires Describes(bridges, input, ledger)
    ensures BridgesRaise(UnexplainedDrift, bridges) <==> BalancesRaise(UnexplainedDrift, input, ledger)
  {
    hide IsCurrency, HoldsCoin, Held, AllChangesStated, Credited, Amount;
    if c :| HeldByBoth(input, c) && AllChangesStated(ledger, c) && !Adds(input, ledger, c) {
      HoldsOccurs(input, ledger, c);
      var b :| b in bridges && b.currency == c;
      assert Drifts(b);
    }
  }

  lemma CurrencyDecided(input: EpochInput, ledger: seq<Observation>, bridges: seq<CurrencyBridge>)
    requires Describes(bridges, input, ledger)
    ensures BridgesRaise(UnsupportedCurrency, bridges) <==> BalancesRaise(UnsupportedCurrency, input, ledger)
  {
    hide IsCurrency, ReportsCurrency;
    if c :| IsCurrency(input, ledger, c) && c != "USDT" {
      assert IsListed(bridges, c);
    }
  }

  /** The codes of both wallets and the bridges that only concern balances, by what is reported. */
  lemma BalanceReasonsMeaning(r: Reason, input: EpochInput, ledger: seq<Observation>, bridges: seq<CurrencyBridge>)
    requires forall o :: o in ledger ==> ValidEntry(o)
    requires bridges == AllBridges(Balances(input.opening.assets), Balances(input.closing.assets), RowsFrom(ledger))
    requires r in {MissingCoinBalance, UnexplainedDrift, UnsupportedCurrency}
    ensures r in BalanceReasons(input.opening.assets) + BalanceReasons(input.closing.assets) + RaisedBy(bridges)
            <==> BridgesRaise(r, bridges)
  {
    BridgesDescribe(input, ledger, bridges);
    RaisedByBridges(r, input, ledger, bridges);
    hide AllBridges, BalanceReasons, RaisedBy, RowsFrom, Balances, BridgeRaises, IsCurrency, ReportsCurrency, ValidEntry;
    BridgesDecided(r, input, ledger, bridges);
    hide BalancesRaise;
    if r in BalanceReasons(input.opening.assets) {
      WalletsRaise(r, input.opening.assets, input, ledger);
    }
    if r in BalanceReasons(input.closing.assets) {
      WalletsRaise(r, input.closing.assets, input, ledger);
    }
    if r == MissingCoinBalance && !IsListed(bridges, "USDT") {
      NoUsdt(input, ledger);
    }
  }

  lemma NoUsdt(input: EpochInput, ledger: seq<Observation>)
    requires !IsCurrency(input, ledger, "USDT")
    ensures MissingCoinBalance in BalanceReasons(input.opening.assets)
  {
    WalletMisses(input.opening.assets);
    hide BalanceReasons, HoldsCoin;
  }

  lemma BridgesDecided(r: Reason, input: EpochInput, ledger: seq<Observation>, bridges: seq<CurrencyBridge>)
    requires Describes(bridges, input, ledger)
    ensures BridgesRaise(r, bridges) <==> BalancesRaise(r, input, ledger)
  {
    hide Describes;
    MissingDecided(input, ledger, bridges);
    DriftDecided(input, ledger, bridges);
    CurrencyDecided(input, ledger, bridges);
    hide Drifts, IsCurrency, HeldByBoth, AllChangesStated, Adds, IsListed;
  }

  lemma BridgeOfRaises(r: Reason, input: EpochInput, ledger: seq<Observation>, currency: string)
    ensures r in BridgeReasons(BridgeOf(input, ledger, currency)) <==> BridgeRaises(r, BridgeOf(input, ledger, currency))
  {
    BridgeReasonsMeaning(currency, Entry(Balances(input.opening.assets), currency), Entry(Balances(input.closing.assets), currency),
                         RowsIn(RowsFrom(ledger), currency));
    hide BridgeRow, BridgeReasons, Drifts, Entry, Balances, RowsIn, RowsFrom;
  }

  lemma RaisedByBridges(r: Reason, input: EpochInput, ledger: seq<Observation>, bridges: seq<CurrencyBridge>)
    requires forall o :: o in ledger ==> ValidEntry(o)
    requires bridges == AllBridges(Balances(input.opening.assets), Balances(input.closing.assets), RowsFrom(ledger))
    ensures r in RaisedBy(bridges) <==> exists b :: b in bridges && BridgeRaises(r, b)
  {
    BridgesReport(input, ledger, bridges);
    hide AllBridges, BridgeReasons, Balances, RowsFrom, BridgeOf, IsCurrency, ValidEntry, BridgeRaises;
    forall b | b in bridges
      ensures r in BridgeReasons(b) <==> BridgeRaises(r, b)
    {
      BridgeOfRaises(r, input, ledger, b.currency);
    }
  }

  /** A missing balance of a wallet is one of a currency that occurs, or of USDT. */
  lemma WalletMisses(assets: seq<Asset>)
    ensures MissingCoinBalance in BalanceReasons(assets) ==>
      !HoldsCoin(assets, "USDT") || exists i :: 0 <= i < |assets| && assets[i].coin != "" && !HoldsCoin(assets, assets[i].coin)
    ensures !(exists i :: Names(assets, i, "USDT")) ==> MissingCoinBalance in BalanceReasons(assets)
  {
    RaisedAt(assets, MissingCoinBalance);
    hide BalanceReasons, AssetReasons, Value;
    if i :| 0 <= i < |assets| && MissingCoinBalance in AssetReasons(assets, i) {
      AssetRaises(assets, i);
      assert Names(assets, i, assets[i].coin);
      assert !HoldsCoin(assets, assets[i].coin);
    }
    if forall i :: 0 <= i < |assets| ==> assets[i].coin != "USDT" {
      assert forall i :: !HoldsAt(assets, i, "USDT");
    }
    if !(exists i :: Names(assets, i, "USDT")) {
      forall i | 0 <= i < |assets|
        ensures assets[i].coin != "USDT"
      {
        assert !Names(assets, i, "USDT");
      }
    }
  }

  /** What a wallet raises of these codes is true of its balances. */
  lemma WalletsRaise(r: Reason, assets: seq<Asset>, input: EpochInput, ledger: seq<Observation>)
    requires assets == input.opening.assets || assets == input.closing.assets
    requires r in {MissingCoinBalance, UnexplainedDrift, UnsupportedCurrency} && r in BalanceReasons(assets)
    ensures BalancesRaise(r, input, ledger)
  {
    WalletReasonsMeaning(assets);
    WalletMisses(assets);
    hide BalanceReasons, HoldsCoin;
    if r == UnsupportedCurrency {
      var i :| 0 <= i < |assets| && assets[i].coin !in {"", "USDT"};
      assert Names(assets, i, assets[i].coin);
      assert IsCurrency(input, ledger, assets[i].coin);
    } else if r == MissingCoinBalance && HoldsCoin(assets, "USDT") {
      var i :| 0 <= i < |assets| && assets[i].coin != "" && !HoldsCoin(assets, assets[i].coin);
      assert Names(assets, i, assets[i].coin);
      assert IsCurrency(input, ledger, assets[i].coin);
      assert !HeldByBoth(input, assets[i].coin);
    } else {
      assert !HeldByBoth(input, "USDT");
    }
  }
}
