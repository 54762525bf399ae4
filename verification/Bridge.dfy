/** The balance side of an accounting epoch: readBalances and projectCurrencies (src/application/history-accounting-epoch.ts). */
module Bridge {
  import opened Common
  import opened Sums
  import opened Orders
  import opened Decimals
  import opened DecimalText
  import opened Normalization

  datatype Reason =
    | AnchorKindMismatch | AnchorScopeMismatch | AnchorCaptureInvalid | AnchorTimeInvalid | AnchorEpochInvalid
    | HistoryScopeMismatch | InvalidHistoryEvidence | HistoryCoverageGap | HistoryCoverageFilterIncompatible
    | HistoryCoverageConflict | HistorySourceConflict | TransactionIdentityConflict | ClosedPnlRevisionConflict
    | AnchorBoundaryEventAmbiguous | UnknownTransactionType | UnknownTransactionCurrency | UnknownTransactionChange
    | UnsupportedTransactionCategory | TransactionComponentsIncomplete | TransactionComponentMismatch
    | TransactionExecutionMismatch | ClosedPnlExecutionMismatch | UnsupportedCurrency | UnsupportedBonusMovement
    | UnsupportedBalanceSemantics | MissingCoinBalance | DuplicateCoinBalance | UnexplainedDrift

  const USDT := "USDT"

  /** An asset of a wallet anchor; `Some` is a known amount in coins.  An asset that is no record has no coin name. */
  datatype Asset = Asset(
    coin: string, walletBalance: Option<Normal>, bonus: Option<Normal>, borrowAmount: Option<Normal>,
    spotBorrow: Option<Normal>, accruedInterest: Option<Normal>)

  // --------------------------------------------------------------- balances

  function KnownBalance(a: Asset): Option<Normal> {
    if a.walletBalance.Some? && a.walletBalance.value.coefficient >= 0 then a.walletBalance else None
  }

  predicate IsZero(amount: Option<Normal>) {
    amount.Some? && amount.value.coefficient == 0
  }

  /** Nothing borrowed, accrued or granted. */
  predicate OnlyOwnCoins(a: Asset) {
    IsZero(a.bonus) && IsZero(a.borrowAmount) && IsZero(a.spotBorrow) && IsZero(a.accruedInterest)
  }

  predicate SeenBefore(assets: seq<Asset>, i: nat)
    requires i < |assets|
  {
    exists k :: 0 <= k < i && assets[k].coin == assets[i].coin
  }

  function AssetReasons(assets: seq<Asset>, i: nat): set<Reason>
    requires i < |assets|
  {
    var a := assets[i];
    if a.coin == "" then {AnchorCaptureInvalid}
    else if SeenBefore(assets, i) then {DuplicateCoinBalance}
    else
      (if KnownBalance(a).None? then {MissingCoinBalance} else {})
      + (if a.coin != USDT then {UnsupportedCurrency} else {})
      + (if OnlyOwnCoins(a) then {} else {UnsupportedBalanceSemantics})
  }

  function BalanceReasons(assets: seq<Asset>): set<Reason> {
    (set i, r | 0 <= i < |assets| && r in AssetReasons(assets, i) :: r)
    + (if exists i :: 0 <= i < |assets| && assets[i].coin == USDT then {} else {MissingCoinBalance})
  }

  /** The balance of a coin: none if it is not named, unknown if it is named twice. */
  function BalanceOf(assets: seq<Asset>, coin: string): Option<Option<Normal>> {
    if assets == [] || coin == "" then None
    else
      var before, a := BalanceOf(assets[..|assets| - 1], coin), assets[|assets| - 1];
      if a.coin != coin then before
      else if before.Some? then Some(None)
      else Some(KnownBalance(a))
  }

  /** A coin has an entry exactly when an asset names it; the entry is known when only one asset names it and states it. */
  lemma {:induction false} BalanceMeaning(assets: seq<Asset>, coin: string)
    ensures BalanceOf(assets, coin).Some? <==> coin != "" && exists i :: 0 <= i < |assets| && assets[i].coin == coin
    ensures forall i :: 0 <= i < |assets| && assets[i].coin == coin && coin != "" ==>
              BalanceOf(assets, coin) ==
              Some(if forall k :: 0 <= k < |assets| && assets[k].coin == coin ==> k == i then KnownBalance(assets[i]) else None)
  {
    if assets != [] && coin != "" {
      hide KnownBalance;
      var init := assets[..|assets| - 1];
      BalanceMeaning(init, coin);
      assert forall k :: 0 <= k < |init| ==> init[k] == assets[k];
    }
  }

  ghost predicate IsBalanceIndex(values: map<string, Option<Normal>>, assets: seq<Asset>) {
    && (forall coin :: coin in values <==> BalanceOf(assets, coin).Some?)
    && (forall coin :: coin in values ==> values[coin] == BalanceOf(assets, coin).value)
  }

  /** The balances a wallet names. */
  ghost function Balances(assets: seq<Asset>): map<string, Option<Normal>> {
    var coins := set a | a in assets :: a.coin;
    map coin | coin in coins && BalanceOf(assets, coin).Some? :: BalanceOf(assets, coin).value
  }

  lemma IndexIsBalances(values: map<string, Option<Normal>>, assets: seq<Asset>)
    requires IsBalanceIndex(values, assets)
    ensures values == Balances(assets)
  {
    var coins := set a | a in assets :: a.coin;
    forall coin
      ensures coin in values <==> coin in coins && BalanceOf(assets, coin).Some?
    {
      BalanceMeaning(assets, coin);
      hide BalanceOf;
      if coin in values {
        var i :| 0 <= i < |assets| && assets[i].coin == coin;
        assert assets[i] in assets;
      }
    }
    hide BalanceOf;
  }

  lemma NextBalance(assets: seq<Asset>, a: Asset)
    ensures BalanceOf(assets, "") == None
    ensures forall coin :: BalanceOf(assets + [a], coin) ==
              if a.coin != coin || coin == "" then BalanceOf(assets, coin)
              else if BalanceOf(assets, coin).Some? then Some(None) else Some(KnownBalance(a))
  {
    assert (assets + [a])[..|assets|] == assets;
  }

  lemma IndexNextAsset(values: map<string, Option<Normal>>, assets: seq<Asset>, a: Asset)
    requires IsBalanceIndex(values, assets)
    ensures a.coin == "" ==> IsBalanceIndex(values, assets + [a])
    ensures a.coin in values ==> IsBalanceIndex(values[a.coin := None], assets + [a])
    ensures a.coin != "" && a.coin !in values ==> IsBalanceIndex(values[a.coin := KnownBalance(a)], assets + [a])
  {
    NextBalance(assets, a);
    hide BalanceOf, KnownBalance;
  }

  lemma SeenIsIndexed(values: map<string, Option<Normal>>, assets: seq<Asset>, i: nat)
    requires i < |assets| && IsBalanceIndex(values, assets[..i]) && assets[i].coin != ""
    ensures assets[i].coin in values <==> SeenBefore(assets, i)
  {
    BalanceMeaning(assets[..i], assets[i].coin);
    hide BalanceOf;
    assert forall k :: 0 <= k < i ==> assets[..i][k] == assets[k];
  }

  method ReadBalances(assets: seq<Asset>) returns (values: map<string, Option<Normal>>, reasons: set<Reason>)
    ensures IsBalanceIndex(values, assets)
    ensures reasons == BalanceReasons(assets)
  {
    values, reasons := map[], {};
    hide IsBalanceIndex, KnownBalance, OnlyOwnCoins, SeenBefore;
    EmptyBalanceIndex();
    for i := 0 to |assets|
      invariant IsBalanceIndex(values, assets[..i])
      invariant reasons == set k, r | 0 <= k < i && r in AssetReasons(assets, k) :: r
    {
      var asset := assets[i];
      assert assets[..i + 1] == assets[..i] + [asset];
      IndexNextAsset(values, assets[..i], asset);
      ghost var before := reasons;
      if asset.coin == "" {
        reasons := reasons + {AnchorCaptureInvalid};
      } else {
        SeenIsIndexed(values, assets, i);
        if asset.coin in values {
          values := values[asset.coin := None];
          reasons := reasons + {DuplicateCoinBalance};
        } else {
          var balance := KnownBalance(asset);
          values := values[asset.coin := balance];
          if balance == None { reasons := reasons + {MissingCoinBalance}; }
          if asset.coin != USDT { reasons := reasons + {UnsupportedCurrency}; }
          if !OnlyOwnCoins(asset) { reasons := reasons + {UnsupportedBalanceSemantics}; }
        }
      }
      assert reasons == before + AssetReasons(assets, i);
    }
    assert assets[..|assets|] == assets;
    NamedInIndex(values, assets, USDT);
    if USDT !in values {
      reasons := reasons + {MissingCoinBalance};
    }
  }

  lemma EmptyBalanceIndex()
    ensures IsBalanceIndex(map[], [])
  {
  }

  lemma NamedInIndex(values: map<string, Option<Normal>>, assets: seq<Asset>, coin: string)
    requires IsBalanceIndex(values, assets) && coin != ""
    ensures coin in values <==> exists i :: 0 <= i < |assets| && assets[i].coin == coin
  {
    BalanceMeaning(assets, coin);
    hide BalanceOf;
  }

  /** One asset, USDT, with a known balance and nothing but own coins. */
  ghost predicate PlainUsdt(assets: seq<Asset>) {
    |assets| == 1 && assets[0].coin == USDT && KnownBalance(assets[0]).Some? && OnlyOwnCoins(assets[0])
  }

  lemma RaisedIn(assets: seq<Asset>, i: nat)
    requires i < |assets|
    ensures AssetReasons(assets, i) <= BalanceReasons(assets)
  {
    assert forall r :: r in AssetReasons(assets, i) ==> r in BalanceReasons(assets);
  }

  lemma QuietAsset(assets: seq<Asset>, i: nat)
    requires i < |assets|
    ensures AssetReasons(assets, i) == {} <==>
              !SeenBefore(assets, i) && assets[i].coin == USDT && KnownBalance(assets[i]).Some? && OnlyOwnCoins(assets[i])
  {
    hide SeenBefore, KnownBalance, OnlyOwnCoins;
    var reasons := AssetReasons(assets, i);
    assert reasons == {} ==> AnchorCaptureInvalid !in reasons && DuplicateCoinBalance !in reasons && MissingCoinBalance !in reasons
                             && UnsupportedCurrency !in reasons && UnsupportedBalanceSemantics !in reasons;
  }

  lemma CrowdedWallet(assets: seq<Asset>)
    requires |assets| > 1
    ensures BalanceReasons(assets) != {}
  {
    QuietAsset(assets, 0);
    QuietAsset(assets, 1);
    RaisedIn(assets, 0);
    RaisedIn(assets, 1);
    hide AssetReasons, BalanceReasons, KnownBalance, OnlyOwnCoins;
    assert assets[0].coin == assets[1].coin ==> SeenBefore(assets, 1);
    assert AssetReasons(assets, 0) != {} || AssetReasons(assets, 1) != {};
  }

  /** A wallet raises no reason exactly when it is plain USDT. */
  lemma QuietWallet(assets: seq<Asset>)
    ensures BalanceReasons(assets) == {} <==> PlainUsdt(assets)
  {
    if |assets| > 1 {
      CrowdedWallet(assets);
    } else if |assets| == 1 {
      QuietAsset(assets, 0);
      RaisedIn(assets, 0);
      hide AssetReasons, KnownBalance, OnlyOwnCoins;
      assert !SeenBefore(assets, 0);
      if PlainUsdt(assets) {
        assert assets[0].coin == USDT;
        assert forall r :: r !in BalanceReasons(assets);
      }
    } else {
      assert MissingCoinBalance in BalanceReasons(assets);
    }
  }

  lemma PlainIndex(assets: seq<Asset>, values: map<string, Option<Normal>>)
    requires IsBalanceIndex(values, assets) && PlainUsdt(assets)
    ensures values.Keys == {USDT} && values[USDT] == KnownBalance(assets[0])
  {
    forall coin
      ensures coin in values <==> coin == USDT
    {
      BalanceMeaning(assets, coin);
    }
    BalanceMeaning(assets, USDT);
    hide BalanceOf, KnownBalance;
  }

  // ---------------------------------------------------------------- bridge

  datatype Row = Row(
    category: Option<string>, movementKind: MovementKind, currency: Option<string>, change: Option<Normal>,
    bonusChange: Option<Normal>, componentCheck: ComponentCheck)

  datatype CurrencyBridge = CurrencyBridge(
    currency: string, openingBalance: Option<string>, transactionChange: Option<string>, transferChange: Option<string>,
    expectedClosingBalance: Option<string>, closingBalance: Option<string>, unexplainedDrift: Option<string>)

  function RowsIn(rows: seq<Row>, currency: string): seq<Row> {
    if rows == [] then []
    else RowsIn(rows[..|rows| - 1], currency) + if rows[|rows| - 1].currency == Some(currency) then [rows[|rows| - 1]] else []
  }

  function TransfersOf(rows: seq<Row>): seq<Row> {
    if rows == [] then []
    else TransfersOf(rows[..|rows| - 1]) + if rows[|rows| - 1].movementKind == TransferMovement then [rows[|rows| - 1]] else []
  }

  predicate AllKnown(rows: seq<Row>) {
    forall r :: r in rows ==> r.change.Some?
  }

  predicate AllClassified(rows: seq<Row>) {
    forall r :: r in rows ==> r.movementKind != UnknownMovement
  }

  function ChangeOf(r: Row): Normal {
    match r.change case None => ZERO case Some(d) => d
  }

  function Changes(rows: seq<Row>): seq<Normal> {
    seq(|rows|, i requires 0 <= i < |rows| => ChangeOf(rows[i]))
  }

  /** The bridge of one currency from the two balances, each `None` unless known, and the currency's rows. */
  function BridgeRow(currency: string, opening: Option<Normal>, closing: Option<Normal>, matching: seq<Row>): CurrencyBridge {
    var balanced, known := opening.Some? && closing.Some?, AllKnown(matching);
    var total := Total(Changes(matching));
    var expected := if balanced then Add(opening.value, total) else ZERO;
    CurrencyBridge(
      currency,
      if balanced then Printed(opening) else None,
      if known then Some(ToDecimalString(total)) else None,
      if known && AllClassified(matching) then Some(ToDecimalString(Total(Changes(TransfersOf(matching))))) else None,
      if known && balanced then Some(ToDecimalString(expected)) else None,
      if balanced then Printed(closing) else None,
      if known && balanced then Some(ToDecimalString(Subtract(closing.value, expected))) else None)
  }

  function BridgeReasons(b: CurrencyBridge): set<Reason> {
    (if b.openingBalance.None? then {MissingCoinBalance} else {})
    + (if b.unexplainedDrift.Some? && b.unexplainedDrift.value != "0" then {UnexplainedDrift} else {})
    + (if b.currency != USDT then {UnsupportedCurrency} else {})
  }

  /** What the rows add up to. */
  ghost function Moved(rows: seq<Row>): real {
    Sum(Values(Changes(rows)))
  }

  lemma TotalMoved(rows: seq<Row>)
    ensures Value(Total(Changes(rows))) == Moved(rows)
    ensures ParseDecimal(ToDecimalString(Total(Changes(rows)))) == Ok(Total(Changes(rows)))
  {
    TotalIsSum(Changes(rows));
    RoundTrip(Total(Changes(rows)));
  }

  lemma PrintsZero(d: Normal)
    ensures ToDecimalString(d) == "0" <==> Value(d) == 0.0
  {
    SignOfValue(d);
    RoundTrip(d);
    RoundTrip(ZERO);
  }

  /**
   * The amounts of a bridge: the change is the sum of the rows and is there exactly when every
   * change is known; the transfer change is the sum over the transfers; the expected balance is
   * opening plus change; the drift is "0" exactly when the closing balance is the expected one.
   */
  lemma BridgeMeaning(currency: string, opening: Option<Normal>, closing: Option<Normal>, rows: seq<Row>)
    ensures var b := BridgeRow(currency, opening, closing, rows);
      && b.currency == currency
      && (b.openingBalance.Some? <==> opening.Some? && closing.Some?)
      && (b.closingBalance.Some? <==> opening.Some? && closing.Some?)
      && (b.openingBalance.Some? ==> Stated(b.openingBalance) && Amount(b.openingBalance) == Value(opening.value)
                                     && Stated(b.closingBalance) && Amount(b.closingBalance) == Value(closing.value))
      && (b.transactionChange.Some? <==> AllKnown(rows))
      && (b.transactionChange.Some? ==> Stated(b.transactionChange) && Amount(b.transactionChange) == Moved(rows))
      && (b.transferChange.Some? <==> AllKnown(rows) && AllClassified(rows))
      && (b.transferChange.Some? ==> Stated(b.transferChange) && Amount(b.transferChange) == Moved(TransfersOf(rows)))
      && (b.expectedClosingBalance.Some? <==> b.openingBalance.Some? && AllKnown(rows))
      && (b.unexplainedDrift.Some? <==> b.openingBalance.Some? && AllKnown(rows))
      && (b.unexplainedDrift.Some? ==>
            && Stated(b.expectedClosingBalance) && Amount(b.expectedClosingBalance) == Value(opening.value) + Moved(rows)
            && Stated(b.unexplainedDrift) && Amount(b.unexplainedDrift) == Value(closing.value) - Value(opening.value) - Moved(rows)
            && (b.unexplainedDrift == Some("0") <==> Value(closing.value) == Value(opening.value) + Moved(rows)))
  {
    hide Value, Total, Changes, ToDecimalString, ParseDecimal, Plus, Minus, TransfersOf, Moved;
    TotalMoved(rows);
    TotalMoved(TransfersOf(rows));
    if opening.Some? && closing.Some? {
      var total := Total(Changes(rows));
      var expected := Add(opening.value, total);
      PlusIsExact(opening.value, total);
      PlusIsExact(closing.value, expected);
      RoundTrip(opening.value);
      RoundTrip(closing.value);
      RoundTrip(expected);
      RoundTrip(Subtract(closing.value, expected));
      PrintsZero(Subtract(closing.value, expected));
    }
  }

  /** Only a fully known, drift-free USDT bridge raises no reason. */
  lemma QuietBridge(currency: string, opening: Option<Normal>, closing: Option<Normal>, rows: seq<Row>)
    requires AllKnown(rows)
    ensures BridgeReasons(BridgeRow(currency, opening, closing, rows)) == {} <==>
              currency == USDT && opening.Some? && closing.Some? && Value(closing.value) == Value(opening.value) + Moved(rows)
  {
    BridgeMeaning(currency, opening, closing, rows);
    hide Value, Moved, AllKnown, BridgeRow, Stated, Amount;
    var reasons := BridgeReasons(BridgeRow(currency, opening, closing, rows));
    assert reasons == {} ==> MissingCoinBalance !in reasons && UnexplainedDrift !in reasons && UnsupportedCurrency !in reasons;
  }

  // -------------------------------------------------------------- currencies

  function Entry(values: map<string, Option<Normal>>, coin: string): Option<Normal> {
    if coin in values then values[coin] else None
  }

  function RowCurrencies(rows: seq<Row>): set<string> {
    set r | r in rows && r.currency.Some? :: r.currency.value
  }

  ghost function AllBridges(opening: map<string, Option<Normal>>, closing: map<string, Option<Normal>>, rows: seq<Row>): seq<CurrencyBridge> {
    var currencies := OrderedWithin(opening.Keys + closing.Keys + RowCurrencies(rows));
    seq(|currencies|, i requires 0 <= i < |currencies| =>
      BridgeRow(currencies[i], Entry(opening, currencies[i]), Entry(closing, currencies[i]), RowsIn(rows, currencies[i])))
  }

  function RaisedBy(bridges: seq<CurrencyBridge>): set<Reason> {
    set i, r | 0 <= i < |bridges| && r in BridgeReasons(bridges[i]) :: r
  }

  lemma RaisedByNext(bridges: seq<CurrencyBridge>, b: CurrencyBridge)
    ensures RaisedBy(bridges + [b]) == RaisedBy(bridges) + BridgeReasons(b)
  {
    hide BridgeReasons;
    var all := bridges + [b];
    assert all[|bridges|] == b && forall i :: 0 <= i < |bridges| ==> all[i] == bridges[i];
  }

  function CurrencyReasons(bridges: seq<CurrencyBridge>, rows: seq<Row>): set<Reason> {
    RaisedBy(bridges) + (if exists r :: r in rows && r.currency.None? then {UnknownTransactionCurrency} else {})
  }

  /** One bridge for every currency of either wallet or of a row, in order. */
  method ProjectCurrencies(opening: map<string, Option<Normal>>, closing: map<string, Option<Normal>>, rows: seq<Row>)
    returns (bridges: seq<CurrencyBridge>, reasons: set<Reason>)
    ensures bridges == AllBridges(opening, closing, rows)
    ensures reasons == CurrencyReasons(bridges, rows)
  {
    hide BridgeRow, RowsIn, BridgeReasons, OrderedWithin;
    var currencies := opening.Keys + closing.Keys;
    for i := 0 to |rows|
      invariant currencies == opening.Keys + closing.Keys + RowCurrencies(rows[..i])
    {
      assert forall r :: r in rows[..i + 1] <==> r in rows[..i] || r == rows[i];
      if rows[i].currency.Some? {
        currencies := currencies + {rows[i].currency.value};
      }
    }
    assert rows[..|rows|] == rows;
    var sorted := SortCurrencies(currencies);
    bridges, reasons := [], {};
    ghost var expected := AllBridges(opening, closing, rows);
    assert |expected| == |sorted| && forall i :: 0 <= i < |sorted| ==>
      expected[i] == BridgeRow(sorted[i], Entry(opening, sorted[i]), Entry(closing, sorted[i]), RowsIn(rows, sorted[i]));
    hide AllBridges, Entry, RowCurrencies;
    for i := 0 to |sorted|
      invariant bridges == expected[..i]
      invariant reasons == RaisedBy(bridges)
    {
      var row := BridgeRow(sorted[i], Entry(opening, sorted[i]), Entry(closing, sorted[i]), RowsIn(rows, sorted[i]));
      RaisedByNext(bridges, row);
      assert expected[..i + 1] == expected[..i] + [row];
      bridges := bridges + [row];
      reasons := reasons + BridgeReasons(row);
    }
    if exists r :: r in rows && r.currency.None? {
      reasons := reasons + {UnknownTransactionCurrency};
    }
  }

  method SortCurrencies(currencies: set<string>) returns (sorted: seq<string>)
    ensures sorted == OrderedWithin(currencies)
  {
    hide OrderedWithin, Distinct;
    var left, listed := currencies, [];
    assert Distinct(listed) by { hide *; NothingTwice(); }
    while left != {}
      invariant left <= currencies && Elements(listed) == currencies - left && Distinct(listed)
      decreases left
    {
      var c :| c in left;
      assert c !in Elements(listed);
      DistinctAppended(listed, c);
      left, listed := left - {c}, listed + [c];
    }
    SortedStrings(listed);
    assert (set x | x in listed) == currencies;
    sorted := SortBy(listed, StrLe);
  }

  lemma NothingTwice()
    ensures Distinct<string>([])
  {
  }

  lemma DistinctAppended(s: seq<string>, x: string)
    requires Distinct(s) && x !in s
    ensures Distinct(s + [x]) && Elements(s + [x]) == Elements(s) + {x}
  {
  }
}
