/**
 * Executions against trade transactions and closed PnL (executionMatchesTransaction and
 * verifyExecutionAndCloseEvidence, src/application/history-accounting-epoch.ts).
 */
module Matching {
  import opened Common
  import opened Sums
  import opened Orders
  import opened Decimals
  import opened DecimalText
  import opened History
  import opened Normalization
  import opened Bridge

  predicate ExactDecimalMatch(left: Option<string>, right: Option<string>) {
    && left.Some? && right.Some?
    && ParseDecimal(left.value).Ok? && ParseDecimal(right.value).Ok?
    && Compare(ParseDecimal(left.value).value, ParseDecimal(right.value).value) == 0
  }

  lemma ExactMatchMeaning(left: Option<string>, right: Option<string>)
    ensures ExactDecimalMatch(left, right) <==> Stated(left) && Stated(right) && Amount(left) == Amount(right)
  {
    if Stated(left) && Stated(right) {
      CompareIsExact(ParseDecimal(left.value).value, ParseDecimal(right.value).value);
    }
  }

  predicate ExecutionMatchesTransaction(e: Execution, t: Transaction) {
    && e.execType == "Trade"
    && t.orderId == Some(e.orderId)
    && t.category == Some(e.category)
    && t.symbol == Some(e.symbol)
    && t.side == Some(e.side)
    && ExactDecimalMatch(t.qty, Some(e.execQty))
    && ExactDecimalMatch(t.tradePrice, Some(e.execPrice))
    && t.currency.Some? && t.currency == e.feeCurrency
    && ExactDecimalMatch(t.fee, e.execFee)
    && (e.execFeeV2.None? || ExactDecimalMatch(e.execFeeV2, Some("0")))
    && e.extraFees.None?
  }

  ghost predicate SameAmount(left: Option<string>, right: Option<string>) {
    Stated(left) && Stated(right) && Amount(left) == Amount(right)
  }

  /** One fill, reported twice: of one order and instrument, in side, quantity, price, fee and fee currency, with no fee besides. */
  ghost predicate SameFill(e: Execution, t: Transaction) {
    && e.execType == "Trade"
    && t.orderId == Some(e.orderId) && t.category == Some(e.category) && t.symbol == Some(e.symbol) && t.side == Some(e.side)
    && SameAmount(t.qty, Some(e.execQty)) && SameAmount(t.tradePrice, Some(e.execPrice)) && SameAmount(t.fee, e.execFee)
    && t.currency.Some? && e.feeCurrency == t.currency
    && (e.execFeeV2.Some? ==> Stated(e.execFeeV2) && Amount(e.execFeeV2) == 0.0)
    && e.extraFees.None?
  }

  lemma MatchMeaning(e: Execution, t: Transaction)
    ensures ExecutionMatchesTransaction(e, t) <==> SameFill(e, t)
  {
    ExactMatchMeaning(t.qty, Some(e.execQty));
    ExactMatchMeaning(t.tradePrice, Some(e.execPrice));
    ExactMatchMeaning(t.fee, e.execFee);
    ExactMatchMeaning(e.execFeeV2, Some("0"));
    RoundTrip(ZERO);
    SignOfValue(ZERO);
    assert ToDecimalString(ZERO) == "0";
    hide ExactDecimalMatch, ParseDecimal, Value, ToDecimalString;
  }

  // ----------------------------------------------------------------- filters

  function TradesOf(transactions: seq<Transaction>): seq<Transaction> {
    if transactions == [] then []
    else
      var last := transactions[|transactions| - 1];
      TradesOf(transactions[..|transactions| - 1]) + if IsTrade(last) then [last] else []
  }

  /** Of each transaction as many as there are, if its type is a trade's. */
  lemma {:induction false} TradesMeaning(transactions: seq<Transaction>, t: Transaction)
    ensures multiset(TradesOf(transactions))[t] ==
              if t.kind in {Some("TRADE"), Some("TRADE_REBATE")} then multiset(transactions)[t] else 0
  {
    if transactions != [] {
      var init, last := transactions[..|transactions| - 1], transactions[|transactions| - 1];
      TradesMeaning(init, t);
      assert transactions == init + [last];
    }
  }

  function TradeExecutionsOf(executions: seq<Execution>): seq<Execution> {
    if executions == [] then []
    else
      var last := executions[|executions| - 1];
      TradeExecutionsOf(executions[..|executions| - 1]) + if last.execType == "Trade" then [last] else []
  }

  /** Which of the trades the execution matches. */
  function TransactionMarks(e: Execution, trades: seq<Transaction>): seq<bool> {
    seq(|trades|, j requires 0 <= j < |trades| => ExecutionMatchesTransaction(e, trades[j]))
  }

  function ExecutionMarks(executions: seq<Execution>, t: Transaction): seq<bool> {
    seq(|executions|, i requires 0 <= i < |executions| => ExecutionMatchesTransaction(executions[i], t))
  }

  /** How many are marked. */
  function Marked(marks: seq<bool>): nat {
    if marks == [] then 0 else Marked(marks[..|marks| - 1]) + if marks[|marks| - 1] then 1 else 0
  }

  ghost predicate OnlyMark(marks: seq<bool>, i: int) {
    0 <= i < |marks| && marks[i] && forall k :: 0 <= k < |marks| && marks[k] ==> k == i
  }

  ghost predicate OneMark(marks: seq<bool>) {
    exists i :: OnlyMark(marks, i)
  }

  lemma {:induction false} MarkedOnce(marks: seq<bool>)
    ensures Marked(marks) == 0 <==> forall k :: 0 <= k < |marks| ==> !marks[k]
    ensures Marked(marks) == 1 <==> OneMark(marks)
  {
    if marks != [] {
      var init, last := marks[..|marks| - 1], |marks| - 1;
      MarkedOnce(init);
      MarkedLast(init, marks[last], marks);
    }
  }

  lemma MarkedLast(init: seq<bool>, last: bool, marks: seq<bool>)
    requires marks == init + [last]
    ensures OneMark(marks) <==> if last then forall k :: 0 <= k < |init| ==> !init[k] else OneMark(init)
  {
    assert forall k :: 0 <= k < |init| ==> marks[k] == init[k];
    if last {
      assert marks[|init|];
      if forall k :: 0 <= k < |init| ==> !init[k] {
        assert OnlyMark(marks, |init|);
      }
    } else {
      assert forall i :: OnlyMark(init, i) <==> OnlyMark(marks, i);
    }
  }

  // --------------------------------------------------------------- bijection

  /** Every execution matches exactly one trade, and every trade exactly one execution. */
  ghost predicate OneToOne(executions: seq<Execution>, trades: seq<Transaction>) {
    && (forall i :: 0 <= i < |executions| ==> OneMark(TransactionMarks(executions[i], trades)))
    && (forall j :: 0 <= j < |trades| ==> OneMark(ExecutionMarks(executions, trades[j])))
  }

  /** `pairing[i]` is the trade of execution `i`, and of no other. */
  ghost predicate IsPairing(pairing: seq<nat>, executions: seq<Execution>, trades: seq<Transaction>) {
    && |pairing| == |executions| && IsPermutation(pairing, |trades|)
    && forall i, j :: 0 <= i < |executions| && 0 <= j < |trades| ==> (SameFill(executions[i], trades[j]) <==> pairing[i] == j)
  }

  ghost predicate Paired(executions: seq<Execution>, trades: seq<Transaction>) {
    exists pairing :: IsPairing(pairing, executions, trades)
  }

  ghost function AmountOr0(field: Option<string>): real {
    if Stated(field) then Amount(field) else 0.0
  }

  ghost function ExecutionQuantities(executions: seq<Execution>): seq<real> {
    seq(|executions|, i requires 0 <= i < |executions| => AmountOr0(Some(executions[i].execQty)))
  }

  ghost function ExecutionFees(executions: seq<Execution>): seq<real> {
    seq(|executions|, i requires 0 <= i < |executions| => AmountOr0(executions[i].execFee))
  }

  ghost function TradeQuantities(trades: seq<Transaction>): seq<real> {
    seq(|trades|, i requires 0 <= i < |trades| => AmountOr0(trades[i].qty))
  }

  ghost function TradeFees(trades: seq<Transaction>): seq<real> {
    seq(|trades|, i requires 0 <= i < |trades| => AmountOr0(trades[i].fee))
  }

  lemma PairingExists(executions: seq<Execution>, trades: seq<Transaction>) returns (pairing: seq<nat>)
    requires OneToOne(executions, trades)
    ensures IsPairing(pairing, executions, trades)
  {
    hide ExecutionMatchesTransaction, IsPermutation, SameFill;
    pairing := [];
    while |pairing| < |executions|
      invariant |pairing| <= |executions| && forall i :: 0 <= i < |pairing| ==> pairing[i] < |trades|
      invariant forall i, j :: 0 <= i < |pairing| && 0 <= j < |trades| ==>
        (ExecutionMatchesTransaction(executions[i], trades[j]) <==> pairing[i] == j)
    {
      var marks := TransactionMarks(executions[|pairing|], trades);
      assert OneMark(marks);
      var partner :| OnlyMark(marks, partner);
      assert forall j :: 0 <= j < |trades| ==> marks[j] == ExecutionMatchesTransaction(executions[|pairing|], trades[j]);
      pairing := pairing + [partner];
    }
    PairingIsPermutation(executions, trades, pairing);
    forall e, t
      ensures ExecutionMatchesTransaction(e, t) <==> SameFill(e, t)
    {
      MatchMeaning(e, t);
    }
  }

  lemma PairingIsPermutation(executions: seq<Execution>, trades: seq<Transaction>, pairing: seq<nat>)
    requires OneToOne(executions, trades)
    requires |pairing| == |executions| && forall i :: 0 <= i < |pairing| ==> pairing[i] < |trades|
    requires forall i, j :: 0 <= i < |executions| && 0 <= j < |trades| ==>
               (ExecutionMatchesTransaction(executions[i], trades[j]) <==> pairing[i] == j)
    ensures IsPermutation(pairing, |trades|)
  {
    hide ExecutionMatchesTransaction;
    forall j: nat | j < |trades|
      ensures j in pairing && forall i, k :: 0 <= i < |pairing| && 0 <= k < |pairing| && pairing[i] == pairing[k] == j ==> i == k
    {
      var marks := ExecutionMarks(executions, trades[j]);
      assert OneMark(marks);
      var i :| OnlyMark(marks, i);
      assert forall k :: 0 <= k < |executions| ==> marks[k] == ExecutionMatchesTransaction(executions[k], trades[j]);
      assert pairing[i] == j;
    }
    forall i, k | 0 <= i < k < |pairing|
      ensures pairing[i] != pairing[k]
    {
      assert pairing[i] in pairing;
    }
  }

  lemma ExecutionMatchedOnce(pairing: seq<nat>, executions: seq<Execution>, trades: seq<Transaction>, i: nat)
    requires IsPairing(pairing, executions, trades) && i < |executions|
    ensures executions[i].execType == "Trade" && OneMark(TransactionMarks(executions[i], trades))
  {
    var e, marks := executions[i], TransactionMarks(executions[i], trades);
    hide ExecutionMatchesTransaction, SameAmount, IsPermutation;
    assert pairing[i] < |trades| by { PermutationInRange(pairing, |trades|, i); }
    forall j | 0 <= j < |trades|
      ensures marks[j] <==> j == pairing[i]
    {
      MatchMeaning(e, trades[j]);
    }
    assert SameFill(e, trades[pairing[i]]);
    hide SameFill;
    assert OnlyMark(marks, pairing[i]);
  }

  lemma PermutationInRange(idx: seq<nat>, n: nat, i: nat)
    requires IsPermutation(idx, n) && i < |idx|
    ensures idx[i] < n
  {
  }

  lemma PermutationPlace(idx: seq<nat>, n: nat, j: nat) returns (i: nat)
    requires IsPermutation(idx, n) && j < n
    ensures i < |idx| && idx[i] == j && forall k :: 0 <= k < |idx| && idx[k] == j ==> k == i
  {
    assert j in idx;
    i :| i < |idx| && idx[i] == j;
    assert forall k :: 0 <= k < |idx| && k != i ==> idx[k] != idx[i];
  }

  lemma TradeMatchedOnce(pairing: seq<nat>, executions: seq<Execution>, trades: seq<Transaction>, j: nat)
    requires IsPairing(pairing, executions, trades) && j < |trades|
    ensures OneMark(ExecutionMarks(executions, trades[j]))
  {
    var marks := ExecutionMarks(executions, trades[j]);
    hide ExecutionMatchesTransaction, SameFill, IsPermutation, ExecutionMarks;
    var i := PermutationPlace(pairing, |trades|, j);
    forall k | 0 <= k < |executions|
      ensures |marks| == |executions| && (marks[k] <==> k == i)
    {
      MatchMeaning(executions[k], trades[j]);
      MarkedAt(executions, trades[j], k);
      assert SameFill(executions[k], trades[j]) <==> pairing[k] == j;
    }
    MarkedAt(executions, trades[j], i);
    hide IsPairing;
    assert OnlyMark(marks, i);
  }

  lemma MarkedAt(executions: seq<Execution>, t: Transaction, k: nat)
    requires k < |executions|
    ensures |ExecutionMarks(executions, t)| == |executions| && ExecutionMarks(executions, t)[k] == ExecutionMatchesTransaction(executions[k], t)
  {
  }

  /** A pairing is one to one, so there is no other reason for executions and trades not to be paired. */
  lemma PairedIsOneToOne(executions: seq<Execution>, trades: seq<Transaction>)
    requires Paired(executions, trades)
    ensures OneToOne(executions, trades) && forall e :: e in executions ==> e.execType == "Trade"
  {
    hide IsPairing, OneMark, TransactionMarks, ExecutionMarks;
    var pairing :| IsPairing(pairing, executions, trades);
    forall i | 0 <= i < |executions|
      ensures executions[i].execType == "Trade" && OneMark(TransactionMarks(executions[i], trades))
    {
      ExecutionMatchedOnce(pairing, executions, trades, i);
    }
    forall j | 0 <= j < |trades|
      ensures OneMark(ExecutionMarks(executions, trades[j]))
    {
      TradeMatchedOnce(pairing, executions, trades, j);
    }
  }

  /**
   * Executions and trades that match one to one are paired by a bijection of the same fills, so
   * there are equally many, of equal total quantity and equal total fee.
   */
  lemma MatchingIsBijection(executions: seq<Execution>, trades: seq<Transaction>)
    requires OneToOne(executions, trades)
    ensures Paired(executions, trades)
    ensures |executions| == |trades|
    ensures Sum(ExecutionQuantities(executions)) == Sum(TradeQuantities(trades))
    ensures Sum(ExecutionFees(executions)) == Sum(TradeFees(trades))
  {
    hide OneToOne, Amount, Stated, Sum;
    var pairing := PairingExists(executions, trades);
    PermutedSum(TradeQuantities(trades), pairing);
    PermutedSum(TradeFees(trades), pairing);
    forall i | 0 <= i < |executions|
      ensures AmountOr0(Some(executions[i].execQty)) == AmountOr0(trades[pairing[i]].qty)
      ensures AmountOr0(executions[i].execFee) == AmountOr0(trades[pairing[i]].fee)
    {
      assert SameFill(executions[i], trades[pairing[i]]);
    }
    assert Pick(TradeQuantities(trades), pairing) == ExecutionQuantities(executions);
    assert Pick(TradeFees(trades), pairing) == ExecutionFees(executions);
  }

  // -------------------------------------------------------------- closed PnL

  predicate Closes(e: Execution, row: ClosedPnlRow) {
    e.execType == "Trade" && e.orderId == row.orderId && e.category == row.category && e.symbol == row.symbol
  }

  function CloseExecutions(executions: seq<Execution>, row: ClosedPnlRow): seq<Execution> {
    if executions == [] then []
    else
      var last := executions[|executions| - 1];
      CloseExecutions(executions[..|executions| - 1], row) + if Closes(last, row) then [last] else []
  }

  /** Of each execution as many as there are, if it is a trade of the closed order and instrument. */
  lemma {:induction false} CloseExecutionsMeaning(executions: seq<Execution>, row: ClosedPnlRow, e: Execution)
    ensures multiset(CloseExecutions(executions, row))[e] ==
      if e.execType == "Trade" && (e.orderId, e.category, e.symbol) == (row.orderId, row.category, row.symbol)
      then multiset(executions)[e] else 0
  {
    if executions != [] {
      var init, last := executions[..|executions| - 1], executions[|executions| - 1];
      CloseExecutionsMeaning(init, row, e);
      assert executions == init + [last];
    }
  }

  /** The fees added up, unless one of them is missing or no decimal. */
  function FeeTotal(executions: seq<Execution>): Option<Normal> {
    if executions == [] then Some(ZERO)
    else
      var before, fee := FeeTotal(executions[..|executions| - 1]), executions[|executions| - 1].execFee;
      if before.Some? && fee.Some? && ParseAmount(fee.value).Some? then Some(Add(before.value, ParseAmount(fee.value).value))
      else None
  }

  predicate CloseAgrees(row: ClosedPnlRow, supporting: seq<Execution>) {
    var closes := CloseExecutions(supporting, row);
    && closes != [] && row.closeFee.Some? && row.fillCount.Some?
    && row.fillCount.value != "" && AllDigits(row.fillCount.value) && Number(row.fillCount.value) == |closes|
    && FeeTotal(closes).Some?
    && ExactDecimalMatch(Printed(FeeTotal(closes)), row.closeFee)
  }

  lemma {:induction false} FeeTotalMeaning(executions: seq<Execution>)
    ensures FeeTotal(executions).Some? <==> forall e :: e in executions ==> Stated(e.execFee)
    ensures FeeTotal(executions).Some? ==> Value(FeeTotal(executions).value) == Sum(ExecutionFees(executions))
  {
    if executions != [] {
      hide Value, Plus, ParseDecimal;
      var init, last := executions[..|executions| - 1], executions[|executions| - 1];
      FeeTotalMeaning(init);
      assert forall e :: e in executions <==> e in init || e == last;
      assert ExecutionFees(executions) == ExecutionFees(init) + [AmountOr0(last.execFee)];
      if FeeTotal(executions).Some? {
        PlusIsExact(FeeTotal(init).value, ParseAmount(last.execFee.value).value);
        assert ExecutionFees(executions)[..|init|] == ExecutionFees(init);
      }
    }
  }

  /** A closed-PnL row agrees with its executions exactly when they are as many as it counts and their fees add up to its close fee. */
  lemma CloseMeaning(row: ClosedPnlRow, supporting: seq<Execution>)
    ensures CloseAgrees(row, supporting) <==>
      var closes := CloseExecutions(supporting, row);
      && closes != [] && row.fillCount.Some? && row.fillCount.value != ""
      && AllDigits(row.fillCount.value) && Number(row.fillCount.value) == |closes|
      && (forall e :: e in closes ==> Stated(e.execFee))
      && Stated(row.closeFee) && Amount(row.closeFee) == Sum(ExecutionFees(closes))
  {
    var closes := CloseExecutions(supporting, row);
    FeeTotalMeaning(closes);
    PrintedMeaning(FeeTotal(closes));
    ExactMatchMeaning(Printed(FeeTotal(closes)), row.closeFee);
    hide ExactDecimalMatch, FeeTotal, Printed, Amount, Number, AllDigits, CloseExecutions;
  }

  // ------------------------------------------------------------ verification

  method VerifyExecutionAndCloseEvidence(transactions: seq<Transaction>, epochExecutions: seq<Execution>,
                                         supporting: seq<Execution>, closedPnlRows: seq<ClosedPnlRow>)
    returns (reasons: set<Reason>)
    ensures reasons <= {TransactionExecutionMismatch, ClosedPnlExecutionMismatch}
    ensures TransactionExecutionMismatch !in reasons <==>
              && (forall e :: e in epochExecutions ==> e.execType == "Trade")
              && OneToOne(TradeExecutionsOf(epochExecutions), TradesOf(transactions))
    ensures ClosedPnlExecutionMismatch !in reasons <==> forall row :: row in closedPnlRows ==> CloseAgrees(row, supporting)
  {
    reasons := {};
    var trades, executions := TradesOf(transactions), TradeExecutionsOf(epochExecutions);
    hide ExecutionMatchesTransaction, OneMark, Marked, TransactionMarks, ExecutionMarks, TradesOf, TradeExecutionsOf, CloseAgrees;
    if exists e :: e in epochExecutions && e.execType != "Trade" {
      reasons := reasons + {TransactionExecutionMismatch};
    }
    ghost var onlyTrades := forall e :: e in epochExecutions ==> e.execType == "Trade";
    for i := 0 to |executions|
      invariant reasons <= {TransactionExecutionMismatch}
      invariant TransactionExecutionMismatch !in reasons <==>
        onlyTrades && forall k :: 0 <= k < i ==> OneMark(TransactionMarks(executions[k], trades))
    {
      MarkedOnce(TransactionMarks(executions[i], trades));
      if Marked(TransactionMarks(executions[i], trades)) != 1 {
        reasons := reasons + {TransactionExecutionMismatch};
      }
    }
    for j := 0 to |trades|
      invariant reasons <= {TransactionExecutionMismatch}
      invariant TransactionExecutionMismatch !in reasons <==>
        && onlyTrades
        && (forall k :: 0 <= k < |executions| ==> OneMark(TransactionMarks(executions[k], trades)))
        && (forall k :: 0 <= k < j ==> OneMark(ExecutionMarks(executions, trades[k])))
    {
      MarkedOnce(ExecutionMarks(executions, trades[j]));
      if Marked(ExecutionMarks(executions, trades[j])) != 1 {
        reasons := reasons + {TransactionExecutionMismatch};
      }
    }
    assert TransactionExecutionMismatch !in reasons <==> onlyTrades && OneToOne(executions, trades);
    hide OneToOne;
    ghost var matched := TransactionExecutionMismatch !in reasons;
    for i := 0 to |closedPnlRows|
      invariant reasons <= {TransactionExecutionMismatch, ClosedPnlExecutionMismatch}
      invariant TransactionExecutionMismatch !in reasons <==> matched
      invariant ClosedPnlExecutionMismatch !in reasons <==> forall k :: 0 <= k < i ==> CloseAgrees(closedPnlRows[k], supporting)
    {
      if !CloseAgrees(closedPnlRows[i], supporting) {
        reasons := reasons + {ClosedPnlExecutionMismatch};
      }
    }
  }
}
