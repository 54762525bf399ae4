/**
 * Accounting ingestion of exchange fills (src/application/accounting-ingestion.ts and
 * defaultAccountingIngestor, demo-entry-use-case.ts) over a fact store that keeps the first fact of an identity.
 */
module Ingestion {
  import opened Common
  import opened Orders
  import opened Sums
  import opened Decimals
  import opened Journal

  /** An execution as the exchange reports it. */
  datatype Execution = Execution(
    executionId: string, exchangeOrderId: string, clientOrderId: string, instrument: string, side: Side,
    quantity: Normal, price: Normal, fee: Option<Normal>, feeCurrency: Option<string>, executedAt: int, source: string)

  datatype FactKind = FillKind | FeeKind | LedgerKind

  /** The identity of an accounting event; its digest is taken to be injective. */
  datatype Identity = Identity(
    kind: FactKind, scope: JournalScope, attemptId: string, executionId: string, eventKey: string)

  datatype Body =
    | FillBody(attemptId: string, exchangeOrderId: string, instrument: string, side: Side, quantity: Normal, price: Normal,
               executedAt: int, source: string)
    | FeeBody(amount: Normal, currency: string, chargedAt: int, source: string)
    | LedgerBody(isFill: bool, amount: Normal, currency: string, occurredAt: int, reference: Identity)

  datatype Fact = Fact(identity: Identity, body: Body)

  type Facts = map<Identity, Body>

  datatype Context = Context(scope: JournalScope, attemptId: string, lineageId: string)

  datatype IngestError = InvalidFill | StoreFailed | FactConflict

  datatype Stored = Inserted | Duplicate

  const MINUS_ONE: Normal := Decimal(-1, 0)

  function Multiply(a: Normal, b: Normal): Normal {
    TimesIsExact(a, b);
    Times(a, b)
  }

  predicate IsValid(x: Execution) {
    && x.quantity.coefficient > 0 && x.price.coefficient > 0
    && (x.fee.Some? <==> x.feeCurrency.Some?) && (x.fee.Some? ==> x.fee.value.coefficient >= 0)
  }

  function EventKey(context: Context, x: Execution): string {
    context.lineageId + ":" + x.executionId
  }

  function IdentityOf(kind: FactKind, context: Context, x: Execution, eventKey: string): Identity {
    Identity(kind, context.scope, context.attemptId, x.executionId, eventKey)
  }

  function SignedFillAmount(x: Execution): Normal {
    var notional := Multiply(x.price, x.quantity);
    if x.side == Buy then Multiply(notional, MINUS_ONE) else notional
  }

  function FillFactOf(context: Context, x: Execution): Fact {
    Fact(IdentityOf(FillKind, context, x, EventKey(context, x)),
         FillBody(context.attemptId, x.exchangeOrderId, x.instrument, x.side, x.quantity, x.price, x.executedAt, x.source))
  }

  function FillLedgerOf(context: Context, x: Execution): Fact {
    Fact(IdentityOf(LedgerKind, context, x, EventKey(context, x)),
         LedgerBody(true, SignedFillAmount(x), "USDT", x.executedAt, FillFactOf(context, x).identity))
  }

  function FeeFactOf(context: Context, x: Execution): Fact
    requires x.fee.Some? && x.feeCurrency.Some?
  {
    Fact(IdentityOf(FeeKind, context, x, EventKey(context, x)), FeeBody(x.fee.value, x.feeCurrency.value, x.executedAt, x.source))
  }

  function FeeLedgerOf(context: Context, x: Execution): Fact
    requires x.fee.Some? && x.feeCurrency.Some?
  {
    Fact(IdentityOf(LedgerKind, context, x, EventKey(context, x) + ":fee"),
         LedgerBody(false, Multiply(x.fee.value, MINUS_ONE), x.feeCurrency.value, x.executedAt, FeeFactOf(context, x).identity))
  }

  /** The facts of one execution, in the order they are stored. */
  function FactsOf(context: Context, x: Execution): seq<Fact> {
    [FillFactOf(context, x), FillLedgerOf(context, x)]
    + if x.fee.Some? && x.feeCurrency.Some? then [FeeFactOf(context, x), FeeLedgerOf(context, x)] else []
  }

  function AllFacts(context: Context, fills: seq<Execution>): seq<Fact> {
    if fills == [] then [] else AllFacts(context, fills[..|fills| - 1]) + FactsOf(context, fills[|fills| - 1])
  }

  // ------------------------------------------------------------------- store

  /** The first fact of an identity stays. */
  function Put(facts: Facts, f: Fact): Facts {
    if f.identity in facts then facts else facts[f.identity := f.body]
  }

  function PutAll(facts: Facts, fs: seq<Fact>): Facts {
    if fs == [] then facts else Put(PutAll(facts, fs[..|fs| - 1]), fs[|fs| - 1])
  }

  class FactStore {
    var facts: Facts

    constructor (facts: Facts)
      ensures this.facts == facts
    {
      this.facts := facts;
    }

    /** Stores the fact unless its identity is taken; refuses a different fact of that identity; may fail with or without storing it. */
    method Ingest(f: Fact) returns (r: Result<Stored, IngestError>)
      modifies this
      ensures facts == old(facts) || facts == Put(old(facts), f)
      ensures r.Ok? ==> facts == Put(old(facts), f) && facts[f.identity] == f.body
      ensures r.Ok? ==> (r.value == Inserted <==> f.identity !in old(facts))
    {
      if f.identity in facts && facts[f.identity] != f.body {
        return Err(FactConflict);
      }
      var stored, failed: bool := *, *;
      var taken := f.identity in facts;
      if stored || !failed {
        facts := Put(facts, f);
      }
      r := if failed then Err(StoreFailed) else if taken then Ok(Duplicate) else Ok(Inserted);
    }
  }

  /** `after` is `before` with the first `n` facts put, one after another. */
  ghost predicate PutSome(before: Facts, fs: seq<Fact>, after: Facts) {
    exists n :: 0 <= n <= |fs| && after == PutAll(before, fs[..n])
  }

  /** The identities of one kind. */
  ghost function OfKind(facts: Facts, kind: FactKind): set<Identity> {
    set id | id in facts && id.kind == kind
  }

  /** How many of the facts reported on were inserted and are of a kind. */
  ghost function Inserts(fs: seq<Fact>, stored: seq<Stored>, kind: FactKind): nat
    requires |stored| <= |fs|
  {
    if stored == [] then 0
    else
      var n := |stored| - 1;
      Inserts(fs, stored[..n], kind) + if stored[n] == Inserted && fs[n].identity.kind == kind then 1 else 0
  }

  function One(stored: seq<Stored>, i: nat): nat {
    if i < |stored| && stored[i] == Inserted then 1 else 0
  }

  /** The first is the fill, the third the fee and the others are ledger entries. */
  predicate FillThenFee(fs: seq<Fact>) {
    && (|fs| == 2 || (|fs| == 4 && fs[2].identity.kind == FeeKind && fs[3].identity.kind == LedgerKind))
    && fs[0].identity.kind == FillKind && fs[1].identity.kind == LedgerKind
  }

  lemma InsertsNext(fs: seq<Fact>, stored: seq<Stored>, i: nat, kind: FactKind)
    requires i < |stored| <= |fs|
    ensures Inserts(fs, stored[..i + 1], kind)
            == Inserts(fs, stored[..i], kind) + if stored[i] == Inserted && fs[i].identity.kind == kind then 1 else 0
  {
    assert stored[..i + 1][..i] == stored[..i];
  }

  lemma InsertsByPlace(fs: seq<Fact>, stored: seq<Stored>, kind: FactKind)
    requires |stored| == |fs| && FillThenFee(fs)
    ensures Inserts(fs, stored, kind)
            == match kind case FillKind => One(stored, 0) case FeeKind => One(stored, 2) case LedgerKind => One(stored, 1) + One(stored, 3)
  {
    InsertsNext(fs, stored, 0, kind);
    InsertsNext(fs, stored, 1, kind);
    if |fs| == 4 {
      InsertsNext(fs, stored, 2, kind);
      InsertsNext(fs, stored, 3, kind);
    }
    assert stored[..0] == [] && stored[..|stored|] == stored && Inserts(fs, [], kind) == 0;
    hide Inserts;
  }

  lemma KindsByPlace(context: Context, x: Execution)
    ensures FillThenFee(FactsOf(context, x))
  {
  }

  lemma PutNext(before: Facts, fs: seq<Fact>, n: nat)
    requires n < |fs|
    ensures PutAll(before, fs[..n + 1]) == Put(PutAll(before, fs[..n]), fs[n])
  {
    assert fs[..n + 1][..n] == fs[..n];
  }

  lemma PutSomeUpTo(before: Facts, fs: seq<Fact>, n: nat)
    requires n <= |fs|
    ensures PutSome(before, fs, PutAll(before, fs[..n]))
  {
  }

  lemma {:induction false} PutConcat(before: Facts, a: seq<Fact>, b: seq<Fact>)
    ensures PutAll(before, a + b) == PutAll(PutAll(before, a), b)
    decreases |b|
  {
    if b == [] {
      assert a + b == a;
    } else {
      var init := b[..|b| - 1];
      PutConcat(before, a, init);
      assert (a + b)[..|a + b| - 1] == a + init;
    }
  }

  lemma PutGrows(facts: Facts, f: Fact, kind: FactKind)
    ensures |OfKind(Put(facts, f), kind)| == |OfKind(facts, kind)| + if f.identity !in facts && f.identity.kind == kind then 1 else 0
  {
    if f.identity !in facts && f.identity.kind == kind {
      assert OfKind(Put(facts, f), kind) == OfKind(facts, kind) + {f.identity};
    } else {
      assert OfKind(Put(facts, f), kind) == OfKind(facts, kind);
    }
  }

  /** Store one execution's facts in turn, stopping at the first that fails. */
  method IngestFill(store: FactStore, context: Context, x: Execution) returns (r: Result<seq<Stored>, IngestError>)
    modifies store
    ensures PutSome(old(store.facts), FactsOf(context, x), store.facts)
    ensures r.Ok? ==> IsValid(x) && store.facts == PutAll(old(store.facts), FactsOf(context, x)) && |r.value| == |FactsOf(context, x)|
    ensures r.Ok? ==> forall k :: |OfKind(store.facts, k)| == |OfKind(old(store.facts), k)| + Inserts(FactsOf(context, x), r.value, k)
    ensures !IsValid(x) ==> r.Err? && store.facts == old(store.facts)
  {
    ghost var before := store.facts;
    var all := FactsOf(context, x);
    assert all[..0] == [] && all[..|all|] == all;
    hide FactsOf, Put, OfKind;
    PutSomeUpTo(before, all, 0);
    if !IsValid(x) {
      return Err(InvalidFill);
    }
    var stored: seq<Stored> := [];
    for i := 0 to |all|
      invariant store.facts == PutAll(before, all[..i]) && |stored| == i
      invariant forall k :: |OfKind(store.facts, k)| == |OfKind(before, k)| + Inserts(all, stored, k)
    {
      PutSomeUpTo(before, all, i);
      PutNext(before, all, i);
      PutSomeUpTo(before, all, i + 1);
      ghost var start := store.facts;
      var one := store.Ingest(all[i]);
      if one.Err? {
        return Err(one.error);
      }
      forall k {
        PutGrows(start, all[i], k);
      }
      assert (stored + [one.value])[..i] == stored;
      stored := stored + [one.value];
    }
    PutSomeUpTo(before, all, |all|);
    r := Ok(stored);
  }

  /** The default ingestor: fills in turn, stopping at the first that fails. */
  method IngestAll(store: FactStore, context: Context, fills: seq<Execution>) returns (r: Result<(nat, nat, nat), IngestError>)
    modifies store
    ensures PutSome(old(store.facts), AllFacts(context, fills), store.facts)
    ensures r.Ok? ==> store.facts == PutAll(old(store.facts), AllFacts(context, fills))
    ensures r.Ok? ==>
      && |OfKind(store.facts, FillKind)| == |OfKind(old(store.facts), FillKind)| + r.value.0
      && |OfKind(store.facts, FeeKind)| == |OfKind(old(store.facts), FeeKind)| + r.value.1
      && |OfKind(store.facts, LedgerKind)| == |OfKind(old(store.facts), LedgerKind)| + r.value.2
  {
    ghost var before := store.facts;
    ghost var all := AllFacts(context, fills);
    var fillCount: nat, feeCount: nat, ledgerCount: nat := 0, 0, 0;
    assert fills[..0] == [] && fills[..|fills|] == fills;
    for i := 0 to |fills|
      invariant store.facts == PutAll(before, AllFacts(context, fills[..i]))
      invariant |OfKind(store.facts, FillKind)| == |OfKind(before, FillKind)| + fillCount
      invariant |OfKind(store.facts, FeeKind)| == |OfKind(before, FeeKind)| + feeCount
      invariant |OfKind(store.facts, LedgerKind)| == |OfKind(before, LedgerKind)| + ledgerCount
    {
      hide FactsOf, PutSome, OfKind, Inserts;
      ghost var start := store.facts;
      var one := IngestFill(store, context, fills[i]);
      AnotherFill(before, context, fills, i, start, store.facts);
      if one.Err? {
        return Err(one.error);
      }
      KindsByPlace(context, fills[i]);
      InsertsByPlace(FactsOf(context, fills[i]), one.value, FillKind);
      InsertsByPlace(FactsOf(context, fills[i]), one.value, FeeKind);
      InsertsByPlace(FactsOf(context, fills[i]), one.value, LedgerKind);
      fillCount := fillCount + One(one.value, 0);
      feeCount := feeCount + One(one.value, 2);
      ledgerCount := ledgerCount + One(one.value, 1) + One(one.value, 3);
    }
    assert all[..|all|] == all;
    PutSomeUpTo(before, all, |all|);
    r := Ok((fillCount, feeCount, ledgerCount));
  }

  lemma {:induction false} PrefixOfAll(context: Context, fills: seq<Execution>, i: nat)
    requires i <= |fills|
    ensures AllFacts(context, fills[..i]) <= AllFacts(context, fills)
    decreases |fills| - i
  {
    if i < |fills| {
      PrefixOfAll(context, fills, i + 1);
      assert fills[..i + 1][..i] == fills[..i];
    } else {
      assert fills[..i] == fills;
    }
  }

  lemma AnotherFill(before: Facts, context: Context, fills: seq<Execution>, i: nat, start: Facts, after: Facts)
    requires i < |fills| && start == PutAll(before, AllFacts(context, fills[..i])) && PutSome(start, FactsOf(context, fills[i]), after)
    ensures PutSome(before, AllFacts(context, fills), after)
    ensures after == PutAll(start, FactsOf(context, fills[i])) ==> after == PutAll(before, AllFacts(context, fills[..i + 1]))
  {
    hide FactsOf, PutAll;
    var done, next := AllFacts(context, fills[..i]), FactsOf(context, fills[i]);
    assert fills[..i + 1][..i] == fills[..i];
    assert AllFacts(context, fills[..i + 1]) == done + next;
    PutConcat(before, done, next);
    PrefixOfAll(context, fills, i + 1);
    var n :| 0 <= n <= |next| && after == PutAll(start, next[..n]);
    PutConcat(before, done, next[..n]);
    var all := AllFacts(context, fills);
    assert all[..|done| + n] == done + next[..n];
    PutSomeUpTo(before, all, |done| + n);
  }

  // ------------------------------------------------------------- idempotence

  /** An identity has one body. */
  ghost predicate Consistent(fs: seq<Fact>) {
    forall f, g :: f in fs && g in fs && f.identity == g.identity ==> f.body == g.body
  }

  ghost predicate Occurs(fs: seq<Fact>, id: Identity, body: Body) {
    Fact(id, body) in fs
  }

  /** Putting consistent facts adds exactly those whose identity is not taken. */
  lemma {:induction false} PutAllMeaning(facts: Facts, fs: seq<Fact>)
    requires Consistent(fs)
    ensures forall id :: id in PutAll(facts, fs) <==> id in facts || exists f :: f in fs && f.identity == id
    ensures forall id :: id in facts ==> PutAll(facts, fs)[id] == facts[id]
    ensures forall f :: f in fs && f.identity !in facts ==> PutAll(facts, fs)[f.identity] == f.body
  {
    if fs != [] {
      var init, last := fs[..|fs| - 1], fs[|fs| - 1];
      assert forall f :: f in fs <==> f in init || f == last;
      PutAllMeaning(facts, init);
    }
  }

  /** A complete pass after any part of it leaves what the complete pass alone leaves. */
  lemma PartThenAll(facts: Facts, part: seq<Fact>, fs: seq<Fact>)
    requires Consistent(fs) && forall f :: f in part ==> f in fs
    ensures PutAll(PutAll(facts, part), fs) == PutAll(facts, fs)
  {
    PutAllMeaning(facts, fs);
    PutAllMeaning(facts, part);
    PutAllMeaning(PutAll(facts, part), fs);
    hide PutAll;
    var a, b := PutAll(PutAll(facts, part), fs), PutAll(facts, fs);
    forall id
      ensures id in a <==> id in b
      ensures id in a && id in b ==> a[id] == b[id]
    {
      if id in b && id !in facts {
        var f :| f in fs && f.identity == id;
        if id in PutAll(facts, part) {
          var g :| g in part && g.identity == id;
        }
      }
    }
  }

  function PutEach(facts: Facts, attempts: seq<seq<Fact>>): Facts {
    if attempts == [] then facts else PutAll(PutEach(facts, attempts[..|attempts| - 1]), attempts[|attempts| - 1])
  }

  /**
   * Crash idempotence: whatever earlier attempts stored of the fills' facts, in whatever order and
   * however far each got, one complete ingest leaves the same facts as if it had been the only one.
   */
  lemma {:induction false} Replays(facts: Facts, attempts: seq<seq<Fact>>, fs: seq<Fact>)
    requires Consistent(fs) && forall a, f :: a in attempts && f in a ==> f in fs
    ensures PutAll(PutEach(facts, attempts), fs) == PutAll(facts, fs)
  {
    if attempts != [] {
      var init, last := attempts[..|attempts| - 1], attempts[|attempts| - 1];
      assert last in attempts;
      PartThenAll(PutEach(facts, init), last, fs);
      Replays(facts, init, fs);
    }
  }

  /** An execution is reported alike whenever it is listed. */
  ghost predicate SameExecutions(fills: seq<Execution>) {
    forall a, b :: a in fills && b in fills && a.executionId == b.executionId ==> a == b
  }

  lemma {:induction false} AllFactsMembers(context: Context, fills: seq<Execution>)
    ensures forall f :: f in AllFacts(context, fills) <==> exists x :: x in fills && f in FactsOf(context, x)
  {
    if fills != [] {
      hide FactsOf;
      var init, last := fills[..|fills| - 1], fills[|fills| - 1];
      AllFactsMembers(context, init);
      assert forall x :: x in fills <==> x in init || x == last;
    }
  }

  lemma FactsAreKeyed(context: Context, x: Execution, f: Fact)
    requires f in FactsOf(context, x)
    ensures f.identity.executionId == x.executionId
  {
  }

  /** The facts of one execution have identities of their own: the ":fee" suffix separates the two ledger entries. */
  lemma OwnIdentities(context: Context, x: Execution, f: Fact, g: Fact)
    requires f in FactsOf(context, x) && g in FactsOf(context, x) && f.identity == g.identity
    ensures f == g
  {
    assert |EventKey(context, x) + ":fee"| != |EventKey(context, x)|;
  }

  lemma FillFactsConsistent(context: Context, fills: seq<Execution>)
    requires SameExecutions(fills)
    ensures Consistent(AllFacts(context, fills))
  {
    AllFactsMembers(context, fills);
    forall f, g | f in AllFacts(context, fills) && g in AllFacts(context, fills) && f.identity == g.identity
      ensures f.body == g.body
    {
      hide FactsOf, AllFacts;
      var x :| x in fills && f in FactsOf(context, x);
      var y :| y in fills && g in FactsOf(context, y);
      FactsAreKeyed(context, x, f);
      FactsAreKeyed(context, y, g);
      OwnIdentities(context, x, f, g);
    }
  }

  /** Each step is what an ingest of its list may leave, failed or not: a prefix of its facts put. */
  ghost predicate AreAttempts(states: seq<Facts>, context: Context, lists: seq<seq<Execution>>) {
    && |states| == |lists| + 1
    && forall i :: 0 <= i < |lists| ==> PutSome(states[i], AllFacts(context, lists[i]), states[i + 1])
  }

  lemma FactsWithin(context: Context, some: seq<Execution>, fills: seq<Execution>)
    requires forall x :: x in some ==> x in fills
    ensures forall f :: f in AllFacts(context, some) ==> f in AllFacts(context, fills)
  {
    AllFactsMembers(context, some);
    AllFactsMembers(context, fills);
    hide FactsOf, AllFacts;
  }

  /** What a part of the ingested lists leaves behind makes no difference to a complete ingest. */
  lemma {:induction false} AttemptsVanish(states: seq<Facts>, context: Context, lists: seq<seq<Execution>>, fills: seq<Execution>)
    requires SameExecutions(fills) && AreAttempts(states, context, lists)
    requires forall i :: 0 <= i < |lists| ==> forall x :: x in lists[i] ==> x in fills
    ensures PutAll(states[|lists|], AllFacts(context, fills)) == PutAll(states[0], AllFacts(context, fills))
    decreases |lists|
  {
    if lists != [] {
      var n := |lists| - 1;
      var all, last := AllFacts(context, fills), AllFacts(context, lists[n]);
      AttemptsVanish(states[..n + 1], context, lists[..n], fills);
      FillFactsConsistent(context, fills);
      FactsWithin(context, lists[n], fills);
      hide PutAll, AllFacts, Consistent, SameExecutions;
      var k :| 0 <= k <= |last| && states[n + 1] == PutAll(states[n], last[..k]);
      assert forall f :: f in last[..k] ==> f in last;
      PartThenAll(states[n], last[..k], all);
    }
  }

  /**
   * Crash idempotence of the ingestor: after any number of ingests of these fills or of some of
   * them, each as far as it got, one that completes leaves the store that it alone would leave.
   */
  method CompleteIngest(store: FactStore, context: Context, fills: seq<Execution>, ghost states: seq<Facts>, ghost lists: seq<seq<Execution>>)
    returns (r: Result<(nat, nat, nat), IngestError>)
    requires SameExecutions(fills) && AreAttempts(states, context, lists) && states[|lists|] == store.facts
    requires forall i :: 0 <= i < |lists| ==> forall x :: x in lists[i] ==> x in fills
    modifies store
    ensures r.Ok? ==> store.facts == PutAll(states[0], AllFacts(context, fills))
    ensures AreAttempts(states + [store.facts], context, lists + [fills])
  {
    hide PutSome, PutAll, AllFacts, SameExecutions;
    AttemptsVanish(states, context, lists, fills);
    r := IngestAll(store, context, fills);
  }

  // ------------------------------------------------------------------ ledger

  ghost function LedgerAmount(facts: Facts, id: Identity, currency: string): real {
    if id in facts && facts[id].LedgerBody? && facts[id].currency == currency then Value(facts[id].amount) else 0.0
  }

  ghost function LedgerAmounts(facts: Facts, ids: seq<Identity>, currency: string): seq<real> {
    seq(|ids|, i requires 0 <= i < |ids| => LedgerAmount(facts, ids[i], currency))
  }

  /** A list of every ledger identity of the store, each once. */
  ghost predicate ListsLedger(ids: seq<Identity>, facts: Facts) {
    Distinct(ids) && forall id :: id in ids <==> id in facts && facts[id].LedgerBody?
  }

  ghost function Notional(x: Execution): real {
    Value(x.price) * Value(x.quantity)
  }

  /** The net cash of one execution in a currency: sell notional, less buy notional, in USDT; less the fee in its own currency. */
  ghost function NetCash(x: Execution, currency: string): real {
    (if currency != "USDT" then 0.0 else if x.side == Buy then -Notional(x) else Notional(x))
    - (if x.fee.Some? && x.feeCurrency == Some(currency) then Value(x.fee.value) else 0.0)
  }

  ghost function NetCashes(fills: seq<Execution>, currency: string): seq<real> {
    seq(|fills|, i requires 0 <= i < |fills| => NetCash(fills[i], currency))
  }

  lemma MinusOneNegates(a: Normal)
    ensures Value(Multiply(a, MINUS_ONE)) == -Value(a)
  {
    TimesIsExact(a, MINUS_ONE);
    assert Value(MINUS_ONE) == -1.0;
  }

  lemma NotionalIsProduct(x: Execution)
    ensures Value(Multiply(x.price, x.quantity)) == Notional(x)
  {
    hide Value, Times;
    TimesIsExact(x.price, x.quantity);
  }

  lemma SignedAmountMeaning(x: Execution)
    ensures Value(SignedFillAmount(x)) == if x.side == Buy then -Notional(x) else Notional(x)
  {
    hide Value, Notional, Multiply;
    NotionalIsProduct(x);
    MinusOneNegates(Multiply(x.price, x.quantity));
  }

  /** The ledger identities of one execution. */
  ghost function LedgerIds(context: Context, x: Execution): seq<Identity> {
    [FillLedgerOf(context, x).identity] + if x.fee.Some? && x.feeCurrency.Some? then [FeeLedgerOf(context, x).identity] else []
  }

  ghost function AllLedgerIds(context: Context, fills: seq<Execution>): seq<Identity> {
    if fills == [] then [] else AllLedgerIds(context, fills[..|fills| - 1]) + LedgerIds(context, fills[|fills| - 1])
  }

  lemma OwnLedgerIds(context: Context, x: Execution)
    ensures Distinct(LedgerIds(context, x))
    ensures forall id :: id in LedgerIds(context, x) ==> id.executionId == x.executionId
  {
    assert |EventKey(context, x) + ":fee"| != |EventKey(context, x)|;
  }

  /** No execution occurs twice. */
  ghost predicate DistinctExecutions(fills: seq<Execution>) {
    forall i, j :: 0 <= i < j < |fills| ==> fills[i].executionId != fills[j].executionId
  }

  lemma {:induction false} LedgerIdMembers(context: Context, fills: seq<Execution>)
    requires DistinctExecutions(fills)
    ensures forall id :: id in AllLedgerIds(context, fills) <==> exists x :: x in fills && id in LedgerIds(context, x)
    ensures Distinct(AllLedgerIds(context, fills))
  {
    if fills != [] {
      hide LedgerIds, Distinct;
      var init, last := fills[..|fills| - 1], fills[|fills| - 1];
      LedgerIdMembers(context, init);
      assert forall x :: x in fills <==> x in init || x == last;
      OwnLedgerIds(context, last);
      forall id | id in AllLedgerIds(context, init)
        ensures id !in LedgerIds(context, last)
      {
        var x :| x in init && id in LedgerIds(context, x);
        OwnLedgerIds(context, x);
      }
      DistinctConcat(AllLedgerIds(context, init), LedgerIds(context, last));
    } else {
      NoIds();
    }
  }

  lemma NoIds()
    ensures Distinct<Identity>([])
  {
  }

  lemma {:induction false} SumOverIds(facts: Facts, context: Context, fills: seq<Execution>, currency: string)
    requires forall x :: x in fills ==> IsValid(x) && forall f :: f in FactsOf(context, x) ==> f.identity in facts && facts[f.identity] == f.body
    ensures Sum(LedgerAmounts(facts, AllLedgerIds(context, fills), currency)) == Sum(NetCashes(fills, currency))
  {
    if fills != [] {
      var init, last := fills[..|fills| - 1], fills[|fills| - 1];
      assert last in fills;
      SumOverIds(facts, context, init, currency);
      SumOfOneFill(facts, context, last, currency);
      hide FactsOf, LedgerIds, IsValid, NetCash, LedgerAmount, Value;
      var ids := AllLedgerIds(context, init);
      assert LedgerAmounts(facts, ids + LedgerIds(context, last), currency)
        == LedgerAmounts(facts, ids, currency) + LedgerAmounts(facts, LedgerIds(context, last), currency);
      SumConcat(LedgerAmounts(facts, ids, currency), LedgerAmounts(facts, LedgerIds(context, last), currency));
      assert NetCashes(fills, currency)[..|init|] == NetCashes(init, currency);
    }
  }

  lemma LedgerBodies(facts: Facts, context: Context, x: Execution, currency: string)
    requires forall f :: f in FactsOf(context, x) ==> f.identity in facts && facts[f.identity] == f.body
    ensures LedgerAmount(facts, FillLedgerOf(context, x).identity, currency)
            == if currency == "USDT" then Value(SignedFillAmount(x)) else 0.0
    ensures x.fee.Some? && x.feeCurrency.Some? ==>
      LedgerAmount(facts, FeeLedgerOf(context, x).identity, currency)
      == if currency == x.feeCurrency.value then Value(Multiply(x.fee.value, MINUS_ONE)) else 0.0
  {
    hide SignedFillAmount, Multiply, Value, EventKey;
    var all := FactsOf(context, x);
    assert all[1] == FillLedgerOf(context, x);
    assert x.fee.Some? && x.feeCurrency.Some? ==> all[3] == FeeLedgerOf(context, x);
  }

  lemma AmountOfOne(facts: Facts, a: Identity, currency: string)
    ensures Sum(LedgerAmounts(facts, [a], currency)) == LedgerAmount(facts, a, currency)
  {
    hide LedgerAmount;
    SumOfOne(LedgerAmount(facts, a, currency));
    assert LedgerAmounts(facts, [a], currency) == [LedgerAmount(facts, a, currency)];
  }

  lemma AmountOfTwo(facts: Facts, a: Identity, b: Identity, currency: string)
    ensures Sum(LedgerAmounts(facts, [a] + [b], currency)) == LedgerAmount(facts, a, currency) + LedgerAmount(facts, b, currency)
  {
    AmountOfOne(facts, a, currency);
    AmountOfOne(facts, b, currency);
    SumConcat(LedgerAmounts(facts, [a], currency), LedgerAmounts(facts, [b], currency));
    hide LedgerAmount, Sum;
    assert LedgerAmounts(facts, [a] + [b], currency) == LedgerAmounts(facts, [a], currency) + LedgerAmounts(facts, [b], currency);
  }

  lemma SumOfOneFill(facts: Facts, context: Context, x: Execution, currency: string)
    requires IsValid(x) && forall f :: f in FactsOf(context, x) ==> f.identity in facts && facts[f.identity] == f.body
    ensures Sum(LedgerAmounts(facts, LedgerIds(context, x), currency)) == NetCash(x, currency)
  {
    LedgerBodies(facts, context, x, currency);
    SignedAmountMeaning(x);
    hide FactsOf, FillLedgerOf, FeeLedgerOf, SignedFillAmount, Multiply, Value, LedgerAmount, LedgerAmounts, Sum, Notional;
    if x.fee.Some? {
      MinusOneNegates(x.fee.value);
      AmountOfTwo(facts, FillLedgerOf(context, x).identity, FeeLedgerOf(context, x).identity, currency);
    } else {
      AmountOfOne(facts, FillLedgerOf(context, x).identity, currency);
      assert LedgerIds(context, x) == [FillLedgerOf(context, x).identity];
    }
  }

  lemma AmountWithout(facts: Facts, a: seq<Identity>, i: nat, currency: string)
    requires i < |a|
    ensures Sum(LedgerAmounts(facts, a, currency)) == Sum(LedgerAmounts(facts, Without(a, i), currency)) + LedgerAmount(facts, a[i], currency)
  {
    hide LedgerAmount, Sum;
    SumWithout(LedgerAmounts(facts, a, currency), i);
    assert LedgerAmounts(facts, Without(a, i), currency) == Without(LedgerAmounts(facts, a, currency), i);
  }

  lemma {:induction false} AmountsAreOrderFree(facts: Facts, a: seq<Identity>, b: seq<Identity>, currency: string)
    requires multiset(a) == multiset(b)
    ensures Sum(LedgerAmounts(facts, a, currency)) == Sum(LedgerAmounts(facts, b, currency))
    decreases |a|
  {
    SameMultiset(a, b);
    if a != [] {
      assert a[0] in b;
      var i :| 0 <= i < |b| && b[i] == a[0];
      WithoutMultiset(a, 0);
      WithoutMultiset(b, i);
      AmountsAreOrderFree(facts, Without(a, 0), Without(b, i), currency);
      AmountWithout(facts, a, 0, currency);
      AmountWithout(facts, b, i, currency);
    }
  }

  /** `once` lists every execution of `fills` once. */
  ghost predicate ListsOnce(once: seq<Execution>, fills: seq<Execution>) {
    DistinctExecutions(once) && forall x :: x in once <==> x in fills
  }

  lemma StoredFacts(context: Context, fills: seq<Execution>)
    requires SameExecutions(fills)
    ensures var facts := PutAll(map[], AllFacts(context, fills));
      && (forall x, f :: x in fills && f in FactsOf(context, x) ==> f.identity in facts && facts[f.identity] == f.body)
      && (forall id :: id in facts ==> exists x, f :: x in fills && f in FactsOf(context, x) && f.identity == id)
  {
    FillFactsConsistent(context, fills);
    AllFactsMembers(context, fills);
    PutAllMeaning(map[], AllFacts(context, fills));
    hide FactsOf, AllFacts, PutAll;
  }

  ghost predicate ReportsFill(facts: Facts, id: Identity, context: Context, x: Execution) {
    && id in facts && id.kind == FillKind && id.scope == context.scope && id.executionId == x.executionId
    && facts[id] == FillBody(context.attemptId, x.exchangeOrderId, x.instrument, x.side, x.quantity, x.price, x.executedAt, x.source)
  }

  ghost predicate ReportsFee(facts: Facts, id: Identity, x: Execution) {
    && id in facts && id.kind == FeeKind && id.executionId == x.executionId && x.fee.Some? && x.feeCurrency.Some?
    && facts[id] == FeeBody(x.fee.value, x.feeCurrency.value, x.executedAt, x.source)
  }

  /** A ledger entry books the amount against the fact it refers to. */
  ghost predicate Books(facts: Facts, id: Identity, amount: real, currency: string, at: int, reference: Identity) {
    && id in facts && facts[id].LedgerBody? && Value(facts[id].amount) == amount && facts[id].currency == currency
    && facts[id].occurredAt == at && facts[id].reference == reference && (facts[id].isFill <==> reference.kind == FillKind)
  }

  lemma FactIsStored(context: Context, fills: seq<Execution>, x: Execution, k: nat)
    requires SameExecutions(fills) && x in fills && k < |FactsOf(context, x)|
    ensures var (facts, f) := (PutAll(map[], AllFacts(context, fills)), FactsOf(context, x)[k]);
            f.identity in facts && facts[f.identity] == f.body
  {
    StoredFacts(context, fills);
    hide FactsOf, AllFacts, PutAll;
    assert FactsOf(context, x)[k] in FactsOf(context, x);
  }

  lemma FillReports(context: Context, facts: Facts, x: Execution)
    requires forall k :: 0 <= k < 2 ==> var f := FactsOf(context, x)[k]; f.identity in facts && facts[f.identity] == f.body
    ensures ReportsFill(facts, FillFactOf(context, x).identity, context, x)
    ensures Books(facts, FillLedgerOf(context, x).identity, if x.side == Buy then -Notional(x) else Notional(x), "USDT", x.executedAt,
                  FillFactOf(context, x).identity)
  {
    SignedAmountMeaning(x);
    hide Value, Notional, SignedFillAmount, EventKey;
    var all := FactsOf(context, x);
    assert all[0] == FillFactOf(context, x) && all[1] == FillLedgerOf(context, x);
  }

  lemma FeeReports(context: Context, facts: Facts, x: Execution)
    requires x.fee.Some? && x.feeCurrency.Some?
    requires forall k :: 2 <= k < 4 ==> var f := FactsOf(context, x)[k]; f.identity in facts && facts[f.identity] == f.body
    ensures ReportsFee(facts, FeeFactOf(context, x).identity, x)
    ensures Books(facts, FeeLedgerOf(context, x).identity, -Value(x.fee.value), x.feeCurrency.value, x.executedAt, FeeFactOf(context, x).identity)
  {
    MinusOneNegates(x.fee.value);
    hide Value, Multiply, EventKey, SignedFillAmount;
    var all := FactsOf(context, x);
    assert all[2] == FeeFactOf(context, x) && all[3] == FeeLedgerOf(context, x);
  }

  /** Once stored completely, every execution is reported as it was filled, and fill and fee are each booked against what reports them. */
  lemma StoredReports(context: Context, fills: seq<Execution>, x: Execution)
    returns (fill: Identity, fillEntry: Identity, fee: Identity, feeEntry: Identity)
    requires SameExecutions(fills) && x in fills && IsValid(x)
    ensures var facts := PutAll(map[], AllFacts(context, fills));
      && ReportsFill(facts, fill, context, x)
      && Books(facts, fillEntry, if x.side == Buy then -Notional(x) else Notional(x), "USDT", x.executedAt, fill)
      && (x.fee.Some? ==> ReportsFee(facts, fee, x) && Books(facts, feeEntry, -Value(x.fee.value), x.feeCurrency.value, x.executedAt, fee))
  {
    var facts := PutAll(map[], AllFacts(context, fills));
    fill, fillEntry := FillFactOf(context, x).identity, FillLedgerOf(context, x).identity;
    fee, feeEntry := fill, fill;
    assert |FactsOf(context, x)| == if x.fee.Some? then 4 else 2;
    hide FactsOf, PutAll, AllFacts, ReportsFill, ReportsFee, Books, SameExecutions, Value, Notional;
    FactIsStored(context, fills, x, 0);
    FactIsStored(context, fills, x, 1);
    FillReports(context, facts, x);
    if x.fee.Some? {
      FactIsStored(context, fills, x, 2);
      FactIsStored(context, fills, x, 3);
      fee, feeEntry := FeeFactOf(context, x).identity, FeeLedgerOf(context, x).identity;
      FeeReports(context, facts, x);
    }
  }

  lemma LedgerFactsOf(context: Context, x: Execution)
    ensures forall f :: f in FactsOf(context, x) ==> (f.body.LedgerBody? <==> f.identity in LedgerIds(context, x))
    ensures forall id :: id in LedgerIds(context, x) ==> exists f :: f in FactsOf(context, x) && f.identity == id && f.body.LedgerBody?
  {
    var all := FactsOf(context, x);
    assert all[1].identity == FillLedgerOf(context, x).identity && all[1] in all;
    if x.fee.Some? && x.feeCurrency.Some? {
      assert all[3].identity == FeeLedgerOf(context, x).identity && all[3] in all;
    }
  }

  /**
   * In every currency the ledger of a store filled by a complete ingest adds up to sells, less
   * buys, less fees, each execution counted once however often it was listed.
   */
  lemma LedgerTotal(context: Context, fills: seq<Execution>, once: seq<Execution>, ids: seq<Identity>, currency: string)
    requires SameExecutions(fills) && ListsOnce(once, fills) && forall x :: x in fills ==> IsValid(x)
    requires ListsLedger(ids, PutAll(map[], AllFacts(context, fills)))
    ensures Sum(LedgerAmounts(PutAll(map[], AllFacts(context, fills)), ids, currency)) == Sum(NetCashes(once, currency))
  {
    var facts := PutAll(map[], AllFacts(context, fills));
    StoredFacts(context, fills);
    hide FactsOf, AllFacts, PutAll, LedgerIds, IsValid, NetCash, LedgerAmount, Sum, Distinct, EventKey;
    LedgerIdMembers(context, once);
    var own := AllLedgerIds(context, once);
    forall id
      ensures id in ids <==> id in own
    {
      if id in ids {
        var x, f :| x in fills && f in FactsOf(context, x) && f.identity == id;
        LedgerFactsOf(context, x);
        assert x in once;
      }
      if id in own {
        var x :| x in once && id in LedgerIds(context, x);
        LedgerFactsOf(context, x);
      }
    }
    DistinctSameElements(ids, own);
    AmountsAreOrderFree(facts, ids, own, currency);
    SumOverIds(facts, context, once, currency);
  }
}
