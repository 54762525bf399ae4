/** Comparison of strings and stable sorting by a comparator, as `Array.prototype.sort` is used throughout. */
module Orders {
  import opened Common

  /** Lexicographic order, the total order assumed of string comparison. */
  predicate StrLe(a: string, b: string) {
    a == "" || (b != "" && (a[0] < b[0] || (a[0] == b[0] && StrLe(a[1..], b[1..]))))
  }

  predicate StrLt(a: string, b: string) {
    StrLe(a, b) && a != b
  }

  lemma {:induction false} StrLeTotal(a: string, b: string)
    ensures StrLe(a, b) || StrLe(b, a)
    ensures StrLe(a, b) && StrLe(b, a) <==> a == b
  {
    if a != "" && b != "" {
      StrLeTotal(a[1..], b[1..]);
      assert a == [a[0]] + a[1..] && b == [b[0]] + b[1..];
    }
  }

  lemma {:induction false} StrLeTransitive(a: string, b: string, c: string)
    requires StrLe(a, b) && StrLe(b, c)
    ensures StrLe(a, c)
  {
    if a != "" && a[0] == b[0] == c[0] {
      StrLeTransitive(a[1..], b[1..], c[1..]);
    }
  }

  ghost predicate TotalPreorder<T(!new)>(le: (T, T) -> bool) {
    && (forall x, y :: le(x, y) || le(y, x))
    && (forall x, y, z :: le(x, y) && le(y, z) ==> le(x, z))
  }

  /** At the first place where they differ, `a` has the lesser character. */
  ghost predicate LessAt(a: string, b: string, k: nat) {
    k < |a| && k < |b| && a[..k] == b[..k] && a[k] < b[k]
  }

  /** A string comes before those it begins, and before those whose first different character is greater. */
  lemma {:induction false} StrLeMeaning(a: string, b: string)
    ensures StrLe(a, b) <==> a <= b || exists k :: LessAt(a, b, k)
  {
    if a != "" && b != "" && a[0] == b[0] {
      StrLeMeaning(a[1..], b[1..]);
      assert a == [a[0]] + a[1..] && b == [b[0]] + b[1..];
      if k: nat :| LessAt(a[1..], b[1..], k) {
        assert a[..k + 1] == [a[0]] + a[1..][..k] && b[..k + 1] == [b[0]] + b[1..][..k];
        assert LessAt(a, b, k + 1);
      }
      if k: nat :| LessAt(a, b, k) {
        assert a[1..][..k - 1] == a[..k][1..] && b[1..][..k - 1] == b[..k][1..];
        assert LessAt(a[1..], b[1..], k - 1);
      }
    } else if a != "" && b != "" && a[0] < b[0] {
      assert LessAt(a, b, 0);
    }
  }

  lemma StrLeIsTotalOrder()
    ensures TotalPreorder(StrLe)
    ensures forall a, b :: StrLe(a, b) && StrLe(b, a) ==> a == b
  {
    forall a, b
      ensures StrLe(a, b) || StrLe(b, a)
      ensures StrLe(a, b) && StrLe(b, a) ==> a == b
    {
      StrLeTotal(a, b);
    }
    forall a, b, c | StrLe(a, b) && StrLe(b, c)
      ensures StrLe(a, c)
    {
      StrLeTransitive(a, b, c);
    }
  }

  // --------------------------------------------------------------- sorting

  ghost predicate SortedBy<T(!new)>(s: seq<T>, le: (T, T) -> bool) {
    forall i, j :: 0 <= i < j < |s| ==> le(s[i], s[j])
  }

  /** `x` before the first element it is not after. */
  function InsertBy<T>(x: T, s: seq<T>, le: (T, T) -> bool): seq<T> {
    if s == [] then [x]
    else if le(x, s[0]) then [x] + s
    else [s[0]] + InsertBy(x, s[1..], le)
  }

  function SortBy<T>(s: seq<T>, le: (T, T) -> bool): seq<T> {
    if s == [] then [] else InsertBy(s[0], SortBy(s[1..], le), le)
  }

  lemma {:induction false} InsertByAdds<T(!new)>(x: T, s: seq<T>, le: (T, T) -> bool)
    ensures multiset(InsertBy(x, s, le)) == multiset{x} + multiset(s)
    decreases |s|
  {
    if s != [] && !le(x, s[0]) {
      InsertByAdds(x, s[1..], le);
      assert s == [s[0]] + s[1..];
    }
  }

  lemma {:induction false} InsertByIsSorted<T(!new)>(x: T, s: seq<T>, le: (T, T) -> bool)
    requires TotalPreorder(le) && SortedBy(s, le)
    ensures SortedBy(InsertBy(x, s, le), le)
    decreases |s|
  {
    if s != [] && !le(x, s[0]) {
      var tail := InsertBy(x, s[1..], le);
      InsertByIsSorted(x, s[1..], le);
      InsertByAdds(x, s[1..], le);
      forall y | y in tail
        ensures le(s[0], y)
      {
        assert y in multiset(tail);
      }
    }
  }

  /** Sorting gives a sorted permutation. */
  lemma {:induction false} SortByIsSorted<T(!new)>(s: seq<T>, le: (T, T) -> bool)
    requires TotalPreorder(le)
    ensures SortedBy(SortBy(s, le), le)
    ensures multiset(SortBy(s, le)) == multiset(s)
    ensures forall x :: x in SortBy(s, le) <==> x in s
    ensures |SortBy(s, le)| == |s|
  {
    if s != [] {
      SortByIsSorted(s[1..], le);
      InsertByAdds(s[0], SortBy(s[1..], le), le);
      InsertByIsSorted(s[0], SortBy(s[1..], le), le);
      assert s == [s[0]] + s[1..];
    }
    SameMultiset(SortBy(s, le), s);
  }

  lemma SameMultiset<T(!new)>(s: seq<T>, t: seq<T>)
    requires multiset(s) == multiset(t)
    ensures |s| == |t|
    ensures forall x :: x in s <==> x in t
  {
    assert |s| == |multiset(s)| && |t| == |multiset(t)|;
    forall x
      ensures x in s <==> x in t
    {
      assert x in s <==> x in multiset(s);
      assert x in t <==> x in multiset(t);
    }
  }

  lemma SmallestIsFirst<T(!new)>(s: seq<T>, x: T, le: (T, T) -> bool)
    requires SortedBy(s, le) && x in s
    ensures x == s[0] || le(s[0], x)
  {
  }

  lemma TailIsSorted<T(!new)>(s: seq<T>, le: (T, T) -> bool)
    requires SortedBy(s, le) && s != []
    ensures SortedBy(s[1..], le)
  {
  }

  lemma TailMultiset<T>(s: seq<T>)
    requires s != []
    ensures multiset(s[1..]) == multiset(s) - multiset{s[0]}
  {
    assert s == [s[0]] + s[1..];
  }

  /** Elements of `m` that the order does not tell apart are equal. */
  ghost predicate TiesAreEqual<T(!new)>(m: multiset<T>, le: (T, T) -> bool) {
    forall x, y :: x in m && y in m && le(x, y) && le(y, x) ==> x == y
  }

  lemma TiesOfPart<T(!new)>(m: multiset<T>, part: multiset<T>, le: (T, T) -> bool)
    requires TiesAreEqual(m, le) && part <= m
    ensures TiesAreEqual(part, le)
  {
  }

  /** Two sorted permutations of one another are equal when ties are equal. */
  lemma {:induction false} SortedIsUnique<T(!new)>(s: seq<T>, t: seq<T>, le: (T, T) -> bool)
    requires SortedBy(s, le) && SortedBy(t, le) && multiset(s) == multiset(t) && TiesAreEqual(multiset(s), le)
    ensures s == t
    decreases |s|
  {
    if s == [] {
      assert |t| == |multiset(t)| == |multiset(s)|;
    } else {
      TailsMatch(s, t, le);
      hide *;
      SortedIsUnique(s[1..], t[1..], le);
      assert s == [s[0]] + s[1..] && t == [t[0]] + t[1..];
    }
  }

  lemma TailsMatch<T(!new)>(s: seq<T>, t: seq<T>, le: (T, T) -> bool)
    requires SortedBy(s, le) && SortedBy(t, le) && multiset(s) == multiset(t) && TiesAreEqual(multiset(s), le) && s != []
    ensures t != [] && s[0] == t[0]
    ensures SortedBy(s[1..], le) && SortedBy(t[1..], le)
    ensures multiset(s[1..]) == multiset(t[1..]) && TiesAreEqual(multiset(s[1..]), le)
  {
    hide SortedBy, TiesAreEqual;
    assert |t| == |multiset(t)| && |multiset(s)| == |s|;
    HeadsAreEqual(s, t, le);
    TailIsSorted(s, le);
    TailIsSorted(t, le);
    TailMultiset(s);
    TailMultiset(t);
    TiesOfPart(multiset(s), multiset(s[1..]), le);
  }

  lemma HeadsAreEqual<T(!new)>(s: seq<T>, t: seq<T>, le: (T, T) -> bool)
    requires SortedBy(s, le) && SortedBy(t, le) && multiset(s) == multiset(t) && s != [] && t != []
    requires TiesAreEqual(multiset(s), le)
    ensures s[0] == t[0]
  {
    hide SortedBy;
    assert s[0] in multiset(s) && t[0] in multiset(t);
    SmallestIsFirst(s, t[0], le);
    SmallestIsFirst(t, s[0], le);
  }

  lemma {:induction false} DistinctSameElements<T(!new)>(s: seq<T>, t: seq<T>)
    requires Distinct(s) && Distinct(t)
    requires forall x :: x in s <==> x in t
    ensures multiset(s) == multiset(t)
  {
    forall x
      ensures multiset(s)[x] == multiset(t)[x]
    {
      DistinctCountsOne(s, x);
      DistinctCountsOne(t, x);
    }
  }

  lemma {:induction false} DistinctCountsOne<T(!new)>(s: seq<T>, x: T)
    requires Distinct(s)
    ensures multiset(s)[x] == if x in s then 1 else 0
  {
    if s != [] {
      DistinctCountsOne(s[1..], x);
      assert s == [s[0]] + s[1..];
    }
  }

  lemma TwiceCounts<T>(s: seq<T>, i: nat, j: nat)
    requires i < j < |s| && s[i] == s[j]
    ensures multiset(s)[s[i]] >= 2
  {
    assert s == s[..i] + [s[i]] + s[i + 1..j] + [s[j]] + s[j + 1..];
  }

  /** Whatever has the multiset of a sequence without repetition has no repetition either. */
  lemma DistinctByMultiset<T(!new)>(s: seq<T>, t: seq<T>)
    requires Distinct(s) && multiset(s) == multiset(t)
    ensures Distinct(t)
  {
    forall i, j | 0 <= i < j < |t|
      ensures t[i] != t[j]
    {
      DistinctCountsOne(s, t[i]);
      if t[i] == t[j] {
        TwiceCounts(t, i, j);
      }
    }
  }

  lemma DistinctConcat<T(!new)>(s: seq<T>, t: seq<T>)
    requires Distinct(s) && Distinct(t) && forall x :: x in s ==> x !in t
    ensures Distinct(s + t)
  {
    var r := s + t;
    forall i, j | 0 <= i < j < |r|
      ensures r[i] != r[j]
    {
      assert i < |s| <= j ==> r[i] in s && r[j] in t;
    }
  }

  // -------------------------------------------------------- ordered strings

  /** The strings of a set in order. */
  ghost function Ordered(ks: set<string>): seq<string> {
    if ks == {} then []
    else
      var k :| k in ks;
      InsertBy(k, Ordered(ks - {k}), StrLe)
  }

  lemma {:induction false} OrderedIsSorted(ks: set<string>)
    ensures forall k :: k in Ordered(ks) <==> k in ks
    ensures Distinct(Ordered(ks)) && SortedBy(Ordered(ks), StrLe)
  {
    StrLeIsTotalOrder();
    if ks != {} {
      var k :| k in ks && Ordered(ks) == InsertBy(k, Ordered(ks - {k}), StrLe);
      var rest := Ordered(ks - {k});
      OrderedIsSorted(ks - {k});
      InsertByAdds(k, rest, StrLe);
      InsertByIsSorted(k, rest, StrLe);
      InsertedIsDistinct(k, rest, Ordered(ks));
    }
  }

  lemma InsertedIsDistinct(k: string, rest: seq<string>, all: seq<string>)
    requires Distinct(rest) && k !in rest && multiset(all) == multiset{k} + multiset(rest)
    ensures Distinct(all) && forall x :: x in all <==> x == k || x in rest
  {
    SameMultiset(all, [k] + rest);
    DistinctByMultiset([k] + rest, all);
  }

  ghost function OrderedWithin(ks: set<string>): (r: seq<string>)
    ensures forall k :: k in r <==> k in ks
    ensures Distinct(r) && SortedBy(r, StrLe)
  {
    OrderedIsSorted(ks);
    Ordered(ks)
  }

  /** Whatever sorting a sequence without repetition gives is its set in order. */
  lemma SortedStrings(s: seq<string>)
    requires Distinct(s)
    ensures SortBy(s, StrLe) == OrderedWithin(set x | x in s)
  {
    StrLeIsTotalOrder();
    var ordered := OrderedWithin(set x | x in s);
    DistinctSameElements(s, ordered);
    SortByIsSorted(s, StrLe);
    SortedIsUnique(SortBy(s, StrLe), ordered, StrLe);
  }
}
