/** Sums of real numbers, and why neither order nor pairing changes them. */
module Sums {
  import opened Common
  import opened Orders

  ghost function Sum(s: seq<real>): real {
    if s == [] then 0.0 else Sum(s[..|s| - 1]) + s[|s| - 1]
  }

  lemma {:induction false} SumConcat(s: seq<real>, t: seq<real>)
    ensures Sum(s + t) == Sum(s) + Sum(t)
    decreases |t|
  {
    if t == [] {
      assert s + t == s;
    } else {
      var init := t[..|t| - 1];
      SumConcat(s, init);
      assert (s + t)[..|s + t| - 1] == s + init;
    }
  }

  /** `s` with the element at `i` left out. */
  function Without<T>(s: seq<T>, i: nat): seq<T>
    requires i < |s|
  {
    s[..i] + s[i + 1..]
  }

  lemma SumOfOne(x: real)
    ensures Sum([x]) == x
  {
    assert [x][..0] == [];
  }

  lemma SumWithout(s: seq<real>, i: nat)
    requires i < |s|
    ensures Sum(s) == Sum(Without(s, i)) + s[i]
  {
    hide Sum;
    var before, after := s[..i], s[i + 1..];
    assert s == (before + [s[i]]) + after;
    SumConcat(before + [s[i]], after);
    SumConcat(before, [s[i]]);
    SumConcat(before, after);
    SumOfOne(s[i]);
  }

  lemma WithoutMultiset<T>(s: seq<T>, i: nat)
    requires i < |s|
    ensures multiset(Without(s, i)) == multiset(s) - multiset{s[i]}
    ensures multiset(s) == multiset(Without(s, i)) + multiset{s[i]}
  {
    assert s == s[..i] + [s[i]] + s[i + 1..];
  }

  /** Order does not matter. */
  lemma {:induction false} SumIsOrderFree(s: seq<real>, t: seq<real>)
    requires multiset(s) == multiset(t)
    ensures Sum(s) == Sum(t)
    decreases |s|
  {
    SameMultiset(s, t);
    if s != [] {
      var last := |s| - 1;
      assert s[last] in t;
      var i :| 0 <= i < |t| && t[i] == s[last];
      WithoutMultiset(s, last);
      WithoutMultiset(t, i);
      SumWithout(s, last);
      SumWithout(t, i);
      hide *;
      SumIsOrderFree(Without(s, last), Without(t, i));
    }
  }

  // --------------------------------------------------------------- pairings

  /** The elements of `s` at the places `idx` lists. */
  ghost function Pick<T>(s: seq<T>, idx: seq<nat>): seq<T>
    requires forall i :: 0 <= i < |idx| ==> idx[i] < |s|
  {
    seq(|idx|, i requires 0 <= i < |idx| => s[idx[i]])
  }

  lemma {:induction false} PickIsOrderFree<T>(s: seq<T>, a: seq<nat>, b: seq<nat>)
    requires forall i :: 0 <= i < |a| ==> a[i] < |s|
    requires forall i :: 0 <= i < |b| ==> b[i] < |s|
    requires multiset(a) == multiset(b)
    ensures multiset(Pick(s, a)) == multiset(Pick(s, b))
    decreases |a|
  {
    SameMultiset(a, b);
    if a != [] {
      assert a[0] in b;
      var i :| 0 <= i < |b| && b[i] == a[0];
      WithoutMultiset(a, 0);
      WithoutMultiset(b, i);
      PickIsOrderFree(s, Without(a, 0), Without(b, i));
      PickWithout(s, a, 0);
      PickWithout(s, b, i);
    }
  }

  lemma PickWithout<T>(s: seq<T>, a: seq<nat>, i: nat)
    requires i < |a| && forall k :: 0 <= k < |a| ==> a[k] < |s|
    ensures forall k :: 0 <= k < |Without(a, i)| ==> Without(a, i)[k] < |s|
    ensures multiset(Pick(s, a)) == multiset(Pick(s, Without(a, i))) + multiset{s[a[i]]}
  {
    assert Pick(s, Without(a, i)) == Without(Pick(s, a), i);
    WithoutMultiset(Pick(s, a), i);
  }

  /** Every place once. */
  ghost predicate IsPermutation(idx: seq<nat>, n: nat) {
    && Distinct(idx)
    && (forall i :: 0 <= i < |idx| ==> idx[i] < n)
    && (forall k: nat :: k < n ==> k in idx)
  }

  lemma PermutedSum(s: seq<real>, idx: seq<nat>)
    requires IsPermutation(idx, |s|)
    ensures |idx| == |s| && Sum(Pick(s, idx)) == Sum(s)
  {
    var all: seq<nat> := seq(|s|, i requires 0 <= i < |s| => i);
    forall k: nat
      ensures k in idx <==> k in all
    {
      assert k < |s| ==> all[k] == k;
    }
    DistinctSameElements(idx, all);
    SameMultiset(idx, all);
    PickIsOrderFree(s, idx, all);
    assert Pick(s, all) == s;
    SumIsOrderFree(Pick(s, idx), s);
  }
}
