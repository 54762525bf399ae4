/**
 * Exact decimal arithmetic (scripts/bybit-probe/decimal.ts): an integer coefficient and a
 * decimal scale.  `Value` gives the number a representation stands for; the theorems below
 * relate every operation to it.  DecimalValue (src/domain/shared/decimal.ts) accepts the same
 * strings and prints the same normal form, without the scale limit of `Power10`, so the
 * accounting modules use `Plus`, `Minus` and `Times` directly.
 */
module Decimals {
  import opened Common
  import opened Sums

  datatype Decimal = Decimal(coefficient: int, scale: nat)

  // ---------------------------------------------------------------- values

  function Pow10(n: nat): (p: int)
    ensures p > 0
  {
    if n == 0 then 1 else 10 * Pow10(n - 1)
  }

  /** coefficient / 10^scale */
  ghost function Value(d: Decimal): real
    decreases d.scale
  {
    if d.scale == 0 then d.coefficient as real
    else Value(Decimal(d.coefficient, d.scale - 1)) / 10.0
  }

  /** The coefficient `d` has at scale `k`. */
  function Units(d: Decimal, k: nat): int
    requires d.scale <= k
  {
    d.coefficient * Pow10(k - d.scale)
  }

  /** Ten times the coefficient at one more decimal place is the same number. */
  lemma {:induction false} TenfoldValue(coefficient: int, scale: nat)
    ensures Value(Decimal(10 * coefficient, scale + 1)) == Value(Decimal(coefficient, scale))
  {
    if scale > 0 {
      TenfoldValue(coefficient, scale - 1);
    }
  }

  lemma {:induction false} RescaleKeepsValue(d: Decimal, k: nat)
    requires d.scale <= k
    ensures Value(Decimal(Units(d, k), k)) == Value(d)
    decreases k
  {
    if d.scale < k {
      RescaleKeepsValue(d, k - 1);
      var p := Pow10(k - 1 - d.scale);
      assert d.coefficient * (10 * p) == 10 * (d.coefficient * p);
      TenfoldValue(Units(d, k - 1), k - 1);
    }
  }

  /** At one scale, values are ordered and added like their coefficients. */
  lemma {:induction false} OneScale(u: int, v: int, k: nat)
    ensures Value(Decimal(u, k)) < Value(Decimal(v, k)) <==> u < v
    ensures Value(Decimal(u, k)) == Value(Decimal(v, k)) <==> u == v
    ensures Value(Decimal(u + v, k)) == Value(Decimal(u, k)) + Value(Decimal(v, k))
    ensures Value(Decimal(u - v, k)) == Value(Decimal(u, k)) - Value(Decimal(v, k))
    ensures Value(Decimal(0, k)) == 0.0
  {
    if k > 0 {
      OneScale(u, v, k - 1);
    }
  }

  lemma UnitsOrder(a: Decimal, b: Decimal, k: nat)
    requires a.scale <= k && b.scale <= k
    ensures Units(a, k) < Units(b, k) <==> Value(a) < Value(b)
    ensures Units(a, k) == Units(b, k) <==> Value(a) == Value(b)
  {
    RescaleKeepsValue(a, k);
    RescaleKeepsValue(b, k);
    OneScale(Units(a, k), Units(b, k), k);
  }

  lemma SignOfValue(d: Decimal)
    ensures d.coefficient > 0 <==> Value(d) > 0.0
    ensures d.coefficient == 0 <==> Value(d) == 0.0
  {
    OneScale(0, d.coefficient, d.scale);
  }

  // ----------------------------------------------------------- normal form

  ghost predicate IsNormal(d: Decimal) {
    if d.coefficient == 0 then d.scale == 0
    else d.scale == 0 || d.coefficient % 10 != 0
  }

  function Normalized(coefficient: int, scale: nat): Decimal
    decreases scale
  {
    if coefficient == 0 then Decimal(0, 0)
    else if scale > 0 && coefficient % 10 == 0 then Normalized(coefficient / 10, scale - 1)
    else Decimal(coefficient, scale)
  }

  lemma {:induction false} NormalizedIsExact(coefficient: int, scale: nat)
    ensures IsNormal(Normalized(coefficient, scale))
    ensures Normalized(coefficient, scale).scale <= scale
    ensures Value(Normalized(coefficient, scale)) == Value(Decimal(coefficient, scale))
    decreases scale
  {
    if coefficient == 0 {
      OneScale(0, 0, scale);
    } else if scale > 0 && coefficient % 10 == 0 {
      NormalizedIsExact(coefficient / 10, scale - 1);
      TenfoldValue(coefficient / 10, scale - 1);
    }
  }

  /** The loop that strips trailing zeros computes `Normalized`. */
  method Normalize(coefficient: int, scale: nat) returns (d: Decimal)
    ensures d == Normalized(coefficient, scale)
    ensures IsNormal(d) && Value(d) == Value(Decimal(coefficient, scale))
  {
    NormalizedIsExact(coefficient, scale);
    if coefficient == 0 {
      return Decimal(0, 0);
    }
    var nextCoefficient, nextScale := coefficient, scale;
    while nextScale > 0 && nextCoefficient % 10 == 0
      invariant nextCoefficient != 0 && nextScale >= 0
      invariant Normalized(nextCoefficient, nextScale) == Normalized(coefficient, scale)
      decreases nextScale
    {
      nextCoefficient, nextScale := nextCoefficient / 10, nextScale - 1;
    }
    d := Decimal(nextCoefficient, nextScale);
  }

  lemma TenDivides(c: int, n: nat)
    requires n > 0
    ensures (c * Pow10(n)) % 10 == 0
  {
    var p := Pow10(n - 1);
    assert c * (10 * p) == 10 * (c * p);
  }

  /** Normal forms are unique: equal values have one representation. */
  lemma NormalFormIsUnique(a: Decimal, b: Decimal)
    requires IsNormal(a) && IsNormal(b) && Value(a) == Value(b)
    ensures a == b
    decreases a.scale > b.scale
  {
    if a.scale > b.scale {
      NormalFormIsUnique(b, a);
    } else {
      UnitsOrder(a, b, b.scale);
      assert b.coefficient == a.coefficient * Pow10(b.scale - a.scale);
      if a.scale < b.scale {
        TenDivides(a.coefficient, b.scale - a.scale);
        assert false;
      }
    }
  }

  // ------------------------------------------------------------ arithmetic

  function LargerScale(left: Decimal, right: Decimal): nat {
    if left.scale > right.scale then left.scale else right.scale
  }

  function Plus(left: Decimal, right: Decimal): Decimal {
    var k := LargerScale(left, right);
    Normalized(Units(left, k) + Units(right, k), k)
  }

  function Minus(left: Decimal, right: Decimal): Decimal {
    var k := LargerScale(left, right);
    Normalized(Units(left, k) - Units(right, k), k)
  }

  function Times(left: Decimal, right: Decimal): Decimal {
    Normalized(left.coefficient * right.coefficient, left.scale + right.scale)
  }

  /** -1, 0 or 1. */
  function Compare(left: Decimal, right: Decimal): int {
    var k := LargerScale(left, right);
    if Units(left, k) < Units(right, k) then -1 else if Units(left, k) > Units(right, k) then 1 else 0
  }

  function Negate(d: Decimal): Decimal {
    Decimal(-d.coefficient, d.scale)
  }

  function Abs(d: Decimal): Decimal {
    if d.coefficient < 0 then Negate(d) else d
  }

  lemma PlusIsExact(left: Decimal, right: Decimal)
    ensures Value(Plus(left, right)) == Value(left) + Value(right)
    ensures Value(Minus(left, right)) == Value(left) - Value(right)
    ensures IsNormal(Plus(left, right)) && IsNormal(Minus(left, right))
  {
    var k := LargerScale(left, right);
    RescaleKeepsValue(left, k);
    RescaleKeepsValue(right, k);
    OneScale(Units(left, k), Units(right, k), k);
    NormalizedIsExact(Units(left, k) + Units(right, k), k);
    NormalizedIsExact(Units(left, k) - Units(right, k), k);
  }

  lemma CompareIsExact(left: Decimal, right: Decimal)
    ensures Compare(left, right) < 0 <==> Value(left) < Value(right)
    ensures Compare(left, right) == 0 <==> Value(left) == Value(right)
    ensures Compare(left, right) > 0 <==> Value(left) > Value(right)
  {
    UnitsOrder(left, right, LargerScale(left, right));
  }

  lemma {:induction false} IntegerTimesValue(c: int, d: int, k: nat)
    ensures Value(Decimal(c * d, k)) == c as real * Value(Decimal(d, k))
  {
    if k > 0 {
      IntegerTimesValue(c, d, k - 1);
    }
  }

  lemma {:induction false} ProductValue(left: Decimal, right: Decimal)
    ensures Value(Decimal(left.coefficient * right.coefficient, left.scale + right.scale)) == Value(left) * Value(right)
    decreases left.scale
  {
    if left.scale == 0 {
      IntegerTimesValue(left.coefficient, right.coefficient, right.scale);
    } else {
      ProductValue(Decimal(left.coefficient, left.scale - 1), right);
    }
  }

  /** Normalising keeps any value already known of the representation. */
  lemma NormalizedHasValue(coefficient: int, scale: nat, v: real)
    requires Value(Decimal(coefficient, scale)) == v
    ensures IsNormal(Normalized(coefficient, scale)) && Value(Normalized(coefficient, scale)) == v
  {
    NormalizedIsExact(coefficient, scale);
  }

  lemma TimesIsExact(left: Decimal, right: Decimal)
    ensures Value(Times(left, right)) == Value(left) * Value(right)
    ensures IsNormal(Times(left, right))
  {
    ProductValue(left, right);
    NormalizedHasValue(left.coefficient * right.coefficient, left.scale + right.scale, Value(left) * Value(right));
  }

  lemma {:induction false} NegateIsExact(d: Decimal)
    ensures Value(Negate(d)) == -Value(d)
    ensures IsNormal(d) ==> IsNormal(Negate(d))
    ensures Value(Abs(d)) == if Value(d) < 0.0 then -Value(d) else Value(d)
  {
    OneScale(0, d.coefficient, d.scale);
    SignOfValue(d);
  }

  // ------------------------------------------------------- normalised sums

  /** A decimal in normal form, as DecimalValue keeps it. */
  type Normal = d: Decimal | IsNormal(d) witness Decimal(0, 0)

  const ZERO: Normal := Decimal(0, 0)

  function Add(left: Normal, right: Normal): Normal {
    PlusIsExact(left, right);
    Plus(left, right)
  }

  function Subtract(left: Normal, right: Normal): Normal {
    PlusIsExact(left, right);
    Minus(left, right)
  }

  /** Added up from the left, starting at zero. */
  function Total(ds: seq<Normal>): Normal {
    if ds == [] then ZERO else Add(Total(ds[..|ds| - 1]), ds[|ds| - 1])
  }

  ghost function Values(ds: seq<Decimal>): seq<real> {
    seq(|ds|, i requires 0 <= i < |ds| => Value(ds[i]))
  }

  lemma {:induction false} TotalIsSum(ds: seq<Normal>)
    ensures Value(Total(ds)) == Sum(Values(ds))
  {
    if ds != [] {
      var init, last := ds[..|ds| - 1], ds[|ds| - 1];
      TotalIsSum(init);
      PlusIsExact(Total(init), last);
      assert Values(ds)[..|ds| - 1] == Values(init);
    }
  }
}
