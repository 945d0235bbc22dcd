/** Rationals in lowest terms by the subtractive greatest common divisor (kscm/scheme/numb.c). */
module Rational {

  const INT_MAX: int := 0x7FFF_FFFF
  const INT_MIN: int := -0x8000_0000

  ghost predicate Divides(d: nat, n: nat) {
    exists k: nat :: n == d * k
  }

  ghost predicate Common(d: nat, a: nat, b: nat) {
    Divides(d, a) && Divides(d, b)
  }

  ghost predicate GreatestCommon(g: nat, a: nat, b: nat) {
    Common(g, a, b) && forall d: nat :: Common(d, a, b) ==> d <= g && Divides(d, g)
  }

  lemma Distribute(d: nat, k: nat, m: nat)
    ensures d * (k + m) == d * k + d * m
  {
  }

  lemma DividesDifference(d: nat, a: nat, b: nat)
    requires Divides(d, a) && a <= b
    ensures Divides(d, b) <==> Divides(d, b - a)
  {
    if Divides(d, b) {
      MultipleRest(d, a, b);
    }
    if Divides(d, b - a) {
      MultipleSum(d, a, b - a);
    }
  }

  lemma MultipleSum(d: nat, a: nat, c: nat)
    requires Divides(d, a) && Divides(d, c)
    ensures Divides(d, a + c)
  {
    var k: nat :| a == d * k;
    var m: nat :| c == d * m;
    Distribute(d, k, m);
    assert a + c == d * (k + m);
  }

  lemma MultipleRest(d: nat, a: nat, b: nat)
    requires Divides(d, a) && Divides(d, b) && a <= b
    ensures Divides(d, b - a)
  {
    var k: nat :| a == d * k;
    var m: nat :| b == d * m;
    if k <= m {
      var q: nat := m - k;
      Distribute(d, k, q);
      assert b - a == d * q;
    } else {
      Mono(d, m, k);
      DividesSelf(d);
      assert b - a == d * 0;
    }
  }

  /** A step of the algorithm keeps the common divisors. */
  lemma SameCommon(d: nat, a: nat, b: nat)
    requires a <= b
    ensures Common(d, a, b) <==> Common(d, a, b - a)
  {
    if Divides(d, a) {
      DividesDifference(d, a, b);
    }
  }

  lemma DividesSelf(n: nat)
    ensures Divides(n, n) && Divides(n, 0)
  {
    assert n == n * 1 && 0 == n * 0;
  }

  lemma DivisorBound(d: nat, n: nat)
    requires Divides(d, n) && n > 0
    ensures d <= n
  {
    var k: nat :| n == d * k;
    assert k > 0;
  }

  /** The body of _gcd between the label and the jump back: sort the pair, subtract. */
  function Round(p: (int, int)): (int, int) {
    var (a, b) := if p.0 > p.1 then (p.1, p.0) else p;
    (a, b - a)
  }

  function Rounds(n: nat, p: (int, int)): (int, int) {
    if n == 0 then p else Rounds(n - 1, Round(p))
  }

  lemma {:induction false} OneMoreRound(n: nat, p: (int, int))
    ensures Rounds(n + 1, p) == Round(Rounds(n, p))
  {
    if n > 0 {
      OneMoreRound(n - 1, Round(p));
    }
  }

  /** The jump back is not taken after round n, for the first time; the result is the first of the pair. */
  ghost predicate ExitsAfter(n: nat, x: int, y: int) {
    n > 0 && Rounds(n, (x, y)).1 == 0 && forall m: nat | 0 < m < n :: Rounds(m, (x, y)).1 != 0
  }

  lemma {:induction false} PositiveExits(x: int, y: int) returns (n: nat)
    requires x > 0 && y > 0
    ensures ExitsAfter(n, x, y) && Rounds(n, (x, y)).0 > 0
    decreases x + y
  {
    var q := Round((x, y));
    assert Rounds(0, q) == q && Rounds(1, (x, y)) == q;
    if q.1 == 0 {
      n := 1;
    } else {
      var k := PositiveExits(q.0, q.1);
      n := k + 1;
      forall m: nat | 0 < m < n
        ensures Rounds(m, (x, y)).1 != 0
      {
        assert Rounds(m, (x, y)) == Rounds(m - 1, q);
      }
    }
  }

  /** Different numbers that are not both positive stay so. */
  lemma {:induction false} StuckStays(n: nat, x: int, y: int)
    requires x != y && !(x > 0 && y > 0)
    ensures n > 0 ==> Rounds(n, (x, y)).1 != 0
    decreases n
  {
    if n > 0 {
      var q := Round((x, y));
      assert q.1 > 0 >= q.0;
      StuckStays(n - 1, q.0, q.1);
      assert Rounds(0, q) == q;
    }
  }

  /** The loop of _gcd ends exactly on positive numbers and on equal ones, and its result can be divided
      by exactly when moreover the numbers are not zero. */
  lemma LoopEnds(x: int, y: int)
    ensures (exists n: nat :: ExitsAfter(n, x, y)) <==> (x > 0 && y > 0) || x == y
    ensures
      (exists n: nat :: ExitsAfter(n, x, y) && Rounds(n, (x, y)).0 != 0) <==> (x > 0 && y > 0) || x == y != 0
  {
    if x > 0 && y > 0 {
      var n := PositiveExits(x, y);
    } else if x == y {
      assert Rounds(1, (x, x)) == Rounds(0, (x, 0)) == (x, 0);
      assert ExitsAfter(1, x, y) && forall n: nat | n > 1 :: !ExitsAfter(n, x, y);
    } else {
      forall n: nat
        ensures !ExitsAfter(n, x, y)
      {
        StuckStays(n, x, y);
      }
    }
  }

  /** With a negative number below the other one the loop goes on until the subtraction overflows an int. */
  lemma {:induction false} NegativeGrows(n: nat, x: int, y: int)
    requires x < 0 && x < y
    ensures Rounds(n, (x, y)).0 == x && Rounds(n, (x, y)).1 >= y + n
    decreases n
  {
    if n > 0 {
      assert Round((x, y)) == (x, y - x);
      NegativeGrows(n - 1, x, y - x);
    }
  }

  /** _gcd, on the numbers on which its loop ends. */
  method Gcd(x: int, y: int) returns (g: int)
    requires INT_MIN <= x <= INT_MAX && INT_MIN <= y <= INT_MAX
    requires exists n: nat :: ExitsAfter(n, x, y)
    ensures exists n: nat :: ExitsAfter(n, x, y) && g == Rounds(n, (x, y)).0
    ensures x > 0 && y > 0 ==> 0 < g && GreatestCommon(g, x, y)
    ensures !(x > 0 && y > 0) ==> g == x == y
  {
    LoopEnds(x, y);
    ghost var n: nat := 0;
    var a, b := x, y;
    while true
      invariant (a, b) == Rounds(n, (x, y)) && forall m: nat | 0 < m <= n :: Rounds(m, (x, y)).1 != 0
      invariant INT_MIN <= a <= INT_MAX && INT_MIN <= b <= INT_MAX
      invariant !(x > 0 && y > 0) ==> n == 0
      invariant x > 0 && y > 0 ==> 0 < a && 0 < b && SameDivisors(a, b, x, y)
      decreases a + b
    {
      OneMoreRound(n, (x, y));
      if a > b {
        a, b := b, a;
      }
      ghost var b0 := b;
      b := b - a;
      n := n + 1;
      if x > 0 && y > 0 {
        StepDivisors(a, b0, x, y);
      }
      if b == 0 {
        if x > 0 && y > 0 {
          LastDivisor(a, x, y);
        }
        assert ExitsAfter(n, x, y);
        return a;
      }
    }
  }

  ghost predicate SameDivisors(a: nat, b: nat, x: nat, y: nat) {
    forall d: nat :: Common(d, a, b) <==> Common(d, x, y)
  }

  lemma StepDivisors(a: nat, b: nat, x: nat, y: nat)
    requires a <= b && (SameDivisors(a, b, x, y) || SameDivisors(b, a, x, y))
    ensures SameDivisors(a, b - a, x, y)
  {
    forall d: nat
      ensures Common(d, a, b - a) <==> Common(d, x, y)
    {
      SameCommon(d, a, b);
      assert Common(d, a, b) <==> Common(d, b, a);
    }
  }

  lemma LastDivisor(a: nat, x: nat, y: nat)
    requires a > 0 && SameDivisors(a, 0, x, y)
    ensures GreatestCommon(a, x, y)
  {
    DividesSelf(a);
    assert Common(a, a, 0);
    forall d: nat | Common(d, x, y)
      ensures d <= a && Divides(d, a)
    {
      assert Common(d, a, 0);
      DivisorBound(d, a);
    }
  }

  datatype Ratio = Ratio(numerator: int, denominator: int)

  /** scheme_make_rational: the same ratio, in lowest terms, on exactly the numbers on which the loop ends
      and the divisor is not zero. */
  method MakeRational(numerator: int, denominator: int) returns (r: Ratio)
    requires INT_MIN <= numerator <= INT_MAX && INT_MIN <= denominator <= INT_MAX
    requires exists n: nat :: ExitsAfter(n, numerator, denominator) && Rounds(n, (numerator, denominator)).0 != 0
    ensures r.numerator * denominator == numerator * r.denominator
    ensures 0 < r.numerator && 0 < r.denominator
    ensures forall d: nat :: Common(d, r.numerator, r.denominator) ==> d == 1
  {
    LoopEnds(numerator, denominator);
    var k := Gcd(numerator, denominator);
    r := Ratio(TruncatedQuotient(numerator, k), TruncatedQuotient(denominator, k));
    if numerator > 0 && denominator > 0 {
      LowestRatio(k, numerator, denominator);
    } else {
      assert r == Ratio(1, 1);
      forall d: nat | Common(d, 1, 1)
        ensures d == 1
      {
        DivisorBound(d, 1);
        var q: nat :| 1 == d * q;
      }
    }
  }

  /** The quotient of C, which cuts towards zero. */
  function TruncatedQuotient(n: int, k: int): int
    requires k != 0
  {
    if n >= 0 then n / k else -(-n / k)
  }

  lemma LowestRatio(k: nat, a: nat, b: nat)
    requires a > 0 && b > 0 && k > 0 && GreatestCommon(k, a, b)
    ensures a / k > 0 && b / k > 0 && (a / k) * b == a * (b / k)
    ensures forall d: nat :: Common(d, a / k, b / k) ==> d == 1
  {
    ExactQuotient(k, a);
    ExactQuotient(k, b);
    var (v1, v2) := (a / k, b / k);
    Associate(v1, k, v2);
    forall d: nat | Common(d, v1, v2)
      ensures d == 1
    {
      LowestTerms(k, v1, v2, a, b, d);
    }
  }

  lemma ExactQuotient(k: nat, n: nat)
    requires k > 0 && Divides(k, n) && n > 0
    ensures 0 < n / k <= n && n == k * (n / k)
  {
    var q: nat :| n == k * q;
    Euclid(n, k);
    SameQuotient(k, q, n / k, n % k);
    assert q > 0;
    Mono(q, 1, k);
  }

  lemma Euclid(n: nat, k: nat)
    requires k > 0
    ensures n == k * (n / k) + n % k && n / k >= 0
  {
  }

  lemma SameQuotient(k: nat, q: nat, m: nat, r: nat)
    requires k * q == k * m + r && r < k
    ensures q == m
  {
    Gap(k, m, q);
    Gap(k, q, m);
  }

  lemma Gap(k: nat, a: nat, b: nat)
    ensures a < b ==> k * a + k <= k * b
  {
    if a < b {
      Mono(k, a + 1, b);
    }
  }

  lemma Mono(k: nat, a: nat, b: nat)
    requires a <= b
    ensures k * a <= k * b
  {
  }

  lemma AtMostOne(k: nat, d: nat)
    requires k > 0 && k * d <= k
    ensures d <= 1
  {
    Gap(k, 1, d);
  }

  lemma LowestTerms(k: nat, v1: nat, v2: nat, a: nat, b: nat, d: nat)
    requires GreatestCommon(k, a, b) && k > 0 && v1 > 0 && a == k * v1 && b == k * v2 && Common(d, v1, v2)
    ensures d == 1
  {
    MultipleScaled(k, d, v1);
    MultipleScaled(k, d, v2);
    assert Common(k * d, a, b);
    AtMostOne(k, d);
    NotZero(d, v1);
  }

  lemma NotZero(d: nat, v: nat)
    requires Divides(d, v) && v > 0
    ensures d > 0
  {
  }

  lemma MultipleScaled(k: nat, d: nat, v: nat)
    requires Divides(d, v)
    ensures Divides(k * d, k * v)
  {
    var q: nat :| v == d * q;
    Associate(k, d, q);
    assert k * v == (k * d) * q;
  }

  lemma Associate(k: nat, d: nat, q: nat)
    ensures k * (d * q) == (k * d) * q
  {
  }
}
