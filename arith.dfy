/** Exact-arithmetic readings of the integer and float operations the programs use. */
module Arith {
  import opened Base

  function Sq(a: int): nat
  {
    a * a
  }

  /** Division rounding toward zero, as Rust's `/` on `i32` does and as an `as i32`
      cast does to an exact quotient; the divisor is positive at every use. */
  function TruncDiv(a: int, b: int): (q: int)
    requires b > 0
    ensures a >= 0 ==> 0 <= q && q * b <= a < q * b + b
    ensures a < 0 ==> q <= 0 && q * b - b < a <= q * b
  {
    if a >= 0 then
      FloorDivFacts(a, b);
      a / b
    else
      var k := (-a) / b;
      FloorDivFacts(-a, b);
      NegateMul(k, b);
      -k
  }

  lemma FloorDivFacts(n: int, b: int)
    requires n >= 0 && b > 0
    ensures 0 <= n / b && (n / b) * b <= n < (n / b) * b + b
  {
    assert n == (n / b) * b + n % b;
  }

  lemma NegateMul(k: int, b: int)
    ensures (-k) * b == -(k * b)
  {
  }

  /** A dividend no larger than the divisor in magnitude has a quotient in -1..1. */
  lemma TruncDivUnit(a: int, b: int)
    requires b > 0 && -b <= a <= b
    ensures -1 <= TruncDiv(a, b) <= 1
  {
    var q := TruncDiv(a, b);
    if q > 1 {
      MulMonotone(2, q, b);
    } else if q < -1 {
      MulMonotone(q, -2, b);
    }
  }

  /** A dividend strictly smaller than the divisor in magnitude has quotient 0. */
  lemma TruncDivSmall(a: int, b: int)
    requires b > 0 && -b < a < b
    ensures TruncDiv(a, b) == 0
  {
    var q := TruncDiv(a, b);
    if q >= 1 {
      MulMonotone(1, q, b);
    } else if q <= -1 {
      MulMonotone(q, -1, b);
    }
  }

  /** Two dividends with the same truncated quotient lie less than twice the divisor apart. */
  lemma TruncDivSeparates(a: int, a': int, b: int)
    requires b > 0 && TruncDiv(a, b) == TruncDiv(a', b)
    ensures -2 * b < a - a' < 2 * b
  {
  }

  /** `r` is the exact value of ceil(sqrt(n) / k): the least r with (k * r)^2 >= n. */
  ghost predicate IsCeilRootOver(n: nat, k: nat, r: nat)
  {
    Sq(k * r) >= n && (r == 0 || Sq(k * (r - 1)) < n)
  }

  /** ceil(sqrt(n) / k) in exact arithmetic (the programs compute it in f32). */
  function CeilRootOver(n: nat, k: nat): (r: nat)
    requires k > 0
    ensures IsCeilRootOver(n, k, r)
  {
    CeilRootFrom(n, k, 0)
  }

  /** The least r' >= r with (k * r')^2 >= n, given that no value below r qualifies. */
  function CeilRootFrom(n: nat, k: nat, r: nat): (s: nat)
    requires k > 0
    requires r == 0 || Sq(k * (r - 1)) < n
    ensures r <= s && IsCeilRootOver(n, k, s)
    decreases n - r
  {
    if Sq(k * r) >= n then r
    else
      SquareDominates(k, r);
      CeilRootFrom(n, k, r + 1)
  }

  lemma SquareDominates(k: nat, r: nat)
    requires k > 0
    ensures r <= Sq(k * r)
  {
    assert r <= k * r by { MulAtLeast(r, k); }
    MulAtLeast(k * r, k * r);
  }

  lemma MulAtLeast(a: nat, b: nat)
    ensures b > 0 ==> a <= a * b
  {
    if b > 0 {
      assert a * b == a + a * (b - 1);
    }
  }

  /** Squares are strictly monotone on naturals. */
  lemma SquareMonotone(a: nat, b: nat)
    requires a < b
    ensures Sq(a) < Sq(b)
  {
    assert Sq(b) - Sq(a) == (b - a) * (b + a);
    MulAtLeast(b - a, b + a);
  }

  /** The ceiling root is unique. */
  lemma CeilRootUnique(n: nat, k: nat, r: nat, r': nat)
    requires k > 0 && IsCeilRootOver(n, k, r) && IsCeilRootOver(n, k, r')
    ensures r == r'
  {
    if r < r' {
      MulMonotoneNat(r, r' - 1, k);
      SquareMonotoneWeak(k * r, k * (r' - 1));
      assert false;
    } else if r' < r {
      MulMonotoneNat(r', r - 1, k);
      SquareMonotoneWeak(k * r', k * (r - 1));
      assert false;
    }
  }

  lemma MulMonotoneNat(a: nat, b: nat, c: nat)
    requires a <= b
    ensures c * a <= c * b
  {
    assert c * b - c * a == c * (b - a);
  }

  lemma SquareMonotoneWeak(a: nat, b: nat)
    requires a <= b
    ensures Sq(a) <= Sq(b)
  {
    if a < b { SquareMonotone(a, b); }
  }

  /** The ceiling square root of a sum of squares is at least each leg, and strictly
      more than one leg whenever the other leg is non-zero. */
  lemma CeilSqrtLegs(a: int, b: int)
    ensures CeilRootOver(Sq(a) + Sq(b), 1) >= Abs(a)
    ensures b != 0 ==> CeilRootOver(Sq(a) + Sq(b), 1) > Abs(a)
  {
    var r := CeilRootOver(Sq(a) + Sq(b), 1);
    assert Sq(a) == Sq(Abs(a));
    assert Sq(1 * r) == Sq(r);
    if r < Abs(a) {
      SquareMonotone(r, Abs(a));
      assert false;
    }
    if b != 0 && r == Abs(a) {
      assert Sq(b) > 0 by { MulAtLeast(Abs(b), Abs(b)); }
    }
  }

  /** With one leg zero the ceiling square root is exactly the other leg. */
  lemma CeilSqrtAxis(a: int)
    ensures CeilRootOver(Sq(a) + Sq(0), 1) == Abs(a)
  {
    var n := Sq(a) + Sq(0);
    assert Sq(1 * Abs(a)) >= n;
    if Abs(a) > 0 {
      SquareMonotone(Abs(a) - 1, Abs(a));
      assert Sq(1 * (Abs(a) - 1)) < n;
    }
    CeilRootUnique(n, 1, CeilRootOver(n, 1), Abs(a));
  }

  /** ceil(sqrt(n) / k) times k is at least each leg of a sum of squares. */
  lemma CeilRootOverLeg(a: int, b: int, k: nat)
    requires k > 0
    ensures k * CeilRootOver(Sq(a) + Sq(b), k) >= Abs(a)
  {
    var r := CeilRootOver(Sq(a) + Sq(b), k);
    assert Sq(a) == Sq(Abs(a));
    if k * r < Abs(a) {
      SquareMonotone(k * r, Abs(a));
      assert false;
    }
  }

  /** Scaling a value in [0, d] by s/d, truncated, lands in [0, s]. */
  lemma ScaleBound(v: int, s: int, d: int)
    requires s > 0 && d > 0
    ensures 0 <= v <= d ==> 0 <= TruncDiv(v * s, d) <= s
  {
    if 0 <= v <= d {
      MulMonotone(v, d, s);
      MulMonotone(0, v, s);
      var q := TruncDiv(v * s, d);
      if q > s {
        MulMonotone(s + 1, q, d);
      }
    }
  }

  /** A value bounded by k steps of b divides, truncated, to at most k. */
  lemma TruncDivBound(a: int, b: int, k: int)
    requires b > 0 && k >= 0 && Abs(a) <= k * b
    ensures Abs(TruncDiv(a, b)) <= k
  {
    var q := TruncDiv(a, b);
    if q > k {
      MulMonotone(k + 1, q, b);
    } else if q < -k {
      MulMonotone(q, -k - 1, b);
    }
  }

  function Abs(a: int): nat
  {
    if a < 0 then -a else a
  }
}
