/**
 * Angle arithmetic used by the sensor generators: degrees to radians, the arc
 * sample angles and Python's float modulus with a positive divisor.
 */
module Angles {

  /** numpy's `np.pi`, as the decimal it prints. */
  const Pi: real := 3.141592653589793
  const TwoPi: real := 2.0 * Pi

  /** `np.deg2rad`. */
  function DegToRad(deg: real): real
  {
    deg * Pi / 180.0
  }

  /** The integer `k` as a real (gives quantifiers over `k` a term to trigger on). */
  function IntToReal(k: int): real
  {
    k as real
  }

  /** `a` and `b` differ by a whole number of periods `p`. */
  ghost predicate SameModulo(a: real, b: real, p: real)
  {
    exists k: int :: a - b == IntToReal(k) * p
  }

  /**
   * Python's `x % p` for `p > 0`: the representative of `x` modulo `p` in [0, p).
   * Its contract is what the sections wrapped by `% (2 * np.pi)` and `% np.pi` rely on.
   */
  function Wrap(x: real, p: real): (r: real)
    requires p > 0.0
    ensures 0.0 <= r < p
    ensures SameModulo(x, r, p)
  {
    var q := (x / p).Floor;
    var r := x - IntToReal(q) * p;
    assert IntToReal(q) <= x / p < IntToReal(q) + 1.0;
    assert x / p * p == x;
    MulMonotone(IntToReal(q), x / p, p);
    MulStrict(x / p, IntToReal(q) + 1.0, p);
    assert (IntToReal(q) + 1.0) * p == IntToReal(q) * p + p;
    assert x - r == IntToReal(q) * p;
    assert x < IntToReal(q) * p + p;
    assert r < p;
    r
  }

  lemma MulMonotone(a: real, b: real, p: real)
    requires a <= b && p > 0.0
    ensures a * p <= b * p
  {
  }

  lemma MulStrict(a: real, b: real, p: real)
    requires a < b && p > 0.0
    ensures a * p < b * p
  {
  }

  lemma DivMonotone(a: real, b: real, d: real)
    requires a <= b && d > 0.0
    ensures a / d <= b / d
  {
    var x, y := a / d, b / d;
    assert x * d == a && y * d == b;
    assert (y - x) * d == b - a;
    assert y - x >= 0.0;
  }

  lemma MulCancel(a: real, b: real, d: real)
    requires d != 0.0 && a * d == b * d
    ensures a == b
  {
    assert (a - b) * d == 0.0;
  }

  /** A representative in [0, p) is its own wrap: wrapping twice changes nothing. */
  lemma {:induction false} WrapOfRepresentative(x: real, p: real)
    requires p > 0.0 && 0.0 <= x < p
    ensures Wrap(x, p) == x
  {
    assert x / p < 1.0 by {
      assert x / p * p == x;
      if x / p >= 1.0 {
        MulMonotone(1.0, x / p, p);
      }
    }
    assert (x / p).Floor == 0;
  }

  lemma WrapIdempotent(x: real, p: real)
    requires p > 0.0
    ensures Wrap(Wrap(x, p), p) == Wrap(x, p)
  {
    WrapOfRepresentative(Wrap(x, p), p);
  }

  /**
   * The fraction `k / (n - 1)` of an arc of `n` samples. For `n == 1` the source
   * divides zero by zero (numpy yields NaN); the model takes 0 there.
   */
  function Fraction(k: nat, n: int): real
  {
    if n == 1 then 0.0 else (k as real) / ((n - 1) as real)
  }

  /** Sample `k` of an arc swept upward: `base - fov/2 + fov*k/(n-1)`. */
  function Ascending(base: real, fov: real, k: nat, n: int): real
  {
    base - fov / 2.0 + fov * Fraction(k, n)
  }

  /** Sample `k` of an arc swept downward: `base + fov/2 - fov*k/(n-1)`. */
  function Descending(base: real, fov: real, k: nat, n: int): real
  {
    base + fov / 2.0 - fov * Fraction(k, n)
  }

  /** The upward sweep starts at the lower bound and ends at the upper bound. */
  lemma AscendingEnds(base: real, fov: real, n: int)
    requires n >= 2
    ensures Ascending(base, fov, 0, n) == base - fov / 2.0
    ensures Ascending(base, fov, n - 1, n) == base + fov / 2.0
  {
    assert Fraction(n - 1, n) == 1.0;
  }

  /** The downward sweep visits the upward samples in reverse order. */
  lemma DescendingIsReversed(base: real, fov: real, k: nat, n: int)
    requires 2 <= n && k < n
    ensures Descending(base, fov, k, n) == Ascending(base, fov, n - 1 - k, n)
  {
    var d, kr := (n - 1) as real, k as real;
    assert d > 0.0;
    assert ((n - 1 - k) as real) == d - kr;
    assert (d - kr) / d == 1.0 - kr / d by {
      assert (d - kr) / d * d == d - kr;
      assert (1.0 - kr / d) * d == d - kr;
      MulCancel((d - kr) / d, 1.0 - kr / d, d);
    }
    assert Fraction(k, n) == kr / d;
    assert Fraction(n - 1 - k, n) == 1.0 - kr / d;
    assert fov * (1.0 - kr / d) == fov - fov * (kr / d);
  }

  /** The samples of an upward sweep with a non-negative field of view never decrease. */
  lemma {:induction false} AscendingMonotone(base: real, fov: real, j: nat, k: nat, n: int)
    requires fov >= 0.0 && j <= k < n
    ensures Ascending(base, fov, j, n) <= Ascending(base, fov, k, n)
  {
    if n != 1 {
      var d := (n - 1) as real;
      DivMonotone(j as real, k as real, d);
      assert Fraction(j, n) <= Fraction(k, n);
      if fov > 0.0 {
        MulMonotone(Fraction(j, n), Fraction(k, n), fov);
      }
    }
  }
}
