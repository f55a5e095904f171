/** Facts about integer multiplication, division and remainder used by the frame geometry. */
module Arith {

  /** For `i < n`, the scaled index `i * m / n` stays below `m`. */
  lemma ScaledIndexBelow(i: nat, n: nat, m: nat)
    requires i < n && 0 < m
    ensures i * m / n < m
  {
    var q := i * m / n;
    assert n * q <= i * m;
    assert i * m < n * m by {
      assert (n - i) * m > 0;
    }
    assert n * (m - q) > 0;
  }

  /** `k mod w` is the offset of `k` past the `q`-th multiple of `w` when that offset is below `w`. */
  lemma ModOfOffset(k: int, w: int, q: int)
    requires w > 0 && 0 <= k - q * w < w
    ensures k % w == k - q * w
  {
    var d, r := k / w, k % w;
    assert k == d * w + r;
    assert (d - q) * w == (k - q * w) - r;
    OnlyZeroScalesBelow(d - q, w);
  }

  /** The only multiple of `w` strictly between `-w` and `w` is zero. */
  lemma OnlyZeroScalesBelow(x: int, w: int)
    requires w > 0 && -w < x * w < w
    ensures x == 0
  {
    if x >= 1 {
      MulMonotone(1, x, w);
      assert false;
    } else if x <= -1 {
      MulMonotone(x, -1, w);
      assert false;
    }
  }

  lemma MulMonotone(a: int, b: int, w: int)
    requires a <= b && w >= 0
    ensures a * w <= b * w
  {
    assert b * w - a * w == (b - a) * w;
  }

  /** `a / b` is at most `c` when `a` is at most `b * c`. */
  lemma DivAtMost(a: int, b: int, c: int)
    requires b > 0 && a <= b * c
    ensures a / b <= c
  {
    var q := a / b;
    assert b * q <= a;
    if q >= c + 1 {
      MulMonotone(c + 1, q, b);
      assert false;
    }
  }

  /** The floor of the exact ratio `n / d` is the integer quotient. */
  lemma FloorOfRatio(n: int, d: int)
    requires n >= 0 && d > 0
    ensures (n as real / d as real).Floor == n / d
  {
    var q, r := n / d, n % d;
    assert n == q * d + r && 0 <= r < d;
    var x := n as real / d as real;
    assert x * d as real == n as real;
    assert q as real * d as real <= x * d as real;
    assert x * d as real < (q + 1) as real * d as real;
    assert q as real <= x < (q + 1) as real;
  }

  /** Comparing two ratios with positive denominators is comparing the cross products. */
  lemma RatioCompare(a: int, b: int, c: int, d: int)
    requires b > 0 && d > 0
    ensures a as real / b as real <= c as real / d as real <==> a * d <= c * b
  {
    var x, y := a as real / b as real, c as real / d as real;
    assert x * b as real == a as real && y * d as real == c as real;
    var bd := (b * d) as real;
    assert bd > 0.0;
    assert x * bd == (a * d) as real;
    assert y * bd == (c * b) as real;
    ScaleKeepsOrder(x, y, bd);
  }

  /** Multiplying both sides by a positive real keeps their order. */
  lemma ScaleKeepsOrder(x: real, y: real, k: real)
    requires k > 0.0
    ensures x <= y <==> x * k <= y * k
  {
    if x <= y {
      assert (y - x) * k >= 0.0;
    } else {
      assert (x - y) * k > 0.0;
    }
  }

  /** Multiplying the ratio `m / d` by `n` gives the ratio `n * m / d`. */
  lemma RatioTimes(n: int, m: int, d: int)
    requires d > 0
    ensures n as real * (m as real / d as real) == (n * m) as real / d as real
  {
  }

  /** Multiplying the ratio `m / d` by `d` gives `m`. */
  lemma RatioCancel(m: int, d: int)
    requires d > 0
    ensures d as real * (m as real / d as real) == m as real
  {
  }

  /** If `tw * h <= th * w`, scaling `h` by `tw / w` and truncating stays within `[0, th]`. */
  lemma CrossQuotientWithin(tw: nat, h: nat, th: nat, w: nat)
    requires w > 0 && tw * h <= th * w
    ensures 0 <= h * tw / w <= th
  {
    assert h * tw >= 0;
    assert h * tw <= w * th;
    DivAtMost(h * tw, w, th);
  }

  /**
   * Scaling `w` and `h` by the ratio `t / w` and taking floors gives `t`
   * and the integer quotient `h * t / w`.
   */
  lemma ScaledFloors(w: int, h: nat, t: nat)
    requires w > 0
    ensures (w as real * (t as real / w as real)).Floor == t
    ensures (h as real * (t as real / w as real)).Floor == h * t / w
  {
    RatioCancel(t, w);
    RatioTimes(h, t, w);
    FloorOfRatio(h * t, w);
  }

  /** The floor quotient of a non-negative `n` brackets it between consecutive multiples of `d`. */
  lemma QuotientBrackets(n: int, d: int)
    requires n >= 0 && d > 0
    ensures 0 <= n / d && d * (n / d) <= n < d * (n / d) + d
  {
    assert n == (n / d) * d + n % d;
  }
}
