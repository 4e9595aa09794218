/** Integer facts about row-major index arithmetic, Python's `int()` on a
    float, and `int(math.sqrt(n))`. */
module Arith {

  /** Euclidean division is unique: `a*n + r` with `0 <= r < n` splits as
      quotient `a` and remainder `r`. */
  lemma DivModUnique(q: int, a: int, r: int, n: int)
    requires n > 0 && 0 <= r < n && q == a * n + r
    ensures q / n == a && q % n == r
  {
    var a', r' := q / n, q % n;
    assert (a - a') * n == r' - r;
    AbsMulBelow(a - a', n);
  }

  /** A multiple of `n` strictly between `-n` and `n` is zero. */
  lemma AbsMulBelow(x: int, n: int)
    requires n > 0 && -n < x * n < n
    ensures x == 0
  {

  }

  /** Euclidean division of a natural number by a positive one. */
  lemma DivModSplit(k: int, n: int)
    requires k >= 0 && n > 0
    ensures k == (k / n) * n + k % n && 0 <= k % n < n && k / n >= 0
  {
  }

  /** An exact quotient multiplies back. */
  lemma DivExact(a: int, n: int)
    requires n > 0 && a % n == 0
    ensures (a / n) * n == a
  {
  }

  /** A row-major pair index `i*w + j` with `i < h` and `j < w` lies in `[0, h*w)`. */
  lemma RowMajorBound(i: int, j: int, h: int, w: int)
    requires 0 <= i < h && 0 <= j < w
    ensures 0 <= i * w + j < h * w
  {
    var d := h - 1 - i;
    assert d >= 0;
    assert h * w == (i + d + 1) * w;
    assert (i + d + 1) * w == i * w + d * w + w;
    assert d * w >= 0;
    assert i * w >= 0;
  }

  /** Splitting a row-major index recovers its row and column. */
  lemma RowMajorSplit(i: int, j: int, w: int)
    requires 0 <= i && 0 <= j < w
    ensures (i * w + j) / w == i && (i * w + j) % w == j
  {
    DivModUnique(i * w + j, i, j, w);
  }

  /** A flat index below `h*w` has its row below `h`. */
  lemma QuotientBound(q: int, h: int, w: int)
    requires w > 0 && 0 <= q < h * w
    ensures 0 <= q / w < h
  {

  }

  /** A three-level row-major index `(c*k + i)*k + j` stays below `C*k*k`. */
  lemma RowMajor3Bound(c: int, i: int, j: int, C: int, k: int)
    requires 0 <= c < C && 0 <= i < k && 0 <= j < k
    ensures 0 <= c * (k * k) + i * k + j < C * (k * k)
  {
    RowMajorBound(i, j, k, k);
    RowMajorBound(c, i * k + j, C, k * k);
  }

  /** Three-level row-major index `(c*k + i)*k + j` and its decomposition. */
  lemma RowMajor3(c: int, i: int, j: int, C: int, k: int)
    requires 0 <= c < C && 0 <= i < k && 0 <= j < k
    ensures 0 <= c * (k * k) + i * k + j < C * (k * k)
    ensures (c * (k * k) + i * k + j) / (k * k) == c
    ensures ((c * (k * k) + i * k + j) % (k * k)) / k == i
    ensures ((c * (k * k) + i * k + j) % (k * k)) % k == j
  {
    RowMajorBound(i, j, k, k);
    RowMajorBound(c, i * k + j, C, k * k);
    RowMajorSplit(c, i * k + j, k * k);
    RowMajorSplit(i, j, k);
  }

  /** Python's `int(x)` on a float: truncation toward zero. */
  function TruncToInt(x: real): (r: int)
    ensures x >= 0.0 ==> r as real <= x < r as real + 1.0
    ensures x < 0.0 ==> r as real - 1.0 < x <= r as real
  {
    if x >= 0.0 then x.Floor else -((-x).Floor)
  }

  /** On a non-negative numerator, Python's `int(a / b)` is floor division `a // b`. */
  lemma TruncQuotient(a: int, b: int)
    requires a >= 0 && b > 0
    ensures TruncToInt((a as real) / (b as real)) == a / b
  {
    var q, r := a / b, a % b;
    var x := (a as real) / (b as real);
    assert (a as real) == (q as real) * (b as real) + (r as real);
    assert x == (q as real) + (r as real) / (b as real);
    assert 0.0 <= (r as real) / (b as real) < 1.0;
    assert x.Floor == q;
  }

  /** ... and `int(a / b + 1)` is `a // b + 1`. */
  lemma TruncQuotientPlusOne(a: int, b: int)
    requires a >= 0 && b > 0
    ensures TruncToInt((a as real) / (b as real) + 1.0) == a / b + 1
  {
    TruncQuotient(a, b);
    var x := (a as real) / (b as real);
    assert (x + 1.0).Floor == x.Floor + 1;
  }

  /** `int(math.sqrt(n))`: the integer square root, the largest `r` with `r*r <= n`. */
  function ISqrt(n: nat): (r: nat)
    ensures r * r <= n < (r + 1) * (r + 1)
  {
    if n == 0 then 0
    else
      var s := ISqrt(n - 1);
      if (s + 1) * (s + 1) <= n then s + 1
      else s
  }

  /** `n` is a perfect square exactly when its integer square root squares back to it. */
  lemma ISqrtExact(n: nat, r: nat)
    requires r * r == n
    ensures ISqrt(n) == r
  {
    var s := ISqrt(n);
    SquareLt(r, r + 1);
    assert s * s < (r + 1) * (r + 1);
    SquareLt(s, r + 1);
    assert r * r < (s + 1) * (s + 1);
    SquareLt(r, s + 1);
  }

  /** Squaring is strictly monotone on naturals, both ways. */
  lemma SquareLt(a: nat, b: nat)
    ensures a < b <==> a * a < b * b
  {
    if a < b {
      assert a * a <= a * b;
      assert a * b < b * b;
    } else {
      MulMono(b, a);
    }
  }

  lemma MulMono(a: nat, b: nat)
    requires a <= b
    ensures a * a <= b * b
  {
    assert a * a <= a * b;
    assert a * b <= b * b;
  }

  /** Floor division by a positive number is monotone. */
  lemma DivMono(x: int, y: int, d: int)
    requires d > 0 && x <= y
    ensures x / d <= y / d
  {
    DivModSplitAny(x, d);
    DivModSplitAny(y, d);
    assert (x / d) * d < (y / d + 1) * d;
    MulCancelLt(x / d, y / d + 1, d);
  }

  /** `a*d < b*d` with `d > 0` gives `a < b`. */
  lemma MulCancelLt(a: int, b: int, d: int)
    requires d > 0 && a * d < b * d
    ensures a < b
  {
    assert (b - a) * d > 0;
  }

  lemma DivModSplitAny(k: int, n: int)
    requires n > 0
    ensures k == (k / n) * n + k % n && 0 <= k % n < n
  {
  }

  /** Multiplying by a non-negative number keeps `<=`. */
  lemma MulMonoLe(a: int, b: int, d: int)
    requires a <= b && d >= 0
    ensures a * d <= b * d
  {
    assert (b - a) * d >= 0;
  }

  /** A product of two positive numbers is positive. */
  lemma MulPositive(a: int, b: int)
    requires a > 0 && b > 0
    ensures a * b > 0
  {
    MulMonoLe(1, a, b);
  }
}
