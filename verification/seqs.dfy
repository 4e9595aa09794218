/** Reductions over finite sequences of reals (sum, mean, max, min) and the
    row-major flatten/chunk pair that every reshape in the program reduces to. */
module Seqs {

  import Arith

  function Sum(xs: seq<real>): real
  {
    if |xs| == 0 then 0.0 else Sum(xs[..|xs| - 1]) + xs[|xs| - 1]
  }

  /** `tensor.mean()` of a non-empty vector. */
  function Mean(xs: seq<real>): real
    requires |xs| > 0
  {
    Sum(xs) / (|xs| as real)
  }

  /** The greatest element: one of `xs`, and no element exceeds it. */
  function Max(xs: seq<real>): (r: real)
    requires |xs| > 0
    ensures r in xs
    ensures forall i :: 0 <= i < |xs| ==> xs[i] <= r
  {
    if |xs| == 1 then xs[0]
    else
      var m := Max(xs[..|xs| - 1]);
      if xs[|xs| - 1] > m then xs[|xs| - 1] else m
  }

  /** The least element: one of `xs`, and no element is below it. */
  function Min(xs: seq<real>): (r: real)
    requires |xs| > 0
    ensures r in xs
    ensures forall i :: 0 <= i < |xs| ==> r <= xs[i]
  {
    if |xs| == 1 then xs[0]
    else
      var m := Min(xs[..|xs| - 1]);
      if xs[|xs| - 1] < m then xs[|xs| - 1] else m
  }

  /** A sum of terms each in `[lo, hi]` lies in `[n*lo, n*hi]`. */
  lemma {:induction false} SumBounds(xs: seq<real>, lo: real, hi: real)
    requires forall i :: 0 <= i < |xs| ==> lo <= xs[i] <= hi
    ensures (|xs| as real) * lo <= Sum(xs) <= (|xs| as real) * hi
  {
    if |xs| > 0 {
      SumBounds(xs[..|xs| - 1], lo, hi);
    }
  }

  /** A mean lies between the smallest and the largest element. */
  lemma {:induction false} MeanWithinRange(xs: seq<real>)
    requires |xs| > 0
    ensures Min(xs) <= Mean(xs) <= Max(xs)
  {
    var lo, hi, s := Min(xs), Max(xs), Sum(xs);
    SumBounds(xs, lo, hi);
    QuotientWithin(s, |xs| as real, lo, hi);
  }

  /** Every element lies in `[lo, hi]`. */
  predicate Bounded(xs: seq<real>, lo: real, hi: real)
  {
    forall i :: 0 <= i < |xs| ==> lo <= xs[i] <= hi
  }

  /** A mean of values in `[lo, hi]` stays in `[lo, hi]`. */
  lemma MeanBounded(xs: seq<real>, lo: real, hi: real)
    requires |xs| > 0 && Bounded(xs, lo, hi)
    ensures lo <= Mean(xs) <= hi
  {
    SumBounds(xs, lo, hi);
    QuotientWithin(Sum(xs), |xs| as real, lo, hi);
  }

  /** `s / n` lies in `[lo, hi]` when `s` lies in `[n*lo, n*hi]`. */
  lemma QuotientWithin(s: real, n: real, lo: real, hi: real)
    requires n > 0.0 && n * lo <= s <= n * hi
    ensures lo <= s / n <= hi
  {
    assert s / n - lo == (s - n * lo) / n;
    assert hi - s / n == (n * hi - s) / n;
  }

  /** A sum of terms that are all zero is zero; of non-negative terms, non-negative. */
  lemma {:induction false} SumNonNegative(xs: seq<real>)
    requires forall i :: 0 <= i < |xs| ==> xs[i] >= 0.0
    ensures Sum(xs) >= 0.0
    ensures Sum(xs) == 0.0 <==> forall i :: 0 <= i < |xs| ==> xs[i] == 0.0
  {
    if |xs| > 0 {
      var init := xs[..|xs| - 1];
      SumNonNegative(init);
      assert forall i :: 0 <= i < |init| ==> init[i] == xs[i];
    }
  }

  lemma {:induction false} SumAppend(xs: seq<real>, ys: seq<real>)
    ensures Sum(xs + ys) == Sum(xs) + Sum(ys)
  {
    if |ys| > 0 {
      SumAppend(xs, ys[..|ys| - 1]);
      assert (xs + ys)[..|xs + ys| - 1] == xs + ys[..|ys| - 1];
    } else {
      assert xs + ys == xs;
    }
  }

  /** Summing `a*x + b` term by term. */
  lemma {:induction false} SumAffine(xs: seq<real>, ys: seq<real>, a: real, b: real)
    requires |ys| == |xs|
    requires forall i :: 0 <= i < |xs| ==> ys[i] == a * xs[i] + b
    ensures Sum(ys) == a * Sum(xs) + (|xs| as real) * b
  {
    if |xs| > 0 {
      SumAffine(xs[..|xs| - 1], ys[..|ys| - 1], a, b);
    }
  }

  /** Concatenation of the rows of a nested sequence (row-major flatten). */
  function Flatten<T>(xss: seq<seq<T>>): seq<T>
  {
    if |xss| == 0 then [] else Flatten(xss[..|xss| - 1]) + xss[|xss| - 1]
  }

  /** Every row has length `n`. */
  predicate Rows<T>(xss: seq<seq<T>>, n: nat)
  {
    forall i :: 0 <= i < |xss| ==> |xss[i]| == n
  }

  /** Cut `xs` into consecutive rows of length `n`: the inverse of `Flatten`
      for rectangular data, i.e. numpy/torch `reshape(len(xs) / n, n)`. */
  function Chunk<T>(xs: seq<T>, n: nat): (r: seq<seq<T>>)
    requires n > 0 && |xs| % n == 0
    ensures |r| == |xs| / n && |r| * n == |xs| && Rows(r, n)
  {
    var rows := |xs| / n;
    Arith.DivExact(|xs|, n);
    seq(rows, i requires 0 <= i < rows => RowOf(xs, n, rows, i))
  }

  /** Element `(i, j)` of the chunked sequence is element `i*n + j` of the flat one. */
  lemma ChunkAt<T>(xs: seq<T>, n: nat, i: nat, j: nat)
    requires n > 0 && |xs| % n == 0
    requires i < |xs| / n && j < n
    ensures i * n + j < |xs| && Chunk(xs, n)[i][j] == xs[i * n + j]
  {
    Arith.DivExact(|xs|, n);
    assert Chunk(xs, n)[i] == RowOf(xs, n, |xs| / n, i);
  }

  /** Row `i` of `xs` read as `rows` rows of length `n`. */
  function RowOf<T>(xs: seq<T>, n: nat, rows: nat, i: nat): (r: seq<T>)
    requires n > 0 && rows * n == |xs| && i < rows
    ensures |r| == n && i * n + n <= |xs|
    ensures forall j :: 0 <= j < n ==> r[j] == xs[i * n + j]
  {
    Arith.RowMajorBound(i, n - 1, rows, n);
    xs[i * n .. i * n + n]
  }

  lemma {:induction false} FlattenLength<T>(xss: seq<seq<T>>, n: nat)
    requires Rows(xss, n)
    ensures |Flatten(xss)| == |xss| * n
  {
    if |xss| > 0 {
      FlattenLength(xss[..|xss| - 1], n);
    }
  }

  /** Element `(i, j)` of a rectangular nested sequence sits at flat index `i*n + j`. */
  lemma {:induction false} FlattenIndex<T>(xss: seq<seq<T>>, n: nat, i: nat, j: nat)
    requires Rows(xss, n) && i < |xss| && j < n
    ensures i * n + j < |Flatten(xss)| && Flatten(xss)[i * n + j] == xss[i][j]
  {
    var init := xss[..|xss| - 1];
    FlattenLength(init, n);
    FlattenLength(xss, n);
    if i < |xss| - 1 {
      FlattenIndex(init, n, i, j);
      assert i * n + j < |init| * n by {
        assert i * n + j < (i + 1) * n;
        assert (i + 1) * n <= |init| * n;
      }
    } else {
      assert i * n == |init| * n;
    }
  }

  /** Flatten then chunk is the identity on rectangular data. */
  lemma {:induction false} ChunkFlatten<T>(xss: seq<seq<T>>, n: nat)
    requires n > 0 && Rows(xss, n)
    ensures |Flatten(xss)| % n == 0 && Chunk(Flatten(xss), n) == xss
  {
    FlattenLength(xss, n);
    var flat := Flatten(xss);
    assert |flat| / n == |xss| by {
      Arith.DivModUnique(|flat|, |xss|, 0, n);
    }
    var r := Chunk(flat, n);
    forall i | 0 <= i < |xss|
      ensures r[i] == xss[i]
    {
      forall j | 0 <= j < n
        ensures r[i][j] == xss[i][j]
      {
        FlattenIndex(xss, n, i, j);
        ChunkAt(flat, n, i, j);
      }
    }
  }

  /** Chunk then flatten is the identity. */
  lemma {:induction false} FlattenChunk<T>(xs: seq<T>, n: nat)
    requires n > 0 && |xs| % n == 0
    ensures Flatten(Chunk(xs, n)) == xs
  {
    var r := Chunk(xs, n);
    FlattenLength(r, n);
    var flat := Flatten(r);
    assert |flat| == |xs|;
    forall k | 0 <= k < |xs|
      ensures flat[k] == xs[k]
    {
      var i, j := k / n, k % n;
      Arith.DivModSplit(k, n);
      Arith.QuotientBound(k, |r|, n);
      FlattenIndex(r, n, i, j);
      ChunkAt(xs, n, i, j);
    }
  }

  /** An element of row `i` is an element of the flattened sequence. */
  lemma {:induction false} FlattenMember<T>(xss: seq<seq<T>>, i: nat, v: T)
    requires i < |xss| && v in xss[i]
    ensures v in Flatten(xss)
  {
    var init := xss[..|xss| - 1];
    assert Flatten(xss) == Flatten(init) + xss[|xss| - 1];
    if i < |xss| - 1 {
      assert xss[i] == init[i];
      FlattenMember(init, i, v);
    }
  }

  /** Every element of the flattened sequence comes from some row. */
  lemma {:induction false} FlattenSource<T>(xss: seq<seq<T>>, j: nat) returns (i: nat)
    requires j < |Flatten(xss)|
    ensures i < |xss| && Flatten(xss)[j] in xss[i]
  {
    var init := xss[..|xss| - 1];
    assert Flatten(xss) == Flatten(init) + xss[|xss| - 1];
    if j < |Flatten(init)| {
      i := FlattenSource(init, j);
      assert init[i] == xss[i];
    } else {
      i := |xss| - 1;
      assert Flatten(xss)[j] == xss[i][j - |Flatten(init)|];
    }
  }
}
