/** `torch.topk(row, k).values.mean()`: the mean of the `k` largest entries
    of a row, specified through a descending sort. */
module TopK {

  import Seqs

  predicate SortedDesc(xs: seq<real>)
  {
    forall i, j :: 0 <= i < j < |xs| ==> xs[i] >= xs[j]
  }

  /** Insert `x` into a descending sequence. */
  function Insert(x: real, s: seq<real>): (r: seq<real>)
    requires SortedDesc(s)
    ensures |r| == |s| + 1 && SortedDesc(r)
    ensures multiset(r) == multiset(s) + multiset{x}
  {
    if |s| == 0 || x >= s[0] then [x] + s
    else
      var rest := Insert(x, s[1..]);
      assert s == [s[0]] + s[1..];
      BoundedBy(s[0], rest, s[1..], x);
      [s[0]] + rest
  }

  /** An upper bound of `t` and of `x` bounds every entry of a sequence made of them. */
  lemma {:induction false} BoundedBy(m: real, r: seq<real>, t: seq<real>, x: real)
    requires multiset(r) == multiset(t) + multiset{x}
    requires x <= m && forall i :: 0 <= i < |t| ==> t[i] <= m
    ensures forall i :: 0 <= i < |r| ==> r[i] <= m
  {
    forall i | 0 <= i < |r|
      ensures r[i] <= m
    {
      assert r[i] in multiset(r);
      if r[i] != x {
        assert r[i] in multiset(t);
      }
    }
  }

  /** The entries of `xs` in descending order. */
  function SortDesc(xs: seq<real>): (r: seq<real>)
    ensures |r| == |xs| && SortedDesc(r)
    ensures multiset(r) == multiset(xs)
  {
    if |xs| == 0 then []
    else
      assert xs == xs[..|xs| - 1] + [xs[|xs| - 1]];
      Insert(xs[|xs| - 1], SortDesc(xs[..|xs| - 1]))
  }

  /** Two descending sequences with the same entries are equal. */
  lemma {:induction false} SortedUnique(a: seq<real>, b: seq<real>)
    requires SortedDesc(a) && SortedDesc(b) && multiset(a) == multiset(b)
    ensures a == b
  {
    assert |a| == |multiset(a)| == |multiset(b)| == |b|;
    if |a| > 0 {
      SortedHeads(a, b);
      TailMultiset(a);
      TailMultiset(b);
      SortedUnique(a[1..], b[1..]);
      assert a == [a[0]] + a[1..];
      assert b == [b[0]] + b[1..];
    }
  }

  /** Two non-empty descending sequences with the same entries start alike. */
  lemma SortedHeads(a: seq<real>, b: seq<real>)
    requires |a| > 0 && |b| > 0
    requires SortedDesc(a) && SortedDesc(b) && multiset(a) == multiset(b)
    ensures a[0] == b[0]
  {
    assert a[0] in multiset(b);
    assert b[0] in multiset(a);
    var i :| 0 <= i < |b| && b[i] == a[0];
    var j :| 0 <= j < |a| && a[j] == b[0];
    assert a[0] >= a[j] && b[0] >= b[i];
  }

  lemma TailMultiset(a: seq<real>)
    requires |a| > 0
    ensures multiset(a[1..]) == multiset(a) - multiset{a[0]}
  {
    assert a == [a[0]] + a[1..];
  }

  /** `torch.topk(xs, k).values`: the `k` largest entries, largest first. */
  function TopKValues(xs: seq<real>, k: nat): (r: seq<real>)
    requires k <= |xs|
    ensures |r| == k && SortedDesc(r)
    ensures multiset(r) <= multiset(xs)
  {
    var s := SortDesc(xs);
    assert s == s[..k] + s[k..];
    s[..k]
  }

  /** Mean of the `k` largest entries. */
  function TopKMean(xs: seq<real>, k: nat): real
    requires 0 < k <= |xs|
  {
    Seqs.Mean(TopKValues(xs, k))
  }

  /** Each selected value is at least every value left out: the selection
      really is the `k` largest. */
  lemma {:induction false} TopKSelectsLargest(xs: seq<real>, k: nat)
    requires 0 < k <= |xs|
    ensures var top := TopKValues(xs, k);
      forall v :: v in multiset(xs) - multiset(top) ==> v <= top[k - 1]
  {
    var s := SortDesc(xs);
    var top := s[..k];
    assert s == top + s[k..];
    assert multiset(s) == multiset(top) + multiset(s[k..]);
    forall v | v in multiset(xs) - multiset(top)
      ensures v <= top[k - 1]
    {
      assert v in multiset(s[k..]);
      var i :| 0 <= i < |s[k..]| && s[k..][i] == v;
      assert s[k + i] == v;
    }
  }

  /** Every value `topk` selects is an entry of the row. */
  lemma {:induction false} TopKValuesFromRow(xs: seq<real>, k: nat, i: nat)
    requires k <= |xs| && i < k
    ensures TopKValues(xs, k)[i] in xs
  {
    var top := TopKValues(xs, k);
    assert top[i] in multiset(top);
  }

  /** The top-k mean lies between the row's minimum and maximum. */
  lemma {:induction false} TopKMeanWithinRow(xs: seq<real>, k: nat)
    requires 0 < k <= |xs|
    ensures Seqs.Min(xs) <= TopKMean(xs, k) <= Seqs.Max(xs)
  {
    var top := TopKValues(xs, k);
    forall i | 0 <= i < k
      ensures Seqs.Min(xs) <= top[i] <= Seqs.Max(xs)
    {
      TopKValuesFromRow(xs, k, i);
    }
    Seqs.MeanWithinRange(top);
  }

  /** With `k = 1` the top-k mean is the row maximum. */
  lemma {:induction false} TopKOneIsMax(xs: seq<real>)
    requires |xs| > 0
    ensures TopKMean(xs, 1) == Seqs.Max(xs)
  {
    var top := TopKValues(xs, 1);
    var m := Seqs.Max(xs);
    TopKValuesFromRow(xs, 1, 0);
    assert top[0] <= m;
    TopKSelectsLargest(xs, 1);
    assert m in multiset(xs);
    assert top == [top[0]];
    assert m == top[0] || m in multiset(xs) - multiset(top);
    assert Seqs.Sum(top) == Seqs.Sum([]) + top[0];
  }

  /** The top-k mean depends only on the multiset of entries, not on their
      order (ties included). */
  lemma {:induction false} TopKOrderInvariant(xs: seq<real>, ys: seq<real>, k: nat)
    requires multiset(xs) == multiset(ys) && 0 < k <= |xs|
    ensures |ys| == |xs| && TopKMean(xs, k) == TopKMean(ys, k)
  {
    assert |xs| == |multiset(xs)| == |multiset(ys)| == |ys|;
    SortedUnique(SortDesc(xs), SortDesc(ys));
  }
}
