/** The arithmetic of one discriminator training step
    (simplenet_vit.py:1050-1078): Gaussian-mixture noise picked per sample
    with a one-hot mask, the real/fake split of the concatenated scores,
    the hinge loss and the two logged accuracies. Random draws are inputs. */
module Training {

  import opened Results
  import opened Tensors
  import Seqs

  // ---------------------------------------------------------------- noise

  /** `1.1 ** k`. */
  function Pow11(k: nat): real
  {
    if k == 0 then 1.0 else 1.1 * Pow11(k - 1)
  }

  /** Standard deviation of mixture component `k`: `noise_std * 1.1**k`. */
  function ComponentStd(noiseStd: real, k: nat): real
  {
    noiseStd * Pow11(k)
  }

  /** Component 0 has the configured deviation, and every later component
      is strictly wider than the ones before it. */
  lemma {:induction false} ComponentStdIncreasing(noiseStd: real, k: nat, k': nat)
    requires noiseStd > 0.0 && k < k'
    ensures ComponentStd(noiseStd, 0) == noiseStd
    ensures 0.0 < ComponentStd(noiseStd, k) < ComponentStd(noiseStd, k')
    decreases k'
  {
    PowPositive(k');
    if k + 1 < k' {
      ComponentStdIncreasing(noiseStd, k, k' - 1);
    }
    assert Pow11(k') == 1.1 * Pow11(k' - 1);
    PowPositive(k' - 1);
    assert ComponentStd(noiseStd, k') == 1.1 * ComponentStd(noiseStd, k' - 1);
  }

  lemma {:induction false} PowPositive(k: nat)
    ensures Pow11(k) > 0.0
  {
    if k > 0 {
      PowPositive(k - 1);
    }
  }

  /** `one_hot(idx, K)` as reals. */
  function OneHot(idx: nat, K: nat): (v: Vec)
    ensures |v| == K
    ensures forall k :: 0 <= k < K ==> v[k] == if k == idx then 1.0 else 0.0
  {
    seq(K, k requires 0 <= k < K => if k == idx then 1.0 else 0.0)
  }

  /** `(noise * one_hot.unsqueeze(-1)).sum(1)` for one sample and one channel. */
  function MaskedSum(column: Vec, mask: Vec): real
    requires |column| == |mask|
  {
    Seqs.Sum(seq(|column|, k requires 0 <= k < |column| => column[k] * mask[k]))
  }

  /** Summing against a one-hot mask picks the masked entry. */
  lemma {:induction false} MaskedSumPicks(column: Vec, idx: nat)
    requires idx < |column|
    ensures MaskedSum(column, OneHot(idx, |column|)) == column[idx]
  {
    var m := |column|;
    var mask := OneHot(idx, m);
    assert seq(m, k requires 0 <= k < m => column[k] * mask[k])
        == seq(m, k requires 0 <= k < m => column[k] * (if k == idx then 1.0 else 0.0));
    PickFrom(column, idx, m);
  }

  lemma {:induction false} PickFrom(column: Vec, idx: nat, m: nat)
    requires idx < |column| && m <= |column|
    ensures Seqs.Sum(seq(m, k requires 0 <= k < m => column[k] * (if k == idx then 1.0 else 0.0)))
         == if idx < m then column[idx] else 0.0
  {
    var v := seq(m, k requires 0 <= k < m => column[k] * (if k == idx then 1.0 else 0.0));
    if m > 0 {
      PickFrom(column, idx, m - 1);
      assert v[..m - 1] == seq(m - 1, k requires 0 <= k < m - 1 => column[k] * (if k == idx then 1.0 else 0.0));
    }
  }

  /** Entry `n, c` of the fake features. */
  function FakeAt(trueFeats: Mat, noise: T3, idxs: seq<nat>, N: nat, K: nat, C: nat, n: nat, c: nat): real
    requires IsMat(trueFeats, N, C) && IsT3(noise, N, K, C) && |idxs| == N && n < N && c < C
  {
    trueFeats[n][c] + MaskedSum(seq(K, k requires 0 <= k < K => noise[n][k][c]), OneHot(idxs[n], K))
  }

  /** `fake_feats = true_feats + (noise * one_hot(idxs, K).unsqueeze(-1)).sum(1)`
      for draws `noise` of shape (N, K, C) and component indices `idxs`.
      `one_hot` rejects an index of `K` or more; `randint(0, K)` rejects `K = 0`. */
  function FakeFeatures(trueFeats: Mat, noise: T3, idxs: seq<nat>, N: nat, K: nat, C: nat): (r: Result<Mat>)
    requires IsMat(trueFeats, N, C) && IsT3(noise, N, K, C) && |idxs| == N
    ensures r.Ok? <==> K > 0 && forall n :: 0 <= n < N ==> idxs[n] < K
    ensures r.Ok? ==> IsMat(r.value, N, C)
  {
    if K == 0 then Err("randint: from must be less than to")
    else if exists n :: 0 <= n < N && idxs[n] >= K then Err("one_hot: class values must be smaller than num_classes")
    else Ok(seq(N, n requires 0 <= n < N => seq(C, c requires 0 <= c < C => FakeAt(trueFeats, noise, idxs, N, K, C, n, c))))
  }

  /** Each fake feature is its true feature plus the draw of the chosen component. */
  lemma FakeFeaturesAt(trueFeats: Mat, noise: T3, idxs: seq<nat>, N: nat, K: nat, C: nat, n: nat, c: nat)
    requires IsMat(trueFeats, N, C) && IsT3(noise, N, K, C) && |idxs| == N
    requires FakeFeatures(trueFeats, noise, idxs, N, K, C).Ok? && n < N && c < C
    ensures idxs[n] < K
    ensures FakeFeatures(trueFeats, noise, idxs, N, K, C).value[n][c] == trueFeats[n][c] + noise[n][idxs[n]][c]
  {
    var column := seq(K, k requires 0 <= k < K => noise[n][k][c]);
    MaskedSumPicks(column, idxs[n]);
  }

  /** With a single component (`mix_noise = 1`) every sample uses component 0. */
  lemma SingleComponent(trueFeats: Mat, noise: T3, idxs: seq<nat>, N: nat, C: nat, n: nat, c: nat)
    requires IsMat(trueFeats, N, C) && IsT3(noise, N, 1, C) && |idxs| == N
    requires FakeFeatures(trueFeats, noise, idxs, N, 1, C).Ok? && n < N && c < C
    ensures FakeFeatures(trueFeats, noise, idxs, N, 1, C).value[n][c] == trueFeats[n][c] + noise[n][0][c]
  {
    FakeFeaturesAt(trueFeats, noise, idxs, N, 1, C, n, c);
  }

  // ---------------------------------------------------------------- split

  /** `scores[:N]` and `scores[N:]` for the discriminator's scores of
      `cat([true_feats, fake_feats])`: the halves are the scores of the true
      and of the fake features. */
  function Split(scores: seq<real>, N: nat): (r: (seq<real>, seq<real>))
    requires |scores| == 2 * N
    ensures |r.0| == N && |r.1| == N && r.0 + r.1 == scores
  {
    (scores[..N], scores[N..])
  }

  /** Splitting the concatenation of two length-N score vectors gives them back. */
  lemma SplitCat(t: seq<real>, f: seq<real>)
    requires |t| == |f|
    ensures Split(t + f, |t|) == (t, f)
  {
    assert (t + f)[..|t|] == t;
    assert (t + f)[|t|..] == f;
  }

  // ---------------------------------------------------------------- loss

  /** `torch.clip(x, min=0)`. */
  function ClipZero(x: real): (r: real)
    ensures r >= 0.0 && r >= x && (r == 0.0 <==> x <= 0.0)
  {
    if x < 0.0 then 0.0 else x
  }

  function TrueLossTerms(t: seq<real>, th: real): (v: seq<real>)
    ensures |v| == |t| && forall i :: 0 <= i < |t| ==> v[i] == ClipZero(th - t[i])
  {
    seq(|t|, i requires 0 <= i < |t| => ClipZero(th - t[i]))
  }

  function FakeLossTerms(f: seq<real>, th: real): (v: seq<real>)
    ensures |v| == |f| && forall i :: 0 <= i < |f| ==> v[i] == ClipZero(f[i] + th)
  {
    seq(|f|, i requires 0 <= i < |f| => ClipZero(f[i] + th))
  }

  /** Every true score clears the margin and every fake score is at or
      below its negation. */
  predicate Separated(t: seq<real>, f: seq<real>, th: real)
  {
    (forall i :: 0 <= i < |t| ==> t[i] >= th) && (forall i :: 0 <= i < |f| ==> f[i] <= -th)
  }

  /** `true_loss.mean() + fake_loss.mean()` with margin `th`; the mean of an
      empty batch is NaN, modelled as a failure. The loss is never negative
      and is zero exactly when the scores are separated by the margin. */
  function HingeLoss(t: seq<real>, f: seq<real>, th: real): (r: Result<real>)
    ensures r.Ok? <==> |t| > 0 && |f| > 0
    ensures r.Ok? ==> r.value >= 0.0
    ensures r.Ok? ==> (r.value == 0.0 <==> Separated(t, f, th))
  {
    if |t| == 0 || |f| == 0 then Err("mean of an empty tensor is NaN")
    else
      var a, b := TrueLossTerms(t, th), FakeLossTerms(f, th);
      Seqs.SumNonNegative(a);
      Seqs.SumNonNegative(b);
      MeanZero(a);
      MeanZero(b);
      Ok(Seqs.Mean(a) + Seqs.Mean(b))
  }

  /** A mean of non-negative terms is non-negative, and zero exactly when every term is. */
  lemma MeanZero(v: seq<real>)
    requires |v| > 0 && forall i :: 0 <= i < |v| ==> v[i] >= 0.0
    ensures Seqs.Mean(v) >= 0.0
    ensures Seqs.Mean(v) == 0.0 <==> forall i :: 0 <= i < |v| ==> v[i] == 0.0
  {
    Seqs.SumNonNegative(v);
    var n := |v| as real;
    assert Seqs.Mean(v) * n == Seqs.Sum(v);
  }

  // ---------------------------------------------------------------- diagnostics

  function CountAtLeast(xs: seq<real>, th: real): (c: nat)
    ensures c <= |xs|
  {
    if |xs| == 0 then 0 else CountAtLeast(xs[..|xs| - 1], th) + (if xs[|xs| - 1] >= th then 1 else 0)
  }

  function CountBelow(xs: seq<real>, th: real): (c: nat)
    ensures c <= |xs|
  {
    if |xs| == 0 then 0 else CountBelow(xs[..|xs| - 1], th) + (if xs[|xs| - 1] < th then 1 else 0)
  }

  lemma {:induction false} CountAtLeastAll(xs: seq<real>, th: real)
    ensures CountAtLeast(xs, th) == |xs| <==> forall i :: 0 <= i < |xs| ==> xs[i] >= th
  {
    if |xs| > 0 {
      var init := xs[..|xs| - 1];
      CountAtLeastAll(init, th);
      assert forall i :: 0 <= i < |init| ==> init[i] == xs[i];
    }
  }

  lemma {:induction false} CountBelowAll(xs: seq<real>, th: real)
    ensures CountBelow(xs, th) == |xs| <==> forall i :: 0 <= i < |xs| ==> xs[i] < th
    ensures CountBelow(xs, th) == 0 <==> forall i :: 0 <= i < |xs| ==> xs[i] >= th
  {
    if |xs| > 0 {
      var init := xs[..|xs| - 1];
      CountBelowAll(init, th);
      assert forall i :: 0 <= i < |init| ==> init[i] == xs[i];
    }
  }

  /** `p_true = (true_scores >= th).sum() / N`: the share of true scores
      clearing the margin, in [0, 1], and 1 exactly when all of them do. */
  function PTrue(t: seq<real>, th: real): (p: Result<real>)
    ensures p.Ok? <==> |t| > 0
    ensures p.Ok? ==> 0.0 <= p.value <= 1.0
    ensures p.Ok? ==> (p.value == 1.0 <==> forall i :: 0 <= i < |t| ==> t[i] >= th)
  {
    if |t| == 0 then Err("0 / 0")
    else
      CountAtLeastAll(t, th);
      var c := CountAtLeast(t, th);
      Seqs.QuotientWithin(c as real, |t| as real, 0.0, 1.0);
      assert (c as real) / (|t| as real) == 1.0 ==> (c as real) == |t| as real;
      Ok((c as real) / (|t| as real))
  }

  /** `p_fake = (fake_scores < -th).sum() / N`: the share of fake scores
      strictly below the negated margin, in [0, 1]; 1 exactly when all of
      them are, 0 exactly when none is. */
  function PFake(f: seq<real>, th: real): (p: Result<real>)
    ensures p.Ok? <==> |f| > 0
    ensures p.Ok? ==> 0.0 <= p.value <= 1.0
    ensures p.Ok? ==> (p.value == 1.0 <==> forall i :: 0 <= i < |f| ==> f[i] < -th)
    ensures p.Ok? ==> (p.value == 0.0 <==> forall i :: 0 <= i < |f| ==> f[i] >= -th)
  {
    if |f| == 0 then Err("0 / 0")
    else
      CountBelowAll(f, -th);
      var c := CountBelow(f, -th);
      Seqs.QuotientWithin(c as real, |f| as real, 0.0, 1.0);
      assert (c as real) / (|f| as real) == 1.0 ==> (c as real) == |f| as real;
      assert (c as real) / (|f| as real) == 0.0 ==> (c as real) == 0.0;
      Ok((c as real) / (|f| as real))
  }

  /** A step with zero loss has every true score past the margin. */
  lemma ZeroLossAllTrue(t: seq<real>, f: seq<real>, th: real)
    requires HingeLoss(t, f, th) == Ok(0.0)
    ensures PTrue(t, th) == Ok(1.0)
  {
  }

  /** ... but not necessarily every fake one: `p_fake` counts strictly below
      `-th` while the loss already vanishes at `-th`. */
  lemma ZeroLossFakeBoundary()
    ensures HingeLoss([0.8], [-0.8], 0.8) == Ok(0.0)
    ensures PFake([-0.8], 0.8) == Ok(0.0)
  {
    assert TrueLossTerms([0.8], 0.8) == [0.0];
    assert FakeLossTerms([-0.8], 0.8) == [0.0];
    assert [0.0][..0] == [];
    assert CountBelow([-0.8], -0.8) == 0 by {
      assert [-0.8][..0] == [];
    }
  }
}
