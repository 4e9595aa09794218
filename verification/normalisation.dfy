/** Min-max normalisation of the evaluation scores in `SimpleNet._evaluate`
    (simplenet_vit.py:645-670): image scores by their raw range, and
    segmentation maps by every image's (min, max) pair with a floor of 0.01
    on the range. */
module Normalisation {

  import opened Results
  import opened Tensors
  import Seqs

  // ---------------------------------------------------------------- image scores

  function Rescale(x: real, lo: real, hi: real): real
    requires lo < hi
  {
    (x - lo) / (hi - lo)
  }

  /** Scaling back from `[0, 1]` to `[lo, hi]`. */
  function Unscale(q: real, lo: real, hi: real): real
  {
    lo + q * (hi - lo)
  }

  /** A value in `[lo, hi]` rescales into `[0, 1]`, `lo` to 0 and `hi` to 1,
      and scaling back recovers it. */
  lemma RescaleFacts(x: real, lo: real, hi: real)
    requires lo < hi && lo <= x <= hi
    ensures 0.0 <= Rescale(x, lo, hi) <= 1.0
    ensures x == lo ==> Rescale(x, lo, hi) == 0.0
    ensures x == hi ==> Rescale(x, lo, hi) == 1.0
    ensures Unscale(Rescale(x, lo, hi), lo, hi) == x
  {
    Seqs.QuotientWithin(x - lo, hi - lo, 0.0, 1.0);
    var d := hi - lo;
    assert d / d == 1.0;
  }

  /** `np.squeeze(np.array(scores))`, then `(s - s.min(axis=-1)) / (s.max(axis=-1) - s.min(axis=-1))`.
      No score fails the reductions (a zero-size array has no minimum).
      Equal scores give 0/0, a NaN here represented as an error; so does a
      single score, which squeezes to a 0-d array that the reductions accept
      as its own minimum and maximum. Otherwise every score lands in [0, 1],
      the least on 0 and the greatest on 1, and scaling back by the raw
      range recovers it. */
  function NormalizeImageScores(s: seq<real>): (r: Result<seq<real>>)
    ensures r.Ok? <==> |s| >= 2 && Seqs.Min(s) < Seqs.Max(s)
    ensures r.Ok? ==> |r.value| == |s| && Seqs.Bounded(r.value, 0.0, 1.0)
    ensures r.Ok? ==> forall i :: 0 <= i < |s| ==>
      && (s[i] == Seqs.Min(s) ==> r.value[i] == 0.0)
      && (s[i] == Seqs.Max(s) ==> r.value[i] == 1.0)
      && Unscale(r.value[i], Seqs.Min(s), Seqs.Max(s)) == s[i]
  {
    if |s| == 0 then Err("min: zero-size array to reduction operation")
    else if Seqs.Min(s) == Seqs.Max(s) then Err("0 / 0: every score is NaN")
    else
      Ok(RescaleAll(s, Seqs.Min(s), Seqs.Max(s)))
  }

  /** Every value of `s` rescaled by the range `[lo, hi]` that holds them all. */
  function RescaleAll(s: seq<real>, lo: real, hi: real): (r: seq<real>)
    requires lo < hi && Seqs.Bounded(s, lo, hi)
    ensures |r| == |s| && Seqs.Bounded(r, 0.0, 1.0)
    ensures forall i :: 0 <= i < |s| ==>
      && (s[i] == lo ==> r[i] == 0.0)
      && (s[i] == hi ==> r[i] == 1.0)
      && Unscale(r[i], lo, hi) == s[i]
  {
    var r := seq(|s|, i requires 0 <= i < |s| => Rescale(s[i], lo, hi));
    forall i | 0 <= i < |s|
      ensures 0.0 <= r[i] <= 1.0
      ensures s[i] == lo ==> r[i] == 0.0
      ensures s[i] == hi ==> r[i] == 1.0
      ensures Unscale(r[i], lo, hi) == s[i]
    {
      RescaleFacts(s[i], lo, hi);
    }
    r
  }

  /** The normalisation keeps the order of the scores, strictly and in both
      directions, so rank metrics such as AUROC are unaffected. */
  lemma ImageScoresOrder(s: seq<real>, i: nat, j: nat)
    requires NormalizeImageScores(s).Ok? && i < |s| && j < |s|
    ensures s[i] < s[j] <==> NormalizeImageScores(s).value[i] < NormalizeImageScores(s).value[j]
  {
    var lo, hi := Seqs.Min(s), Seqs.Max(s);
    DivOrder(s[i] - lo, s[j] - lo, hi - lo);
  }

  lemma DivOrder(a: real, b: real, d: real)
    requires d > 0.0
    ensures a < b <==> a / d < b / d
  {
    assert b / d - a / d == (b - a) / d;
  }

  // ---------------------------------------------------------------- segmentation maps

  /** `max(max_score - min_score, 1e-2)`: never below 0.01, so never zero. */
  function Den(lo: real, hi: real): (d: real)
    ensures d >= 0.01 && d >= hi - lo
    ensures hi - lo >= 0.01 ==> d == hi - lo
  {
    if hi - lo > 0.01 then hi - lo else 0.01
  }

  /** Contribution of image `j`'s (min, max) pair to one pixel value `x`. */
  function Term(x: real, seg: Mat, j: nat): real
    requires j < |seg| && |seg[j]| > 0
  {
    (x - Seqs.Min(seg[j])) / Den(Seqs.Min(seg[j]), Seqs.Max(seg[j]))
  }

  /** Normalised pixel value: the average over the N (min, max) pairs. */
  function NormPixel(seg: Mat, N: nat, P: nat, x: real): real
    requires IsMat(seg, N, P) && N > 0 && P > 0
  {
    Seqs.Sum(Terms(seg, N, P, x)) / (N as real)
  }

  function Terms(seg: Mat, N: nat, P: nat, x: real): (t: seq<real>)
    requires IsMat(seg, N, P) && P > 0
    ensures |t| == N && forall j :: 0 <= j < N ==> t[j] == Term(x, seg, j)
  {
    seq(N, j requires 0 <= j < N => Term(x, seg, j))
  }

  /** The per-map slopes `1 / den_j`. */
  function Slopes(seg: Mat, N: nat, P: nat): (a: seq<real>)
    requires IsMat(seg, N, P) && P > 0
    ensures |a| == N
    ensures forall j :: 0 <= j < N ==> a[j] == 1.0 / Den(Seqs.Min(seg[j]), Seqs.Max(seg[j])) && a[j] > 0.0
  {
    seq(N, j requires 0 <= j < N => 1.0 / Den(Seqs.Min(seg[j]), Seqs.Max(seg[j])))
  }

  /** The per-map offsets `min_j / den_j`. */
  function Offsets(seg: Mat, N: nat, P: nat): (b: seq<real>)
    requires IsMat(seg, N, P) && P > 0
    ensures |b| == N
    ensures forall j :: 0 <= j < N ==> b[j] == Seqs.Min(seg[j]) / Den(Seqs.Min(seg[j]), Seqs.Max(seg[j]))
  {
    seq(N, j requires 0 <= j < N => Seqs.Min(seg[j]) / Den(Seqs.Min(seg[j]), Seqs.Max(seg[j])))
  }

  /** The segmentation normalisation as written, on the N maps of N test
      images, P pixels each (flattened row-major): every pixel of every map
      is shifted and scaled by EVERY map's (min, max) pair in turn, and the
      results are summed and divided by `len(scores)`, the number of image
      scores. No map, or empty maps, fail the min/max reductions. With two
      or more images `len(scores)` is N; a single image's scores squeeze to
      a 0-d array, and `len` of it raises. */
  function NormalizeSegmentations(seg: Mat, N: nat, P: nat): (r: Result<Mat>)
    requires IsMat(seg, N, P)
    ensures r.Ok? <==> N >= 2 && P > 0
    ensures r.Ok? ==> IsMat(r.value, N, P)
  {
    if N == 0 then Err("reshape: cannot reshape an empty array with -1")
    else if P == 0 then Err("min: zero-size array")
    else if N == 1 then Err("len() of unsized object")
    else Ok(seq(N, i requires 0 <= i < N => seq(P, p requires 0 <= p < P => NormPixel(seg, N, P, seg[i][p]))))
  }

  /** Shared slope: the average of `1 / den_j`. */
  function Gain(seg: Mat, N: nat, P: nat): (g: real)
    requires IsMat(seg, N, P) && N > 0 && P > 0
    ensures g > 0.0
  {
    SumPositive(Slopes(seg, N, P));
    Seqs.Sum(Slopes(seg, N, P)) / (N as real)
  }

  /** Shared offset: the average of `min_j / den_j`. */
  function Offset(seg: Mat, N: nat, P: nat): real
    requires IsMat(seg, N, P) && N > 0 && P > 0
  {
    Seqs.Sum(Offsets(seg, N, P)) / (N as real)
  }

  lemma {:induction false} SumPositive(xs: seq<real>)
    requires |xs| > 0 && forall i :: 0 <= i < |xs| ==> xs[i] > 0.0
    ensures Seqs.Sum(xs) > 0.0
  {
    if |xs| > 1 {
      SumPositive(xs[..|xs| - 1]);
    } else {
      assert xs[..0] == [];
    }
  }

  /** The affine map `x -> g*x - c`. */
  function Affine(g: real, c: real, x: real): real
  {
    g * x - c
  }

  lemma DivSplit(x: real, lo: real, d: real)
    requires d > 0.0
    ensures (x - lo) / d == Affine(1.0 / d, lo / d, x)
  {
  }

  lemma DivSplit2(x: real, a: real, b: real, n: real)
    requires n > 0.0
    ensures Affine(a, b, x) / n == Affine(a / n, b / n, x)
  {
  }

  /** Sum of `x*a_j - b_j` over j is `x*Sum(a) - Sum(b)`. */
  lemma {:induction false} SumLinear(x: real, a: seq<real>, b: seq<real>, t: seq<real>)
    requires |a| == |b| == |t| && forall j :: 0 <= j < |t| ==> t[j] == Affine(a[j], b[j], x)
    ensures Seqs.Sum(t) == Affine(Seqs.Sum(a), Seqs.Sum(b), x)
  {
    if |t| > 0 {
      var n := |t| - 1;
      SumLinear(x, a[..n], b[..n], t[..n]);
    }
  }

  /** The written normalisation is one affine map `x -> Gain*x - Offset`,
      with a positive gain, shared by every pixel of every map. */
  lemma SegmentationIsAffine(seg: Mat, N: nat, P: nat, x: real)
    requires IsMat(seg, N, P) && N > 0 && P > 0
    ensures NormPixel(seg, N, P, x) == Affine(Gain(seg, N, P), Offset(seg, N, P), x)
  {
    var inv, off, t := Slopes(seg, N, P), Offsets(seg, N, P), Terms(seg, N, P, x);
    forall j | 0 <= j < N
      ensures t[j] == Affine(inv[j], off[j], x)
    {
      DivSplit(x, Seqs.Min(seg[j]), Den(Seqs.Min(seg[j]), Seqs.Max(seg[j])));
    }
    SumLinear(x, inv, off, t);
    DivSplit2(x, Seqs.Sum(inv), Seqs.Sum(off), N as real);
  }

  /** Hence the written normalisation preserves the order of all pixels
      across all maps, strictly and in both directions. */
  lemma SegmentationOrder(seg: Mat, N: nat, P: nat, i: nat, p: nat, i': nat, p': nat)
    requires IsMat(seg, N, P) && N >= 2 && P > 0
    requires i < N && p < P && i' < N && p' < P
    ensures var r := NormalizeSegmentations(seg, N, P).value;
      seg[i][p] < seg[i'][p'] <==> r[i][p] < r[i'][p']
  {
    var r := NormalizeSegmentations(seg, N, P).value;
    assert r[i][p] == NormPixel(seg, N, P, seg[i][p]);
    assert r[i'][p'] == NormPixel(seg, N, P, seg[i'][p']);
    SegmentationIsAffine(seg, N, P, seg[i][p]);
    SegmentationIsAffine(seg, N, P, seg[i'][p']);
    AffineOrder(Gain(seg, N, P), Offset(seg, N, P), seg[i][p], seg[i'][p']);
  }

  lemma AffineOrder(g: real, c: real, a: real, b: real)
    requires g > 0.0
    ensures a < b <==> Affine(g, c, a) < Affine(g, c, b)
  {
    assert g * b - g * a == g * (b - a);
  }

  /** Maps that are all one constant value normalise to zero everywhere:
      every range is floored to 0.01 and every shifted value is 0. */
  lemma ConstantSegmentations(seg: Mat, N: nat, P: nat, v: real)
    requires IsMat(seg, N, P) && N >= 2 && P > 0
    requires forall i, p :: 0 <= i < N && 0 <= p < P ==> seg[i][p] == v
    ensures forall i, p :: 0 <= i < N && 0 <= p < P ==> NormalizeSegmentations(seg, N, P).value[i][p] == 0.0
  {
    var t := Terms(seg, N, P, v);
    forall j | 0 <= j < N
      ensures t[j] == 0.0
    {
      var m := Seqs.Min(seg[j]);
      assert m in seg[j];
    }
    Seqs.SumNonNegative(t);
  }

  /** Two 2x2 maps of 5.0 normalise to zeros, not NaN; one such map alone
      is not normalised at all, since `len` of its squeezed score fails. */
  lemma TwoConstantMaps()
    ensures NormalizeSegmentations([[5.0, 5.0, 5.0, 5.0], [5.0, 5.0, 5.0, 5.0]], 2, 4)
         == Ok([[0.0, 0.0, 0.0, 0.0], [0.0, 0.0, 0.0, 0.0]])
    ensures NormalizeSegmentations([[5.0, 5.0, 5.0, 5.0]], 1, 4).Err?
  {
    var seg := [[5.0, 5.0, 5.0, 5.0], [5.0, 5.0, 5.0, 5.0]];
    ConstantSegmentations(seg, 2, 4, 5.0);
    var r := NormalizeSegmentations(seg, 2, 4).value;
    assert |r| == 2 && |r[0]| == 4 && |r[1]| == 4;
    assert forall i, p :: 0 <= i < 2 && 0 <= p < 4 ==> r[i][p] == 0.0;
    assert r[0] == [0.0, 0.0, 0.0, 0.0];
    assert r[1] == [0.0, 0.0, 0.0, 0.0];
    assert r == [[0.0, 0.0, 0.0, 0.0], [0.0, 0.0, 0.0, 0.0]];
  }
}
