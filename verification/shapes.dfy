/** Shape bookkeeping of torch's `reshape` (with one inferred `-1`
    dimension), `permute` (negative dims counted from the end), `unsqueeze`,
    `squeeze` and `F.interpolate` to a fixed size. */
module Shapes {

  import opened Results
  import Arith

  type Shape = seq<nat>

  /** Number of elements of a tensor of this shape. */
  function Numel(s: Shape): nat
  {
    if |s| == 0 then 1 else s[0] * Numel(s[1..])
  }

  /** The element count of a concatenated shape is the product of the parts'. */
  lemma {:induction false} NumelAppend(a: Shape, b: Shape)
    ensures Numel(a + b) == Numel(a) * Numel(b)
  {
    if |a| > 0 {
      assert (a + b)[1..] == a[1..] + b;
      NumelAppend(a[1..], b);
      assert a[0] * (Numel(a[1..]) * Numel(b)) == (a[0] * Numel(a[1..])) * Numel(b);
    } else {
      assert a + b == b;
    }
  }

  /** A requested dimension of `reshape`: a size, or `-1` to be inferred. */
  datatype Dim = Fixed(n: nat) | Infer

  function Fixeds(s: Shape): (t: seq<Dim>)
    ensures |t| == |s| && forall i :: 0 <= i < |s| ==> t[i] == Fixed(s[i])
  {
    seq(|s|, i requires 0 <= i < |s| => Fixed(s[i]))
  }

  /** Product of the fixed requested sizes. */
  function KnownProduct(t: seq<Dim>): nat
  {
    if |t| == 0 then 1
    else (if t[0].Fixed? then t[0].n else 1) * KnownProduct(t[1..])
  }

  function InferCount(t: seq<Dim>): nat
  {
    if |t| == 0 then 0 else (if t[0].Infer? then 1 else 0) + InferCount(t[1..])
  }

  /** `t` with every `-1` replaced by `n`. */
  function Fill(t: seq<Dim>, n: nat): (s: Shape)
    ensures |s| == |t|
    ensures forall i :: 0 <= i < |t| ==> s[i] == (if t[i].Fixed? then t[i].n else n)
  {
    seq(|t|, i requires 0 <= i < |t| => if t[i].Fixed? then t[i].n else n)
  }

  lemma {:induction false} NumelFill(t: seq<Dim>, n: nat)
    requires InferCount(t) <= 1
    ensures Numel(Fill(t, n)) == KnownProduct(t) * (if InferCount(t) == 1 then n else 1)
  {
    if |t| > 0 {
      var f, g := Fill(t, n), Fill(t[1..], n);
      assert f[1..] == g;
      NumelFill(t[1..], n);
      var rest := if InferCount(t[1..]) == 1 then n else 1;
      var head := if t[0].Fixed? then t[0].n else n;
      var kp := KnownProduct(t[1..]);
      assert Numel(g) == kp * rest;
      assert Numel(f) == head * Numel(g);
      if t[0].Infer? {
        assert rest == 1 && KnownProduct(t) == kp;
      } else {
        assert KnownProduct(t) == head * kp;
        assert head * (kp * rest) == (head * kp) * rest;
      }
    }
  }

  lemma {:induction false} KnownProductFixeds(s: Shape)
    ensures KnownProduct(Fixeds(s)) == Numel(s) && InferCount(Fixeds(s)) == 0
  {
    if |s| > 0 {
      assert Fixeds(s)[1..] == Fixeds(s[1..]);
      KnownProductFixeds(s[1..]);
    }
  }

  /** `reshape(t)`: at most one `-1`; with one, the known sizes must have a
      non-zero product dividing the element count; without, they must
      multiply to it. The element count never changes and every fixed
      size is kept. */
  function Reshape(s: Shape, t: seq<Dim>): (r: Result<Shape>)
    ensures r.Ok? <==>
      if InferCount(t) == 0 then KnownProduct(t) == Numel(s)
      else InferCount(t) == 1 && KnownProduct(t) > 0 && Numel(s) % KnownProduct(t) == 0
    ensures r.Ok? ==> Numel(r.value) == Numel(s) && |r.value| == |t|
    ensures r.Ok? ==> forall i :: 0 <= i < |t| && t[i].Fixed? ==> r.value[i] == t[i].n
  {
    var known := KnownProduct(t);
    if InferCount(t) > 1 then Err("reshape: only one dimension can be inferred")
    else if InferCount(t) == 1 then
      if known == 0 || Numel(s) % known != 0 then Err("reshape: shape is invalid for input size")
      else
        NumelFill(t, Numel(s) / known);
        Arith.DivExact(Numel(s), known);
        Ok(Fill(t, Numel(s) / known))
    else if known != Numel(s) then Err("reshape: shape is invalid for input size")
    else
      NumelFill(t, 0);
      Ok(Fill(t, 0))
  }

  /** Reshaping to a fully specified shape with the same element count succeeds. */
  lemma ReshapeExact(s: Shape, target: Shape)
    requires Numel(target) == Numel(s)
    ensures Reshape(s, Fixeds(target)) == Ok(target)
  {
    KnownProductFixeds(target);
    var t := Fixeds(target);
    assert Reshape(s, t).Ok?;
    var r := Reshape(s, t).value;
    assert |r| == |target|;
    assert forall i :: 0 <= i < |target| ==> t[i].Fixed? && r[i] == t[i].n == target[i];
    assert r == target;
  }

  /** Reshaping with one `-1` succeeds when the target fills it with `m` and
      has the input's element count: the inferred size is exactly `m`. */
  lemma ReshapeInferred(s: Shape, t: seq<Dim>, m: nat)
    requires InferCount(t) == 1 && KnownProduct(t) > 0
    requires Numel(Fill(t, m)) == Numel(s)
    ensures Reshape(s, t) == Ok(Fill(t, m))
  {
    NumelFill(t, m);
    Arith.DivModUnique(Numel(s), m, 0, KnownProduct(t));
  }

  /** A `permute` argument normalised to `[0, n)`: negative dims count from the end. */
  function NormDim(d: int, n: nat): int
  {
    if d < 0 then d + n else d
  }

  predicate ValidPermutation(dims: seq<int>, n: nat)
  {
    && |dims| == n
    && (forall i :: 0 <= i < n ==> 0 <= NormDim(dims[i], n) < n)
    && (forall i, j :: 0 <= i < j < n ==> NormDim(dims[i], n) != NormDim(dims[j], n))
  }

  /** `permute(dims)`: output axis `i` is input axis `dims[i]`. */
  function Permute(s: Shape, dims: seq<int>): (r: Result<Shape>)
    ensures r.Ok? <==> ValidPermutation(dims, |s|)
    ensures r.Ok? ==> |r.value| == |s|
    ensures r.Ok? ==> forall i :: 0 <= i < |s| ==> 0 <= NormDim(dims[i], |s|) < |s| && r.value[i] == s[NormDim(dims[i], |s|)]
  {
    if !ValidPermutation(dims, |s|) then Err("permute: dims do not match")
    else Ok(seq(|s|, i requires 0 <= i < |s| => s[NormDim(dims[i], |s|)]))
  }

  /** `unsqueeze(d)`: a new axis of size 1 at position `d`. */
  function Unsqueeze(s: Shape, d: nat): (r: Shape)
    requires d <= |s|
    ensures |r| == |s| + 1 && r[d] == 1 && r[..d] == s[..d] && r[d + 1..] == s[d..]
    ensures Numel(r) == Numel(s)
  {
    var r := s[..d] + ([1] + s[d..]);
    NumelAppend(s[..d], [1] + s[d..]);
    NumelAppend(s[..d], s[d..]);
    assert ([1] + s[d..])[1..] == s[d..];
    assert s[..d] + s[d..] == s;
    r
  }

  /** `squeeze(d)`: drop axis `d` if its size is 1, else leave the shape alone. */
  function Squeeze(s: Shape, d: nat): (r: Shape)
    requires d < |s|
    ensures s[d] == 1 ==> r == s[..d] + s[d + 1..]
    ensures s[d] != 1 ==> r == s
    ensures Numel(r) == Numel(s)
  {
    if s[d] == 1 then
      var r := s[..d] + s[d + 1..];
      NumelSplit(s, d);
      NumelAppend(s[..d], s[d + 1..]);
      r
    else s
  }

  /** Element count around axis `d`: the part before, the axis, the part after. */
  lemma NumelSplit(s: Shape, d: nat)
    requires d < |s|
    ensures Numel(s) == Numel(s[..d]) * (s[d] * Numel(s[d + 1..]))
  {
    assert s == s[..d] + s[d..];
    NumelAppend(s[..d], s[d..]);
    assert s[d..][1..] == s[d + 1..];
  }

  /** `squeeze(d)` undoes `unsqueeze(d)`. */
  lemma SqueezeUnsqueeze(s: Shape, d: nat)
    requires d <= |s|
    ensures Squeeze(Unsqueeze(s, d), d) == s
  {
    var u := Unsqueeze(s, d);
    assert u[..d] + u[d + 1..] == s[..d] + s[d..];
    assert s[..d] + s[d..] == s;
  }

  /** `F.interpolate(x, size=(h, w), mode="bilinear")` on an (N, C, H, W)
      input: the two spatial sizes become `(h, w)`; input and output spatial
      sizes must be positive and the channel axis non-empty (only the batch
      may be empty). The resampling kernel itself is not modelled. */
  function Interpolate(s: Shape, h: nat, w: nat): (r: Result<Shape>)
    ensures r.Ok? <==> |s| == 4 && s[1] > 0 && s[2] > 0 && s[3] > 0 && h > 0 && w > 0
    ensures r.Ok? ==> r.value == [s[0], s[1], h, w]
  {
    if |s| != 4 then Err("interpolate: expected a 4-D input")
    else if s[2] == 0 || s[3] == 0 || h == 0 || w == 0 then Err("interpolate: sizes must be positive")
    else if s[1] == 0 then Err("interpolate: non-empty 4D data tensor expected")
    else Ok([s[0], s[1], h, w])
  }

  /** The permutation `(0, -3, -2, -1, 1, 2)` of a 6-D shape: it moves the
      last three axes to positions 1..3. */
  lemma ToFrontPermutation(s: Shape)
    requires |s| == 6
    ensures Permute(s, [0, -3, -2, -1, 1, 2]) == Ok([s[0], s[3], s[4], s[5], s[1], s[2]])
  {
    var d := [0, -3, -2, -1, 1, 2];
    var nd := [0, 3, 4, 5, 1, 2];
    assert forall i :: 0 <= i < 6 ==> NormDim(d[i], 6) == nd[i];
    assert ValidPermutation(d, 6);
    var r := Permute(s, d).value;
    assert forall i :: 0 <= i < 6 ==> r[i] == s[nd[i]];
    assert r == [s[0], s[3], s[4], s[5], s[1], s[2]];
  }

  /** The permutation `(0, -2, -1, 1, 2, 3)` of a 6-D shape: it moves the
      last two axes to positions 1..2. */
  lemma ToBackPermutation(s: Shape)
    requires |s| == 6
    ensures Permute(s, [0, -2, -1, 1, 2, 3]) == Ok([s[0], s[4], s[5], s[1], s[2], s[3]])
  {
    var d := [0, -2, -1, 1, 2, 3];
    var nd := [0, 4, 5, 1, 2, 3];
    assert forall i :: 0 <= i < 6 ==> NormDim(d[i], 6) == nd[i];
    assert ValidPermutation(d, 6);
    var r := Permute(s, d).value;
    assert forall i :: 0 <= i < 6 ==> r[i] == s[nd[i]];
    assert r == [s[0], s[4], s[5], s[1], s[2], s[3]];
  }

  /** The two permutations of the alignment loop undo each other on 6-D
      shapes: `permute(0, -2, -1, 1, 2, 3)` after `permute(0, -3, -2, -1, 1, 2)`
      restores every shape. */
  lemma AlignPermutationsInverse(s: Shape)
    requires |s| == 6
    ensures Permute(s, [0, -3, -2, -1, 1, 2]).Ok?
    ensures Permute(Permute(s, [0, -3, -2, -1, 1, 2]).value, [0, -2, -1, 1, 2, 3]) == Ok(s)
  {
    ToFrontPermutation(s);
    var p := Permute(s, [0, -3, -2, -1, 1, 2]).value;
    ToBackPermutation(p);
    assert [p[0], p[4], p[5], p[1], p[2], p[3]] == s;
  }
}
