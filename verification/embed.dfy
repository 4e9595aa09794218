/** Shapes through the whole of `SimpleNet._embed` (simplenet_vit.py:426-478):
    token-to-map conversion, patchify, alignment to the first layer's grid,
    flattening to one row per patch, then the `preprocessing` and
    `preadapt_aggregator` modules. Those are `common.Preprocessing` and
    `common.Aggregator`; the `common` module is not part of this model, and
    the in-file `MeanMapperad`, `Preprocessingad` and `Aggregatorad`
    (simplenet_vit.py:208-247) stand in for them. */
module Embed {

  import opened Results
  import opened Shapes
  import Alignment
  import PatchMaker
  import Arith

  /** Apply `f` to every element; the first failure is the result. */
  function MapResult<A, B>(xs: seq<A>, f: A -> Result<B>): (r: Result<seq<B>>)
    ensures r.Ok? <==> forall i :: 0 <= i < |xs| ==> f(xs[i]).Ok?
    ensures r.Ok? ==> |r.value| == |xs| && forall i :: 0 <= i < |xs| ==> f(xs[i]) == Ok(r.value[i])
  {
    if |xs| == 0 then Ok([])
    else
      var head :- f(xs[0]);
      var tail :- MapResult(xs[1..], f);
      assert forall i :: 1 <= i < |xs| ==> xs[i] == xs[1..][i - 1];
      Ok([head] + tail)
  }

  /** `x.reshape(-1, *x.shape[-3:])`: one row per patch. */
  function FlattenPatches(s: Shape): (r: Result<Shape>)
    ensures |s| == 5 && s[2] * (s[3] * s[4]) > 0 ==> r == Ok([s[0] * s[1], s[2], s[3], s[4]])
  {
    var tail := if |s| >= 3 then s[|s| - 3..] else s;
    FlattenPatchesOk(s);
    Reshape(s, [Infer] + Fixeds(tail))
  }

  lemma FlattenPatchesOk(s: Shape)
    ensures |s| == 5 && s[2] * (s[3] * s[4]) > 0 ==>
      Reshape(s, [Infer] + Fixeds(s[2..])) == Ok([s[0] * s[1], s[2], s[3], s[4]])
  {
    if |s| == 5 && s[2] * (s[3] * s[4]) > 0 {
      var t := [Infer] + Fixeds(s[2..]);
      assert t == [Infer, Fixed(s[2]), Fixed(s[3]), Fixed(s[4])];
      assert t[1..] == Fixeds(s[2..]);
      KnownProductFixeds(s[2..]);
      Alignment.Numel3(s[2], s[3], s[4]);
      assert s[2..] == [s[2], s[3], s[4]];
      assert Fill(t, s[0] * s[1]) == [s[0] * s[1], s[2], s[3], s[4]];
      Alignment.Numel4(s[0] * s[1], s[2], s[3], s[4]);
      Alignment.Numel5(s[0], s[1], s[2], s[3], s[4]);
      Alignment.Numel4(s[1], s[2], s[3], s[4]);
      assert s == [s[0], s[1], s[2], s[3], s[4]];
      ReshapeInferred(s, t, s[0] * s[1]);
    }
  }

  /** `MeanMapperad(D)`: `reshape(len, 1, -1)` fails on an empty batch, the
      pooling on empty rows; otherwise (N, D). */
  function MeanMapperShape(s: Shape, D: nat): (r: Result<Shape>)
    ensures r.Ok? <==> |s| > 0 && s[0] > 0 && Numel(s[1..]) > 0
    ensures r.Ok? ==> r.value == [s[0], D]
  {
    if |s| == 0 then Err("len() of a 0-d tensor")
    else if s[0] == 0 then Err("reshape: cannot infer -1 for an empty batch")
    else if Numel(s[1..]) == 0 then Err("adaptive_avg_pool1d: empty input")
    else Ok([s[0], D])
  }

  /** `Preprocessingad(D)`: every layer mapped to (N, D), stacked to (N, M, D). */
  function PreprocessShape(shapes: seq<Shape>, D: nat): (r: Result<Shape>)
    ensures r.Ok? ==> |shapes| > 0 && |shapes[0]| > 0 && r.value == [shapes[0][0], |shapes|, D]
  {
    var mapped :- MapResult(shapes, s => MeanMapperShape(s, D));
    if |mapped| == 0 then Err("stack expects a non-empty list")
    else if exists i :: 0 <= i < |mapped| && mapped[i] != mapped[0] then Err("stack expects each tensor to be equal size")
    else
      var out: Shape := [mapped[0][0], |mapped|, D];
      Ok(out)
  }

  /** `Aggregatorad(T)` on (N, M, D): `reshape(len, 1, -1)`, pool to T, `reshape(len, -1)`. */
  function AggregateShape(s: Shape, T: nat): (r: Result<Shape>)
    ensures r.Ok? ==> |s| > 0 && r.value == [s[0], T]
    ensures |s| == 3 && s[0] > 0 && s[1] * s[2] > 0 ==> r.Ok?
  {
    AggregateNumel(s);
    if |s| == 0 then Err("len() of a 0-d tensor")
    else if s[0] == 0 then Err("reshape: cannot infer -1 for an empty batch")
    else if Numel(s[1..]) == 0 then Err("adaptive_avg_pool1d: empty input")
    else Ok([s[0], T])
  }

  lemma AggregateNumel(s: Shape)
    ensures |s| == 3 ==> Numel(s[1..]) == s[1] * s[2]
  {
    if |s| == 3 {
      assert s[1..][1..] == [s[2]];
      assert [s[2]][1..] == [];
      assert Numel([s[2]]) == s[2];
    }
  }

  /** The first half of `_embed` for extracted layer shapes `layers`,
      patch size `k` and stride: every layer patchified, aligned to the
      first layer's grid and flattened to (patches, C, k, k), plus that grid. */
  function PatchShapes(layers: seq<Shape>, k: nat, stride: nat): (r: Result<(seq<Shape>, (nat, nat))>)
    ensures r.Ok? ==> |r.value.0| == |layers| > 0
  {
    var maps :- MapResult(layers, Alignment.LayerMapShape);
    var patched :- MapResult(maps, s => Alignment.PatchifyShape(s, k, stride));
    if |patched| == 0 then Err("patch_shapes[0]: index out of range")
    else
      var ref := patched[0].1;
      var rest :- MapResult(patched[1..], (p: (Shape, (nat, nat))) => Alignment.AlignShape(p.0, p.1, ref));
      var flat :- MapResult([patched[0].0] + rest, FlattenPatches);
      Ok((flat, ref))
  }

  /** The whole shape pipeline of `_embed`, with pretrain dimension `D` and
      target dimension `T`: (patches, T) rows plus the first layer's grid. */
  function EmbedShape(layers: seq<Shape>, k: nat, stride: nat, D: nat, T: nat): (r: Result<(Shape, (nat, nat))>)
    ensures r.Ok? ==> |layers| > 0 && |r.value.0| == 2 && r.value.0[1] == T
  {
    var (flat, ref) :- PatchShapes(layers, k, stride);
    var pre :- PreprocessShape(flat, D);
    var out :- AggregateShape(pre, T);
    Ok((out, ref))
  }

  /** A (B, C, H, W) map with a non-empty batch B that Unfold accepts. */
  predicate MapAccepted(m: Shape, B: nat, k: nat, stride: nat)
  {
    |m| == 4 && m[0] == B && B > 0 && PatchMaker.UnfoldAccepts(m[1], m[2], m[3], k, stride)
  }

  /** Every extracted layer becomes such a map: a (B, C, H, W) layer as it
      is, a (B, L, C) token layer once folded into its square map. */
  predicate Accepted(layers: seq<Shape>, B: nat, k: nat, stride: nat)
  {
    forall i :: 0 <= i < |layers| ==>
      Alignment.LayerMapShape(layers[i]).Ok? && MapAccepted(Alignment.LayerMapShape(layers[i]).value, B, k, stride)
  }

  /** The layer shapes after the token-to-map step. */
  function Maps(layers: seq<Shape>): (maps: seq<Shape>)
    requires forall i :: 0 <= i < |layers| ==> Alignment.LayerMapShape(layers[i]).Ok?
    ensures |maps| == |layers|
    ensures forall i :: 0 <= i < |layers| ==> Alignment.LayerMapShape(layers[i]) == Ok(maps[i])
  {
    seq(|layers|, i requires 0 <= i < |layers| => Alignment.LayerMapShape(layers[i]).value)
  }

  predicate MapsAccepted(maps: seq<Shape>, B: nat, k: nat, stride: nat)
  {
    forall i :: 0 <= i < |maps| ==> MapAccepted(maps[i], B, k, stride)
  }

  function GridOf(s: Shape, k: nat, stride: nat): (g: (nat, nat))
    requires |s| == 4 && s[0] > 0 && PatchMaker.UnfoldAccepts(s[1], s[2], s[3], k, stride)
    ensures g.0 >= 1 && g.1 >= 1
    ensures g.0 == PatchMaker.GridCount(s[2], k, stride) && g.1 == PatchMaker.GridCount(s[3], k, stride)
  {
    Alignment.PatchifyShape(s, k, stride).value.1
  }

  /** The token-to-map step of accepted layers succeeds on every layer. */
  lemma MapsOk(layers: seq<Shape>, B: nat, k: nat, stride: nat)
    requires Accepted(layers, B, k, stride)
    ensures MapResult(layers, Alignment.LayerMapShape) == Ok(Maps(layers))
    ensures MapsAccepted(Maps(layers), B, k, stride)
  {
    var r := MapResult(layers, Alignment.LayerMapShape);
    assert r.Ok?;
    assert forall i :: 0 <= i < |layers| ==> r.value[i] == Maps(layers)[i];
    assert r.value == Maps(layers);
  }

  lemma PatchedShapes(maps: seq<Shape>, B: nat, k: nat, stride: nat)
    requires MapsAccepted(maps, B, k, stride)
    ensures var r := MapResult(maps, s => Alignment.PatchifyShape(s, k, stride));
      && r.Ok? && |r.value| == |maps|
      && forall i :: 0 <= i < |maps| ==>
           var g := GridOf(maps[i], k, stride);
           r.value[i] == ([B, g.0 * g.1, maps[i][1], k, k], g)
  {
  }

  lemma AlignedShapes(patched: seq<(Shape, (nat, nat))>, maps: seq<Shape>, B: nat, k: nat, stride: nat, ref: (nat, nat))
    requires MapsAccepted(maps, B, k, stride) && B > 0 && |patched| == |maps| > 0
    requires ref.0 > 0 && ref.1 > 0
    requires forall i :: 0 <= i < |maps| ==>
      var g := GridOf(maps[i], k, stride);
      patched[i] == ([B, g.0 * g.1, maps[i][1], k, k], g)
    ensures var r := MapResult(patched[1..], (p: (Shape, (nat, nat))) => Alignment.AlignShape(p.0, p.1, ref));
      && r.Ok? && |r.value| == |maps| - 1
      && forall j :: 0 <= j < |r.value| ==> r.value[j] == [B, ref.0 * ref.1, maps[j + 1][1], k, k]
  {
    var f := (p: (Shape, (nat, nat))) => Alignment.AlignShape(p.0, p.1, ref);
    forall j | 0 <= j < |patched| - 1
      ensures f(patched[1..][j]) == Ok([B, ref.0 * ref.1, maps[j + 1][1], k, k])
    {
      var g := GridOf(maps[j + 1], k, stride);
      assert patched[1..][j] == patched[j + 1];
      Alignment.AlignShapeOk(B, maps[j + 1][1], k, g, ref);
    }
  }

  lemma PooledShapes(flat: seq<Shape>, N: nat, D: nat, T: nat)
    requires |flat| > 0 && N > 0 && D > 0 && T > 0
    requires forall i :: 0 <= i < |flat| ==> |flat[i]| == 4 && flat[i][0] == N && Numel(flat[i][1..]) > 0
    ensures PreprocessShape(flat, D) == Ok([N, |flat|, D])
    ensures AggregateShape([N, |flat|, D], T) == Ok([N, T])
  {
    var mapped := MapResult(flat, s => MeanMapperShape(s, D));
    assert mapped.Ok?;
    assert forall i :: 0 <= i < |flat| ==> mapped.value[i] == [N, D];
  }

  lemma FlatShapes(aligned: seq<Shape>, maps: seq<Shape>, B: nat, R: nat, k: nat, stride: nat)
    requires MapsAccepted(maps, B, k, stride) && |aligned| == |maps|
    requires forall i :: 0 <= i < |maps| ==> aligned[i] == [B, R, maps[i][1], k, k]
    ensures var r := MapResult(aligned, FlattenPatches);
      && r.Ok? && |r.value| == |maps|
      && forall i :: 0 <= i < |maps| ==> r.value[i] == [B * R, maps[i][1], k, k] && Numel(r.value[i][1..]) > 0
  {
    forall i | 0 <= i < |maps|
      ensures FlattenPatches(aligned[i]) == Ok([B * R, maps[i][1], k, k])
      ensures Numel([B * R, maps[i][1], k, k][1..]) > 0
    {
      FlatShapeAt(B, R, maps[i][1], k);
    }
  }

  lemma FlatShapeAt(B: nat, R: nat, C: nat, k: nat)
    requires C > 0 && k > 0
    ensures FlattenPatches([B, R, C, k, k]) == Ok([B * R, C, k, k])
    ensures Numel([B * R, C, k, k][1..]) > 0
  {
    assert C * (k * k) > 0;
    Alignment.Numel3(C, k, k);
    assert [B * R, C, k, k][1..] == [C, k, k];
  }

  /** Layers that all come to batch-B maps Unfold accepts, whether given as
      maps or as token sequences, embed into (B*n_h*n_w, T) rows, one per
      cell of the first layer's grid, whatever the grids of the later
      layers. */
  lemma EmbedShapeOk(layers: seq<Shape>, B: nat, k: nat, stride: nat, D: nat, T: nat)
    requires |layers| > 0 && D > 0 && T > 0 && Accepted(layers, B, k, stride)
    ensures var maps := Maps(layers);
      var g := GridOf(maps[0], k, stride);
      EmbedShape(layers, k, stride, D, T) == Ok(([B * (g.0 * g.1), T], g))
  {
    var g := GridOf(Maps(layers)[0], k, stride);
    Arith.MulPositive(g.0, g.1);
    var R: nat := g.0 * g.1;
    PatchShapesOk(layers, B, k, stride);
    var flat := PatchShapes(layers, k, stride).value.0;
    assert PatchShapes(layers, k, stride) == Ok((flat, g));
    Arith.MulPositive(B, R);
    assert |flat| > 0 && forall i :: 0 <= i < |flat| ==> |flat[i]| == 4 && flat[i][0] == B * R && Numel(flat[i][1..]) > 0;
    PooledShapes(flat, B * R, D, T);
    assert PreprocessShape(flat, D) == Ok([B * R, |flat|, D]);
  }

  /** Accepted layers patchify, align and flatten to (B*R, C_i, k, k) each,
      C_i being the channels of layer i's map (the last axis of a token
      layer) and R the number of cells of the first layer's grid. */
  lemma PatchShapesOk(layers: seq<Shape>, B: nat, k: nat, stride: nat)
    requires |layers| > 0 && Accepted(layers, B, k, stride)
    ensures var maps := Maps(layers);
      var g := GridOf(maps[0], k, stride);
      var r := PatchShapes(layers, k, stride);
      && r.Ok? && r.value.1 == g
      && forall i :: 0 <= i < |layers| ==>
           r.value.0[i] == [B * (g.0 * g.1), maps[i][1], k, k] && Numel(r.value.0[i][1..]) > 0
  {
    MapsOk(layers, B, k, stride);
    var maps := Maps(layers);
    var g := GridOf(maps[0], k, stride);
    Arith.MulPositive(g.0, g.1);
    var R: nat := g.0 * g.1;
    PatchedShapes(maps, B, k, stride);
    var patched := MapResult(maps, s => Alignment.PatchifyShape(s, k, stride)).value;
    AlignedShapes(patched, maps, B, k, stride, g);
    var rest := MapResult(patched[1..], (p: (Shape, (nat, nat))) => Alignment.AlignShape(p.0, p.1, g)).value;
    var aligned := [patched[0].0] + rest;
    assert forall i :: 0 <= i < |maps| ==> aligned[i] == [B, R, maps[i][1], k, k] by {
      forall i | 0 <= i < |maps|
        ensures aligned[i] == [B, R, maps[i][1], k, k]
      {
        if i > 0 {
          assert aligned[i] == rest[i - 1];
        }
      }
    }
    FlatShapes(aligned, maps, B, R, k, stride);
    var flat := MapResult(aligned, FlattenPatches).value;
    assert patched[0].1 == g;
    assert PatchShapes(layers, k, stride) == Ok((flat, g));
  }

  /** A (B, n*n, C) token layer is accepted exactly when its (B, C, n, n)
      map is: the map has the token layer's channels and an n-by-n grid. */
  lemma TokenLayerMap(B: nat, n: nat, C: nat, k: nat, stride: nat)
    ensures Alignment.LayerMapShape([B, n * n, C]) == Ok([B, C, n, n])
    ensures Accepted([[B, n * n, C]], B, k, stride) <==> MapAccepted([B, C, n, n], B, k, stride)
  {
    Arith.ISqrtExact(n * n, n);
    var s: Shape := [B, n * n, C];
    assert Alignment.Side(s[1]) == n;
    assert Alignment.TokensFit(B, n * n, C);
    var layers: seq<Shape> := [s];
    assert Alignment.LayerMapShape(layers[0]) == Ok([B, C, n, n]);
    if MapAccepted([B, C, n, n], B, k, stride) {
      assert forall i :: 0 <= i < |layers| ==> layers[i] == s;
    }
  }

  /** A worked configuration: two backbone layers of 4 images, 196 tokens of
      64 channels and a (128, 7, 7) map, patch size 3, stride 1, D = 32 and
      T = 16, give 784 rows of 16 values on a 14-by-14 grid. */
  lemma EmbedExample()
    ensures EmbedShape([[4, 196, 64], [4, 128, 7, 7]], 3, 1, 32, 16) == Ok(([784, 16], (14, 14)))
  {
    var layers: seq<Shape> := [[4, 196, 64], [4, 128, 7, 7]];
    TokenLayerMap(4, 14, 64, 3, 1);
    assert Alignment.LayerMapShape(layers[0]) == Ok([4, 64, 14, 14]);
    assert Alignment.LayerMapShape(layers[1]) == Ok([4, 128, 7, 7]);
    PatchMaker.GridCountOddKernel(14, 3, 1);
    PatchMaker.GridCountOddKernel(7, 3, 1);
    assert PatchMaker.UnfoldAccepts(64, 14, 14, 3, 1);
    assert PatchMaker.UnfoldAccepts(128, 7, 7, 3, 1);
    assert Accepted(layers, 4, 3, 1);
    assert Maps(layers)[0] == [4, 64, 14, 14];
    var g := GridOf(Maps(layers)[0], 3, 1);
    assert g == (14, 14);
    EmbedShapeOk(layers, 4, 3, 1, 32, 16);
    assert 4 * (g.0 * g.1) == 784;
  }
}
