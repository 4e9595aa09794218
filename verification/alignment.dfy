/** The first half of `SimpleNet._embed` (simplenet_vit.py:426-468): token
    sequences of a transformer layer become square feature maps, every layer
    is patchified, and the patch grid of every later layer is resampled to the
    grid of the first one. */
module Alignment {

  import opened Results
  import opened Tensors
  import Arith
  import opened Shapes
  import PatchMaker

  /** Side of the square map a sequence of `L` tokens is folded into:
      `int(math.sqrt(L))`. */
  function Side(L: nat): nat
  {
    Arith.ISqrt(L)
  }

  /** The `reshape(B, s, s, C)` of a (B, L, C) token tensor succeeds: the
      tensor is empty, or `L` is a perfect square. */
  predicate TokensFit(B: nat, L: nat, C: nat)
  {
    B == 0 || C == 0 || L == Side(L) * Side(L)
  }

  function TokenAt(x: T3, B: nat, L: nat, C: nat, b: nat, c: nat, i: nat, j: nat): real
    requires IsT3(x, B, L, C) && TokensFit(B, L, C)
    requires b < B && c < C && i < Side(L) && j < Side(L)
  {
    Arith.RowMajorBound(i, j, Side(L), Side(L));
    x[b][i * Side(L) + j][c]
  }

  /** `feat.reshape(B, s, s, C).permute(0, 3, 1, 2)` on a (B, L, C) token
      tensor with `s = int(sqrt(L))`: a (B, C, s, s) map, or the reshape's
      failure when `L` is not a perfect square. */
  function TokensToMap(x: T3, B: nat, L: nat, C: nat): (r: Result<T4>)
    requires IsT3(x, B, L, C)
    ensures r.Ok? <==> TokensFit(B, L, C)
    ensures r.Ok? ==> IsT4(r.value, B, C, Side(L), Side(L))
  {
    if !TokensFit(B, L, C) then Err("reshape: shape is invalid for input size")
    else
      var s := Side(L);
      Ok(seq(B, b requires 0 <= b < B =>
        seq(C, c requires 0 <= c < C =>
          seq(s, i requires 0 <= i < s =>
            seq(s, j requires 0 <= j < s => TokenAt(x, B, L, C, b, c, i, j))))))
  }

  /** Pixel (i, j) of channel c of the map is channel c of token `i*s + j`. */
  lemma TokensToMapAt(x: T3, B: nat, L: nat, C: nat, b: nat, c: nat, i: nat, j: nat)
    requires IsT3(x, B, L, C) && TokensFit(B, L, C)
    requires b < B && c < C && i < Side(L) && j < Side(L)
    ensures TokensToMap(x, B, L, C).Ok?
    ensures i * Side(L) + j < L && TokensToMap(x, B, L, C).value[b][c][i][j] == x[b][i * Side(L) + j][c]
  {
    Arith.RowMajorBound(i, j, Side(L), Side(L));
  }

  /** Conversely every token lands in the map: channel c of token l is pixel
      `(l / s, l % s)` of channel c. Nothing is lost or duplicated. */
  lemma TokenInMap(x: T3, B: nat, L: nat, C: nat, b: nat, l: nat, c: nat)
    requires IsT3(x, B, L, C) && TokensFit(B, L, C)
    requires b < B && l < L && c < C
    ensures TokensToMap(x, B, L, C).Ok?
    ensures var s := Side(L);
      && s > 0 && l / s < s && l % s < s
      && TokensToMap(x, B, L, C).value[b][c][l / s][l % s] == x[b][l][c]
  {
    var s := Side(L);
    assert L == s * s;
    assert s > 0;
    Arith.QuotientBound(l, s, s);
    Arith.DivModSplit(l, s);
    TokensToMapAt(x, B, L, C, b, c, l / s, l % s);
  }

  lemma Numel3(a: nat, b: nat, c: nat)
    ensures Numel([a, b, c]) == a * (b * c)
  {
    assert [a, b, c][1..] == [b, c];
    assert [b, c][1..] == [c];
    assert [c][1..] == [];
    assert Numel([c]) == c;
    assert Numel([b, c]) == b * c;
  }

  lemma Numel4(a: nat, b: nat, c: nat, d: nat)
    ensures Numel([a, b, c, d]) == a * Numel([b, c, d])
  {
    assert [a, b, c, d][1..] == [b, c, d];
  }

  lemma Numel5(a: nat, b: nat, c: nat, d: nat, e: nat)
    ensures Numel([a, b, c, d, e]) == a * Numel([b, c, d, e])
  {
    assert [a, b, c, d, e][1..] == [b, c, d, e];
  }

  lemma Numel6(a: nat, b: nat, c: nat, d: nat, e: nat, f: nat)
    ensures Numel([a, b, c, d, e, f]) == a * Numel([b, c, d, e, f])
  {
    assert [a, b, c, d, e, f][1..] == [b, c, d, e, f];
  }

  /** `a*x*c == a*y*c` cancels to `x == y` unless a factor is zero. */
  lemma Cancel(a: nat, x: nat, y: nat, c: nat)
    requires a > 0 && c > 0 && a * (x * c) == a * (y * c)
    ensures x == y
  {
    assert (a * c) * x == (a * c) * y;
  }

  /** The token reshape `reshape(B, s, s, C)` succeeds exactly when the
      tokens fit a square, and then yields that shape. */
  lemma TokenReshape(x: Shape)
    requires |x| == 3
    ensures var n := Side(x[1]);
      && (Reshape(x, Fixeds([x[0], n, n, x[2]])).Ok? <==> TokensFit(x[0], x[1], x[2]))
      && (Reshape(x, Fixeds([x[0], n, n, x[2]])).Ok? ==> Reshape(x, Fixeds([x[0], n, n, x[2]])).value == [x[0], n, n, x[2]])
  {
    var B, L, C := x[0], x[1], x[2];
    var n := Side(L);
    assert x == [B, L, C];
    Numel3(B, L, C);
    Numel4(B, n, n, C);
    Numel3(n, n, C);
    KnownProductFixeds([B, n, n, C]);
    SquareFit(B, L, C, n);
    if TokensFit(B, L, C) {
      ReshapeExact(x, [B, n, n, C]);
    }
  }

  lemma SquareFit(B: nat, L: nat, C: nat, n: nat)
    ensures B * (L * C) == B * (n * (n * C)) <==> B == 0 || C == 0 || L == n * n
  {
    assert n * (n * C) == (n * n) * C;
    if B > 0 && C > 0 && B * (L * C) == B * (n * (n * C)) {
      Cancel(B, L, n * n, C);
    }
  }

  /** The permutation `(0, 3, 1, 2)` moves channels in front of the grid. */
  lemma ChannelsFirst(s: Shape)
    requires |s| == 4
    ensures Permute(s, [0, 3, 1, 2]) == Ok([s[0], s[3], s[1], s[2]])
  {
    var d := [0, 3, 1, 2];
    assert forall i :: 0 <= i < 4 ==> NormDim(d[i], 4) == d[i];
    assert ValidPermutation(d, 4);
    var r := Permute(s, d).value;
    assert forall i :: 0 <= i < 4 ==> r[i] == s[d[i]];
    assert r == [s[0], s[3], s[1], s[2]];
  }

  /** Shape of one extracted layer after the token-to-map step: a 3-D
      (B, L, C) tensor becomes (B, C, s, s), any other rank passes through. */
  function LayerMapShape(s: Shape): (r: Result<Shape>)
    ensures |s| != 3 ==> r == Ok(s)
    ensures |s| == 3 ==> (r.Ok? <==> TokensFit(s[0], s[1], s[2]))
    ensures |s| == 3 && r.Ok? ==> r.value == [s[0], s[2], Side(s[1]), Side(s[1])]
  {
    if |s| != 3 then Ok(s)
    else
      var n := Side(s[1]);
      TokenReshape(s);
      var y :- Reshape(s, Fixeds([s[0], n, n, s[2]]));
      ChannelsFirst(y);
      Permute(y, [0, 3, 1, 2])
  }

  /** Shape of `patchify(x, return_spatial_info=True)` on a (B, C, H, W)
      input: (B, n_h*n_w, C, k, k) and the grid; anything Unfold rejects,
      including every other rank, fails, and so does an empty batch, whose
      `reshape(B, C, k, k, -1)` cannot infer the `-1`. */
  function PatchifyShape(s: Shape, k: nat, stride: nat): (r: Result<(Shape, (nat, nat))>)
    ensures r.Ok? <==> |s| == 4 && s[0] > 0 && PatchMaker.UnfoldAccepts(s[1], s[2], s[3], k, stride)
    ensures r.Ok? ==>
      && r.value.1.0 >= 1 && r.value.1.1 >= 1
      && r.value.1.0 == PatchMaker.GridCount(s[2], k, stride)
      && r.value.1.1 == PatchMaker.GridCount(s[3], k, stride)
      && r.value.0 == [s[0], r.value.1.0 * r.value.1.1, s[1], k, k]
  {
    if |s| != 4 || !PatchMaker.UnfoldAccepts(s[1], s[2], s[3], k, stride) then Err("Unfold: input rejected")
    else if s[0] == 0 then
      var e: Result<(Shape, (nat, nat))> := Err("reshape: cannot reshape tensor of 0 elements with an inferred -1");
      e
    else
      PatchMaker.GridCountMatchesUnfold(s[2], k, stride);
      PatchMaker.GridCountMatchesUnfold(s[3], k, stride);
      var nh: nat := PatchMaker.GridCount(s[2], k, stride);
      var nw: nat := PatchMaker.GridCount(s[3], k, stride);
      Ok(([s[0], nh * nw, s[1], k, k], (nh, nw)))
  }

  /** The shape side agrees with the value side: `Patchify` of a tensor of
      shape (B, C, H, W) succeeds exactly when `PatchifyShape` does, with the
      same grid and a tensor of the predicted shape. */
  lemma PatchifyShapeAgrees(x: T4, B: nat, C: nat, H: nat, W: nat, k: nat, stride: nat)
    requires IsT4(x, B, C, H, W)
    ensures PatchMaker.Patchify(x, B, C, H, W, k, stride).Ok? <==> PatchifyShape([B, C, H, W], k, stride).Ok?
    ensures PatchifyShape([B, C, H, W], k, stride).Ok? ==>
      && PatchMaker.Patchify(x, B, C, H, W, k, stride).value.1 == PatchifyShape([B, C, H, W], k, stride).value.1
      && var sh := PatchifyShape([B, C, H, W], k, stride).value.0;
         IsT5(PatchMaker.Patchify(x, B, C, H, W, k, stride).value.0, sh[0], sh[1], sh[2], sh[3], sh[4])
  {
  }

  /** The reshape after Unfold, `reshape(B, C, k, k, -1)` of a (B, C*k*k, L)
      tensor, succeeds exactly for a non-empty batch, and then gives the
      block axis back as (C, k, k) with the L cells last. */
  lemma PatchifyReshape(B: nat, C: nat, k: nat, L: nat)
    requires C > 0 && k > 0
    ensures Reshape([B, C * (k * k), L], [Fixed(B), Fixed(C), Fixed(k), Fixed(k), Infer]).Ok? <==> B > 0
    ensures B > 0 ==> Reshape([B, C * (k * k), L], [Fixed(B), Fixed(C), Fixed(k), Fixed(k), Infer]) == Ok([B, C, k, k, L])
  {
    var t4 := [Infer];
    assert t4[1..] == [];
    assert KnownProduct(t4) == 1 && InferCount(t4) == 1;
    var t3 := [Fixed(k)] + t4;
    assert t3[1..] == t4;
    assert KnownProduct(t3) == k && InferCount(t3) == 1;
    var t2 := [Fixed(k)] + t3;
    assert t2[1..] == t3;
    assert KnownProduct(t2) == k * k && InferCount(t2) == 1;
    var t1 := [Fixed(C)] + t2;
    assert t1[1..] == t2;
    assert KnownProduct(t1) == C * (k * k) && InferCount(t1) == 1;
    var t := [Fixed(B)] + t1;
    assert t[1..] == t1;
    assert t == [Fixed(B), Fixed(C), Fixed(k), Fixed(k), Infer];
    assert KnownProduct(t) == B * (C * (k * k)) && InferCount(t) == 1;
    if B > 0 {
      var K := C * (k * k);
      Arith.MulPositive(B, K);
      assert Fill(t, L) == [B, C, k, k, L];
      Numel5(B, C, k, k, L);
      Numel4(C, k, k, L);
      Numel3(k, k, L);
      Numel3(B, K, L);
      assert C * (k * (k * L)) == K * L;
      ReshapeInferred([B, K, L], t, L);
    }
  }

  /** A successful reshape to a fully specified shape yields that shape. */
  lemma ReshapeFixedResult(s: Shape, target: Shape, r: Shape)
    requires Reshape(s, Fixeds(target)) == Ok(r)
    ensures r == target
  {
    var t := Fixeds(target);
    assert forall i :: 0 <= i < |target| ==> t[i].Fixed? && r[i] == target[i];
  }

  lemma KnownProduct5(a: nat, c: nat, d: nat, e: nat)
    ensures KnownProduct([Fixed(a), Infer, Fixed(c), Fixed(d), Fixed(e)]) == a * (c * (d * e))
    ensures InferCount([Fixed(a), Infer, Fixed(c), Fixed(d), Fixed(e)]) == 1
  {
    var t4 := [Fixed(e)];
    assert t4[1..] == [];
    assert KnownProduct(t4) == e && InferCount(t4) == 0;
    var t3 := [Fixed(d)] + t4;
    assert t3[1..] == t4;
    assert KnownProduct(t3) == d * e && InferCount(t3) == 0;
    var t2 := [Fixed(c)] + t3;
    assert t2[1..] == t3;
    assert KnownProduct(t2) == c * (d * e) && InferCount(t2) == 0;
    var t1 := [Infer] + t2;
    assert t1[1..] == t2;
    assert KnownProduct(t1) == c * (d * e) && InferCount(t1) == 1;
    var t := [Fixed(a)] + t1;
    assert t[1..] == t1;
    assert t == [Fixed(a), Infer, Fixed(c), Fixed(d), Fixed(e)];
  }

  /** The closing `reshape(len(x), -1, *x.shape[-3:])` of the loop merges the
      two grid axes into one of size `x*y`. */
  lemma MergeGrid(a: nat, x: nat, y: nat, c: nat, d: nat, e: nat, out: Shape)
    requires Reshape([a, x, y, c, d, e], [Fixed(a), Infer, Fixed(c), Fixed(d), Fixed(e)]) == Ok(out)
    ensures out == [a, x * y, c, d, e]
  {
    var t := [Fixed(a), Infer, Fixed(c), Fixed(d), Fixed(e)];
    KnownProduct5(a, c, d, e);
    var m := out[1];
    assert out == [a, m, c, d, e];
    var K := c * (d * e);
    assert a > 0 && K > 0;
    Numel6(a, x, y, c, d, e);
    Numel5(x, y, c, d, e);
    Numel4(y, c, d, e);
    Numel3(c, d, e);
    Numel5(a, m, c, d, e);
    Numel4(m, c, d, e);
    assert Numel(out) == a * (m * K);
    assert Numel([a, x, y, c, d, e]) == a * (x * (y * K));
    assert x * (y * K) == (x * y) * K;
    Cancel(a, m, x * y, K);
  }

  /** simplenet_vit.py:447-451: split the patch axis of a (B, n_h*n_w, C, k, k)
      patch tensor into the grid and move the grid behind the patch cells,
      giving (B, C, k, k, n_h, n_w). */
  function GridToBack(ps: Shape, grid: (nat, nat)): (r: Result<Shape>)
    ensures r.Ok? ==> |ps| == 5 && r.value == [ps[0], ps[2], ps[3], ps[4], grid.0, grid.1]
    ensures |ps| == 5 && ps[1] == grid.0 * grid.1 ==> r.Ok?
  {
    if |ps| == 0 then Err("shape[0]: index out of range")
    else
      var rest := if |ps| >= 2 then ps[2..] else [];
      var split := [ps[0], grid.0, grid.1] + rest;
      SplitGridNumel(ps, grid, rest);
      KnownProductFixeds(split);
      var s1 :- Reshape(ps, Fixeds(split));
      ReshapeFixedResult(ps, split, s1);
      var s2 :- Permute(s1, [0, -3, -2, -1, 1, 2]);
      ToFrontPermutation(s1);
      Ok(s2)
  }

  lemma SplitGridNumel(ps: Shape, grid: (nat, nat), rest: Shape)
    ensures |ps| == 5 && ps[1] == grid.0 * grid.1 && rest == ps[2..] ==>
      Numel([ps[0], grid.0, grid.1] + rest) == Numel(ps)
  {
    if |ps| == 5 && ps[1] == grid.0 * grid.1 && rest == ps[2..] {
      SplitGridNumelAt(ps, grid, rest);
    }
  }

  lemma SplitGridNumelAt(ps: Shape, grid: (nat, nat), rest: Shape)
    requires |ps| == 5 && ps[1] == grid.0 * grid.1 && rest == ps[2..]
    ensures Numel([ps[0], grid.0, grid.1] + rest) == Numel(ps)
  {
    NumelAppend([ps[0], grid.0, grid.1], rest);
    NumelAppend([ps[0], grid.0 * grid.1], rest);
    assert ps == [ps[0], grid.0 * grid.1] + rest;
    Numel3(ps[0], grid.0, grid.1);
    assert [ps[0], grid.0 * grid.1][1..] == [grid.0 * grid.1];
    assert Numel([grid.0 * grid.1]) == grid.0 * grid.1 by {
      assert [grid.0 * grid.1][1..] == [];
    }
  }

  /** simplenet_vit.py:453-465: fold every leading axis into one, resample the
      (n_h, n_w) grid bilinearly to the reference grid and unfold the leading
      axes again: (B, C, k, k, n_h, n_w) becomes (B, C, k, k, ref_h, ref_w). */
  function Resample(s2: Shape, ref: (nat, nat)): (r: Result<Shape>)
    requires |s2| == 6
    ensures r.Ok? <==> s2[4] > 0 && s2[5] > 0 && ref.0 > 0 && ref.1 > 0
    ensures r.Ok? ==> r.value == s2[..4] + [ref.0, ref.1]
  {
    GridProduct(s2);
    var s3 :- Reshape(s2, [Infer] + Fixeds(s2[4..]));
    assert |s3| == 3 && s3[1] == s2[4] && s3[2] == s2[5];
    var s5 :- Interpolate(Unsqueeze(s3, 1), ref.0, ref.1);
    ResampleSteps(s2, ref);
    var target := s2[..4] + [ref.0, ref.1];
    ReshapeExact(Squeeze(s5, 1), target);
    Reshape(Squeeze(s5, 1), Fixeds(target))
  }

  /** The leading axes are folded into the `-1` of `reshape(-1, n_h, n_w)`:
      the known sizes are the grid's. */
  lemma GridProduct(s2: Shape)
    requires |s2| == 6
    ensures InferCount([Infer] + Fixeds(s2[4..])) == 1
    ensures KnownProduct([Infer] + Fixeds(s2[4..])) == s2[4] * s2[5]
    ensures ([Infer] + Fixeds(s2[4..]))[1] == Fixed(s2[4]) && ([Infer] + Fixeds(s2[4..]))[2] == Fixed(s2[5])
    ensures s2[4] * s2[5] > 0 ==> Numel(s2) % (s2[4] * s2[5]) == 0
  {
    assert s2 == s2[..4] + [s2[4], s2[5]];
    NumelAppend(s2[..4], [s2[4], s2[5]]);
    Numel3(1, s2[4], s2[5]);
    assert Numel([s2[4], s2[5]]) == s2[4] * s2[5] by {
      assert [s2[4], s2[5]][1..] == [s2[5]];
      assert [s2[5]][1..] == [];
    }
    if s2[4] * s2[5] > 0 {
      Arith.DivModUnique(Numel(s2), Numel(s2[..4]), 0, s2[4] * s2[5]);
    }
    var t := [Infer] + Fixeds(s2[4..]);
    assert t == [Infer, Fixed(s2[4]), Fixed(s2[5])];
    assert t[1..] == [Fixed(s2[4]), Fixed(s2[5])];
    assert t[1..][1..] == [Fixed(s2[5])];
    assert t[1..][1..][1..] == [];
    assert KnownProduct(t[1..][1..]) == s2[5] && InferCount(t[1..][1..]) == 0;
    assert KnownProduct(t[1..]) == s2[4] * s2[5] && InferCount(t[1..]) == 0;
  }

  /** The intermediate shapes of `Resample` when the grids are non-empty. */
  lemma ResampleSteps(s2: Shape, ref: (nat, nat))
    requires |s2| == 6
    ensures s2[4] > 0 && s2[5] > 0 && ref.0 > 0 && ref.1 > 0 ==>
      var n := Numel(s2[..4]);
      && Reshape(s2, [Infer] + Fixeds(s2[4..])) == Ok([n, s2[4], s2[5]])
      && Interpolate(Unsqueeze([n, s2[4], s2[5]], 1), ref.0, ref.1) == Ok([n, 1, ref.0, ref.1])
      && Squeeze([n, 1, ref.0, ref.1], 1) == [n, ref.0, ref.1]
      && Numel([n, ref.0, ref.1]) == Numel(s2[..4] + [ref.0, ref.1])
  {
    if s2[4] > 0 && s2[5] > 0 && ref.0 > 0 && ref.1 > 0 {
      ResampleStepsAt(s2, ref);
    }
  }

  lemma ResampleStepsAt(s2: Shape, ref: (nat, nat))
    requires |s2| == 6 && s2[4] > 0 && s2[5] > 0 && ref.0 > 0 && ref.1 > 0
    ensures var n := Numel(s2[..4]);
      && Reshape(s2, [Infer] + Fixeds(s2[4..])) == Ok([n, s2[4], s2[5]])
      && Interpolate(Unsqueeze([n, s2[4], s2[5]], 1), ref.0, ref.1) == Ok([n, 1, ref.0, ref.1])
      && Squeeze([n, 1, ref.0, ref.1], 1) == [n, ref.0, ref.1]
      && Numel([n, ref.0, ref.1]) == Numel(s2[..4] + [ref.0, ref.1])
  {
    var n := Numel(s2[..4]);
    var t := [Infer] + Fixeds(s2[4..]);
    assert t == [Infer, Fixed(s2[4]), Fixed(s2[5])];
    assert t[1..] == [Fixed(s2[4]), Fixed(s2[5])];
    assert t[1..][1..] == [Fixed(s2[5])];
    assert t[1..][1..][1..] == [];
    assert KnownProduct(t[1..][1..]) == s2[5];
    assert KnownProduct(t[1..]) == s2[4] * s2[5];
    assert KnownProduct(t) == s2[4] * s2[5];
    assert InferCount(t[1..][1..]) == 0;
    assert InferCount(t[1..]) == 0;
    assert InferCount(t) == 1;
    assert Fill(t, n) == [n, s2[4], s2[5]];
    assert s2 == s2[..4] + [s2[4], s2[5]];
    NumelAppend(s2[..4], [s2[4], s2[5]]);
    NumelAppend(s2[..4], [ref.0, ref.1]);
    Numel3(n, s2[4], s2[5]);
    Numel3(n, ref.0, ref.1);
    assert [s2[4], s2[5]] == [s2[4]] + [s2[5]];
    NumelAppend([s2[4]], [s2[5]]);
    NumelAppend([ref.0], [ref.1]);
    assert [ref.0, ref.1] == [ref.0] + [ref.1];
    assert Numel([s2[4]]) == s2[4] by { assert [s2[4]][1..] == []; }
    assert Numel([s2[5]]) == s2[5] by { assert [s2[5]][1..] == []; }
    assert Numel([ref.0]) == ref.0 by { assert [ref.0][1..] == []; }
    assert Numel([ref.1]) == ref.1 by { assert [ref.1][1..] == []; }
    ReshapeInferred(s2, t, n);
  }

  /** simplenet_vit.py:466-467: move the resampled grid back in front of the
      patch cells and merge it into one patch axis. */
  function GridToFront(s7: Shape): (r: Result<Shape>)
    requires |s7| == 6
    ensures r.Ok? <==> s7[0] > 0 && s7[1] > 0 && s7[2] > 0 && s7[3] > 0
    ensures r.Ok? ==> r.value == [s7[0], s7[4] * s7[5], s7[1], s7[2], s7[3]]
  {
    ToBackPermutation(s7);
    KnownProduct5(s7[0], s7[1], s7[2], s7[3]);
    var s8 := Permute(s7, [0, -2, -1, 1, 2, 3]).value;
    assert s8 == [s7[0], s7[4], s7[5], s7[1], s7[2], s7[3]];
    assert Fixeds(s8[3..]) == [Fixed(s7[1]), Fixed(s7[2]), Fixed(s7[3])];
    assert [Fixed(s8[0]), Infer] + Fixeds(s8[3..]) == [Fixed(s7[0]), Infer, Fixed(s7[1]), Fixed(s7[2]), Fixed(s7[3])];
    MergeGridOk(s7[0], s7[4], s7[5], s7[1], s7[2], s7[3]);
    var out :- Reshape(s8, [Fixed(s8[0]), Infer] + Fixeds(s8[3..]));
    MergeGrid(s7[0], s7[4], s7[5], s7[1], s7[2], s7[3], out);
    Ok(out)
  }

  lemma MergeGridOk(a: nat, x: nat, y: nat, c: nat, d: nat, e: nat)
    ensures a > 0 && c > 0 && d > 0 && e > 0 ==>
      Reshape([a, x, y, c, d, e], [Fixed(a), Infer, Fixed(c), Fixed(d), Fixed(e)]).Ok?
  {
    if a > 0 && c > 0 && d > 0 && e > 0 {
      KnownProduct5(a, c, d, e);
      Numel6(a, x, y, c, d, e);
      Numel5(x, y, c, d, e);
      Numel4(y, c, d, e);
      Numel3(c, d, e);
      var K := c * (d * e);
      var n := Numel([a, x, y, c, d, e]);
      assert n == a * (x * (y * K));
      Regroup(a, x, y, K);
      Arith.DivModUnique(n, x * y, 0, a * K);
    }
  }

  lemma Regroup(a: nat, x: nat, y: nat, K: nat)
    requires a > 0 && K > 0
    ensures a * K > 0 && a * (x * (y * K)) == (x * y) * (a * K) + 0
  {
  }

  /** One iteration of the alignment loop (simplenet_vit.py:442-468) on the
      patch shape `ps` of a later layer with grid `grid`, resampled to the
      reference grid `ref`: only the patch-count axis changes, to the
      reference grid's cell count. */
  function AlignShape(ps: Shape, grid: (nat, nat), ref: (nat, nat)): (r: Result<Shape>)
    ensures r.Ok? ==> |ps| == 5 && r.value == [ps[0], ref.0 * ref.1, ps[2], ps[3], ps[4]]
  {
    var s2 :- GridToBack(ps, grid);
    var s7 :- Resample(s2, ref);
    GridToFront(s7)
  }

  /** On non-empty patches laid out on their own grid, with both grids
      non-empty, the alignment succeeds. */
  lemma AlignShapeOk(B: nat, C: nat, k: nat, grid: (nat, nat), ref: (nat, nat))
    requires B > 0 && C > 0 && k > 0
    requires grid.0 > 0 && grid.1 > 0 && ref.0 > 0 && ref.1 > 0
    ensures AlignShape([B, grid.0 * grid.1, C, k, k], grid, ref) == Ok([B, ref.0 * ref.1, C, k, k])
  {
  }
}
