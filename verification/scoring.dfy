/** `PatchMaker.score` (simplenet_vit.py:1281-1295) and the image-score and
    patch-score paths of `_predict` (simplenet_vit.py:1164-1178) that feed it.
    A score array of any rank is a tree of axes with scalars at the leaves. */
module Scoring {

  import opened Results
  import Arith
  import Seqs
  import TopK
  import PatchMaker

  datatype Nd = Scalar(v: real) | Axis(items: seq<Nd>)

  /** `x` is a dense array of the given shape. */
  predicate HasShape(x: Nd, shape: seq<nat>)
    decreases x
  {
    if |shape| == 0 then x.Scalar?
    else
      && x.Axis? && |x.items| == shape[0]
      && forall i :: 0 <= i < |x.items| ==> HasShape(x.items[i], shape[1..])
  }

  /** Entry `i` of an array of shape `shape` has shape `shape[1..]`. */
  function Sub(x: Nd, shape: seq<nat>, i: nat): (y: Nd)
    requires |shape| >= 1 && HasShape(x, shape) && i < shape[0]
    ensures HasShape(y, shape[1..]) && y == x.items[i]
    ensures |shape| == 1 ==> y.Scalar?
  {
    x.items[i]
  }

  /** Cell `(b, l)` of an array of rank at least 2 has shape `shape[2..]`. */
  function Cell(x: Nd, shape: seq<nat>, b: nat, l: nat): (y: Nd)
    requires |shape| >= 2 && HasShape(x, shape) && b < shape[0] && l < shape[1]
    ensures HasShape(y, shape[2..]) && x.items[b].Axis? && l < |x.items[b].items| && y == x.items[b].items[l]
  {
    var row := Sub(x, shape, b);
    assert shape[1..][1..] == shape[2..];
    Sub(row, shape[1..], l)
  }

  /** Every axis below `x` is non-empty, so `x` has at least one entry. */
  predicate Full(x: Nd)
    decreases x
  {
    x.Axis? ==> |x.items| > 0 && forall i :: 0 <= i < |x.items| ==> Full(x.items[i])
  }

  predicate Positive(shape: seq<nat>)
  {
    forall i :: 0 <= i < |shape| ==> shape[i] > 0
  }

  lemma {:induction false} FullOfPositiveShape(x: Nd, shape: seq<nat>)
    requires HasShape(x, shape) && Positive(shape)
    ensures Full(x)
    decreases x
  {
    if |shape| > 0 {
      forall i | 0 <= i < |x.items|
        ensures Full(x.items[i])
      {
        FullOfPositiveShape(x.items[i], shape[1..]);
      }
    }
  }

  /** All entries of `x`, in row-major order. */
  function Leaves(x: Nd): seq<real>
    decreases x
  {
    match x
    case Scalar(v) => [v]
    case Axis(items) => Seqs.Flatten(seq(|items|, i requires 0 <= i < |items| => Leaves(items[i])))
  }

  /** The largest entry of `x`, axis by axis. */
  function MaxLeaf(x: Nd): real
    requires Full(x)
    decreases x
  {
    match x
    case Scalar(v) => v
    case Axis(items) => Seqs.Max(seq(|items|, i requires 0 <= i < |items| => MaxLeaf(items[i])))
  }

  /** `MaxLeaf` is the maximum over all entries: it is one of them and no
      entry exceeds it. */
  lemma {:induction false} MaxLeafIsMax(x: Nd)
    requires Full(x)
    ensures MaxLeaf(x) in Leaves(x)
    ensures forall j :: 0 <= j < |Leaves(x)| ==> Leaves(x)[j] <= MaxLeaf(x)
    decreases x
  {
    if x.Axis? {
      var items := x.items;
      var ls := seq(|items|, i requires 0 <= i < |items| => Leaves(items[i]));
      var ms := seq(|items|, i requires 0 <= i < |items| => MaxLeaf(items[i]));
      forall i | 0 <= i < |items|
        ensures ms[i] in ls[i] && forall j :: 0 <= j < |ls[i]| ==> ls[i][j] <= ms[i]
      {
        MaxLeafIsMax(items[i]);
      }
      var i0 :| 0 <= i0 < |ms| && ms[i0] == MaxLeaf(x);
      Seqs.FlattenMember(ls, i0, MaxLeaf(x));
      forall j | 0 <= j < |Leaves(x)|
        ensures Leaves(x)[j] <= MaxLeaf(x)
      {
        var i := Seqs.FlattenSource(ls, j);
        assert Leaves(x)[j] in ls[i];
      }
    }
  }

  function Last(shape: seq<nat>): nat
    requires |shape| > 0
  {
    shape[|shape| - 1]
  }

  /** `torch.max(x, dim=-1).values`: replace the innermost axis by its maximum. */
  function ReduceLast(x: Nd, shape: seq<nat>): (r: Nd)
    requires |shape| >= 1 && HasShape(x, shape) && Last(shape) > 0
    ensures HasShape(r, shape[..|shape| - 1])
    decreases x
  {
    if |shape| == 1 then
      Scalar(Seqs.Max(seq(|x.items|, i requires 0 <= i < |x.items| => Sub(x, shape, i).v)))
    else
      assert shape[..|shape| - 1][1..] == shape[1..][..|shape| - 2];
      Axis(seq(|x.items|, i requires 0 <= i < |x.items| => ReduceLast(x.items[i], shape[1..])))
  }

  /** Reducing the innermost axis keeps the largest entry. */
  lemma {:induction false} ReduceLastKeepsMax(x: Nd, shape: seq<nat>)
    requires |shape| >= 1 && HasShape(x, shape) && Positive(shape)
    ensures Full(x) && Full(ReduceLast(x, shape))
    ensures MaxLeaf(ReduceLast(x, shape)) == MaxLeaf(x)
    decreases x
  {
    FullOfPositiveShape(x, shape);
    var r := ReduceLast(x, shape);
    FullOfPositiveShape(r, shape[..|shape| - 1]);
    if |shape| > 1 {
      forall i | 0 <= i < |x.items|
        ensures MaxLeaf(r.items[i]) == MaxLeaf(x.items[i])
      {
        ReduceLastKeepsMax(x.items[i], shape[1..]);
      }
      assert seq(|r.items|, i requires 0 <= i < |r.items| => MaxLeaf(r.items[i]))
          == seq(|x.items|, i requires 0 <= i < |x.items| => MaxLeaf(x.items[i]));
    } else {
      forall i | 0 <= i < |x.items|
        ensures x.items[i] == Sub(x, shape, i) && x.items[i].Scalar?
      {
      }
      assert seq(|x.items|, i requires 0 <= i < |x.items| => MaxLeaf(x.items[i]))
          == seq(|x.items|, i requires 0 <= i < |x.items| => Sub(x, shape, i).v);
    }
  }

  /** `while x.ndim > 2: x = torch.max(x, dim=-1).values`. Fails when an axis
      to be reduced is empty, as `torch.max` does. */
  function ReduceTrailing(x: Nd, shape: seq<nat>): (r: Result<Nd>)
    requires HasShape(x, shape)
    ensures r.Ok? <==> Positive(shape[Min2(|shape|)..])
    ensures r.Ok? ==> HasShape(r.value, shape[..Min2(|shape|)])
    decreases |shape|
  {
    if |shape| <= 2 then
      assert shape[..Min2(|shape|)] == shape;
      Ok(x)
    else if Last(shape) == 0 then
      assert shape[Min2(|shape|)..][|shape| - 3] == 0;
      Err("max(): reduction dim is empty")
    else
      var s' := shape[..|shape| - 1];
      assert s'[..Min2(|s'|)] == shape[..Min2(|shape|)];
      assert Positive(shape[Min2(|shape|)..]) <==> Positive(s'[Min2(|s'|)..]) && Last(shape) > 0 by {
        assert shape[Min2(|shape|)..] == s'[Min2(|s'|)..] + [Last(shape)];
      }
      ReduceTrailing(ReduceLast(x, shape), s')
  }

  function Min2(n: nat): nat
  {
    if n < 2 then n else 2
  }

  /** After the trailing reductions, cell (b, l) holds the maximum of
      everything the input held under (b, l). */
  lemma {:induction false} ReduceTrailingCell(x: Nd, shape: seq<nat>, b: nat, l: nat)
    requires |shape| >= 2 && HasShape(x, shape) && ReduceTrailing(x, shape).Ok?
    requires b < shape[0] && l < shape[1]
    ensures Full(Cell(x, shape, b, l))
    ensures Cell(ReduceTrailing(x, shape).value, shape[..2], b, l) == Scalar(MaxLeaf(Cell(x, shape, b, l)))
    decreases |shape|
  {
    var cell := Cell(x, shape, b, l);
    FullOfPositiveShape(cell, shape[2..]);
    if |shape| > 2 {
      var y := ReduceLast(x, shape);
      var s' := shape[..|shape| - 1];
      ReduceTrailingCell(y, s', b, l);
      assert s'[..2] == shape[..2];
      assert y.items[b] == ReduceLast(x.items[b], shape[1..]);
      assert shape[1..][1..] == shape[2..];
      assert Cell(y, s', b, l) == ReduceLast(cell, shape[2..]);
      ReduceLastKeepsMax(cell, shape[2..]);
    }
  }

  /** The values of a rank-2 array's row `b`. */
  function RowValues(g: Nd, shape: seq<nat>, b: nat): (row: seq<real>)
    requires |shape| == 2 && HasShape(g, shape) && b < shape[0]
    ensures |row| == shape[1]
  {
    seq(shape[1], l requires 0 <= l < shape[1] =>
      assert shape[2..] == [];
      Cell(g, shape, b, l).v)
  }

  /** `PatchMaker.score(x)`: reduce trailing axes by max down to (B, L); then
      per image take the top-k mean when `top_k > 1`, else the maximum. An
      array of rank below 2 is returned unchanged. */
  function Score(x: Nd, shape: seq<nat>, topK: int): (r: Result<Nd>)
    requires HasShape(x, shape)
    ensures |shape| < 2 ==> r == Ok(x)
    ensures |shape| >= 2 ==>
      (r.Ok? <==> Positive(shape[2..]) && (if topK > 1 then topK <= shape[1] else shape[1] > 0))
    ensures |shape| >= 2 && r.Ok? ==> HasShape(r.value, [shape[0]])
  {
    if |shape| < 2 then Ok(x)
    else
      var g :- ReduceTrailing(x, shape);
      var s2 := shape[..2];
      if topK > 1 then
        if topK > shape[1] then Err("topk(): k out of range")
        else Ok(Axis(seq(shape[0], b requires 0 <= b < shape[0] =>
          Scalar(TopK.TopKMean(RowValues(g, s2, b), topK)))))
      else if shape[1] == 0 then Err("max(): reduction dim is empty")
      else Ok(Axis(seq(shape[0], b requires 0 <= b < shape[0] =>
        Scalar(Seqs.Max(RowValues(g, s2, b))))))
  }

  /** The per-image cell maxima that the final step of `score` reduces. */
  function CellMaxima(x: Nd, shape: seq<nat>, b: nat): (row: seq<real>)
    requires |shape| >= 2 && HasShape(x, shape) && Positive(shape[2..]) && b < shape[0]
    ensures |row| == shape[1]
  {
    seq(shape[1], l requires 0 <= l < shape[1] =>
      FullOfPositiveShape(Cell(x, shape, b, l), shape[2..]);
      MaxLeaf(Cell(x, shape, b, l)))
  }

  /** What `score` computes: with `top_k <= 1`, image b's score is the
      maximum over every entry the array holds for b; with `top_k > 1`, the
      mean of the `top_k` largest cell maxima, which lies between the smallest
      and the largest cell maximum. */
  lemma {:induction false} ScoreIs(x: Nd, shape: seq<nat>, topK: int, b: nat)
    requires |shape| >= 2 && HasShape(x, shape) && Score(x, shape, topK).Ok? && b < shape[0]
    ensures topK <= 1 ==> Full(Sub(x, shape, b)) && Score(x, shape, topK).value.items[b] == Scalar(MaxLeaf(x.items[b]))
    ensures topK > 1 ==>
      var cells := CellMaxima(x, shape, b);
      && Score(x, shape, topK).value.items[b] == Scalar(TopK.TopKMean(cells, topK))
      && Seqs.Min(cells) <= TopK.TopKMean(cells, topK) <= Seqs.Max(cells)
  {
    var g := ReduceTrailing(x, shape).value;
    var s2 := shape[..2];
    var row := RowValues(g, s2, b);
    var cells := CellMaxima(x, shape, b);
    forall l | 0 <= l < shape[1]
      ensures row[l] == cells[l]
    {
      ReduceTrailingCell(x, shape, b, l);
    }
    assert row == cells;
    if topK > 1 {
      TopK.TopKMeanWithinRow(cells, topK);
    } else {
      var xb := Sub(x, shape, b);
      assert xb.Axis? && |xb.items| == shape[1] > 0;
      forall l | 0 <= l < shape[1]
        ensures Full(xb.items[l])
      {
        FullOfPositiveShape(Cell(x, shape, b, l), shape[2..]);
      }
      assert cells == seq(|x.items[b].items|, i requires 0 <= i < |x.items[b].items| => MaxLeaf(x.items[b].items[i]));
    }
  }

  /** The (B, L, 1) array `_predict` hands to `score`: the unpatched negated
      discriminator outputs, one trailing singleton axis per patch. */
  function ScoreArray(rows: seq<seq<real>>, B: nat, L: nat): (x: Nd)
    requires |rows| == B && Seqs.Rows(rows, L)
    ensures HasShape(x, [B, L, 1])
  {
    var x := Axis(seq(B, b requires 0 <= b < B =>
      Axis(seq(L, l requires 0 <= l < L => Axis([Scalar(rows[b][l])])))));
    assert [B, L, 1][1..] == [L, 1] && [L, 1][1..] == [1] && [1][1..] == [];
    assert forall b :: 0 <= b < B ==> HasShape(x.items[b], [L, 1]) by {
      forall b | 0 <= b < B
        ensures HasShape(x.items[b], [L, 1])
      {
        assert forall l :: 0 <= l < L ==> HasShape(x.items[b].items[l], [1]);
      }
    }
    x
  }

  /** Image scores of `_predict`: negate the per-patch discriminator outputs
      (N, 1), unpatch them to (B, N/B, 1), and reduce with `score`. */
  function ImageScores(disc: seq<real>, batchsize: nat, topK: int): (r: Result<seq<real>>)
    ensures r.Ok? <==>
      && batchsize > 0 && |disc| % batchsize == 0
      && (if topK > 1 then topK <= |disc| / batchsize else |disc| / batchsize > 0)
    ensures r.Ok? ==> |r.value| == batchsize
  {
    var neg := seq(|disc|, i requires 0 <= i < |disc| => -disc[i]);
    var rows :- PatchMaker.UnpatchScores(neg, batchsize);
    var L := |disc| / batchsize;
    var shape := [batchsize, L, 1];
    var arr := ScoreArray(rows, batchsize, L);
    assert Positive(shape[2..]);
    var s :- Score(arr, shape, topK);
    Ok(seq(batchsize, b requires 0 <= b < batchsize => Sub(s, [batchsize], b).v))
  }

  /** With the default `top_k = 0`, an image's score is the largest negated
      discriminator output over its patches. */
  lemma {:induction false} DefaultImageScore(disc: seq<real>, batchsize: nat, topK: int, b: nat)
    requires topK <= 1 && ImageScores(disc, batchsize, topK).Ok? && b < batchsize
    ensures var L := |disc| / batchsize;
      && L > 0 && b * L + L <= |disc|
      && ImageScores(disc, batchsize, topK).value[b]
         == Seqs.Max(seq(L, l requires 0 <= l < L => -disc[b * L + l]))
  {
    var neg := seq(|disc|, i requires 0 <= i < |disc| => -disc[i]);
    var rows := PatchMaker.UnpatchScores(neg, batchsize).value;
    var L := |disc| / batchsize;
    var shape := [batchsize, L, 1];
    var arr := ScoreArray(rows, batchsize, L);
    assert Positive(shape[2..]);
    var sc := Score(arr, shape, topK).value;
    assert ImageScores(disc, batchsize, topK).value[b] == Sub(sc, [batchsize], b).v;
    ScoreIs(arr, shape, topK, b);
    Arith.DivExact(|disc|, batchsize);
    Arith.RowMajorBound(b, L - 1, batchsize, L);
    ScoreArrayRowMax(rows, batchsize, L, b);
    var want := seq(L, l requires 0 <= l < L => -disc[b * L + l]);
    forall l | 0 <= l < L
      ensures rows[b][l] == want[l]
    {
      PatchMaker.UnpatchAt(neg, batchsize, b, l);
    }
    assert rows[b] == want;
  }

  /** In the (B, L, 1) score array, the largest leaf under image `b` is the
      largest of that image's scores. */
  lemma ScoreArrayRowMax(rows: seq<seq<real>>, B: nat, L: nat, b: nat)
    requires |rows| == B && Seqs.Rows(rows, L) && L > 0 && b < B
    ensures Full(ScoreArray(rows, B, L).items[b])
    ensures MaxLeaf(ScoreArray(rows, B, L).items[b]) == Seqs.Max(rows[b])
  {
    var xb := ScoreArray(rows, B, L).items[b];
    assert |xb.items| == L;
    var cellMax := seq(L, i requires 0 <= i < L => MaxLeaf(xb.items[i]));
    forall l | 0 <= l < L
      ensures Full(xb.items[l]) && cellMax[l] == rows[b][l]
    {
      assert xb.items[l] == Axis([Scalar(rows[b][l])]);
      assert MaxLeaf(xb.items[l]) == Seqs.Max([rows[b][l]]);
    }
    assert cellMax == rows[b];
  }

  /** The per-image patch-score maps of `_predict`: the negated outputs
      unpatched and reshaped to the (h, w) reference grid. Fails, as the
      reshape does, unless each image has exactly `h*w` patches. */
  function PatchScoreMaps(disc: seq<real>, batchsize: nat, h: nat, w: nat): (r: Result<seq<seq<seq<real>>>>)
    ensures r.Ok? <==> batchsize > 0 && |disc| == batchsize * (h * w)
    ensures r.Ok? ==> |r.value| == batchsize
    ensures r.Ok? ==> forall b :: 0 <= b < batchsize ==> |r.value[b]| == h && Seqs.Rows(r.value[b], w)
  {
    if batchsize == 0 || |disc| != batchsize * (h * w) then Err("reshape: size mismatch")
    else
      var neg := seq(|disc|, i requires 0 <= i < |disc| => -disc[i]);
      Arith.DivModUnique(|disc|, h * w, 0, batchsize);
      var rows := PatchMaker.UnpatchScores(neg, batchsize).value;
      if w == 0 then Ok(seq(batchsize, b => seq(h, r => [])))
      else
        Arith.DivModUnique(h * w, h, 0, w);
        assert Seqs.Rows(rows, h * w);
        Ok(seq(batchsize, b requires 0 <= b < batchsize => Seqs.Chunk(rows[b], w)))
  }

  /** Map entry `(b, row, col)` is the negated output of flat patch
      `b*h*w + row*w + col`. */
  lemma {:induction false} PatchScoreMapAt(disc: seq<real>, batchsize: nat, h: nat, w: nat, b: nat, row: nat, col: nat)
    requires PatchScoreMaps(disc, batchsize, h, w).Ok?
    requires b < batchsize && row < h && col < w
    ensures b * (h * w) + row * w + col < |disc|
      && PatchScoreMaps(disc, batchsize, h, w).value[b][row][col] == -disc[b * (h * w) + row * w + col]
  {
    var neg := seq(|disc|, i requires 0 <= i < |disc| => -disc[i]);
    var hw := h * w;
    Arith.DivModUnique(|disc|, hw, 0, batchsize);
    assert |neg| / batchsize == hw;
    Arith.DivModUnique(hw, h, 0, w);
    Arith.RowMajorBound(row, col, h, w);
    var l := row * w + col;
    PatchMaker.UnpatchAt(neg, batchsize, b, l);
    var rows := PatchMaker.UnpatchScores(neg, batchsize).value;
    assert rows[b][l] == neg[b * hw + l];
    Seqs.ChunkAt(rows[b], w, row, col);
    assert PatchScoreMaps(disc, batchsize, h, w).value[b] == Seqs.Chunk(rows[b], w);
  }
}
