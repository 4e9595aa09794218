/** `PatchMaker` (simplenet_vit.py:1244-1279): cutting a (B, C, H, W) feature
    map into zero-padded k-by-k patches on a strided grid, and reading a flat
    per-patch score vector back per image. */
module PatchMaker {

  import opened Results
  import opened Tensors
  import Arith
  import Seqs

  /** `padding = int((patchsize - 1) / 2)`. */
  function Padding(k: nat): (p: nat)
    ensures k >= 1 ==> p == (k - 1) / 2
    ensures k == 0 ==> p == 0
  {
    if k >= 1 then
      Arith.TruncQuotient(k - 1, 2);
      Arith.TruncToInt(((k - 1) as real) / 2.0)
    else
      assert Arith.TruncToInt(-1.0 / 2.0) == 0;
      Arith.TruncToInt(-1.0 / 2.0)
  }

  /** Numerator of the sliding-window count: `s + 2p - (k - 1) - 1`. */
  function Span(s: nat, k: nat): int
  {
    s + 2 * Padding(k) - (k - 1) - 1
  }

  /** The per-axis patch count as the program reports it:
      `int((s + 2p - (k - 1) - 1) / stride + 1)` on floats. */
  function GridCount(s: nat, k: nat, stride: nat): int
    requires stride > 0
  {
    Arith.TruncToInt((Span(s, k) as real) / (stride as real) + 1.0)
  }

  /** The per-axis count of sliding blocks `torch.nn.Unfold` produces:
      `floor((s + 2p - (k - 1) - 1) / stride) + 1`. */
  function UnfoldCount(s: nat, k: nat, stride: nat): int
    requires stride > 0
  {
    Span(s, k) / stride + 1
  }

  /** The input checks `torch.nn.Unfold` applies to a (B, C, H, W) input: a
      positive kernel and stride, non-zero non-batch dimensions, and at least
      one block along each spatial axis. */
  predicate UnfoldAccepts(C: nat, H: nat, W: nat, k: nat, stride: nat)
  {
    && k > 0 && stride > 0 && C > 0 && H > 0 && W > 0
    && UnfoldCount(H, k, stride) >= 1 && UnfoldCount(W, k, stride) >= 1
  }

  /** The program's count agrees with Unfold's whenever Unfold accepts the
      input, and is then `floor((s + 2p - k) / stride) + 1`. */
  lemma GridCountMatchesUnfold(s: nat, k: nat, stride: nat)
    requires stride > 0 && UnfoldCount(s, k, stride) >= 1
    ensures Span(s, k) >= 0
    ensures GridCount(s, k, stride) == UnfoldCount(s, k, stride) == (s + 2 * Padding(k) - k) / stride + 1
  {
    Arith.TruncQuotientPlusOne(Span(s, k), stride);
  }

  /** For an odd window, the padded grid has `floor((s - 1) / stride) + 1`
      cells per axis, and Unfold accepts every non-empty axis. */
  lemma GridCountOddKernel(s: nat, k: nat, stride: nat)
    requires stride > 0 && k % 2 == 1 && s >= 1
    ensures UnfoldCount(s, k, stride) >= 1
    ensures GridCount(s, k, stride) == (s - 1) / stride + 1
  {
    assert 2 * Padding(k) == k - 1;
    assert Span(s, k) == s - 1;
    GridCountMatchesUnfold(s, k, stride);
  }

  /** The docstring's `w // stride` is not the count the code returns: a
      5-wide axis with a 3-wide window and stride 2 has three patches, not two. */
  lemma DocstringCountDiffers()
    ensures GridCount(5, 3, 2) == 3 && 5 / 2 == 2
  {
    GridCountOddKernel(5, 3, 2);
  }

  /** Entry `(q, l)` of Unfold's output for one image: row `q` enumerates
      (channel, kernel row, kernel column) channel-major, column `l` enumerates
      grid cells row-major. */
  function UnfoldEntry(xb: T3, C: nat, k: nat, stride: nat, p: nat, nw: nat, q: nat, l: nat): real
    requires k > 0 && nw > 0 && |xb| == C && q < C * (k * k)
  {
    Arith.QuotientBound(q, C, k * k);
    var c, rest := q / (k * k), q % (k * k);
    PadAt(xb[c], (l / nw) * stride + rest / k - p, (l % nw) * stride + rest % k - p)
  }

  /** `torch.nn.Unfold(kernel_size=k, stride, padding=p)` on a (B, C, H, W)
      input: a (B, C*k*k, nh*nw) tensor of zero-padded sliding blocks. */
  function Unfold(x: T4, B: nat, C: nat, H: nat, W: nat, k: nat, stride: nat): (u: T3)
    requires IsT4(x, B, C, H, W) && UnfoldAccepts(C, H, W, k, stride)
    ensures IsT3(u, B, C * (k * k), UnfoldCount(H, k, stride) * UnfoldCount(W, k, stride))
  {
    var p := Padding(k);
    var nh: nat := UnfoldCount(H, k, stride);
    var nw: nat := UnfoldCount(W, k, stride);
    seq(B, b requires 0 <= b < B =>
      seq(C * (k * k), q requires 0 <= q < C * (k * k) =>
        seq(nh * nw, l requires 0 <= l < nh * nw => UnfoldEntry(x[b], C, k, stride, p, nw, q, l))))
  }

  /** `reshape(B, C, k, k, L)` of a (B, C*k*k, L) tensor: the flat block axis
      splits channel-major into (channel, kernel row, kernel column). */
  function SplitBlockAxis(u: T3, B: nat, C: nat, k: nat, L: nat): (r: T5)
    requires k > 0 && IsT3(u, B, C * (k * k), L)
    ensures IsT5(r, B, C, k, k, L)
  {
    seq(B, b requires 0 <= b < B =>
      seq(C, c requires 0 <= c < C =>
        seq(k, i requires 0 <= i < k =>
          seq(k, j requires 0 <= j < k => BlockRow(u[b], C, k, L, c, i, j)))))
  }

  function BlockRow(ub: Mat, C: nat, k: nat, L: nat, c: nat, i: nat, j: nat): (row: Vec)
    requires IsMat(ub, C * (k * k), L) && c < C && i < k && j < k
    ensures c * (k * k) + i * k + j < |ub| && row == ub[c * (k * k) + i * k + j] && |row| == L
  {
    Arith.RowMajor3Bound(c, i, j, C, k);
    ub[c * (k * k) + i * k + j]
  }

  /** `permute(0, 4, 1, 2, 3)`: move the grid-cell axis next to the batch axis. */
  function MoveCellAxis(r: T5, B: nat, C: nat, k: nat, L: nat): (out: T5)
    requires IsT5(r, B, C, k, k, L)
    ensures IsT5(out, B, L, C, k, k)
  {
    seq(B, b requires 0 <= b < B =>
      seq(L, l requires 0 <= l < L =>
        seq(C, c requires 0 <= c < C =>
          seq(k, i requires 0 <= i < k =>
            seq(k, j requires 0 <= j < k => r[b][c][i][j][l])))))
  }

  /** `PatchMaker.patchify(features, return_spatial_info=True)`: the
      (B, L, C, k, k) patches and the per-axis counts. Unfold's input checks
      fail first; Unfold lets an empty batch through, but the following
      `reshape(B, C, k, k, -1)` of its 0 elements cannot infer the `-1` and
      fails. On success the shape is (B, n_h*n_w, C, k, k) with the counts
      the program computes. */
  function Patchify(x: T4, B: nat, C: nat, H: nat, W: nat, k: nat, stride: nat): (r: Result<(T5, (int, int))>)
    requires IsT4(x, B, C, H, W)
    ensures r.Ok? <==> B > 0 && UnfoldAccepts(C, H, W, k, stride)
    ensures r.Ok? ==>
      && r.value.1 == (GridCount(H, k, stride), GridCount(W, k, stride))
      && r.value.1.0 >= 1 && r.value.1.1 >= 1
      && IsT5(r.value.0, B, r.value.1.0 * r.value.1.1, C, k, k)
  {
    if !UnfoldAccepts(C, H, W, k, stride) then Err("Unfold: input rejected")
    else if B == 0 then Err("reshape: cannot reshape tensor of 0 elements with an inferred -1")
    else
      GridCountMatchesUnfold(H, k, stride);
      GridCountMatchesUnfold(W, k, stride);
      var nh: nat := UnfoldCount(H, k, stride);
      var nw: nat := UnfoldCount(W, k, stride);
      var u := Unfold(x, B, C, H, W, k, stride);
      var blocks := SplitBlockAxis(u, B, C, k, nh * nw);
      Ok((MoveCellAxis(blocks, B, C, k, nh * nw), (GridCount(H, k, stride), GridCount(W, k, stride))))
  }

  /** Layout of `patchify`: element (i, j) of channel c in the patch at grid
      cell (row, col) is the zero-padded input at
      `(row*stride + i - p, col*stride + j - p)`. */
  lemma PatchifyAt(x: T4, B: nat, C: nat, H: nat, W: nat, k: nat, stride: nat,
                   b: nat, row: nat, col: nat, c: nat, i: nat, j: nat)
    requires IsT4(x, B, C, H, W)
    requires UnfoldAccepts(C, H, W, k, stride)
    requires b < B && row < GridCount(H, k, stride) && col < GridCount(W, k, stride)
    requires c < C && i < k && j < k
    ensures Patchify(x, B, C, H, W, k, stride).Ok?
    ensures var nw := GridCount(W, k, stride);
      && row * nw + col < GridCount(H, k, stride) * nw
      && Patchify(x, B, C, H, W, k, stride).value.0[b][row * nw + col][c][i][j]
         == PadAt(x[b][c], row * stride + i - Padding(k), col * stride + j - Padding(k))
  {
    GridCountMatchesUnfold(H, k, stride);
    GridCountMatchesUnfold(W, k, stride);
    var p := Padding(k);
    var nh: nat := UnfoldCount(H, k, stride);
    var nw: nat := UnfoldCount(W, k, stride);
    var L := nh * nw;
    var l := row * nw + col;
    Arith.RowMajorBound(row, col, nh, nw);
    Arith.RowMajorSplit(row, col, nw);
    Arith.RowMajor3(c, i, j, C, k);
    var q := c * (k * k) + i * k + j;
    var u := Unfold(x, B, C, H, W, k, stride);
    var blocks := SplitBlockAxis(u, B, C, k, L);
    var out := MoveCellAxis(blocks, B, C, k, L);
    assert out[b][l][c][i][j] == blocks[b][c][i][j][l];
    assert blocks[b][c][i][j] == u[b][q];
    assert u[b][q][l] == UnfoldEntry(x[b], C, k, stride, p, nw, q, l);
  }

  /** `PatchMaker.unpatch_scores(x, batchsize)`: `x.reshape(batchsize, -1, ...)`
      on the numpy score array. Fails, as the reshape does, when the batch
      size is 0 or does not divide the number of patches. */
  function UnpatchScores<T>(x: seq<T>, batchsize: nat): (r: Result<seq<seq<T>>>)
    ensures r.Ok? <==> batchsize > 0 && |x| % batchsize == 0
    ensures r.Ok? ==> |r.value| == batchsize && Seqs.Rows(r.value, |x| / batchsize)
  {
    if batchsize == 0 || |x| % batchsize != 0 then Err("reshape: invalid batch size")
    else if |x| == 0 then Ok(seq(batchsize, _ => []))
    else
      var per := |x| / batchsize;
      Arith.DivExact(|x|, batchsize);
      Arith.DivModUnique(|x|, batchsize, 0, per);
      Ok(Seqs.Chunk(x, per))
  }

  /** Unpatching changes no value: score `l` of image `b` is flat score
      `b*L + l`, where `L` is the number of patches per image. */
  lemma UnpatchAt<T>(x: seq<T>, batchsize: nat, b: nat, l: nat)
    requires batchsize > 0 && |x| % batchsize == 0
    requires b < batchsize && l < |x| / batchsize
    ensures b * (|x| / batchsize) + l < |x|
    ensures UnpatchScores(x, batchsize).value[b][l] == x[b * (|x| / batchsize) + l]
  {
    var per := |x| / batchsize;
    Arith.DivExact(|x|, batchsize);
    Arith.DivModUnique(|x|, batchsize, 0, per);
    Seqs.ChunkAt(x, per, b, l);
  }

  /** Unpatching is a pure reinterpretation: flattening the per-image rows
      gives back the flat score vector. */
  lemma UnpatchFlatten<T>(x: seq<T>, batchsize: nat)
    requires batchsize > 0 && |x| % batchsize == 0
    ensures Seqs.Flatten(UnpatchScores(x, batchsize).value) == x
  {
    var r := UnpatchScores(x, batchsize).value;
    if |x| == 0 {
      Seqs.FlattenLength(r, 0);
    } else {
      var per := |x| / batchsize;
      Arith.DivExact(|x|, batchsize);
      Arith.DivModUnique(|x|, batchsize, 0, per);
      Seqs.FlattenChunk(x, per);
    }
  }

  /** Conversely, a rectangular (B, L) score grid survives flatten-then-unpatch. */
  lemma UnpatchOfFlatten<T>(grid: seq<seq<T>>, L: nat)
    requires |grid| > 0 && Seqs.Rows(grid, L)
    ensures var flat := Seqs.Flatten(grid);
      |flat| % |grid| == 0 && UnpatchScores(flat, |grid|) == Ok(grid)
  {
    var flat := Seqs.Flatten(grid);
    Seqs.FlattenLength(grid, L);
    Arith.DivModUnique(|flat|, L, 0, |grid|);
    if L == 0 {
      assert |flat| == 0;
      assert UnpatchScores(flat, |grid|).value == grid;
    } else {
      Arith.DivModUnique(|flat|, |grid|, 0, L);
      Seqs.ChunkFlatten(grid, L);
    }
  }
}
