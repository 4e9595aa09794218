/** The channel pooling after patch alignment: `MeanMapperad`,
    `Preprocessingad` and `Aggregatorad` (simplenet_vit.py:208-247), all built
    on `F.adaptive_avg_pool1d`. `_embed` itself calls `common.Preprocessing`
    and `common.Aggregator`, which are not part of this model; these in-file
    classes stand in for them. */
module Pooling {

  import opened Results
  import opened Tensors
  import Arith
  import Seqs

  /** First input index of output window `i` when pooling `L` values to `D`:
      `floor(i*L / D)`. */
  function WindowStart(i: nat, L: nat, D: nat): nat
    requires D > 0
  {
    (i * L) / D
  }

  /** One past the last input index of window `i`: `ceil((i+1)*L / D)`. */
  function WindowEnd(i: nat, L: nat, D: nat): nat
    requires D > 0
  {
    ((i + 1) * L + D - 1) / D
  }

  /** Every window of a non-empty input is a non-empty slice of it. */
  lemma WindowBounds(i: nat, L: nat, D: nat)
    requires D > 0 && L > 0 && i < D
    ensures WindowStart(i, L, D) < WindowEnd(i, L, D) <= L
  {
    WindowNonEmpty(i, L, D);
    WindowWithin(i, L, D);
  }

  lemma WindowNonEmpty(i: nat, L: nat, D: nat)
    requires D > 0 && L > 0
    ensures WindowStart(i, L, D) < WindowEnd(i, L, D)
  {
    var a := i * L;
    var b := a + L;
    assert (i + 1) * L == b;
    var s, e := a / D, (b + D - 1) / D;
    Arith.DivModSplit(a, D);
    Arith.DivModSplit(b + D - 1, D);
    assert s * D <= a;
    assert e * D >= b;
    Arith.MulCancelLt(s, e, D);
  }

  lemma WindowWithin(i: nat, L: nat, D: nat)
    requires D > 0 && i < D
    ensures WindowEnd(i, L, D) <= L
  {
    assert (i + 1) * L <= D * L by {
      Arith.MulMonoLe(i + 1, D, L);
    }
    Arith.DivMono((i + 1) * L + D - 1, D * L + D - 1, D);
    Arith.DivModUnique(D * L + D - 1, L, D - 1, D);
  }

  /** The windows cover the input: the first starts at 0, the last ends at
      `L`, and each starts no later than its predecessor ends. */
  lemma WindowsCover(L: nat, D: nat, i: nat)
    requires D > 0 && i + 1 < D
    ensures WindowStart(0, L, D) == 0 && WindowEnd(D - 1, L, D) == L
    ensures WindowStart(i + 1, L, D) <= WindowEnd(i, L, D)
  {
    Arith.DivModUnique(D * L + D - 1, L, D - 1, D);
    assert (D - 1 + 1) * L == D * L;
    var b := (i + 1) * L;
    Arith.DivModSplit(b, D);
    Arith.DivMono(b, b + D - 1, D);
  }

  function PoolAt(xs: seq<real>, D: nat, i: nat): real
    requires |xs| > 0 && D > 0 && i < D
  {
    WindowBounds(i, |xs|, D);
    Seqs.Mean(xs[WindowStart(i, |xs|, D)..WindowEnd(i, |xs|, D)])
  }

  /** `F.adaptive_avg_pool1d` on one row: output `i` is the mean of window
      `i`. An empty row is rejected; an output size of 0 gives an empty
      result. Every output lies between the row's least and greatest value. */
  function Pool(xs: seq<real>, D: nat): (r: Result<seq<real>>)
    ensures r.Ok? <==> |xs| > 0
    ensures r.Ok? ==> |r.value| == D && forall i :: 0 <= i < D ==> Seqs.Min(xs) <= r.value[i] <= Seqs.Max(xs)
  {
    if |xs| == 0 then Err("adaptive_avg_pool1d: empty input")
    else
      PoolWithinRange(xs, D);
      Ok(seq(D, i requires 0 <= i < D => PoolAt(xs, D, i)))
  }

  lemma PoolWithinRange(xs: seq<real>, D: nat)
    requires |xs| > 0
    ensures forall i :: 0 <= i < D ==> Seqs.Min(xs) <= PoolAt(xs, D, i) <= Seqs.Max(xs)
  {
    forall i | 0 <= i < D
      ensures Seqs.Min(xs) <= PoolAt(xs, D, i) <= Seqs.Max(xs)
    {
      WindowBounds(i, |xs|, D);
      var w := xs[WindowStart(i, |xs|, D)..WindowEnd(i, |xs|, D)];
      assert Seqs.Bounded(w, Seqs.Min(xs), Seqs.Max(xs));
      Seqs.MeanBounded(w, Seqs.Min(xs), Seqs.Max(xs));
    }
  }

  /** Pooling a row to its own length changes nothing: every window is the
      single element at its position. */
  lemma PoolIdentity(xs: seq<real>)
    requires |xs| > 0
    ensures Pool(xs, |xs|) == Ok(xs)
  {
    var r := Pool(xs, |xs|).value;
    assert r == seq(|xs|, i requires 0 <= i < |xs| => PoolAt(xs, |xs|, i));
    forall i | 0 <= i < |xs|
      ensures r[i] == xs[i]
    {
      PoolIdentityAt(xs, i);
    }
    assert r == xs;
  }

  lemma PoolIdentityAt(xs: seq<real>, i: nat)
    requires i < |xs|
    ensures PoolAt(xs, |xs|, i) == xs[i]
  {
    var L := |xs|;
    Arith.DivModUnique(i * L, i, 0, L);
    assert (i + 1) * L + L - 1 == (i + 1) * L + (L - 1);
    Arith.DivModUnique((i + 1) * L + L - 1, i + 1, L - 1, L);
    assert WindowStart(i, L, L) == i && WindowEnd(i, L, L) == i + 1;
    var w := xs[i..i + 1];
    assert w == [xs[i]];
    assert w[..0] == [];
    assert Seqs.Sum(w) == xs[i];
  }

  /** Pooling keeps any common bound of the inputs. */
  lemma PoolBounded(xs: seq<real>, D: nat, lo: real, hi: real)
    requires |xs| > 0 && Seqs.Bounded(xs, lo, hi)
    ensures Seqs.Bounded(Pool(xs, D).value, lo, hi)
  {
    assert lo <= Seqs.Min(xs) && Seqs.Max(xs) <= hi;
  }

  /** All rows of a matrix lie in `[lo, hi]`. */
  predicate MatBounded(m: Mat, lo: real, hi: real)
  {
    forall n :: 0 <= n < |m| ==> Seqs.Bounded(m[n], lo, hi)
  }

  /** `MeanMapperad(D)` on the patch features of one layer, each patch
      flattened row-major into a vector of `F` values:
      `reshape(len, 1, -1)` fails for an empty batch, the pooling fails for
      empty vectors, and otherwise every patch vector is pooled to `D`
      values within its own range. */
  function MeanMapper(rows: Mat, N: nat, F: nat, D: nat): (r: Result<Mat>)
    requires IsMat(rows, N, F)
    ensures r.Ok? <==> N > 0 && F > 0
    ensures r.Ok? ==> IsMat(r.value, N, D)
    ensures r.Ok? ==> forall n :: 0 <= n < N ==> r.value[n] == Pool(rows[n], D).value
  {
    if N == 0 then Err("reshape: cannot infer -1 for an empty batch")
    else if F == 0 then Err("adaptive_avg_pool1d: empty input")
    else Ok(seq(N, n requires 0 <= n < N => Pool(rows[n], D).value))
  }

  /** Each pooled patch vector lies in the range of the patch vector it came from. */
  lemma MeanMapperRange(rows: Mat, N: nat, F: nat, D: nat, n: nat, i: nat)
    requires IsMat(rows, N, F) && N > 0 && F > 0 && n < N && i < D
    ensures MeanMapper(rows, N, F, D).Ok?
    ensures Seqs.Min(rows[n]) <= MeanMapper(rows, N, F, D).value[n][i] <= Seqs.Max(rows[n])
  {
  }

  /** One layer's input to `Preprocessingad`: the flattened patch features
      and their shape. */
  datatype Layer = Layer(rows: Mat, n: nat, f: nat)

  predicate WellShaped(layers: seq<Layer>)
  {
    forall i :: 0 <= i < |layers| ==> IsMat(layers[i].rows, layers[i].n, layers[i].f)
  }

  /** `torch.stack` needs every layer to contribute the same number of patches. */
  predicate Stackable(layers: seq<Layer>)
  {
    |layers| > 0 && forall i :: 0 <= i < |layers| ==> layers[i].n == layers[0].n && layers[i].n > 0 && layers[i].f > 0
  }

  function MapLayer(l: Layer, D: nat, n: nat, i: nat): (v: Vec)
    requires IsMat(l.rows, l.n, l.f) && l.n > 0 && l.f > 0 && n < l.n
    ensures |v| == D
  {
    MeanMapper(l.rows, l.n, l.f, D).value[n]
  }

  /** `Preprocessingad(D)`: one `MeanMapperad` per layer, stacked on axis 1
      into (N, layers, D). Fails when a mapper fails, when there is no layer,
      or when the layers disagree on N. */
  function Preprocess(layers: seq<Layer>, D: nat): (r: Result<T3>)
    requires WellShaped(layers)
    ensures r.Ok? <==> Stackable(layers)
    ensures r.Ok? ==> IsT3(r.value, layers[0].n, |layers|, D)
    ensures r.Ok? ==> forall n, i :: 0 <= n < layers[0].n && 0 <= i < |layers| ==>
      r.value[n][i] == MeanMapper(layers[i].rows, layers[i].n, layers[i].f, D).value[n]
  {
    if !Stackable(layers) then Err("stack: layers fail or disagree")
    else
      var N := layers[0].n;
      Ok(seq(N, n requires 0 <= n < N =>
        seq(|layers|, i requires 0 <= i < |layers| => MapLayer(layers[i], D, n, i))))
  }

  /** `Aggregatorad(T)` on an (N, M, D) tensor: every row's M*D values are
      pooled to T. `reshape(len, 1, -1)` fails for an empty batch and the
      pooling for empty rows. */
  function Aggregate(x: T3, N: nat, M: nat, D: nat, T: nat): (r: Result<Mat>)
    requires IsT3(x, N, M, D)
    ensures r.Ok? <==> N > 0 && M * D > 0
    ensures r.Ok? ==> IsMat(r.value, N, T)
    ensures r.Ok? ==> forall n :: 0 <= n < N ==> r.value[n] == Pool(Seqs.Flatten(x[n]), T).value
  {
    if N == 0 then Err("reshape: cannot infer -1 for an empty batch")
    else if M * D == 0 then Err("adaptive_avg_pool1d: empty input")
    else
      AggregateRows(x, N, M, D);
      Ok(seq(N, n requires 0 <= n < N => Pool(Seqs.Flatten(x[n]), T).value))
  }

  lemma AggregateRows(x: T3, N: nat, M: nat, D: nat)
    requires IsT3(x, N, M, D)
    ensures forall n :: 0 <= n < N ==> |Seqs.Flatten(x[n])| == M * D
  {
    forall n | 0 <= n < N
      ensures |Seqs.Flatten(x[n])| == M * D
    {
      assert Seqs.Rows(x[n], D);
      Seqs.FlattenLength(x[n], D);
    }
  }

  /** The embedding never leaves the range of the patch features: if every
      feature value of every layer lies in `[lo, hi]`, so does every value
      `Preprocessingad` and then `Aggregatorad` produce. */
  lemma EmbeddingBounded(layers: seq<Layer>, D: nat, T: nat, lo: real, hi: real)
    requires D > 0 && WellShaped(layers) && Stackable(layers)
    requires forall i :: 0 <= i < |layers| ==> MatBounded(layers[i].rows, lo, hi)
    ensures Preprocess(layers, D).Ok?
    ensures var pre := Preprocess(layers, D).value;
      && Aggregate(pre, layers[0].n, |layers|, D, T).Ok?
      && MatBounded(Aggregate(pre, layers[0].n, |layers|, D, T).value, lo, hi)
  {
    var N, M := layers[0].n, |layers|;
    var pre := Preprocess(layers, D).value;
    forall n | 0 <= n < N
      ensures Seqs.Bounded(Seqs.Flatten(pre[n]), lo, hi)
    {
      forall i | 0 <= i < M
        ensures Seqs.Bounded(pre[n][i], lo, hi)
      {
        var l := layers[i];
        PoolBounded(l.rows[n], D, lo, hi);
      }
      FlattenBounded(pre[n], lo, hi);
    }
    assert M * D > 0;
    AggregateRows(pre, N, M, D);
    var out := Aggregate(pre, N, M, D, T).value;
    forall n | 0 <= n < N
      ensures Seqs.Bounded(out[n], lo, hi)
    {
      PoolBounded(Seqs.Flatten(pre[n]), T, lo, hi);
    }
  }

  lemma FlattenBounded(xss: seq<seq<real>>, lo: real, hi: real)
    requires forall i :: 0 <= i < |xss| ==> Seqs.Bounded(xss[i], lo, hi)
    ensures Seqs.Bounded(Seqs.Flatten(xss), lo, hi)
  {
    forall j | 0 <= j < |Seqs.Flatten(xss)|
      ensures lo <= Seqs.Flatten(xss)[j] <= hi
    {
      var i := Seqs.FlattenSource(xss, j);
    }
  }
}
