/** Layer widths of `Discriminator(in_planes, n_layers, hidden)`
    (simplenet_vit.py:99-115): `n_layers - 1` Linear/BatchNorm/LeakyReLU
    blocks followed by a bias-free Linear tail to one score. */
module Discriminator {

  import opened Results

  /** A `torch.nn.Linear(inW, outW)`. */
  datatype Linear = Linear(inW: nat, outW: nat)

  /** The body's Linear layers and the input width of the tail. */
  datatype Widths = Widths(body: seq<Linear>, tailIn: nat)

  /** `int(h // 1.5)`: the float floor-division by 1.5, which on a width is
      the integer `floor(2h / 3)`. */
  function Shrink(h: nat): (r: nat)
    ensures r == (2 * h) / 3
  {
    var q := (h as real) / 1.5;
    assert q == ((2 * h) as real) / 3.0;
    ShrinkFloor(h);
    q.Floor
  }

  lemma ShrinkFloor(h: nat)
    ensures (((2 * h) as real) / 3.0).Floor == (2 * h) / 3
  {
    var a, b := (2 * h) / 3, (2 * h) % 3;
    assert ((2 * h) as real) == (a as real) * 3.0 + (b as real);
    assert ((2 * h) as real) / 3.0 == (a as real) + (b as real) / 3.0;
  }

  /** The feature width is a chain: every layer reads what the previous
      one wrote, starting from `start`, and the tail reads the last width. */
  predicate ChainFrom(start: nat, body: seq<Linear>, tailIn: nat)
    decreases |body|
  {
    if |body| == 0 then tailIn == start
    else body[0].inW == start && ChainFrom(body[0].outW, body[1..], tailIn)
  }

  /** A discriminator over `in_planes` features can run its forward pass. */
  predicate WellChained(inPlanes: nat, w: Widths)
  {
    ChainFrom(inPlanes, w.body, w.tailIn)
  }

  /** Iterations `i .. n-1` of the constructor loop with `_hidden == cur`
      on entry. */
  function Blocks(inPlanes: nat, hidden: Option<nat>, i: nat, n: nat, cur: nat): (w: Widths)
    ensures |w.body| == if i < n then n - i else 0
    decreases n - i
  {
    if i >= n then Widths([], cur)
    else
      var inW := if i == 0 then inPlanes else cur;
      var outW := if hidden.None? then Shrink(cur) else hidden.value;
      var rest := Blocks(inPlanes, hidden, i + 1, n, outW);
      Widths([Linear(inW, outW)] + rest.body, rest.tailIn)
  }

  /** Number of body blocks: `range(n_layers - 1)`. */
  function BlockCount(nLayers: int): nat
  {
    if nLayers >= 1 then nLayers - 1 else 0
  }

  /** The constructor as written: `_hidden` starts at `hidden` when one is
      given, so without body blocks the tail is `Linear(hidden, 1)`. */
  function WidthsAsWritten(inPlanes: nat, nLayers: int, hidden: Option<nat>): Widths
  {
    var start := if hidden.None? then inPlanes else hidden.value;
    Blocks(inPlanes, hidden, 0, BlockCount(nLayers), start)
  }

  /** The constructor as evidently intended: `_hidden` starts at
      `in_planes`, so a discriminator without body blocks is
      `Linear(in_planes, 1)`. */
  function WidthsCorrected(inPlanes: nat, nLayers: int, hidden: Option<nat>): Widths
  {
    Blocks(inPlanes, hidden, 0, BlockCount(nLayers), inPlanes)
  }

  /** From the second iteration on, the blocks chain from `cur`. */
  lemma {:induction false} LaterBlocksChain(inPlanes: nat, hidden: Option<nat>, i: nat, n: nat, cur: nat)
    requires i >= 1
    ensures var w := Blocks(inPlanes, hidden, i, n, cur); ChainFrom(cur, w.body, w.tailIn)
    decreases n - i
  {
    if i < n {
      var outW := if hidden.None? then Shrink(cur) else hidden.value;
      LaterBlocksChain(inPlanes, hidden, i + 1, n, outW);
      var w := Blocks(inPlanes, hidden, i, n, cur);
      assert w.body[1..] == Blocks(inPlanes, hidden, i + 1, n, outW).body;
    }
  }

  /** The first iteration reads `in_planes` whatever `_hidden` was. */
  lemma FirstBlocksChain(inPlanes: nat, hidden: Option<nat>, n: nat, cur: nat)
    requires n >= 1
    ensures var w := Blocks(inPlanes, hidden, 0, n, cur); ChainFrom(inPlanes, w.body, w.tailIn)
  {
    var outW := if hidden.None? then Shrink(cur) else hidden.value;
    LaterBlocksChain(inPlanes, hidden, 1, n, outW);
    var w := Blocks(inPlanes, hidden, 0, n, cur);
    assert w.body[1..] == Blocks(inPlanes, hidden, 1, n, outW).body;
  }

  /** The written constructor builds a runnable network exactly when it has
      a body block, or `hidden` is absent or equal to `in_planes`. */
  lemma AsWrittenChainedIff(inPlanes: nat, nLayers: int, hidden: Option<nat>)
    ensures WellChained(inPlanes, WidthsAsWritten(inPlanes, nLayers, hidden))
        <==> nLayers >= 2 || hidden.None? || hidden.value == inPlanes
  {
    var start := if hidden.None? then inPlanes else hidden.value;
    if BlockCount(nLayers) >= 1 {
      FirstBlocksChain(inPlanes, hidden, BlockCount(nLayers), start);
    }
  }

  /** The input that shows it: 1536 features, `n_layers = 1` and
      `hidden = 1024` give a tail `Linear(1024, 1)` fed 1536 features. */
  lemma AsWrittenMismatch()
    ensures WidthsAsWritten(1536, 1, Some(1024)) == Widths([], 1024)
    ensures !WellChained(1536, WidthsAsWritten(1536, 1, Some(1024)))
  {
  }

  /** The corrected constructor always builds a runnable network. */
  lemma CorrectedChained(inPlanes: nat, nLayers: int, hidden: Option<nat>)
    ensures WellChained(inPlanes, WidthsCorrected(inPlanes, nLayers, hidden))
  {
    if BlockCount(nLayers) >= 1 {
      FirstBlocksChain(inPlanes, hidden, BlockCount(nLayers), inPlanes);
    }
  }

  /** The correction changes nothing the written constructor got right:
      wherever that one is runnable, both build the same widths. */
  lemma CorrectedAgrees(inPlanes: nat, nLayers: int, hidden: Option<nat>)
    requires WellChained(inPlanes, WidthsAsWritten(inPlanes, nLayers, hidden))
    ensures WidthsCorrected(inPlanes, nLayers, hidden) == WidthsAsWritten(inPlanes, nLayers, hidden)
  {
    AsWrittenChainedIff(inPlanes, nLayers, hidden);
    var start := if hidden.None? then inPlanes else hidden.value;
    if hidden.Some? && BlockCount(nLayers) >= 1 {
      var outW := hidden.value;
      assert Blocks(inPlanes, hidden, 0, BlockCount(nLayers), start).body[0] == Linear(inPlanes, outW);
      assert Blocks(inPlanes, hidden, 0, BlockCount(nLayers), inPlanes).body[0] == Linear(inPlanes, outW);
    }
  }

  lemma {:induction false} BlockWidthProfile(inPlanes: nat, hidden: Option<nat>, i: nat, n: nat, cur: nat, j: nat)
    requires i >= 1 || cur == inPlanes
    requires j < |Blocks(inPlanes, hidden, i, n, cur).body|
    ensures var l := Blocks(inPlanes, hidden, i, n, cur).body[j];
      l.outW == if hidden.None? then (2 * l.inW) / 3 else hidden.value
    decreases n - i
  {
    if j > 0 {
      var outW := if hidden.None? then Shrink(cur) else hidden.value;
      BlockWidthProfile(inPlanes, hidden, i + 1, n, outW, j - 1);
    }
  }

  /** The written and the corrected constructor build the same body blocks;
      they can differ only in the tail's input width. */
  lemma SameBody(inPlanes: nat, nLayers: int, hidden: Option<nat>)
    ensures WidthsAsWritten(inPlanes, nLayers, hidden).body == WidthsCorrected(inPlanes, nLayers, hidden).body
  {
    var n := BlockCount(nLayers);
    if hidden.Some? && n >= 1 {
      var h := hidden.value;
      assert WidthsAsWritten(inPlanes, nLayers, hidden).body
          == [Linear(inPlanes, h)] + Blocks(inPlanes, hidden, 1, n, h).body;
      assert WidthsCorrected(inPlanes, nLayers, hidden).body
          == [Linear(inPlanes, h)] + Blocks(inPlanes, hidden, 1, n, h).body;
    }
  }

  /** Without `hidden`, every block narrows its input to `floor(2/3)` of it;
      with `hidden = h`, every block outputs `h`. This holds for the written
      constructor and the corrected one alike. */
  lemma WidthProfile(inPlanes: nat, nLayers: int, hidden: Option<nat>, j: nat)
    requires j < |WidthsCorrected(inPlanes, nLayers, hidden).body|
    ensures var l := WidthsCorrected(inPlanes, nLayers, hidden).body[j];
      l.outW == if hidden.None? then (2 * l.inW) / 3 else hidden.value
    ensures var b := WidthsAsWritten(inPlanes, nLayers, hidden).body;
      j < |b| && b[j].outW == if hidden.None? then (2 * b[j].inW) / 3 else hidden.value
  {
    BlockWidthProfile(inPlanes, hidden, 0, BlockCount(nLayers), inPlanes, j);
    SameBody(inPlanes, nLayers, hidden);
  }
}
