/** Best-record selection across meta-epochs in `SimpleNet.train`
    (simplenet_vit.py:708-744): after every epoch's evaluation the record
    (image AUROC, pixel AUROC, PRO) is adopted, replaced or kept, and the
    discriminator weights are snapshotted whenever it changes. */
module Selection {

  import opened Results

  /** One epoch's evaluation: image AUROC, pixel AUROC and PRO. */
  datatype Triple = Triple(auroc: real, pixel: real, pro: real)

  /** The record and the epoch whose weights `update_state_dict` saved last. */
  datatype Best = Best(record: Triple, snapshot: nat)

  /** `a` is no better than `b` by (image AUROC, then pixel AUROC). */
  predicate NoBetter(a: Triple, b: Triple)
  {
    a.auroc < b.auroc || (a.auroc == b.auroc && a.pixel <= b.pixel)
  }

  /** One iteration of the loop body for epoch `epoch` with evaluation `t`:
      the new state and whether `update_state_dict` ran. The snapshot is
      refreshed exactly when the record changes. */
  function Step(best: Option<Best>, t: Triple, epoch: nat): (r: (Option<Best>, bool))
    ensures r.0.Some?
    ensures r.1 <==> best.None? || r.0.value.record != best.value.record
    ensures r.1 ==> r.0.value.snapshot == epoch
    ensures !r.1 ==> r.0 == best
  {
    match best
    case None => (Some(Best(t, epoch)), true)
    case Some(b) =>
      if t.auroc > b.record.auroc then (Some(Best(t, epoch)), true)
      else if t.auroc == b.record.auroc && t.pixel > b.record.pixel then
        (Some(Best(Triple(b.record.auroc, t.pixel, t.pro), epoch)), true)
      else (best, false)
  }

  /** The state after the epochs `ts` (a left fold of `Step`). */
  function Select(ts: seq<Triple>): Option<Best>
  {
    if |ts| == 0 then None
    else Step(Select(ts[..|ts| - 1]), ts[|ts| - 1], |ts| - 1).0
  }

  /** The record is the earliest lexicographic maximum by (image AUROC,
      pixel AUROC), and the snapshot holds the weights of that very epoch. */
  predicate EarliestBest(ts: seq<Triple>, b: Best)
  {
    && b.snapshot < |ts|
    && b.record == ts[b.snapshot]
    && (forall i :: 0 <= i < |ts| ==> NoBetter(ts[i], b.record))
    && (forall i :: 0 <= i < b.snapshot ==> !NoBetter(b.record, ts[i]))
  }

  /** No epoch leaves no record; otherwise the record is the earliest best epoch. */
  lemma {:induction false} SelectIsEarliestBest(ts: seq<Triple>)
    ensures Select(ts).None? <==> |ts| == 0
    ensures Select(ts).Some? ==> EarliestBest(ts, Select(ts).value)
  {
    if |ts| > 0 {
      var init := ts[..|ts| - 1];
      var t := ts[|ts| - 1];
      SelectIsEarliestBest(init);
      assert forall i :: 0 <= i < |init| ==> init[i] == ts[i];
      var prev := Select(init);
      var b := Select(ts).value;
      if prev.Some? {
        var p := prev.value;
        if t.auroc > p.record.auroc {
          assert b == Best(t, |ts| - 1);
          forall i | 0 <= i < |ts|
            ensures NoBetter(ts[i], b.record)
          {
            if i < |init| {
              assert NoBetter(init[i], p.record);
            }
          }
          forall i | 0 <= i < b.snapshot
            ensures !NoBetter(b.record, ts[i])
          {
            assert NoBetter(init[i], p.record);
          }
        } else if t.auroc == p.record.auroc && t.pixel > p.record.pixel {
          assert b.record == t;
          forall i | 0 <= i < |ts|
            ensures NoBetter(ts[i], b.record)
          {
            if i < |init| {
              assert NoBetter(init[i], p.record);
            }
          }
          forall i | 0 <= i < b.snapshot
            ensures !NoBetter(b.record, ts[i])
          {
            assert NoBetter(init[i], p.record);
          }
        } else {
          assert b == p;
        }
      }
    }
  }

  /** The three cases of the loop body, from the second epoch on. */
  lemma StepCases(b: Best, t: Triple, epoch: nat)
    ensures t.auroc > b.record.auroc ==> Step(Some(b), t, epoch).0 == Some(Best(t, epoch))
    ensures t.auroc == b.record.auroc && t.pixel > b.record.pixel ==>
      Step(Some(b), t, epoch).0 == Some(Best(Triple(b.record.auroc, t.pixel, t.pro), epoch))
    ensures NoBetter(t, b.record) ==> Step(Some(b), t, epoch) == (Some(b), false)
  {
  }

  /** Keys `update_state_dict` writes: the discriminator, plus the
      pre-projection when one is configured. */
  function UpdateKeys(preProj: int): set<string>
  {
    {"discriminator"} + (if preProj > 0 then {"pre_projection"} else {})
  }

  /** Keys of the checkpoint saved after the epochs `ts`: `state_dict`
      starts empty and gains `UpdateKeys` on every update. */
  function CheckpointKeys(ts: seq<Triple>, preProj: int): (keys: set<string>)
    ensures "discriminator" in keys <==> |ts| > 0
    ensures "pre_projection" in keys <==> |ts| > 0 && preProj > 0
    ensures keys <= {"discriminator", "pre_projection"}
  {
    if |ts| == 0 then {}
    else
      var prev := Select(ts[..|ts| - 1]);
      var before := CheckpointKeys(ts[..|ts| - 1], preProj);
      var step := Step(prev, ts[|ts| - 1], |ts| - 1);
      if step.1 then before + UpdateKeys(preProj)
      else
        SelectIsEarliestBest(ts[..|ts| - 1]);
        before
  }

  /** Three epochs: (0.80, 0.70, 0.5), (0.85, 0.60, 0.4), (0.85, 0.65, 0.6).
      The second beats the first on image AUROC; the third ties it and wins
      on pixel AUROC, so the record is (0.85, 0.65, 0.6) from epoch 2. */
  lemma SelectExample()
    ensures Select([Triple(0.80, 0.70, 0.5), Triple(0.85, 0.60, 0.4), Triple(0.85, 0.65, 0.6)])
         == Some(Best(Triple(0.85, 0.65, 0.6), 2))
  {
    var ts := [Triple(0.80, 0.70, 0.5), Triple(0.85, 0.60, 0.4), Triple(0.85, 0.65, 0.6)];
    assert ts[..2][..1] == [Triple(0.80, 0.70, 0.5)];
    assert ts[..2] == [Triple(0.80, 0.70, 0.5), Triple(0.85, 0.60, 0.4)];
    assert [Triple(0.80, 0.70, 0.5)][..0] == [];
  }
}
