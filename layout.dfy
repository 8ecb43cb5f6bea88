/**
 * What both tiling layouts share: window ids, placements, the runtime messages a layout
 * understands, and the ratio adjustment each layout performs when it handles one.
 */
module Layouts {
  import opened Geometry

  /** An opaque window id. */
  type Id = nat

  /** A window id paired with the region it is given. */
  datatype Placement = Placement(id: Id, rect: Rect)

  /**
   * The messages a layout can receive. Only the two main-area commands mean anything
   * to the layouts here; every other kind of message is `Other`.
   */
  datatype Message = ExpandMain | ShrinkMain | Other

  /** Whether the ids are pairwise distinct, as the ids of a window stack are. */
  predicate Distinct(ids: seq<Id>) {
    forall i, j :: 0 <= i < j < |ids| ==> ids[i] != ids[j]
  }

  /** The ids of a placement list, in order. */
  function Ids(ps: seq<Placement>): (ids: seq<Id>)
    ensures |ids| == |ps| && forall k :: 0 <= k < |ps| ==> ids[k] == ps[k].id
  {
    seq(|ps|, k requires 0 <= k < |ps| => ps[k].id)
  }

  /** The regions of a placement list, in order. */
  function Regions(ps: seq<Placement>): (rs: seq<Rect>)
    ensures |rs| == |ps| && forall k :: 0 <= k < |ps| ==> rs[k] == ps[k].rect
  {
    seq(|ps|, k requires 0 <= k < |ps| => ps[k].rect)
  }

  /**
   * The ratio after handling `m`: ExpandMain adds `step` and caps the sum at 1,
   * ShrinkMain subtracts `step` and raises the difference to 0 when it falls below,
   * and any other message leaves the ratio as it was.
   */
  function Adjust(ratio: real, step: real, m: Message): (r: real)
    ensures m.Other? ==> r == ratio
    ensures m.ExpandMain? ==> r <= 1.0 && (ratio + step <= 1.0 ==> r == ratio + step) && (ratio + step > 1.0 ==> r == 1.0)
    ensures m.ShrinkMain? ==> r >= 0.0 && (ratio - step >= 0.0 ==> r == ratio - step) && (ratio - step < 0.0 ==> r == 0.0)
    ensures InUnit(ratio) && step >= 0.0 ==> InUnit(r) && ratio - step <= r <= ratio + step
  {
    match m
    case ExpandMain => if ratio + step > 1.0 then 1.0 else ratio + step
    case ShrinkMain => if ratio - step < 0.0 then 0.0 else ratio - step
    case Other => ratio
  }

  /** The ratio after handling each of `ms` in turn. */
  function AdjustAll(ratio: real, step: real, ms: seq<Message>): (r: real)
    ensures InUnit(ratio) && step >= 0.0 ==> InUnit(r)
    decreases |ms|
  {
    if ms == [] then ratio else AdjustAll(Adjust(ratio, step, ms[0]), step, ms[1..])
  }

  function Min(a: real, b: real): real {
    if a <= b then a else b
  }

  function Max(a: real, b: real): real {
    if a <= b then b else a
  }

  /** `k` copies of the message `m`. */
  function Repeat(m: Message, k: nat): (ms: seq<Message>)
    ensures |ms| == k && forall i :: 0 <= i < k ==> ms[i] == m
  {
    seq(k, i => m)
  }

  /** `k` ExpandMain messages raise the ratio by `k` steps, never past 1. */
  lemma {:induction false} ExpandRepeatedly(ratio: real, step: real, k: nat)
    requires ratio <= 1.0 && step >= 0.0
    ensures AdjustAll(ratio, step, Repeat(ExpandMain, k)) == Min(ratio + k as real * step, 1.0)
    decreases k
  {
    var ms := Repeat(ExpandMain, k);
    if k == 0 {
      assert ms == [];
    } else {
      assert ms[1..] == Repeat(ExpandMain, k - 1);
      var next := Adjust(ratio, step, ExpandMain);
      assert AdjustAll(ratio, step, ms) == AdjustAll(next, step, ms[1..]);
      ExpandRepeatedly(next, step, k - 1);
      StepsAdd(k - 1, step);
      if ratio + step > 1.0 {
        assert next == 1.0;
      } else {
        assert next == ratio + step;
      }
    }
  }

  /** `k` ShrinkMain messages lower the ratio by `k` steps, never below 0. */
  lemma {:induction false} ShrinkRepeatedly(ratio: real, step: real, k: nat)
    requires ratio >= 0.0 && step >= 0.0
    ensures AdjustAll(ratio, step, Repeat(ShrinkMain, k)) == Max(ratio - k as real * step, 0.0)
    decreases k
  {
    var ms := Repeat(ShrinkMain, k);
    if k == 0 {
      assert ms == [];
    } else {
      assert ms[1..] == Repeat(ShrinkMain, k - 1);
      var next := Adjust(ratio, step, ShrinkMain);
      assert AdjustAll(ratio, step, ms) == AdjustAll(next, step, ms[1..]);
      ShrinkRepeatedly(next, step, k - 1);
      StepsAdd(k - 1, step);
      if ratio - step < 0.0 {
        assert next == 0.0;
      } else {
        assert next == ratio - step;
      }
    }
  }

  lemma StepsAdd(k: nat, step: real)
    requires step >= 0.0
    ensures k as real * step + step == (k + 1) as real * step
    ensures k as real * step >= 0.0
  {
  }

  /** Messages of any other kind, however many, leave the ratio unchanged. */
  lemma {:induction false} OthersIgnored(ratio: real, step: real, ms: seq<Message>)
    requires forall i :: 0 <= i < |ms| ==> ms[i].Other?
    ensures AdjustAll(ratio, step, ms) == ratio
    decreases |ms|
  {
    if ms != [] {
      OthersIgnored(ratio, step, ms[1..]);
    }
  }

  /** Without a non-negative step the bound is lost: ExpandMain with a negative step can leave [0, 1]. */
  lemma NegativeStepEscapes()
    ensures InUnit(0.0) && !InUnit(Adjust(0.0, -0.1, ExpandMain))
  {
  }
}
