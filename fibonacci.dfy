/**
 * The Fibonacci layout: a pinwheel subdivision in which each client in stack order takes
 * the primary part of the current region, and the remainder is split again, alternately
 * by height and by width, until the last client or a client whose region is at the cutoff.
 * That client also absorbs the remainder, so the placements tile the whole screen region.
 *
 * `Subdivision`, `Stop` and `Positions` give the result in closed form; the `Layout`
 * method computes it step by step, as penrose's `for` loop with `break` does, and is proved
 * to agree with it.
 */
module FibonacciLayout {
  import opened Wrappers
  import opened Geometry
  import opened Layouts

  /**
   * The (primary, remainder) pair in force when client `i` is considered: first a
   * side-by-side split of `r`; then the previous remainder is split, by height after an
   * even index and by width after an odd one.
   */
  function Subdivision(r: Rect, ratio: real, i: nat): (p: (Rect, Rect))
    requires InUnit(ratio)
  {
    if i == 0 then r.SplitAtWidthPerc(ratio).value
    else
      var rest := Subdivision(r, ratio, i - 1).1;
      if (i - 1) % 2 == 0 then rest.SplitAtHeightPerc(ratio).value
      else rest.SplitAtWidthPerc(ratio).value
  }

  /** Both regions of every step of the subdivision lie in `r`, and they do not overlap. */
  lemma {:induction false} SubdivisionInside(r: Rect, ratio: real, i: nat)
    requires InUnit(ratio)
    ensures var p := Subdivision(r, ratio, i);
      Within(p.0, r) && Within(p.1, r) && Separated(p.0, p.1)
  {
    if i > 0 {
      SubdivisionInside(r, ratio, i - 1);
    }
  }

  /** The region client `i` receives while the subdivision goes on. */
  function Primary(r: Rect, ratio: real, i: nat): Rect
    requires InUnit(ratio)
  {
    Subdivision(r, ratio, i).0
  }

  /**
   * The primary region of client `i` grown by the remainder along the axis of the split
   * that produced them: by width at an even index, by height at an odd one.
   */
  function Joined(i: nat, p: (Rect, Rect)): (j: Rect)
    ensures j.x == p.0.x && j.y == p.0.y && Within(p.0, j)
    ensures i % 2 == 0 && p.1.x == p.0.x + p.0.w && p.1.y == p.0.y && p.1.h == p.0.h ==> SideBySide(p.0, p.1, j)
    ensures i % 2 == 1 && p.1.y == p.0.y + p.0.h && p.1.x == p.0.x && p.1.w == p.0.w ==> Stacked(p.0, p.1, j)
  {
    if i % 2 == 0 then p.0.(w := p.0.w + p.1.w) else p.0.(h := p.0.h + p.1.h)
  }

  /**
   * The primary and remaining regions of client `i` lie side by side (even `i`) or one
   * above the other (odd `i`) and together form its joined region: at the start that is
   * `r` itself, and later the region that remained after client `i - 1`.
   */
  lemma SubdivisionJoins(r: Rect, ratio: real, i: nat)
    requires InUnit(ratio)
    ensures var p := Subdivision(r, ratio, i);
      && (i % 2 == 0 ==> SideBySide(p.0, p.1, Joined(i, p)))
      && (i % 2 == 1 ==> Stacked(p.0, p.1, Joined(i, p)))
      && (i == 0 ==> Joined(i, p) == r)
      && (i > 0 ==> Joined(i, p) == Subdivision(r, ratio, i - 1).1)
  {
  }

  /** Whether client `i` of `n` ends the subdivision: it is the last, or its region is at the cutoff. */
  predicate AtCutoff(n: nat, cutoff: nat, i: nat, primary: Rect) {
    i == n - 1 || primary.w <= cutoff || primary.h <= cutoff
  }

  /** The first index from `i` on at which the subdivision ends. */
  function Stop(cutoff: nat, ratio: real, n: nat, r: Rect, i: nat): (k: nat)
    requires InUnit(ratio) && i < n
    ensures i <= k < n
    ensures AtCutoff(n, cutoff, k, Primary(r, ratio, k))
    ensures forall j :: i <= j < k ==> !AtCutoff(n, cutoff, j, Primary(r, ratio, j))
    decreases n - i
  {
    if AtCutoff(n, cutoff, i, Primary(r, ratio, i)) then i
    else Stop(cutoff, ratio, n, r, i + 1)
  }

  /**
   * The placements of the stack `s` in `r`, in closed form: clients `0 .. k` in stack
   * order, where `k` ends the subdivision; the clients before `k` get their primary
   * region and client `k` the joined region.
   */
  function Positions(cutoff: nat, ratio: real, s: seq<Id>, r: Rect): (ps: seq<Placement>)
    requires InUnit(ratio)
    ensures |ps| <= |s|
    ensures forall k :: 0 <= k < |ps| ==> ps[k].id == s[k]
  {
    if |s| == 0 then []
    else
      var k := Stop(cutoff, ratio, |s|, r, 0);
      seq(k + 1, j requires 0 <= j <= k =>
        Placement(s[j], if j < k then Primary(r, ratio, j) else Joined(k, Subdivision(r, ratio, k))))
  }

  /** The closed form, when the subdivision is known to end at client `i`. */
  lemma PositionsEndingAt(cutoff: nat, ratio: real, s: seq<Id>, r: Rect, i: nat, ps: seq<Placement>)
    requires InUnit(ratio) && i < |s|
    requires AtCutoff(|s|, cutoff, i, Primary(r, ratio, i))
    requires forall k :: 0 <= k < i ==> !AtCutoff(|s|, cutoff, k, Primary(r, ratio, k))
    requires |ps| == i + 1 && ps[i] == Placement(s[i], Joined(i, Subdivision(r, ratio, i)))
    requires forall k :: 0 <= k < i ==> ps[k] == Placement(s[k], Primary(r, ratio, k))
    ensures ps == Positions(cutoff, ratio, s, r)
  {
    var k := Stop(cutoff, ratio, |s|, r, 0);
    assert k == i;
    var P := Positions(cutoff, ratio, s, r);
    assert |P| == i + 1;
    forall j | 0 <= j <= i ensures P[j] == ps[j] {
    }
  }

  /** The primary regions of the first `k` clients. */
  function Primaries(r: Rect, ratio: real, k: nat): (rs: seq<Rect>)
    requires InUnit(ratio)
    ensures |rs| == k && forall j :: 0 <= j < k ==> rs[j] == Primary(r, ratio, j)
  {
    seq(k, j requires 0 <= j < k => Primary(r, ratio, j))
  }

  lemma PrimariesGrow(r: Rect, ratio: real, k: nat)
    requires InUnit(ratio)
    ensures Primaries(r, ratio, k + 1) == Primaries(r, ratio, k) + [Primary(r, ratio, k)]
  {
    var a, b := Primaries(r, ratio, k + 1), Primaries(r, ratio, k) + [Primary(r, ratio, k)];
    assert |a| == |b|;
    forall j | 0 <= j < |a| ensures a[j] == b[j] {
    }
  }

  /** Splitting the joined region of client `k - 1` gives the primary regions of `k` clients and the joined region of client `k`. */
  lemma NextTiling(r: Rect, ratio: real, k: nat)
    requires InUnit(ratio) && k > 0
    ensures var p := Subdivision(r, ratio, k - 1);
      Primaries(r, ratio, k - 1) + [p.0, p.1] == Primaries(r, ratio, k) + [Joined(k, Subdivision(r, ratio, k))]
  {
    SubdivisionJoins(r, ratio, k);
    var p := Subdivision(r, ratio, k - 1);
    var a, b := Primaries(r, ratio, k - 1) + [p.0, p.1], Primaries(r, ratio, k) + [Joined(k, Subdivision(r, ratio, k))];
    assert |a| == |b|;
    forall j | 0 <= j < |a| ensures a[j] == b[j] {
    }
  }

  /**
   * After `k` clients, their primary regions and the region still to be divided
   * (the joined region of client `k`) lie in `r`, do not overlap, and cover `r`.
   */
  lemma {:induction false} SubdivisionTiles(r: Rect, ratio: real, k: nat)
    requires InUnit(ratio)
    ensures Tiles(Primaries(r, ratio, k) + [Joined(k, Subdivision(r, ratio, k))], r)
    decreases k
  {
    SubdivisionJoins(r, ratio, k);
    if k == 0 {
      assert Primaries(r, ratio, 0) + [Joined(0, Subdivision(r, ratio, 0))] == [r];
      UnionOne(r);
    } else {
      SubdivisionTiles(r, ratio, k - 1);
      SubdivisionJoins(r, ratio, k - 1);
      var p := Subdivision(r, ratio, k - 1);
      RefineLast(Primaries(r, ratio, k - 1), Joined(k - 1, p), p.0, p.1, r);
      NextTiling(r, ratio, k);
    }
  }

  /** Every Fibonacci placement lies in `r`, no two overlap, and together they cover `r`. */
  lemma PositionsTile(cutoff: nat, ratio: real, s: seq<Id>, r: Rect)
    requires InUnit(ratio) && |s| > 0
    ensures Tiles(Layouts.Regions(Positions(cutoff, ratio, s, r)), r)
  {
    var k := Stop(cutoff, ratio, |s|, r, 0);
    SubdivisionTiles(r, ratio, k);
    var a, b := Layouts.Regions(Positions(cutoff, ratio, s, r)), Primaries(r, ratio, k) + [Joined(k, Subdivision(r, ratio, k))];
    assert |a| == |b|;
    forall j | 0 <= j < |a| ensures a[j] == b[j] {
    }
    assert a == b;
  }

  /**
   * For a non-empty stack the placements end exactly at the first client that is the last
   * one or whose primary region is at most `cutoff` wide or high; an empty stack gets none.
   */
  lemma PositionsStopAtFirstCutoff(cutoff: nat, ratio: real, s: seq<Id>, r: Rect)
    requires InUnit(ratio)
    ensures var ps := Positions(cutoff, ratio, s, r);
      && (|s| == 0 <==> ps == [])
      && (|s| > 0 ==>
            && AtCutoff(|s|, cutoff, |ps| - 1, Primary(r, ratio, |ps| - 1))
            && forall j :: 0 <= j < |ps| - 1 ==>
                 !AtCutoff(|s|, cutoff, j, Primary(r, ratio, j)) && ps[j].rect == Primary(r, ratio, j))
  {
  }

  /** With distinct stack ids, no id is placed twice. */
  lemma PositionsDistinct(cutoff: nat, ratio: real, s: seq<Id>, r: Rect)
    requires InUnit(ratio) && Distinct(s)
    ensures Distinct(Ids(Positions(cutoff, ratio, s, r)))
  {
  }

  /**
   * The default Fibonacci layout on three clients in a 100 by 100 region gives the left
   * half to the first client, and the top and bottom quarters on the right to the others.
   */
  lemma ThreeClientsByDefault(a: Id, b: Id, c: Id)
    ensures Positions(40, 0.5, [a, b, c], Rect(0, 0, 100, 100))
         == [Placement(a, Rect(0, 0, 50, 100)), Placement(b, Rect(50, 0, 50, 50)), Placement(c, Rect(50, 50, 50, 50))]
  {
    var r := Rect(0, 0, 100, 100);
    assert Subdivision(r, 0.5, 0) == (Rect(0, 0, 50, 100), Rect(50, 0, 50, 100));
    assert Subdivision(r, 0.5, 1) == (Rect(50, 0, 50, 50), Rect(50, 50, 50, 50));
    assert Subdivision(r, 0.5, 2) == (Rect(50, 50, 25, 50), Rect(75, 50, 25, 50));
    assert Stop(40, 0.5, 3, r, 0) == 2;
  }

  /** The Fibonacci layout and its tunable state. */
  class Fibonacci {
    /** Below this width or height a region is no longer subdivided. */
    var cutoff: nat
    /** Fraction of a region given to the primary part of each split. */
    var ratio: real
    /** How far one ExpandMain or ShrinkMain message moves `ratio`. */
    var ratioStep: real

    /** The state under which every split of `Layout` succeeds; message handling keeps it. */
    ghost predicate Valid()
      reads this
    {
      InUnit(ratio) && ratioStep >= 0.0
    }

    /** The default layout: cutoff 40, ratio one half, step one tenth. */
    constructor Default()
      ensures cutoff == 40 && ratio == 0.5 && ratioStep == 0.1
      ensures Valid()
    {
      cutoff, ratio, ratioStep := 40, 0.5, 0.1;
    }

    /** A layout with the given parameters, taken as they are. */
    constructor (cutoff: nat, ratio: real, ratioStep: real)
      ensures this.cutoff == cutoff && this.ratio == ratio && this.ratioStep == ratioStep
    {
      this.cutoff, this.ratio, this.ratioStep := cutoff, ratio, ratioStep;
    }

    /** A short display label. */
    function Name(): (text: string)
      ensures 0 < |text| <= 4
    {
      "Fibo"
    }

    /** An independent copy with the same parameters. */
    method BoxedClone() returns (copy: Fibonacci)
      ensures fresh(copy)
      ensures copy.cutoff == cutoff && copy.ratio == ratio && copy.ratioStep == ratioStep
    {
      copy := new Fibonacci(cutoff, ratio, ratioStep);
    }

    /**
     * Place the clients of `s` in `r`. The ratio must be in [0, 1]: every split of the
     * subdivision is a fractional one and fails otherwise.
     */
    method Layout(s: seq<Id>, r: Rect) returns (replacement: Option<Fibonacci>, positions: seq<Placement>)
      requires InUnit(ratio)
      ensures replacement == None
      ensures positions == Positions(cutoff, ratio, s, r)
    {
      var n := |s|;
      positions := [];
      var split := r.SplitAtWidthPerc(ratio);
      var r1, r2 := split.value.0, split.value.1;
      var i := 0;
      while i < n
        invariant 0 <= i <= n && (n > 0 ==> i < n)
        invariant (r1, r2) == Subdivision(r, ratio, i)
        invariant |positions| == i
        invariant forall k :: 0 <= k < i ==> positions[k] == Placement(s[k], Primary(r, ratio, k))
        invariant forall k :: 0 <= k < i ==> !AtCutoff(n, cutoff, k, Primary(r, ratio, k))
      {
        var last: nat := n - 1;
        var atCutoff := i == last || r1.w <= cutoff || r1.h <= cutoff;
        if atCutoff {
          if i % 2 == 0 {
            r1 := r1.(w := r1.w + r2.w);
          } else {
            r1 := r1.(h := r1.h + r2.h);
          }
        }
        positions := positions + [Placement(s[i], r1)];
        if atCutoff {
          PositionsEndingAt(cutoff, ratio, s, r, i, positions);
          break;
        }
        if i % 2 == 0 {
          split := r2.SplitAtHeightPerc(ratio);
        } else {
          split := r2.SplitAtWidthPerc(ratio);
        }
        r1, r2 := split.value.0, split.value.1;
        i := i + 1;
      }
      replacement := None;
    }

    /**
     * Handle a message: ExpandMain and ShrinkMain move `ratio` by `ratioStep` and clamp it
     * to [0, 1]; any other message changes nothing. Never asks to be replaced.
     */
    method HandleMessage(m: Message) returns (replacement: Option<Fibonacci>)
      modifies this
      ensures replacement == None
      ensures ratio == Adjust(old(ratio), old(ratioStep), m)
      ensures cutoff == old(cutoff) && ratioStep == old(ratioStep)
      ensures old(Valid()) ==> Valid()
    {
      if m == ExpandMain {
        ratio := ratio + ratioStep;
        if ratio > 1.0 {
          ratio := 1.0;
        }
      } else if m == ShrinkMain {
        ratio := ratio - ratioStep;
        if ratio < 0.0 {
          ratio := 0.0;
        }
      }
      replacement := None;
    }
  }
}
