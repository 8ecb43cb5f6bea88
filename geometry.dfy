/**
 * Integer rectangle geometry that the layouts rely on: the `Rect` value type and its
 * deterministic splitting operations. Each splitting operation is stated together with
 * the partition property the layouts depend on: the parts are adjacent, share the
 * relevant edges, and their widths or heights add up to the original.
 *
 * To speak about coverage, a rectangle denotes the finite set of integer pixel
 * positions it contains (`Cells`); a list of rectangles tiles a region when the
 * rectangles are pairwise separated and the union of their cells is the region's cells.
 */
module Geometry {

  /** The two ways a split or a partition can fail. */
  datatype GeometryError = InvalidRatio | InvalidSplit

  datatype Result<T> = Ok(value: T) | Err(error: GeometryError)

  /** A pixel position. */
  datatype Point = Point(x: int, y: int)

  /** An axis-aligned pixel region: top-left corner (x, y), width w and height h, all unsigned. */
  datatype Rect = Rect(x: nat, y: nat, w: nat, h: nat) {

    /** Split at an absolute width: `k` pixels on the left, the rest on the right. */
    function SplitAtWidth(k: nat): (res: Result<(Rect, Rect)>)
      ensures res.Ok? <==> k <= w
      ensures res.Err? ==> res.error == InvalidSplit
      ensures res.Ok? ==> res.value.0.w == k && SideBySide(res.value.0, res.value.1, this)
    {
      if k > w then Err(InvalidSplit)
      else Ok((Rect(x, y, k, h), Rect(x + k, y, w - k, h)))
    }

    /** Split at an absolute height: `k` rows of pixels on top, the rest below. */
    function SplitAtHeight(k: nat): (res: Result<(Rect, Rect)>)
      ensures res.Ok? <==> k <= h
      ensures res.Err? ==> res.error == InvalidSplit
      ensures res.Ok? ==> res.value.0.h == k && Stacked(res.value.0, res.value.1, this)
    {
      if k > h then Err(InvalidSplit)
      else Ok((Rect(x, y, w, k), Rect(x, y + k, w, h - k)))
    }

    /** Split side by side, the left part taking the fraction `p` of the width (rounded down). */
    function SplitAtWidthPerc(p: real): (res: Result<(Rect, Rect)>)
      ensures res.Ok? <==> InUnit(p)
      ensures res.Err? ==> res.error == InvalidRatio
      ensures res.Ok? ==> res.value.0.w == FloorPerc(w, p) && SideBySide(res.value.0, res.value.1, this)
    {
      if !InUnit(p) then Err(InvalidRatio) else SplitAtWidth(FloorPerc(w, p))
    }

    /** Split one above the other, the top part taking the fraction `p` of the height (rounded down). */
    function SplitAtHeightPerc(p: real): (res: Result<(Rect, Rect)>)
      ensures res.Ok? <==> InUnit(p)
      ensures res.Err? ==> res.error == InvalidRatio
      ensures res.Ok? ==> res.value.0.h == FloorPerc(h, p) && Stacked(res.value.0, res.value.1, this)
    {
      if !InUnit(p) then Err(InvalidRatio) else SplitAtHeight(FloorPerc(h, p))
    }

    /** Unconditional split into a left and a right half; an odd pixel goes to the right half. */
    function SplitAtMidWidth(): (res: (Rect, Rect))
      ensures res.0.w == w / 2 && SideBySide(res.0, res.1, this)
    {
      SplitAtWidth(w / 2).value
    }

    /** Unconditional split into a top and a bottom half; an odd pixel goes to the bottom half. */
    function SplitAtMidHeight(): (res: (Rect, Rect))
      ensures res.0.h == h / 2 && Stacked(res.0, res.1, this)
    {
      SplitAtHeight(h / 2).value
    }

    /**
     * `n` full-width rows from top to bottom, each `h / n` high except the last, which
     * also takes the remainder; no rows at all when `n` is 0.
     */
    function AsRows(n: nat): (rows: seq<Rect>)
      ensures |rows| == n
      ensures n > 0 ==> RowsOf(rows, this)
      ensures forall i :: 0 <= i < n - 1 ==> rows[i].h == h / n
    {
      if n == 0 then []
      else
        var rows := seq(n, i requires 0 <= i < n => Row(i, n));
        RowsFit(rows, n);
        rows
    }

    /**
     * `n` full-height columns from left to right, each `w / n` wide except the last, which
     * also takes the remainder; no columns at all when `n` is 0.
     */
    function AsColumns(n: nat): (cols: seq<Rect>)
      ensures |cols| == n
      ensures n > 0 ==> ColumnsOf(cols, this)
      ensures forall i :: 0 <= i < n - 1 ==> cols[i].w == w / n
    {
      if n == 0 then []
      else
        var cols := seq(n, i requires 0 <= i < n => Column(i, n));
        ColumnsFit(cols, n);
        cols
    }

    /** Row `i` of `n`. */
    function Row(i: nat, n: nat): Rect
      requires i < n
    {
      var q := h / n;
      MulDivBelow(h, n, i);
      Rect(x, y + i * q, w, if i < n - 1 then q else h - i * q)
    }

    /** Column `i` of `n`. */
    function Column(i: nat, n: nat): Rect
      requires i < n
    {
      var q := w / n;
      MulDivBelow(w, n, i);
      Rect(x + i * q, y, if i < n - 1 then q else w - i * q, h)
    }

    lemma RowsFit(rows: seq<Rect>, n: nat)
      requires 0 < n && |rows| == n
      requires forall i :: 0 <= i < n ==> rows[i] == Row(i, n)
      ensures RowsOf(rows, this)
      ensures forall i :: 0 <= i < n - 1 ==> rows[i].h == h / n
    {
      forall i | 0 <= i < n - 1
        ensures rows[i + 1].y == rows[i].y + rows[i].h
      {
        MulStep(i, h / n);
      }
    }

    lemma ColumnsFit(cols: seq<Rect>, n: nat)
      requires 0 < n && |cols| == n
      requires forall i :: 0 <= i < n ==> cols[i] == Column(i, n)
      ensures ColumnsOf(cols, this)
      ensures forall i :: 0 <= i < n - 1 ==> cols[i].w == w / n
    {
      forall i | 0 <= i < n - 1
        ensures cols[i + 1].x == cols[i].x + cols[i].w
      {
        MulStep(i, w / n);
      }
    }
  }

  lemma MulStep(i: nat, q: nat)
    ensures (i + 1) * q == i * q + q
  {
  }

  /** `i + 1` whole parts of `d / n` never exceed `d`, for any `i < n`. */
  lemma MulDivBelow(d: nat, n: nat, i: nat)
    requires i < n
    ensures i * (d / n) + d / n <= d
  {
    var q := d / n;
    assert d == n * q + d % n;
    MulStep(i, q);
    MulMonotone(i + 1, n, q);
  }

  lemma MulMonotone(a: nat, b: nat, q: nat)
    requires a <= b
    ensures a * q <= b * q
  {
    assert b * q == a * q + (b - a) * q;
  }

  predicate InUnit(p: real) {
    0.0 <= p <= 1.0
  }

  /** The fraction `p` of the length `d`, rounded down; never more than `d`. */
  function FloorPerc(d: nat, p: real): (k: nat)
    requires InUnit(p)
    ensures k <= d
  {
    assert d as real * p <= d as real;
    (d as real * p).Floor
  }

  /** `FloorPerc(d, p)` is the largest whole number of pixels not above `d * p`. */
  lemma FloorPercIsFloor(d: nat, p: real)
    requires InUnit(p)
    ensures FloorPerc(d, p) as real <= d as real * p < FloorPerc(d, p) as real + 1.0
  {
  }

  /** `a` lies immediately left of `b`, and together they form exactly `r`. */
  predicate SideBySide(a: Rect, b: Rect, r: Rect) {
    && a.x == r.x && a.y == r.y && a.h == r.h
    && b.x == r.x + a.w && b.y == r.y && b.h == r.h
    && a.w + b.w == r.w
  }

  /** `a` lies immediately above `b`, and together they form exactly `r`. */
  predicate Stacked(a: Rect, b: Rect, r: Rect) {
    && a.x == r.x && a.y == r.y && a.w == r.w
    && b.x == r.x && b.y == r.y + a.h && b.w == r.w
    && a.h + b.h == r.h
  }

  /** Full-width rows of `r`, each starting where the previous one ends, from `r`'s top to its bottom. */
  predicate RowsOf(rows: seq<Rect>, r: Rect) {
    && |rows| > 0
    && (forall i :: 0 <= i < |rows| ==> rows[i].x == r.x && rows[i].w == r.w)
    && rows[0].y == r.y
    && (forall i :: 0 <= i < |rows| - 1 ==> rows[i + 1].y == rows[i].y + rows[i].h)
    && rows[|rows| - 1].y + rows[|rows| - 1].h == r.y + r.h
  }

  /** Full-height columns of `r`, each starting where the previous one ends, from `r`'s left to its right. */
  predicate ColumnsOf(cols: seq<Rect>, r: Rect) {
    && |cols| > 0
    && (forall i :: 0 <= i < |cols| ==> cols[i].y == r.y && cols[i].h == r.h)
    && cols[0].x == r.x
    && (forall i :: 0 <= i < |cols| - 1 ==> cols[i + 1].x == cols[i].x + cols[i].w)
    && cols[|cols| - 1].x + cols[|cols| - 1].w == r.x + r.w
  }

  /** Whether pixel `p` lies in `r`. */
  predicate Covers(r: Rect, p: Point) {
    r.x <= p.x < r.x + r.w && r.y <= p.y < r.y + r.h
  }

  /** The pixels of `r`. */
  ghost function Cells(r: Rect): (c: set<Point>)
    ensures forall p :: p in c <==> Covers(r, p)
  {
    var c := set px: int, py: int | r.x <= px < r.x + r.w && r.y <= py < r.y + r.h :: Point(px, py);
    assert forall p :: Covers(r, p) ==> p in c by {
      forall p | Covers(r, p) ensures p in c {
        assert p == Point(p.x, p.y);
      }
    }
    c
  }

  /** The pixels covered by at least one of `rs`. */
  ghost function Union(rs: seq<Rect>): set<Point> {
    if |rs| == 0 then {} else Union(rs[..|rs| - 1]) + Cells(rs[|rs| - 1])
  }

  /** A pixel is in the union exactly when one of the rectangles covers it. */
  lemma {:induction false} InUnion(rs: seq<Rect>, p: Point)
    ensures p in Union(rs) <==> exists i :: 0 <= i < |rs| && Covers(rs[i], p)
    decreases |rs|
  {
    if |rs| > 0 {
      var pre := rs[..|rs| - 1];
      InUnion(pre, p);
      assert forall i :: 0 <= i < |pre| ==> pre[i] == rs[i];
    }
  }

  /** The union of a concatenation is the union of the unions. */
  lemma {:induction false} UnionConcat(xs: seq<Rect>, ys: seq<Rect>)
    ensures Union(xs + ys) == Union(xs) + Union(ys)
    decreases |ys|
  {
    if |ys| == 0 {
      assert xs + ys == xs;
    } else {
      var ys' := ys[..|ys| - 1];
      UnionConcat(xs, ys');
      assert (xs + ys)[..|xs + ys| - 1] == xs + ys';
    }
  }

  lemma UnionOne(a: Rect)
    ensures Union([a]) == Cells(a)
  {
    assert [a][..0] == [];
  }

  /** `a` lies entirely inside `r` (edges included). */
  predicate Within(a: Rect, r: Rect) {
    r.x <= a.x && a.x + a.w <= r.x + r.w && r.y <= a.y && a.y + a.h <= r.y + r.h
  }

  /** `a` and `b` share no pixel: one of them is empty, or they lie on opposite sides of a line. */
  predicate Separated(a: Rect, b: Rect) {
    || a.w == 0 || a.h == 0 || b.w == 0 || b.h == 0
    || a.x + a.w <= b.x || b.x + b.w <= a.x
    || a.y + a.h <= b.y || b.y + b.h <= a.y
  }

  predicate PairwiseSeparated(rs: seq<Rect>) {
    forall i, j :: 0 <= i < j < |rs| ==> Separated(rs[i], rs[j])
  }

  /** `rs` lie inside `r`, do not overlap, and together cover every pixel of `r`. */
  ghost predicate Tiles(rs: seq<Rect>, r: Rect) {
    && (forall i :: 0 <= i < |rs| ==> Within(rs[i], r))
    && PairwiseSeparated(rs)
    && Union(rs) == Cells(r)
  }

  /** Separation is exactly the absence of a common pixel. */
  lemma SeparatedIffDisjoint(a: Rect, b: Rect)
    ensures Separated(a, b) <==> Cells(a) !! Cells(b)
  {
    if !Separated(a, b) {
      var p := Point(if a.x < b.x then b.x else a.x, if a.y < b.y then b.y else a.y);
      assert p in Cells(a) && p in Cells(b);
    }
  }

  /** Containment is exactly inclusion of pixels, for a rectangle that has any. */
  lemma WithinIffSubset(a: Rect, r: Rect)
    requires a.w > 0 && a.h > 0
    ensures Within(a, r) <==> Cells(a) <= Cells(r)
  {
    if !Within(a, r) {
      var p :=
        if a.x < r.x || a.y < r.y then Point(a.x, a.y)
        else Point(a.x + a.w - 1, a.y + a.h - 1);
      assert p in Cells(a) && p !in Cells(r);
    }
  }

  /** Two side-by-side halves cover exactly the pixels of the whole. */
  lemma SideBySideCells(a: Rect, b: Rect, r: Rect)
    requires SideBySide(a, b, r)
    ensures Cells(a) + Cells(b) == Cells(r)
  {
  }

  /** Two stacked halves cover exactly the pixels of the whole. */
  lemma StackedCells(a: Rect, b: Rect, r: Rect)
    requires Stacked(a, b, r)
    ensures Cells(a) + Cells(b) == Cells(r)
  {
  }

  /** Rectangles inside two separated rectangles are separated. */
  lemma SeparatedInside(a: Rect, b: Rect, ra: Rect, rb: Rect)
    requires Separated(ra, rb) && Within(a, ra) && Within(b, rb)
    ensures Separated(a, b)
  {
  }

  /**
   * Replacing one tile of a tiling by two separated rectangles inside it that cover
   * its pixels gives a tiling again.
   */
  lemma RefineTile(rs: seq<Rect>, i: nat, a: Rect, b: Rect, r: Rect)
    requires Tiles(rs, r) && i < |rs|
    requires Within(a, rs[i]) && Within(b, rs[i]) && Separated(a, b)
    requires Cells(a) + Cells(b) == Cells(rs[i])
    ensures Tiles(rs[..i] + [a, b] + rs[i + 1..], r)
  {
    RefineUnion(rs, i, a, b);
    RefinePlacement(rs, i, a, b, r);
  }

  /**
   * Rectangles inside `r` that do not overlap tile `r` as soon as every pixel of `r`
   * is covered by one of them.
   */
  lemma TilesByPoints(rs: seq<Rect>, r: Rect)
    requires forall i :: 0 <= i < |rs| ==> Within(rs[i], r)
    requires PairwiseSeparated(rs)
    requires forall p :: Covers(r, p) ==> exists i :: 0 <= i < |rs| && Covers(rs[i], p)
    ensures Tiles(rs, r)
  {
    forall p ensures p in Union(rs) <==> p in Cells(r) {
      InUnion(rs, p);
    }
  }

  /** Splitting the last tile of a tiling in two, side by side or stacked, gives a tiling again. */
  lemma RefineLast(rs: seq<Rect>, last: Rect, a: Rect, b: Rect, r: Rect)
    requires Tiles(rs + [last], r)
    requires SideBySide(a, b, last) || Stacked(a, b, last)
    ensures Tiles(rs + [a, b], r)
  {
    var t := rs + [last];
    if SideBySide(a, b, last) {
      SideBySideCells(a, b, last);
    } else {
      StackedCells(a, b, last);
    }
    RefineTile(t, |rs|, a, b, r);
    assert t[..|rs|] == rs;
    assert t[|rs| + 1..] == [];
    assert t[..|rs|] + [a, b] + t[|rs| + 1..] == rs + [a, b];
  }

  lemma RefineUnion(rs: seq<Rect>, i: nat, a: Rect, b: Rect)
    requires i < |rs| && Cells(a) + Cells(b) == Cells(rs[i])
    ensures Union(rs[..i] + [a, b] + rs[i + 1..]) == Union(rs)
  {
    var pre, post := rs[..i], rs[i + 1..];
    assert rs == pre + [rs[i]] + post;
    UnionSplice(pre, [rs[i]], post);
    UnionOne(rs[i]);
    UnionSplice(pre, [a, b], post);
    UnionPair(a, b);
  }

  lemma UnionSplice(pre: seq<Rect>, mid: seq<Rect>, post: seq<Rect>)
    ensures Union(pre + mid + post) == Union(pre) + Union(mid) + Union(post)
  {
    UnionConcat(pre + mid, post);
    UnionConcat(pre, mid);
  }

  lemma UnionPair(a: Rect, b: Rect)
    ensures Union([a, b]) == Cells(a) + Cells(b)
  {
    assert [a, b] == [a] + [b];
    UnionConcat([a], [b]);
    UnionOne(a);
    UnionOne(b);
  }

  lemma RefinePlacement(rs: seq<Rect>, i: nat, a: Rect, b: Rect, r: Rect)
    requires i < |rs| && (forall j :: 0 <= j < |rs| ==> Within(rs[j], r)) && PairwiseSeparated(rs)
    requires Within(a, rs[i]) && Within(b, rs[i]) && Separated(a, b)
    ensures var t := rs[..i] + [a, b] + rs[i + 1..];
      (forall j :: 0 <= j < |t| ==> Within(t[j], r)) && PairwiseSeparated(t)
  {
    var t := rs[..i] + [a, b] + rs[i + 1..];
    forall j | 0 <= j < |t|
      ensures Source(i, j) < |rs| && Within(t[j], rs[Source(i, j)])
    {
      if j < i {
        assert t[j] == rs[j];
      } else if j > i + 1 {
        assert t[j] == rs[j - 1];
      }
    }
    forall j, k | 0 <= j < k < |t|
      ensures Separated(t[j], t[k])
    {
      if Source(i, j) != Source(i, k) {
        SeparatedInside(t[j], t[k], rs[Source(i, j)], rs[Source(i, k)]);
      }
    }
  }

  /** The index in the original list of the tile that element `j` of a refined list lies in. */
  function Source(i: nat, j: nat): nat {
    if j <= i then j else if j == i + 1 then i else j - 1
  }

  /** A rectangle inside `r` is separated from whatever `r` is separated from. */
  lemma SeparatedWithin(a: Rect, b: Rect, r: Rect)
    requires Separated(a, r) && Within(b, r)
    ensures Separated(a, b)
  {
  }
}
