/**
 * The Tatami layout: a fixed pattern for up to six clients. With two or more clients the
 * first takes a main region on the left, as wide as the ratio says; the others share the
 * side region to its right in a pattern that depends on how many there are. Clients
 * after the sixth are not placed.
 *
 * `Template` gives the regions for a number of clients, `Positions` pairs them with the
 * stack, and the `Shape` lemmas spell out each pattern in coordinates. With up to five
 * clients the regions tile the screen region; with six they leave a strip at the top
 * right uncovered whenever the side region's width is not a multiple of three.
 */
module TatamiLayout {
  import opened Wrappers
  import opened Geometry
  import opened Layouts

  /** The most clients that are placed. */
  const MaxClients: nat := 6

  /** How many of `len` clients are placed. */
  function ClientCount(len: nat): (n: nat)
    ensures n <= MaxClients && n <= len && (n == len || n == MaxClients)
  {
    if len < MaxClients then len else MaxClients
  }

  /**
   * The width of the main region: `w * ratio` converted to an unsigned integer, which
   * rounds down and turns a negative product into 0.
   */
  function MainWidth(w: nat, ratio: real): (k: nat)
    ensures w as real * ratio < 0.0 ==> k == 0
    ensures w as real * ratio >= 0.0 ==> k as real <= w as real * ratio < k as real + 1.0
  {
    if w as real * ratio < 0.0 then 0 else (w as real * ratio).Floor
  }

  /**
   * Whether the layout of `n` clients can be made: the main split, made for two or more
   * clients, needs a main width no larger than `r.w`.
   */
  predicate MainFits(n: nat, ratio: real, r: Rect) {
    n >= 2 ==> MainWidth(r.w, ratio) <= r.w
  }

  /** The main region on the left and the side region to its right. */
  function SplitMain(ratio: real, r: Rect): (parts: (Rect, Rect))
    requires MainWidth(r.w, ratio) <= r.w
    ensures parts.0.w == MainWidth(r.w, ratio) && SideBySide(parts.0, parts.1, r)
  {
    r.SplitAtWidth(MainWidth(r.w, ratio)).value
  }

  /** The regions for `n` clients, in stack order. */
  function Template(n: nat, ratio: real, r: Rect): (rs: seq<Rect>)
    requires n <= MaxClients && MainFits(n, ratio, r)
    ensures |rs| == n
  {
    if n == 0 then []
    else if n == 1 then [r]
    else if n == 2 then
      var (r1, r2) := SplitMain(ratio, r);
      [r1, r2]
    else if n == 3 then
      var (r1, side) := SplitMain(ratio, r);
      var (r2, r3) := side.SplitAtMidHeight();
      [r1, r2, r3]
    else if n == 4 then
      var (r1, side) := SplitMain(ratio, r);
      var (top, r4) := side.SplitAtMidHeight();
      var (r2, r3) := top.SplitAtMidWidth();
      [r1, r2, r3, r4]
    else if n == 5 then
      var (r1, side) := SplitMain(ratio, r);
      var rows := side.AsRows(4);
      var rmid := rows[1].(h := rows[1].h + rows[2].h);
      var (r3, r4) := rmid.SplitAtMidWidth();
      [r1, rows[0], r3, r4, rows[3]]
    else
      var (r1, side) := SplitMain(ratio, r);
      var cols := side.AsColumns(3);
      var h := r1.h / 4;
      var r2 := cols[0].(h := cols[0].h - h);
      var r4 := cols[1].(h := cols[1].h - 2 * h, y := cols[1].y + h);
      var r5 := cols[2].(h := cols[2].h - h, y := cols[2].y + h);
      var r3 := Rect(r2.x + r2.w, r2.y, r2.w * 2, h);
      var r6 := Rect(r2.x, r2.y + r2.h, r2.w * 2, h);
      [r1, r2, r3, r4, r5, r6]
  }

  /** The first `ClientCount(|s|)` clients of `s`, each with its region of the template. */
  function Positions(ratio: real, s: seq<Id>, r: Rect): (ps: seq<Placement>)
    requires MainFits(ClientCount(|s|), ratio, r)
    ensures |ps| == ClientCount(|s|)
    ensures forall j :: 0 <= j < |ps| ==> ps[j].id == s[j]
  {
    var n := ClientCount(|s|);
    var rs := Template(n, ratio, r);
    seq(n, j requires 0 <= j < n => Placement(s[j], rs[j]))
  }

  /** The regions of the placements are the template for the number of clients placed. */
  lemma RegionsAreTemplate(ratio: real, s: seq<Id>, r: Rect)
    requires MainFits(ClientCount(|s|), ratio, r)
    ensures Layouts.Regions(Positions(ratio, s, r)) == Template(ClientCount(|s|), ratio, r)
  {
    var a, b := Layouts.Regions(Positions(ratio, s, r)), Template(ClientCount(|s|), ratio, r);
    assert |a| == |b|;
    forall j | 0 <= j < |a| ensures a[j] == b[j] {
    }
  }

  /** A ratio of at most 1 never makes the main region wider than the screen region. */
  lemma MainFitsUpToOne(n: nat, ratio: real, r: Rect)
    requires ratio <= 1.0
    ensures MainFits(n, ratio, r)
  {
    if r.w as real * ratio >= 0.0 {
      assert r.w as real * ratio <= r.w as real;
    }
  }

  /** A ratio above 1 whose excess is worth at least one pixel makes the main split fail. */
  lemma MainTooWide(ratio: real, r: Rect)
    requires ratio > 1.0 && r.w as real * (ratio - 1.0) >= 1.0
    ensures !MainFits(2, ratio, r)
  {
    assert r.w as real * ratio == r.w as real + r.w as real * (ratio - 1.0);
  }

  /** A single client gets the whole region. */
  lemma OneClientShape(ratio: real, r: Rect)
    ensures Template(1, ratio, r) == [r]
  {
  }

  /** Two clients: the main region on the left, the side region on the right. */
  lemma TwoShape(ratio: real, r: Rect)
    requires MainFits(2, ratio, r)
    ensures var m := MainWidth(r.w, ratio);
      Template(2, ratio, r) == [Rect(r.x, r.y, m, r.h), Rect(r.x + m, r.y, r.w - m, r.h)]
  {
  }

  /** Three clients: the side region is cut into a top and a bottom half. */
  lemma ThreeShape(ratio: real, r: Rect)
    requires MainFits(3, ratio, r)
    ensures var m := MainWidth(r.w, ratio);
      var sx, sw, H := r.x + m, r.w - m, r.h;
      Template(3, ratio, r)
        == [Rect(r.x, r.y, m, H), Rect(sx, r.y, sw, H / 2), Rect(sx, r.y + H / 2, sw, H - H / 2)]
  {
  }

  /** Four clients: as for three, with the top half cut again into a left and a right half. */
  lemma FourShape(ratio: real, r: Rect)
    requires MainFits(4, ratio, r)
    ensures var m := MainWidth(r.w, ratio);
      var sx, sw, H := r.x + m, r.w - m, r.h;
      Template(4, ratio, r)
        == [Rect(r.x, r.y, m, H), Rect(sx, r.y, sw / 2, H / 2), Rect(sx + sw / 2, r.y, sw - sw / 2, H / 2),
            Rect(sx, r.y + H / 2, sw, H - H / 2)]
  {
  }

  /**
   * Five clients: the side region in four rows, the middle two joined and then cut into a
   * left and a right half.
   */
  lemma FiveShape(ratio: real, r: Rect)
    requires MainFits(5, ratio, r)
    ensures var m := MainWidth(r.w, ratio);
      var sx, sw, H := r.x + m, r.w - m, r.h;
      var q := H / 4;
      Template(5, ratio, r)
        == [Rect(r.x, r.y, m, H), Rect(sx, r.y, sw, q), Rect(sx, r.y + q, sw / 2, 2 * q),
            Rect(sx + sw / 2, r.y + q, sw - sw / 2, 2 * q), Rect(sx, r.y + 3 * q, sw, H - 3 * q)]
  {
    var side := SplitMain(ratio, r).1;
    var rows := side.AsRows(4);
    assert rows[1] == side.Row(1, 4) && rows[2] == side.Row(2, 4) && rows[3] == side.Row(3, 4);
  }

  /**
   * Six clients: the side region in three columns `c` pixels wide (the last one also takes
   * the remainder) and a band `h` high at the top and at the bottom. The second client
   * takes the first column above the bottom band, the third the top band over the second
   * and third columns, the fourth the second column between the bands, the fifth the last
   * column below the top band, and the sixth the bottom band under the first two columns.
   */
  lemma SixShape(ratio: real, r: Rect)
    requires MainFits(6, ratio, r)
    ensures var m := MainWidth(r.w, ratio);
      var sx, sw, H := r.x + m, r.w - m, r.h;
      var c, h := sw / 3, H / 4;
      Template(6, ratio, r)
        == [Rect(r.x, r.y, m, H), Rect(sx, r.y, c, H - h), Rect(sx + c, r.y, 2 * c, h),
            Rect(sx + c, r.y + h, c, H - 2 * h), Rect(sx + 2 * c, r.y + h, sw - 2 * c, H - h),
            Rect(sx, r.y + H - h, 2 * c, h)]
  {
    var side := SplitMain(ratio, r).1;
    var cols := side.AsColumns(3);
    assert cols[1] == side.Column(1, 3) && cols[2] == side.Column(2, 3);
  }

  /** With one to five clients the regions lie in `r`, do not overlap, and cover `r`. */
  lemma TemplateTiles(n: nat, ratio: real, r: Rect)
    requires 1 <= n <= 5 && MainFits(n, ratio, r)
    ensures Tiles(Template(n, ratio, r), r)
  {
    var rs := Template(n, ratio, r);
    if n == 1 {
      UnionOne(r);
    } else if n == 2 {
      TwoTiles(ratio, r);
    } else if n == 3 {
      ThreeTiles(ratio, r);
    } else if n == 4 {
      FourTiles(ratio, r);
    } else {
      FiveTiles(ratio, r);
    }
  }

  lemma TwoTiles(ratio: real, r: Rect)
    requires MainFits(2, ratio, r)
    ensures Tiles(Template(2, ratio, r), r)
  {
    TwoShape(ratio, r);
    var rs := Template(2, ratio, r);
    var sx := r.x + MainWidth(r.w, ratio);
    forall p | Covers(r, p) ensures exists i :: 0 <= i < |rs| && Covers(rs[i], p) {
      if p.x < sx {
        assert Covers(rs[0], p);
      } else {
        assert Covers(rs[1], p);
      }
    }
    TilesByPoints(rs, r);
  }

  lemma ThreeTiles(ratio: real, r: Rect)
    requires MainFits(3, ratio, r)
    ensures Tiles(Template(3, ratio, r), r)
  {
    ThreeShape(ratio, r);
    var rs := Template(3, ratio, r);
    var sx := r.x + MainWidth(r.w, ratio);
    forall p | Covers(r, p) ensures exists i :: 0 <= i < |rs| && Covers(rs[i], p) {
      if p.x < sx {
        assert Covers(rs[0], p);
      } else if p.y < r.y + r.h / 2 {
        assert Covers(rs[1], p);
      } else {
        assert Covers(rs[2], p);
      }
    }
    TilesByPoints(rs, r);
  }

  lemma FourTiles(ratio: real, r: Rect)
    requires MainFits(4, ratio, r)
    ensures Tiles(Template(4, ratio, r), r)
  {
    FourShape(ratio, r);
    var rs := Template(4, ratio, r);
    var sx := r.x + MainWidth(r.w, ratio);
    var sw := r.w - MainWidth(r.w, ratio);
    forall p | Covers(r, p) ensures exists i :: 0 <= i < |rs| && Covers(rs[i], p) {
      if p.x < sx {
        assert Covers(rs[0], p);
      } else if p.y >= r.y + r.h / 2 {
        assert Covers(rs[3], p);
      } else if p.x < sx + sw / 2 {
        assert Covers(rs[1], p);
      } else {
        assert Covers(rs[2], p);
      }
    }
    TilesByPoints(rs, r);
  }

  lemma FiveTiles(ratio: real, r: Rect)
    requires MainFits(5, ratio, r)
    ensures Tiles(Template(5, ratio, r), r)
  {
    FiveShape(ratio, r);
    var rs := Template(5, ratio, r);
    var sx := r.x + MainWidth(r.w, ratio);
    var sw := r.w - MainWidth(r.w, ratio);
    var q := r.h / 4;
    forall p | Covers(r, p) ensures exists i :: 0 <= i < |rs| && Covers(rs[i], p) {
      if p.x < sx {
        assert Covers(rs[0], p);
      } else if p.y < r.y + q {
        assert Covers(rs[1], p);
      } else if p.y >= r.y + 3 * q {
        assert Covers(rs[4], p);
      } else if p.x < sx + sw / 2 {
        assert Covers(rs[2], p);
      } else {
        assert Covers(rs[3], p);
      }
    }
    TilesByPoints(rs, r);
  }

  /**
   * The part of the side region that six clients leave uncovered: the top band over what
   * the last column has beyond `c` pixels.
   */
  function Gap(ratio: real, r: Rect): (g: Rect)
    requires MainFits(6, ratio, r)
    ensures g.w == (r.w - MainWidth(r.w, ratio)) % 3 && g.h == r.h / 4
  {
    var m := MainWidth(r.w, ratio);
    var sw := r.w - m;
    Rect(r.x + m + 3 * (sw / 3), r.y, sw - 3 * (sw / 3), r.h / 4)
  }

  /** With six clients the regions and the gap lie in `r`, do not overlap, and cover `r`. */
  lemma SixTilesWithGap(ratio: real, r: Rect)
    requires MainFits(6, ratio, r)
    ensures Tiles(Template(6, ratio, r) + [Gap(ratio, r)], r)
  {
    SixPlaced(ratio, r);
    SixCovers(ratio, r);
    TilesByPoints(Template(6, ratio, r) + [Gap(ratio, r)], r);
  }

  lemma SixPlaced(ratio: real, r: Rect)
    requires MainFits(6, ratio, r)
    ensures var rs := Template(6, ratio, r) + [Gap(ratio, r)];
      (forall i :: 0 <= i < |rs| ==> Within(rs[i], r)) && PairwiseSeparated(rs)
  {
    SixShape(ratio, r);
    var m := MainWidth(r.w, ratio);
    var sw := r.w - m;
    assert 3 * (sw / 3) <= sw && 4 * (r.h / 4) <= r.h;
    assert Template(6, ratio, r) + [Gap(ratio, r)] == Pinwheel(r, m, sw / 3, r.h / 4);
    PinwheelPlaced(r, m, sw / 3, r.h / 4);
  }

  /**
   * The main region `m` pixels wide and the six-client pattern with columns `c` wide and
   * bands `h` high, followed by the strip the pattern leaves at the top right.
   */
  function Pinwheel(r: Rect, m: nat, c: nat, h: nat): (rs: seq<Rect>)
    requires m + 3 * c <= r.w && 4 * h <= r.h
    ensures |rs| == 7
  {
    var sx, sw, H := r.x + m, r.w - m, r.h;
    [Rect(r.x, r.y, m, H), Rect(sx, r.y, c, H - h), Rect(sx + c, r.y, 2 * c, h),
     Rect(sx + c, r.y + h, c, H - 2 * h), Rect(sx + 2 * c, r.y + h, sw - 2 * c, H - h),
     Rect(sx, r.y + H - h, 2 * c, h), Rect(sx + 3 * c, r.y, sw - 3 * c, h)]
  }

  lemma PinwheelPlaced(r: Rect, m: nat, c: nat, h: nat)
    requires m + 3 * c <= r.w && 4 * h <= r.h
    ensures var rs := Pinwheel(r, m, c, h);
      (forall i :: 0 <= i < |rs| ==> Within(rs[i], r)) && PairwiseSeparated(rs)
  {
    var rs := Pinwheel(r, m, c, h);
    forall i | 0 <= i < |rs| ensures Within(rs[i], r) {
    }
    forall i, j | 0 <= i < j < |rs| ensures Separated(rs[i], rs[j]) {
      PinwheelSeparated(r, m, c, h, i, j);
    }
  }

  lemma PinwheelSeparated(r: Rect, m: nat, c: nat, h: nat, i: nat, j: nat)
    requires m + 3 * c <= r.w && 4 * h <= r.h && i < j < 7
    ensures Separated(Pinwheel(r, m, c, h)[i], Pinwheel(r, m, c, h)[j])
  {
    var rs := Pinwheel(r, m, c, h);
    if i == 0 {
    } else if i == 1 {
    } else if i == 2 {
    } else if i == 3 {
    } else {
    }
  }

  lemma SixCovers(ratio: real, r: Rect)
    requires MainFits(6, ratio, r)
    ensures var rs := Template(6, ratio, r) + [Gap(ratio, r)];
      forall p :: Covers(r, p) ==> exists i :: 0 <= i < |rs| && Covers(rs[i], p)
  {
    SixShape(ratio, r);
    var m := MainWidth(r.w, ratio);
    var sw := r.w - m;
    assert 3 * (sw / 3) <= sw && 4 * (r.h / 4) <= r.h;
    assert Template(6, ratio, r) + [Gap(ratio, r)] == Pinwheel(r, m, sw / 3, r.h / 4);
    PinwheelCovers(r, m, sw / 3, r.h / 4);
  }

  lemma PinwheelCovers(r: Rect, m: nat, c: nat, h: nat)
    requires m + 3 * c <= r.w && 4 * h <= r.h
    ensures var rs := Pinwheel(r, m, c, h);
      forall p :: Covers(r, p) ==> exists i :: 0 <= i < |rs| && Covers(rs[i], p)
  {
    var rs := Pinwheel(r, m, c, h);
    var sx := r.x + m;
    forall p | Covers(r, p) ensures exists i :: 0 <= i < |rs| && Covers(rs[i], p) {
      if p.x < sx {
        assert Covers(rs[0], p);
      } else if p.x < sx + c {
        if p.y < r.y + r.h - h {
          assert Covers(rs[1], p);
        } else {
          assert Covers(rs[5], p);
        }
      } else if p.x < sx + 2 * c {
        if p.y < r.y + h {
          assert Covers(rs[2], p);
        } else if p.y < r.y + r.h - h {
          assert Covers(rs[3], p);
        } else {
          assert Covers(rs[5], p);
        }
      } else if p.y >= r.y + h {
        assert Covers(rs[4], p);
      } else if p.x < sx + 3 * c {
        assert Covers(rs[2], p);
      } else {
        assert Covers(rs[6], p);
      }
    }
  }

  /**
   * Six clients tile `r` exactly when the gap is empty: when the side region's width is a
   * multiple of three or the region is less than four pixels high.
   */
  lemma SixTilesIff(ratio: real, r: Rect)
    requires MainFits(6, ratio, r)
    ensures Tiles(Template(6, ratio, r), r) <==> (r.w - MainWidth(r.w, ratio)) % 3 == 0 || r.h < 4
  {
    var g := Gap(ratio, r);
    if g.w == 0 || g.h == 0 {
      SixTilesWithoutGap(ratio, r);
    } else {
      SixMissGap(ratio, r);
    }
  }

  lemma SixTilesWithoutGap(ratio: real, r: Rect)
    requires MainFits(6, ratio, r)
    requires Gap(ratio, r).w == 0 || Gap(ratio, r).h == 0
    ensures Tiles(Template(6, ratio, r), r)
  {
    var rs := Template(6, ratio, r);
    var g := Gap(ratio, r);
    SixTilesWithGap(ratio, r);
    UnionConcat(rs, [g]);
    UnionOne(g);
    assert Cells(g) == {} by {
      forall p | p in Cells(g) ensures false {
      }
    }
    assert forall i :: 0 <= i < |rs| ==> rs[i] == (rs + [g])[i];
  }

  lemma SixMissGap(ratio: real, r: Rect)
    requires MainFits(6, ratio, r)
    requires Gap(ratio, r).w > 0 && Gap(ratio, r).h > 0
    ensures !Tiles(Template(6, ratio, r), r)
  {
    var rs := Template(6, ratio, r);
    var g := Gap(ratio, r);
    var p := Point(g.x, g.y);
    GapUncovered(ratio, r, p);
    assert p in Cells(r);
    InUnion(rs, p);
  }

  /** The placements of up to five clients tile the screen region. */
  lemma PositionsTile(ratio: real, s: seq<Id>, r: Rect)
    requires 1 <= |s| <= 5 && MainFits(|s|, ratio, r)
    ensures Tiles(Layouts.Regions(Positions(ratio, s, r)), r)
  {
    RegionsAreTemplate(ratio, s, r);
    TemplateTiles(|s|, ratio, r);
  }

  /** With two or more clients the first gets the main region, `MainWidth` pixels wide on the left. */
  lemma PositionsMain(ratio: real, s: seq<Id>, r: Rect)
    requires |s| >= 2 && MainFits(ClientCount(|s|), ratio, r)
    ensures Positions(ratio, s, r)[0] == Placement(s[0], Rect(r.x, r.y, MainWidth(r.w, ratio), r.h))
  {
  }

  /** With distinct stack ids, no id is placed twice. */
  lemma PositionsDistinct(ratio: real, s: seq<Id>, r: Rect)
    requires MainFits(ClientCount(|s|), ratio, r) && Distinct(s)
    ensures Distinct(Ids(Positions(ratio, s, r)))
  {
  }

  /** The default Tatami layout on two clients in a 100 by 50 region splits it 60 to 40. */
  lemma TwoClientsByDefault(a: Id, b: Id)
    ensures MainFits(2, 0.6, Rect(0, 0, 100, 50))
    ensures Positions(0.6, [a, b], Rect(0, 0, 100, 50)) == [Placement(a, Rect(0, 0, 60, 50)), Placement(b, Rect(60, 0, 40, 50))]
  {
    assert MainWidth(100, 0.6) == 60;
  }

  /** Every pixel of the gap lies in `r` but in none of the six regions. */
  lemma GapUncovered(ratio: real, r: Rect, p: Point)
    requires MainFits(6, ratio, r) && Covers(Gap(ratio, r), p)
    ensures Covers(r, p)
    ensures forall i :: 0 <= i < 6 ==> !Covers(Template(6, ratio, r)[i], p)
  {
    SixShape(ratio, r);
  }

  /** In a 10 by 8 area at the origin the default main column is 6 wide and leaves a 1 by 2 gap. */
  lemma DefaultGapOfTenByEight(r: Rect)
    requires r.x == 0 && r.y == 0 && r.w == 10 && r.h == 8
    ensures MainWidth(r.w, 0.6) == 6 && MainFits(6, 0.6, r) && Gap(0.6, r) == Rect(9, 0, 1, 2)
  {
    assert r.w as real * 0.6 == 6.0;
  }

  /**
   * Six clients of the default layout in a 10 by 8 region at the origin leave the pixels
   * (9, 0) and (9, 1) to nobody.
   */
  lemma SixClientsLeaveGap(r: Rect)
    requires r.x == 0 && r.y == 0 && r.w == 10 && r.h == 8
    ensures MainFits(6, 0.6, r)
    ensures var rs := Template(6, 0.6, r);
      Covers(r, Point(9, 0)) && Covers(r, Point(9, 1))
      && forall i :: 0 <= i < 6 ==> !Covers(rs[i], Point(9, 0)) && !Covers(rs[i], Point(9, 1))
  {
    DefaultGapOfTenByEight(r);
    GapUncovered(0.6, r, Point(9, 0));
    GapUncovered(0.6, r, Point(9, 1));
  }

  class Tatami {
    var ratio: real
    var ratioStep: real

    /** The main-area ratio lies in [0, 1] and steps are not negative. */
    ghost predicate Valid()
      reads this
    {
      InUnit(ratio) && ratioStep >= 0.0
    }

    /** The default layout: ratio 0.6, step 0.1. */
    constructor Default()
      ensures ratio == 0.6 && ratioStep == 0.1
      ensures Valid()
    {
      ratio, ratioStep := 0.6, 0.1;
    }

    /** A layout with the given parameters, taken as they are. */
    constructor (ratio: real, ratioStep: real)
      ensures this.ratio == ratio && this.ratioStep == ratioStep
    {
      this.ratio, this.ratioStep := ratio, ratioStep;
    }

    /** A short display label. */
    function Name(): (text: string)
      ensures |text| == 3 && text[0] == text[2] == '|'
    {
      "|+|"
    }

    /** An independent copy with the same parameters. */
    method BoxedClone() returns (copy: Tatami)
      ensures fresh(copy)
      ensures copy.ratio == ratio && copy.ratioStep == ratioStep
    {
      copy := new Tatami(ratio, ratioStep);
    }

    /**
     * Place the first six clients of `s` in `r`. With two or more clients the main
     * split must succeed, which a ratio of at most 1 guarantees.
     */
    method Layout(s: seq<Id>, r: Rect) returns (replacement: Option<Tatami>, positions: seq<Placement>)
      requires MainFits(ClientCount(|s|), ratio, r)
      ensures replacement == None
      ensures positions == Positions(ratio, s, r)
    {
      positions := Positions(ratio, s, r);
      replacement := None;
    }

    /**
     * Handle a message: ExpandMain and ShrinkMain move `ratio` by `ratioStep` and clamp it
     * to [0, 1]; any other message changes nothing. Never asks to be replaced.
     */
    method HandleMessage(m: Message) returns (replacement: Option<Tatami>)
      modifies this
      ensures replacement == None
      ensures ratio == Adjust(old(ratio), old(ratioStep), m)
      ensures ratioStep == old(ratioStep)
      ensures old(Valid()) ==> Valid()
    {
      if m == ExpandMain {
        ratio := ratio + ratioStep;
        if ratio > 1.0 {
          ratio := 1.0;
        }
      } else if m == ShrinkMain {
        ratio := ratio - ratioStep;
        if ratio < 0.0 {
          ratio := 0.0;
        }
      }
      replacement := None;
    }
  }
}
