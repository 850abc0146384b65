/**
 * The background-coloured overlay drawn after all strokes: a band along the
 * top and the bottom of the canvas, and, inside the middle band, one rectangle
 * left of the first lane, one in every gap between neighbouring lanes and one
 * right of the last lane. Together they paint exactly the part of the canvas
 * that lies outside every lane, so strokes that wander out of their lane are
 * hidden and nothing inside a lane is.
 */
module Masks {
  import opened Geometry

  /** p.rect(x, y, w, h): the half-open box [x, x + w) by [y, y + h). */
  datatype Rect = Rect(x: real, y: real, w: real, h: real)

  /** The top band's height, where the middle band starts. */
  const BandTop: real := 25.0
  /** Where the middle band ends and the bottom band starts. */
  const BandBottom: real := 475.0
  /** The middle band's height. */
  const BandHeight: real := 450.0

  predicate Inside(m: Rect, x: real, y: real)
  {
    m.x <= x < m.x + m.w && m.y <= y < m.y + m.h
  }

  /** A point inside a lane's border box, as a half-open box like the masks. */
  predicate InLane(r: Region, x: real, y: real)
  {
    r.xmin <= x < r.xmax && r.ymin <= y < r.ymax
  }

  /** The rectangle filling the gap between lane i and lane i + 1. */
  function GapRect(rs: seq<Region>, i: nat): (m: Rect)
    requires i + 1 < |rs|
    ensures m.x == rs[i].xmax && m.x + m.w == rs[i + 1].xmin
    ensures m.y == BandTop && m.y + m.h == BandBottom
  {
    Rect(rs[i].xmax, BandTop, rs[i + 1].xmin - rs[i].xmax, BandHeight)
  }

  /** The gap rectangles between lanes 0..n, in order. */
  function GapRects(rs: seq<Region>, n: nat): (gs: seq<Rect>)
    requires n < |rs|
    ensures |gs| == n
    ensures forall i :: 0 <= i < n ==> gs[i] == GapRect(rs, i)
  {
    if n == 0 then [] else GapRects(rs, n - 1) + [GapRect(rs, n - 1)]
  }

  /**
   * The overlay in drawing order: top band, bottom band, left edge, the gaps
   * between neighbouring lanes, right edge. The source reads the first lane's
   * left edge, so there must be at least one lane.
   */
  function MaskRects(rs: seq<Region>, width: real, height: real): (ms: seq<Rect>)
    requires |rs| >= 1
    ensures |ms| == |rs| + 3
    ensures ms[0] == Rect(0.0, 0.0, width, BandTop)
    ensures ms[1] == Rect(0.0, BandBottom, width, height - BandBottom)
    ensures ms[2] == Rect(0.0, BandTop, rs[0].xmin, BandHeight)
    ensures forall i :: 0 <= i < |rs| - 1 ==> ms[3 + i] == GapRect(rs, i)
    ensures ms[|rs| + 2] == Rect(rs[|rs| - 1].xmax, BandTop, width - rs[|rs| - 1].xmax, BandHeight)
  {
    [ Rect(0.0, 0.0, width, BandTop),
      Rect(0.0, BandBottom, width, height - BandBottom),
      Rect(0.0, BandTop, rs[0].xmin, BandHeight) ]
    + GapRects(rs, |rs| - 1)
    + [Rect(rs[|rs| - 1].xmax, BandTop, width - rs[|rs| - 1].xmax, BandHeight)]
  }

  /**
   * The overlay pass of the draw loop, collecting the rectangles it paints
   * instead of painting them.
   */
  method DrawOverlay(rs: seq<Region>, width: real, height: real) returns (ms: seq<Rect>)
    requires |rs| >= 1
    ensures ms == MaskRects(rs, width, height)
  {
    ms := [Rect(0.0, 0.0, width, BandTop), Rect(0.0, BandBottom, width, height - BandBottom)];
    ms := ms + [Rect(0.0, BandTop, rs[0].xmin, BandHeight)];
    var i := 0;
    while i < |rs| - 1
      invariant 0 <= i <= |rs| - 1
      invariant ms == MaskRects(rs, width, height)[..3 + i]
    {
      ms := ms + [Rect(rs[i].xmax, BandTop, rs[i + 1].xmin - rs[i].xmax, BandHeight)];
      i := i + 1;
    }
    var last := rs[|rs| - 1];
    ms := ms + [Rect(last.xmax, BandTop, width - last.xmax, BandHeight)];
  }

  /**
   * Lanes the overlay is drawn around: at least one, each exactly spanning the
   * middle band, left to right without overlap, inside a canvas at least as
   * tall as the bottom band's top edge.
   */
  predicate OrderedLanes(rs: seq<Region>, width: real, height: real)
  {
    |rs| >= 1 &&
    (forall i :: 0 <= i < |rs| ==> rs[i].xmin < rs[i].xmax && rs[i].ymin == BandTop && rs[i].ymax == BandBottom) &&
    (forall i :: 0 <= i < |rs| - 1 ==> rs[i].xmax <= rs[i + 1].xmin) &&
    0.0 <= rs[0].xmin && rs[|rs| - 1].xmax <= width && BandBottom <= height
  }

  /** In ordered lanes, every lane lies entirely left of every later one. */
  lemma {:induction false} LanesLeftOf(rs: seq<Region>, width: real, height: real, i: nat, j: nat)
    requires OrderedLanes(rs, width, height) && i < j < |rs|
    ensures rs[i].xmax <= rs[j].xmin
    decreases j - i
  {
    if i + 1 < j {
      LanesLeftOf(rs, width, height, i + 1, j);
    }
  }

  /** Some overlay rectangle paints (x, y). */
  predicate Covered(ms: seq<Rect>, x: real, y: real)
  {
    exists k :: 0 <= k < |ms| && Inside(ms[k], x, y)
  }

  /** (x, y) lies in some lane. */
  predicate InSomeLane(rs: seq<Region>, x: real, y: real)
  {
    exists j :: 0 <= j < |rs| && InLane(rs[j], x, y)
  }

  /** No gap rectangle reaches into a lane. */
  lemma GapAvoidsLanes(rs: seq<Region>, width: real, height: real, i: nat, j: nat, x: real, y: real)
    requires OrderedLanes(rs, width, height)
    requires i + 1 < |rs| && j < |rs|
    requires Inside(GapRect(rs, i), x, y)
    ensures !InLane(rs[j], x, y)
  {
    assert rs[i].xmax <= x < rs[i + 1].xmin;
    if j < i {
      LanesLeftOf(rs, width, height, j, i);
    } else if i + 1 < j {
      LanesLeftOf(rs, width, height, i + 1, j);
    }
  }

  /** No overlay rectangle reaches into a lane. */
  lemma MaskAvoidsLanes(rs: seq<Region>, width: real, height: real, k: nat, j: nat, x: real, y: real)
    requires OrderedLanes(rs, width, height)
    requires k < |rs| + 3 && j < |rs|
    requires Inside(MaskRects(rs, width, height)[k], x, y)
    ensures !InLane(rs[j], x, y)
  {
    var ms := MaskRects(rs, width, height);
    var n := |rs|;
    assert rs[j].ymin == BandTop && rs[j].ymax == BandBottom;
    if k == 2 {
      assert x < rs[0].xmin;
      if 0 < j {
        LanesLeftOf(rs, width, height, 0, j);
      }
    } else if k == n + 2 {
      assert rs[n - 1].xmax <= x;
      if j < n - 1 {
        LanesLeftOf(rs, width, height, j, n - 1);
      }
    } else if 3 <= k {
      assert ms[k] == GapRect(rs, k - 3);
      GapAvoidsLanes(rs, width, height, k - 3, j, x, y);
    }
  }

  /**
   * Inside the middle band, between the first lane's left edge and the last
   * lane's right edge, a point is in lane k or in the gap right of lane k.
   */
  lemma {:induction false} LaneOrGap(rs: seq<Region>, width: real, height: real, x: real)
    returns (inLane: bool, k: nat)
    requires OrderedLanes(rs, width, height)
    requires rs[0].xmin <= x < rs[|rs| - 1].xmax
    ensures inLane ==> k < |rs| && rs[k].xmin <= x < rs[k].xmax
    ensures !inLane ==> k + 1 < |rs| && rs[k].xmax <= x < rs[k + 1].xmin
  {
    var n := |rs|;
    if n == 1 {
      inLane, k := true, 0;
    } else if x < rs[n - 2].xmax {
      var front := rs[..n - 1];
      assert OrderedLanes(front, width, height) by {
        LanesLeftOf(rs, width, height, n - 2, n - 1);
      }
      inLane, k := LaneOrGap(front, width, height, x);
      assert front[k] == rs[k];
    } else if x < rs[n - 1].xmin {
      inLane, k := false, n - 2;
    } else {
      inLane, k := true, n - 1;
    }
  }

  /** A point in the gap right of lane i is painted by that gap's rectangle. */
  lemma GapIsCovered(rs: seq<Region>, width: real, height: real, i: nat, x: real, y: real)
    requires i + 1 < |rs|
    requires rs[i].xmax <= x < rs[i + 1].xmin && BandTop <= y < BandBottom
    ensures Covered(MaskRects(rs, width, height), x, y)
  {
    var ms := MaskRects(rs, width, height);
    assert ms[3 + i] == GapRect(rs, i);
    assert Inside(ms[3 + i], x, y);
  }

  /** A canvas point in no lane is painted by some overlay rectangle. */
  lemma OutsideIsCovered(rs: seq<Region>, width: real, height: real, x: real, y: real)
    requires OrderedLanes(rs, width, height)
    requires 0.0 <= x < width && 0.0 <= y < height
    requires !InSomeLane(rs, x, y)
    ensures Covered(MaskRects(rs, width, height), x, y)
  {
    var ms := MaskRects(rs, width, height);
    var n := |rs|;
    if y < BandTop {
      assert Inside(ms[0], x, y);
    } else if y >= BandBottom {
      assert Inside(ms[1], x, y);
    } else if x < rs[0].xmin {
      assert Inside(ms[2], x, y);
    } else if x >= rs[n - 1].xmax {
      assert Inside(ms[n + 2], x, y);
    } else {
      var inLane, k := LaneOrGap(rs, width, height, x);
      if inLane {
        assert false;
      }
      GapIsCovered(rs, width, height, k, x, y);
    }
  }

  /**
   * The overlay paints exactly the canvas outside the lanes: a canvas point is
   * covered by some mask rectangle if and only if it lies in no lane.
   */
  lemma MaskIsComplement(rs: seq<Region>, width: real, height: real, x: real, y: real)
    requires OrderedLanes(rs, width, height)
    requires 0.0 <= x < width && 0.0 <= y < height
    ensures Covered(MaskRects(rs, width, height), x, y) <==> !InSomeLane(rs, x, y)
  {
    var ms := MaskRects(rs, width, height);
    if Covered(ms, x, y) && InSomeLane(rs, x, y) {
      var k :| 0 <= k < |ms| && Inside(ms[k], x, y);
      var j :| 0 <= j < |rs| && InLane(rs[j], x, y);
      MaskAvoidsLanes(rs, width, height, k, j, x, y);
      assert false;
    }
    if !InSomeLane(rs, x, y) {
      OutsideIsCovered(rs, width, height, x, y);
    }
  }

  /** The six hard-coded lanes satisfy what the overlay relies on on the 1000 by 500 canvas. */
  lemma LayoutIsOrdered()
    ensures OrderedLanes(Layout(), CanvasWidth, CanvasHeight)
  {
  }
}
