/**
 * Plane geometry of the guide-line seeder: the fixed lanes of the canvas,
 * guide segments, the implicit line equation of a segment and the length
 * band a segment is tested against.
 */
module Geometry {

  /** An axis-aligned lane: left, top, right and bottom edge in canvas pixels. */
  datatype Region = Region(xmin: real, ymin: real, xmax: real, ymax: real)

  /** A guide segment from (x1, y1) to (x2, y2). */
  datatype Segment = Segment(x1: real, y1: real, x2: real, y2: real)

  /** The implicit line a*x + b*y + c = 0. */
  datatype LineEq = LineEq(a: real, b: real, c: real)

  /** Distance between a lane's border and the box its endpoints are drawn from. */
  const Padding: real := 25.0

  /** Canvas size passed to createCanvas. */
  const CanvasWidth: real := 1000.0
  const CanvasHeight: real := 500.0

  /** The inner box of a lane is not empty, so sampling inside it is meaningful. */
  predicate Drawable(r: Region)
  {
    r.xmin + Padding < r.xmax - Padding && r.ymin + Padding < r.ymax - Padding
  }

  /** The six hard-coded lanes, left to right: 100 wide, 450 tall, 50 apart. */
  function Layout(): (rs: seq<Region>)
    ensures |rs| == 6
    ensures forall i :: 0 <= i < |rs| ==> Drawable(rs[i])
    ensures forall i :: 0 <= i < |rs| ==> rs[i].ymin == Padding && rs[i].ymax == CanvasHeight - Padding
    ensures forall i :: 0 <= i < |rs| - 1 ==> rs[i].xmax < rs[i + 1].xmin
  {
    [ Region(75.0, 25.0, 175.0, 475.0),
      Region(225.0, 25.0, 325.0, 475.0),
      Region(375.0, 25.0, 475.0, 475.0),
      Region(525.0, 25.0, 625.0, 475.0),
      Region(675.0, 25.0, 775.0, 475.0),
      Region(825.0, 25.0, 925.0, 475.0) ]
  }

  /**
   * The half-open box endpoints are drawn from: p.random(lo, hi) yields a
   * value in [lo, hi), and the box is the lane shrunk by the padding.
   */
  predicate InInner(r: Region, x: real, y: real)
  {
    r.xmin + Padding <= x < r.xmax - Padding && r.ymin + Padding <= y < r.ymax - Padding
  }

  predicate SegmentInInner(r: Region, s: Segment)
  {
    InInner(r, s.x1, s.y1) && InInner(r, s.x2, s.y2)
  }

  /**
   * The value a*x + b*y + c whose sign tells the side of the line a point is
   * on. For a degenerate line (a = b = 0) it is the constant c, so every
   * point falls on the same side.
   */
  function Side(e: LineEq, x: real, y: real): (v: real)
    ensures e.a == 0.0 && e.b == 0.0 ==> v == e.c
  {
    e.a * x + e.b * y + e.c
  }

  /**
   * The line through a segment's endpoints, with the coefficients the seeder
   * stores: a = y2 - y1, b = x1 - x2, c = x2*y1 - x1*y2. Both endpoints lie
   * on it, and it is degenerate (a = b = 0) exactly when the endpoints coincide.
   */
  function LineOf(s: Segment): (e: LineEq)
    ensures Side(e, s.x1, s.y1) == 0.0 && Side(e, s.x2, s.y2) == 0.0
    ensures (e.a == 0.0 && e.b == 0.0) <==> (s.x1 == s.x2 && s.y1 == s.y2)
  {
    assert (s.y2 - s.y1) * s.x1 + (s.x1 - s.x2) * s.y1 == s.x1 * s.y2 - s.x2 * s.y1;
    assert (s.y2 - s.y1) * s.x2 + (s.x1 - s.x2) * s.y2 == s.x1 * s.y2 - s.x2 * s.y1;
    LineEq(s.y2 - s.y1, s.x1 - s.x2, s.x2 * s.y1 - s.x1 * s.y2)
  }

  /**
   * The side value of a point is the cross product of the point's offset from
   * the first endpoint with the segment's direction: its sign says whether the
   * point is clockwise or counter-clockwise of the directed segment.
   */
  lemma SideIsCrossProduct(s: Segment, x: real, y: real)
    ensures Side(LineOf(s), x, y) == (s.y2 - s.y1) * (x - s.x1) - (s.x2 - s.x1) * (y - s.y1)
  {
  }

  /** Points on the segment's line, parametrised by t, have side value 0. */
  lemma PointsOnSegmentLine(s: Segment, t: real)
    ensures Side(LineOf(s), s.x1 + t * (s.x2 - s.x1), s.y1 + t * (s.y2 - s.y1)) == 0.0
  {
    SideIsCrossProduct(s, s.x1 + t * (s.x2 - s.x1), s.y1 + t * (s.y2 - s.y1));
  }

  /** The square of p.dist between the two endpoints. */
  function DistSq(s: Segment): (d2: real)
    ensures d2 >= 0.0
  {
    (s.x2 - s.x1) * (s.x2 - s.x1) + (s.y2 - s.y1) * (s.y2 - s.y1)
  }

  /** `dist < lo` for a distance whose square is d2. */
  predicate TooShort(d2: real, lo: real)
  {
    lo > 0.0 && d2 < lo * lo
  }

  /** `dist > hi` for a distance whose square is d2. */
  predicate TooLong(d2: real, hi: real)
  {
    hi < 0.0 || d2 > hi * hi
  }

  /** The length band [lo, hi] a segment is sampled into. */
  predicate InBand(d2: real, lo: real, hi: real)
  {
    !TooShort(d2, lo) && !TooLong(d2, hi)
  }

  lemma SquareMonotone(u: real, v: real)
    requires 0.0 <= u <= v
    ensures u * u <= v * v
  {
    assert u * u <= u * v;
    assert u * v <= v * v;
  }

  lemma SquareStrictMonotone(u: real, v: real)
    requires 0.0 <= u < v
    ensures u * u < v * v
  {
    calc {
      u * u;
    <= u * v;
    < v * v;
    }
  }

  /**
   * The squared comparisons are exact: for the true distance d (d >= 0 and
   * d*d == d2) they agree with the source's `d < lo` and `d > hi` for every
   * real bound, negative bounds included.
   */
  lemma DistanceComparisons(d: real, d2: real, lo: real, hi: real)
    requires d >= 0.0 && d * d == d2
    ensures (d < lo) <==> TooShort(d2, lo)
    ensures (d > hi) <==> TooLong(d2, hi)
  {
    if lo > 0.0 {
      if d < lo {
        SquareStrictMonotone(d, lo);
      } else {
        SquareMonotone(lo, d);
      }
    }
    if hi >= 0.0 {
      if d > hi {
        SquareStrictMonotone(hi, d);
      } else {
        SquareMonotone(d, hi);
      }
    }
  }
}
