/**
 * The guide-line seeder run once at setup: for every lane it places up to
 * linesPerRegion segments, the first by rejection sampling inside the lane,
 * each later one between two sample points of the most populous cell of the
 * lines already placed; then it gives every segment a colour weight.
 */
module Seeding {
  import opened Geometry
  import opened Partition
  import opened RandomStream

  const FirstMaxAttempts: nat := 50
  const LaterMaxAttempts: nat := 30
  const NumSamplePoints: nat := 100
  /** Band of the per-segment factor that sets how often a connecting line is drawn. */
  const StepFactorMin: real := 10.0
  const StepFactorMax: real := 40.0

  /** The parameters the seeder reads from the parameter store. */
  datatype Params = Params(linesPerRegion: real, lineMinLength: real, lineMaxLength: real)

  /** The per-lane segment lists, concatenated in lane order. */
  function Flatten(groups: seq<seq<Segment>>): seq<Segment>
  {
    if groups == [] then [] else Flatten(groups[..|groups| - 1]) + groups[|groups| - 1]
  }

  /** Bounds on every lane's count bound the total. */
  lemma {:induction false} FlattenLength(groups: seq<seq<Segment>>, lo: nat, hi: nat)
    requires forall r :: 0 <= r < |groups| ==> lo <= |groups[r]| <= hi
    ensures |groups| * lo <= |Flatten(groups)| <= |groups| * hi
  {
    if groups != [] {
      var n := |groups| - 1;
      FlattenLength(groups[..n], lo, hi);
      assert |Flatten(groups)| == |Flatten(groups[..n])| + |groups[n]|;
      assert |groups| * lo == n * lo + lo;
      assert |groups| * hi == n * hi + hi;
    }
  }

  /** Every step factor lies in [StepFactorMin, StepFactorMax). */
  predicate FactorsInBand(fs: seq<real>)
  {
    forall i :: 0 <= i < |fs| ==> StepFactorMin <= fs[i] < StepFactorMax
  }

  /** Every segment lies in the lane's inner box. */
  predicate InsideLane(region: Region, segs: seq<Segment>)
  {
    forall k :: 0 <= k < |segs| ==> SegmentInInner(region, segs[k])
  }

  /**
   * The lanes seeded so far, the q-th against regions[q]: each received as
   * many segments as LaneCount allows, all inside its inner box.
   */
  predicate LanesPlaced(regions: seq<Region>, perRegion: seq<seq<Segment>>, n: int)
  {
    |perRegion| <= |regions| &&
    forall q :: 0 <= q < |perRegion| ==> LaneCount(|perRegion[q]|, n) && InsideLane(regions[q], perRegion[q])
  }

  /** The step factors of every lane's committed segments, lane after lane. */
  function LaneFactors(lanes: seq<seq<Slot>>): seq<real>
  {
    if lanes == [] then [] else LaneFactors(lanes[..|lanes| - 1]) + Factors(lanes[|lanes| - 1])
  }

  /**
   * The lanes seeded so far from one stream, the q-th against regions[q]:
   * lane q ran n passes (none when n < 0) as a Lane begun at starts[q], the
   * next lane begins where it ended, and perRegion[q] holds its committed
   * segments.
   */
  ghost predicate LanesSeeded(regions: seq<Region>, values: seq<real>, minLen: real, maxLen: real, n: int,
                              starts: seq<nat>, lanes: seq<seq<Slot>>, perRegion: seq<seq<Segment>>)
  {
    UnitStream(values) && |lanes| <= |regions| && |starts| == |lanes| + 1 && |perRegion| == |lanes| &&
    forall q :: 0 <= q < |lanes| ==>
      Drawable(regions[q]) && |lanes[q]| == (if n >= 0 then n else 0) &&
      Lane(regions[q], values, minLen, maxLen, starts[q], lanes[q]) &&
      starts[q + 1] == LaneEnd(starts[q], lanes[q]) && perRegion[q] == Segments(lanes[q])
  }

  /** One more lane seeded where the last one ended extends the record. */
  lemma LanesSeededExtend(regions: seq<Region>, values: seq<real>, minLen: real, maxLen: real, n: int,
                          starts: seq<nat>, lanes: seq<seq<Slot>>, perRegion: seq<seq<Segment>>, slots: seq<Slot>)
    requires LanesSeeded(regions, values, minLen, maxLen, n, starts, lanes, perRegion) && |lanes| < |regions|
    requires Drawable(regions[|lanes|]) && |slots| == (if n >= 0 then n else 0)
    requires Lane(regions[|lanes|], values, minLen, maxLen, starts[|lanes|], slots)
    ensures LanesSeeded(regions, values, minLen, maxLen, n, starts + [LaneEnd(starts[|lanes|], slots)],
                        lanes + [slots], perRegion + [Segments(slots)])
  {
    var st, ls, pr := starts + [LaneEnd(starts[|lanes|], slots)], lanes + [slots], perRegion + [Segments(slots)];
    forall q | 0 <= q < |ls|
      ensures Drawable(regions[q]) && |ls[q]| == (if n >= 0 then n else 0) &&
              Lane(regions[q], values, minLen, maxLen, st[q], ls[q]) &&
              st[q + 1] == LaneEnd(st[q], ls[q]) && pr[q] == Segments(ls[q])
    {
      if q < |lanes| {
        assert ls[q] == lanes[q] && st[q] == starts[q] && st[q + 1] == starts[q + 1] && pr[q] == perRegion[q];
      }
    }
  }

  /** Adding a lane appends its factors to the factor list and its segments to the line list. */
  lemma LaneListsExtend(lanes: seq<seq<Slot>>, perRegion: seq<seq<Segment>>, slots: seq<Slot>)
    ensures LaneFactors(lanes + [slots]) == LaneFactors(lanes) + Factors(slots)
    ensures Flatten(perRegion + [Segments(slots)]) == Flatten(perRegion) + Segments(slots)
  {
    assert (lanes + [slots])[..|lanes|] == lanes;
    assert (perRegion + [Segments(slots)])[..|perRegion|] == perRegion;
  }

  /** Lanes seeded from the stream are placed: each lane's count and box follow from its Lane record. */
  lemma SeededArePlaced(regions: seq<Region>, values: seq<real>, minLen: real, maxLen: real, n: int,
                        starts: seq<nat>, lanes: seq<seq<Slot>>, perRegion: seq<seq<Segment>>)
    requires LanesSeeded(regions, values, minLen, maxLen, n, starts, lanes, perRegion)
    ensures LanesPlaced(regions, perRegion, n)
  {
    forall q | 0 <= q < |perRegion|
      ensures LaneCount(|perRegion[q]|, n) && InsideLane(regions[q], perRegion[q])
    {
      LaneInside(regions[q], values, minLen, maxLen, starts[q], lanes[q]);
    }
  }

  /** How many segments a lane receives, for the floored linesPerRegion n. */
  predicate LaneCount(count: nat, n: int)
  {
    (n >= 1 ==> 1 <= count <= n) && (n <= 0 ==> count == 0)
  }

  /**
   * The segment four draws from position p give: x1, y1, x2, y2 in that order,
   * each scaled into the lane's inner box.
   */
  function SegmentAt(region: Region, values: seq<real>, p: nat): (s: Segment)
    requires UnitStream(values) && Drawable(region)
    ensures SegmentInInner(region, s)
  {
    Segment(Scale(region.xmin + Padding, region.xmax - Padding, DrawAt(values, p)),
            Scale(region.ymin + Padding, region.ymax - Padding, DrawAt(values, p + 1)),
            Scale(region.xmin + Padding, region.xmax - Padding, DrawAt(values, p + 2)),
            Scale(region.ymin + Padding, region.ymax - Padding, DrawAt(values, p + 3)))
  }

  /** Four draws from a clamped cursor give the segment counted from the unclamped position. */
  lemma SegmentAtClamp(region: Region, values: seq<real>, v: nat)
    requires UnitStream(values) && Drawable(region)
    ensures SegmentAt(region, values, Clamp(values, v)) == SegmentAt(region, values, v)
  {
    ClampShift(values, v, 0);
    ClampShift(values, v, 1);
    ClampShift(values, v, 2);
    ClampShift(values, v, 3);
  }

  /** The k-th attempt of the first-segment loop started at position p0. */
  function FirstAttempt(region: Region, values: seq<real>, p0: nat, k: nat): (s: Segment)
    requires UnitStream(values) && Drawable(region)
  {
    SegmentAt(region, values, p0 + 4 * k)
  }

  /** The sample point two draws from position p give, with partition id 0. */
  function SamplePointAt(region: Region, values: seq<real>, p: nat): (pt: SamplePoint)
    requires UnitStream(values) && Drawable(region)
    ensures InInner(region, pt.x, pt.y) && pt.partitionId == 0
  {
    SamplePoint(Scale(region.xmin + Padding, region.xmax - Padding, DrawAt(values, p)),
                Scale(region.ymin + Padding, region.ymax - Padding, DrawAt(values, p + 1)),
                0)
  }

  /** Math.floor(p.random(n)) for the draw at position q. */
  function IndexAt(values: seq<real>, n: nat, q: nat): (k: nat)
    requires UnitStream(values) && n > 0
    ensures k < n
  {
    IndexOf(n, DrawAt(values, q))
  }

  /**
   * One pair of candidate indices drawn from cursor position start with
   * `draws` draws: i1 is the first draw, i2 the last, every draw between them
   * repeated i1 while the stream still had values, and the redrawing stopped
   * because i2 differs from i1 or the stream ran out.
   */
  ghost predicate PairDrawn(values: seq<real>, n: nat, start: nat, draws: nat, i1: nat, i2: nat)
    requires UnitStream(values) && n > 0
  {
    draws >= 2 &&
    i1 == IndexAt(values, n, start) &&
    i2 == IndexAt(values, n, start + draws - 1) &&
    Repeated(values, n, start + 1, start + draws - 1, i1) &&
    (i1 != i2 || start + draws >= |values|)
  }

  /**
   * Every draw at the positions lo up to hi - 1 gave index i1, and after each
   * of them the stream still had values left.
   */
  ghost predicate Repeated(values: seq<real>, n: nat, lo: nat, hi: nat, i1: nat)
    requires UnitStream(values) && n > 0
    decreases hi
  {
    hi <= lo || (Repeated(values, n, lo, hi - 1, i1) && hi < |values| && IndexAt(values, n, hi - 1) == i1)
  }

  /** The point with its partition id set against the lines eqs. */
  function Classified(eqs: seq<LineEq>, p: SamplePoint): (c: SamplePoint)
    ensures c.x == p.x && c.y == p.y && c.partitionId == PartitionId(eqs, p.x, p.y)
  {
    p.(partitionId := PartitionId(eqs, p.x, p.y))
  }

  /**
   * samples are the sample points drawn two draws apart from cursor position
   * p0, each classified against the lines eqs.
   */
  ghost predicate SampledAt(region: Region, eqs: seq<LineEq>, values: seq<real>, p0: nat, samples: seq<SamplePoint>)
    requires UnitStream(values) && Drawable(region)
  {
    forall i :: 0 <= i < |samples| ==>
      samples[i] == Classified(eqs, SamplePointAt(region, values, p0 + 2 * i))
  }

  /** One attempt of the later-segment loop: the draws it took and the two indices. */
  datatype Attempt = Attempt(draws: nat, i1: nat, i2: nat)

  /** The draws a sequence of attempts took altogether. */
  function Consumed(tries: seq<Attempt>): nat
  {
    if tries == [] then 0 else Consumed(tries[..|tries| - 1]) + tries[|tries| - 1].draws
  }

  /** Where the cursor stands once the attempts tries have been drawn from position p0. */
  function After(values: seq<real>, p0: nat, tries: seq<Attempt>): nat
  {
    Clamp(values, p0 + Consumed(tries))
  }

  /**
   * Each attempt is a pair drawn where the attempts before it left the
   * cursor, the first one from position p0.
   */
  ghost predicate AttemptsDrawn(values: seq<real>, n: nat, p0: nat, tries: seq<Attempt>)
    requires UnitStream(values) && n > 0
    decreases |tries|
  {
    tries == [] ||
    (var front, last := tries[..|tries| - 1], tries[|tries| - 1];
     AttemptsDrawn(values, n, p0, front) &&
     PairDrawn(values, n, After(values, p0, front), last.draws, last.i1, last.i2))
  }

  /** One more pair drawn from where the attempts left the cursor extends them. */
  lemma AttemptsExtend(values: seq<real>, n: nat, p0: nat, tries: seq<Attempt>, t: Attempt)
    requires UnitStream(values) && n > 0
    requires AttemptsDrawn(values, n, p0, tries)
    requires PairDrawn(values, n, After(values, p0, tries), t.draws, t.i1, t.i2)
    ensures AttemptsDrawn(values, n, p0, tries + [t])
    ensures Consumed(tries + [t]) == Consumed(tries) + t.draws
  {
    assert (tries + [t])[..|tries|] == tries;
  }

  /**
   * One more pair, drawn where the attempts left the cursor after an attempt
   * out of the band, extends them.
   */
  lemma PairsExtend(values: seq<real>, minLen: real, maxLen: real, cands: seq<SamplePoint>,
                    p: nat, tries: seq<Attempt>, s: Segment, t: Attempt)
    requires UnitStream(values) && |cands| >= 2
    requires tries == [] || (PairsDrawn(values, minLen, maxLen, cands, p, tries, s) && !InBand(DistSq(s), minLen, maxLen))
    requires PairDrawn(values, |cands|, After(values, p, tries), t.draws, t.i1, t.i2)
    requires t.i1 < |cands| && t.i2 < |cands|
    ensures PairsDrawn(values, minLen, maxLen, cands, p, tries + [t], Join(cands, t.i1, t.i2))
    ensures Consumed(tries + [t]) == Consumed(tries) + t.draws
  {
    AttemptsExtend(values, |cands|, p, tries, t);
    var ts := tries + [t];
    forall k | 0 <= k < |ts| - 1
      ensures ts[k].i1 < |cands| && ts[k].i2 < |cands| &&
        !InBand(DistSq(Join(cands, ts[k].i1, ts[k].i2)), minLen, maxLen)
    {
      assert ts[k] == tries[k];
    }
  }

  /**
   * The state of the later-segment loop after some attempts: they were
   * drawn as PairsDrawn says from p0, the cursor pos stands after them, i1
   * and i2 are the last pair, and equal indices only occur once the stream
   * ran out.
   */
  ghost predicate Tried(values: seq<real>, pos: nat, cands: seq<SamplePoint>, minLen: real, maxLen: real,
                        p0: nat, tries: seq<Attempt>, i1: nat, i2: nat, s: Segment, distSq: real)
    requires UnitStream(values) && |cands| >= 2
  {
    PairsDrawn(values, minLen, maxLen, cands, p0, tries, s) &&
    pos == After(values, p0, tries) &&
    i1 == tries[|tries| - 1].i1 && i2 == tries[|tries| - 1].i2 &&
    distSq == DistSq(s) &&
    (i1 == i2 ==> pos >= |values|)
  }

  /**
   * One step of the later-segment loop: a pair drawn where the attempts so
   * far left the cursor, after a last attempt out of the band, extends them.
   */
  lemma TriedNext(values: seq<real>, minLen: real, maxLen: real, cands: seq<SamplePoint>, p0: nat,
                  tries: seq<Attempt>, i1: nat, i2: nat, s: Segment, distSq: real, t: Attempt, pos: nat)
    requires UnitStream(values) && |cands| >= 2 && p0 <= |values|
    requires tries == [] ||
      (Tried(values, After(values, p0, tries), cands, minLen, maxLen, p0, tries, i1, i2, s, distSq) &&
       !InBand(distSq, minLen, maxLen))
    requires PairDrawn(values, |cands|, After(values, p0, tries), t.draws, t.i1, t.i2)
    requires t.i1 < |cands| && t.i2 < |cands|
    requires pos == Clamp(values, After(values, p0, tries) + t.draws)
    ensures Tried(values, pos, cands, minLen, maxLen, p0, tries + [t], t.i1, t.i2,
                  Join(cands, t.i1, t.i2), DistSq(Join(cands, t.i1, t.i2)))
  {
    ClampShift(values, p0 + Consumed(tries), t.draws);
    PairsExtend(values, minLen, maxLen, cands, p0, tries, s, t);
  }

  /** The segment joining candidates i and j. */
  function Join(cands: seq<SamplePoint>, i: nat, j: nat): (s: Segment)
    requires i < |cands| && j < |cands|
    ensures s.x1 == cands[i].x && s.y1 == cands[i].y && s.x2 == cands[j].x && s.y2 == cands[j].y
  {
    Segment(cands[i].x, cands[i].y, cands[j].x, cands[j].y)
  }

  /**
   * What a slot of a lane was drawn from: the number of attempts, and for a
   * later slot the classified sample points, the chosen cell, the sample
   * indices of the two points joined and the attempts themselves.
   */
  datatype Trial = Trial(tries: nat, samples: seq<SamplePoint>, best: nat, pick1: nat, pick2: nat,
                         attempts: seq<Attempt>)

  /** The first slot: between one and FirstMaxAttempts attempts, forced exactly when all were used. */
  predicate FirstSlot(t: Trial, forced: bool)
  {
    1 <= t.tries <= FirstMaxAttempts && (forced <==> t.tries == FirstMaxAttempts)
  }

  /**
   * The first slot drawn from position p0: between one and FirstMaxAttempts
   * attempts, every one before the last out of the length band; s is the
   * last attempt, in the band, or, when the slot was forced, the extra draw
   * after it.
   */
  ghost predicate FirstDrawn(region: Region, values: seq<real>, minLen: real, maxLen: real,
                             p0: nat, t: Trial, s: Segment, forced: bool)
    requires UnitStream(values) && Drawable(region)
  {
    FirstSlot(t, forced) &&
    (forall k :: 0 <= k < t.tries - 1 ==> !InBand(DistSq(FirstAttempt(region, values, p0, k)), minLen, maxLen)) &&
    s == FirstAttempt(region, values, p0, if forced then t.tries else t.tries - 1) &&
    (!forced ==> InBand(DistSq(s), minLen, maxLen))
  }

  /**
   * The attempts of a later slot among the candidates cands, drawn from
   * position p: each pair drawn where the one before left the cursor, every
   * attempt before the last out of the length band, and s joining the last
   * pair.
   */
  ghost predicate PairsDrawn(values: seq<real>, minLen: real, maxLen: real, cands: seq<SamplePoint>,
                             p: nat, tries: seq<Attempt>, s: Segment)
    requires UnitStream(values) && |cands| >= 2
  {
    |tries| >= 1 &&
    AttemptsDrawn(values, |cands|, p, tries) &&
    (forall k :: 0 <= k < |tries| - 1 ==>
      tries[k].i1 < |cands| && tries[k].i2 < |cands| &&
      !InBand(DistSq(Join(cands, tries[k].i1, tries[k].i2)), minLen, maxLen)) &&
    tries[|tries| - 1].i1 < |cands| && tries[|tries| - 1].i2 < |cands| &&
    s == Join(cands, tries[|tries| - 1].i1, tries[|tries| - 1].i2)
  }

  /**
   * A later slot: the samples are NumSamplePoints points of the inner box,
   * each classified against the lines eqs before it; best is their most
   * populous cell; the segment joins two sample points of that cell; between
   * one and LaterMaxAttempts attempts were made, forced exactly when all were.
   */
  ghost predicate InLargestCell(region: Region, eqs: seq<LineEq>, t: Trial, s: Segment, forced: bool)
  {
    |t.samples| == NumSamplePoints &&
    (forall i :: 0 <= i < |t.samples| ==>
      InInner(region, t.samples[i].x, t.samples[i].y) &&
      t.samples[i].partitionId == PartitionId(eqs, t.samples[i].x, t.samples[i].y)) &&
    MostPopulous(t.samples, t.best) &&
    t.pick1 < |t.samples| && t.pick2 < |t.samples| &&
    t.samples[t.pick1].partitionId == t.best && t.samples[t.pick2].partitionId == t.best &&
    s == Join(t.samples, t.pick1, t.pick2) &&
    1 <= t.tries <= LaterMaxAttempts && (forced <==> t.tries == LaterMaxAttempts)
  }

  /**
   * A later slot drawn from position p0 against the lines eqs: the sample
   * points come from the stream at p0 and best is their most populous cell;
   * the slot commits exactly when that cell holds two points or more, and
   * then its segment comes from the attempts drawn right after the samples,
   * the first one in the band ending them unless all were used.
   */
  ghost predicate LaterDrawn(region: Region, eqs: seq<LineEq>, values: seq<real>, minLen: real, maxLen: real,
                             p0: nat, t: Trial, s: Segment, committed: bool, forced: bool)
    requires UnitStream(values) && Drawable(region)
  {
    |t.samples| == NumSamplePoints &&
    SampledAt(region, eqs, values, p0, t.samples) &&
    MostPopulous(t.samples, t.best) &&
    (committed <==> |Candidates(t.samples, t.best)| >= 2) &&
    (!committed ==> !forced) &&
    (committed ==>
      1 <= t.tries <= LaterMaxAttempts && (forced <==> t.tries == LaterMaxAttempts) &&
      |t.attempts| == t.tries &&
      PairsDrawn(values, minLen, maxLen, Candidates(t.samples, t.best),
                 Clamp(values, p0 + 2 * NumSamplePoints), t.attempts, s) &&
      (!forced ==> InBand(DistSq(s), minLen, maxLen)))
  }

  /**
   * A segment placed in the largest cell lies in the inner box, and both its
   * endpoints are in that cell of the earlier lines.
   */
  lemma LargestCellSegment(region: Region, eqs: seq<LineEq>, t: Trial, s: Segment, forced: bool)
    requires InLargestCell(region, eqs, t, s, forced)
    ensures SegmentInInner(region, s)
    ensures PartitionId(eqs, s.x1, s.y1) == t.best == PartitionId(eqs, s.x2, s.y2)
  {
    assert t.samples[t.pick1].partitionId == PartitionId(eqs, s.x1, s.y1);
    assert t.samples[t.pick2].partitionId == PartitionId(eqs, s.x2, s.y2);
  }


  /**
   * A later slot that committed placed its segment in the inner box, with
   * both endpoints in the most populous cell of the lines before it.
   */
  lemma LaterInCell(region: Region, eqs: seq<LineEq>, values: seq<real>, minLen: real, maxLen: real,
                    p0: nat, t: Trial, s: Segment, forced: bool)
    requires UnitStream(values) && Drawable(region)
    requires LaterDrawn(region, eqs, values, minLen, maxLen, p0, t, s, true, forced)
    ensures SegmentInInner(region, s)
    ensures PartitionId(eqs, s.x1, s.y1) == t.best == PartitionId(eqs, s.x2, s.y2)
  {
    PairsInCell(region, eqs, values, minLen, maxLen, p0, t.samples, t.best,
                Clamp(values, p0 + 2 * NumSamplePoints), t.attempts, s);
  }

  /**
   * The attempts among the candidates of cell best end on a segment of the
   * inner box with both ends in best.
   */
  lemma PairsInCell(region: Region, eqs: seq<LineEq>, values: seq<real>, minLen: real, maxLen: real, p0: nat,
                    samples: seq<SamplePoint>, best: nat, q: nat, tries: seq<Attempt>, s: Segment)
    requires UnitStream(values) && Drawable(region)
    requires SampledAt(region, eqs, values, p0, samples)
    requires |Candidates(samples, best)| >= 2
    requires PairsDrawn(values, minLen, maxLen, Candidates(samples, best), q, tries, s)
    ensures SegmentInInner(region, s)
    ensures PartitionId(eqs, s.x1, s.y1) == best == PartitionId(eqs, s.x2, s.y2)
  {
    var cands := Candidates(samples, best);
    var last := tries[|tries| - 1];
    SampleInCell(region, eqs, values, p0, samples, best, cands[last.i1]);
    SampleInCell(region, eqs, values, p0, samples, best, cands[last.i2]);
  }

  /** A candidate of cell best is a sample point of the inner box, classified into best. */
  lemma SampleInCell(region: Region, eqs: seq<LineEq>, values: seq<real>, p0: nat,
                     samples: seq<SamplePoint>, best: nat, c: SamplePoint)
    requires UnitStream(values) && Drawable(region)
    requires SampledAt(region, eqs, values, p0, samples)
    requires c in Candidates(samples, best)
    ensures InInner(region, c.x, c.y) && PartitionId(eqs, c.x, c.y) == best
  {
    var i :| 0 <= i < |samples| && samples[i] == c;
    assert c == Classified(eqs, SamplePointAt(region, values, p0 + 2 * i));
  }


  /**
   * Joining the candidates i1 and i2 of the most populous cell joins the
   * sample points ks[i1] and ks[i2], both of that cell.
   */
  lemma PickedInLargestCell(region: Region, eqs: seq<LineEq>, pts: seq<SamplePoint>, best: nat,
                            cands: seq<SamplePoint>, ks: seq<nat>, i1: nat, i2: nat,
                            s: Segment, trial: Trial, forced: bool)
    requires |pts| == NumSamplePoints && MostPopulous(pts, best)
    requires forall i :: 0 <= i < |pts| ==>
      InInner(region, pts[i].x, pts[i].y) && pts[i].partitionId == PartitionId(eqs, pts[i].x, pts[i].y)
    requires |ks| == |cands|
    requires forall i :: 0 <= i < |ks| ==> ks[i] < |pts| && cands[i] == pts[ks[i]] && pts[ks[i]].partitionId == best
    requires i1 < |ks| && i2 < |ks| && s == Join(cands, i1, i2)
    requires trial.samples == pts && trial.best == best && trial.pick1 == ks[i1] && trial.pick2 == ks[i2]
    requires 1 <= trial.tries <= LaterMaxAttempts && (forced <==> trial.tries == LaterMaxAttempts)
    ensures InLargestCell(region, eqs, trial, s, forced)
  {
  }

  class Sketch {
    /** The random source p.random draws from. */
    const rng: Random
    var regions: seq<Region>
    /** The committed guide segments of all lanes, lane after lane. */
    var lines: seq<Segment>
    /** One step factor per committed segment. */
    var lineStepFactor: seq<real>
    /** One colour per segment, kept as the mix weight between the two anchor colours. */
    var lineColors: seq<real>
    /** The segments of each lane, in the order they were committed. */
    ghost var perRegion: seq<seq<Segment>>

    ghost predicate Valid()
      reads this, rng
    {
      rng.Valid()
    }

    constructor (stream: seq<real>)
      requires UnitStream(stream)
      ensures Valid() && rng.values == stream && rng.pos == 0
      ensures regions == [] && lines == [] && lineStepFactor == [] && lineColors == [] && perRegion == []
    {
      rng := new Random(stream);
      regions, lines, lineStepFactor, lineColors := [], [], [], [];
      perRegion := [];
    }

    /** Four draws x1, y1, x2, y2, each scaled into the lane's inner box. */
    method DrawSegment(region: Region) returns (s: Segment)
      requires Valid() && Drawable(region)
      modifies rng
      ensures Valid()
      ensures SegmentInInner(region, s)
      ensures s == SegmentAt(region, rng.values, old(rng.pos))
      ensures rng.pos == Clamp(rng.values, old(rng.pos) + 4)
    {
      ghost var p0 := rng.pos;
      var x1 := rng.Uniform(region.xmin + Padding, region.xmax - Padding);
      ClampShift(rng.values, p0 + 1, 0);
      ClampShift(rng.values, p0 + 1, 1);
      var y1 := rng.Uniform(region.ymin + Padding, region.ymax - Padding);
      ClampShift(rng.values, p0 + 2, 0);
      ClampShift(rng.values, p0 + 2, 1);
      var x2 := rng.Uniform(region.xmin + Padding, region.xmax - Padding);
      ClampShift(rng.values, p0 + 3, 0);
      ClampShift(rng.values, p0 + 3, 1);
      var y2 := rng.Uniform(region.ymin + Padding, region.ymax - Padding);
      s := Segment(x1, y1, x2, y2);
    }

    /**
     * The first segment of a lane: draw until the length is in the band, at
     * most FirstMaxAttempts times; if the attempts ran out (even when the last
     * one was in the band) draw once more and keep that pair whatever its
     * length. tries counts the loop's attempts; every attempt before the last
     * was out of the band.
     */
    method DrawFirst(region: Region, minLen: real, maxLen: real) returns (s: Segment, forced: bool, ghost tries: nat)
      requires Valid() && Drawable(region) && minLen > 0.0
      modifies rng
      ensures Valid()
      ensures SegmentInInner(region, s)
      ensures !forced ==> InBand(DistSq(s), minLen, maxLen)
      ensures 1 <= tries <= FirstMaxAttempts
      ensures forced <==> tries == FirstMaxAttempts
      ensures forall k :: 0 <= k < tries - 1 ==>
        !InBand(DistSq(FirstAttempt(region, rng.values, old(rng.pos), k)), minLen, maxLen)
      ensures !forced ==> s == FirstAttempt(region, rng.values, old(rng.pos), tries - 1)
      ensures forced ==> s == FirstAttempt(region, rng.values, old(rng.pos), tries)
      ensures rng.pos == Clamp(rng.values, old(rng.pos) + 4 * (if forced then tries + 1 else tries))
    {
      ghost var p0 := rng.pos;
      var distSq := 0.0;
      var attempts := 0;
      s := Segment(0.0, 0.0, 0.0, 0.0);
      while (TooShort(distSq, minLen) || TooLong(distSq, maxLen)) && attempts < FirstMaxAttempts
        invariant Valid()
        invariant attempts <= FirstMaxAttempts
        invariant rng.pos == Clamp(rng.values, p0 + 4 * attempts)
        invariant attempts == 0 ==> distSq == 0.0
        invariant attempts > 0 ==> s == FirstAttempt(region, rng.values, p0, attempts - 1) && distSq == DistSq(s)
        invariant forall k :: 0 <= k < attempts - 1 ==> !InBand(DistSq(FirstAttempt(region, rng.values, p0, k)), minLen, maxLen)
      {
        SegmentAtClamp(region, rng.values, p0 + 4 * attempts);
        ClampShift(rng.values, p0 + 4 * attempts, 4);
        s := DrawSegment(region);
        distSq := DistSq(s);
        attempts := attempts + 1;
      }
      forced := attempts >= FirstMaxAttempts;
      tries := attempts;
      if forced {
        SegmentAtClamp(region, rng.values, p0 + 4 * attempts);
        ClampShift(rng.values, p0 + 4 * attempts, 4);
        s := DrawSegment(region);
        distSq := DistSq(s);
      }
    }

    /** NumSamplePoints points, two draws each, scaled into the lane's inner box, all with id 0. */
    method DrawSamples(region: Region) returns (pts: seq<SamplePoint>)
      requires Valid() && Drawable(region)
      modifies rng
      ensures Valid()
      ensures |pts| == NumSamplePoints
      ensures forall i :: 0 <= i < |pts| ==> InInner(region, pts[i].x, pts[i].y) && pts[i].partitionId == 0
      ensures forall i :: 0 <= i < |pts| ==> pts[i] == SamplePointAt(region, rng.values, old(rng.pos) + 2 * i)
      ensures rng.pos == Clamp(rng.values, old(rng.pos) + 2 * NumSamplePoints)
    {
      ghost var p0 := rng.pos;
      pts := [];
      for i := 0 to NumSamplePoints
        invariant Valid() && |pts| == i
        invariant rng.pos == Clamp(rng.values, p0 + 2 * i)
        invariant forall k :: 0 <= k < i ==> pts[k] == SamplePointAt(region, rng.values, p0 + 2 * k)
      {
        ClampShift(rng.values, p0 + 2 * i, 0);
        ClampShift(rng.values, p0 + 2 * i, 1);
        var x := rng.Uniform(region.xmin + Padding, region.xmax - Padding);
        ClampShift(rng.values, p0 + 2 * i + 1, 0);
        ClampShift(rng.values, p0 + 2 * i + 1, 1);
        var y := rng.Uniform(region.ymin + Padding, region.ymax - Padding);
        pts := pts + [SamplePoint(x, y, 0)];
      }
    }

    /**
     * Two candidate indices out of n: the first drawn once, the second
     * redrawn while it equals the first. draws counts the draws made; the
     * redrawing also stops once the stream has run out.
     */
    method DrawPair(n: nat) returns (i1: nat, i2: nat, ghost draws: nat)
      requires Valid() && n >= 2
      modifies rng
      ensures Valid()
      ensures i1 < n && i2 < n
      ensures PairDrawn(rng.values, n, old(rng.pos), draws, i1, i2)
      ensures rng.pos == Clamp(rng.values, old(rng.pos) + draws)
    {
      ghost var p0 := rng.pos;
      i1 := rng.Index(n);
      ClampShift(rng.values, p0 + 1, 0);
      ClampShift(rng.values, p0 + 1, 1);
      i2 := rng.Index(n);
      draws := 2;
      while i1 == i2 && n > 1 && !rng.Exhausted()
        invariant Valid() && draws >= 2 && i2 < n
        invariant rng.pos == Clamp(rng.values, p0 + draws)
        invariant i1 == IndexAt(rng.values, n, p0)
        invariant i2 == IndexAt(rng.values, n, p0 + draws - 1)
        invariant Repeated(rng.values, n, p0 + 1, p0 + draws - 1, i1)
        decreases |rng.values| - rng.pos
      {
        i2 := rng.Index(n);
        draws := draws + 1;
      }
    }

    /**
     * A later segment between two candidates: with fewer than two candidates
     * nothing is drawn; otherwise up to LaterMaxAttempts pairs of indices are
     * drawn until the length is in the band. The segment is committed when
     * it is not too short or when every attempt was used. tries lists the
     * attempts; every attempt before the last was out of the band.
     */
    method DrawLater(cands: seq<SamplePoint>, minLen: real, maxLen: real)
      returns (s: Segment, committed: bool, i1: nat, i2: nat, attempts: nat, distSq: real, ghost tries: seq<Attempt>)
      requires Valid() && minLen > 0.0
      modifies rng
      ensures Valid()
      ensures attempts <= LaterMaxAttempts && |tries| == attempts
      ensures committed <==> !TooShort(distSq, minLen) || attempts >= LaterMaxAttempts
      ensures committed <==> |cands| >= 2
      ensures |cands| < 2 ==> !committed && attempts == 0 && distSq == 0.0 && rng.pos == old(rng.pos)
      ensures committed ==>
        attempts >= 1 &&
        PairsDrawn(rng.values, minLen, maxLen, cands, old(rng.pos), tries, s) &&
        rng.pos == After(rng.values, old(rng.pos), tries)
      ensures committed ==>
        i1 < |cands| && i2 < |cands| &&
        i1 == tries[attempts - 1].i1 && i2 == tries[attempts - 1].i2 &&
        s == Join(cands, i1, i2) && distSq == DistSq(s)
      ensures committed && i1 == i2 ==> rng.Exhausted()
      ensures committed && attempts < LaterMaxAttempts ==> InBand(distSq, minLen, maxLen)
    {
      ghost var p0 := rng.pos;
      distSq := 0.0;
      attempts := 0;
      s := Segment(0.0, 0.0, 0.0, 0.0);
      i1, i2 := 0, 0;
      tries := [];
      while (TooShort(distSq, minLen) || TooLong(distSq, maxLen)) && attempts < LaterMaxAttempts
        invariant Valid()
        invariant attempts <= LaterMaxAttempts && |tries| == attempts
        invariant attempts == 0 ==> distSq == 0.0 && rng.pos == p0
        invariant attempts > 0 ==>
          |cands| >= 2 && Tried(rng.values, rng.pos, cands, minLen, maxLen, p0, tries, i1, i2, s, distSq)
      {
        if |cands| < 2 {
          break;
        }
        ghost var before, last1, last2, lastSeg, lastDistSq := tries, i1, i2, s, distSq;
        ghost var d;
        assert rng.pos == After(rng.values, p0, before);
        i1, i2, d := DrawPair(|cands|);
        TriedNext(rng.values, minLen, maxLen, cands, p0, before, last1, last2, lastSeg, lastDistSq,
                  Attempt(d, i1, i2), rng.pos);
        tries := before + [Attempt(d, i1, i2)];
        s := Join(cands, i1, i2);
        distSq := DistSq(s);
        attempts := attempts + 1;
      }
      committed := !TooShort(distSq, minLen) || attempts >= LaterMaxAttempts;
    }

    /**
     * The partition search of a later slot: draw NumSamplePoints sample
     * points, classify them against the lines so far, tally the ids, pick
     * the most populous cell and keep its points, in sample order.
     */
    method LargestCell(region: Region, eqs: seq<LineEq>)
      returns (pts: seq<SamplePoint>, best: nat, cands: seq<SamplePoint>)
      requires Valid() && Drawable(region)
      modifies rng
      ensures Valid()
      ensures |pts| == NumSamplePoints
      ensures SampledAt(region, eqs, rng.values, old(rng.pos), pts)
      ensures MostPopulous(pts, best)
      ensures cands == Candidates(pts, best) && 1 <= |cands| <= NumSamplePoints
      ensures rng.pos == Clamp(rng.values, old(rng.pos) + 2 * NumSamplePoints)
    {
      var samples := DrawSamples(region);
      pts := AssignPartitions(samples, eqs);
      var counts := CountPartitions(pts);
      var bestCount;
      best, bestCount := LargestPartition(counts);
      cands := Candidates(pts, best);
      CandidatesNonEmpty(pts, counts, best, bestCount);
      LargestIsMostPopulous(pts, counts, best, bestCount);
      assert |cands| <= |pts| by {
        assert multiset(Ids(pts))[best] <= |multiset(Ids(pts))|;
      }
    }

    /**
     * The drawing half of a later slot: join two of the candidates, the
     * points of cell best among the classified samples pts, as DrawLater
     * does. trial records the samples, the cell, the sample indices of the
     * two points joined and the attempts.
     */
    method PickInCell(region: Region, eqs: seq<LineEq>, pts: seq<SamplePoint>, best: nat,
                      cands: seq<SamplePoint>, minLen: real, maxLen: real)
      returns (s: Segment, committed: bool, forced: bool, ghost trial: Trial)
      requires Valid() && minLen > 0.0
      requires |pts| == NumSamplePoints && MostPopulous(pts, best)
      requires forall i :: 0 <= i < |pts| ==>
        InInner(region, pts[i].x, pts[i].y) && pts[i].partitionId == PartitionId(eqs, pts[i].x, pts[i].y)
      requires cands == Candidates(pts, best)
      modifies rng
      ensures Valid()
      ensures trial.samples == pts && trial.best == best
      ensures committed <==> |cands| >= 2
      ensures !committed ==> !forced && rng.pos == old(rng.pos)
      ensures committed ==> InLargestCell(region, eqs, trial, s, forced)
      ensures committed && !forced ==> InBand(DistSq(s), minLen, maxLen)
      ensures committed && trial.pick1 == trial.pick2 ==> rng.Exhausted()
      ensures committed ==>
        |trial.attempts| == trial.tries &&
        PairsDrawn(rng.values, minLen, maxLen, cands, old(rng.pos), trial.attempts, s) &&
        rng.pos == After(rng.values, old(rng.pos), trial.attempts)
    {
      var i1, i2, attempts, distSq;
      ghost var tries;
      s, committed, i1, i2, attempts, distSq, tries := DrawLater(cands, minLen, maxLen);
      forced := attempts >= LaterMaxAttempts;
      if committed {
        var ks := CandidatesInOrder(pts, best);
        trial := Trial(attempts, pts, best, ks[i1], ks[i2], tries);
        PickedInLargestCell(region, eqs, pts, best, cands, ks, i1, i2, s, trial, forced);
        if ks[i1] == ks[i2] {
          assert i1 == i2;
        }
      } else {
        trial := Trial(attempts, pts, best, 0, 0, tries);
      }
    }

    /**
     * One later slot of a lane: pick the most populous cell of the lines so
     * far and try to join two of its points. trial records the classified
     * samples, the chosen cell, the sample indices of the two points joined
     * and the attempts; sampled is where the cursor stood after the samples.
     */
    method DrawInLargestCell(region: Region, eqs: seq<LineEq>, minLen: real, maxLen: real)
      returns (s: Segment, committed: bool, forced: bool, candidateCount: nat,
               ghost trial: Trial, ghost sampled: nat)
      requires Valid() && Drawable(region) && minLen > 0.0
      modifies rng
      ensures Valid()
      ensures 1 <= candidateCount <= NumSamplePoints
      ensures committed ==> SegmentInInner(region, s)
      ensures committed ==> PartitionId(eqs, s.x1, s.y1) == PartitionId(eqs, s.x2, s.y2)
      ensures committed && !forced ==> InBand(DistSq(s), minLen, maxLen)
      ensures |trial.samples| == NumSamplePoints
      ensures SampledAt(region, eqs, rng.values, old(rng.pos), trial.samples)
      ensures MostPopulous(trial.samples, trial.best)
      ensures candidateCount == |Candidates(trial.samples, trial.best)|
      ensures committed <==> candidateCount >= 2
      ensures !committed ==> !forced
      ensures committed ==> InLargestCell(region, eqs, trial, s, forced)
      ensures committed && trial.pick1 == trial.pick2 ==> rng.Exhausted()
      ensures sampled == Clamp(rng.values, old(rng.pos) + 2 * NumSamplePoints)
      ensures !committed ==> rng.pos == sampled
      ensures LaterDrawn(region, eqs, rng.values, minLen, maxLen, old(rng.pos), trial, s, committed, forced)
      ensures committed ==>
        |trial.attempts| == trial.tries &&
        PairsDrawn(rng.values, minLen, maxLen, Candidates(trial.samples, trial.best), sampled, trial.attempts, s) &&
        rng.pos == After(rng.values, sampled, trial.attempts)
    {
      var pts, best, cands := LargestCell(region, eqs);
      sampled := rng.pos;
      candidateCount := |cands|;
      s, committed, forced, trial := PickInCell(region, eqs, pts, best, cands, minLen, maxLen);
      assert committed ==> SegmentInInner(region, s) && PartitionId(eqs, s.x1, s.y1) == PartitionId(eqs, s.x2, s.y2) by {
        if committed {
          LargestCellSegment(region, eqs, trial, s, forced);
        }
      }
    }

    /** Append a segment and draw its step factor, one draw scaled into [10, 40). */
    method Commit(s: Segment) returns (factor: real)
      requires Valid()
      modifies this`lines, this`lineStepFactor, rng
      ensures Valid()
      ensures lines == old(lines) + [s]
      ensures lineStepFactor == old(lineStepFactor) + [factor]
      ensures StepFactorMin <= factor < StepFactorMax
      ensures factor == Scale(StepFactorMin, StepFactorMax, DrawAt(rng.values, old(rng.pos)))
      ensures rng.pos == Clamp(rng.values, old(rng.pos) + 1)
    {
      lines := lines + [s];
      factor := rng.Uniform(StepFactorMin, StepFactorMax);
      lineStepFactor := lineStepFactor + [factor];
    }

    /**
     * The first slot of a lane: draw a segment by rejection sampling and
     * append it with its step factor. slot records the pass.
     */
    method SeedFirst(region: Region, minLen: real, maxLen: real)
      returns (s: Segment, forced: bool, factor: real, ghost slot: Slot)
      requires Valid() && Drawable(region) && minLen > 0.0
      modifies this`lines, this`lineStepFactor, rng
      ensures Valid()
      ensures lines == old(lines) + [s] && lineStepFactor == old(lineStepFactor) + [factor]
      ensures SegmentInInner(region, s) && StepFactorMin <= factor < StepFactorMax
      ensures slot.committed && slot.forced == forced && slot.seg == s && slot.factor == factor
      ensures SlotDrawn(region, rng.values, minLen, maxLen, [], old(rng.pos), true, slot)
      ensures rng.pos == slot.stop
    {
      ghost var tries;
      s, forced, tries := DrawFirst(region, minLen, maxLen);
      factor := Commit(s);
      slot := Slot(true, forced, s, factor, Trial(tries, [], 0, 0, 0, []), rng.pos);
    }

    /**
     * A later slot of a lane: draw a segment in the most populous cell of the
     * lines eqs and, when the slot commits, append it with its step factor.
     * slot records the pass.
     */
    method SeedLater(region: Region, eqs: seq<LineEq>, minLen: real, maxLen: real)
      returns (s: Segment, committed: bool, forced: bool, factor: real, ghost slot: Slot)
      requires Valid() && Drawable(region) && minLen > 0.0
      modifies this`lines, this`lineStepFactor, rng
      ensures Valid()
      ensures committed ==> lines == old(lines) + [s] && lineStepFactor == old(lineStepFactor) + [factor]
      ensures !committed ==> lines == old(lines) && lineStepFactor == old(lineStepFactor)
      ensures committed ==> SegmentInInner(region, s) && StepFactorMin <= factor < StepFactorMax
      ensures slot.committed == committed && slot.forced == forced && slot.seg == s && slot.factor == factor
      ensures SlotDrawn(region, rng.values, minLen, maxLen, eqs, old(rng.pos), false, slot)
      ensures rng.pos == slot.stop
    {
      ghost var p0 := rng.pos;
      var candidateCount;
      ghost var trial, sampled;
      s, committed, forced, candidateCount, trial, sampled := DrawInLargestCell(region, eqs, minLen, maxLen);
      factor := StepFactorMin;
      if committed {
        factor := Commit(s);
      }
      slot := Slot(committed, forced, s, factor, trial, rng.pos);
    }

    /**
     * One pass of a lane's loop: the first pass seeds by rejection sampling,
     * every later one in the most populous cell of the lines eqs committed so
     * far. slot records the pass, which extends the lane's record slots.
     */
    method SeedPass(region: Region, lineIndex: nat, eqs: seq<LineEq>, minLen: real, maxLen: real,
                    ghost p0: nat, ghost slots: seq<Slot>)
      returns (eqs': seq<LineEq>, ghost slot: Slot)
      requires Valid() && Drawable(region) && minLen > 0.0
      requires lineIndex == |slots|
      requires Lane(region, rng.values, minLen, maxLen, p0, slots) && rng.pos == LaneEnd(p0, slots)
      requires eqs == LinesOf(slots)
      modifies this`lines, this`lineStepFactor, rng
      ensures Valid()
      ensures Lane(region, rng.values, minLen, maxLen, p0, slots + [slot]) && rng.pos == LaneEnd(p0, slots + [slot])
      ensures eqs' == LinesOf(slots + [slot])
      ensures lines == old(lines) + (if slot.committed then [slot.seg] else [])
      ensures lineStepFactor == old(lineStepFactor) + (if slot.committed then [slot.factor] else [])
      ensures Segments(slots + [slot]) == Segments(slots) + (if slot.committed then [slot.seg] else [])
      ensures Factors(slots + [slot]) == Factors(slots) + (if slot.committed then [slot.factor] else [])
      ensures lineIndex == 0 ==> slot.committed
      ensures slot.committed ==> SegmentInInner(region, slot.seg) && StepFactorMin <= slot.factor < StepFactorMax
    {
      eqs' := eqs;
      if lineIndex == 0 {
        var s, f, factor;
        s, f, factor, slot := SeedFirst(region, minLen, maxLen);
        eqs' := eqs + [LineOf(s)];
      } else {
        var s, committed, f, factor;
        s, committed, f, factor, slot := SeedLater(region, eqs, minLen, maxLen);
        if committed {
          eqs' := eqs + [LineOf(s)];
        }
      }
      LaneExtend(region, rng.values, minLen, maxLen, p0, slots, slot);
    }

    /**
     * The segments of one lane, appended to lines. slots records every pass of
     * the loop, committed or skipped, and eqs holds the line equations of the
     * committed segments in order.
     */
    method SeedRegion(region: Region, n: int, minLen: real, maxLen: real)
      returns (eqs: seq<LineEq>, ghost slots: seq<Slot>)
      requires Valid() && Drawable(region) && minLen > 0.0
      requires |lineStepFactor| == |lines| && FactorsInBand(lineStepFactor)
      modifies this`lines, this`lineStepFactor, rng
      ensures Valid()
      ensures (n >= 0 ==> |slots| == n) && (n < 0 ==> slots == [])
      ensures Lane(region, rng.values, minLen, maxLen, old(rng.pos), slots)
      ensures rng.pos == LaneEnd(old(rng.pos), slots)
      ensures eqs == LinesOf(slots)
      ensures lines == old(lines) + Segments(slots)
      ensures lineStepFactor == old(lineStepFactor) + Factors(slots)
      ensures |lineStepFactor| == |lines| && FactorsInBand(lineStepFactor)
      ensures LaneCount(|Segments(slots)|, n)
      ensures InsideLane(region, Segments(slots))
    {
      ghost var p0 := rng.pos;
      eqs, slots := [], [];
      var lineIndex := 0;
      while lineIndex < n
        invariant Valid()
        invariant 0 <= lineIndex && (n >= 0 ==> lineIndex <= n) && (n <= 0 ==> lineIndex == 0)
        invariant |slots| == lineIndex
        invariant Lane(region, rng.values, minLen, maxLen, p0, slots) && rng.pos == LaneEnd(p0, slots)
        invariant eqs == LinesOf(slots)
        invariant lines == old(lines) + Segments(slots)
        invariant lineStepFactor == old(lineStepFactor) + Factors(slots)
        invariant |lineStepFactor| == |lines| && FactorsInBand(lineStepFactor)
      {
        ghost var slot;
        eqs, slot := SeedPass(region, lineIndex, eqs, minLen, maxLen, p0, slots);
        slots := slots + [slot];
        lineIndex := lineIndex + 1;
      }
      LaneInside(region, rng.values, minLen, maxLen, p0, slots);
    }

    /** Colour weights: one draw scaled into [0, 1) per committed segment. */
    method AssignColors()
      requires Valid()
      modifies this`lineColors, rng
      ensures Valid()
      ensures |lineColors| == |lines|
      ensures forall i :: 0 <= i < |lineColors| ==> 0.0 <= lineColors[i] < 1.0
      ensures forall i :: 0 <= i < |lineColors| ==> lineColors[i] == Scale(0.0, 1.0, DrawAt(rng.values, old(rng.pos) + i))
      ensures rng.pos == Clamp(rng.values, old(rng.pos) + |lines|)
    {
      ghost var p0 := rng.pos;
      lineColors := [];
      for i := 0 to |lines|
        invariant Valid() && |lineColors| == i
        invariant rng.pos == Clamp(rng.values, p0 + i)
        invariant forall k :: 0 <= k < i ==> lineColors[k] == Scale(0.0, 1.0, DrawAt(rng.values, p0 + k))
      {
        ClampShift(rng.values, p0 + i, 0);
        ClampShift(rng.values, p0 + i, 1);
        var t := rng.Uniform(0.0, 1.0);
        lineColors := lineColors + [t];
      }
    }

    /**
     * The lanes loop of Setup: every lane in turn runs n passes, beginning
     * where the lane before it left the stream; lines, step factors and the
     * per-lane lists start empty and collect the committed segments.
     */
    method SeedLanes(n: int, minLen: real, maxLen: real) returns (ghost laneSlots: seq<seq<Slot>>, ghost starts: seq<nat>)
      requires Valid() && regions == Layout() && minLen > 0.0
      modifies this`lines, this`lineStepFactor, this`perRegion, rng
      ensures Valid()
      ensures |laneSlots| == |regions| && |starts| == |regions| + 1
      ensures starts[0] == old(rng.pos) && rng.pos == starts[|regions|]
      ensures LanesSeeded(regions, rng.values, minLen, maxLen, n, starts, laneSlots, perRegion)
      ensures lines == Flatten(perRegion) && lineStepFactor == LaneFactors(laneSlots)
      ensures |lineStepFactor| == |lines| && FactorsInBand(lineStepFactor)
    {
      lines, lineStepFactor, perRegion := [], [], [];
      laneSlots, starts := [], [rng.pos];
      for r := 0 to |regions|
        invariant Valid() && |perRegion| == r && lines == Flatten(perRegion)
        invariant |lineStepFactor| == |lines| && FactorsInBand(lineStepFactor)
        invariant |laneSlots| == r && |starts| == r + 1 && starts[0] == old(rng.pos) && rng.pos == starts[r]
        invariant LanesSeeded(regions, rng.values, minLen, maxLen, n, starts, laneSlots, perRegion)
        invariant lineStepFactor == LaneFactors(laneSlots)
      {
        var eqs, slots := SeedRegion(regions[r], n, minLen, maxLen);
        LanesSeededExtend(regions, rng.values, minLen, maxLen, n, starts, laneSlots, perRegion, slots);
        LaneListsExtend(laneSlots, perRegion, slots);
        perRegion := perRegion + [Segments(slots)];
        starts := starts + [rng.pos];
        laneSlots := laneSlots + [slots];
      }
    }

    /**
     * Setup: fix the six lanes, seed every lane with floor(linesPerRegion)
     * slots, then colour every segment. The lanes draw one after another from
     * the stream, lane r as the Lane laneSlots[r] begun at starts[r], and the
     * colours take the draws that follow the last lane. Each lane ends up with
     * between one and floor(linesPerRegion) segments inside its inner box, and
     * the segment, step factor and colour lists have equal length.
     */
    method Setup(params: Params) returns (ghost laneSlots: seq<seq<Slot>>, ghost starts: seq<nat>)
      requires Valid() && params.lineMinLength > 0.0
      modifies this, rng
      ensures Valid()
      ensures |laneSlots| == |regions| && |starts| == |regions| + 1 && starts[0] == old(rng.pos)
      ensures LanesSeeded(regions, rng.values, params.lineMinLength, params.lineMaxLength,
                          params.linesPerRegion.Floor, starts, laneSlots, perRegion)
      ensures lineStepFactor == LaneFactors(laneSlots)
      ensures forall i :: 0 <= i < |lineColors| ==>
                lineColors[i] == Scale(0.0, 1.0, DrawAt(rng.values, starts[|regions|] + i))
      ensures rng.pos == Clamp(rng.values, starts[|regions|] + |lines|)
      ensures regions == Layout()
      ensures |lines| == |lineStepFactor| == |lineColors|
      ensures FactorsInBand(lineStepFactor)
      ensures forall i :: 0 <= i < |lineColors| ==> 0.0 <= lineColors[i] < 1.0
      ensures |perRegion| == |regions| && lines == Flatten(perRegion)
      ensures forall r :: 0 <= r < |regions| ==> LaneCount(|perRegion[r]|, params.linesPerRegion.Floor)
      ensures forall r, k :: 0 <= r < |regions| && 0 <= k < |perRegion[r]| ==> SegmentInInner(regions[r], perRegion[r][k])
      ensures params.linesPerRegion >= 1.0 ==> |regions| <= |lines| <= |regions| * params.linesPerRegion.Floor
      ensures params.linesPerRegion < 1.0 ==> lines == []
    {
      regions := Layout();
      var n := params.linesPerRegion.Floor;
      laneSlots, starts := SeedLanes(n, params.lineMinLength, params.lineMaxLength);
      SeededArePlaced(regions, rng.values, params.lineMinLength, params.lineMaxLength, n, starts, laneSlots, perRegion);
      AssignColors();
      if n >= 1 {
        FlattenLength(perRegion, 1, n);
      } else {
        FlattenLength(perRegion, 0, 0);
      }
    }
  }

  /**
   * One pass of a lane's loop: whether it committed a segment, whether that
   * segment was forced, the segment and its step factor, what it was drawn
   * from, and where the cursor stood when the pass ended.
   */
  datatype Slot = Slot(committed: bool, forced: bool, seg: Segment, factor: real, trial: Trial, stop: nat)

  /**
   * Where the cursor stands once a slot begun at p0 has drawn its segment,
   * before the step factor: after the first slot's attempts (and the extra
   * draw when forced), or after a later slot's sample points and attempts.
   */
  function SegmentDrawnTo(values: seq<real>, p0: nat, first: bool, slot: Slot): nat
  {
    if first then Clamp(values, p0 + 4 * (if slot.forced then slot.trial.tries + 1 else slot.trial.tries))
    else if slot.committed then After(values, Clamp(values, p0 + 2 * NumSamplePoints), slot.trial.attempts)
    else Clamp(values, p0 + 2 * NumSamplePoints)
  }

  /**
   * A pass of a lane's loop begun at position p0 with the lines eqs committed
   * before it: the first pass always commits, as FirstDrawn says; a later one
   * as LaterDrawn says. A committed segment's step factor is the next draw
   * scaled into [StepFactorMin, StepFactorMax); a skipped pass draws nothing more.
   */
  ghost predicate SlotDrawn(region: Region, values: seq<real>, minLen: real, maxLen: real,
                            eqs: seq<LineEq>, p0: nat, first: bool, slot: Slot)
    requires UnitStream(values) && Drawable(region)
  {
    (if first then slot.committed && FirstDrawn(region, values, minLen, maxLen, p0, slot.trial, slot.seg, slot.forced)
     else LaterDrawn(region, eqs, values, minLen, maxLen, p0, slot.trial, slot.seg, slot.committed, slot.forced)) &&
    (slot.committed ==>
      slot.factor == Scale(StepFactorMin, StepFactorMax, DrawAt(values, SegmentDrawnTo(values, p0, first, slot))) &&
      slot.stop == Clamp(values, SegmentDrawnTo(values, p0, first, slot) + 1)) &&
    (!slot.committed ==> slot.stop == SegmentDrawnTo(values, p0, first, slot))
  }

  /** The segments the passes committed, in order. */
  function Segments(slots: seq<Slot>): seq<Segment>
  {
    if slots == [] then []
    else
      var last := slots[|slots| - 1];
      Segments(slots[..|slots| - 1]) + (if last.committed then [last.seg] else [])
  }

  /** The step factors of the committed segments, in order. */
  function Factors(slots: seq<Slot>): seq<real>
  {
    if slots == [] then []
    else
      var last := slots[|slots| - 1];
      Factors(slots[..|slots| - 1]) + (if last.committed then [last.factor] else [])
  }

  /** The line equations of the committed segments, in order. */
  function LinesOf(slots: seq<Slot>): seq<LineEq>
  {
    if slots == [] then []
    else
      var last := slots[|slots| - 1];
      LinesOf(slots[..|slots| - 1]) + (if last.committed then [LineOf(last.seg)] else [])
  }

  /** Where the cursor stands after the passes, begun at p0. */
  function LaneEnd(p0: nat, slots: seq<Slot>): nat
  {
    if slots == [] then p0 else slots[|slots| - 1].stop
  }

  /** The j-th pass of a lane. */
  function PassAt(slots: seq<Slot>, j: nat): Slot
    requires j < |slots|
  {
    slots[j]
  }

  /**
   * The passes of one lane's loop, begun at position p0: each pass starts
   * where the ones before it left the cursor and sees the lines they
   * committed. A pass's guarantees are brought in by naming it with PassAt.
   */
  ghost predicate Lane(region: Region, values: seq<real>, minLen: real, maxLen: real, p0: nat, slots: seq<Slot>)
    requires UnitStream(values) && Drawable(region)
  {
    forall j {:trigger PassAt(slots, j)} :: 0 <= j < |slots| ==>
      SlotDrawn(region, values, minLen, maxLen, LinesOf(slots[..j]), LaneEnd(p0, slots[..j]), j == 0, PassAt(slots, j))
  }

  /** A pass drawn where the lane left off, against its lines so far, extends the lane. */
  lemma LaneExtend(region: Region, values: seq<real>, minLen: real, maxLen: real, p0: nat,
                   slots: seq<Slot>, x: Slot)
    requires UnitStream(values) && Drawable(region)
    requires Lane(region, values, minLen, maxLen, p0, slots)
    requires SlotDrawn(region, values, minLen, maxLen, LinesOf(slots), LaneEnd(p0, slots), |slots| == 0, x)
    ensures Lane(region, values, minLen, maxLen, p0, slots + [x])
    ensures LaneEnd(p0, slots + [x]) == x.stop
    ensures Segments(slots + [x]) == Segments(slots) + (if x.committed then [x.seg] else [])
    ensures Factors(slots + [x]) == Factors(slots) + (if x.committed then [x.factor] else [])
    ensures LinesOf(slots + [x]) == LinesOf(slots) + (if x.committed then [LineOf(x.seg)] else [])
  {
    var ext := slots + [x];
    assert ext[..|slots|] == slots;
    forall j | 0 <= j < |ext|
      ensures SlotDrawn(region, values, minLen, maxLen, LinesOf(ext[..j]), LaneEnd(p0, ext[..j]), j == 0, PassAt(ext, j))
    {
      if j < |slots| {
        LaneCarry(region, values, minLen, maxLen, p0, slots, x, j);
      } else {
        assert ext[..j] == slots && PassAt(ext, j) == x;
      }
    }
  }

  /** Appending a pass leaves the earlier passes' records as they were. */
  lemma LaneCarry(region: Region, values: seq<real>, minLen: real, maxLen: real, p0: nat,
                  slots: seq<Slot>, x: Slot, j: nat)
    requires UnitStream(values) && Drawable(region)
    requires Lane(region, values, minLen, maxLen, p0, slots) && j < |slots|
    ensures SlotDrawn(region, values, minLen, maxLen, LinesOf((slots + [x])[..j]), LaneEnd(p0, (slots + [x])[..j]), j == 0, PassAt(slots + [x], j))
  {
    assert (slots + [x])[..j] == slots[..j] && PassAt(slots + [x], j) == PassAt(slots, j);
  }

  /**
   * Every pass of a lane was drawn as SlotDrawn says, from where the passes
   * before it left the cursor and against the lines they committed.
   */
  lemma LaneSlot(region: Region, values: seq<real>, minLen: real, maxLen: real, p0: nat,
                 slots: seq<Slot>, j: nat)
    requires UnitStream(values) && Drawable(region)
    requires Lane(region, values, minLen, maxLen, p0, slots) && j < |slots|
    ensures SlotDrawn(region, values, minLen, maxLen, LinesOf(slots[..j]), LaneEnd(p0, slots[..j]), j == 0, slots[j])
  {
    assert PassAt(slots, j) == slots[j];
  }

  /** The first k passes of a lane form a lane. */
  lemma LaneTake(region: Region, values: seq<real>, minLen: real, maxLen: real, p0: nat,
                 slots: seq<Slot>, k: nat)
    requires UnitStream(values) && Drawable(region)
    requires Lane(region, values, minLen, maxLen, p0, slots) && k <= |slots|
    ensures Lane(region, values, minLen, maxLen, p0, slots[..k])
  {
    forall j | 0 <= j < k
      ensures SlotDrawn(region, values, minLen, maxLen, LinesOf(slots[..k][..j]), LaneEnd(p0, slots[..k][..j]),
                        j == 0, PassAt(slots[..k], j))
    {
      LaneTakeOne(region, values, minLen, maxLen, p0, slots, k, j);
    }
  }

  /** A pass of a lane keeps its record in every prefix that holds it. */
  lemma LaneTakeOne(region: Region, values: seq<real>, minLen: real, maxLen: real, p0: nat,
                    slots: seq<Slot>, k: nat, j: nat)
    requires UnitStream(values) && Drawable(region)
    requires Lane(region, values, minLen, maxLen, p0, slots) && j < k <= |slots|
    ensures SlotDrawn(region, values, minLen, maxLen, LinesOf(slots[..k][..j]), LaneEnd(p0, slots[..k][..j]),
                      j == 0, PassAt(slots[..k], j))
  {
    assert slots[..k][..j] == slots[..j] && PassAt(slots[..k], j) == PassAt(slots, j);
  }

  /**
   * A pass of a lane that committed placed its segment in the inner box, and
   * the first pass always commits.
   */
  lemma PassInside(region: Region, values: seq<real>, minLen: real, maxLen: real, p0: nat,
                   slots: seq<Slot>, j: nat)
    requires UnitStream(values) && Drawable(region)
    requires Lane(region, values, minLen, maxLen, p0, slots) && j < |slots|
    ensures j == 0 ==> slots[j].committed
    ensures slots[j].committed ==> SegmentInInner(region, slots[j].seg)
  {
    LaneSlot(region, values, minLen, maxLen, p0, slots, j);
    var x := slots[j];
    if x.committed && j > 0 {
      LaterInCell(region, LinesOf(slots[..j]), values, minLen, maxLen, LaneEnd(p0, slots[..j]), x.trial, x.seg, x.forced);
    }
  }

  /**
   * A lane's record alone fixes what the lane promises: every committed
   * segment lies in the inner box, and a lane with a pass has a segment,
   * since the first pass always commits.
   */
  lemma {:induction false} LaneInside(region: Region, values: seq<real>, minLen: real, maxLen: real, p0: nat,
                                      slots: seq<Slot>)
    requires UnitStream(values) && Drawable(region)
    requires Lane(region, values, minLen, maxLen, p0, slots)
    ensures InsideLane(region, Segments(slots))
    ensures |slots| >= 1 ==> 1 <= |Segments(slots)| <= |slots|
    decreases |slots|
  {
    if slots != [] {
      var n := |slots| - 1;
      var front, x := slots[..n], slots[n];
      LaneTake(region, values, minLen, maxLen, p0, slots, n);
      LaneInside(region, values, minLen, maxLen, p0, front);
      PassInside(region, values, minLen, maxLen, p0, slots, n);
      assert Segments(slots) == Segments(front) + (if x.committed then [x.seg] else []);
    }
  }
}
