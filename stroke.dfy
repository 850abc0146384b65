/**
 * The per-step arithmetic of the stroke renderer: how the two noise rails
 * are blended along a segment (eased in over the first tenth of the steps,
 * fixed in the middle, the paired point eased back over the last tenth),
 * and how often a connecting line primitive is emitted.
 */
module Stroke {
  import opened RealArith
  import opened Geometry

  /** Interpolation steps per segment. */
  const Steps: nat := 1000
  /** Reference length against which a segment's step frequency is scaled. */
  const ReferenceLength: real := 200.0

  function Cube(x: real): real
  {
    x * x * x
  }

  /**
   * Cubic ease-in-out: 4t^3 below one half, 1 - (2 - 2t)^3 / 2 from one half
   * on. It starts at 0, passes one half at one half and ends at 1.
   */
  function Ease(t: real): (r: real)
    ensures t == 0.0 ==> r == 0.0
    ensures t == 0.5 ==> r == 0.5
    ensures t == 1.0 ==> r == 1.0
  {
    if t < 0.5 then 4.0 * Cube(t)
    else
      assert t == 0.5 ==> Cube(-2.0 * t + 2.0) == Cube(1.0);
      1.0 - Cube(-2.0 * t + 2.0) / 2.0
  }

  /** Doubling the argument multiplies the cube by eight. */
  lemma CubeDouble(u: real)
    ensures Cube(2.0 * u) == 8.0 * Cube(u)
  {
    assert (2.0 * u) * (2.0 * u) == 4.0 * (u * u);
    assert (4.0 * (u * u)) * (2.0 * u) == 8.0 * (u * u * u);
  }

  /** The two halves of the ease curve mirror each other about (1/2, 1/2). */
  lemma EaseSymmetric(t: real)
    ensures Ease(1.0 - t) == 1.0 - Ease(t)
  {
    if t < 0.5 {
      assert -2.0 * (1.0 - t) + 2.0 == 2.0 * t;
      CubeDouble(t);
    } else if t > 0.5 {
      assert -2.0 * t + 2.0 == 2.0 * (1.0 - t);
      CubeDouble(1.0 - t);
    }
  }

  /** p.lerp: a + (b - a)*t, which is a at t = 0 and b at t = 1. */
  function Lerp(a: real, b: real, t: real): (r: real)
    ensures t == 0.0 ==> r == a
    ensures t == 1.0 ==> r == b
  {
    a + (b - a) * t
  }

  /** For t in [0, 1], lerp stays between its two ends. */
  lemma LerpBetween(a: real, b: real, t: real)
    requires 0.0 <= t <= 1.0
    ensures a <= b ==> a <= Lerp(a, b, t) <= b
    ensures b <= a ==> b <= Lerp(a, b, t) <= a
  {
    if a <= b {
      ProductNonNegative(b - a, t);
      ProductNonNegative(b - a, 1.0 - t);
    } else {
      ProductNonNegative(a - b, t);
      ProductNonNegative(a - b, 1.0 - t);
    }
  }

  lemma {:induction false} CubeMonotone(a: real, b: real)
    requires 0.0 <= a <= b
    ensures 0.0 <= Cube(a) <= Cube(b)
  {
    ScaleMonotone(a, b, a);
    ScaleMonotone(a, b, b);
    assert a * a <= b * b;
    ProductNonNegative(a, a);
    ScaleMonotone(a * a, b * b, a);
    ProductNonNegative(b, b);
    ScaleMonotone(a, b, b * b);
    ProductNonNegative(a * a, a);
  }

  /** The ease curve is non-decreasing on [0, 1]. */
  lemma EaseMonotone(s: real, t: real)
    requires 0.0 <= s <= t <= 1.0
    ensures Ease(s) <= Ease(t)
  {
    if t < 0.5 {
      CubeMonotone(s, t);
    } else if s >= 0.5 {
      CubeMonotone(-2.0 * t + 2.0, -2.0 * s + 2.0);
    } else {
      CubeMonotone(s, 0.5);
      CubeMonotone(-2.0 * t + 2.0, 1.0);
    }
  }

  /** The ease curve maps [0, 1] into [0, 1]. */
  lemma EaseInUnit(t: real)
    requires 0.0 <= t <= 1.0
    ensures 0.0 <= Ease(t) <= 1.0
  {
    EaseMonotone(0.0, t);
    EaseMonotone(t, 1.0);
  }

  /**
   * The point at step i of steps along a guide segment: each coordinate
   * interpolated by i / steps. It starts at the first endpoint and never
   * leaves the segment's line.
   */
  function StepPoint(s: Segment, i: nat, steps: nat): (p: (real, real))
    requires i < steps
    ensures i == 0 ==> p == (s.x1, s.y1)
    ensures Side(LineOf(s), p.0, p.1) == 0.0
  {
    var t := i as real / steps as real;
    PointsOnSegmentLine(s, t);
    (Lerp(s.x1, s.x2, t), Lerp(s.y1, s.y2, t))
  }

  /** A segment drawn inside a lane's inner box is stepped along inside that box. */
  lemma StepPointInInner(r: Region, s: Segment, i: nat, steps: nat)
    requires i < steps && SegmentInInner(r, s)
    ensures InInner(r, StepPoint(s, i, steps).0, StepPoint(s, i, steps).1)
  {
    var t := i as real / steps as real;
    QuotientUnit(i as real, steps as real);
    LerpBetween(s.x1, s.x2, t);
    LerpBetween(s.y1, s.y2, t);
  }

  /** The two noise magnitudes at one step: the line end and the paired point. */
  datatype Blend = Blend(blendedNoise: real, blendedNoise1: real)

  /**
   * Position of step i within the first tenth: 0 at the first step and in
   * [0, 1) throughout the first tenth, where the ease-in reads it.
   */
  function RampIn(i: nat, steps: nat): (t: real)
    requires steps > 0
    ensures i == 0 ==> t == 0.0
    ensures (i as real) < steps as real * 0.1 ==> 0.0 <= t < 1.0
  {
    QuotientUnit(i as real, steps as real * 0.1);
    i as real / (steps as real * 0.1)
  }

  /**
   * Distance of step i from the end, as a fraction of a tenth of the steps:
   * strictly between 0 and 1 in the last tenth, where the ease-out reads it.
   */
  function RampOut(i: nat, steps: nat): (t: real)
    requires steps > 0
    ensures steps as real * 0.9 < i as real && i < steps ==> 0.0 < t < 1.0
  {
    var tenth := steps as real * 0.1;
    var t := (steps as real - i as real) / tenth;
    if steps as real * 0.9 < i as real && i < steps then
      QuotientUnit(steps as real - i as real, tenth);
      QuotientPositive(steps as real - i as real, tenth);
      t
    else
      t
  }

  /**
   * The blend of the two noise rails at step i of steps. Over the first tenth
   * the line end eases from noise1 to noise2; in the middle it is noise2 and
   * the paired point stays on noise1; over the last tenth the line end stays
   * on noise2 while the paired point eases from noise1 towards noise2.
   */
  function BlendAt(i: nat, steps: nat, noise1: real, noise2: real): (b: Blend)
    requires i < steps
    ensures i == 0 ==> b == Blend(noise1, noise1)
    ensures steps as real * 0.1 <= i as real <= steps as real * 0.9 ==> b == Blend(noise2, noise1)
    ensures i as real > steps as real * 0.9 ==> b.blendedNoise == noise2
  {
    if (i as real) < steps as real * 0.1 then
      Blend(Lerp(noise1, noise2, Ease(RampIn(i, steps))), noise1)
    else
      var blendedNoise1 :=
        if (i as real) > steps as real * 0.9 then Lerp(noise2, noise1, Ease(RampOut(i, steps))) else noise1;
      Blend(Lerp(noise1, noise2, 1.0), blendedNoise1)
  }

  /** Both blended magnitudes stay between the two rails at every step. */
  lemma BlendBetweenRails(i: nat, steps: nat, noise1: real, noise2: real)
    requires i < steps
    ensures var b := BlendAt(i, steps, noise1, noise2);
      (noise1 <= noise2 ==> noise1 <= b.blendedNoise <= noise2 && noise1 <= b.blendedNoise1 <= noise2) &&
      (noise2 <= noise1 ==> noise2 <= b.blendedNoise <= noise1 && noise2 <= b.blendedNoise1 <= noise1)
  {
    var tenth := steps as real * 0.1;
    if (i as real) < tenth {
      QuotientUnit(i as real, tenth);
      EaseInUnit(RampIn(i, steps));
      LerpBetween(noise1, noise2, Ease(RampIn(i, steps)));
    } else if (i as real) > steps as real * 0.9 {
      QuotientUnit(steps as real - i as real, tenth);
      EaseInUnit(RampOut(i, steps));
      LerpBetween(noise2, noise1, Ease(RampOut(i, steps)));
    }
  }

  /** Over the first tenth the line end's weight on noise2 never decreases. */
  lemma RampInNonDecreasing(i: nat, j: nat, steps: nat)
    requires i <= j < steps && (j as real) < steps as real * 0.1
    ensures 0.0 <= Ease(RampIn(i, steps)) <= Ease(RampIn(j, steps)) <= 1.0
  {
    var tenth := steps as real * 0.1;
    QuotientUnit(i as real, tenth);
    QuotientUnit(j as real, tenth);
    DivMonotone(i as real, j as real, tenth);
    EaseMonotone(RampIn(i, steps), RampIn(j, steps));
    EaseInUnit(RampIn(i, steps));
    EaseInUnit(RampIn(j, steps));
  }

  /** Over the last tenth the paired point's weight on noise1 never increases. */
  lemma RampOutNonIncreasing(i: nat, j: nat, steps: nat)
    requires steps as real * 0.9 < i as real && i <= j < steps
    ensures 0.0 <= Ease(RampOut(j, steps)) <= Ease(RampOut(i, steps)) <= 1.0
  {
    var tenth := steps as real * 0.1;
    QuotientUnit(steps as real - i as real, tenth);
    QuotientUnit(steps as real - j as real, tenth);
    DivMonotone(steps as real - j as real, steps as real - i as real, tenth);
    EaseMonotone(RampOut(j, steps), RampOut(i, steps));
    EaseInUnit(RampOut(i, steps));
    EaseInUnit(RampOut(j, steps));
  }

  /** Math.ceil. */
  function Ceil(x: real): (c: int)
    ensures c as real - 1.0 < x <= c as real
  {
    -((-x).Floor)
  }

  /**
   * How often a connecting line is drawn along a segment: every n-th step, or,
   * for a zero-length segment where the quotient is infinite, only at step 0.
   */
  datatype StepFrequency = Every(n: nat) | OnlyFirst

  /**
   * ceil((ReferenceLength / len) * factor): the least whole number of steps at
   * least that quotient, never below one for a positive length and factor.
   */
  function LineStepFrequency(len: real, factor: real): (f: StepFrequency)
    requires len >= 0.0 && factor > 0.0
    ensures len == 0.0 <==> f == OnlyFirst
    ensures f.Every? ==>
      f.n >= 1 && (f.n as real) - 1.0 < ReferenceLength / len * factor <= f.n as real
  {
    if len == 0.0 then OnlyFirst
    else
      var q := ReferenceLength / len;
      QuotientUnit(ReferenceLength, len);
      assert q > 0.0 by {
        assert q * len == ReferenceLength;
        if q <= 0.0 {
          ScaleMonotone(q, 0.0, len);
        }
      }
      ProductPositive(q, factor);
      Every(Ceil(q * factor))
  }

  /**
   * `i % lineStepFreq == 0`: whether step i also draws the connecting line.
   * The first step always does, for every frequency LineStepFrequency yields.
   */
  predicate EmitsLine(i: nat, f: StepFrequency): (b: bool)
    ensures i == 0 && (f.OnlyFirst? || f.n > 0) ==> b
    ensures f.OnlyFirst? && i > 0 ==> !b
  {
    match f
    case Every(n) => n > 0 && i % n == 0
    case OnlyFirst => i == 0
  }

  /** The number of steps below steps that draw a connecting line. */
  function LineCount(steps: nat, f: StepFrequency): nat
  {
    if steps == 0 then 0 else LineCount(steps - 1, f) + (if EmitsLine(steps - 1, f) then 1 else 0)
  }

  lemma {:induction false} MulMonotone(a: nat, b: nat, n: nat)
    requires a <= b
    ensures a * n <= b * n
  {
    if a < b {
      MulMonotone(a, b - 1, n);
      assert b * n == (b - 1) * n + n;
    }
  }

  /** Two quotient-remainder splittings of one number by n have the same quotient. */
  lemma QuotientNotBelow(q: nat, r: nat, q': nat, r': nat, n: nat)
    requires r < n && r' < n && q * n + r == q' * n + r'
    ensures q <= q'
  {
    if q' < q {
      assert (q' + 1) * n == q' * n + n;
      MulMonotone(q' + 1, q, n);
    }
  }

  /** Euclidean division is determined by its quotient and remainder. */
  lemma DivUnique(x: nat, n: nat, q: nat, r: nat)
    requires n > 0 && r < n && x == q * n + r
    ensures x / n == q && x % n == r
  {
    QuotientNotBelow(q, r, x / n, x % n, n);
    QuotientNotBelow(x / n, x % n, q, r, n);
  }

  /** Raising the numerator of ceil(k / n) by one step adds one exactly at multiples of n. */
  lemma CeilStep(k: nat, n: nat)
    requires n >= 1
    ensures (k + n) / n == (k + n - 1) / n + (if k % n == 0 then 1 else 0)
  {
    var q, r := k / n, k % n;
    assert k == q * n + r;
    assert (q + 1) * n == q * n + n;
    if r == 0 {
      DivUnique(k + n - 1, n, q, n - 1);
      DivUnique(k + n, n, q + 1, 0);
    } else {
      DivUnique(k + n - 1, n, q + 1, r - 1);
      DivUnique(k + n, n, q + 1, r);
    }
  }

  /**
   * Along a stroke of steps interpolation steps, the connecting line is drawn
   * ceil(steps / n) times for a frequency of every n-th step, and once for a
   * zero-length segment.
   */
  lemma {:induction false} LineCountClosedForm(steps: nat, f: StepFrequency)
    requires f.Every? ==> f.n >= 1
    ensures f.Every? ==> LineCount(steps, f) == (steps + f.n - 1) / f.n
    ensures f.OnlyFirst? ==> LineCount(steps, f) == (if steps == 0 then 0 else 1)
  {
    if steps > 0 {
      LineCountClosedForm(steps - 1, f);
      if f.Every? {
        CeilStep(steps - 1, f.n);
      }
    }
  }
}
