# Perlin flow-field guide lines, modelled in Dafny

The sketch draws six vertical lanes on a 1000 by 500 canvas. At setup it seeds
every lane with up to `floor(linesPerRegion)` guide segments:

- The first segment of a lane comes from bounded rejection sampling inside the
  lane shrunk by 25 pixels on every side.
- Every later segment is placed by a small half-plane partition of the lane.
  One hundred sample points each get a bitmask id: bit `j` is set when the
  point is strictly on the positive side of the lane's `j`-th line. The points
  are tallied per id and the most populous id is chosen, with the lowest id
  winning ties. Two distinct points of that cell are then joined, again by
  bounded rejection sampling.
- Each committed segment gets a random step factor in `[10, 40)` and a random
  colour weight.

Each frame then strokes every segment in 1000 steps, blending two noise rails
with a cubic ease over the first and last tenth of the steps. It emits a
connecting line every `ceil(200 / length * factor)` steps. Finally it paints
background-coloured masks over everything outside the lanes.

The model is split into modules:

- `Geometry`: lanes, segments, the stored line equation `a = y2 - y1`,
  `b = x1 - x2`, `c = x2*y1 - x1*y2`, and the length band, compared on squared
  distances.
- `RandomStream`: `p.random` as a class over an injected stream of draws in
  `[0, 1)`.
- `Partition`: partition ids, counting, the largest cell and the candidate
  filter.
- `Seeding`: the `Sketch` class whose methods mutate `lines`,
  `lineStepFactor`, `lineColors` and the random cursor the way `p.setup` does.
- `Stroke`: ease, lerp, the three blend regimes, step points and the step
  frequency.
- `Masks`: the overlay rectangles.
- `RealArith`: facts about real products and quotients that the proofs use.

## Model

| member | source | states |
|---|---|---|
| Geometry.Layout | src/sketch.ts:163-170 | The six lanes: each has a non-empty inner box, spans y 25..475, and lies strictly left of the next one. |
| Geometry.LineOf | src/sketch.ts:217-220 | Both endpoints of a committed segment satisfy its stored line equation. The equation is degenerate (`a = b = 0`) exactly when the endpoints coincide. |
| Geometry.Side | src/sketch.ts:225-227 | `lineSide`: `a*x + b*y + c`. For a degenerate line (`a = b = 0`) it is the constant `c`, so every point falls on the same side. |
| Geometry.SideIsCrossProduct | src/sketch.ts:225-227 | `lineSide` of a point equals the cross product of the segment direction with the point's offset from the first endpoint. |
| Geometry.PointsOnSegmentLine | src/sketch.ts:311-313 | Every point `p1 + t*(p2 - p1)` on the segment's line has side value 0. |
| Geometry.DistSq | src/sketch.ts:198 | The squared endpoint distance is non-negative. |
| Geometry.DistanceComparisons | src/sketch.ts:193 | For the true distance `d` (`d >= 0`, `d*d = d2`), `d < min` iff TooShort and `d > max` iff TooLong, for every real bound. So the squared tests decide the loop guard exactly as `p.dist` does. |
| RandomStream.Scale | src/sketch.ts:194-197 | `p.random(lo, hi)` lies in `[lo, hi)`, or in `[hi, lo)` when the bounds are reversed. |
| RandomStream.IndexOf | src/sketch.ts:289 | `Math.floor(p.random(n))` is a valid index below `n`. |
| RandomStream.Random.Next | src/sketch.ts:194 | One raw draw: the value at the cursor, in `[0, 1)`, and the cursor advances by one unless the stream has run out. |
| RandomStream.Random.Uniform | src/sketch.ts:194-197 | Consumes exactly one draw (none once exhausted) and returns its scaled value. |
| RandomStream.Random.Index | src/sketch.ts:292 | Consumes one draw and returns an index below `n`. |
| Partition.PartitionId | src/sketch.ts:242-255 | The id of a point against `k` lines is below `2^k`. |
| Partition.PartitionIdBit | src/sketch.ts:247-251 | Bit `j` of the id is set iff the point's side value for line `j` is strictly positive. |
| Partition.PartitionIdHighBits | src/sketch.ts:246-252 | No bit at or above the number of lines is set. |
| Partition.BitOfSum | src/sketch.ts:250 | Adding `2^m` to an id below `2^m` sets exactly bit `m`, so the `|=` may be read as an addition. |
| Partition.SamePartitionIffSameSides | src/sketch.ts:242-255 | Two points share an id iff they lie on the same side of every line. |
| Partition.ClassifyPoint | src/sketch.ts:243-254 | The bit-setting loop computes PartitionId, with bit `j` set iff side `j` is positive. |
| Partition.AssignPartitions | src/sketch.ts:242-255 | Each sample point keeps its coordinates and receives its PartitionId. |
| Partition.CountPartitions | src/sketch.ts:258-264 | The dictionary maps every id to the number of points carrying it, and holds only ids that occur. |
| Partition.TallyStep | src/sketch.ts:260-263 | One create-then-increment update extends the tally by one occurrence. |
| Partition.PartitionCountsSum | src/sketch.ts:258-264 | Every key is below `2^k` and the counts sum to the number of sample points. |
| Partition.LargestPartition | src/sketch.ts:266-274 | The scan over ascending keys with strict `>` returns a count at least every count. The id carries that count, and every smaller id has a strictly smaller count (lowest id wins ties). An empty dictionary gives `(0, 0)`. |
| Partition.LargestIsUnique | src/sketch.ts:266-274 | That characterisation determines the chosen id and count uniquely. |
| Partition.Candidates | src/sketch.ts:277-279 | The filter keeps exactly the points with the chosen id, as many as carry it. |
| Partition.CandidatesInOrder | src/sketch.ts:277-279 | The filter keeps the sample order: the candidates are the points at strictly increasing sample indices, and these are all the indices whose point carries the id. |
| Partition.MostPopulousIsUnique | src/sketch.ts:266-274 | At most one id is the most frequent id with the lowest-id tie-break. |
| Partition.LargestIsMostPopulous | src/sketch.ts:258-274 | For a non-empty sample, the entry the scan picks from the tally is the most frequent id of the sample (lowest id on ties), held by exactly the picked count of points. |
| Partition.CandidatesNonEmpty | src/sketch.ts:266-279 | For a non-empty sample the chosen id has count at least 1, and the candidate list has exactly that many points. |
| Seeding.FlattenLength | src/sketch.ts:174-184 | Per-lane counts between `lo` and `hi` bound the total number of lines by `6*lo` and `6*hi`. |
| Seeding.LanesSeededExtend | src/sketch.ts:174-184 | A lane run where the previous lane left the stream, with the same number of passes and recorded as a Lane, extends the record of the lanes seeded so far. Every earlier lane keeps its start, its passes and its segments. |
| Seeding.LaneListsExtend | src/sketch.ts:171-172 | Adding a lane appends exactly its committed factors to the flattened factor list and its committed segments to the flattened line list. |
| Seeding.SeededArePlaced | src/sketch.ts:174-317 | Derived from the seeding record alone: every seeded lane holds between 1 and `floor(linesPerRegion)` segments (none below 1), all inside its inner box. |
| Seeding.Sketch.constructor | src/sketch.ts:171-172 | Starts with empty line, factor and colour lists and an unread stream. |
| Seeding.SegmentAt | src/sketch.ts:194-197 | The segment that four draws from a position give lies in the lane's inner box. |
| Seeding.SamplePointAt | src/sketch.ts:233-237 | The sample point that two draws from a position give lies in the inner box and has id 0. |
| Seeding.AttemptsExtend | src/sketch.ts:285-303 | One more index pair drawn where the earlier attempts left the cursor extends the attempt record, and its draws add to the total. |
| Seeding.PairsExtend | src/sketch.ts:285-302 | After a last attempt out of the band, one more pair drawn where the attempts left the cursor extends the record of attempts. The new segment joins that pair, and every earlier attempt stays out of the band. |
| Seeding.TriedNext | src/sketch.ts:285-302 | One iteration of the later-segment loop keeps the loop's state as Tried states it: the attempts extended by the new pair, the cursor after it, the segment joining it with its squared length, and equal indices only once the stream ran out. |
| Seeding.Sketch.DrawSegment | src/sketch.ts:194-197 | The four draws at the cursor, in the order `x1, y1, x2, y2`, scaled into the inner box. The cursor advances by four, stopping at the end of the stream. |
| Seeding.Sketch.DrawFirst | src/sketch.ts:188-210 | Between 1 and 50 attempts, each the segment of the next four draws. Every attempt before the last is out of the band. The slot is forced exactly when all 50 were used; then one more segment is drawn and kept whatever its length. Otherwise the kept segment is the last attempt and lies in the band. The cursor ends four draws per segment drawn further on. |
| Seeding.Sketch.DrawSamples | src/sketch.ts:230-239 | 100 sample points, each the next two draws scaled into the inner box, with id 0. The cursor advances by 200. |
| Seeding.Sketch.DrawPair | src/sketch.ts:289-293 | The first index is one draw. The second is redrawn while it equals the first; this stops when they differ or the stream has run out. Both are below `n`, and the cursor advances by the draws made. |
| Seeding.Sketch.DrawLater | src/sketch.ts:281-305 | With fewer than two candidates nothing is drawn and nothing is committed. Otherwise it makes between 1 and 30 attempts, each an index pair drawn where the previous one left the cursor. Every attempt before the last is out of the band. The slot commits iff there are two candidates, which is iff the final distance is not below the minimum or all attempts were used. A committed segment joins the last pair; with fewer than 30 attempts it is in the band. Equal indices occur only once the stream is exhausted. |
| Seeding.Sketch.LargestCell | src/sketch.ts:229-279 | The 100 next sample points, each classified against the lines so far. The chosen id is their most populous cell (lowest id on ties), and the candidates are that cell's points, between 1 and 100 of them. |
| Seeding.Sketch.PickInCell | src/sketch.ts:281-305 | The slot commits iff the cell has at least two points. A committed slot records its attempts: each an index pair drawn where the previous one left the cursor, every one before the last out of the band. The segment joins the last pair, which are two sample points of the most populous cell, and the cursor stands after the attempts. Between 1 and 30 attempts are made, forced exactly when all were used; a segment not forced is in the band. Equal picks occur only once the stream is exhausted. |
| Seeding.LargestCellSegment | src/sketch.ts:277-305 | A segment joining two points of the largest cell lies in the inner box, and both endpoints carry that cell's id against the earlier lines. |
| Seeding.PickedInLargestCell | src/sketch.ts:277-298 | Joining candidates `i1` and `i2` of the most populous cell joins the sample points at their sample indices, both of that cell, so the slot meets the largest-cell guarantee. |
| Seeding.SampleInCell | src/sketch.ts:233-279 | A point of the chosen cell's list is one of the sample points drawn, so it lies in the inner box and is classified into that cell. |
| Seeding.PairsInCell | src/sketch.ts:277-298 | The attempts among the points of a cell end on a segment of the inner box whose two endpoints are both in that cell. |
| Seeding.LaterInCell | src/sketch.ts:229-315 | From the record of a committed later pass alone: its segment lies in the inner box, and both endpoints are in the most populous cell of the lines before it. |
| Seeding.Sketch.DrawInLargestCell | src/sketch.ts:229-305 | The whole later slot as LaterDrawn states it. The samples are the next 100 points, classified against the lines so far, and the cell is their most populous one. The slot commits iff that cell holds at least two points. A committed segment comes from attempts drawn right after the samples among that cell's points: every attempt before the last is out of the band, and the segment joins the last pair. It lies in the inner box with both endpoints in one cell of the earlier lines. It is in band unless forced, and forced exactly when all 30 attempts were used. The cursor stands after the samples, and then after the recorded attempts. |
| Seeding.Sketch.Commit | src/sketch.ts:307-308 | Appends the segment and a step factor: the next draw scaled into `[10, 40)`. The cursor advances by one. |
| Seeding.Sketch.SeedFirst | src/sketch.ts:188-220 | The first pass appends one segment in the inner box and its factor, and records the pass as SlotDrawn states it. There are 1 to 50 attempts, each the next four draws, and every attempt before the last is out of the band. The segment is the last attempt, in the band, or, when forced (exactly when all 50 were used), the extra draw after it. The factor is the next draw scaled into `[10, 40)`, and the cursor stands after it. |
| Seeding.Sketch.SeedLater | src/sketch.ts:221-316 | A later pass records itself as SlotDrawn states it: the samples drawn at the cursor, their most populous cell and the recorded attempts, as in DrawInLargestCell. The pass commits iff that cell holds two points or more. A committed pass appends its segment and a factor (the next draw scaled into `[10, 40)`) and the cursor stands after that draw. A skipped pass changes no list and leaves the cursor after the samples. |
| Seeding.Sketch.SeedPass | src/sketch.ts:184-316 | One iteration of the lane loop: the first pass seeds by rejection sampling, every later one in the largest cell. The pass extends the lane's record, drawn from where the record left the cursor and against its lines. The lists grow by that pass's segment and factor only, and only if it committed. The first pass always commits. |
| Seeding.LaneExtend | src/sketch.ts:184-316 | A pass drawn where the lane left the cursor, against the lines so far, extends the lane's record. The cursor, segments, factors and lines of the extended record are those of the old record plus that pass. |
| Seeding.LaneSlot | src/sketch.ts:184-316 | Every pass of a lane's record was drawn as SlotDrawn states, from where the passes before it left the cursor and against the lines they committed. |
| Seeding.LaneTake | src/sketch.ts:184-317 | The first `k` passes of a lane's record are themselves a lane's record. |
| Seeding.PassInside | src/sketch.ts:188-316 | In a lane's record the first pass always commits, and every committed pass's segment lies in the inner box. |
| Seeding.LaneInside | src/sketch.ts:184-317 | From the lane's record alone: every committed segment lies in the inner box, and a lane with `n >= 1` passes has between 1 and `n` segments. |
| Seeding.Sketch.SeedRegion | src/sketch.ts:184-317 | The loop makes exactly `floor(linesPerRegion)` passes (none when that is below 1). They are recorded in order as a Lane from the starting cursor: each pass was drawn as SlotDrawn states, from where the passes before it left the cursor and against the lines they committed, and skipped passes are recorded too. The lines and factors appended are those of the committed passes, in order, and the stored equations are their lines. The cursor ends where the last pass left it. The lane gets between 1 and `floor(linesPerRegion)` segments, all inside the inner box. |
| Seeding.Sketch.AssignColors | src/sketch.ts:321-324 | One colour weight per line, the `i`-th being the `i`-th next draw scaled into `[0, 1)`. The cursor advances by the number of lines. |
| Seeding.Sketch.SeedLanes | src/sketch.ts:171-317 | Starts the line and factor lists empty. Lane 0 is seeded from the starting cursor and each later lane from where the previous one left it. Each lane's passes are recorded as a Lane with `floor(linesPerRegion)` passes, and its committed segments are its per-lane list. The lines are the per-lane lists in lane order and the factors are the lanes' committed factors in the same order. The cursor ends where the last lane left it. |
| Seeding.Sketch.Setup | src/sketch.ts:163-324 | The lanes are the layout, seeded one after another from the stream as SeedLanes states. The lines are the lanes' committed segments and the factors their committed factors, in lane order. The `i`-th colour weight is the `i`-th draw after the last lane, scaled into `[0, 1)`, and the cursor ends past the colour draws. Lines, factors and colours have equal length. Each lane holds between 1 and `floor(linesPerRegion)` segments inside its inner box, so the total lies between 6 and `6*floor(linesPerRegion)`; below 1 there are no lines. |
| Stroke.Lerp | src/sketch.ts:404 | `lerp(a, b, 0) = a` and `lerp(a, b, 1) = b`. |
| Stroke.LerpBetween | src/sketch.ts:402-404 | For `t` in `[0, 1]` the result lies between `a` and `b`. |
| Stroke.Ease | src/sketch.ts:393 | `ease(0) = 0`, `ease(0.5) = 0.5`, `ease(1) = 1`. |
| Stroke.EaseSymmetric | src/sketch.ts:400 | The two halves mirror each other: `ease(1 - t) = 1 - ease(t)` for every `t`. |
| Stroke.EaseMonotone | src/sketch.ts:393 | The ease is non-decreasing on `[0, 1]`. |
| Stroke.EaseInUnit | src/sketch.ts:400 | The ease maps `[0, 1]` into `[0, 1]`. |
| Stroke.StepPoint | src/sketch.ts:369-370 | Step 0 is the first endpoint and every step point lies on the segment's line. |
| Stroke.StepPointInInner | src/sketch.ts:369-370 | A segment inside a lane's inner box is stepped along inside that box. |
| Stroke.BlendAt | src/sketch.ts:386-404 | At step 0 both magnitudes are `noise1`. For `0.1*steps <= i <= 0.9*steps` they are `(noise2, noise1)`. Past `0.9*steps` the line end stays on `noise2`. |
| Stroke.BlendBetweenRails | src/sketch.ts:386-404 | At every step both blended magnitudes lie between `noise1` and `noise2`. |
| Stroke.RampIn | src/sketch.ts:391 | `t = i / (steps * 0.1)` is 0 at step 0 and lies in `[0, 1)` throughout the first tenth. |
| Stroke.RampOut | src/sketch.ts:396 | `t = (steps - i) / (steps * 0.1)` lies strictly between 0 and 1 in the last tenth. |
| Stroke.RampInNonDecreasing | src/sketch.ts:389-393 | Over the first tenth the weight on `noise2` never decreases and stays in `[0, 1]`. |
| Stroke.RampOutNonIncreasing | src/sketch.ts:394-402 | Over the last tenth the paired point's weight on `noise1` never increases and stays in `[0, 1]`. |
| Stroke.Ceil | src/sketch.ts:364 | `Math.ceil(x)` is the least integer at least `x`. |
| Stroke.LineStepFrequency | src/sketch.ts:364 | A zero-length segment (infinite quotient) draws its connecting line only at step 0. Otherwise the frequency is at least 1 and is the ceiling of `200 / length * factor`. |
| Stroke.EmitsLine | src/sketch.ts:415 | `i % lineStepFreq == 0`: step 0 always draws the connecting line, and a zero-length segment draws it at no later step. |
| Stroke.LineCountClosedForm | src/sketch.ts:415-417 | Over `steps` steps the connecting line is drawn `ceil(steps / n)` times, and once for a zero-length segment. |
| Masks.GapRect | src/sketch.ts:434 | The gap mask spans exactly from lane `i`'s right edge to lane `i + 1`'s left edge, over the middle band. |
| Masks.GapRects | src/sketch.ts:433-435 | One gap mask per pair of neighbouring lanes, in order. |
| Masks.MaskRects | src/sketch.ts:426-438 | Top band, bottom band, left edge, gaps and right edge, in drawing order: `n + 3` rectangles for `n` lanes. |
| Masks.DrawOverlay | src/sketch.ts:426-438 | The overlay pass paints exactly MaskRects. |
| Masks.LanesLeftOf | src/sketch.ts:433-435 | In ordered lanes every lane lies left of every later one. |
| Masks.MaskAvoidsLanes | src/sketch.ts:426-438 | No mask rectangle reaches into any lane. |
| Masks.OutsideIsCovered | src/sketch.ts:426-438 | Every canvas point outside all lanes is painted by some mask. |
| Masks.MaskIsComplement | src/sketch.ts:426-438 | A canvas point is painted by a mask iff it lies in no lane. |
| Masks.LayoutIsOrdered | src/sketch.ts:163-170 | The six lanes on the 1000 by 500 canvas meet the ordering the overlay relies on. |

## Left out

- Drawing and the canvas are not modelled: canvas and layer creation, `rect`, `circle`, `line`, `stroke`, `fill`, `background` and logging. They are side effects on a library whose code is not part of this model. The overlay and connecting-line emissions are modelled as the rectangles and step indices they would draw.
- Perlin noise (`p.noise`, `noiseDetail`), `smoothAbsNoise` (a square root), and the `cos`/`sin`/`atan2` perpendicular offsets are left out. The two noise magnitudes are taken as arbitrary real inputs of `Stroke.BlendAt`.
- `p.lerpColor` and `p.color` are left out: `lineColors` keeps only the random mix weight that selects the colour.
- The font preload, the particle type and its array, the frozen time value, the parameter-definition table, `initParameterStore` and the React slider UI are not part of this model. The seeder reads only `linesPerRegion`, `lineMinLength` and `lineMaxLength`, passed as `Seeding.Params`.
- Floating point is not modelled: coordinates are exact reals. `p.dist` is replaced by squared-distance comparisons, which `Geometry.DistanceComparisons` shows to be equivalent. `Math.floor`/`Math.ceil` are exact, and the infinite quotient for a zero-length segment becomes `Stroke.StepFrequency.OnlyFirst`.
- `p.random` is an injected finite stream of draws. Once the stream runs out, every draw yields 0 and the source stays exhausted. Without such a bound the do-while that redraws the second index has no termination measure.
- Partition.Candidates: its own contract states membership and count only. The sample order the filter keeps is stated by `Partition.CandidatesInOrder`.
- Seeding.Sketch.DrawLater: it promises distinct indices only while the stream lasts. When the injected stream is exhausted inside the redraw loop, the loop stops with equal indices, which an unbounded random source never does.
- Seeding.Sketch.Setup: it requires `lineMinLength > 0`. With a minimum at or below 0 (and a maximum at or above 0) the first-segment loop may never run, and a later slot commits without drawing: its attempt loop is skipped and the commit test passes on the initial distance of 0. In both cases the source would push undefined coordinates. The slider's range and default are both positive.
- Partition ids are unbounded naturals: `1 << j` is read as `2^j`. JavaScript's 32-bit shift would wrap once a lane has more than 31 lines, and the parameter range stops at 10.
- In the last tenth of the steps the code keeps the line end's blend factor at 1 (`blendedNoise = noise2`). Only the paired point eases from `noise1` towards `noise2`. `Stroke.BlendAt` follows the code, not a reading in which the line end tapers back to `noise1`.
- `Stroke.BlendAt` takes the step index as a natural below `steps`. The per-step loop's point, noise and drawing calls are covered only through `Stroke.StepPoint`, `Stroke.BlendAt` and `Stroke.EmitsLine`.
