/**
 * The half-plane partition used to place every guide segment after the first
 * one of a lane: sample points are classified by a bitmask against the lines
 * already placed in the lane, the points are tallied per partition id, the
 * most populous partition is chosen and its points become the candidates for
 * the next segment's endpoints.
 */
module Partition {
  import opened Geometry

  /** A random sample point and the partition it was classified into. */
  datatype SamplePoint = SamplePoint(x: real, y: real, partitionId: nat)

  /** 1 << k. */
  function Pow2(k: nat): (p: nat)
    ensures p >= 1
  {
    if k == 0 then 1 else 2 * Pow2(k - 1)
  }

  /** Bit j of id, that is (id >> j) & 1 == 1. */
  predicate Bit(id: nat, j: nat)
  {
    if j == 0 then id % 2 == 1 else Bit(id / 2, j - 1)
  }

  /**
   * The partition id of (x, y) against the lines eqs: bit j is set exactly when
   * the point is strictly on the positive side of eqs[j]. Built line by line as
   * the classification loop does, so the last line contributes the top bit.
   */
  function PartitionId(eqs: seq<LineEq>, x: real, y: real): (id: nat)
    ensures id < Pow2(|eqs|)
    decreases |eqs|
  {
    if eqs == [] then 0
    else
      var n := |eqs| - 1;
      PartitionId(eqs[..n], x, y) + (if Side(eqs[n], x, y) > 0.0 then Pow2(n) else 0)
  }

  lemma {:induction false} NoBitsOfZero(j: nat)
    ensures !Bit(0, j)
  {
    if j > 0 {
      NoBitsOfZero(j - 1);
    }
  }

  /**
   * Setting bit m of a number below 2^m: a + (b ? 2^m : 0) has bit m equal to b
   * and every other bit equal to that of a. So for a < 2^m, `a | (1 << m)` is
   * a + 2^m, which is how the classification loop's `|=` is modelled.
   */
  lemma {:induction false} BitOfSum(a: nat, m: nat, b: bool, j: nat)
    requires a < Pow2(m)
    ensures Bit(a + (if b then Pow2(m) else 0), j) <==> (if j == m then b else Bit(a, j))
    decreases m
  {
    var s := a + (if b then Pow2(m) else 0);
    if m == 0 {
      assert a == 0;
      if j == 0 {
      } else {
        assert s / 2 == 0;
        NoBitsOfZero(j - 1);
        NoBitsOfZero(j);
      }
    } else {
      if j == 0 {
        assert Pow2(m) == 2 * Pow2(m - 1);
      } else {
        assert Pow2(m) == 2 * Pow2(m - 1);
        assert s / 2 == a / 2 + (if b then Pow2(m - 1) else 0);
        BitOfSum(a / 2, m - 1, b, j - 1);
      }
    }
  }

  /** The bitmask rule: bit j of a point's id is set iff the point is on the positive side of line j. */
  lemma {:induction false} PartitionIdBit(eqs: seq<LineEq>, x: real, y: real, j: nat)
    requires j < |eqs|
    ensures Bit(PartitionId(eqs, x, y), j) <==> Side(eqs[j], x, y) > 0.0
    decreases |eqs|
  {
    var n := |eqs| - 1;
    var rest := PartitionId(eqs[..n], x, y);
    BitOfSum(rest, n, Side(eqs[n], x, y) > 0.0, j);
    if j < n {
      PartitionIdBit(eqs[..n], x, y, j);
      assert eqs[..n][j] == eqs[j];
    }
  }

  /** No bit at or above the number of lines is set. */
  lemma {:induction false} PartitionIdHighBits(eqs: seq<LineEq>, x: real, y: real, j: nat)
    requires j >= |eqs|
    ensures !Bit(PartitionId(eqs, x, y), j)
  {
    BitOfSum(PartitionId(eqs, x, y), |eqs|, false, j);
    BitsAbove(PartitionId(eqs, x, y), |eqs|, j);
  }

  lemma {:induction false} BitsAbove(a: nat, m: nat, j: nat)
    requires a < Pow2(m) && j >= m
    ensures !Bit(a, j)
    decreases m
  {
    if m == 0 {
      assert a == 0;
      NoBitsOfZero(j);
    } else {
      assert Pow2(m) == 2 * Pow2(m - 1);
      BitsAbove(a / 2, m - 1, j - 1);
    }
  }

  /**
   * Two points share a partition id exactly when they are on the same side
   * (positive or not) of every line: the id determines the cell of the
   * arrangement of half-planes.
   */
  lemma SamePartitionIffSameSides(eqs: seq<LineEq>, x1: real, y1: real, x2: real, y2: real)
    ensures PartitionId(eqs, x1, y1) == PartitionId(eqs, x2, y2) <==>
            forall j :: 0 <= j < |eqs| ==> (Side(eqs[j], x1, y1) > 0.0 <==> Side(eqs[j], x2, y2) > 0.0)
  {
    var p, q := PartitionId(eqs, x1, y1), PartitionId(eqs, x2, y2);
    if p == q {
      forall j | 0 <= j < |eqs|
        ensures Side(eqs[j], x1, y1) > 0.0 <==> Side(eqs[j], x2, y2) > 0.0
      {
        PartitionIdBit(eqs, x1, y1, j);
        PartitionIdBit(eqs, x2, y2, j);
      }
    }
    if forall j :: 0 <= j < |eqs| ==> (Side(eqs[j], x1, y1) > 0.0 <==> Side(eqs[j], x2, y2) > 0.0) {
      SameSidesSameId(eqs, x1, y1, x2, y2);
    }
  }

  lemma {:induction false} SameSidesSameId(eqs: seq<LineEq>, x1: real, y1: real, x2: real, y2: real)
    requires forall j :: 0 <= j < |eqs| ==> (Side(eqs[j], x1, y1) > 0.0 <==> Side(eqs[j], x2, y2) > 0.0)
    ensures PartitionId(eqs, x1, y1) == PartitionId(eqs, x2, y2)
    decreases |eqs|
  {
    if eqs != [] {
      var n := |eqs| - 1;
      assert forall j :: 0 <= j < n ==> eqs[..n][j] == eqs[j];
      SameSidesSameId(eqs[..n], x1, y1, x2, y2);
    }
  }

  /**
   * The classification loop for one point: starting from 0, set bit j when
   * the point is on the positive side of line j.
   */
  method ClassifyPoint(eqs: seq<LineEq>, x: real, y: real) returns (id: nat)
    ensures id == PartitionId(eqs, x, y)
    ensures id < Pow2(|eqs|)
    ensures forall j :: 0 <= j < |eqs| ==> (Bit(id, j) <==> Side(eqs[j], x, y) > 0.0)
  {
    id := 0;
    for j := 0 to |eqs|
      invariant id == PartitionId(eqs[..j], x, y)
    {
      assert eqs[..j + 1][..j] == eqs[..j];
      if Side(eqs[j], x, y) > 0.0 {
        // bit j is still clear, so `id |= 1 << j` adds 2^j
        PartitionIdHighBits(eqs[..j], x, y, j);
        id := id + Pow2(j);
      }
    }
    assert eqs[..|eqs|] == eqs;
    forall j | 0 <= j < |eqs|
      ensures Bit(id, j) <==> Side(eqs[j], x, y) > 0.0
    {
      PartitionIdBit(eqs, x, y, j);
    }
  }

  /** The sample points with their ids overwritten in place, one point at a time. */
  method AssignPartitions(pts: seq<SamplePoint>, eqs: seq<LineEq>) returns (out: seq<SamplePoint>)
    ensures |out| == |pts|
    ensures forall i :: 0 <= i < |out| ==>
      out[i] == pts[i].(partitionId := PartitionId(eqs, pts[i].x, pts[i].y))
  {
    out := pts;
    for i := 0 to |out|
      invariant |out| == |pts|
      invariant forall k :: 0 <= k < i ==> out[k] == pts[k].(partitionId := PartitionId(eqs, pts[k].x, pts[k].y))
      invariant forall k :: i <= k < |out| ==> out[k] == pts[k]
    {
      var id := ClassifyPoint(eqs, out[i].x, out[i].y);
      out := out[i := out[i].(partitionId := id)];
    }
  }

  /** The partition ids of the points, in order. */
  function Ids(pts: seq<SamplePoint>): (ids: seq<nat>)
    ensures |ids| == |pts|
    ensures forall i :: 0 <= i < |pts| ==> ids[i] == pts[i].partitionId
  {
    if pts == [] then [] else Ids(pts[..|pts| - 1]) + [pts[|pts| - 1].partitionId]
  }

  /** The count the dictionary holds for id, 0 when id is no key. */
  function Get(counts: map<nat, nat>, id: nat): nat
  {
    if id in counts then counts[id] else 0
  }

  /**
   * counts is the tally of ids: its keys are exactly the ids that occur, and
   * each maps to its number of occurrences.
   */
  ghost predicate Tallies(counts: map<nat, nat>, ids: seq<nat>)
  {
    (forall id :: Get(counts, id) == multiset(ids)[id]) &&
    (forall id :: id in counts ==> counts[id] > 0)
  }

  /** The counting loop over the sample points: a dictionary from id to count. */
  method CountPartitions(pts: seq<SamplePoint>) returns (counts: map<nat, nat>)
    ensures Tallies(counts, Ids(pts))
  {
    counts := map[];
    for i := 0 to |pts|
      invariant Tallies(counts, Ids(pts[..i]))
    {
      var id := pts[i].partitionId;
      ghost var before := counts;
      if id !in counts {
        counts := counts[id := 0];
      }
      counts := counts[id := counts[id] + 1];
      assert counts == before[id := Get(before, id) + 1];
      assert pts[..i + 1][..i] == pts[..i];
      assert Ids(pts[..i + 1]) == Ids(pts[..i]) + [id];
      TallyStep(before, Ids(pts[..i]), id);
    }
    assert pts[..|pts|] == pts;
  }

  lemma TallyStep(counts: map<nat, nat>, ids: seq<nat>, id: nat)
    requires Tallies(counts, ids)
    ensures Tallies(counts[id := Get(counts, id) + 1], ids + [id])
  {
    var c := counts[id := Get(counts, id) + 1];
    assert multiset(ids + [id]) == multiset(ids) + multiset{id};
    forall k
      ensures Get(c, k) == multiset(ids + [id])[k]
    {
      if k != id {
        assert Get(c, k) == Get(counts, k);
      }
    }
  }

  /** Sum of the counts of the ids below bound. */
  function CountSum(counts: map<nat, nat>, bound: nat): nat
  {
    if bound == 0 then 0 else CountSum(counts, bound - 1) + Get(counts, bound - 1)
  }

  /** Sum of the multiplicities of the ids below bound. */
  ghost function MultiplicitySum(ms: multiset<nat>, bound: nat): nat
  {
    if bound == 0 then 0 else MultiplicitySum(ms, bound - 1) + ms[bound - 1]
  }

  lemma {:induction false} MultiplicitySumEmpty(bound: nat)
    ensures MultiplicitySum(multiset{}, bound) == 0
  {
    if bound > 0 {
      MultiplicitySumEmpty(bound - 1);
    }
  }

  lemma {:induction false} MultiplicitySumAdd(ms: multiset<nat>, x: nat, bound: nat)
    ensures MultiplicitySum(ms + multiset{x}, bound) == MultiplicitySum(ms, bound) + (if x < bound then 1 else 0)
  {
    if bound > 0 {
      MultiplicitySumAdd(ms, x, bound - 1);
    }
  }

  lemma {:induction false} MultiplicitySumOfSeq(ids: seq<nat>, bound: nat)
    requires forall i :: 0 <= i < |ids| ==> ids[i] < bound
    ensures MultiplicitySum(multiset(ids), bound) == |ids|
    decreases |ids|
  {
    if ids == [] {
      MultiplicitySumEmpty(bound);
    } else {
      var n := |ids| - 1;
      assert ids == ids[..n] + [ids[n]];
      MultiplicitySumOfSeq(ids[..n], bound);
      MultiplicitySumAdd(multiset(ids[..n]), ids[n], bound);
    }
  }

  lemma {:induction false} CountSumIsMultiplicitySum(counts: map<nat, nat>, ids: seq<nat>, bound: nat)
    requires Tallies(counts, ids)
    ensures CountSum(counts, bound) == MultiplicitySum(multiset(ids), bound)
  {
    if bound > 0 {
      CountSumIsMultiplicitySum(counts, ids, bound - 1);
      assert Get(counts, bound - 1) == multiset(ids)[bound - 1];
    }
  }

  /**
   * Every key of the tally of classified points is a valid id (below 2^lines),
   * and the counts over all possible ids add up to the number of points.
   */
  lemma PartitionCountsSum(eqs: seq<LineEq>, pts: seq<SamplePoint>, counts: map<nat, nat>)
    requires forall i :: 0 <= i < |pts| ==> pts[i].partitionId == PartitionId(eqs, pts[i].x, pts[i].y)
    requires Tallies(counts, Ids(pts))
    ensures forall id :: id in counts ==> id < Pow2(|eqs|)
    ensures CountSum(counts, Pow2(|eqs|)) == |pts|
  {
    var ids := Ids(pts);
    forall id | id in counts
      ensures id < Pow2(|eqs|)
    {
      assert multiset(ids)[id] > 0;
      assert id in ids;
      var i :| 0 <= i < |ids| && ids[i] == id;
    }
    CountSumIsMultiplicitySum(counts, ids, Pow2(|eqs|));
    MultiplicitySumOfSeq(ids, Pow2(|eqs|));
  }

  /**
   * What the search for the largest partition returns: the count is the
   * largest in the dictionary, the id holds it, and no smaller id holds it
   * too (strict `>` over ascending keys keeps the first maximum). An empty or
   * all-zero dictionary gives id 0 and count 0.
   */
  ghost predicate IsLargest(counts: map<nat, nat>, best: nat, bestCount: nat)
  {
    (forall id :: id in counts ==> counts[id] <= bestCount) &&
    (bestCount > 0 ==> best in counts && counts[best] == bestCount) &&
    (bestCount == 0 ==> best == 0) &&
    (forall id :: id in counts && id < best ==> counts[id] < bestCount)
  }

  /** The chosen partition is determined by the tally alone. */
  lemma LargestIsUnique(counts: map<nat, nat>, b1: nat, c1: nat, b2: nat, c2: nat)
    requires IsLargest(counts, b1, c1) && IsLargest(counts, b2, c2)
    ensures b1 == b2 && c1 == c2
  {
  }

  /** A non-empty set of naturals has a least element: descend from any member. */
  lemma {:induction false} HasMinimum(s: set<nat>, x: nat)
    requires x in s
    ensures exists m :: m in s && forall k :: k in s ==> m <= k
    decreases x
  {
    if exists k :: k in s && k < x {
      var k :| k in s && k < x;
      HasMinimum(s, k);
    }
  }

  /** The search state after visiting the keys in visited. */
  ghost predicate Scanned(counts: map<nat, nat>, visited: set<nat>, best: nat, bestCount: nat)
  {
    visited <= counts.Keys &&
    (forall id :: id in visited ==> counts[id] <= bestCount) &&
    (bestCount > 0 ==> best in visited && counts[best] == bestCount) &&
    (bestCount == 0 ==> best == 0) &&
    (forall id :: id in visited && id < best ==> counts[id] < bestCount)
  }

  /** Visiting a key larger than every visited one keeps the search state. */
  lemma ScanStep(counts: map<nat, nat>, visited: set<nat>, best: nat, bestCount: nat, id: nat)
    requires Scanned(counts, visited, best, bestCount)
    requires id in counts && forall v :: v in visited ==> v < id
    ensures counts[id] > bestCount ==> Scanned(counts, visited + {id}, id, counts[id])
    ensures counts[id] <= bestCount ==> Scanned(counts, visited + {id}, best, bestCount)
  {
  }

  /**
   * The search for the largest partition: keys are visited in ascending
   * order, as Object.entries lists integer keys, and a key replaces the
   * current choice only when its count is strictly larger.
   */
  method LargestPartition(counts: map<nat, nat>) returns (best: nat, bestCount: nat)
    ensures IsLargest(counts, best, bestCount)
  {
    best, bestCount := 0, 0;
    ghost var visited: set<nat> := {};
    var remaining := counts.Keys;
    while remaining != {}
      invariant visited !! remaining && visited + remaining == counts.Keys
      invariant forall v, k :: v in visited && k in remaining ==> v < k
      invariant Scanned(counts, visited, best, bestCount)
      decreases remaining
    {
      var some :| some in remaining;
      HasMinimum(remaining, some);
      var id :| id in remaining && forall k :: k in remaining ==> id <= k;
      ScanStep(counts, visited, best, bestCount, id);
      if counts[id] > bestCount {
        bestCount := counts[id];
        best := id;
      }
      visited := visited + {id};
      remaining := remaining - {id};
    }
  }

  /** The filter keeping the points of one partition, in their original order. */
  function Candidates(pts: seq<SamplePoint>, id: nat): (r: seq<SamplePoint>)
    ensures |r| == multiset(Ids(pts))[id]
    ensures forall p :: p in r <==> p in pts && p.partitionId == id
  {
    if pts == [] then []
    else
      var n := |pts| - 1;
      assert Ids(pts) == Ids(pts[..n]) + [pts[n].partitionId];
      assert pts == pts[..n] + [pts[n]];
      Candidates(pts[..n], id) + (if pts[n].partitionId == id then [pts[n]] else [])
  }

  /** The filter's last step: the last point is kept exactly when it carries id. */
  lemma CandidatesSnoc(pts: seq<SamplePoint>, id: nat)
    requires |pts| > 0
    ensures Candidates(pts, id) ==
      Candidates(pts[..|pts| - 1], id) + (if pts[|pts| - 1].partitionId == id then [pts[|pts| - 1]] else [])
  {
  }

  /**
   * The same filter without Candidates' contract, so that the induction over
   * positions below does not carry the counting facts along.
   */
  function Kept(pts: seq<SamplePoint>, id: nat): seq<SamplePoint>
  {
    if pts == [] then [] else Kept(pts[..|pts| - 1], id) + (if pts[|pts| - 1].partitionId == id then [pts[|pts| - 1]] else [])
  }

  lemma {:induction false} KeptIsCandidates(pts: seq<SamplePoint>, id: nat)
    ensures Kept(pts, id) == Candidates(pts, id)
    decreases |pts|
  {
    if pts != [] {
      KeptIsCandidates(pts[..|pts| - 1], id);
      CandidatesSnoc(pts, id);
    }
  }

  lemma {:induction false} KeptInOrder(pts: seq<SamplePoint>, id: nat) returns (ks: seq<nat>)
    ensures |ks| == |Kept(pts, id)|
    ensures forall i :: 0 <= i < |ks| ==> ks[i] < |pts| && Kept(pts, id)[i] == pts[ks[i]] && pts[ks[i]].partitionId == id
    ensures forall i, j :: 0 <= i < j < |ks| ==> ks[i] < ks[j]
    ensures forall k :: 0 <= k < |pts| && pts[k].partitionId == id ==> k in ks
    decreases |pts|
  {
    if pts == [] {
      ks := [];
    } else {
      var n := |pts| - 1;
      var front := KeptInOrder(pts[..n], id);
      var kept := Kept(pts[..n], id);
      assert Kept(pts, id) == kept + (if pts[n].partitionId == id then [pts[n]] else []);
      forall i | 0 <= i < |front|
        ensures front[i] < n && Kept(pts, id)[i] == pts[front[i]] && pts[front[i]].partitionId == id
      {
        assert kept[i] == pts[..n][front[i]];
      }
      if pts[n].partitionId == id {
        ks := front + [n];
      } else {
        ks := front;
      }
      forall k | 0 <= k < |pts| && pts[k].partitionId == id
        ensures k in ks
      {
        if k < n {
          assert pts[..n][k] == pts[k];
          assert k in front;
        }
      }
    }
  }

  /**
   * The filter keeps the sample order: the candidates are the points at the
   * strictly increasing indices ks, and these are all the indices whose point
   * carries id.
   */
  lemma CandidatesInOrder(pts: seq<SamplePoint>, id: nat) returns (ks: seq<nat>)
    ensures |ks| == |Candidates(pts, id)|
    ensures forall i :: 0 <= i < |ks| ==> ks[i] < |pts| && Candidates(pts, id)[i] == pts[ks[i]] && pts[ks[i]].partitionId == id
    ensures forall i, j :: 0 <= i < j < |ks| ==> ks[i] < ks[j]
    ensures forall k :: 0 <= k < |pts| && pts[k].partitionId == id ==> k in ks
  {
    ks := KeptInOrder(pts, id);
    KeptIsCandidates(pts, id);
  }

  /**
   * best is the most frequent id among the points, and the lowest such id
   * when several are equally frequent.
   */
  ghost predicate MostPopulous(pts: seq<SamplePoint>, best: nat)
  {
    multiset(Ids(pts))[best] >= 1 &&
    (forall id: nat :: multiset(Ids(pts))[id] <= multiset(Ids(pts))[best]) &&
    (forall id: nat :: id < best ==> multiset(Ids(pts))[id] < multiset(Ids(pts))[best])
  }

  /** At most one id is the most populous. */
  lemma MostPopulousIsUnique(pts: seq<SamplePoint>, b1: nat, b2: nat)
    requires MostPopulous(pts, b1) && MostPopulous(pts, b2)
    ensures b1 == b2
  {
  }

  /**
   * The largest entry of the tally of a non-empty sample is its most
   * populous id, held by exactly the largest count's number of points.
   */
  lemma LargestIsMostPopulous(pts: seq<SamplePoint>, counts: map<nat, nat>, best: nat, bestCount: nat)
    requires |pts| > 0
    requires Tallies(counts, Ids(pts))
    requires IsLargest(counts, best, bestCount)
    ensures MostPopulous(pts, best) && multiset(Ids(pts))[best] == bestCount
  {
    LargestOfTally(counts, Ids(pts), best, bestCount);
  }

  /** The same, stated for the tallied sequence of ids. */
  lemma LargestOfTally(counts: map<nat, nat>, ids: seq<nat>, best: nat, bestCount: nat)
    requires |ids| > 0
    requires Tallies(counts, ids)
    requires IsLargest(counts, best, bestCount)
    ensures multiset(ids)[best] == bestCount >= 1
    ensures forall id: nat :: multiset(ids)[id] <= bestCount
    ensures forall id: nat :: id < best ==> multiset(ids)[id] < bestCount
  {
    var m := multiset(ids);
    assert m[ids[0]] > 0;
    assert Get(counts, ids[0]) > 0;
    assert m[best] == Get(counts, best);
    forall id: nat
      ensures m[id] <= bestCount && (id < best ==> m[id] < bestCount)
    {
      assert m[id] == Get(counts, id);
    }
  }

  /**
   * The chosen partition of a non-empty sample is never empty: it holds as
   * many candidates as its count, at least one.
   */
  lemma CandidatesNonEmpty(pts: seq<SamplePoint>, counts: map<nat, nat>, best: nat, bestCount: nat)
    requires |pts| > 0
    requires Tallies(counts, Ids(pts))
    requires IsLargest(counts, best, bestCount)
    ensures bestCount >= 1 && |Candidates(pts, best)| == bestCount
  {
    var id0 := pts[0].partitionId;
    assert Ids(pts)[0] == id0;
    assert multiset(Ids(pts))[id0] > 0;
    assert Get(counts, id0) > 0;
  }
}
