/**
 * The uniform random source behind p.random, injected as a finite stream of
 * draws in [0, 1). Every call consumes the next value; once the stream has run
 * out, every further draw yields 0 and the source reports itself exhausted.
 */
module RandomStream {
  import opened RealArith

  /** Every value of the stream lies in [0, 1), as Math.random's do. */
  predicate UnitStream(values: seq<real>)
  {
    forall i :: 0 <= i < |values| ==> 0.0 <= values[i] < 1.0
  }

  /**
   * The raw value the k-th draw of a stream yields, counting draws made after
   * the stream ran out too: those all yield 0.
   */
  function DrawAt(values: seq<real>, k: nat): (r: real)
    ensures UnitStream(values) ==> 0.0 <= r < 1.0
    ensures k >= |values| ==> r == 0.0
  {
    if k < |values| then values[k] else 0.0
  }

  /**
   * Where the cursor stands once the draws up to position v have been made:
   * it advances with every draw but never passes the end of the stream.
   */
  function Clamp(values: seq<real>, v: nat): (pos: nat)
    ensures pos <= |values| && pos <= v
    ensures v <= |values| ==> pos == v
  {
    if v <= |values| then v else |values|
  }

  /**
   * Draws made from a clamped cursor yield what the same draws yield counted
   * from the unclamped position, and the cursor moves on in step.
   */
  lemma ClampShift(values: seq<real>, v: nat, j: nat)
    ensures DrawAt(values, Clamp(values, v) + j) == DrawAt(values, v + j)
    ensures Clamp(values, Clamp(values, v) + j) == Clamp(values, v + j)
  {
  }

  /**
   * p.random(lo, hi) for a raw draw r: lo + r*(hi - lo), with the bounds
   * swapped first when they come in reversed. The result lies in the half-open
   * interval between the two bounds.
   */
  function Scale(lo: real, hi: real, r: real): (x: real)
    requires 0.0 <= r < 1.0
    ensures lo <= hi ==> lo <= x <= hi && (lo < hi ==> x < hi)
    ensures hi < lo ==> hi <= x < lo
  {
    if lo > hi then
      FractionBetween(hi, lo, r);
      hi + r * (lo - hi)
    else
      FractionBetween(lo, hi, r);
      lo + r * (hi - lo)
  }

  /** lo + r*(hi - lo) for r in [0, 1) lies in [lo, hi], strictly below hi when lo < hi. */
  lemma FractionBetween(lo: real, hi: real, r: real)
    requires lo <= hi && 0.0 <= r < 1.0
    ensures lo <= lo + r * (hi - lo) <= hi
    ensures lo < hi ==> lo + r * (hi - lo) < hi
  {
    ProductNonNegative(r, hi - lo);
    ProductNonNegative(1.0 - r, hi - lo);
    if lo < hi {
      ProductPositive(1.0 - r, hi - lo);
    }
  }

  /** Math.floor(p.random(n)): an index into a list of length n. */
  function IndexOf(n: nat, r: real): (k: nat)
    requires n > 0 && 0.0 <= r < 1.0
    ensures k < n
  {
    Scale(0.0, n as real, r).Floor
  }

  class Random {
    /** The injected stream of draws. */
    const values: seq<real>
    /** How many draws have been consumed. */
    var pos: nat

    ghost predicate Valid()
      reads this
    {
      pos <= |values| && UnitStream(values)
    }

    predicate Exhausted()
      reads this
    {
      pos >= |values|
    }

    constructor (values: seq<real>)
      requires UnitStream(values)
      ensures Valid() && this.values == values && pos == 0
    {
      this.values := values;
      pos := 0;
    }

    /** One raw draw in [0, 1); once exhausted the source stays exhausted. */
    method Next() returns (r: real)
      requires Valid()
      modifies this
      ensures Valid()
      ensures r == DrawAt(values, old(pos)) && 0.0 <= r < 1.0
      ensures pos == Clamp(values, old(pos) + 1)
    {
      r := DrawAt(values, pos);
      if pos < |values| {
        pos := pos + 1;
      }
    }

    /** p.random(lo, hi). */
    method Uniform(lo: real, hi: real) returns (x: real)
      requires Valid()
      modifies this
      ensures Valid()
      ensures x == Scale(lo, hi, DrawAt(values, old(pos)))
      ensures pos == Clamp(values, old(pos) + 1)
    {
      var r := Next();
      x := Scale(lo, hi, r);
    }

    /** Math.floor(p.random(n)) for a list of n > 0 elements. */
    method Index(n: nat) returns (k: nat)
      requires Valid() && n > 0
      modifies this
      ensures Valid()
      ensures k == IndexOf(n, DrawAt(values, old(pos))) && k < n
      ensures pos == Clamp(values, old(pos) + 1)
    {
      var r := Next();
      k := IndexOf(n, r);
    }
  }
}
