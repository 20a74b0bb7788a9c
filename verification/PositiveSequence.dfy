/**
 * Sequences of positive numbers, kept as their prefix sums (positive_sequence.hpp).
 */
module PositiveSequence {
  import opened BitVector
  import opened MonotoneSequence
  import EliasFano
  import StrictEliasFano

  ghost predicate Positive(f: seq<nat>) {
    forall i :: 0 <= i < |f| ==> f[i] >= 1
  }

  lemma {:induction false} SumsIncrease(f: seq<nat>)
    requires Positive(f)
    ensures Increasing(Sums(f))
    ensures |f| <= Total(f)
  {
    if f != [] {
      var g := f[..|f| - 1];
      SumsIncrease(g);
      assert forall i :: 0 <= i < |g| ==> Sums(f)[i] == Sums(g)[i];
      if g != [] {
        assert forall i :: 0 <= i < |g| ==> Sums(g)[i] <= Total(g);
      }
    }
  }

  /** An element is the difference of two consecutive prefix sums. */
  lemma {:induction false} SumsStep(f: seq<nat>, i: nat)
    requires i < |f|
    ensures Sums(f)[i] == (if i == 0 then 0 else Sums(f)[i - 1]) + f[i]
    decreases |f|
  {
    var g := f[..|f| - 1];
    if i < |g| {
      SumsStep(g, i);
    }
  }

  /** Appends the prefix sums of f, which the iterator forms on the way. */
  method Write(bvb: BitVectorBuilder, f: seq<nat>, universe: nat, logSampling0: nat, logSampling1: nat)
    requires f != [] && Positive(f) && Total(f) < universe
    modifies bvb
    ensures |f| <= universe && old(bvb.bits) <= bvb.bits
    ensures var of := StrictEliasFano.StrictOffsets(|old(bvb.bits)|, universe, |f|, logSampling0, logSampling1);
      |bvb.bits| == of.End() && StrictEliasFano.Encoded(bvb.bits, of, Sums(f))
  {
    hide StrictEliasFano.Encoded, EliasFano.Offsets.End;
    var cumulative, sum := [], 0;
    for i := 0 to |f|
      invariant sum == Total(f[..i]) && cumulative == Sums(f[..i])
    {
      assert f[..i + 1][..i] == f[..i];
      sum := sum + f[i];
      cumulative := cumulative + [sum];
    }
    assert f[..|f|] == f;
    SumsIncrease(f);
    StrictEliasFano.IncreasingInReach(cumulative, universe);
    var ok := StrictEliasFano.Write(bvb, cumulative, universe, logSampling0, logSampling1);
  }

  class Enumerator {
    const base: StrictEliasFano.Enumerator
    ghost const f: seq<nat>
    var position: nat
    var cur: nat

    /** The cached position is the one the cursor below stands on, and the cached sum is its value. */
    ghost predicate Valid()
      reads this, base, base.ef
    {
      && base.Valid() && base.v == Sums(f) && position <= |f|
      && (position < |f| ==> base.ef.position == position && cur == Sums(f)[position])
    }

    /** The cached sum is arbitrary: before the first move it must not be used. */
    constructor (bits: seq<bool>, offset: nat, universe: nat, n: nat, logSampling0: nat, logSampling1: nat,
                 uninitialised: nat, ghost f: seq<nat>)
      requires n == |f| <= universe
      requires var of := StrictEliasFano.StrictOffsets(offset, universe, n, logSampling0, logSampling1);
        StrictEliasFano.Encoded(bits, of, Sums(f))
      ensures Valid() && fresh(base) && fresh(base.ef) && this.f == f
    {
      hide StrictEliasFano.Encoded;
      this.f := f;
      base := new StrictEliasFano.Enumerator(bits, offset, universe, n, logSampling0, logSampling1, Sums(f));
      position, cur := n, uninitialised;
    }

    /** Whatever was asked for before, this yields the element at the position. */
    method Move(to: nat) returns (pos: nat, val: nat)
      requires Valid() && to < |f|
      modifies this, base.ef
      ensures Valid() && position == to && pos == to && val == f[to]
    {
      hide Total, StrictEliasFano.Enumerator.Valid;
      SumsStep(f, to);
      var prev := cur;
      if to != position + 1 {
        if to == 0 {
          var _, first := base.Move(0);
          cur := first;
          position := 0;
          return position, cur;
        }
        var _, before := base.Move(to - 1);
        prev := before;
      }
      var _, sum := base.Next();
      cur := sum;
      position := to;
      return to, cur - prev;
    }
  }
}
