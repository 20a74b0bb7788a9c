/**
 * Strictly increasing sequences: Elias-Fano over v[i] - i (strict_elias_fano.hpp).
 */
module StrictEliasFano {
  import opened BitVector
  import opened MonotoneSequence
  import EliasFano
  import EliasFanoEnumerator

  /** No element is below its index, so that the subtraction does not wrap. */
  ghost predicate AboveIndex(v: seq<nat>) {
    forall i :: 0 <= i < |v| ==> v[i] >= i
  }

  function Lowered(v: seq<nat>): (r: seq<nat>)
    requires AboveIndex(v)
    ensures |r| == |v| && forall i :: 0 <= i < |v| ==> r[i] == v[i] - i
  {
    seq(|v|, i requires 0 <= i < |v| => v[i] - i)
  }

  lemma LoweredSorted(v: seq<nat>)
    requires AboveIndex(v)
    ensures Sorted(Lowered(v)) <==> Increasing(v)
  {
    var w := Lowered(v);
    if Sorted(w) {
      forall i, j | 0 <= i < j < |v|
        ensures v[i] < v[j]
      {
        assert w[i] <= w[j];
      }
    }
    if Increasing(v) {
      forall i, j | 0 <= i <= j < |v|
        ensures w[i] <= w[j]
      {
        Spread(v, i, j);
      }
    }
  }

  /** Lowering leaves the elements within a universe smaller by the number of elements, less one. */
  ghost predicate InReach(v: seq<nat>, universe: nat) {
    |v| <= universe && AboveIndex(v) && forall i :: 0 <= i < |v| ==> v[i] - i <= universe - |v|
  }

  lemma IncreasingInReach(v: seq<nat>, universe: nat)
    requires v != [] && Increasing(v) && v[|v| - 1] < universe
    ensures InReach(v, universe)
  {
    forall i | 0 <= i < |v|
      ensures v[i] >= i && v[i] - i <= universe - |v|
    {
      Spread(v, 0, i);
      Spread(v, i, |v| - 1);
    }
    Spread(v, 0, |v| - 1);
  }

  function StrictOffsets(base: nat, universe: nat, n: nat, logSampling0: nat, logSampling1: nat): EliasFano.Offsets
    requires n <= universe
  {
    EliasFano.Offsets(base, universe - n + 1, n, logSampling0, logSampling1)
  }

  /** No smaller universe would do: the n largest values are lowered to its last element. */
  lemma LoweredUniverseIsLeast(universe: nat, n: nat) returns (v: seq<nat>)
    requires 0 < n <= universe
    ensures |v| == n && Increasing(v) && v[n - 1] < universe
    ensures v[n - 1] - (n - 1) == StrictOffsets(0, universe, n, 0, 0).universe - 1
  {
    v := seq(n, i requires 0 <= i => universe - n + i);
  }

  ghost predicate Encoded(bits: seq<bool>, of: EliasFano.Offsets, v: seq<nat>) {
    AboveIndex(v) && EliasFano.Encoded(bits, of, Lowered(v))
  }

  /** Appends the encoding of v, or stops if v is not strictly increasing. */
  method Write(bvb: BitVectorBuilder, v: seq<nat>, universe: nat, logSampling0: nat, logSampling1: nat)
    returns (ok: bool)
    requires v != [] && InReach(v, universe)
    modifies bvb
    ensures ok <==> Increasing(v)
    ensures var of := StrictOffsets(|old(bvb.bits)|, universe, |v|, logSampling0, logSampling1);
      && |bvb.bits| == of.End() && old(bvb.bits) <= bvb.bits
      && (ok ==> Encoded(bvb.bits, of, v))
  {
    hide EliasFano.Encoded, EliasFano.Offsets.End;
    LoweredSorted(v);
    ok := EliasFano.Write(bvb, Lowered(v), universe - |v| + 1, logSampling0, logSampling1);
  }

  class Enumerator {
    const ef: EliasFanoEnumerator.Enumerator
    ghost const v: seq<nat>
    ghost const universe: nat

    ghost predicate Valid()
      reads this, ef
    {
      && AboveIndex(v) && ef.v == Lowered(v) && ef.Valid()
      && |v| <= universe && ef.of.universe == universe - |v| + 1 && ef.of.n == |v|
    }

    /** The elements, followed by one more than the universe. */
    ghost function ValueAt(i: nat): nat {
      if i < |v| then v[i] else universe + 1
    }

    constructor (bits: seq<bool>, offset: nat, universe: nat, n: nat, logSampling0: nat, logSampling1: nat,
                 ghost v: seq<nat>)
      requires n == |v| <= universe && Encoded(bits, StrictOffsets(offset, universe, n, logSampling0, logSampling1), v)
      ensures Valid() && fresh(ef) && this.v == v && this.universe == universe && ef.position == n
    {
      hide EliasFano.Encoded;
      this.v, this.universe := v, universe;
      ef := new EliasFanoEnumerator.Enumerator(bits, offset, universe - n + 1, n,
        logSampling0, logSampling1, Lowered(v));
    }

    function Size(): nat {
      ef.Size()
    }

    method Move(to: nat) returns (pos: nat, val: nat)
      requires Valid() && to <= |v|
      modifies ef
      ensures Valid() && ef.position == to && pos == to && val == ValueAt(to)
    {
      pos, val := ef.Move(to);
      val := val + pos;
    }

    method Next() returns (pos: nat, val: nat)
      requires Valid() && ef.position < |v|
      modifies ef
      ensures Valid() && ef.position == old(ef.position) + 1 && pos == ef.position && val == ValueAt(pos)
    {
      pos, val := ef.Next();
      val := val + pos;
    }

    /** The element before the current one, or 0 if there is none. */
    method PrevValue() returns (prev: nat)
      requires Valid()
      ensures prev == if ef.position == 0 then 0 else v[ef.position - 1]
    {
      if ef.position == 0 {
        return 0;
      }
      prev := ef.PrevValue();
      prev := prev + ef.position - 1;
    }
  }
}
