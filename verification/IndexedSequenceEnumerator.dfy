/**
 * The cursor of an indexed sequence.
 *
 * It hands every call to the cursor of the representation it finds.
 */
module IndexedSequenceEnumerator {
  import opened BitVector
  import opened IndexedSequence
  import opened MonotoneSequence
  import EliasFano
  import EliasFanoEnumerator
  import RankedBitvector
  import RankedBitvectorEnumerator

  /** all_ones_sequence::enumerator: positions are values. */
  class AllOnesEnumerator {
    const universe: nat
    var position: nat

    constructor (universe: nat)
      ensures this.universe == universe && position == universe
    {
      this.universe, position := universe, universe;
    }

    method Move(to: nat) returns (pos: nat, val: nat)
      requires to <= universe
      modifies this
      ensures position == to && pos == to && val == to
    {
      position := to;
      return position, position;
    }

    method NextGeq(bound: nat) returns (pos: nat, val: nat)
      requires bound <= universe
      modifies this
      ensures position == bound && pos == bound && val == bound
    {
      position := bound;
      return position, position;
    }

    method Next() returns (pos: nat, val: nat)
      modifies this
      ensures position == old(position) + 1 && pos == position && val == position
    {
      position := position + 1;
      return position, position;
    }

    method PrevValue() returns (prev: nat)
      ensures prev == if position == 0 then 0 else position - 1
    {
      prev := if position == 0 then 0 else position - 1;
    }
  }

  datatype Kind =
    | Ef(ef: EliasFanoEnumerator.Enumerator)
    | Rb(rb: RankedBitvectorEnumerator.Enumerator)
    | AllOnes(ao: AllOnesEnumerator)

  class Enumerator {
    const kind: Kind
    const universe: nat
    ghost const v: seq<nat>

    /** The cursor that does the work. */
    ghost function Inner(): object {
      match kind
      case Ef(ef) => ef
      case Rb(rb) => rb
      case AllOnes(ao) => ao
    }

    ghost predicate Valid()
      reads Inner()
    {
      IsInput(universe, v) &&
      match kind
      case Ef(ef) => ef.Valid() && ef.v == v && ef.of.universe == universe
      case Rb(rb) => rb.Valid() && rb.v == v && rb.of.universe == universe
      case AllOnes(ao) => ao.universe == universe == |v| && ao.position <= |v|
    }

    ghost function Position(): nat
      reads Inner()
    {
      match kind
      case Ef(ef) => ef.position
      case Rb(rb) => rb.position
      case AllOnes(ao) => ao.position
    }

    /** The elements, followed by the universe. */
    ghost function ValueAt(i: nat): nat {
      if i < |v| then v[i] else universe
    }

    /** The representation is found from the size and the type bit. */
    constructor (bits: seq<bool>, offset: nat, universe: nat, n: nat, params: Parameters, ghost v: seq<nat>)
      requires Encoded(bits, offset, universe, params, v) && n == |v|
      ensures Valid() && this.v == v && this.universe == universe && Position() == |v| && fresh(Inner())
    {
      hide EliasFano.Encoded, RankedBitvector.Encoded;
      this.universe, this.v := universe, v;
      if AllOnesBitsize(universe, n) == 0 {
        var ao := new AllOnesEnumerator(universe);
        kind := AllOnes(ao);
      } else if Field(bits, offset, TYPE_BITS) == 1 {
        TypeBit(bits, offset);
        var rb := new RankedBitvectorEnumerator.Enumerator(bits, offset + TYPE_BITS, universe, n,
          params.rbLogRank1Sampling, params.rbLogSampling1, v);
        kind := Rb(rb);
      } else {
        TypeBit(bits, offset);
        var ef := new EliasFanoEnumerator.Enumerator(bits, offset + TYPE_BITS, universe, n,
          params.efLogSampling0, params.efLogSampling1, v);
        kind := Ef(ef);
      }
    }

    method Move(to: nat) returns (pos: nat, val: nat)
      requires Valid() && to <= |v|
      modifies Inner()
      ensures Valid() && Position() == to && pos == to && val == ValueAt(to)
    {
      InputUniverse(universe, v);
      match kind
      case Ef(ef) => pos, val := ef.Move(to);
      case Rb(rb) => pos, val := rb.Move(to);
      case AllOnes(ao) => pos, val := ao.Move(to);
    }

    method Next() returns (pos: nat, val: nat)
      requires Valid() && Position() < |v|
      modifies Inner()
      ensures Valid() && Position() == old(Position()) + 1 && pos == Position() && val == ValueAt(pos)
    {
      InputUniverse(universe, v);
      match kind
      case Ef(ef) => pos, val := ef.Next();
      case Rb(rb) => pos, val := rb.Next();
      case AllOnes(ao) => pos, val := ao.Next();
    }

    /** Only past the end, with a bound above the universe, the cursor below can leave the sequence. */
    ghost predicate Overruns(bound: nat)
      reads Inner()
    {
      match kind
      case Ef(ef) => ef.Overruns(bound)
      case Rb(rb) => rb.Overruns(bound)
      case AllOnes(_) => false
    }

    /**
     * The first element that is at least the bound, in all representations; where all values are
     * present, the code asserts that the bound is within the universe.
     */
    method NextGeq(bound: nat) returns (pos: nat, val: nat)
      requires Valid() && (kind.AllOnes? ==> bound <= universe)
      modifies Inner()
      ensures old(Overruns(bound)) ==> bound > universe && pos == Position() == |v| + 1 && val == universe
      ensures bound <= universe || !old(Overruns(bound)) ==>
        Valid() && Position() == FirstGeq(v, bound, 0) && pos == Position() && val == ValueAt(pos)
    {
      InputUniverse(universe, v);
      match kind
      case Ef(ef) =>
        if bound == ef.value {
          AtValue(universe, v, ef.position, bound);
        }
        pos, val := ef.NextGeq(bound);
      case Rb(rb) => pos, val := rb.NextGeq(bound);
      case AllOnes(ao) =>
        AllPresent(v, bound);
        pos, val := ao.NextGeq(bound);
    }

    method PrevValue() returns (prev: nat)
      requires Valid()
      ensures prev == if Position() == 0 then 0 else v[Position() - 1]
    {
      InputUniverse(universe, v);
      match kind
      case Ef(ef) => prev := ef.PrevValue();
      case Rb(rb) => prev := rb.PrevValue();
      case AllOnes(ao) => prev := ao.PrevValue();
    }
  }

  lemma TypeBit(bits: seq<bool>, offset: nat)
    requires offset < |bits|
    ensures Field(bits, offset, TYPE_BITS) == 1 <==> bits[offset]
  {
    assert bits[offset..offset + TYPE_BITS][0] == bits[offset];
  }

  /** In a strictly increasing sequence the current value occurs only once. */
  lemma AtValue(universe: nat, v: seq<nat>, position: nat, bound: nat)
    requires IsInput(universe, v) && position <= |v| && bound == if position < |v| then v[position] else universe
    ensures FirstGeq(v, bound, 0) == position
  {
    FirstGeqIs(v, bound, position);
  }

  lemma AllPresent(v: seq<nat>, bound: nat)
    requires bound <= |v| && forall i :: 0 <= i < |v| ==> v[i] == i
    ensures FirstGeq(v, bound, 0) == bound
  {
    FirstGeqIs(v, bound, bound);
  }
}
