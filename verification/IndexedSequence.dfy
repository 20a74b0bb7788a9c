/**
 * Strictly increasing sequences in the cheapest of three representations.
 *
 * Elias-Fano, ranked bit vector, or nothing at all if every value is present (indexed_sequence.hpp,
 * all_ones_sequence.hpp).
 */
module IndexedSequence {
  import opened BitVector
  import opened MonotoneSequence
  import EliasFano
  import RankedBitvector

  datatype Parameters =
    Parameters(efLogSampling0: nat, efLogSampling1: nat, rbLogRank1Sampling: nat, rbLogSampling1: nat)
  {
    function Ef(base: nat, universe: nat, n: nat): EliasFano.Offsets {
      EliasFano.Offsets(base, universe, n, efLogSampling0, efLogSampling1)
    }

    function Rb(base: nat, universe: nat, n: nat): RankedBitvector.Offsets {
      RankedBitvector.Offsets(base, universe, n, rbLogRank1Sampling, rbLogSampling1)
    }
  }

  const TYPE_BITS := 1

  /** uint64_t(-1), the cost of an impossible representation. */
  const IMPOSSIBLE := 0xFFFF_FFFF_FFFF_FFFF

  function AllOnesBitsize(universe: nat, n: nat): nat {
    if universe == n then 0 else IMPOSSIBLE
  }

  function EfCost(params: Parameters, universe: nat, n: nat): nat {
    params.Ef(0, universe, n).Bitsize() + TYPE_BITS
  }

  function RbCost(params: Parameters, universe: nat, n: nat): nat
  {
    params.Rb(0, universe, n).Bitsize() + TYPE_BITS
  }

  function Bitsize(params: Parameters, universe: nat, n: nat): nat
  {
    Min(RbCost(params, universe, n), Min(EfCost(params, universe, n), AllOnesBitsize(universe, n)))
  }

  /** The sizes fit in 64 bits. */
  ghost predicate Feasible(params: Parameters, universe: nat, n: nat)
  {
    EfCost(params, universe, n) < IMPOSSIBLE && RbCost(params, universe, n) < IMPOSSIBLE
  }

  ghost predicate IsInput(universe: nat, v: seq<nat>) {
    v != [] && Increasing(v) && forall i :: 0 <= i < |v| ==> v[i] < universe
  }

  lemma InputUniverse(universe: nat, v: seq<nat>)
    requires IsInput(universe, v)
    ensures 0 < |v| <= universe
    ensures |v| == universe ==> forall i :: 0 <= i < |v| ==> v[i] == i
  {
    forall i | 0 <= i < |v|
      ensures i <= v[i] <= universe - (|v| - i)
    {
      Spread(v, 0, i);
      Spread(v, i, |v| - 1);
    }
    assert v[0] <= universe - |v|;
  }

  /** bits contain v at the offset: a type bit followed by the cheaper encoding, unless all values are present. */
  ghost predicate Encoded(bits: seq<bool>, offset: nat, universe: nat, params: Parameters, v: seq<nat>) {
    IsInput(universe, v) && (universe != |v| ==> EncodedAs(bits, offset, universe, params, v))
  }

  ghost predicate EncodedAs(bits: seq<bool>, offset: nat, universe: nat, params: Parameters, v: seq<nat>)
  {
    && offset < |bits|
    && bits[offset] == (RbCost(params, universe, |v|) < EfCost(params, universe, |v|))
    && if bits[offset] then RankedBitvector.Encoded(bits, params.Rb(offset + TYPE_BITS, universe, |v|), v)
       else EliasFano.Encoded(bits, params.Ef(offset + TYPE_BITS, universe, |v|), v)
  }

  lemma EfSize(params: Parameters, base: nat, universe: nat, n: nat)
    ensures params.Ef(base, universe, n).Bitsize() + TYPE_BITS == EfCost(params, universe, n)
  {
    EliasFano.MovedOffsets(params.Ef(base, universe, n), 0);
  }

  lemma RbSize(params: Parameters, base: nat, universe: nat, n: nat)
    ensures params.Rb(base, universe, n).Bitsize() + TYPE_BITS == RbCost(params, universe, n)
  {
    RankedBitvector.MovedOffsets(params.Rb(base, universe, n), 0);
  }

  /** Appends v in its cheapest representation: exactly as many bits as announced. */
  method Write(bvb: BitVectorBuilder, v: seq<nat>, universe: nat, params: Parameters)
    requires IsInput(universe, v) && Feasible(params, universe, |v|)
    modifies bvb
    ensures old(bvb.bits) <= bvb.bits && |bvb.bits| == |old(bvb.bits)| + Bitsize(params, universe, |v|)
    ensures Encoded(bvb.bits, |old(bvb.bits)|, universe, params, v)
  {
    hide EliasFano.Encoded, RankedBitvector.Encoded, EliasFano.Offsets.Bitsize, RankedBitvector.Offsets.Bitsize,
      EliasFano.Offsets.End, RankedBitvector.Offsets.End;
    InputUniverse(universe, v);
    ghost var offset := |bvb.bits|;
    EfSize(params, offset + TYPE_BITS, universe, |v|);
    RbSize(params, offset + TYPE_BITS, universe, |v|);
    if AllOnesBitsize(universe, |v|) != 0 {
      var rb := RbCost(params, universe, |v|) < EfCost(params, universe, |v|);
      ghost var before := bvb.bits;
      bvb.AppendBits(if rb then 1 else 0, TYPE_BITS);
      assert bvb.bits == before + [rb];
      ghost var typed := bvb.bits;
      if rb {
        var outcome := RankedBitvector.Write(bvb, v, universe, params.rbLogRank1Sampling, params.rbLogSampling1);
      } else {
        var ok := EliasFano.Write(bvb, v, universe, params.efLogSampling0, params.efLogSampling1);
      }
      assert bvb.bits[offset] == typed[offset];
    }
  }

  /** A copy of an encoding is an encoding. */
  lemma MovedEncoding(bits: seq<bool>, offset: nat, universe: nat, params: Parameters, v: seq<nat>, bits': seq<bool>,
                      offset': nat)
    requires Encoded(bits, offset, universe, params, v) && Feasible(params, universe, |v|)
    requires offset + Bitsize(params, universe, |v|) <= |bits|
    requires Moved(bits, offset, bits', offset', Bitsize(params, universe, |v|))
    ensures Encoded(bits', offset', universe, params, v)
  {
    hide EliasFano.Encoded, RankedBitvector.Encoded, EliasFano.Offsets.Bitsize, RankedBitvector.Offsets.Bitsize,
      EliasFano.Offsets.End, RankedBitvector.Offsets.End, Moved;
    if universe != |v| {
      MovedInside(bits, offset, bits', offset', Bitsize(params, universe, |v|));
      MovedBit(bits, offset, bits', offset', Bitsize(params, universe, |v|), 0);
      if bits[offset] {
        RbSize(params, offset + TYPE_BITS, universe, |v|);
        MovedTail(bits, offset, bits', offset', Bitsize(params, universe, |v|));
        RankedBitvector.MovedEncoding(bits, params.Rb(offset + TYPE_BITS, universe, |v|), v, bits',
          offset' + TYPE_BITS);
      } else {
        EfSize(params, offset + TYPE_BITS, universe, |v|);
        MovedTail(bits, offset, bits', offset', Bitsize(params, universe, |v|));
        EliasFano.MovedEncoding(bits, params.Ef(offset + TYPE_BITS, universe, |v|), v, bits', offset' + TYPE_BITS);
      }
    }
  }

  lemma MovedTail(bits: seq<bool>, a: nat, bits': seq<bool>, b: nat, len: nat)
    requires len >= TYPE_BITS && Moved(bits, a, bits', b, len)
    ensures Moved(bits, a + TYPE_BITS, bits', b + TYPE_BITS, len - TYPE_BITS)
  {
    SliceOfSlice(bits, a, len, TYPE_BITS, len - TYPE_BITS);
    SliceOfSlice(bits', b, len, TYPE_BITS, len - TYPE_BITS);
  }
}
