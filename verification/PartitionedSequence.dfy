/**
 * Strictly increasing sequences split into separately encoded partitions (partitioned_sequence.hpp).
 *
 * Several partitions: their number, the width of an endpoint, the sizes and the upper bounds of the
 * partitions as Elias-Fano sequences, the endpoints, and the partitions, each relative to its base.
 * One partition: the number 1, the base, how far the universe is from the last value unless there is
 * only one, and the sequence relative to its base.
 */
module PartitionedSequence {
  import opened BitVector
  import opened IndexedSequence
  import opened IntegerCodes
  import opened MonotoneSequence
  import EliasFano
  import OptimalPartition

  /** The ends of the partitions. */
  ghost predicate AreCuts(n: nat, cuts: seq<nat>) {
    && cuts != [] && cuts[0] > 0 && cuts[|cuts| - 1] == n
    && forall p, q :: 0 <= p < q < |cuts| ==> cuts[p] < cuts[q]
  }

  function Begin(cuts: seq<nat>, p: nat): nat
    requires p <= |cuts|
  {
    if p == 0 then 0 else cuts[p - 1]
  }

  /** The first value that can occur in partition p. */
  function Base(v: seq<nat>, cuts: seq<nat>, p: nat): nat
    requires v != [] && p <= |cuts| && (p > 0 ==> 0 < cuts[p - 1] <= |v|)
  {
    if p == 0 then v[0] else v[cuts[p - 1] - 1] + 1
  }

  /** What both functions below demand of their arguments. */
  ghost predicate IsSplit(v: seq<nat>, cuts: seq<nat>) {
    v != [] && Increasing(v) && AreCuts(|v|, cuts)
  }

  lemma SplitBounds(v: seq<nat>, cuts: seq<nat>, p: nat)
    requires IsSplit(v, cuts) && p < |cuts|
    ensures Begin(cuts, p) < cuts[p] <= |v| && (p > 0 ==> 0 < cuts[p - 1])
    ensures Base(v, cuts, p) <= v[Begin(cuts, p)] <= v[cuts[p] - 1]
  {
    if p > 0 {
      assert cuts[p - 1] < cuts[p];
      assert p > 1 ==> cuts[0] < cuts[p - 1];
      assert v[cuts[p - 1] - 1] < v[cuts[p - 1]];
    }
    assert p < |cuts| - 1 ==> cuts[p] < cuts[|cuts| - 1];
    assert Begin(cuts, p) < cuts[p] - 1 ==> v[Begin(cuts, p)] < v[cuts[p] - 1];
  }

  /** Partition p, relative to its base. */
  ghost function Part(v: seq<nat>, cuts: seq<nat>, p: nat): (part: seq<nat>)
    requires IsSplit(v, cuts) && p < |cuts|
    ensures |part| == cuts[p] - Begin(cuts, p) > 0
    ensures forall i :: 0 <= i < |part| ==>
      Begin(cuts, p) + i < |v| && part[i] == v[Begin(cuts, p) + i] - Base(v, cuts, p)
  {
    SplitBounds(v, cuts, p);
    Relative(v, Base(v, cuts, p), Begin(cuts, p), cuts[p])
  }

  ghost function Relative(v: seq<nat>, base: nat, begin: nat, end: nat): (r: seq<nat>)
    requires begin <= end <= |v| && Increasing(v) && (begin < end ==> base <= v[begin])
    ensures |r| == end - begin && forall i :: 0 <= i < |r| ==> v[begin + i] >= base && r[i] == v[begin + i] - base
  {
    NotBelow(v, base, begin, end);
    seq(end - begin, i requires 0 <= i < end - begin => v[begin + i] - base)
  }

  lemma NotBelow(v: seq<nat>, base: nat, begin: nat, end: nat)
    requires begin <= end <= |v| && Increasing(v) && (begin < end ==> base <= v[begin])
    ensures forall i :: begin <= i < end ==> v[i] >= base
  {
  }

  ghost function PartUniverse(v: seq<nat>, cuts: seq<nat>, p: nat): nat
    requires IsSplit(v, cuts) && p < |cuts|
  {
    var part := Part(v, cuts, p);
    part[|part| - 1] + 1
  }

  lemma PartIsInput(v: seq<nat>, cuts: seq<nat>, p: nat)
    requires IsSplit(v, cuts) && p < |cuts|
    ensures IsInput(PartUniverse(v, cuts, p), Part(v, cuts, p))
  {
    SplitBounds(v, cuts, p);
    var part, begin := Part(v, cuts, p), Begin(cuts, p);
    forall i, j | 0 <= i < j < |part|
      ensures part[i] < part[j]
    {
      assert v[begin + i] < v[begin + j];
    }
  }

  /** The first value, followed by the last values of the partitions. */
  ghost function UpperBounds(v: seq<nat>, cuts: seq<nat>): (r: seq<nat>)
    requires IsSplit(v, cuts)
    ensures |r| == |cuts| + 1 && r[0] == v[0]
    ensures forall p :: 0 <= p < |cuts| ==> 0 < cuts[p] <= |v| && r[p + 1] == v[cuts[p] - 1]
  {
    forall p | 0 <= p < |cuts| ensures 0 < cuts[p] <= |v| { SplitBounds(v, cuts, p); }
    [v[0]] + seq(|cuts|, p requires 0 <= p < |cuts| => v[cuts[p] - 1])
  }

  lemma UpperBoundAt(v: seq<nat>, cuts: seq<nat>, i: nat)
    requires IsSplit(v, cuts) && 1 <= i <= |cuts|
    ensures 0 < cuts[i - 1] <= |v| && UpperBounds(v, cuts)[i] == v[cuts[i - 1] - 1]
  {
    assert UpperBounds(v, cuts)[(i - 1) + 1] == v[cuts[i - 1] - 1];
  }

  /** Upper bounds increase, except that the first value can be the last one of its partition. */
  lemma UpperBoundsIncrease(v: seq<nat>, cuts: seq<nat>, i: nat, j: nat)
    requires IsSplit(v, cuts) && i < j <= |cuts|
    ensures UpperBounds(v, cuts)[i] <= UpperBounds(v, cuts)[j]
    ensures i > 0 ==> UpperBounds(v, cuts)[i] < UpperBounds(v, cuts)[j]
  {
    hide UpperBounds;
    UpperBoundAt(v, cuts, j);
    if i > 0 {
      UpperBoundAt(v, cuts, i);
      assert cuts[i - 1] < cuts[j - 1];
    }
  }

  lemma UpperBoundsSorted(v: seq<nat>, cuts: seq<nat>, universe: nat)
    requires IsSplit(v, cuts) && v[|v| - 1] < universe
    ensures Sorted(UpperBounds(v, cuts))
    ensures forall i :: 0 <= i < |UpperBounds(v, cuts)| ==> UpperBounds(v, cuts)[i] < universe
  {
    hide UpperBounds, IsSplit;
    forall i, j | 0 <= i < j <= |cuts|
      ensures UpperBounds(v, cuts)[i] <= UpperBounds(v, cuts)[j]
    {
      UpperBoundsIncrease(v, cuts, i, j);
    }
    LastUpperBound(v, cuts);
  }

  lemma LastUpperBound(v: seq<nat>, cuts: seq<nat>)
    requires IsSplit(v, cuts)
    ensures cuts != [] && UpperBounds(v, cuts)[|cuts|] == v[|v| - 1]
  {
    hide UpperBounds;
    UpperBoundAt(v, cuts, |cuts|);
  }

  /** The number of bits that the encodings of the first p partitions take. */
  ghost function Endpoint(params: Parameters, v: seq<nat>, cuts: seq<nat>, p: nat): nat
    requires IsSplit(v, cuts) && p <= |cuts|
  {
    if p == 0 then 0
    else Endpoint(params, v, cuts, p - 1) + Bitsize(params, PartUniverse(v, cuts, p - 1), |Part(v, cuts, p - 1)|)
  }

  lemma {:induction false} EndpointsAscend(params: Parameters, v: seq<nat>, cuts: seq<nat>, p: nat, q: nat)
    requires IsSplit(v, cuts) && p <= q <= |cuts|
    ensures Endpoint(params, v, cuts, p) <= Endpoint(params, v, cuts, q)
    decreases q
  {
    hide Bitsize, Part, PartUniverse, IsSplit;
    if p < q {
      EndpointsAscend(params, v, cuts, p, q - 1);
    }
  }

  // ---------------------------------------------------------------------------------------------
  // The layout

  /** The encodings of the first m partitions stand one after another from the offset on. */
  ghost predicate SequencesAt(bits: seq<bool>, offset: nat, params: Parameters, v: seq<nat>, cuts: seq<nat>, m: nat)
    requires IsSplit(v, cuts) && m <= |cuts|
  {
    && offset + Endpoint(params, v, cuts, m) <= |bits|
    && forall p :: 0 <= p < m ==> SequenceAt(bits, offset, params, v, cuts, p)
  }

  ghost predicate SequenceAt(bits: seq<bool>, offset: nat, params: Parameters, v: seq<nat>, cuts: seq<nat>, p: nat)
    requires IsSplit(v, cuts) && p < |cuts|
  {
    IndexedSequence.Encoded(bits, offset + Endpoint(params, v, cuts, p), PartUniverse(v, cuts, p), params,
      Part(v, cuts, p))
  }

  /** All sizes that can occur fit in 64 bits. */
  ghost predicate AllFeasible(params: Parameters, universe: nat, n: nat) {
    forall u, m :: 0 < u <= universe && 0 < m <= n ==> Feasible(params, u, m)
  }

  lemma PartFeasible(params: Parameters, universe: nat, v: seq<nat>, cuts: seq<nat>, p: nat)
    requires IsSplit(v, cuts) && p < |cuts| && AllFeasible(params, universe, |v|) && v[|v| - 1] < universe
    ensures Feasible(params, PartUniverse(v, cuts, p), |Part(v, cuts, p)|)
    ensures PartUniverse(v, cuts, p) <= universe
  {
    hide Feasible;
    SplitBounds(v, cuts, p);
    assert cuts[p] < |v| ==> v[cuts[p] - 1] < v[|v| - 1];
  }

  /** Sequences that stand somewhere can be copied elsewhere. */
  lemma MovedSequences(bits: seq<bool>, offset: nat, params: Parameters, universe: nat, v: seq<nat>, cuts: seq<nat>,
                       m: nat,
                       bits': seq<bool>, offset': nat)
    requires IsSplit(v, cuts) && m <= |cuts| && AllFeasible(params, universe, |v|) && v[|v| - 1] < universe
    requires SequencesAt(bits, offset, params, v, cuts, m)
    requires Moved(bits, offset, bits', offset', Endpoint(params, v, cuts, m))
    ensures SequencesAt(bits', offset', params, v, cuts, m)
  {
    hide IndexedSequence.Encoded, Bitsize, Feasible, AllFeasible, Moved, Part, PartUniverse, IsSplit;
    MovedInside(bits, offset, bits', offset', Endpoint(params, v, cuts, m));
    forall p | 0 <= p < m
      ensures SequenceAt(bits', offset', params, v, cuts, p)
    {
      assert SequenceAt(bits, offset, params, v, cuts, p);
      EndpointsAscend(params, v, cuts, p + 1, m);
      PartFeasible(params, universe, v, cuts, p);
      var u, part, from := PartUniverse(v, cuts, p), Part(v, cuts, p), Endpoint(params, v, cuts, p);
      MovedPart(bits, offset, bits', offset', Endpoint(params, v, cuts, m), from, Bitsize(params, u, |part|));
      IndexedSequence.MovedEncoding(bits, offset + from, u, params, part, bits', offset' + from);
    }
  }

  lemma MovedPart(bits: seq<bool>, a: nat, bits': seq<bool>, b: nat, len: nat, k: nat, width: nat)
    requires Moved(bits, a, bits', b, len) && k + width <= len
    ensures Moved(bits, a + k, bits', b + k, width)
  {
    SliceOfSlice(bits, a, len, k, width);
    SliceOfSlice(bits', b, len, k, width);
  }

  function SizesOffset(offset: nat, partitions: nat, endpointBits: nat): nat
    requires partitions > 0
  {
    offset + |GammaCode(partitions - 1)| + |GammaCode(endpointBits)|
  }

  function BoundsOffset(params: Parameters, offset: nat, n: nat, partitions: nat, endpointBits: nat): nat
    requires partitions > 0
  {
    SizesOffset(offset, partitions, endpointBits) + params.Ef(0, n, partitions - 1).Bitsize()
  }

  function EndpointsOffset(params: Parameters, offset: nat, universe: nat, n: nat, partitions: nat,
                           endpointBits: nat): nat
    requires partitions > 0
  {
    BoundsOffset(params, offset, n, partitions, endpointBits) + params.Ef(0, universe, partitions + 1).Bitsize()
  }

  function SequencesOffset(params: Parameters, offset: nat, universe: nat, n: nat, partitions: nat,
                           endpointBits: nat): nat
    requires partitions > 0
  {
    Slot(EndpointsOffset(params, offset, universe, n, partitions, endpointBits), partitions - 1, endpointBits)
  }

  ghost predicate EndpointAt(bits: seq<bool>, offset: nat, params: Parameters, v: seq<nat>, cuts: seq<nat>, width: nat,
                             p: nat)
    requires IsSplit(v, cuts) && p < |cuts|
  {
    var at := Slot(offset, p, width);
    at + width <= |bits| && Field(bits, at, width) == Endpoint(params, v, cuts, p + 1)
  }

  /** The ends of the first m encodings, in fields of one width. */
  ghost predicate EndpointsAt(bits: seq<bool>, offset: nat, params: Parameters, v: seq<nat>, cuts: seq<nat>, width: nat,
                              m: nat)
    requires IsSplit(v, cuts) && m <= |cuts|
  {
    forall p :: 0 <= p < m ==> EndpointAt(bits, offset, params, v, cuts, width, p)
  }

  /** Several partitions: their number, the cuts, the upper bounds, the endpoints, the sequences. */
  ghost predicate MultiEncoded(bits: seq<bool>, offset: nat, universe: nat, params: Parameters, v: seq<nat>,
                               cuts: seq<nat>, width: nat) {
    var k, n := |cuts|, |v|;
    && k > 1 && IsSplit(v, cuts) && v[n - 1] < universe
    && StandsAt(bits, offset, GammaCode(k - 1)) && StandsAt(bits, offset + |GammaCode(k - 1)|, GammaCode(width))
    && EliasFano.Encoded(bits, params.Ef(SizesOffset(offset, k, width), n, k - 1), cuts[..k - 1])
    && EliasFano.Encoded(bits, params.Ef(BoundsOffset(params, offset, n, k, width), universe, k + 1),
         UpperBounds(v, cuts))
    && EndpointsAt(bits, EndpointsOffset(params, offset, universe, n, k, width), params, v, cuts, width, k - 1)
    && SequencesAt(bits, SequencesOffset(params, offset, universe, n, k, width), params, v, cuts, k)
  }

  /** What is stored of the universe of a single partition: nothing if it is tight. */
  function UniverseDelta(universe: nat, v: seq<nat>): nat
    requires v != [] && v[0] <= v[|v| - 1]
  {
    if v[|v| - 1] + 1 == universe then 0 else v[|v| - 1] - v[0]
  }

  function BaseOffset(offset: nat): nat {
    offset + |GammaCode(0)|
  }

  function DeltaOffset(offset: nat, universe: nat): nat {
    BaseOffset(offset) + CeilLog2(universe)
  }

  function SingleOffset(offset: nat, universe: nat, n: nat, delta: nat): nat {
    DeltaOffset(offset, universe) + if n > 1 then |DeltaCode(delta)| else 0
  }

  /** One partition: its base, its universe unless there is a single value, the sequence. */
  ghost predicate SingleEncoded(bits: seq<bool>, offset: nat, universe: nat, params: Parameters, v: seq<nat>) {
    && IsSplit(v, [|v|]) && v[0] <= v[|v| - 1] < universe
    && StandsAt(bits, offset, GammaCode(0))
    && DeltaOffset(offset, universe) <= |bits| && Field(bits, BaseOffset(offset), CeilLog2(universe)) == v[0]
    && (|v| > 1 ==> StandsAt(bits, DeltaOffset(offset, universe), DeltaCode(UniverseDelta(universe, v))))
    && SequencesAt(bits, SingleOffset(offset, universe, |v|, UniverseDelta(universe, v)), params, v, [|v|], 1)
  }

  ghost predicate Encoded(bits: seq<bool>, offset: nat, universe: nat, params: Parameters, v: seq<nat>, cuts: seq<nat>,
                          width: nat) {
    if cuts == [|v|] then SingleEncoded(bits, offset, universe, params, v)
    else MultiEncoded(bits, offset, universe, params, v, cuts, width)
  }

  // ---------------------------------------------------------------------------------------------
  // Writing

  method CollectPart(v: seq<nat>, base: nat, begin: nat, end: nat) returns (part: seq<nat>, value: nat)
    requires begin < end <= |v| && Increasing(v) && base <= v[begin]
    ensures part == Relative(v, base, begin, end) && value == v[end - 1]
  {
    part, value := [], 0;
    for i := begin to end
      invariant part == Relative(v, base, begin, i)
      invariant i > begin ==> value == v[i - 1]
    {
      assert begin < i ==> v[begin] < v[i];
      value := v[i];
      part := part + [value - base];
    }
  }

  lemma PrefixMoved(bits: seq<bool>, bits': seq<bool>, offset: nat, len: nat)
    requires bits <= bits' && offset + len <= |bits|
    ensures Moved(bits, offset, bits', offset, len)
  {
  }

  lemma OneMoreSequence(bits: seq<bool>, bits': seq<bool>, params: Parameters, universe: nat, v: seq<nat>,
                        cuts: seq<nat>, p: nat)
    requires IsSplit(v, cuts) && p < |cuts| && AllFeasible(params, universe, |v|) && v[|v| - 1] < universe
    requires SequencesAt(bits, 0, params, v, cuts, p) && |bits| == Endpoint(params, v, cuts, p) && bits <= bits'
    requires |bits'| == Endpoint(params, v, cuts, p + 1) && SequenceAt(bits', 0, params, v, cuts, p)
    ensures SequencesAt(bits', 0, params, v, cuts, p + 1)
  {
    hide SequenceAt, Endpoint, IsSplit, AllFeasible, Moved;
    PrefixMoved(bits, bits', 0, |bits|);
    MovedSequences(bits, 0, params, universe, v, cuts, p, bits', 0);
  }

  /** The sequence of partition p goes to the end of the builder. */
  method WriteSequence(bvb: BitVectorBuilder, v: seq<nat>, universe: nat, params: Parameters, cuts: seq<nat>, p: nat,
                       base: nat)
    returns (upperBound: nat)
    requires IsSplit(v, cuts) && p < |cuts| && AllFeasible(params, universe, |v|) && v[|v| - 1] < universe
    requires base == Base(v, cuts, p)
    requires SequencesAt(bvb.bits, 0, params, v, cuts, p) && |bvb.bits| == Endpoint(params, v, cuts, p)
    modifies bvb
    ensures SequencesAt(bvb.bits, 0, params, v, cuts, p + 1) && |bvb.bits| == Endpoint(params, v, cuts, p + 1)
    ensures 0 < cuts[p] <= |v| && upperBound == v[cuts[p] - 1]
  {
    hide IndexedSequence.Encoded, Bitsize, AllFeasible, Feasible, SequencesAt, Relative, IsInput;
    SplitBounds(v, cuts, p);
    ghost var was := bvb.bits;
    var part;
    part, upperBound := CollectPart(v, base, Begin(cuts, p), cuts[p]);
    PartFeasible(params, universe, v, cuts, p);
    PartIsInput(v, cuts, p);
    IndexedSequence.Write(bvb, part, part[|part| - 1] + 1, params);
    OneMoreSequence(was, bvb.bits, params, universe, v, cuts, p);
  }

  lemma NoSequences(params: Parameters, v: seq<nat>, cuts: seq<nat>)
    requires IsSplit(v, cuts)
    ensures SequencesAt([], 0, params, v, cuts, 0)
  {
  }

  /** All partitions, with their endpoints and upper bounds. */
  method WriteSequences(bvSequences: BitVectorBuilder, v: seq<nat>, universe: nat, params: Parameters, cuts: seq<nat>)
    returns (endpoints: seq<nat>, upperBounds: seq<nat>)
    requires IsSplit(v, cuts) && AllFeasible(params, universe, |v|) && v[|v| - 1] < universe
    requires bvSequences.bits == []
    modifies bvSequences
    ensures SequencesAt(bvSequences.bits, 0, params, v, cuts, |cuts|)
    ensures |bvSequences.bits| == Endpoint(params, v, cuts, |cuts|)
    ensures |endpoints| == |cuts| && forall p :: 0 <= p < |cuts| ==> endpoints[p] == Endpoint(params, v, cuts, p + 1)
    ensures upperBounds == UpperBounds(v, cuts)
  {
    hide SequencesAt, AllFeasible, UpperBounds, Endpoint, Bitsize;
    NoSequences(params, v, cuts);
    NoEndpoint(params, v, cuts);
    endpoints := [];
    var curBase := v[0];
    upperBounds := [curBase];
    for p := 0 to |cuts|
      invariant SequencesAt(bvSequences.bits, 0, params, v, cuts, p)
      invariant |bvSequences.bits| == Endpoint(params, v, cuts, p)
      invariant p < |cuts| ==> (p > 0 ==> 0 < cuts[p - 1] <= |v|) && curBase == Base(v, cuts, p)
      invariant |endpoints| == p && forall q :: 0 <= q < p ==> endpoints[q] == Endpoint(params, v, cuts, q + 1)
      invariant |upperBounds| == p + 1 && upperBounds[0] == v[0]
      invariant forall q :: 0 <= q < p ==> 0 < cuts[q] <= |v| && upperBounds[q + 1] == v[cuts[q] - 1]
    {
      var upperBound := WriteSequence(bvSequences, v, universe, params, cuts, p, curBase);
      endpoints := endpoints + [|bvSequences.bits|];
      upperBounds := upperBounds + [upperBound];
      curBase := upperBound + 1;
    }
    SameBounds(v, cuts, upperBounds);
  }

  lemma NoEndpoint(params: Parameters, v: seq<nat>, cuts: seq<nat>)
    requires IsSplit(v, cuts)
    ensures Endpoint(params, v, cuts, 0) == 0
  {
  }

  lemma SameBounds(v: seq<nat>, cuts: seq<nat>, u: seq<nat>)
    requires IsSplit(v, cuts) && |u| == |cuts| + 1 && u[0] == v[0]
    requires forall q :: 0 <= q < |cuts| ==> 0 < cuts[q] <= |v| && u[q + 1] == v[cuts[q] - 1]
    ensures u == UpperBounds(v, cuts)
  {
    hide UpperBounds;
    forall i | 0 <= i < |u|
      ensures u[i] == UpperBounds(v, cuts)[i]
    {
      if i > 0 {
        UpperBoundAt(v, cuts, i);
        assert u[(i - 1) + 1] == v[cuts[i - 1] - 1];
      }
    }
  }

  lemma AppendedMoved(before: seq<bool>, s: seq<bool>, bits: seq<bool>)
    requires before + s <= bits
    ensures Moved(s, 0, bits, |before|, |s|)
  {
    assert bits[|before|..|before| + |s|] == (before + s)[|before|..];
  }

  /** An Elias-Fano sequence written to a builder of its own and appended to another one. */
  lemma AppendedEliasFano(s: seq<bool>, of: EliasFano.Offsets, w: seq<nat>, before: seq<bool>, bits: seq<bool>)
    requires of.base == 0 && EliasFano.Encoded(s, of, w) && |s| == of.Bitsize() && before + s <= bits
    ensures EliasFano.Encoded(bits, of.(base := |before|), w)
  {
    hide EliasFano.Encoded, EliasFano.Offsets.Bitsize, Moved;
    AppendedMoved(before, s, bits);
    EliasFano.MovedEncoding(s, of, w, bits, |before|);
  }

  lemma FieldInPrefix(bits: seq<bool>, bits': seq<bool>, pos: nat, len: nat)
    requires bits <= bits' && pos + len <= |bits|
    ensures Field(bits', pos, len) == Field(bits, pos, len)
  {
    assert bits'[pos..pos + len] == bits[pos..pos + len];
  }

  lemma StillEndpointsAt(bits: seq<bool>, bits': seq<bool>, offset: nat, params: Parameters, v: seq<nat>,
                         cuts: seq<nat>, width: nat, m: nat)
    requires IsSplit(v, cuts) && m <= |cuts| && EndpointsAt(bits, offset, params, v, cuts, width, m) && bits <= bits'
    ensures EndpointsAt(bits', offset, params, v, cuts, width, m)
  {
    hide Endpoint, IsSplit, Field;
    forall p | 0 <= p < m
      ensures EndpointAt(bits', offset, params, v, cuts, width, p)
    {
      assert EndpointAt(bits, offset, params, v, cuts, width, p);
      FieldInPrefix(bits, bits', Slot(offset, p, width), width);
    }
  }

  /** All endpoints but the last. */
  method WriteEndpoints(bvb: BitVectorBuilder, ghost params: Parameters, ghost v: seq<nat>, ghost cuts: seq<nat>,
                        width: nat, endpoints: seq<nat>)
    requires IsSplit(v, cuts) && Endpoint(params, v, cuts, |cuts|) < Pow2(width)
    requires |endpoints| == |cuts| && forall p :: 0 <= p < |cuts| ==> endpoints[p] == Endpoint(params, v, cuts, p + 1)
    modifies bvb
    ensures old(bvb.bits) <= bvb.bits && |bvb.bits| == Slot(|old(bvb.bits)|, |cuts| - 1, width)
    ensures EndpointsAt(bvb.bits, |old(bvb.bits)|, params, v, cuts, width, |cuts| - 1)
  {
    hide Endpoint, Field, EndpointsAt;
    ghost var offset := |bvb.bits|;
    NoEndpoints(bvb.bits, offset, params, v, cuts, width);
    for p := 0 to |endpoints| - 1
      invariant old(bvb.bits) <= bvb.bits && |bvb.bits| == Slot(offset, p, width)
      invariant EndpointsAt(bvb.bits, offset, params, v, cuts, width, p)
    {
      ghost var was := bvb.bits;
      EndpointsAscend(params, v, cuts, p + 1, |cuts|);
      bvb.AppendBits(endpoints[p], width);
      StillEndpointsAt(was, bvb.bits, offset, params, v, cuts, width, p);
      OneMoreEndpoint(bvb.bits, offset, params, v, cuts, width, p);
    }
  }

  lemma NoEndpoints(bits: seq<bool>, offset: nat, params: Parameters, v: seq<nat>, cuts: seq<nat>, width: nat)
    requires IsSplit(v, cuts)
    ensures EndpointsAt(bits, offset, params, v, cuts, width, 0)
  {
  }

  lemma OneMoreEndpoint(bits: seq<bool>, offset: nat, params: Parameters, v: seq<nat>, cuts: seq<nat>, width: nat,
                        p: nat)
    requires IsSplit(v, cuts) && p < |cuts| && EndpointsAt(bits, offset, params, v, cuts, width, p)
    requires EndpointAt(bits, offset, params, v, cuts, width, p)
    ensures EndpointsAt(bits, offset, params, v, cuts, width, p + 1)
  {
    hide EndpointAt;
  }

  lemma CutsFit(v: seq<nat>, cuts: seq<nat>)
    requires IsSplit(v, cuts) && |cuts| > 1
    ensures var c := cuts[..|cuts| - 1];
      c != [] && Sorted(c) && forall i :: 0 <= i < |c| ==> c[i] < |v|
  {
  }

  /** Everything after the number of partitions, for more than one of them. */
  method WriteMulti(bvb: BitVectorBuilder, v: seq<nat>, universe: nat, params: Parameters, cuts: seq<nat>,
                    ghost offset: nat)
    returns (endpointBits: nat)
    requires IsSplit(v, cuts) && |cuts| > 1 && AllFeasible(params, universe, |v|) && v[|v| - 1] < universe
    requires StandsAt(bvb.bits, offset, GammaCode(|cuts| - 1)) && |bvb.bits| == offset + |GammaCode(|cuts| - 1)|
    modifies bvb
    ensures old(bvb.bits) <= bvb.bits && MultiEncoded(bvb.bits, offset, universe, params, v, cuts, endpointBits)
    ensures |bvb.bits| ==
      SequencesOffset(params, offset, universe, |v|, |cuts|, endpointBits) + Endpoint(params, v, cuts, |cuts|)
  {
    hide SequencesAt, AllFeasible, Endpoint, EndpointsAt, StandsAt, GammaCode, EliasFano.Encoded, UpperBounds,
      EliasFano.Offsets.Bitsize, EliasFano.Offsets.End, CeilLog2, MultiEncoded, Moved;
    ghost var k := |cuts|;
    var bvSequences := new BitVectorBuilder();
    var endpoints, upperBounds := WriteSequences(bvSequences, v, universe, params, cuts);
    var bvSizes := new BitVectorBuilder();
    CutsFit(v, cuts);
    var ok := EliasFano.Write(bvSizes, cuts[..|cuts| - 1], |v|, params.efLogSampling0, params.efLogSampling1);
    var bvUpperBounds := new BitVectorBuilder();
    UpperBoundsSorted(v, cuts, universe);
    ok := EliasFano.Write(bvUpperBounds, upperBounds, universe, params.efLogSampling0, params.efLogSampling1);
    endpointBits := CeilLog2(|bvSequences.bits| + 1);
    ghost var s0 := bvb.bits;
    WriteGamma(bvb, endpointBits);
    ghost var s1 := bvb.bits;
    bvb.Append(bvSizes.bits);
    ghost var s2 := bvb.bits;
    bvb.Append(bvUpperBounds.bits);
    ghost var s3 := bvb.bits;
    WriteEndpoints(bvb, params, v, cuts, endpointBits, endpoints);
    ghost var s4 := bvb.bits;
    bvb.Append(bvSequences.bits);
    Assembled(s0, s1, bvSizes.bits, bvUpperBounds.bits, s3, s4, bvSequences.bits, offset, universe, params, v, cuts,
      endpointBits);
  }

  /** The parts written one after another make up the encoding. */
  lemma Assembled(s0: seq<bool>, s1: seq<bool>, sizes: seq<bool>, bounds: seq<bool>, s3: seq<bool>, s4: seq<bool>,
                  sequences: seq<bool>,
                  offset: nat, universe: nat, params: Parameters, v: seq<nat>, cuts: seq<nat>, width: nat)
    requires IsSplit(v, cuts) && |cuts| > 1 && AllFeasible(params, universe, |v|) && v[|v| - 1] < universe
    requires StandsAt(s0, offset, GammaCode(|cuts| - 1)) && |s0| == offset + |GammaCode(|cuts| - 1)|
    requires s1 == s0 + GammaCode(width) && s3 == s1 + sizes + bounds && s3 <= s4
    requires EliasFano.Encoded(sizes, params.Ef(0, |v|, |cuts| - 1), cuts[..|cuts| - 1])
    requires |sizes| == params.Ef(0, |v|, |cuts| - 1).Bitsize()
    requires EliasFano.Encoded(bounds, params.Ef(0, universe, |cuts| + 1), UpperBounds(v, cuts))
    requires |bounds| == params.Ef(0, universe, |cuts| + 1).Bitsize()
    requires |s4| == Slot(|s3|, |cuts| - 1, width) && EndpointsAt(s4, |s3|, params, v, cuts, width, |cuts| - 1)
    requires SequencesAt(sequences, 0, params, v, cuts, |cuts|) && |sequences| == Endpoint(params, v, cuts, |cuts|)
    ensures MultiEncoded(s4 + sequences, offset, universe, params, v, cuts, width)
    ensures |s4| == SequencesOffset(params, offset, universe, |v|, |cuts|, width)
  {
    hide SequencesAt, AllFeasible, Endpoint, EndpointsAt, GammaCode, EliasFano.Encoded, UpperBounds, Slot, IsSplit,
      EliasFano.Offsets.Bitsize, EliasFano.Offsets.End, Moved;
    var bits := s4 + sequences;
    var k := |cuts|;
    StillStandsAt(s0, bits, offset, GammaCode(k - 1));
    assert StandsAt(s1, |s0|, GammaCode(width));
    StillStandsAt(s1, bits, |s0|, GammaCode(width));
    AppendedEliasFano(sizes, params.Ef(0, |v|, k - 1), cuts[..k - 1], s1, bits);
    AppendedEliasFano(bounds, params.Ef(0, universe, k + 1), UpperBounds(v, cuts), s1 + sizes, bits);
    StillEndpointsAt(s4, bits, |s3|, params, v, cuts, width, k - 1);
    AppendedMoved(s4, sequences, bits);
    MovedSequences(sequences, 0, params, universe, v, cuts, k, bits, |s4|);
  }

  lemma WholeIsSplit(universe: nat, v: seq<nat>)
    requires IsInput(universe, v)
    ensures IsSplit(v, [|v|]) && v[0] <= v[|v| - 1] < universe
  {
    assert |v| > 1 ==> v[0] < v[|v| - 1];
  }

  /** Everything after the number of partitions, for a single one. */
  method WriteSingle(bvb: BitVectorBuilder, v: seq<nat>, universe: nat, params: Parameters, ghost offset: nat)
    requires IsInput(universe, v) && AllFeasible(params, universe, |v|)
    requires StandsAt(bvb.bits, offset, GammaCode(0)) && |bvb.bits| == BaseOffset(offset)
    modifies bvb
    ensures old(bvb.bits) <= bvb.bits && SingleEncoded(bvb.bits, offset, universe, params, v)
  {
    hide AllFeasible, Endpoint, StandsAt, GammaCode, DeltaCode, IndexedSequence.Encoded, Bitsize, CeilLog2, IsInput,
      Relative, SingleEncoded, Feasible;
    WholeIsSplit(universe, v);
    var base := v[0];
    var part, last := CollectPart(v, base, 0, |v|);
    ghost var s0 := bvb.bits;
    bvb.AppendBits(base, CeilLog2(universe));
    ghost var s1 := bvb.bits;
    var delta := if base + part[|part| - 1] + 1 == universe then 0 else part[|part| - 1];
    if |v| > 1 {
      WriteDelta(bvb, delta);
    }
    ghost var s2 := bvb.bits;
    PartIsInput(v, [|v|], 0);
    PartFeasible(params, universe, v, [|v|], 0);
    IndexedSequence.Write(bvb, part, part[|part| - 1] + 1, params);
    SingleAssembled(s0, s1, s2, bvb.bits, offset, universe, params, v);
  }

  lemma SingleAssembled(s0: seq<bool>, s1: seq<bool>, s2: seq<bool>, bits: seq<bool>, offset: nat, universe: nat,
                        params: Parameters, v: seq<nat>)
    requires IsSplit(v, [|v|]) && v[0] <= v[|v| - 1] < universe
    requires StandsAt(s0, offset, GammaCode(0)) && |s0| == BaseOffset(offset)
    requires s0 <= s1 && |s1| == |s0| + CeilLog2(universe) && Field(s1, |s0|, CeilLog2(universe)) == v[0]
    requires s2 == s1 + if |v| > 1 then DeltaCode(UniverseDelta(universe, v)) else []
    requires s2 <= bits && |bits| == |s2| + Bitsize(params, PartUniverse(v, [|v|], 0), |Part(v, [|v|], 0)|)
    requires IndexedSequence.Encoded(bits, |s2|, PartUniverse(v, [|v|], 0), params, Part(v, [|v|], 0))
    ensures SingleEncoded(bits, offset, universe, params, v)
  {
    hide GammaCode, DeltaCode, IndexedSequence.Encoded, Bitsize, CeilLog2, Relative, Part, PartUniverse, Field, IsSplit;
    StillStandsAt(s0, bits, offset, GammaCode(0));
    FieldInPrefix(s1, bits, |s0|, CeilLog2(universe));
    if |v| > 1 {
      assert StandsAt(s2, |s1|, DeltaCode(UniverseDelta(universe, v)));
      StillStandsAt(s2, bits, |s1|, DeltaCode(UniverseDelta(universe, v)));
    }
    assert Endpoint(params, v, [|v|], 0) == 0;
  }

  // ---------------------------------------------------------------------------------------------
  // The cost model

  /** The cost function that the partitioner is given: a partition costs its bits and a fixed amount. */
  function CostModel(v: seq<nat>, universe: nat, params: Parameters, fixCost: nat): OptimalPartition.Problem {
    OptimalPartition.Problem(v, (u, m) => Bitsize(params, u, m) + fixCost, universe)
  }

  /** A piece costs what its partition takes. */
  lemma PieceCost(v: seq<nat>, cuts: seq<nat>, p: nat, universe: nat, params: Parameters, fixCost: nat)
    requires IsSplit(v, cuts) && p < |cuts| && v[|v| - 1] - v[0] + 1 < OptimalPartition.POSTINGS
    ensures Begin(cuts, p) < cuts[p] <= |v|
    ensures CostModel(v, universe, params, fixCost).Piece(Begin(cuts, p), cuts[p]) ==
      Bitsize(params, PartUniverse(v, cuts, p), |Part(v, cuts, p)|) + fixCost
  {
    hide Bitsize, Increasing, AreCuts;
    SplitBounds(v, cuts, p);
    PieceUniverse(v, cuts, p);
    assert CostModel(v, universe, params, fixCost).Base(Begin(cuts, p)) == Base(v, cuts, p);
  }

  /** The span of a partition is its universe, too small to wrap around. */
  lemma PieceUniverse(v: seq<nat>, cuts: seq<nat>, p: nat)
    requires IsSplit(v, cuts) && p < |cuts| && v[|v| - 1] - v[0] + 1 < OptimalPartition.POSTINGS
    ensures Begin(cuts, p) < cuts[p] <= |v| && (p > 0 ==> 0 < cuts[p - 1])
    ensures PartUniverse(v, cuts, p) == v[cuts[p] - 1] - Base(v, cuts, p) + 1 < OptimalPartition.POSTINGS
  {
    SplitBounds(v, cuts, p);
    assert cuts[p] < |v| ==> v[cuts[p] - 1] < v[|v| - 1];
    assert p > 0 && cuts[p - 1] > 1 ==> v[0] < v[cuts[p - 1] - 1];
  }

  lemma CutsFrom(v: seq<nat>, cuts: seq<nat>, p: nat, problem: OptimalPartition.Problem)
    requires IsSplit(v, cuts) && p <= |cuts| && problem.v == v
    ensures problem.AreCuts(Begin(cuts, p), cuts[p..])
  {
    forall q | p <= q < |cuts|
      ensures Begin(cuts, p) < cuts[q] <= |v|
    {
      SplitBounds(v, cuts, p);
      SplitBounds(v, cuts, q);
    }
  }

  lemma FirstPiece(problem: OptimalPartition.Problem, cuts: seq<nat>, p: nat)
    requires p < |cuts| && problem.AreCuts(Begin(cuts, p), cuts[p..])
    ensures problem.AreCuts(cuts[p], cuts[p + 1..])
    ensures Begin(cuts, p) < cuts[p] <= |problem.v|
    ensures problem.Pieces(Begin(cuts, p), cuts[p..]) ==
      problem.Piece(Begin(cuts, p), cuts[p]) + problem.Pieces(cuts[p], cuts[p + 1..])
  {
    hide OptimalPartition.Problem.Piece;
    assert cuts[p..][0] == cuts[p] && cuts[p..][1..] == cuts[p + 1..];
  }

  lemma {:induction false} PiecesFrom(v: seq<nat>, cuts: seq<nat>, p: nat, universe: nat, params: Parameters,
                                      fixCost: nat)
    requires IsSplit(v, cuts) && p <= |cuts| && v[|v| - 1] - v[0] + 1 < OptimalPartition.POSTINGS
    requires CostModel(v, universe, params, fixCost).AreCuts(Begin(cuts, p), cuts[p..])
    ensures CostModel(v, universe, params, fixCost).Pieces(Begin(cuts, p), cuts[p..]) +
      Endpoint(params, v, cuts, p) + Slot(0, p, fixCost) == Endpoint(params, v, cuts, |cuts|) + Slot(0, |cuts|, fixCost)
    decreases |cuts| - p
  {
    hide Bitsize, Part, PartUniverse, OptimalPartition.Problem.Piece, OptimalPartition.Problem.AreCuts, CostModel,
      IsSplit;
    var problem := CostModel(v, universe, params, fixCost);
    if p < |cuts| {
      SameValues(v, universe, params, fixCost);
      FirstPiece(problem, cuts, p);
      PieceCost(v, cuts, p, universe, params, fixCost);
      PiecesFrom(v, cuts, p + 1, universe, params, fixCost);
    } else {
      assert cuts[p..] == [];
    }
  }

  lemma SameValues(v: seq<nat>, universe: nat, params: Parameters, fixCost: nat)
    ensures CostModel(v, universe, params, fixCost).v == v
  {
  }

  /** The cost of the cuts is the number of bits of the sequences plus a fixed cost for each partition. */
  lemma CostModelIsExact(v: seq<nat>, cuts: seq<nat>, universe: nat, params: Parameters, fixCost: nat)
    requires IsSplit(v, cuts) && v[|v| - 1] - v[0] + 1 < OptimalPartition.POSTINGS
    ensures var problem := CostModel(v, universe, params, fixCost);
      && problem.AreCuts(0, cuts)
      && problem.Pieces(0, cuts) == Endpoint(params, v, cuts, |cuts|) + Slot(0, |cuts|, fixCost)
  {
    assert cuts[0..] == cuts;
    CutsFrom(v, cuts, 0, CostModel(v, universe, params, fixCost));
    PiecesFrom(v, cuts, 0, universe, params, fixCost);
  }

  /** What the partitioner needs in order to terminate. */
  ghost predicate Splittable(v: seq<nat>, universe: nat, params: Parameters, eps1: real, eps2: real, fixCost: nat) {
    var problem := CostModel(v, universe, params, fixCost);
    |v| < OptimalPartition.POSTINGS && eps2 >= 0.0 &&
    OptimalPartition.BoundsEnd(problem.cost(1, 1), problem.Single(), eps1, eps2)
  }

  /** Several partitions are chosen only if they take less than a single one. */
  ghost predicate PaysOff(v: seq<nat>, cuts: seq<nat>, universe: nat, params: Parameters, fixCost: nat)
    requires IsSplit(v, cuts)
  {
    |cuts| > 1 && v[|v| - 1] - v[0] + 1 < OptimalPartition.POSTINGS ==>
      Endpoint(params, v, cuts, |cuts|) + Slot(0, |cuts|, fixCost) < Bitsize(params, universe, |v|) + fixCost
  }

  /**
   * For a monotone cost, no partition into pieces that some window proposes takes less than what is
   * written, or than the single block if that costs less; several partitions are such pieces.
   */
  ghost predicate Cheapest(v: seq<nat>, cuts: seq<nat>, universe: nat, params: Parameters, eps1: real, eps2: real,
                           fixCost: nat)
    requires IsSplit(v, cuts) && eps2 >= 0.0
  {
    var problem := CostModel(v, universe, params, fixCost);
    var written := Endpoint(params, v, cuts, |cuts|) + Slot(0, |cuts|, fixCost);
    v[|v| - 1] - v[0] + 1 < OptimalPartition.POSTINGS ==>
      exists bounds ::
        (OptimalPartition.WindowBounds(bounds, problem.cost(1, 1), problem.Single(), eps1, eps2) &&
         (problem.Monotone() ==>
            && OptimalPartition.NoneCheaper(problem, bounds, Min(written, problem.Single()))
            && (cuts != [|v|] ==>
                  && OptimalPartition.IsPartition(problem, 0, cuts)
                  && OptimalPartition.IsSparse(problem, bounds, 0, cuts))))
  }

  method ChooseCuts(v: seq<nat>, universe: nat, params: Parameters, eps1: real, eps2: real, fixCost: nat)
    returns (cuts: seq<nat>)
    requires v != [] && Increasing(v) && Splittable(v, universe, params, eps1, eps2, fixCost)
    ensures IsSplit(v, cuts) && (|cuts| == 1 <==> cuts == [|v|]) && PaysOff(v, cuts, universe, params, fixCost)
    ensures Cheapest(v, cuts, universe, params, eps1, eps2, fixCost)
  {
    hide Bitsize, Endpoint, Slot, OptimalPartition.Problem.Pieces, OptimalPartition.Problem.Piece,
      OptimalPartition.IsPartition,
      OptimalPartition.BoundsEnd, OptimalPartition.WindowBounds, OptimalPartition.NoneCheaper,
      OptimalPartition.IsSparse,
      OptimalPartition.Problem.Monotone;
    var problem := CostModel(v, universe, params, fixCost);
    var opt := new OptimalPartition.OptimalPartition(problem, eps1, eps2);
    cuts := opt.partition;
    CutsAreSplit(problem, cuts);
    if v[|v| - 1] - v[0] + 1 < OptimalPartition.POSTINGS {
      CostModelIsExact(v, cuts, universe, params, fixCost);
      ghost var bounds :| OptimalPartition.WindowBounds(bounds, problem.cost(1, 1), problem.Single(), eps1, eps2) &&
        (problem.Monotone() ==> OptimalPartition.IsCheapest(problem, bounds, cuts, opt.costOpt));
      OptimalPartition.CheaperStill(problem, bounds, opt.costOpt, Min(problem.Pieces(0, cuts), problem.Single()));
    }
  }

  /** Splits v where the partitioner says, and appends the encoding. */
  method Write(bvb: BitVectorBuilder, v: seq<nat>, universe: nat, params: Parameters, eps1: real, eps2: real,
               fixCost: nat)
    returns (ghost cuts: seq<nat>, ghost width: nat)
    requires IsInput(universe, v) && AllFeasible(params, universe, |v|)
    requires Splittable(v, universe, params, eps1, eps2, fixCost)
    modifies bvb
    ensures old(bvb.bits) <= bvb.bits && IsSplit(v, cuts) && PaysOff(v, cuts, universe, params, fixCost)
    ensures eps2 >= 0.0 && Cheapest(v, cuts, universe, params, eps1, eps2, fixCost)
    ensures Encoded(bvb.bits, |old(bvb.bits)|, universe, params, v, cuts, width)
  {
    hide AllFeasible, SingleEncoded, MultiEncoded, GammaCode, PaysOff, Cheapest, OptimalPartition.BoundsEnd;
    ghost var offset := |bvb.bits|;
    WholeIsSplit(universe, v);
    var partition := ChooseCuts(v, universe, params, eps1, eps2, fixCost);
    cuts := partition;
    ghost var was := bvb.bits;
    WriteGammaNonzero(bvb, |partition|);
    Appended(was, GammaCode(|partition| - 1));
    if |partition| == 1 {
      WriteSingle(bvb, v, universe, params, offset);
      width := 0;
    } else {
      width := WriteMulti(bvb, v, universe, params, partition, offset);
    }
  }

  lemma CutsAreSplit(problem: OptimalPartition.Problem, cuts: seq<nat>)
    requires problem.Valid() && cuts != [] && OptimalPartition.IsPartition(problem, 0, cuts)
    ensures IsSplit(problem.v, cuts) && (|cuts| == 1 <==> cuts == [|problem.v|])
  {
  }
}
