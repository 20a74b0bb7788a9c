/**
 * The cursor over a partitioned sequence (partitioned_sequence.hpp, enumerator).
 *
 * It keeps the limits of the partition it is in and a cursor over that partition. As long as it stays
 * inside, all operations go to the inner cursor; otherwise the sizes or the upper bounds of the
 * partitions tell which one to switch to.
 *
 * Where no partition follows, the cursor stays in the last one, with the inner cursor behind its last
 * element, and reports the universe.
 */
module PartitionedSequenceEnumerator {
  import opened BitVector
  import opened IndexedSequence
  import opened IntegerCodes
  import opened MonotoneSequence
  import opened PartitionedSequence
  import EliasFano
  import EliasFanoEnumerator
  import IndexedSequenceEnumerator

  // ---------------------------------------------------------------------------------------------
  // The universe of a single partition passes through a variable of type int

  const TWO_31 := 0x8000_0000
  const TWO_32 := 0x1_0000_0000
  const TWO_64 := 0x1_0000_0000_0000_0000

  function Int32(x: int): int {
    var y := x % TWO_32;
    if y < TWO_31 then y else y - TWO_32
  }

  function Uint64(x: int): nat {
    x % TWO_64
  }

  /** What arrives at the base sequence as its universe when the last relative value is x. */
  function UniverseThroughInt(x: nat): nat {
    Uint64(Int32(Int32(x) + 1))
  }

  lemma Int32Range(x: int)
    ensures -TWO_31 <= Int32(x) < TWO_31 && (0 <= x < TWO_31 ==> Int32(x) == x)
  {
  }

  lemma Uint64Range(x: int)
    ensures 0 <= x < TWO_64 ==> Uint64(x) == x
    ensures -TWO_64 <= x < 0 ==> Uint64(x) == x + TWO_64
  {
  }

  /** The universe survives exactly when it is below 2^31 (or so large that its upper half is all ones). */
  lemma UniverseThroughIntIff(x: nat)
    requires x + 1 < TWO_64 - TWO_31
    ensures UniverseThroughInt(x) == x + 1 <==> x + 1 < TWO_31
    ensures x + 1 < TWO_31 ==> Int32(x) == x && Uint64(x + 1) == x + 1
  {
    hide Int32, Uint64;
    Int32Range(x);
    Int32Range(Int32(x) + 1);
    Uint64Range(Int32(Int32(x) + 1));
    Uint64Range(x + 1);
  }

  // ---------------------------------------------------------------------------------------------
  // Which partition a position or a value belongs to

  /** The partition that holds position i is the first one that ends behind it. */
  lemma PartitionOfPosition(v: seq<nat>, cuts: seq<nat>, i: nat, p: nat)
    requires IsSplit(v, cuts) && i < |v| && p == FirstGeq(cuts[..|cuts| - 1], i + 1, 0)
    ensures p < |cuts| && Begin(cuts, p) <= i < cuts[p]
  {
    var inner := cuts[..|cuts| - 1];
    assert p < |inner| ==> inner[p] == cuts[p];
    assert p > 0 ==> inner[p - 1] == cuts[p - 1] < i + 1;
  }

  lemma CutIsFirst(v: seq<nat>, cuts: seq<nat>, p: nat, i: nat)
    requires IsSplit(v, cuts) && p < |cuts| && i == cuts[p]
    ensures FirstGeq(cuts[..|cuts| - 1], i, 0) == p
  {
    FirstGeqIs(cuts[..|cuts| - 1], i, p);
  }

  /** The partition whose upper bounds enclose a value can contain it. */
  lemma PartitionOfValue(v: seq<nat>, cuts: seq<nat>, bound: nat, j: nat)
    requires IsSplit(v, cuts) && 1 <= j <= |cuts|
    requires bound <= UpperBounds(v, cuts)[j]
    requires bound == UpperBounds(v, cuts)[j] || UpperBounds(v, cuts)[j - 1] < bound
    ensures 0 < cuts[j - 1] <= |v| && (j > 1 ==> 0 < cuts[j - 2] <= |v|)
    ensures Base(v, cuts, j - 1) <= bound <= v[cuts[j - 1] - 1]
  {
    hide UpperBounds;
    SplitBounds(v, cuts, j - 1);
    UpperBoundAt(v, cuts, j);
    if j > 1 {
      UpperBoundAt(v, cuts, j - 1);
    }
  }

  /** Searching in the partition finds what searching in the whole sequence finds. */
  lemma SearchInPart(v: seq<nat>, cuts: seq<nat>, p: nat, bound: nat)
    requires IsSplit(v, cuts) && p < |cuts|
    requires 0 < cuts[p] <= |v| && (p > 0 ==> 0 < cuts[p - 1] <= |v|) && Base(v, cuts, p) <= bound <= v[cuts[p] - 1]
    ensures var r := FirstGeq(Part(v, cuts, p), bound - Base(v, cuts, p), 0);
      r < |Part(v, cuts, p)| && FirstGeq(v, bound, 0) == Begin(cuts, p) + r
  {
    hide FirstGeq, Relative, Part, Increasing;
    SplitBounds(v, cuts, p);
    var part, base, begin := Part(v, cuts, p), Base(v, cuts, p), Begin(cuts, p);
    var r := FirstGeq(part, bound - base, 0);
    assert part[|part| - 1] == v[cuts[p] - 1] - base;
    forall i | 0 <= i < begin + r
      ensures v[i] < bound
    {
      if i < begin {
        IncreasingAt(v, i, cuts[p - 1] - 1);
      } else {
        assert part[i - begin] < bound - base;
      }
    }
    FirstGeqIs(v, bound, begin + r);
  }

  lemma IncreasingAt(v: seq<nat>, i: nat, j: nat)
    requires Increasing(v) && i <= j < |v|
    ensures v[i] <= v[j]
  {
  }

  /** Values outside of all upper bounds. */
  lemma SearchOutside(v: seq<nat>, bound: nat)
    requires v != [] && Increasing(v)
    ensures bound <= v[0] ==> FirstGeq(v, bound, 0) == 0
    ensures bound > v[|v| - 1] ==> FirstGeq(v, bound, 0) == |v|
  {
    if bound > v[|v| - 1] {
      FirstGeqIs(v, bound, |v|);
    }
  }

  /** The limits of partition p in positions and in values. */
  ghost predicate Describes(v: seq<nat>, cuts: seq<nat>, p: nat, begin: nat, end: nat, base: nat, upperBound: nat)
    requires IsSplit(v, cuts)
  {
    && p < |cuts| && begin == Begin(cuts, p) < end == cuts[p] <= |v| && (p > 0 ==> 0 < cuts[p - 1])
    && base == Base(v, cuts, p) && upperBound == v[end - 1] && base <= upperBound
  }

  class Enumerator {
    const bits: seq<bool>
    const params: Parameters
    const partitions: nat
    const size: nat
    const universe: nat
    const endpointBits: nat
    const endpointsOffset: nat
    const sequencesOffset: nat
    const sizes: EliasFanoEnumerator.Enumerator?
    const upperBounds: EliasFanoEnumerator.Enumerator?
    var position: nat
    var curPartition: nat
    var curBegin: nat
    var curEnd: nat
    var curBase: nat
    var curUpperBound: nat
    var partitionEnum: IndexedSequenceEnumerator.Enumerator?
    ghost const offset: nat
    ghost const v: seq<nat>
    ghost const cuts: seq<nat>

    /** What never changes. */
    ghost predicate Opened() {
      && IsSplit(v, cuts) && PartitionedSequence.Encoded(bits, offset, universe, params, v, cuts, endpointBits)
      && partitions == |cuts| > 0 && size == |v| && (partitions == 1 ==> cuts == [|v|])
      && (partitions > 1 ==> OpenedMulti())
    }

    ghost predicate OpenedMulti()
      requires IsSplit(v, cuts) && partitions == |cuts| > 1 && size == |v|
    {
      && endpointsOffset == EndpointsOffset(params, offset, universe, size, partitions, endpointBits)
      && sequencesOffset == SequencesOffset(params, offset, universe, size, partitions, endpointBits)
      && sizes != null && upperBounds != null && sizes != upperBounds
      && sizes.v == cuts[..partitions - 1] && sizes.of.universe == size
      && upperBounds.v == UpperBounds(v, cuts)
      && upperBounds.of.universe == universe && upperBounds.of.n == partitions + 1
    }

    ghost predicate Cursors()
      reads sizes, upperBounds
    {
      partitions > 1 ==> sizes != null && upperBounds != null && sizes.Valid() && upperBounds.Valid()
    }

    ghost function Inner(): object
      reads this
    {
      if partitionEnum == null then this else partitionEnum.Inner()
    }

    /** The fields of the current partition describe it, and its cursor is apart from the others. */
    ghost predicate Current()
      requires Opened()
      reads this, Inner()
    {
      && Describes(v, cuts, curPartition, curBegin, curEnd, curBase, curUpperBound)
      && partitionEnum != null && partitionEnum.Valid() && partitionEnum.v == Part(v, cuts, curPartition)
      && partitionEnum.universe == curUpperBound - curBase + 1
      && Inner() != this && Inner() != sizes && Inner() != upperBounds
    }

    /** The cursor is at `position`, in the partition that holds it. */
    ghost predicate Placed()
      requires Opened()
      reads this, Inner()
    {
      && Current() && curBegin <= position <= curEnd && (position == curEnd ==> position == |v|)
      && partitionEnum.Position() == position - curBegin
    }

    /** Only in the middle of a search can the cursor over the upper bounds be past the end. */
    ghost predicate BoundsInside()
      reads upperBounds
    {
      partitions > 1 ==> upperBounds != null && upperBounds.position <= partitions
    }

    ghost predicate Valid()
      reads this, Inner(), sizes, upperBounds
    {
      Opened() && Cursors() && Placed() && BoundsInside()
    }

    /** The elements, followed by the universe. */
    ghost function ValueAt(i: nat): nat {
      if i < |v| then v[i] else universe
    }

    /** Reads the header and moves past the end. */
    constructor (bits: seq<bool>, offset: nat, universe: nat, n: nat, params: Parameters, ghost v: seq<nat>,
                 ghost cuts: seq<nat>, ghost width: nat)
      requires IsSplit(v, cuts) && n == |v|
      requires PartitionedSequence.Encoded(bits, offset, universe, params, v, cuts, width)
      requires |cuts| == 1 ==> cuts == [|v|] && universe < TWO_64 - TWO_31 && v[|v| - 1] - v[0] + 1 < TWO_31
      ensures Valid() && position == n && size == n && this.v == v && this.universe == universe
      ensures fresh(Inner()) && (sizes == null || fresh(sizes)) && (upperBounds == null || fresh(upperBounds))
    {
      hide MultiEncoded, SingleEncoded, IndexedSequence.Encoded, EliasFano.Encoded, UpperBounds, Part, PartUniverse,
        GammaCode,
        EndpointsOffset, SequencesOffset;
      this.bits, this.params, this.universe, this.size := bits, params, universe, n;
      this.offset, this.v, this.cuts := offset, v, cuts;
      HeaderThere(bits, offset, universe, params, v, cuts, width);
      var it := new BitEnumerator(bits, offset);
      var m := it.ReadGammaNonzero(|cuts|);
      partitions := m;
      if m == 1 {
        var base, ub, e := OpenSingle(bits, it.pos, offset, universe, n, params, v);
        curPartition, curBegin, curEnd, curBase, curUpperBound, partitionEnum := 0, 0, n, base, ub, e;
        position, sizes, upperBounds := n, null, null;
        endpointBits, endpointsOffset, sequencesOffset := 0, 0, 0;
      } else {
        var eb, eo, so, s, u := OpenMulti(bits, it.pos, offset, universe, n, params, m, v, cuts, width);
        endpointBits, endpointsOffset, sequencesOffset, sizes, upperBounds := eb, eo, so, s, u;
        curPartition, curBegin, curEnd, curBase, curUpperBound, partitionEnum := 0, 0, 0, 0, 0, null;
        position := n;
      }
      new;
      var _, _ := SlowMove();
    }

    /** The limits of a partition come from the two Elias-Fano cursors. */
    method ReadLimits(partition: nat)
      requires Opened() && Cursors() && partitions > 1 && partition < partitions
      modifies this`curPartition, this`curBegin, this`curEnd, this`curBase, this`curUpperBound, sizes, upperBounds
      ensures Cursors() && BoundsInside()
      ensures curPartition == partition && Describes(v, cuts, partition, curBegin, curEnd, curBase, curUpperBound)
    {
      hide PartitionedSequence.Encoded, IndexedSequence.Encoded, EliasFano.Encoded, UpperBounds, Part, PartUniverse,
        Base, IsSplit,
        EndpointsOffset, SequencesOffset, Endpoint, EliasFanoEnumerator.Enumerator.Valid;
      curPartition := partition;
      PartitionFields(v, cuts, partition);
      var _, end := sizes.Move(partition);
      curEnd := end;
      curBegin := sizes.PrevValue();
      var _, ub := upperBounds.Move(partition + 1);
      curUpperBound := ub;
      var prev := upperBounds.PrevValue();
      curBase := prev + if partition > 0 then 1 else 0;
    }

    /** Moves to a partition, with its cursor past its end. */
    method SwitchPartition(partition: nat)
      requires Opened() && Cursors() && partitions > 1 && partition < partitions
      modifies this, sizes, upperBounds
      ensures Cursors() && BoundsInside() && Current() && curPartition == partition && position == old(position)
      ensures fresh(Inner()) && partitionEnum.Position() == curEnd - curBegin
    {
      hide IndexedSequence.Encoded, EliasFano.Encoded, UpperBounds, Part, PartUniverse, Base, IsSplit,
        EndpointsOffset, SequencesOffset, Endpoint, EliasFanoEnumerator.Enumerator.Valid, MultiEncoded, OpenedMulti;
      var endpoint := ReadEndpoint(partition);
      ReadLimits(partition);
      PartitionFields(v, cuts, partition);
      SequenceThere(bits, offset, universe, params, v, cuts, endpointBits, partition);
      Offset();
      var e := new IndexedSequenceEnumerator.Enumerator(bits, sequencesOffset + endpoint,
        curUpperBound - curBase + 1, curEnd - curBegin, params, Part(v, cuts, partition));
      partitionEnum := e;
    }

    /** Any position up to the size can be visited. */
    method Move(to: nat) returns (pos: nat, val: nat)
      requires Opened() && Cursors() && Placed() && to <= |v| && (to == |v| || BoundsInside())
      modifies this, Inner(), sizes, upperBounds
      ensures Valid() && position == to && pos == to && val == ValueAt(to)
      ensures fresh(Inner()) || Inner() == old(Inner())
    {
      hide PartitionedSequence.Encoded, IndexedSequence.Encoded, EliasFano.Encoded, UpperBounds, IsSplit, OpenedMulti,
        Part, PartUniverse, Base,
        EliasFanoEnumerator.Enumerator.Valid, IndexedSequenceEnumerator.Enumerator.Valid,
        IndexedSequenceEnumerator.Enumerator.Position;
      position := to;
      if curBegin <= position < curEnd {
        var _, relative := partitionEnum.Move(position - curBegin);
        return position, curBase + relative;
      }
      pos, val := SlowMove();
    }

    /** Finds the partition of `position`, or puts the last partition's cursor at its end. */
    method SlowMove() returns (pos: nat, val: nat)
      requires Opened() && Cursors() && position <= |v|
      requires partitions == 1 ==> Current() && position == |v|
      modifies this, if partitions == 1 then {Inner()} else {}, sizes, upperBounds
      ensures Valid() && position == old(position) && pos == position && val == ValueAt(position)
      ensures fresh(Inner()) || Inner() == old(Inner())
    {
      hide PartitionedSequence.Encoded, IndexedSequence.Encoded, EliasFano.Encoded, UpperBounds, IsSplit, OpenedMulti,
        Part, PartUniverse, Base,
        EliasFanoEnumerator.Enumerator.Valid, IndexedSequenceEnumerator.Enumerator.Valid,
        IndexedSequenceEnumerator.Enumerator.Position;
      if position == size {
        if partitions > 1 {
          SwitchPartition(partitions - 1);
        }
        PartitionFields(v, cuts, partitions - 1);
        var _, _ := partitionEnum.Move(curEnd - curBegin);
        return position, universe;
      }
      var partition := FindPartition();
      SwitchPartition(partition);
      PartitionFields(v, cuts, partition);
      var _, relative := partitionEnum.Move(position - curBegin);
      return position, curBase + relative;
    }

    /** The first partition that ends behind `position`. */
    method FindPartition() returns (partition: nat)
      requires Opened() && Cursors() && position < |v| && partitions > 1
      modifies sizes
      ensures Cursors() && partition < partitions && Begin(cuts, partition) <= position < cuts[partition]
    {
      hide Enumerator.Opened, EliasFanoEnumerator.Enumerator.Valid, EliasFanoEnumerator.Enumerator.Overruns, FirstGeq,
        IsSplit, Begin;
      SizesAreCuts();
      sizes.InBounds();
      sizes.DoesNotOverrun(position + 1);
      if position + 1 == sizes.value {
        LastEnd(v, cuts);
        CutIsFirst(v, cuts, sizes.position, position + 1);
      }
      var first, _ := sizes.NextGeq(position + 1);
      partition := first;
      PartitionOfPosition(v, cuts, position, partition);
    }

    lemma SizesAreCuts()
      requires Opened() && partitions > 1
      ensures sizes != null && upperBounds != null && sizes != upperBounds
      ensures IsSplit(v, cuts) && |cuts| == partitions && |v| == size
      ensures sizes.v == cuts[..|cuts| - 1] && sizes.of.universe == |v|
    {
      hide PartitionedSequence.Encoded, IndexedSequence.Encoded, UpperBounds;
    }

    /** next must not be called past the end. */
    method Next() returns (pos: nat, val: nat)
      requires Valid() && position < |v|
      modifies this, Inner(), sizes, upperBounds
      ensures Valid() && position == old(position) + 1 && pos == position && val == ValueAt(position)
      ensures fresh(Inner()) || Inner() == old(Inner())
    {
      hide PartitionedSequence.Encoded, IndexedSequence.Encoded, EliasFano.Encoded, UpperBounds, IsSplit, OpenedMulti,
        Part, PartUniverse, Base,
        EliasFanoEnumerator.Enumerator.Valid, IndexedSequenceEnumerator.Enumerator.Valid,
        IndexedSequenceEnumerator.Enumerator.Position;
      PartitionFields(v, cuts, curPartition);
      position := position + 1;
      if position < curEnd {
        var _, relative := partitionEnum.Next();
        return position, curBase + relative;
      }
      pos, val := SlowNext();
    }

    /** The step from the last element of a partition. */
    method SlowNext() returns (pos: nat, val: nat)
      requires Opened() && Cursors() && BoundsInside() && Current() && position == curEnd
      requires partitionEnum.Position() == position - 1 - curBegin
      modifies this, Inner(), sizes, upperBounds
      ensures Valid() && position == old(position) && pos == position && val == ValueAt(position)
      ensures fresh(Inner()) || Inner() == old(Inner())
    {
      hide PartitionedSequence.Encoded, IndexedSequence.Encoded, EliasFano.Encoded, UpperBounds, IsSplit, OpenedMulti,
        Part, PartUniverse, Base,
        EliasFanoEnumerator.Enumerator.Valid, IndexedSequenceEnumerator.Enumerator.Valid,
        IndexedSequenceEnumerator.Enumerator.Position;
      PartitionFields(v, cuts, curPartition);
      if position == size {
        var _, _ := partitionEnum.Next();
        return position, universe;
      }
      LastEnd(v, cuts);
      SwitchPartition(curPartition + 1);
      PartitionFields(v, cuts, curPartition);
      var _, relative := partitionEnum.Move(0);
      return position, curBase + relative;
    }

    /** The element before the current one, or 0 if there is none. */
    method PrevValue() returns (prev: nat)
      requires Valid()
      ensures prev == if position == 0 then 0 else v[position - 1]
    {
      hide PartitionedSequence.Encoded, IndexedSequence.Encoded, EliasFano.Encoded, UpperBounds, IsSplit, OpenedMulti,
        Part, PartUniverse, Base,
        EliasFanoEnumerator.Enumerator.Valid, IndexedSequenceEnumerator.Enumerator.Valid,
        IndexedSequenceEnumerator.Enumerator.Position;
      PartitionFields(v, cuts, curPartition);
      if position == curBegin {
        prev := if curPartition > 0 then curBase - 1 else 0;
      } else {
        var relative := partitionEnum.PrevValue();
        prev := curBase + relative;
      }
    }

    ghost predicate InRange(bound: nat)
      reads this
    {
      curBase <= bound <= curUpperBound
    }

    /**
     * The first element that is at least the bound, from wherever the cursor is. If the current
     * partition encloses the bound, the position does not matter.
     */
    method NextGeq(bound: nat) returns (pos: nat, val: nat)
      requires Opened() && Cursors() && BoundsInside() && Current() && (InRange(bound) || Placed())
      modifies this, Inner(), sizes, upperBounds
      ensures Valid() && position == FirstGeq(v, bound, 0) && pos == position && val == ValueAt(position)
      ensures fresh(Inner()) || Inner() == old(Inner())
      decreases if InRange(bound) then 0 else 2
    {
      hide PartitionedSequence.Encoded, IndexedSequence.Encoded, EliasFano.Encoded, UpperBounds, IsSplit, OpenedMulti,
        FirstGeq, Part, Base,
        EliasFanoEnumerator.Enumerator.Valid, IndexedSequenceEnumerator.Enumerator.Valid,
        IndexedSequenceEnumerator.Enumerator.Position, Describes;
      if bound >= curBase && bound <= curUpperBound {
        pos, val := NextGeqInside(bound);
      } else {
        pos, val := SlowNextGeq(bound);
      }
    }

    /** The fast path: the search stays inside the current partition. */
    method NextGeqInside(bound: nat) returns (pos: nat, val: nat)
      requires Opened() && Current() && InRange(bound)
      modifies this`position, Inner()
      ensures Opened() && Placed() && position == FirstGeq(v, bound, 0) && pos == position && val == ValueAt(position)
      ensures Inner() == old(Inner())
    {
      hide PartitionedSequence.Encoded, IndexedSequence.Encoded, EliasFano.Encoded, UpperBounds, IsSplit, OpenedMulti,
        FirstGeq, PartUniverse, Part, Base,
        EliasFanoEnumerator.Enumerator.Valid, IndexedSequenceEnumerator.Enumerator.Valid,
        IndexedSequenceEnumerator.Enumerator.Position;
      PartitionFields(v, cuts, curPartition);
      SearchInPart(v, cuts, curPartition, bound);
      var inner, relative := partitionEnum.NextGeq(bound - curBase);
      position := curBegin + inner;
      return position, curBase + relative;
    }

    /** Finds the partition by its upper bound; the second search then stays inside it. */
    method SlowNextGeq(bound: nat) returns (pos: nat, val: nat)
      requires Valid() && !InRange(bound)
      modifies this, Inner(), sizes, upperBounds
      ensures Valid() && position == FirstGeq(v, bound, 0) && pos == position && val == ValueAt(position)
      ensures fresh(Inner()) || Inner() == old(Inner())
      decreases 1
    {
      hide PartitionedSequence.Encoded, IndexedSequence.Encoded, EliasFano.Encoded, UpperBounds, IsSplit, OpenedMulti,
        FirstGeq,
        EliasFanoEnumerator.Enumerator.Valid, IndexedSequenceEnumerator.Enumerator.Valid,
        IndexedSequenceEnumerator.Enumerator.Position;
      SplitInput(v, cuts);
      SearchOutside(v, bound);
      if partitions == 1 {
        if bound < curBase {
          pos, val := Move(0);
        } else {
          pos, val := Move(size);
        }
        return;
      }
      var first := FindBound(bound);
      if first == 0 {
        pos, val := Move(0);
        return;
      }
      if first == upperBounds.Size() {
        pos, val := Move(size);
        return;
      }
      SwitchPartition(first - 1);
      pos, val := NextGeq(bound);
    }

    /** The upper bound that the search leads to tells which partition can hold the value. */
    method FindBound(bound: nat) returns (first: nat)
      requires Opened() && Cursors() && BoundsInside() && partitions > 1
      modifies upperBounds
      ensures Cursors() && upperBounds.position == first <= partitions + 1 == upperBounds.Size()
      ensures first == 0 ==> bound <= v[0]
      ensures first == partitions + 1 ==> bound > v[|v| - 1]
      ensures 1 <= first <= partitions ==> InPartition(v, cuts, first - 1, bound)
    {
      hide PartitionedSequence.Encoded, IndexedSequence.Encoded, EliasFano.Encoded, UpperBounds, IsSplit, Describes,
        Part, FirstGeq, InPartition,
        IndexedSequenceEnumerator.Enumerator.Valid, IndexedSequenceEnumerator.Enumerator.Position;
      if bound == upperBounds.value {
        StayedAtBound(v, cuts, universe, upperBounds.position, bound);
      }
      var val;
      first, val := upperBounds.NextGeq(bound);
      FirstBound(v, cuts, bound);
    }

    lemma Offset()
      requires Opened() && partitions > 1
      ensures sequencesOffset == SequencesOffset(params, offset, universe, |v|, |cuts|, endpointBits)
    {
    }

    method ReadEndpoint(partition: nat) returns (endpoint: nat)
      requires Opened() && partitions > 1 && partition < partitions
      ensures endpoint == Endpoint(params, v, cuts, partition)
    {
      hide SequencesAt, EliasFano.Encoded, SequencesOffset, BoundsOffset, SizesOffset, StandsAt, IsSplit, UpperBounds;
      if partition > 0 {
        assert EndpointAt(bits, endpointsOffset, params, v, cuts, endpointBits, partition - 1);
        endpoint := Field(bits, Slot(endpointsOffset, partition - 1, endpointBits), endpointBits);
      } else {
        endpoint := 0;
      }
    }
  }

  /** What the cuts and the upper bounds say about a partition. */
  lemma PartitionFields(v: seq<nat>, cuts: seq<nat>, p: nat)
    requires IsSplit(v, cuts) && p < |cuts|
    ensures Begin(cuts, p) < cuts[p] <= |v| && (p > 0 ==> 0 < cuts[p - 1])
    ensures p == |cuts| - 1 ==> cuts[p] == |v|
    ensures UpperBounds(v, cuts)[p + 1] == v[cuts[p] - 1]
    ensures Base(v, cuts, p) == UpperBounds(v, cuts)[p] + if p > 0 then 1 else 0
    ensures Base(v, cuts, p) <= v[cuts[p] - 1] && PartUniverse(v, cuts, p) == v[cuts[p] - 1] - Base(v, cuts, p) + 1
    ensures |Part(v, cuts, p)| == cuts[p] - Begin(cuts, p)
  {
    hide UpperBounds, Relative;
    SplitBounds(v, cuts, p);
    UpperBoundAt(v, cuts, p + 1);
    if p > 0 {
      UpperBoundAt(v, cuts, p);
    }
  }

  /** The value lies between the limits of the partition. */
  ghost predicate InPartition(v: seq<nat>, cuts: seq<nat>, p: nat, bound: nat)
    requires IsSplit(v, cuts) && p < |cuts|
  {
    0 < cuts[p] <= |v| && (p > 0 ==> 0 < cuts[p - 1] <= |v|) && Base(v, cuts, p) <= bound <= v[cuts[p] - 1]
  }

  lemma StayedAtBound(v: seq<nat>, cuts: seq<nat>, universe: nat, j: nat, bound: nat)
    requires IsSplit(v, cuts) && j <= |cuts| && bound == UpperBounds(v, cuts)[j]
    ensures j == 0 ==> bound <= v[0]
    ensures j >= 1 ==> InPartition(v, cuts, j - 1, bound)
  {
    hide UpperBounds;
    if j >= 1 {
      PartitionOfValue(v, cuts, bound, j);
    }
  }

  lemma FirstBound(v: seq<nat>, cuts: seq<nat>, bound: nat)
    requires IsSplit(v, cuts)
    ensures var first := FirstGeq(UpperBounds(v, cuts), bound, 0);
      && (first == 0 ==> bound <= v[0])
      && (first == |cuts| + 1 ==> bound > v[|v| - 1])
      && (1 <= first <= |cuts| ==> InPartition(v, cuts, first - 1, bound))
  {
    hide UpperBounds, IsSplit;
    LastEnd(v, cuts);
    LastUpperBound(v, cuts);
    var first := FirstGeq(UpperBounds(v, cuts), bound, 0);
    if 1 <= first <= |cuts| {
      PartitionOfValue(v, cuts, bound, first);
    }
  }

  lemma LastEnd(v: seq<nat>, cuts: seq<nat>)
    requires IsSplit(v, cuts)
    ensures cuts != [] && cuts[|cuts| - 1] == |v|
  {
  }

  lemma SplitInput(v: seq<nat>, cuts: seq<nat>)
    requires IsSplit(v, cuts)
    ensures v != [] && Increasing(v)
  {
  }

  lemma SequenceThere(bits: seq<bool>, offset: nat, universe: nat, params: Parameters, v: seq<nat>, cuts: seq<nat>,
                      width: nat, p: nat)
    requires MultiEncoded(bits, offset, universe, params, v, cuts, width) && p < |cuts|
    ensures SequenceAt(bits, SequencesOffset(params, offset, universe, |v|, |cuts|, width), params, v, cuts, p)
  {
    hide SequenceAt, EliasFano.Encoded, EndpointsAt, SequencesOffset, BoundsOffset, EndpointsOffset, SizesOffset,
      StandsAt, IsSplit, UpperBounds;
  }

  lemma HeaderThere(bits: seq<bool>, offset: nat, universe: nat, params: Parameters, v: seq<nat>, cuts: seq<nat>,
                    width: nat)
    requires IsSplit(v, cuts) && PartitionedSequence.Encoded(bits, offset, universe, params, v, cuts, width)
    ensures cuts != [] && StandsAt(bits, offset, GammaCode(|cuts| - 1))
  {
    hide SequencesAt, EliasFano.Encoded, EndpointsAt, SequencesOffset, BoundsOffset, EndpointsOffset, SizesOffset,
      UpperBounds, GammaCode, DeltaCode;
  }

  /** The header of a single partition. */
  method OpenSingle(bits: seq<bool>, pos: nat, ghost offset: nat, universe: nat, n: nat, params: Parameters,
                    ghost v: seq<nat>)
    returns (base: nat, upperBound: nat, e: IndexedSequenceEnumerator.Enumerator)
    requires IsSplit(v, [|v|]) && n == |v| && SingleEncoded(bits, offset, universe, params, v)
    requires pos == BaseOffset(offset)
    requires universe < TWO_64 - TWO_31 && v[|v| - 1] - v[0] + 1 < TWO_31
    ensures base == v[0] && upperBound == v[|v| - 1]
    ensures e.Valid() && e.v == Part(v, [|v|], 0) && e.universe == upperBound - base + 1 && fresh(e) && fresh(e.Inner())
    ensures e.Position() == |v|
  {
    hide IndexedSequence.Encoded, GammaCode, DeltaCode, Bitsize, Relative, Part, PartUniverse, Uint64, Int32,
      UniverseThroughInt;
    var ub, seqUniverse, at;
    base, ub, seqUniverse, at := ReadSingleHeader(bits, pos, offset, universe, n, params, v);
    assert n > 1 ==> v[0] < v[|v| - 1];
    UniverseThroughIntIff(v[|v| - 1] - v[0]);
    Uint64Range(v[|v| - 1]);
    assert SequenceAt(bits, at, params, v, [|v|], 0);
    PartitionFields(v, [|v|], 0);
    e := new IndexedSequenceEnumerator.Enumerator(bits, at, seqUniverse, n, params, Part(v, [|v|], 0));
    upperBound := Uint64(base + ub);
  }

  /**
   * Reads base and universe of a single partition. Whatever the values span, the universe handed on is
   * the one that has gone through the int; it is right exactly below 2^31.
   */
  method ReadSingleHeader(bits: seq<bool>, pos: nat, ghost offset: nat, universe: nat, n: nat,
                          ghost params: Parameters, ghost v: seq<nat>)
    returns (base: nat, ub: int, seqUniverse: nat, at: nat)
    requires IsSplit(v, [|v|]) && n == |v| && SingleEncoded(bits, offset, universe, params, v)
    requires pos == BaseOffset(offset)
    requires universe < TWO_64 - TWO_31
    ensures base == v[0] && at == SingleOffset(offset, universe, |v|, UniverseDelta(universe, v))
    ensures ub == Int32(v[|v| - 1] - v[0]) && seqUniverse == UniverseThroughInt(v[|v| - 1] - v[0])
    ensures seqUniverse == v[|v| - 1] - v[0] + 1 <==> v[|v| - 1] - v[0] + 1 < TWO_31
  {
    hide IndexedSequence.Encoded, GammaCode, DeltaCode, Bitsize, Relative, Part, PartUniverse, Uint64, Int32;
    var it := new BitEnumerator(bits, pos);
    base := it.Take(CeilLog2(universe));
    ub := 0;
    Int32Range(0);
    if n > 1 {
      var delta := it.ReadDelta(UniverseDelta(universe, v));
      ub := Int32(if delta != 0 then delta else universe - base - 1);
    }
    assert n > 1 ==> v[0] < v[|v| - 1];
    UniverseThroughIntIff(v[|v| - 1] - v[0]);
    seqUniverse := Uint64(Int32(ub + 1));
    at := it.pos;
  }

  /** The header of several partitions. */
  method OpenMulti(bits: seq<bool>, pos: nat, ghost offset: nat, universe: nat, n: nat, params: Parameters,
                   partitions: nat,
                   ghost v: seq<nat>, ghost cuts: seq<nat>, ghost width: nat)
    returns (endpointBits: nat, endpointsOffset: nat, sequencesOffset: nat,
             sizes: EliasFanoEnumerator.Enumerator, upperBounds: EliasFanoEnumerator.Enumerator)
    requires n == |v| && partitions == |cuts| && MultiEncoded(bits, offset, universe, params, v, cuts, width)
    requires pos == offset + |GammaCode(partitions - 1)|
    ensures endpointBits == width
    ensures endpointsOffset == EndpointsOffset(params, offset, universe, n, partitions, width)
    ensures sequencesOffset == SequencesOffset(params, offset, universe, n, partitions, width)
    ensures fresh(sizes) && fresh(upperBounds) && sizes != upperBounds && sizes.Valid() && upperBounds.Valid()
    ensures sizes.v == cuts[..partitions - 1] && sizes.of.universe == n
    ensures upperBounds.v == UpperBounds(v, cuts) && upperBounds.of.universe == universe
    ensures upperBounds.of.n == partitions + 1
  {
    hide SequencesAt, EndpointsAt, EliasFano.Encoded, UpperBounds, GammaCode, EliasFano.Offsets.Bitsize;
    var it := new BitEnumerator(bits, pos);
    endpointBits := it.ReadGamma(width);
    var curOffset := it.pos;
    sizes := new EliasFanoEnumerator.Enumerator(bits, curOffset, n, partitions - 1,
      params.efLogSampling0, params.efLogSampling1,
      cuts[..partitions - 1]);
    curOffset := curOffset + params.Ef(0, n, partitions - 1).Bitsize();
    upperBounds := new EliasFanoEnumerator.Enumerator(bits, curOffset, universe, partitions + 1,
      params.efLogSampling0, params.efLogSampling1,
      UpperBounds(v, cuts));
    curOffset := curOffset + params.Ef(0, universe, partitions + 1).Bitsize();
    endpointsOffset := curOffset;
    sequencesOffset := Slot(curOffset, partitions - 1, endpointBits);
  }

  /** What the repository's own test does: write, open, move to the first element, call next to the end. */
  method RoundTrip(v: seq<nat>, universe: nat, params: Parameters, eps1: real, eps2: real, fixCost: nat)
    returns (values: seq<nat>, ghost cuts: seq<nat>)
    requires IsInput(universe, v) && AllFeasible(params, universe, |v|)
    requires Splittable(v, universe, params, eps1, eps2, fixCost)
    requires universe < TWO_64 - TWO_31
    ensures IsSplit(v, cuts)
    ensures |cuts| > 1 || v[|v| - 1] - v[0] + 1 < TWO_31 ==> values == v
  {
    hide AllFeasible, PartitionedSequence.Encoded, PaysOff, Cheapest, IsSplit, FirstGeq, GammaCode,
      OptimalPartition.BoundsEnd;
    var bvb := new BitVectorBuilder();
    ghost var width;
    cuts, width := PartitionedSequence.Write(bvb, v, universe, params, eps1, eps2, fixCost);
    HeaderThere(bvb.bits, 0, universe, params, v, cuts, width);
    var it := new BitEnumerator(bvb.bits, 0);
    var partitions := it.ReadGammaNonzero(|cuts|);
    values := [];
    if partitions > 1 || v[|v| - 1] - v[0] + 1 < TWO_31 {
      values := ReadAll(bvb.bits, 0, universe, |v|, params, v, cuts, width);
    }
  }

  /** Walking over any encoding; only a single partition must not span 2^31 values. */
  method ReadAll(bits: seq<bool>, offset: nat, universe: nat, n: nat, params: Parameters,
                 ghost v: seq<nat>, ghost cuts: seq<nat>, ghost width: nat)
    returns (values: seq<nat>)
    requires IsSplit(v, cuts) && n == |v| && PartitionedSequence.Encoded(bits, offset, universe, params, v, cuts, width)
    requires |cuts| == 1 ==> universe < TWO_64 - TWO_31 && v[|v| - 1] - v[0] + 1 < TWO_31
    ensures values == v
  {
    hide PartitionedSequence.Encoded, IsSplit, FirstGeq, Enumerator.Opened, Enumerator.Cursors, Enumerator.Placed,
      Enumerator.BoundsInside;
    SplitInput(v, cuts);
    SingleCut(v, cuts);
    var e := new Enumerator(bits, offset, universe, n, params, v, cuts, width);
    var _, val := e.Move(0);
    values := [];
    while e.position < e.size
      invariant e.Valid() && e.v == v && e.size == |v| && e.position <= |v|
      invariant values == v[..e.position] && val == e.ValueAt(e.position)
      invariant fresh(e) && fresh(e.Inner()) && (e.sizes == null || fresh(e.sizes))
      invariant (e.upperBounds == null || fresh(e.upperBounds))
      decreases |v| - e.position
    {
      values := values + [val];
      var _, next := e.Next();
      val := next;
    }
  }

  lemma SingleCut(v: seq<nat>, cuts: seq<nat>)
    requires IsSplit(v, cuts)
    ensures |cuts| == 1 ==> cuts == [|v|]
  {
  }
}
