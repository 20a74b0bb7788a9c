/**
 * Strictly increasing sequences as plain bit vectors with sampled ranks (compact_ranked_bitvector.hpp).
 *
 * The elements are the set bits; sampled are the positions of set bits and the ranks of positions.
 */
module RankedBitvector {
  import opened BitVector
  import opened MonotoneSequence

  datatype Offsets = Offsets(base: nat, universe: nat, n: nat, logRank1Sampling: nat, logSampling1: nat) {
    function Rank1SampleSize(): nat {
      CeilLog2(n + 1)
    }

    function PointerSize(): nat
    {
      CeilLog2(universe)
    }

    function Rank1Samples(): nat {
      Shr(universe, logRank1Sampling)
    }

    function Pointers1(): nat {
      Shr(n, logSampling1)
    }

    function Rank1SamplesOffset(): nat {
      base
    }

    function Pointers1Offset(): nat {
      Slot(Rank1SamplesOffset(), Rank1Samples(), Rank1SampleSize())
    }

    function BitsOffset(): nat
    {
      Slot(Pointers1Offset(), Pointers1(), PointerSize())
    }

    function End(): nat
    {
      BitsOffset() + universe
    }

    /** The number of bits of the encoding. */
    function Bitsize(): (r: nat)
      ensures base + r == End()
    {
      Layout();
      End() - base
    }

    lemma Layout()
      ensures base == Rank1SamplesOffset() <= Pointers1Offset() <= BitsOffset() <= End()
      ensures End() == BitsOffset() + universe
    {
      SlotMonotone(Rank1SamplesOffset(), 0, Rank1Samples(), Rank1SampleSize());
      SlotMonotone(Pointers1Offset(), 0, Pointers1(), PointerSize());
    }
  }

  /** One bit for each number below the universe; samples and pointers are as narrow as their values allow. */
  lemma SpaceBound(of: Offsets)
    ensures of.Bitsize() - of.universe ==
      Slot(0, of.Rank1Samples(), of.Rank1SampleSize()) + Slot(0, of.Pointers1(), of.PointerSize())
    ensures Shl(of.Rank1Samples(), of.logRank1Sampling) <= of.universe < Shl(of.Rank1Samples() + 1, of.logRank1Sampling)
    ensures Shl(of.Pointers1(), of.logSampling1) <= of.n < Shl(of.Pointers1() + 1, of.logSampling1)
    ensures forall r :: of.n < Pow2(r) <==> of.Rank1SampleSize() <= r
    ensures forall r :: of.universe <= Pow2(r) <==> of.PointerSize() <= r
  {
    hide CeilLog2, Pow2, Shl, Shr, Slot;
    of.Layout();
    SlotShift(0, of.base, of.Rank1Samples(), of.Rank1SampleSize());
    SlotShift(0, of.Pointers1Offset(), of.Pointers1(), of.PointerSize());
    ShrIsQuotient(of.universe, of.logRank1Sampling);
    ShrIsQuotient(of.n, of.logSampling1);
    forall r: nat
      ensures of.n < Pow2(r) <==> of.Rank1SampleSize() <= r
      ensures of.universe <= Pow2(r) <==> of.PointerSize() <= r
    {
      CeilLog2IsLeast(of.n + 1, r);
      CeilLog2IsLeast(of.universe, r);
    }
  }

  /** The bit of an element is inside exactly below the universe; that of the universe would be the next one. */
  lemma UniverseIsBehind(of: Offsets, x: nat)
    ensures of.BitsOffset() + x < of.End() <==> x < of.universe
  {
    hide Offsets.BitsOffset, Offsets.End;
    of.Layout();
  }

  /** What write demands of its input, apart from the order, which it checks. */
  ghost predicate Fits(of: Offsets, v: seq<nat>) {
    of.n == |v| && forall i :: 0 <= i < |v| ==> v[i] < of.universe
  }

  // ---------------------------------------------------------------------------------------------
  // What the encoding of the first m elements consists of

  ghost predicate IsElement(v: seq<nat>, m: nat, x: nat)
    requires m <= |v|
  {
    exists i :: 0 <= i < m && v[i] == x
  }

  ghost predicate Bits(bits: seq<bool>, of: Offsets, v: seq<nat>, m: nat)
    requires m <= |v| && of.End() <= |bits|
  {
    forall p :: of.BitsOffset() <= p < of.End() ==> (bits[p] <==> IsElement(v, m, p - of.BitsOffset()))
  }

  /** Pointer q >= 1 is element q * 2^logSampling1. */
  ghost predicate Pointer1(bits: seq<bool>, of: Offsets, v: seq<nat>, q: nat)
    requires q >= 1 && Shl(q, of.logSampling1) < |v|
  {
    var at := Slot(of.Pointers1Offset(), q - 1, of.PointerSize());
    at + of.PointerSize() <= |bits| && Field(bits, at, of.PointerSize()) == v[Shl(q, of.logSampling1)]
  }

  ghost predicate Pointers1(bits: seq<bool>, of: Offsets, v: seq<nat>, m: nat)
    requires m <= |v|
  {
    forall q :: q >= 1 && Shl(q, of.logSampling1) < m ==> Pointer1(bits, of, v, q)
  }

  /** Sample q >= 1 is the number of elements below q * 2^logRank1Sampling. */
  ghost predicate Sample(bits: seq<bool>, of: Offsets, v: seq<nat>, q: nat)
    requires q >= 1
  {
    var at := Slot(of.Rank1SamplesOffset(), q - 1, of.Rank1SampleSize());
    at + of.Rank1SampleSize() <= |bits| &&
    Field(bits, at, of.Rank1SampleSize()) == FirstGeq(v, Shl(q, of.logRank1Sampling), 0)
  }

  /** The samples of positions below the limit. */
  ghost predicate Samples(bits: seq<bool>, of: Offsets, v: seq<nat>, limit: nat) {
    forall q :: q >= 1 && Shl(q, of.logRank1Sampling) < limit ==> Sample(bits, of, v, q)
  }

  /** bits contain the encoding of v at of.base. */
  ghost predicate Encoded(bits: seq<bool>, of: Offsets, v: seq<nat>) {
    && Fits(of, v) && Increasing(v) && of.End() <= |bits|
    && Bits(bits, of, v, |v|) && Pointers1(bits, of, v, |v|) && Samples(bits, of, v, of.universe)
  }

  // ---------------------------------------------------------------------------------------------
  // Fields lie in their own regions

  lemma Pointer1Inside(of: Offsets, q: nat)
    requires q >= 1 && Shl(q, of.logSampling1) <= of.n
    ensures var at := Slot(of.Pointers1Offset(), q - 1, of.PointerSize());
      of.Pointers1Offset() <= at && at + of.PointerSize() <= of.BitsOffset()
  {
    hide Offsets.PointerSize, Offsets.Pointers1Offset;
    ShiftAdjoint(q, of.n, of.logSampling1);
    SlotMonotone(of.Pointers1Offset(), 0, q - 1, of.PointerSize());
    SlotMonotone(of.Pointers1Offset(), q - 1, of.Pointers1(), of.PointerSize());
  }

  lemma SampleInside(of: Offsets, q: nat)
    requires q >= 1 && Shl(q, of.logRank1Sampling) <= of.universe
    ensures var at := Slot(of.Rank1SamplesOffset(), q - 1, of.Rank1SampleSize());
      of.Rank1SamplesOffset() <= at && at + of.Rank1SampleSize() <= of.Pointers1Offset()
  {
    hide Offsets.Rank1SampleSize, Offsets.Rank1SamplesOffset;
    ShiftAdjoint(q, of.universe, of.logRank1Sampling);
    SlotMonotone(of.Rank1SamplesOffset(), 0, q - 1, of.Rank1SampleSize());
    SlotMonotone(of.Rank1SamplesOffset(), q - 1, of.Rank1Samples(), of.Rank1SampleSize());
  }

  lemma BitsUntouched(bits: seq<bool>, bits': seq<bool>, a: nat, b: nat, of: Offsets, v: seq<nat>, m: nat)
    requires m <= |v| && of.End() <= |bits| && Bits(bits, of, v, m)
    requires SameExcept(bits, bits', a, b) && b <= of.BitsOffset()
    ensures Bits(bits', of, v, m)
  {
    hide Offsets.BitsOffset, IsElement;
  }

  lemma Pointers1Untouched(bits: seq<bool>, bits': seq<bool>, a: nat, b: nat, of: Offsets, v: seq<nat>, m: nat)
    requires m <= |v| == of.n && Pointers1(bits, of, v, m)
    requires SameExcept(bits, bits', a, b) && (b <= of.Pointers1Offset() || of.BitsOffset() <= a)
    ensures Pointers1(bits', of, v, m)
  {
    hide Offsets.PointerSize, Offsets.Pointers1Offset, Offsets.BitsOffset, Field;
    forall q: nat | q >= 1 && Shl(q, of.logSampling1) < m
      ensures Pointer1(bits', of, v, q)
    {
      Pointer1Inside(of, q);
      assert Pointer1(bits, of, v, q);
      FieldUntouched(bits, bits', a, b, Slot(of.Pointers1Offset(), q - 1, of.PointerSize()), of.PointerSize());
    }
  }

  lemma SamplesUntouched(bits: seq<bool>, bits': seq<bool>, a: nat, b: nat, of: Offsets, v: seq<nat>, limit: nat)
    requires Samples(bits, of, v, limit) && limit <= of.universe
    requires SameExcept(bits, bits', a, b) && of.Pointers1Offset() <= a
    ensures Samples(bits', of, v, limit)
  {
    hide Offsets.Rank1SampleSize, Offsets.Rank1SamplesOffset, Offsets.Pointers1Offset, FirstGeq, Field;
    forall q: nat | q >= 1 && Shl(q, of.logRank1Sampling) < limit
      ensures Sample(bits', of, v, q)
    {
      SampleInside(of, q);
      assert Sample(bits, of, v, q);
      FieldUntouched(bits, bits', a, b, Slot(of.Rank1SamplesOffset(), q - 1, of.Rank1SampleSize()),
        of.Rank1SampleSize());
    }
  }

  // ---------------------------------------------------------------------------------------------
  // Writing

  ghost predicate Written(bits: seq<bool>, of: Offsets, v: seq<nat>, m: nat, limit: nat) {
    && m <= |v| && of.End() <= |bits|
    && Bits(bits, of, v, m) && Pointers1(bits, of, v, m) && Samples(bits, of, v, limit)
  }

  /** The samples of positions below this are determined by the first m elements. */
  function Sampled(v: seq<nat>, m: nat): nat
    requires m <= |v|
  {
    if m == 0 then 1 else v[m - 1] + 1
  }

  lemma SetBit(bits: seq<bool>, of: Offsets, v: seq<nat>, m: nat)
    requires m < |v| && Fits(of, v) && of.End() <= |bits| && Bits(bits, of, v, m)
    ensures Bits(bits[of.BitsOffset() + v[m] := true], of, v, m + 1)
    ensures SameExcept(bits, bits[of.BitsOffset() + v[m] := true], of.BitsOffset() + v[m], of.BitsOffset() + v[m] + 1)
  {
    hide Offsets.BitsOffset;
    var bits' := bits[of.BitsOffset() + v[m] := true];
    forall p | of.BitsOffset() <= p < of.End()
      ensures bits'[p] <==> IsElement(v, m + 1, p - of.BitsOffset())
    {
      var x := p - of.BitsOffset();
      assert bits[p] <==> IsElement(v, m, x);
      if x != v[m] && IsElement(v, m + 1, x) {
        var i :| 0 <= i < m + 1 && v[i] == x;
        assert i < m;
      }
    }
  }

  /** The bit of element m. */
  method WriteBit(bvb: BitVectorBuilder, of: Offsets, v: seq<nat>, m: nat, ghost limit: nat)
    requires m < |v| && Fits(of, v) && limit <= of.universe && Written(bvb.bits, of, v, m, limit)
    modifies bvb
    ensures SameExcept(old(bvb.bits), bvb.bits, of.base, of.End())
    ensures |bvb.bits| == |old(bvb.bits)| && Bits(bvb.bits, of, v, m + 1)
    ensures Pointers1(bvb.bits, of, v, m) && Samples(bvb.bits, of, v, limit)
  {
    hide Bits, Pointers1, Samples, Offsets.BitsOffset, Offsets.Pointers1Offset;
    ghost var was := bvb.bits;
    of.Layout();
    SetBit(was, of, v, m);
    var p := of.BitsOffset() + v[m];
    bvb.Set(p);
    Pointers1Untouched(was, bvb.bits, p, p + 1, of, v, m);
    SamplesUntouched(was, bvb.bits, p, p + 1, of, v, limit);
  }

  lemma OneMorePointer1(bits: seq<bool>, of: Offsets, v: seq<nat>, m: nat)
    requires m < |v| && Pointers1(bits, of, v, m)
    requires m > 0 && Low(m, of.logSampling1) == 0 ==>
      Shl(Shr(m, of.logSampling1), of.logSampling1) == m && Shr(m, of.logSampling1) >= 1 &&
      Pointer1(bits, of, v, Shr(m, of.logSampling1))
    ensures Pointers1(bits, of, v, m + 1)
  {
    hide Pointer1;
    SampledIf(m, of.logSampling1);
    forall q: nat | q >= 1 && Shl(q, of.logSampling1) < m + 1
      ensures Pointer1(bits, of, v, q)
    {
      if Shl(q, of.logSampling1) == m {
        assert q == Shr(m, of.logSampling1);
        ShlOne(of.logSampling1);
        ShlMonotone(1, q, of.logSampling1);
      }
    }
  }

  lemma OtherPointers1(bits: seq<bool>, bits': seq<bool>, of: Offsets, v: seq<nat>, m: nat, ptr: nat)
    requires m <= |v| == of.n && Pointers1(bits, of, v, m)
    requires ptr >= 1 && m <= Shl(ptr, of.logSampling1) <= of.n
    requires var at := Slot(of.Pointers1Offset(), ptr - 1, of.PointerSize());
      SameExcept(bits, bits', at, at + of.PointerSize())
    ensures Pointers1(bits', of, v, m)
  {
    hide Offsets.PointerSize, Offsets.Pointers1Offset, Field;
    forall q: nat | q >= 1 && Shl(q, of.logSampling1) < m
      ensures Pointer1(bits', of, v, q)
    {
      ShlMonotone(ptr, q, of.logSampling1);
      var at := Slot(of.Pointers1Offset(), ptr - 1, of.PointerSize());
      SlotMonotone(of.Pointers1Offset(), q - 1, ptr - 1, of.PointerSize());
      assert Pointer1(bits, of, v, q);
      FieldUntouched(bits, bits', at, at + of.PointerSize(), Slot(of.Pointers1Offset(), q - 1, of.PointerSize()),
        of.PointerSize());
    }
  }

  /** The pointer to element m, if it is sampled. */
  method WritePointer1(bvb: BitVectorBuilder, of: Offsets, v: seq<nat>, m: nat, ghost limit: nat)
    requires m < |v| && Fits(of, v) && limit <= of.universe && of.End() <= |bvb.bits|
    requires Bits(bvb.bits, of, v, m + 1) && Pointers1(bvb.bits, of, v, m) && Samples(bvb.bits, of, v, limit)
    modifies bvb
    ensures SameExcept(old(bvb.bits), bvb.bits, of.base, of.End())
    ensures Written(bvb.bits, of, v, m + 1, limit)
  {
    hide Bits, Pointers1, Samples, Offsets.BitsOffset, Offsets.Pointers1Offset, Offsets.PointerSize, Field, Low, Shl,
      Shr;
    if m > 0 && Low(m, of.logSampling1) == 0 {
      ghost var was := bvb.bits;
      var ptr1 := Shr(m, of.logSampling1);
      SampledIf(m, of.logSampling1);
      of.Layout();
      Pointer1Inside(of, ptr1);
      var at := Slot(of.Pointers1Offset(), ptr1 - 1, of.PointerSize());
      FitsPointer(of, v[m]);
      bvb.SetBits(at, v[m], of.PointerSize());
      BitsUntouched(was, bvb.bits, at, at + of.PointerSize(), of, v, m + 1);
      OtherPointers1(was, bvb.bits, of, v, m, ptr1);
      SamplesUntouched(was, bvb.bits, at, at + of.PointerSize(), of, v, limit);
    }
    OneMorePointer1(bvb.bits, of, v, m);
  }

  lemma FitsPointer(of: Offsets, x: nat)
    requires x < of.universe
    ensures x < Pow2(of.PointerSize())
  {
  }

  lemma OneMoreSample(bits: seq<bool>, bits': seq<bool>, of: Offsets, v: seq<nat>, q: nat)
    requires q >= 1 && Shl(q, of.logRank1Sampling) < of.universe && Samples(bits, of, v, Shl(q, of.logRank1Sampling))
    requires var at := Slot(of.Rank1SamplesOffset(), q - 1, of.Rank1SampleSize());
      SameExcept(bits, bits', at, at + of.Rank1SampleSize())
    requires Sample(bits', of, v, q)
    ensures Samples(bits', of, v, Shl(q + 1, of.logRank1Sampling))
  {
    hide Offsets.Rank1SampleSize, Offsets.Rank1SamplesOffset, FirstGeq, Field;
    forall s: nat | s >= 1 && Shl(s, of.logRank1Sampling) < Shl(q + 1, of.logRank1Sampling)
      ensures Sample(bits', of, v, s)
    {
      ShlMonotone(q + 1, s, of.logRank1Sampling);
      ShlMonotone(q, s, of.logRank1Sampling);
      if s < q {
        var at := Slot(of.Rank1SamplesOffset(), q - 1, of.Rank1SampleSize());
        SlotMonotone(of.Rank1SamplesOffset(), s - 1, q - 1, of.Rank1SampleSize());
        assert Sample(bits, of, v, s);
        FieldUntouched(bits, bits', at, at + of.Rank1SampleSize(),
          Slot(of.Rank1SamplesOffset(), s - 1, of.Rank1SampleSize()), of.Rank1SampleSize());
      }
    }
  }

  /** No multiple of the sampling rate lies between two limits: the same samples are demanded. */
  lemma SameSamples(bits: seq<bool>, of: Offsets, v: seq<nat>, limit: nat, more: nat, q: nat)
    requires Samples(bits, of, v, limit)
    requires q == 0 || Shl(q - 1, of.logRank1Sampling) < limit
    requires Shl(q, of.logRank1Sampling) >= more
    ensures Samples(bits, of, v, more)
  {
    hide Sample;
    forall s: nat | s >= 1 && Shl(s, of.logRank1Sampling) < more
      ensures Sample(bits, of, v, s)
    {
      ShlMonotone(q, s, of.logRank1Sampling);
      if q > 0 {
        ShlMonotone(s, q - 1, of.logRank1Sampling);
      }
    }
  }

  lemma FirstSample(bits: seq<bool>, of: Offsets, v: seq<nat>)
    ensures Samples(bits, of, v, Shl(1, of.logRank1Sampling))
  {
    hide Sample;
    forall s: nat | s >= 1
      ensures Shl(s, of.logRank1Sampling) >= Shl(1, of.logRank1Sampling)
    {
      ShlMonotone(1, s, of.logRank1Sampling);
    }
  }

  /** One sample, for a position after element m - 1 and up to element m. */
  method WriteSample(bvb: BitVectorBuilder, of: Offsets, v: seq<nat>, m: nat, ghost w: nat, q: nat)
    requires m <= |v| && Fits(of, v) && IncreasingUpTo(v, m) && q >= 1
    requires w <= |v| && Shl(q, of.logRank1Sampling) < of.universe
    requires Written(bvb.bits, of, v, w, Shl(q, of.logRank1Sampling))
    requires Sampled(v, m) <= Shl(q, of.logRank1Sampling) && (m == |v| || Shl(q, of.logRank1Sampling) <= v[m])
    modifies bvb
    ensures SameExcept(old(bvb.bits), bvb.bits, of.base, of.End())
    ensures Written(bvb.bits, of, v, w, Shl(q + 1, of.logRank1Sampling))
  {
    hide Bits, Pointers1, Samples, Offsets.BitsOffset, Offsets.Pointers1Offset, Offsets.Rank1SamplesOffset,
      Offsets.Rank1SampleSize,
      Field, Shl, Slot;
    ghost var was := bvb.bits;
    of.Layout();
    SampleInside(of, q);
    var at := Slot(of.Rank1SamplesOffset(), q - 1, of.Rank1SampleSize());
    FitsSample(of, m);
    bvb.SetBits(at, m, of.Rank1SampleSize());
    FirstGeqIs(v, Shl(q, of.logRank1Sampling), m);
    BitsUntouched(was, bvb.bits, at, at + of.Rank1SampleSize(), of, v, w);
    Pointers1Untouched(was, bvb.bits, at, at + of.Rank1SampleSize(), of, v, w);
    OneMoreSample(was, bvb.bits, of, v, q);
  }

  lemma FitsSample(of: Offsets, m: nat)
    requires m <= of.n
    ensures m < Pow2(of.Rank1SampleSize())
  {
  }

  /** set_rank1_samples: the samples of positions in [begin, end), which m elements precede; w elements are written. */
  method WriteSamples(bvb: BitVectorBuilder, of: Offsets, v: seq<nat>, begin: nat, end: nat, m: nat, ghost w: nat)
    requires m <= |v| && Fits(of, v) && IncreasingUpTo(v, m)
    requires begin == Sampled(v, m) && end == (if m == |v| then of.universe else v[m] + 1)
    requires w <= |v| && Written(bvb.bits, of, v, w, begin)
    modifies bvb
    ensures SameExcept(old(bvb.bits), bvb.bits, of.base, of.End())
    ensures Written(bvb.bits, of, v, w, end)
  {
    hide Bits, Pointers1, Samples, Offsets.BitsOffset, Shl, Shr, CeilShr;
    var sample := CeilShr(begin, of.logRank1Sampling);
    CeilShrIsLeast(begin, of.logRank1Sampling);
    SameSamples(bvb.bits, of, v, begin, Shl(sample, of.logRank1Sampling), sample);
    while Shl(sample, of.logRank1Sampling) < end
      invariant Shl(sample, of.logRank1Sampling) >= begin
      invariant Written(bvb.bits, of, v, w, Shl(sample, of.logRank1Sampling))
      invariant SameExcept(old(bvb.bits), bvb.bits, of.base, of.End())
      decreases end - sample
    {
      ShlAtLeast(sample, of.logRank1Sampling);
      ShlMonotone(sample, sample + 1, of.logRank1Sampling);
      if sample > 0 {
        WriteSample(bvb, of, v, m, w, sample);
      } else {
        FirstSample(bvb.bits, of, v);
      }
      sample := sample + 1;
    }
    FewerSamples(bvb.bits, of, v, Shl(sample, of.logRank1Sampling), end);
  }

  lemma FewerSamples(bits: seq<bool>, of: Offsets, v: seq<nat>, limit: nat, fewer: nat)
    requires fewer <= limit && Samples(bits, of, v, limit)
    ensures Samples(bits, of, v, fewer)
  {
  }

  /** Element m: its bit, its pointer if it is sampled, the samples up to it. */
  method WriteElement(bvb: BitVectorBuilder, of: Offsets, v: seq<nat>, m: nat, last: nat)
    requires m < |v| && Fits(of, v) && IncreasingUpTo(v, m + 1) && Written(bvb.bits, of, v, m, Sampled(v, m))
    requires last + 1 == Sampled(v, m)
    modifies bvb
    ensures SameExcept(old(bvb.bits), bvb.bits, of.base, of.End())
    ensures Written(bvb.bits, of, v, m + 1, Sampled(v, m + 1))
  {
    hide Bits, Pointers1, Samples, Offsets.BitsOffset;
    assert v[m] < of.universe;
    WriteBit(bvb, of, v, m, last + 1);
    WritePointer1(bvb, of, v, m, last + 1);
    WriteSamples(bvb, of, v, last + 1, v[m] + 1, m, m + 1);
  }

  lemma NothingWritten(bits: seq<bool>, of: Offsets, v: seq<nat>)
    requires of.End() <= |bits| && forall p :: of.base <= p < |bits| ==> !bits[p]
    ensures Written(bits, of, v, 0, 1)
  {
    of.Layout();
    forall q: nat | q >= 1
      ensures Shl(q, of.logRank1Sampling) >= 1
    {
      ShlAtLeast(q, of.logRank1Sampling);
    }
  }

  /** How write ends: the code throws at the first element that is not larger than its predecessor. */
  datatype Outcome = Done | Duplicate | NotSorted

  method Write(bvb: BitVectorBuilder, v: seq<nat>, universe: nat, logRank1Sampling: nat, logSampling1: nat)
    returns (outcome: Outcome)
    requires forall i :: 0 <= i < |v| ==> v[i] < universe
    modifies bvb
    ensures outcome.Done? <==> Increasing(v)
    ensures outcome.Duplicate? <==> exists i :: 0 < i < |v| && IncreasingUpTo(v, i) && v[i] == v[i - 1]
    ensures outcome.NotSorted? <==> exists i :: 0 < i < |v| && IncreasingUpTo(v, i) && v[i] < v[i - 1]
    ensures var of := Offsets(|old(bvb.bits)|, universe, |v|, logRank1Sampling, logSampling1);
      && |bvb.bits| == of.End() && old(bvb.bits) <= bvb.bits
      && (outcome.Done? ==> Encoded(bvb.bits, of, v))
  {
    hide Written, Encoded, Offsets.End;
    ghost var prefix := bvb.bits;
    var of := Offsets(|bvb.bits|, universe, |v|, logRank1Sampling, logSampling1);
    of.Layout();
    Extended(prefix, of.base, of.End() - of.base);
    bvb.ZeroExtend(of.End() - of.base);
    NothingWritten(bvb.bits, of, v);
    var last := 0;
    for i := 0 to |v|
      invariant IncreasingUpTo(v, i) && last == (if i == 0 then 0 else v[i - 1])
      invariant |bvb.bits| == of.End() && bvb.bits[..of.base] == prefix
      invariant Written(bvb.bits, of, v, i, Sampled(v, i))
    {
      if i > 0 && v[i] == last {
        return Duplicate;
      }
      if i > 0 && v[i] < last {
        return NotSorted;
      }
      ghost var was := bvb.bits;
      WriteElement(bvb, of, v, i, last);
      KeepsPrefix(was, bvb.bits, of.base, of.End(), prefix);
      last := v[i];
    }
    ghost var was := bvb.bits;
    WriteSamples(bvb, of, v, last + 1, of.universe, |v|, |v|);
    KeepsPrefix(was, bvb.bits, of.base, of.End(), prefix);
    WrittenIsEncoded(bvb.bits, of, v);
    outcome := Done;
  }

  lemma WrittenIsEncoded(bits: seq<bool>, of: Offsets, v: seq<nat>)
    requires Fits(of, v) && Increasing(v) && Written(bits, of, v, |v|, of.universe)
    ensures Encoded(bits, of, v)
  {
  }

  // ---------------------------------------------------------------------------------------------
  // An encoding can be copied to another place

  function MovedTo(of: Offsets, base: nat): (r: Offsets)
    ensures r.universe == of.universe && r.n == of.n && r.Rank1SampleSize() == of.Rank1SampleSize()
    ensures r.PointerSize() == of.PointerSize()
  {
    of.(base := base)
  }

  lemma MovedOffsets(of: Offsets, base: nat)
    ensures var of' := MovedTo(of, base);
      && of'.Pointers1Offset() - base == of.Pointers1Offset() - of.base
      && of'.BitsOffset() - base == of.BitsOffset() - of.base
      && of'.Bitsize() == of.Bitsize()
  {
    var of' := MovedTo(of, base);
    SlotShift(of.base, base, of.Rank1Samples(), of.Rank1SampleSize());
    SlotShift(of.Pointers1Offset(), of'.Pointers1Offset(), of.Pointers1(), of.PointerSize());
  }

  lemma MovedBits(bits: seq<bool>, of: Offsets, v: seq<nat>, bits': seq<bool>, base: nat)
    requires Encoded(bits, of, v) && Moved(bits, of.base, bits', base, of.Bitsize())
    ensures MovedTo(of, base).End() <= |bits'| && Bits(bits', MovedTo(of, base), v, |v|)
  {
    hide Pointers1, Samples, Offsets.BitsOffset, MovedTo, Increasing, IsElement;
    var of' := MovedTo(of, base);
    MovedOffsets(of, base);
    of.Layout();
    of'.Layout();
    forall p | of'.BitsOffset() <= p < of'.End()
      ensures bits'[p] <==> IsElement(v, |v|, p - of'.BitsOffset())
    {
      var q := p - base + of.base;
      MovedBit(bits, of.base, bits', base, of.Bitsize(), p - base);
      assert bits[q] <==> IsElement(v, |v|, q - of.BitsOffset());
    }
  }

  lemma MovedPointers1(bits: seq<bool>, of: Offsets, v: seq<nat>, bits': seq<bool>, base: nat)
    requires Encoded(bits, of, v) && Moved(bits, of.base, bits', base, of.Bitsize())
    ensures Pointers1(bits', MovedTo(of, base), v, |v|)
  {
    hide Bits, Samples, Offsets.BitsOffset, Offsets.Pointers1Offset, Offsets.End, Field, Increasing, Moved,
      Offsets.PointerSize;
    var of' := MovedTo(of, base);
    MovedOffsets(of, base);
    of.Layout();
    forall q: nat | q >= 1 && Shl(q, of.logSampling1) < |v|
      ensures Pointer1(bits', of', v, q)
    {
      var at := Slot(of.Pointers1Offset(), q - 1, of.PointerSize());
      assert Pointer1(bits, of, v, q);
      Pointer1Inside(of, q);
      SlotShift(of.Pointers1Offset(), of'.Pointers1Offset(), q - 1, of.PointerSize());
      MovedInside(bits, of.base, bits', base, of.Bitsize());
      MovedField(bits, of.base, bits', base, of.Bitsize(), at - of.base, of.PointerSize());
    }
  }

  lemma MovedSamples(bits: seq<bool>, of: Offsets, v: seq<nat>, bits': seq<bool>, base: nat)
    requires Encoded(bits, of, v) && Moved(bits, of.base, bits', base, of.Bitsize())
    ensures Samples(bits', MovedTo(of, base), v, of.universe)
  {
    hide Bits, Pointers1, Offsets.BitsOffset, Offsets.Pointers1Offset, Offsets.End, Field, Increasing, Moved,
      Offsets.Rank1SampleSize;
    var of' := MovedTo(of, base);
    MovedOffsets(of, base);
    of.Layout();
    forall q: nat | q >= 1 && Shl(q, of.logRank1Sampling) < of.universe
      ensures Sample(bits', of', v, q)
    {
      var at := Slot(of.Rank1SamplesOffset(), q - 1, of.Rank1SampleSize());
      assert Sample(bits, of, v, q);
      SampleInside(of, q);
      SlotShift(of.Rank1SamplesOffset(), of'.Rank1SamplesOffset(), q - 1, of.Rank1SampleSize());
      MovedInside(bits, of.base, bits', base, of.Bitsize());
      MovedField(bits, of.base, bits', base, of.Bitsize(), at - of.base, of.Rank1SampleSize());
    }
  }

  /** A copy of an encoding is an encoding. */
  lemma MovedEncoding(bits: seq<bool>, of: Offsets, v: seq<nat>, bits': seq<bool>, base: nat)
    requires Encoded(bits, of, v) && Moved(bits, of.base, bits', base, of.Bitsize())
    ensures Encoded(bits', MovedTo(of, base), v)
  {
    hide Bits, Pointers1, Samples, Offsets.BitsOffset, Offsets.End;
    MovedBits(bits, of, v, bits', base);
    MovedPointers1(bits, of, v, bits', base);
    MovedSamples(bits, of, v, bits', base);
  }
}
