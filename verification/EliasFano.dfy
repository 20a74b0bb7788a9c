/**
 * Elias-Fano sequences with sampled pointers (compact_elias_fano.hpp).
 */
module EliasFano {
  import opened BitVector
  import opened MonotoneSequence

  /** Where the parts of an encoded sequence are; base is the position of its first bit. */
  datatype Offsets = Offsets(base: nat, universe: nat, n: nat, logSampling0: nat, logSampling1: nat) {
    function LowerBits(): nat {
      if universe > n > 0 then
        assert universe / n > 0;
        Msb(universe / n)
      else 0
    }

    /** The number of zeros in the high part. */
    function Zeros(): nat {
      Shr(universe, LowerBits()) + 2
    }

    function HigherBitsLength(): nat {
      n + Zeros()
    }

    function PointerSize(): nat {
      CeilLog2(HigherBitsLength())
    }

    function Pointers0(): nat {
      Shr(Zeros(), logSampling0)
    }

    function Pointers1(): nat {
      Shr(n, logSampling1)
    }

    function Pointers0Offset(): nat {
      base
    }

    function Pointers1Offset(): nat {
      Slot(Pointers0Offset(), Pointers0(), PointerSize())
    }

    function HigherBitsOffset(): nat {
      Slot(Pointers1Offset(), Pointers1(), PointerSize())
    }

    function LowerBitsOffset(): nat {
      HigherBitsOffset() + HigherBitsLength()
    }

    function End(): nat {
      Slot(LowerBitsOffset(), n, LowerBits())
    }

    /** The number of bits of the encoding. */
    function Bitsize(): (r: nat)
      ensures base + r == End()
    {
      Layout();
      End() - base
    }

    lemma Layout()
      ensures base == Pointers0Offset() <= Pointers1Offset() <= HigherBitsOffset() <= LowerBitsOffset() <= End()
      ensures LowerBitsOffset() == HigherBitsOffset() + HigherBitsLength()
    {
      SlotMonotone(Pointers0Offset(), 0, Pointers0(), PointerSize());
      SlotMonotone(Pointers1Offset(), 0, Pointers1(), PointerSize());
      SlotMonotone(LowerBitsOffset(), 0, n, LowerBits());
    }
  }

  /** Low parts are as wide as they can be while n of the ranges that they tell apart fit the universe. */
  lemma LowPartIsWidest(of: Offsets, l: nat)
    requires of.universe > of.n > 0
    ensures l <= of.LowerBits() <==> Shl(of.n, l) <= of.universe
  {
    var q := of.universe / of.n;
    var m := of.LowerBits();
    Scaled(of.universe, of.n, q, m);
    ShlDoubles(of.n, m);
    if l <= m {
      ScaledBelow(of.universe, of.n, q, m);
      ShlGrows(of.n, l, m);
    } else {
      ShlGrows(of.n, m + 1, l);
    }
  }

  lemma ShlDoubles(x: nat, l: nat)
    ensures Shl(x, l + 1) == Shl(2 * x, l)
  {
    ShlSum(x, x, l);
  }

  lemma {:induction false} ShlGrows(x: nat, l: nat, m: nat)
    requires l <= m
    ensures Shl(x, l) <= Shl(x, m)
    decreases m
  {
    if l < m {
      ShlGrows(x, l, m - 1);
    }
  }

  lemma ScaledBelow(x: nat, n: nat, q: nat, l: nat)
    requires n > 0 && q == x / n && Pow2(l) <= q
    ensures Shl(n, l) <= x
  {
    hide Pow2;
    ShlTimes(n, l);
    ProductMonotone(Pow2(l), q, n);
    assert x == q * n + x % n;
  }

  /** At most three bits per element and one more go to the high part; at least two once low bits are kept. */
  lemma HighPartIsSmall(of: Offsets)
    requires of.n > 0
    ensures of.HigherBitsLength() <= 3 * of.n + 1
    ensures of.universe > of.n ==> of.HigherBitsLength() >= 2 * of.n + 2
  {
    var l := of.LowerBits();
    if of.universe > of.n {
      var q := of.universe / of.n;
      Scaled(of.universe, of.n, q, l);
      ShiftAdjoint(2 * of.n, of.universe, l);
      LowPartIsWidest(of, l);
      ShiftAdjoint(of.n, of.universe, l);
    }
  }

  /**
   * The space of the encoding: the high part takes 3n + 1 bits at most, each low part as many as it can
   * while n of its ranges fit the universe, and each pointer no more than any position needs.
   */
  lemma SpaceBound(of: Offsets)
    requires of.n > 0
    ensures of.Bitsize() <=
      Slot(0, of.Pointers0() + of.Pointers1(), of.PointerSize()) + 3 * of.n + 1 + Slot(0, of.n, of.LowerBits())
    ensures if of.universe > of.n then Shl(of.n, of.LowerBits()) <= of.universe < Shl(of.n, of.LowerBits() + 1)
      else of.LowerBits() == 0
    ensures Shl(of.Pointers0(), of.logSampling0) <= of.Zeros() < Shl(of.Pointers0() + 1, of.logSampling0)
    ensures Shl(of.Pointers1(), of.logSampling1) <= of.n < Shl(of.Pointers1() + 1, of.logSampling1)
    ensures forall r :: of.HigherBitsLength() <= Pow2(r) <==> of.PointerSize() <= r
  {
    hide CeilLog2, Pow2, Shl, Shr, Slot, Msb, Offsets.Zeros;
    HighPartIsSmall(of);
    of.Layout();
    SlotsAdd(of.base, of.Pointers0(), of.Pointers1(), of.PointerSize());
    SlotShift(0, of.base, of.Pointers0() + of.Pointers1(), of.PointerSize());
    SlotShift(0, of.LowerBitsOffset(), of.n, of.LowerBits());
    if of.universe > of.n {
      LowPartIsWidest(of, of.LowerBits());
      LowPartIsWidest(of, of.LowerBits() + 1);
    }
    ShrIsQuotient(of.Zeros(), of.logSampling0);
    ShrIsQuotient(of.n, of.logSampling1);
    forall r: nat
      ensures of.HigherBitsLength() <= Pow2(r) <==> of.PointerSize() <= r
    {
      CeilLog2IsLeast(of.HigherBitsLength(), r);
    }
  }

  lemma {:induction false} SlotsAdd(offset: nat, k: nat, m: nat, width: nat)
    ensures Slot(Slot(offset, k, width), m, width) == Slot(offset, k + m, width)
  {
    if m > 0 {
      SlotsAdd(offset, k, m - 1, width);
    }
  }

  lemma Scaled(x: nat, n: nat, q: nat, l: nat)
    requires n > 0 && q == x / n && q < Pow2(l + 1)
    ensures x < Shl(2 * n, l)
  {
    hide Pow2;
    QuotientAbove(x, n, q);
    ProductMonotone(q + 1, Pow2(l + 1), n);
    ShlTimes(n, l + 1);
    ShlSum(n, n, l);
  }

  lemma QuotientAbove(x: nat, n: nat, q: nat)
    requires n > 0 && q == x / n
    ensures x < (q + 1) * n
  {
    assert x == q * n + x % n;
  }

  lemma ProductMonotone(a: nat, b: nat, n: nat)
    requires a <= b
    ensures a * n <= b * n
  {
    assert (b - a) * n >= 0;
  }

  lemma {:induction false} ShlTimes(x: nat, l: nat)
    ensures Shl(x, l) == Pow2(l) * x
  {
    if l > 0 {
      ShlTimes(x, l - 1);
      assert 2 * (Pow2(l - 1) * x) == (2 * Pow2(l - 1)) * x;
    }
  }

  /** What write demands of its input, apart from sortedness, which it checks. */
  ghost predicate Fits(of: Offsets, v: seq<nat>) {
    of.n == |v| > 0 && forall i :: 0 <= i < |v| ==> v[i] < of.universe
  }

  /** The position of the set bit that stands for element i. */
  function OneAt(of: Offsets, v: seq<nat>, i: nat): nat
    requires i < |v|
  {
    of.HigherBitsOffset() + Shr(v[i], of.LowerBits()) + i + 1
  }

  lemma OnesIncrease(of: Offsets, v: seq<nat>, i: nat, j: nat)
    requires i <= j < |v| && Sorted(v)
    ensures OneAt(of, v, i) + (j - i) <= OneAt(of, v, j)
  {
    ShrMonotone(v[i], v[j], of.LowerBits());
  }

  lemma OnesInside(of: Offsets, v: seq<nat>, i: nat)
    requires i < |v| && Fits(of, v)
    ensures of.HigherBitsOffset() < OneAt(of, v, i) < of.LowerBitsOffset()
  {
    ShrMonotone(v[i], of.universe, of.LowerBits());
  }

  /** The first element whose high part is at least k. */
  function FirstWithHigh(of: Offsets, v: seq<nat>, k: nat, i: nat): (r: nat)
    requires i <= |v|
    ensures i <= r <= |v| && (r < |v| ==> Shr(v[r], of.LowerBits()) >= k)
    ensures forall j :: i <= j < r ==> Shr(v[j], of.LowerBits()) < k
    decreases |v| - i
  {
    if i == |v| || Shr(v[i], of.LowerBits()) >= k then i else FirstWithHigh(of, v, k, i + 1)
  }

  /** The position of the zero with rank k in the high part. */
  function ZeroAt(of: Offsets, v: seq<nat>, k: nat): nat {
    of.HigherBitsOffset() + k + FirstWithHigh(of, v, k, 0)
  }

  // ---------------------------------------------------------------------------------------------
  // What the encoding of the first m elements consists of

  ghost predicate IsOne(of: Offsets, v: seq<nat>, m: nat, p: nat)
    requires m <= |v|
  {
    exists i :: 0 <= i < m && OneAt(of, v, i) == p
  }

  ghost predicate HighBits(bits: seq<bool>, of: Offsets, v: seq<nat>, m: nat)
    requires m <= |v| && of.LowerBitsOffset() <= |bits|
  {
    forall p :: of.HigherBitsOffset() <= p < of.LowerBitsOffset() ==> (bits[p] <==> IsOne(of, v, m, p))
  }

  ghost predicate LowField(bits: seq<bool>, of: Offsets, v: seq<nat>, i: nat)
    requires i < |v|
  {
    var at := Slot(of.LowerBitsOffset(), i, of.LowerBits());
    at + of.LowerBits() <= |bits| && Field(bits, at, of.LowerBits()) == Low(v[i], of.LowerBits())
  }

  ghost predicate LowFields(bits: seq<bool>, of: Offsets, v: seq<nat>, m: nat)
    requires m <= |v|
  {
    forall i :: 0 <= i < m ==> LowField(bits, of, v, i)
  }

  /** Pointer q >= 1 is the relative position of the set bit of element q * 2^logSampling1. */
  ghost predicate Pointer1(bits: seq<bool>, of: Offsets, v: seq<nat>, q: nat)
    requires q >= 1 && Shl(q, of.logSampling1) < |v|
  {
    var at := Slot(of.Pointers1Offset(), q - 1, of.PointerSize());
    at + of.PointerSize() <= |bits| &&
    of.HigherBitsOffset() + Field(bits, at, of.PointerSize()) == OneAt(of, v, Shl(q, of.logSampling1))
  }

  ghost predicate Pointers1(bits: seq<bool>, of: Offsets, v: seq<nat>, m: nat)
    requires m <= |v|
  {
    forall q :: q >= 1 && Shl(q, of.logSampling1) < m ==> Pointer1(bits, of, v, q)
  }

  /** Pointer q >= 1 is the relative position of the zero with rank q * 2^logSampling0. */
  ghost predicate Pointer0(bits: seq<bool>, of: Offsets, v: seq<nat>, q: nat)
    requires q >= 1
  {
    var at := Slot(of.Pointers0Offset(), q - 1, of.PointerSize());
    at + of.PointerSize() <= |bits| &&
    of.HigherBitsOffset() + Field(bits, at, of.PointerSize()) == ZeroAt(of, v, Shl(q, of.logSampling0))
  }

  ghost predicate Pointers0(bits: seq<bool>, of: Offsets, v: seq<nat>, zeros: nat) {
    forall q :: q >= 1 && Shl(q, of.logSampling0) < zeros ==> Pointer0(bits, of, v, q)
  }

  /** bits contain the encoding of v at of.base. */
  ghost predicate Encoded(bits: seq<bool>, of: Offsets, v: seq<nat>) {
    && Fits(of, v) && Sorted(v) && of.End() <= |bits| && of.LowerBitsOffset() <= of.End()
    && HighBits(bits, of, v, |v|) && LowFields(bits, of, v, |v|)
    && Pointers1(bits, of, v, |v|) && Pointers0(bits, of, v, of.Zeros())
  }

  // ---------------------------------------------------------------------------------------------
  // Fields lie in their own regions

  lemma LowInside(of: Offsets, i: nat)
    requires i < of.n
    ensures var at := Slot(of.LowerBitsOffset(), i, of.LowerBits());
      of.LowerBitsOffset() <= at && at + of.LowerBits() <= of.End()
  {
    hide Offsets.LowerBits, Offsets.LowerBitsOffset;
    SlotMonotone(of.LowerBitsOffset(), 0, i, of.LowerBits());
    SlotMonotone(of.LowerBitsOffset(), i, of.n, of.LowerBits());
  }

  lemma Pointer1Inside(of: Offsets, q: nat)
    requires q >= 1 && Shl(q, of.logSampling1) <= of.n
    ensures var at := Slot(of.Pointers1Offset(), q - 1, of.PointerSize());
      of.Pointers1Offset() <= at && at + of.PointerSize() <= of.HigherBitsOffset()
  {
    hide Offsets.PointerSize, Offsets.Pointers1Offset;
    ShiftAdjoint(q, of.n, of.logSampling1);
    SlotMonotone(of.Pointers1Offset(), 0, q - 1, of.PointerSize());
    SlotMonotone(of.Pointers1Offset(), q - 1, of.Pointers1(), of.PointerSize());
  }

  lemma Pointer0Inside(of: Offsets, q: nat)
    requires q >= 1 && Shl(q, of.logSampling0) <= of.Zeros()
    ensures var at := Slot(of.Pointers0Offset(), q - 1, of.PointerSize());
      of.Pointers0Offset() <= at && at + of.PointerSize() <= of.Pointers1Offset()
  {
    hide Offsets.PointerSize, Offsets.Pointers0Offset, Offsets.Zeros;
    ShiftAdjoint(q, of.Zeros(), of.logSampling0);
    SlotMonotone(of.Pointers0Offset(), 0, q - 1, of.PointerSize());
    SlotMonotone(of.Pointers0Offset(), q - 1, of.Pointers0(), of.PointerSize());
  }

  lemma HighBitsUntouched(bits: seq<bool>, bits': seq<bool>, a: nat, b: nat, of: Offsets, v: seq<nat>, m: nat)
    requires m <= |v| && of.LowerBitsOffset() <= |bits| && HighBits(bits, of, v, m)
    requires SameExcept(bits, bits', a, b) && (b <= of.HigherBitsOffset() || of.LowerBitsOffset() <= a)
    ensures HighBits(bits', of, v, m)
  {
    hide Offsets.HigherBitsOffset, Offsets.LowerBitsOffset, IsOne;
  }

  lemma LowFieldsUntouched(bits: seq<bool>, bits': seq<bool>, a: nat, b: nat, of: Offsets, v: seq<nat>, m: nat)
    requires m <= |v| && LowFields(bits, of, v, m) && of.n == |v|
    requires SameExcept(bits, bits', a, b)
    requires (b <= of.LowerBitsOffset() || Slot(of.LowerBitsOffset(), m, of.LowerBits()) <= a)
    ensures LowFields(bits', of, v, m)
  {
    hide Offsets.LowerBits, Offsets.LowerBitsOffset, Low, Field;
    forall i | 0 <= i < m
      ensures LowField(bits', of, v, i)
    {
      LowInside(of, i);
      SlotMonotone(of.LowerBitsOffset(), i, m, of.LowerBits());
      assert LowField(bits, of, v, i);
      FieldUntouched(bits, bits', a, b, Slot(of.LowerBitsOffset(), i, of.LowerBits()), of.LowerBits());
    }
  }

  lemma Pointers1Untouched(bits: seq<bool>, bits': seq<bool>, a: nat, b: nat, of: Offsets, v: seq<nat>, m: nat)
    requires m <= |v| && Pointers1(bits, of, v, m) && of.n == |v|
    requires SameExcept(bits, bits', a, b) && (b <= of.Pointers1Offset() || of.HigherBitsOffset() <= a)
    ensures Pointers1(bits', of, v, m)
  {
    hide Offsets.PointerSize, Offsets.Pointers1Offset, Offsets.HigherBitsOffset, OneAt, Field;
    forall q: nat | q >= 1 && Shl(q, of.logSampling1) < m
      ensures Pointer1(bits', of, v, q)
    {
      Pointer1Inside(of, q);
      assert Pointer1(bits, of, v, q);
      FieldUntouched(bits, bits', a, b, Slot(of.Pointers1Offset(), q - 1, of.PointerSize()), of.PointerSize());
    }
  }

  lemma Pointers0Untouched(bits: seq<bool>, bits': seq<bool>, a: nat, b: nat, of: Offsets, v: seq<nat>, zeros: nat)
    requires Pointers0(bits, of, v, zeros) && zeros <= of.Zeros()
    requires SameExcept(bits, bits', a, b) && of.Pointers1Offset() <= a
    ensures Pointers0(bits', of, v, zeros)
  {
    hide Offsets.PointerSize, Offsets.Pointers0Offset, Offsets.Pointers1Offset, Offsets.Zeros, ZeroAt, Field;
    forall q: nat | q >= 1 && Shl(q, of.logSampling0) < zeros
      ensures Pointer0(bits', of, v, q)
    {
      Pointer0Inside(of, q);
      assert Pointer0(bits, of, v, q);
      FieldUntouched(bits, bits', a, b, Slot(of.Pointers0Offset(), q - 1, of.PointerSize()), of.PointerSize());
    }
  }

  // ---------------------------------------------------------------------------------------------
  // Writing

  /** The first m elements are written, and the pointers to the zeros before the m-th set bit. */
  ghost predicate Written(bits: seq<bool>, of: Offsets, v: seq<nat>, m: nat, zeros: nat) {
    && m <= |v| && of.End() <= |bits| && of.LowerBitsOffset() <= of.End()
    && HighBits(bits, of, v, m) && LowFields(bits, of, v, m)
    && Pointers1(bits, of, v, m) && Pointers0(bits, of, v, zeros)
  }

  /** The number of zeros that precede the set bit of element m - 1. */
  function ZerosBefore(of: Offsets, v: seq<nat>, m: nat): nat
    requires m <= |v|
  {
    if m == 0 then 1 else Shr(v[m - 1], of.LowerBits()) + 1
  }

  lemma ZerosFew(of: Offsets, v: seq<nat>, m: nat)
    requires m <= |v| && Fits(of, v)
    ensures ZerosBefore(of, v, m) < of.Zeros()
  {
    if m > 0 {
      ShrMonotone(v[m - 1], of.universe, of.LowerBits());
    }
  }

  /** All values in the high part fit a pointer. */
  lemma FitsPointer(of: Offsets, x: nat)
    requires x < of.HigherBitsLength()
    ensures x < Pow2(of.PointerSize())
  {
  }

  lemma WriteHigh(bits: seq<bool>, of: Offsets, v: seq<nat>, m: nat)
    requires m < |v| && of.LowerBitsOffset() <= |bits| && Fits(of, v) && HighBits(bits, of, v, m)
    ensures of.HigherBitsOffset() <= OneAt(of, v, m) < of.LowerBitsOffset()
    ensures HighBits(bits[OneAt(of, v, m) := true], of, v, m + 1)
  {
    hide Offsets.HigherBitsOffset, Offsets.LowerBitsOffset, OneAt;
    OnesInside(of, v, m);
    var bits' := bits[OneAt(of, v, m) := true];
    forall p | of.HigherBitsOffset() <= p < of.LowerBitsOffset()
      ensures bits'[p] <==> IsOne(of, v, m + 1, p)
    {
      assert bits[p] <==> IsOne(of, v, m, p);
      if p != OneAt(of, v, m) && IsOne(of, v, m + 1, p) {
        var i :| 0 <= i < m + 1 && OneAt(of, v, i) == p;
        assert i < m;
      }
    }
  }

  lemma SetIsSameExcept(bits: seq<bool>, p: nat)
    requires p < |bits|
    ensures SameExcept(bits, bits[p := true], p, p + 1)
  {
  }

  /** The set bit of element m. */
  method WriteOne(bvb: BitVectorBuilder, of: Offsets, v: seq<nat>, m: nat, ghost zeros: nat)
    requires m < |v| && Fits(of, v) && zeros <= of.Zeros() && Written(bvb.bits, of, v, m, zeros)
    modifies bvb
    ensures SameExcept(old(bvb.bits), bvb.bits, of.base, of.End())
    ensures |bvb.bits| == |old(bvb.bits)| && of.End() <= |bvb.bits| && HighBits(bvb.bits, of, v, m + 1)
    ensures LowFields(bvb.bits, of, v, m) && Pointers1(bvb.bits, of, v, m) && Pointers0(bvb.bits, of, v, zeros)
  {
    hide HighBits, LowFields, Pointers1, Pointers0, Offsets.HigherBitsOffset, Offsets.LowerBitsOffset,
      Offsets.Pointers1Offset, Offsets.End, OneAt, Offsets.Zeros;
    ghost var was := bvb.bits;
    of.Layout();
    WriteHigh(was, of, v, m);
    var p := OneAt(of, v, m);
    bvb.Set(p);
    SetIsSameExcept(was, p);
    LowFieldsUntouched(was, bvb.bits, p, p + 1, of, v, m);
    Pointers1Untouched(was, bvb.bits, p, p + 1, of, v, m);
    Pointers0Untouched(was, bvb.bits, p, p + 1, of, v, zeros);
  }

  /** The low bits of element m. */
  method WriteLow(bvb: BitVectorBuilder, of: Offsets, v: seq<nat>, m: nat, ghost zeros: nat)
    requires m < |v| && Fits(of, v) && zeros <= of.Zeros() && of.End() <= |bvb.bits| && of.LowerBitsOffset() <= of.End()
    requires HighBits(bvb.bits, of, v, m + 1)
    requires LowFields(bvb.bits, of, v, m) && Pointers1(bvb.bits, of, v, m) && Pointers0(bvb.bits, of, v, zeros)
    modifies bvb
    ensures SameExcept(old(bvb.bits), bvb.bits, of.base, of.End())
    ensures HighBits(bvb.bits, of, v, m + 1)
    ensures LowFields(bvb.bits, of, v, m + 1) && Pointers1(bvb.bits, of, v, m) && Pointers0(bvb.bits, of, v, zeros)
  {
    hide HighBits, LowFields, Pointers1, Pointers0, Offsets.HigherBitsOffset, Offsets.LowerBitsOffset,
      Offsets.Pointers1Offset, Offsets.End, Offsets.Zeros, Offsets.LowerBits, Field, Low;
    ghost var was := bvb.bits;
    of.Layout();
    LowInside(of, m);
    SplitBits(v[m], of.LowerBits());
    var at := Slot(of.LowerBitsOffset(), m, of.LowerBits());
    bvb.SetBits(at, Low(v[m], of.LowerBits()), of.LowerBits());
    HighBitsUntouched(was, bvb.bits, at, at + of.LowerBits(), of, v, m + 1);
    LowFieldsUntouched(was, bvb.bits, at, at + of.LowerBits(), of, v, m);
    OneMoreLow(bvb.bits, of, v, m);
    Pointers1Untouched(was, bvb.bits, at, at + of.LowerBits(), of, v, m);
    Pointers0Untouched(was, bvb.bits, at, at + of.LowerBits(), of, v, zeros);
  }

  lemma OneMoreLow(bits: seq<bool>, of: Offsets, v: seq<nat>, m: nat)
    requires m < |v| && LowFields(bits, of, v, m) && LowField(bits, of, v, m)
    ensures LowFields(bits, of, v, m + 1)
  {
    hide LowField;
  }

  lemma OneMorePointer1(bits: seq<bool>, of: Offsets, v: seq<nat>, m: nat)
    requires m < |v| && Pointers1(bits, of, v, m)
    requires m > 0 && Low(m, of.logSampling1) == 0 ==>
      Shl(Shr(m, of.logSampling1), of.logSampling1) == m && Shr(m, of.logSampling1) >= 1 &&
      Pointer1(bits, of, v, Shr(m, of.logSampling1))
    ensures Pointers1(bits, of, v, m + 1)
  {
    hide Pointer1;
    SampledIf(m, of.logSampling1);
    forall q: nat | q >= 1 && Shl(q, of.logSampling1) < m + 1
      ensures Pointer1(bits, of, v, q)
    {
      if Shl(q, of.logSampling1) == m {
        assert q == Shr(m, of.logSampling1);
        ShlOne(of.logSampling1);
        ShlMonotone(1, q, of.logSampling1);
      }
    }
  }

  method WritePointer1(bvb: BitVectorBuilder, of: Offsets, v: seq<nat>, m: nat, ghost zeros: nat)
    requires m < |v| && Fits(of, v) && zeros <= of.Zeros() && of.End() <= |bvb.bits| && of.LowerBitsOffset() <= of.End()
    requires HighBits(bvb.bits, of, v, m + 1)
    requires LowFields(bvb.bits, of, v, m + 1) && Pointers1(bvb.bits, of, v, m) && Pointers0(bvb.bits, of, v, zeros)
    modifies bvb
    ensures SameExcept(old(bvb.bits), bvb.bits, of.base, of.End())
    ensures Written(bvb.bits, of, v, m + 1, zeros)
  {
    hide HighBits, LowFields, Pointers1, Pointers0, Offsets.HigherBitsOffset, Offsets.LowerBitsOffset,
      Offsets.Pointers1Offset, Offsets.End, Offsets.Zeros, Offsets.LowerBits, Offsets.PointerSize, Field, Low, Shl, Shr;
    if m > 0 && Low(m, of.logSampling1) == 0 {
      ghost var was := bvb.bits;
      var ptr1 := Shr(m, of.logSampling1);
      SampledIf(m, of.logSampling1);
      of.Layout();
      Pointer1Inside(of, ptr1);
      var at := Slot(of.Pointers1Offset(), ptr1 - 1, of.PointerSize());
      var high := Shr(v[m], of.LowerBits()) + m + 1;
      OnesInside(of, v, m);
      FitsPointer(of, high);
      bvb.SetBits(at, high, of.PointerSize());
      HighBitsUntouched(was, bvb.bits, at, at + of.PointerSize(), of, v, m + 1);
      LowFieldsUntouched(was, bvb.bits, at, at + of.PointerSize(), of, v, m + 1);
      OtherPointers1(was, bvb.bits, of, v, m, ptr1);
      Pointers0Untouched(was, bvb.bits, at, at + of.PointerSize(), of, v, zeros);
    }
    OneMorePointer1(bvb.bits, of, v, m);
  }

  lemma OtherPointers1(bits: seq<bool>, bits': seq<bool>, of: Offsets, v: seq<nat>, m: nat, ptr: nat)
    requires m <= |v| == of.n && Pointers1(bits, of, v, m) && ptr >= 1 && m <= Shl(ptr, of.logSampling1) <= of.n
    requires var at := Slot(of.Pointers1Offset(), ptr - 1, of.PointerSize());
      SameExcept(bits, bits', at, at + of.PointerSize())
    ensures Pointers1(bits', of, v, m)
  {
    hide Offsets.PointerSize, Offsets.Pointers1Offset, Offsets.HigherBitsOffset, OneAt, Field;
    forall q: nat | q >= 1 && Shl(q, of.logSampling1) < m
      ensures Pointer1(bits', of, v, q)
    {
      ShlMonotone(ptr, q, of.logSampling1);
      var at := Slot(of.Pointers1Offset(), ptr - 1, of.PointerSize());
      SlotMonotone(of.Pointers1Offset(), q - 1, ptr - 1, of.PointerSize());
      assert Pointer1(bits, of, v, q);
      FieldUntouched(bits, bits', at, at + of.PointerSize(), Slot(of.Pointers1Offset(), q - 1, of.PointerSize()),
        of.PointerSize());
    }
  }

  lemma ZeroInRun(of: Offsets, v: seq<nat>, m: nat, k: nat)
    requires m <= |v| && SortedUpTo(v, m) && ZerosBefore(of, v, m) <= k
    requires m == |v| || k < ZerosBefore(of, v, m + 1)
    ensures k >= 1 ==> ZeroAt(of, v, k) == of.HigherBitsOffset() + k + m
  {
    hide Offsets.HigherBitsOffset, Offsets.LowerBits;
    if k >= 1 {
      var r := FirstWithHigh(of, v, k, 0);
      if m > r {
        ShrMonotone(v[r], v[m - 1], of.LowerBits());
      }
    }
  }

  lemma OneMorePointer0(bits: seq<bool>, bits': seq<bool>, of: Offsets, v: seq<nat>, ptr: nat)
    requires ptr >= 1 && Shl(ptr, of.logSampling0) < of.Zeros() && Pointers0(bits, of, v, Shl(ptr, of.logSampling0))
    requires var at := Slot(of.Pointers0Offset(), ptr - 1, of.PointerSize());
      SameExcept(bits, bits', at, at + of.PointerSize())
    requires Pointer0(bits', of, v, ptr)
    ensures Pointers0(bits', of, v, Shl(ptr + 1, of.logSampling0))
  {
    hide Offsets.PointerSize, Offsets.Pointers0Offset, Offsets.Zeros, ZeroAt, Field;
    forall q: nat | q >= 1 && Shl(q, of.logSampling0) < Shl(ptr + 1, of.logSampling0)
      ensures Pointer0(bits', of, v, q)
    {
      ShlMonotone(ptr + 1, q, of.logSampling0);
      ShlMonotone(ptr, q, of.logSampling0);
      if q < ptr {
        var at := Slot(of.Pointers0Offset(), ptr - 1, of.PointerSize());
        SlotMonotone(of.Pointers0Offset(), q - 1, ptr - 1, of.PointerSize());
        assert Pointer0(bits, of, v, q);
        FieldUntouched(bits, bits', at, at + of.PointerSize(), Slot(of.Pointers0Offset(), q - 1, of.PointerSize()),
          of.PointerSize());
      }
    }
  }

  /** No multiple of the sampling rate lies between two bounds: the same pointers are demanded. */
  lemma SamePointers0(bits: seq<bool>, of: Offsets, v: seq<nat>, zeros: nat, more: nat, ptr: nat)
    requires Pointers0(bits, of, v, zeros)
    requires ptr == 0 || Shl(ptr - 1, of.logSampling0) < zeros
    requires Shl(ptr, of.logSampling0) >= more
    ensures Pointers0(bits, of, v, more)
  {
    hide Pointer0;
    forall q: nat | q >= 1 && Shl(q, of.logSampling0) < more
      ensures Pointer0(bits, of, v, q)
    {
      ShlMonotone(ptr, q, of.logSampling0);
      if ptr > 0 {
        ShlMonotone(q, ptr - 1, of.logSampling0);
      }
    }
  }

  /** One pointer to a zero in the run of zeros before the set bit of element m. */
  method WritePointer0(bvb: BitVectorBuilder, of: Offsets, v: seq<nat>, m: nat, ghost w: nat, ptr: nat)
    requires m <= |v| && Fits(of, v) && SortedUpTo(v, m) && ptr >= 1
    requires w <= |v| && Shl(ptr, of.logSampling0) < of.Zeros()
    requires Written(bvb.bits, of, v, w, Shl(ptr, of.logSampling0))
    requires ZerosBefore(of, v, m) <= Shl(ptr, of.logSampling0)
    requires (m == |v| || Shl(ptr, of.logSampling0) < ZerosBefore(of, v, m + 1))
    modifies bvb
    ensures SameExcept(old(bvb.bits), bvb.bits, of.base, of.End())
    ensures Written(bvb.bits, of, v, w, Shl(ptr + 1, of.logSampling0))
  {
    hide HighBits, LowFields, Pointers1, Pointers0, Offsets.HigherBitsOffset, Offsets.LowerBitsOffset,
      Offsets.Pointers1Offset, Offsets.Pointers0Offset, Offsets.End, Offsets.Zeros, Offsets.LowerBits,
      Offsets.PointerSize,
      Field, Low, Shl, Shr, ZerosBefore, ZeroAt, Slot;
    ghost var was := bvb.bits;
    of.Layout();
    Pointer0Inside(of, ptr);
    ZeroInRun(of, v, m, Shl(ptr, of.logSampling0));
    var at := Slot(of.Pointers0Offset(), ptr - 1, of.PointerSize());
    FitsPointer(of, Shl(ptr, of.logSampling0) + m);
    ShlAtLeast(ptr, of.logSampling0);
    bvb.SetBits(at, Shl(ptr, of.logSampling0) + m, of.PointerSize());
    HighBitsUntouched(was, bvb.bits, at, at + of.PointerSize(), of, v, w);
    LowFieldsUntouched(was, bvb.bits, at, at + of.PointerSize(), of, v, w);
    Pointers1Untouched(was, bvb.bits, at, at + of.PointerSize(), of, v, w);
    OneMorePointer0(was, bvb.bits, of, v, ptr);
  }

  /** set_ptr0s: the pointers to the zeros in [begin, end), which m set bits precede; w elements are written. */
  method WritePointers0(bvb: BitVectorBuilder, of: Offsets, v: seq<nat>, begin: nat, end: nat, m: nat, ghost w: nat)
    requires m <= |v| && Fits(of, v) && SortedUpTo(v, m) && m <= begin <= end
    requires begin - m == ZerosBefore(of, v, m) && end - m == if m == |v| then of.Zeros() else ZerosBefore(of, v, m + 1)
    requires w <= |v| && Written(bvb.bits, of, v, w, begin - m)
    modifies bvb
    ensures SameExcept(old(bvb.bits), bvb.bits, of.base, of.End())
    ensures Written(bvb.bits, of, v, w, end - m)
  {
    hide HighBits, LowFields, Pointers1, Pointers0, Offsets.HigherBitsOffset, Offsets.LowerBitsOffset,
      Offsets.End, Offsets.Zeros, Offsets.LowerBits, Shl, Shr, CeilShr, ZerosBefore;
    var beginZeros := begin - m;
    var endZeros := end - m;
    ZerosFew(of, v, m);
    if m < |v| {
      ZerosFew(of, v, m + 1);
    }
    var ptr0 := CeilShr(beginZeros, of.logSampling0);
    CeilShrIsLeast(beginZeros, of.logSampling0);
    SamePointers0(bvb.bits, of, v, beginZeros, Shl(ptr0, of.logSampling0), ptr0);
    while Shl(ptr0, of.logSampling0) < endZeros
      invariant Shl(ptr0, of.logSampling0) >= beginZeros
      invariant Written(bvb.bits, of, v, w, Shl(ptr0, of.logSampling0))
      invariant SameExcept(old(bvb.bits), bvb.bits, of.base, of.End())
      decreases endZeros - ptr0
    {
      ShlAtLeast(ptr0, of.logSampling0);
      ShlMonotone(ptr0, ptr0 + 1, of.logSampling0);
      if ptr0 > 0 {
        WritePointer0(bvb, of, v, m, w, ptr0);
      } else {
        FirstPointer0(bvb.bits, of, v);
      }
      ptr0 := ptr0 + 1;
    }
    FewerPointers0(bvb.bits, of, v, Shl(ptr0, of.logSampling0), endZeros);
  }

  lemma FewerPointers0(bits: seq<bool>, of: Offsets, v: seq<nat>, zeros: nat, fewer: nat)
    requires fewer <= zeros && Pointers0(bits, of, v, zeros)
    ensures Pointers0(bits, of, v, fewer)
  {
  }

  lemma FirstPointer0(bits: seq<bool>, of: Offsets, v: seq<nat>)
    ensures Pointers0(bits, of, v, Shl(1, of.logSampling0))
  {
    hide Pointer0;
    forall q: nat | q >= 1
      ensures Shl(q, of.logSampling0) >= Shl(1, of.logSampling0)
    {
      ShlMonotone(1, q, of.logSampling0);
    }
  }

  lemma NothingWritten(bits: seq<bool>, of: Offsets, v: seq<nat>)
    requires of.End() <= |bits| && of.LowerBitsOffset() <= of.End()
    requires forall p :: of.base <= p < |bits| ==> !bits[p]
    ensures Written(bits, of, v, 0, 1)
  {
    of.Layout();
    forall q: nat | q >= 1
      ensures Shl(q, of.logSampling0) >= 1
    {
      ShlAtLeast(q, of.logSampling0);
    }
  }

  /** Element m: its set bit, its low bits, its pointer if it is sampled, the pointers to the zeros before it. */
  method WriteElement(bvb: BitVectorBuilder, of: Offsets, v: seq<nat>, m: nat, lastHigh: nat) returns (high: nat)
    requires m < |v| && Fits(of, v) && SortedUpTo(v, m + 1) && Written(bvb.bits, of, v, m, ZerosBefore(of, v, m))
    requires lastHigh + 1 == ZerosBefore(of, v, m) + m
    modifies bvb
    ensures SameExcept(old(bvb.bits), bvb.bits, of.base, of.End())
    ensures Written(bvb.bits, of, v, m + 1, ZerosBefore(of, v, m + 1))
    ensures high + 1 == ZerosBefore(of, v, m + 1) + m + 1
  {
    hide HighBits, LowFields, Pointers1, Pointers0, Offsets.HigherBitsOffset, Offsets.LowerBitsOffset,
      Offsets.End, Offsets.Zeros, Offsets.LowerBits, Shl, Shr;
    ghost var zeros := ZerosBefore(of, v, m);
    high := Shr(v[m], of.LowerBits()) + m + 1;
    ZerosFew(of, v, m);
    WriteOne(bvb, of, v, m, zeros);
    WriteLow(bvb, of, v, m, zeros);
    WritePointer1(bvb, of, v, m, zeros);
    HighsAscend(of, v, m);
    WritePointers0(bvb, of, v, lastHigh + 1, high, m, m + 1);
  }

  lemma HighsAscend(of: Offsets, v: seq<nat>, m: nat)
    requires m < |v| && SortedUpTo(v, m + 1)
    ensures ZerosBefore(of, v, m) <= ZerosBefore(of, v, m + 1)
  {
    if m > 0 {
      ShrMonotone(v[m - 1], v[m], of.LowerBits());
    }
  }

  lemma WrittenIsEncoded(bits: seq<bool>, of: Offsets, v: seq<nat>)
    requires Fits(of, v) && Sorted(v) && Written(bits, of, v, |v|, of.Zeros())
    ensures Encoded(bits, of, v)
  {
  }

  /**
   * Appends the encoding of v, or stops at the first element that is smaller than its predecessor (the
   * code throws). Nothing before the encoding changes.
   */
  method Write(bvb: BitVectorBuilder, v: seq<nat>, universe: nat, logSampling0: nat, logSampling1: nat)
    returns (ok: bool)
    requires v != [] && forall i :: 0 <= i < |v| ==> v[i] < universe
    modifies bvb
    ensures ok <==> Sorted(v)
    ensures var of := Offsets(|old(bvb.bits)|, universe, |v|, logSampling0, logSampling1);
      && |bvb.bits| == of.End() && old(bvb.bits) <= bvb.bits
      && (ok ==> Encoded(bvb.bits, of, v))
  {
    hide Written, Encoded, Offsets.End, Offsets.LowerBitsOffset, Offsets.Zeros, ZerosBefore;
    ghost var prefix := bvb.bits;
    var of := Offsets(|bvb.bits|, universe, |v|, logSampling0, logSampling1);
    of.Layout();
    Extended(prefix, of.base, of.Bitsize());
    bvb.ZeroExtend(of.Bitsize());
    NothingWritten(bvb.bits, of, v);
    ok := true;
    var last, lastHigh := 0, 0;
    NoZeros(of, v);
    for i := 0 to |v|
      invariant ok && SortedUpTo(v, i) && last == (if i == 0 then 0 else v[i - 1])
      invariant |bvb.bits| == of.End() && bvb.bits[..of.base] == prefix
      invariant lastHigh + 1 == ZerosBefore(of, v, i) + i
      invariant Written(bvb.bits, of, v, i, ZerosBefore(of, v, i))
    {
      if i > 0 && v[i] < last {
        return false;
      }
      ghost var was := bvb.bits;
      lastHigh := WriteElement(bvb, of, v, i, lastHigh);
      KeepsPrefix(was, bvb.bits, of.base, of.End(), prefix);
      last := v[i];
    }
    ghost var was := bvb.bits;
    ZerosFew(of, v, |v|);
    WritePointers0(bvb, of, v, lastHigh + 1, of.HigherBitsLength(), |v|, |v|);
    KeepsPrefix(was, bvb.bits, of.base, of.End(), prefix);
    WrittenIsEncoded(bvb.bits, of, v);
  }

  lemma NoZeros(of: Offsets, v: seq<nat>)
    ensures ZerosBefore(of, v, 0) == 1
  {
  }

  // ---------------------------------------------------------------------------------------------
  // An encoding can be copied to another place

  function MovedTo(of: Offsets, base: nat): (r: Offsets)
    ensures r.universe == of.universe && r.n == of.n && r.LowerBits() == of.LowerBits() && r.Zeros() == of.Zeros()
    ensures r.PointerSize() == of.PointerSize()
  {
    of.(base := base)
  }

  lemma MovedOffsets(of: Offsets, base: nat)
    ensures var of' := MovedTo(of, base);
      && of'.Pointers1Offset() - base == of.Pointers1Offset() - of.base
      && of'.HigherBitsOffset() - base == of.HigherBitsOffset() - of.base
      && of'.LowerBitsOffset() - base == of.LowerBitsOffset() - of.base
      && of'.Bitsize() == of.Bitsize()
  {
    var of' := MovedTo(of, base);
    SlotShift(of.base, base, of.Pointers0(), of.PointerSize());
    SlotShift(of.Pointers1Offset(), of'.Pointers1Offset(), of.Pointers1(), of.PointerSize());
    SlotShift(of.LowerBitsOffset(), of'.LowerBitsOffset(), of.n, of.LowerBits());
  }

  lemma MovedOne(of: Offsets, base: nat, v: seq<nat>, i: nat)
    requires i < |v|
    ensures OneAt(MovedTo(of, base), v, i) - base == OneAt(of, v, i) - of.base
  {
    MovedOffsets(of, base);
  }

  lemma {:induction false} MovedHigh(of: Offsets, base: nat, v: seq<nat>, k: nat, i: nat)
    requires i <= |v|
    ensures FirstWithHigh(MovedTo(of, base), v, k, i) == FirstWithHigh(of, v, k, i)
    decreases |v| - i
  {
    if i < |v| {
      MovedHigh(of, base, v, k, i + 1);
    }
  }

  lemma MovedHighBits(bits: seq<bool>, of: Offsets, v: seq<nat>, bits': seq<bool>, base: nat)
    requires Encoded(bits, of, v) && Moved(bits, of.base, bits', base, of.Bitsize())
    ensures MovedTo(of, base).LowerBitsOffset() <= |bits'| && HighBits(bits', MovedTo(of, base), v, |v|)
  {
    hide LowFields, Pointers1, Pointers0, Offsets.HigherBitsOffset, Offsets.LowerBitsOffset, Offsets.End, OneAt,
      MovedTo, Fits, Sorted;
    var of' := MovedTo(of, base);
    MovedOffsets(of, base);
    of.Layout();
    forall p | of'.HigherBitsOffset() <= p < of'.LowerBitsOffset()
      ensures bits'[p] <==> IsOne(of', v, |v|, p)
    {
      var q := p - base + of.base;
      MovedBit(bits, of.base, bits', base, of.Bitsize(), p - base);
      assert bits[q] <==> IsOne(of, v, |v|, q);
      forall i | 0 <= i < |v|
        ensures OneAt(of', v, i) == p <==> OneAt(of, v, i) == q
      {
        MovedOne(of, base, v, i);
      }
    }
  }

  lemma MovedLowFields(bits: seq<bool>, of: Offsets, v: seq<nat>, bits': seq<bool>, base: nat)
    requires Encoded(bits, of, v) && Moved(bits, of.base, bits', base, of.Bitsize())
    ensures LowFields(bits', MovedTo(of, base), v, |v|)
  {
    hide HighBits, Pointers1, Pointers0, Offsets.HigherBitsOffset, Offsets.LowerBitsOffset, Offsets.End, MovedTo,
      Field, Sorted, Moved;
    var of' := MovedTo(of, base);
    MovedOffsets(of, base);
    of.Layout();
    forall i | 0 <= i < |v|
      ensures LowField(bits', of', v, i)
    {
      var at := Slot(of.LowerBitsOffset(), i, of.LowerBits());
      assert LowField(bits, of, v, i);
      LowInside(of, i);
      SlotShift(of.LowerBitsOffset(), of'.LowerBitsOffset(), i, of.LowerBits());
      MovedInside(bits, of.base, bits', base, of.Bitsize());
      MovedField(bits, of.base, bits', base, of.Bitsize(), at - of.base, of.LowerBits());
    }
  }

  lemma MovedPointers1(bits: seq<bool>, of: Offsets, v: seq<nat>, bits': seq<bool>, base: nat)
    requires Encoded(bits, of, v) && Moved(bits, of.base, bits', base, of.Bitsize())
    ensures Pointers1(bits', MovedTo(of, base), v, |v|)
  {
    hide HighBits, LowFields, Pointers0, Offsets.HigherBitsOffset, Offsets.LowerBitsOffset, Offsets.Pointers1Offset,
      Offsets.End,
      Field, Sorted, Moved, Offsets.PointerSize, OneAt;
    var of' := MovedTo(of, base);
    MovedOffsets(of, base);
    of.Layout();
    forall q: nat | q >= 1 && Shl(q, of.logSampling1) < |v|
      ensures Pointer1(bits', of', v, q)
    {
      var at := Slot(of.Pointers1Offset(), q - 1, of.PointerSize());
      assert Pointer1(bits, of, v, q);
      Pointer1Inside(of, q);
      SlotShift(of.Pointers1Offset(), of'.Pointers1Offset(), q - 1, of.PointerSize());
      MovedOne(of, base, v, Shl(q, of.logSampling1));
      MovedInside(bits, of.base, bits', base, of.Bitsize());
      MovedField(bits, of.base, bits', base, of.Bitsize(), at - of.base, of.PointerSize());
    }
  }

  lemma MovedPointers0(bits: seq<bool>, of: Offsets, v: seq<nat>, bits': seq<bool>, base: nat)
    requires Encoded(bits, of, v) && Moved(bits, of.base, bits', base, of.Bitsize())
    ensures Pointers0(bits', MovedTo(of, base), v, of.Zeros())
  {
    hide HighBits, LowFields, Pointers1, Offsets.HigherBitsOffset, Offsets.LowerBitsOffset, Offsets.Pointers1Offset,
      Offsets.End,
      Field, Sorted, Moved, Offsets.PointerSize, Offsets.Zeros, FirstWithHigh;
    var of' := MovedTo(of, base);
    MovedOffsets(of, base);
    of.Layout();
    forall q: nat | q >= 1 && Shl(q, of.logSampling0) < of.Zeros()
      ensures Pointer0(bits', of', v, q)
    {
      var at := Slot(of.Pointers0Offset(), q - 1, of.PointerSize());
      assert Pointer0(bits, of, v, q);
      Pointer0Inside(of, q);
      SlotShift(of.Pointers0Offset(), of'.Pointers0Offset(), q - 1, of.PointerSize());
      MovedHigh(of, base, v, Shl(q, of.logSampling0), 0);
      MovedInside(bits, of.base, bits', base, of.Bitsize());
      MovedField(bits, of.base, bits', base, of.Bitsize(), at - of.base, of.PointerSize());
    }
  }

  /** A copy of an encoding is an encoding. */
  lemma MovedEncoding(bits: seq<bool>, of: Offsets, v: seq<nat>, bits': seq<bool>, base: nat)
    requires Encoded(bits, of, v) && Moved(bits, of.base, bits', base, of.Bitsize())
    ensures Encoded(bits', MovedTo(of, base), v)
  {
    hide HighBits, LowFields, Pointers1, Pointers0, Offsets.HigherBitsOffset, Offsets.LowerBitsOffset, Offsets.End,
      Offsets.Zeros;
    MovedHighBits(bits, of, v, bits', base);
    MovedLowFields(bits, of, v, bits', base);
    MovedPointers1(bits, of, v, bits', base);
    MovedPointers0(bits, of, v, bits', base);
    MovedOffsets(of, base);
    MovedTo(of, base).Layout();
  }
}
