/**
 * The cursor over an Elias-Fano sequence (compact_elias_fano.hpp, enumerator).
 *
 * Small steps read on from where the cursor is, larger ones start from a sampled pointer. After a
 * read, the set bit under the cursor is consumed: to the enumerator below it looks like a zero.
 */
module EliasFanoEnumerator {
  import opened BitVector
  import opened EliasFano
  import opened MonotoneSequence
  import OneBits

  // ---------------------------------------------------------------------------------------------
  // Set bits and zeros of the high part, by rank

  /** The positions of the set bits of the high part. */
  ghost function Ones(of: Offsets, v: seq<nat>): (r: seq<nat>)
    ensures |r| == |v| && forall i :: 0 <= i < |v| ==> r[i] == OneAt(of, v, i)
  {
    seq(|v|, i requires 0 <= i < |v| => OneAt(of, v, i))
  }

  ghost predicate After(of: Offsets, v: seq<nat>, p: nat, m: nat) {
    OneBits.After(of.HigherBitsOffset(), of.LowerBitsOffset(), Ones(of, v), p, m)
  }

  lemma EncodedOnes(bits: seq<bool>, of: Offsets, v: seq<nat>)
    requires Encoded(bits, of, v)
    ensures OneBits.OnesAre(bits, of.HigherBitsOffset(), of.LowerBitsOffset(), Ones(of, v))
  {
    hide LowFields, Pointers0, Pointers1, Offsets.End, Offsets.HigherBitsOffset, Offsets.LowerBitsOffset, OneAt, Fits,
      Sorted, Ones;
    of.Layout();
    forall i, j | 0 <= i < j < |v|
      ensures Ones(of, v)[i] < Ones(of, v)[j]
    {
      OnesIncrease(of, v, i, j);
    }
    forall i | 0 <= i < |v|
      ensures of.HigherBitsOffset() <= Ones(of, v)[i] < of.LowerBitsOffset() && bits[Ones(of, v)[i]]
    {
      OnesInside(of, v, i);
      assert IsOne(of, v, |v|, OneAt(of, v, i));
    }
    forall p | of.HigherBitsOffset() <= p < of.LowerBitsOffset() && bits[p]
      ensures OneBits.IsOne(Ones(of, v), p)
    {
      var i :| 0 <= i < |v| && OneAt(of, v, i) == p;
      assert Ones(of, v)[i] == p;
    }
  }

  lemma RankAt(bits: seq<bool>, of: Offsets, v: seq<nat>, p: nat, m: nat)
    requires Encoded(bits, of, v) && After(of, v, p, m)
    ensures p <= |bits| && of.HigherBitsOffset() <= |bits|
    ensures Rank(bits, p) == Rank(bits, of.HigherBitsOffset()) + m
  {
    hide Encoded, Ones;
    EncodedOnes(bits, of, v);
    OneBits.RankAt(bits, of.HigherBitsOffset(), of.LowerBitsOffset(), Ones(of, v), p, m);
  }

  lemma AfterOne(bits: seq<bool>, of: Offsets, v: seq<nat>, i: nat)
    requires Encoded(bits, of, v) && i < |v|
    ensures After(of, v, OneAt(of, v, i), i) && After(of, v, OneAt(of, v, i) + 1, i + 1)
  {
    hide Encoded, Ones;
    EncodedOnes(bits, of, v);
    OneBits.AfterOne(bits, of.HigherBitsOffset(), of.LowerBitsOffset(), Ones(of, v), i);
  }

  /** Enough set bits and zeros remain for every legal move. */
  lemma Remaining(bits: seq<bool>, of: Offsets, v: seq<nat>)
    requires Encoded(bits, of, v)
    ensures of.HigherBitsOffset() <= of.LowerBitsOffset() <= |bits|
    ensures Rank(bits, of.LowerBitsOffset()) == Rank(bits, of.HigherBitsOffset()) + |v|
    ensures Rank(bits, |bits|) >= Rank(bits, of.LowerBitsOffset())
  {
    hide Encoded, Ones;
    EncodedOnes(bits, of, v);
    OneBits.Remaining(bits, of.HigherBitsOffset(), of.LowerBitsOffset(), Ones(of, v));
  }

  /** The enumerator stands where m set bits of the high part are behind it. */
  ghost predicate Stands(of: Offsets, v: seq<nat>, u: Unary, m: nat) {
    After(of, v, u.From(), m)
  }

  /** The set bit of element m, once m elements are behind. */
  method NextOne(bits: seq<bool>, of: Offsets, ghost v: seq<nat>, u: Unary, ghost m: nat) returns (u': Unary)
    requires Encoded(bits, of, v) && m < |v| && Stands(of, v, u, m)
    ensures u' == Unary(OneAt(of, v, m), true) && Stands(of, v, u', m + 1)
  {
    hide Encoded, Ones, OneAt, Offsets.HigherBitsOffset, Offsets.LowerBitsOffset;
    EncodedOnes(bits, of, v);
    u' := OneBits.NextOne(bits, of.HigherBitsOffset(), of.LowerBitsOffset(), Ones(of, v), u, m);
  }

  method SkipOnes(bits: seq<bool>, of: Offsets, ghost v: seq<nat>, u: Unary, ghost m: nat, k: nat) returns (u': Unary)
    requires Encoded(bits, of, v) && m + k < |v| && Stands(of, v, u, m)
    ensures Stands(of, v, u', m + k)
  {
    hide Encoded, Ones, OneAt, Offsets.HigherBitsOffset, Offsets.LowerBitsOffset;
    EncodedOnes(bits, of, v);
    u' := OneBits.SkipOnes(bits, of.HigherBitsOffset(), of.LowerBitsOffset(), Ones(of, v), u, m, k);
  }

  lemma EncodedInput(bits: seq<bool>, of: Offsets, v: seq<nat>)
    requires Encoded(bits, of, v)
    ensures Fits(of, v) && Sorted(v) && of.n == |v| > 0
  {
  }

  /** The zero with rank k: exactly the elements with a smaller high part precede it. */
  lemma ZeroBit(bits: seq<bool>, of: Offsets, v: seq<nat>, k: nat)
    requires Encoded(bits, of, v) && k < of.Zeros()
    ensures ZeroAt(of, v, k) < |bits| && !bits[ZeroAt(of, v, k)]
    ensures After(of, v, ZeroAt(of, v, k), FirstWithHigh(of, v, k, 0))
  {
    hide LowFields, Pointers0, Pointers1, Offsets.End, Offsets.HigherBitsOffset, Offsets.Zeros, Offsets.LowerBits;
    var z, m := ZeroAt(of, v, k), FirstWithHigh(of, v, k, 0);
    assert After(of, v, z, m);
    assert bits[z] <==> IsOne(of, v, |v|, z);
    forall i | 0 <= i < |v|
      ensures OneAt(of, v, i) != z
    {
      if i < m {
        OnesIncrease(of, v, i, m - 1);
      } else {
        OnesIncrease(of, v, m, i);
      }
    }
  }

  /** The zero rank that an enumerator reaches by skipping none. */
  ghost function ZeroRank(of: Offsets, v: seq<nat>, u: Unary, m: nat): int
    requires m <= |v| && (u.consumed ==> m > 0)
  {
    if u.consumed then Shr(v[m - 1], of.LowerBits()) else u.pos - of.HigherBitsOffset() - m
  }

  /** Skipping zeros leads to the zero of the right rank; a consumed bit is the first one to be skipped. */
  method SkipZeros(bits: seq<bool>, of: Offsets, ghost v: seq<nat>, u: Unary, ghost m: nat, k: nat) returns (u': Unary)
    requires Encoded(bits, of, v) && Stands(of, v, u, m) && m <= |v|
    requires u.consumed ==> m > 0 && u.pos == OneAt(of, v, m - 1)
    requires 0 <= ZeroRank(of, v, u, m) && ZeroRank(of, v, u, m) + k < of.Zeros()
    ensures if u.consumed && k == 0 then u' == u else u' == Unary(ZeroAt(of, v, ZeroRank(of, v, u, m) + k), false)
  {
    hide Encoded, Offsets.End, Offsets.HigherBitsOffset, Offsets.Zeros, Offsets.LowerBits, Fits, Sorted;
    ghost var rank := ZeroRank(of, v, u, m) + k;
    Remaining(bits, of, v);
    RankAt(bits, of, v, u.From(), m);
    ConsumedIsOne(bits, of, v, u, m);
    RankMonotone(bits, of.LowerBitsOffset(), |bits|);
    EncodedInput(bits, of, v);
    u' := Skip0(bits, u, k);
    if !u'.consumed {
      ZeroBit(bits, of, v, rank);
      RankAt(bits, of, v, ZeroAt(of, v, rank), FirstWithHigh(of, v, rank, 0));
      RankDetermines(bits, u'.pos, ZeroAt(of, v, rank));
    }
  }

  lemma ConsumedIsOne(bits: seq<bool>, of: Offsets, v: seq<nat>, u: Unary, m: nat)
    requires Encoded(bits, of, v) && m <= |v| && (u.consumed ==> m > 0 && u.pos == OneAt(of, v, m - 1))
    ensures u.consumed ==> u.pos < |bits| && bits[u.pos]
  {
    hide LowFields, Pointers0, Pointers1, Offsets.End, Offsets.HigherBitsOffset, Offsets.LowerBitsOffset,
      Offsets.Zeros, Offsets.LowerBits, OneAt;
    if u.consumed {
      OnesInside(of, v, m - 1);
      assert IsOne(of, v, |v|, u.pos);
    }
  }

  // ---------------------------------------------------------------------------------------------
  // Reading

  /** The low bits of element i. */
  method ReadLow(bits: seq<bool>, of: Offsets, ghost v: seq<nat>, i: nat) returns (low: nat)
    requires Encoded(bits, of, v) && i < |v|
    ensures low == Low(v[i], of.LowerBits())
  {
    hide HighBits, Pointers0, Pointers1, Offsets.HigherBitsOffset, Offsets.LowerBitsOffset, Offsets.Zeros,
      Offsets.LowerBits, Offsets.End;
    assert LowField(bits, of, v, i);
    low := Field(bits, Slot(of.LowerBitsOffset(), i, of.LowerBits()), of.LowerBits());
  }

  /** The high and the low part are joined by a shift and an or; they have no bit in common. */
  lemma Joined(of: Offsets, v: seq<nat>, i: nat)
    requires i < |v|
    ensures Shl(OneAt(of, v, i) - of.HigherBitsOffset() - i - 1, of.LowerBits()) + Low(v[i], of.LowerBits()) == v[i]
  {
    SplitBits(v[i], of.LowerBits());
  }

  /** next_reader: reads consecutive elements, moving its bases along. */
  datatype NextReader = NextReader(high: Unary, highBase: nat, lowerBase: nat) {
    ghost predicate At(bits: seq<bool>, of: Offsets, v: seq<nat>, i: nat) {
      && Stands(of, v, high, i) && highBase == of.HigherBitsOffset() + i + 1
      && lowerBase == Slot(of.LowerBitsOffset(), i, of.LowerBits())
    }
  }

  method Read(bits: seq<bool>, of: Offsets, ghost v: seq<nat>, r: NextReader, ghost i: nat)
    returns (r': NextReader, val: nat)
    requires Encoded(bits, of, v) && i < |v| && r.At(bits, of, v, i)
    ensures r'.At(bits, of, v, i + 1) && val == v[i] && r'.high == Unary(OneAt(of, v, i), true)
  {
    hide HighBits, LowFields, Pointers0, Pointers1, Offsets.HigherBitsOffset, Offsets.LowerBitsOffset, Offsets.Zeros,
      Offsets.LowerBits, Offsets.End;
    var high := NextOne(bits, of, v, r.high, i);
    Joined(of, v, i);
    LowIsThere(bits, of, v, i);
    var low := Field(bits, r.lowerBase, of.LowerBits());
    val := Shl(high.pos - r.highBase, of.LowerBits()) + low;
    r' := NextReader(high, r.highBase + 1, r.lowerBase + of.LowerBits());
  }

  lemma LowIsThere(bits: seq<bool>, of: Offsets, v: seq<nat>, i: nat)
    requires Encoded(bits, of, v) && i < |v|
    ensures LowField(bits, of, v, i)
  {
  }

  const LINEAR_SCAN_THRESHOLD := 8

  class Enumerator {
    const bits: seq<bool>
    const of: Offsets
    ghost const v: seq<nat>
    var position: nat
    var value: nat
    var high: Unary

    ghost predicate Valid()
      reads this
    {
      && Encoded(bits, of, v) && position <= |v|
      && value == ValueAt(position)
      && (position < |v| ==> high == Unary(OneAt(of, v, position), true))
    }

    /** The elements, followed by the universe. */
    ghost function ValueAt(i: nat): nat {
      if i < |v| then v[i] else of.universe
    }

    constructor (bits: seq<bool>, offset: nat, universe: nat, n: nat, logSampling0: nat, logSampling1: nat,
                 ghost v: seq<nat>)
      requires Encoded(bits, Offsets(offset, universe, n, logSampling0, logSampling1), v)
      ensures Valid() && this.v == v && position == n && of.universe == universe
      ensures this.bits == bits && of == Offsets(offset, universe, n, logSampling0, logSampling1)
    {
      this.bits, this.v := bits, v;
      of := Offsets(offset, universe, n, logSampling0, logSampling1);
      position, value, high := n, universe, Unary(0, false);
      new;
      EncodedInput(bits, of, v);
    }

    function Size(): nat {
      of.n
    }

    lemma InBounds()
      requires Valid()
      ensures position <= |v| && value == ValueAt(position)
    {
    }

    lemma DoesNotOverrun(bound: nat)
      requires bound <= of.universe
      ensures !Overruns(bound)
    {
    }

    /** Reads the element at `position` with the enumerator standing before it. */
    method ReadNext()
      requires Encoded(bits, of, v) && position < |v| && Stands(of, v, high, position)
      modifies this`high, this`value
      ensures Valid()
    {
      hide Encoded, Offsets.HigherBitsOffset, Offsets.LowerBits, OneAt, Stands;
      high := NextOne(bits, of, v, high, position);
      var low := ReadLow(bits, of, v, position);
      Joined(of, v, position);
      OneFits(bits, of, v, position);
      value := Shl(high.pos - of.HigherBitsOffset() - position - 1, of.LowerBits()) + low;
    }

    /** Any position up to the size can be visited, forwards or backwards. */
    method Move(to: nat) returns (pos: nat, val: nat)
      requires Valid() && to <= |v|
      modifies this
      ensures Valid() && position == to && pos == to && val == ValueAt(to)
    {
      hide Encoded, Offsets.HigherBitsOffset, Offsets.LowerBits, OneAt, Stands;
      EncodedInput(bits, of, v);
      if to == position {
        return position, value;
      }
      if to > position && to - position <= LINEAR_SCAN_THRESHOLD {
        SmallMove(to);
        return position, value;
      }
      pos, val := SlowMove(to);
    }

    method SmallMove(to: nat)
      requires Valid() && position < to <= |v|
      modifies this
      ensures Valid() && position == to
    {
      hide Encoded, Offsets.HigherBitsOffset, Offsets.LowerBits, OneAt;
      EncodedInput(bits, of, v);
      var skip := to - position;
      ghost var from := position;
      position := to;
      if position == Size() {
        value := of.universe;
      } else {
        var he := high;
        StandsAfter(bits, of, v, from);
        for i := 0 to skip
          invariant position == to && Stands(of, v, he, from + 1 + i)
          invariant i > 0 ==> he == Unary(OneAt(of, v, from + i), true)
        {
          he := NextOne(bits, of, v, he, from + 1 + i);
        }
        var low := ReadLow(bits, of, v, position);
        Joined(of, v, position);
        OneFits(bits, of, v, position);
        value := Shl(he.pos - of.HigherBitsOffset() - position - 1, of.LowerBits()) + low;
        high := he;
      }
    }

    method SlowMove(to: nat) returns (pos: nat, val: nat)
      requires Valid() && to <= |v| && to != position
      modifies this
      ensures Valid() && position == to && pos == to && val == ValueAt(to)
    {
      hide Encoded, Offsets.HigherBitsOffset, Offsets.LowerBits, OneAt, Stands;
      EncodedInput(bits, of, v);
      if to == Size() {
        position := to;
        value := of.universe;
        return position, value;
      }
      var toSkip;
      ghost var m;
      if to > position && Shr(to - position, of.logSampling1) == 0 {
        toSkip := to - position - 1;
        m := position + 1;
        StandsAfter(bits, of, v, position);
      } else {
        var ptr := Shr(to, of.logSampling1);
        ShiftAdjoint(ptr, to, of.logSampling1);
        var highPos := FollowPointer1(ptr);
        high := Unary(of.HigherBitsOffset() + highPos, false);
        toSkip := to - Shl(ptr, of.logSampling1);
        m := Shl(ptr, of.logSampling1);
      }
      high := SkipOnes(bits, of, v, high, m, toSkip);
      position := to;
      ReadNext();
      return position, value;
    }

    /** pointer1: the stored pointer, or the start of the high part. */
    method FollowPointer1(ptr: nat) returns (highPos: nat)
      requires Encoded(bits, of, v) && Shl(ptr, of.logSampling1) < |v|
      ensures Stands(of, v, Unary(of.HigherBitsOffset() + highPos, false), Shl(ptr, of.logSampling1))
    {
      hide Offsets.PointerSize, Offsets.Pointers1Offset, Offsets.HigherBitsOffset, Offsets.LowerBits,
        HighBits, LowFields, Pointers0, OneAt, Offsets.End;
      if ptr == 0 {
        ShlOne(of.logSampling1);
        OnesInside(of, v, 0);
        highPos := 0;
      } else {
        assert Pointer1(bits, of, v, ptr);
        AfterOne(bits, of, v, Shl(ptr, of.logSampling1));
        highPos := Field(bits, Slot(of.Pointers1Offset(), ptr - 1, of.PointerSize()), of.PointerSize());
      }
    }

    /** pointer0: the stored pointer, or the start of the high part, which is a zero. */
    method FollowPointer0(ptr: nat) returns (highPos: nat)
      requires Encoded(bits, of, v) && Shl(ptr, of.logSampling0) < of.Zeros()
      ensures of.HigherBitsOffset() + highPos == ZeroAt(of, v, Shl(ptr, of.logSampling0))
    {
      hide Offsets.PointerSize, Offsets.Pointers1Offset, Offsets.Pointers0Offset, Offsets.HigherBitsOffset,
        Offsets.LowerBits,
        HighBits, LowFields, Pointers1, OneAt, Offsets.End, Offsets.Zeros;
      if ptr == 0 {
        ShlOne(of.logSampling0);
        highPos := 0;
      } else {
        assert Pointer0(bits, of, v, ptr);
        highPos := Field(bits, Slot(of.Pointers0Offset(), ptr - 1, of.PointerSize()), of.PointerSize());
      }
    }

    /** next must not be called past the end. */
    method Next() returns (pos: nat, val: nat)
      requires Valid() && position < |v|
      modifies this
      ensures Valid() && position == old(position) + 1 && pos == position && val == ValueAt(position)
    {
      hide Encoded, Offsets.HigherBitsOffset, Offsets.LowerBits, OneAt, Stands;
      EncodedInput(bits, of, v);
      StandsAfter(bits, of, v, position);
      position := position + 1;
      if position < Size() {
        ReadNext();
      } else {
        value := of.universe;
      }
      return position, value;
    }

    /** The element before the current one, or 0 if there is none. */
    method PrevValue() returns (prev: nat)
      requires Valid()
      ensures prev == if position == 0 then 0 else v[position - 1]
    {
      hide Encoded, Offsets.HigherBitsOffset, Offsets.LowerBits, Offsets.LowerBitsOffset, OneAt, Stands, Fits, Sorted,
        Ones;
      if position == 0 {
        return 0;
      }
      EncodedInput(bits, of, v);
      EncodedOnes(bits, of, v);
      ghost var lo, hi := of.HigherBitsOffset(), of.LowerBitsOffset();
      AfterOne(bits, of, v, position - 1);
      var prevHigh;
      if position < Size() {
        AfterOne(bits, of, v, position);
        prevHigh := OneBits.PreviousOne(bits, lo, hi, Ones(of, v), high.pos - 1, position);
      } else {
        prevHigh := OneBits.PreviousOne(bits, lo, hi, Ones(of, v), of.LowerBitsOffset() - 1, position);
      }
      OneFits(bits, of, v, position - 1);
      var low := ReadLow(bits, of, v, position - 1);
      Joined(of, v, position - 1);
      prev := Shl(prevHigh - of.HigherBitsOffset() - (position - 1) - 1, of.LowerBits()) + low;
    }

    /** Only past the end does next_geq take the scanning path with nothing left to scan. */
    ghost predicate Overruns(bound: nat)
      reads this
    {
      position == |v| && bound > of.universe &&
      Shr(bound, of.LowerBits()) - Shr(of.universe, of.LowerBits()) <= LINEAR_SCAN_THRESHOLD
    }

    /**
     * The first element that is at least the bound, from wherever the cursor is; a cursor that is on
     * such a value already stays where it is. Past the end the position may run over the size.
     */
    method NextGeq(bound: nat) returns (pos: nat, val: nat)
      requires Valid()
      modifies this
      ensures pos == position && val == value
      ensures old(Overruns(bound)) ==> position == |v| + 1 && val == of.universe
      ensures !old(Overruns(bound)) ==> Valid()
      ensures !old(Overruns(bound)) ==> position == if bound == old(value) then old(position) else FirstGeq(v, bound, 0)
    {
      hide Encoded, Offsets.HigherBitsOffset, Offsets.LowerBits, OneAt, Stands, Shr;
      if bound == value {
        return position, value;
      }
      var highLowerBound := Shr(bound, of.LowerBits());
      var curHigh := Shr(value, of.LowerBits());
      if bound > value && highLowerBound - curHigh <= LINEAR_SCAN_THRESHOLD {
        Scan(bound);
      } else {
        SlowNextGeq(bound);
      }
      return position, value;
    }

    /** The loop of the fast path: read until the bound is reached or nothing is left. */
    method Scan(bound: nat)
      requires Valid() && bound > value
      modifies this
      ensures old(position) == |v| ==> position == |v| + 1 && value == of.universe
      ensures old(position) < |v| ==> Valid() && position == FirstGeq(v, bound, 0)
    {
      hide Encoded, Offsets.HigherBitsOffset, Offsets.LowerBits, OneAt, NextReader.At;
      EncodedInput(bits, of, v);
      ghost var from := position;
      var reader := StartReader();
      var val: nat;
      while true
        invariant from <= position && (from < |v| ==> position < |v|) && (from == |v| ==> position == from)
        invariant forall j :: 0 <= j <= position && j < |v| ==> v[j] < bound
        invariant position < |v| ==> reader.At(bits, of, v, position + 1)
        decreases |v| - position
      {
        position := position + 1;
        if position < Size() {
          reader, val := Read(bits, of, v, reader, position);
        } else {
          val := of.universe;
          break;
        }
        if !(val < bound) {
          break;
        }
      }
      value := val;
      high := reader.high;
      if from < |v| {
        FirstGeqIs(v, bound, position);
      }
    }

    /** The reader that continues where the cursor is. */
    method StartReader() returns (reader: NextReader)
      requires Valid()
      ensures position < |v| ==> reader.At(bits, of, v, position + 1)
    {
      hide Encoded, Offsets.HigherBitsOffset, Offsets.LowerBits, Offsets.LowerBitsOffset, OneAt, Stands;
      if position < |v| {
        StandsAfter(bits, of, v, position);
      }
      reader := NextReader(high, of.HigherBitsOffset() + position + 2,
        Slot(of.LowerBitsOffset(), position + 1, of.LowerBits()));
    }

    method SlowNextGeq(bound: nat)
      requires Valid() && bound != value
      modifies this
      ensures Valid() && position == FirstGeq(v, bound, 0)
    {
      hide Encoded, Offsets.HigherBitsOffset, Offsets.LowerBits, OneAt, Stands, Shr, Offsets.Zeros;
      EncodedInput(bits, of, v);
      if bound >= of.universe {
        var _, _ := Move(Size());
        FirstGeqIs(v, bound, |v|);
        return;
      }
      SkipTo(bound);
      ReadUntil(bound);
    }

    /** Positions the enumerator by zeros, so that all elements behind are below the bound. */
    method SkipTo(bound: nat)
      requires Valid() && bound != value && bound < of.universe
      modifies this
      ensures Encoded(bits, of, v) && position <= |v| && Stands(of, v, high, position)
      ensures forall j :: 0 <= j < position ==> v[j] < bound
    {
      hide Encoded, Offsets.HigherBitsOffset, Offsets.LowerBits, OneAt, Stands, Shr, Offsets.Zeros, ZeroAt;
      EncodedInput(bits, of, v);
      var highLowerBound := Shr(bound, of.LowerBits());
      var curHigh := Shr(value, of.LowerBits());
      FewHighs(of, bound);
      if bound > value {
        ShrMonotone(value, bound, of.LowerBits());
      }
      var toSkip;
      ghost var m;
      if bound > value && Shr(highLowerBound - curHigh, of.logSampling0) == 0 {
        StandsAfter(bits, of, v, position);
        m := position + 1;
        toSkip := highLowerBound - curHigh;
      } else {
        var ptr := Shr(highLowerBound, of.logSampling0);
        ShiftAdjoint(ptr, highLowerBound, of.logSampling0);
        var highPos := FollowPointer0(ptr);
        high := Unary(of.HigherBitsOffset() + highPos, false);
        m := StandsAtZero(bits, of, v, high, Shl(ptr, of.logSampling0));
        toSkip := highLowerBound - Shl(ptr, of.logSampling0);
      }
      ghost var was := high;
      high := SkipZeros(bits, of, v, high, m, toSkip);
      Landed(bits, of, v, was, m, toSkip, high, bound);
      position := high.pos - of.HigherBitsOffset() - highLowerBound;
    }

    /** The loop of the slow path. */
    method ReadUntil(bound: nat)
      requires Encoded(bits, of, v) && position <= |v| && Stands(of, v, high, position)
      requires forall j :: 0 <= j < position ==> v[j] < bound
      requires bound < of.universe
      modifies this
      ensures Valid() && position == FirstGeq(v, bound, 0)
    {
      hide Encoded, Offsets.HigherBitsOffset, Offsets.LowerBits, Offsets.LowerBitsOffset, OneAt, Stands;
      EncodedInput(bits, of, v);
      var reader := NextReader(high, of.HigherBitsOffset() + position + 1,
        Slot(of.LowerBitsOffset(), position, of.LowerBits()));
      while true
        invariant position <= |v| && reader.At(bits, of, v, position)
        invariant forall j :: 0 <= j < position ==> v[j] < bound
        decreases |v| - position
      {
        if position == Size() {
          value := of.universe;
          break;
        }
        var val;
        reader, val := Read(bits, of, v, reader, position);
        if val >= bound {
          value := val;
          break;
        }
        position := position + 1;
      }
      high := reader.high;
      FirstGeqIs(v, bound, position);
    }
  }

  lemma StandsAtZero(bits: seq<bool>, of: Offsets, v: seq<nat>, u: Unary, k: nat) returns (m: nat)
    requires Encoded(bits, of, v) && k < of.Zeros() && u == Unary(ZeroAt(of, v, k), false)
    ensures m <= |v| && Stands(of, v, u, m) && ZeroRank(of, v, u, m) == k
  {
    hide Encoded, Offsets.HigherBitsOffset, Offsets.LowerBits, OneAt, Offsets.Zeros;
    ZeroBit(bits, of, v, k);
    m := FirstWithHigh(of, v, k, 0);
  }

  /** After skipping zeros the position follows from the distance to the start of the high part. */
  lemma Landed(bits: seq<bool>, of: Offsets, v: seq<nat>, u: Unary, m: nat, toSkip: nat, u': Unary, bound: nat)
    requires Encoded(bits, of, v) && bound < of.universe && m <= |v| && Stands(of, v, u, m)
    requires u.consumed ==> m > 0 && u.pos == OneAt(of, v, m - 1) && v[m - 1] < bound
    requires ZeroRank(of, v, u, m) + toSkip == Shr(bound, of.LowerBits())
    requires if u.consumed && toSkip == 0 then u' == u
      else u' == Unary(ZeroAt(of, v, Shr(bound, of.LowerBits())), false)
    ensures var position := u'.pos - of.HigherBitsOffset() - Shr(bound, of.LowerBits());
      && 0 <= position <= |v| && Stands(of, v, u', position)
      && forall j :: 0 <= j < position ==> v[j] < bound
  {
    hide HighBits, LowFields, Pointers0, Pointers1, Offsets.End, Offsets.HigherBitsOffset, Offsets.LowerBitsOffset,
      Offsets.Zeros, Offsets.LowerBits, Shr;
    var k := Shr(bound, of.LowerBits());
    FewHighs(of, bound);
    if u.consumed && toSkip == 0 {
      assert u'.pos - of.HigherBitsOffset() - k == m;
      assert forall j :: 0 <= j < m ==> v[j] <= v[m - 1];
    } else {
      ZeroBit(bits, of, v, k);
      forall j | 0 <= j < FirstWithHigh(of, v, k, 0)
        ensures v[j] < bound
      {
        if bound <= v[j] {
          ShrMonotone(bound, v[j], of.LowerBits());
        }
      }
    }
  }

  /** The high part of a bound below the universe is the rank of some zero. */
  lemma FewHighs(of: Offsets, bound: nat)
    requires bound <= of.universe
    ensures Shr(bound, of.LowerBits()) + 1 < of.Zeros()
  {
    ShrMonotone(bound, of.universe, of.LowerBits());
  }

  lemma OneFits(bits: seq<bool>, of: Offsets, v: seq<nat>, i: nat)
    requires Encoded(bits, of, v) && i < |v|
    ensures OneAt(of, v, i) >= of.HigherBitsOffset() + i + 1
  {
  }

  lemma StandsAfter(bits: seq<bool>, of: Offsets, v: seq<nat>, i: nat)
    requires Encoded(bits, of, v) && i < |v|
    ensures Stands(of, v, Unary(OneAt(of, v, i), true), i + 1)
  {
    AfterOne(bits, of, v, i);
  }
}
