/**
 * The cursor over a ranked bit vector (compact_ranked_bitvector.hpp, enumerator).
 *
 * The value at a position is the position of a set bit; searching for a value means counting the set
 * bits before it, word by word from the closest known rank.
 */
module RankedBitvectorEnumerator {
  import opened BitVector
  import opened MonotoneSequence
  import opened RankedBitvector
  import OneBits

  ghost function Ones(of: Offsets, v: seq<nat>): (r: seq<nat>)
    ensures |r| == |v| && forall i :: 0 <= i < |v| ==> r[i] == of.BitsOffset() + v[i]
  {
    seq(|v|, i requires 0 <= i < |v| => OneAt(of, v, i))
  }

  function OneAt(of: Offsets, v: seq<nat>, i: nat): nat
    requires i < |v|
  {
    of.BitsOffset() + v[i]
  }

  lemma EncodedOnes(bits: seq<bool>, of: Offsets, v: seq<nat>)
    requires Encoded(bits, of, v)
    ensures OneBits.OnesAre(bits, of.BitsOffset(), of.End(), Ones(of, v))
  {
    hide Pointers1, Samples, Bits, Ones, Offsets.BitsOffset, OneBits.IsOne;
    forall i | 0 <= i < |v|
      ensures of.BitsOffset() <= Ones(of, v)[i] < of.End() && bits[Ones(of, v)[i]]
    {
      ElementIsSet(bits, of, v, i);
    }
    forall p | of.BitsOffset() <= p < of.End() && bits[p]
      ensures OneBits.IsOne(Ones(of, v), p)
    {
      SetIsElement(bits, of, v, p);
    }
  }

  lemma ElementIsSet(bits: seq<bool>, of: Offsets, v: seq<nat>, i: nat)
    requires Encoded(bits, of, v) && i < |v|
    ensures of.BitsOffset() + v[i] < of.End() && bits[of.BitsOffset() + v[i]]
  {
    hide Pointers1, Samples, Offsets.BitsOffset;
    assert IsElement(v, |v|, of.BitsOffset() + v[i] - of.BitsOffset());
  }

  lemma SetIsElement(bits: seq<bool>, of: Offsets, v: seq<nat>, p: nat)
    requires Encoded(bits, of, v) && of.BitsOffset() <= p < of.End() && bits[p]
    ensures OneBits.IsOne(Ones(of, v), p)
  {
    hide Pointers1, Samples, Offsets.BitsOffset, Ones;
    var i :| 0 <= i < |v| && v[i] == p - of.BitsOffset();
    assert Ones(of, v)[i] == p;
  }

  lemma EncodedInput(bits: seq<bool>, of: Offsets, v: seq<nat>)
    requires Encoded(bits, of, v)
    ensures Fits(of, v) && Increasing(v) && of.n == |v|
  {
  }

  ghost predicate Stands(of: Offsets, v: seq<nat>, u: Unary, m: nat)
  {
    OneBits.After(of.BitsOffset(), of.End(), Ones(of, v), u.From(), m)
  }

  lemma StandsAfter(bits: seq<bool>, of: Offsets, v: seq<nat>, i: nat)
    requires Encoded(bits, of, v) && i < |v|
    ensures Stands(of, v, Unary(of.BitsOffset() + v[i], true), i + 1)
    ensures Stands(of, v, Unary(of.BitsOffset() + v[i], false), i)
  {
    hide Encoded, Ones, Offsets.BitsOffset, Offsets.End;
    EncodedInput(bits, of, v);
    EncodedOnes(bits, of, v);
    OneBits.AfterOne(bits, of.BitsOffset(), of.End(), Ones(of, v), i);
  }

  /** Before position x of the bit vector there are as many set bits as elements below x. */
  lemma StandsAtValue(bits: seq<bool>, of: Offsets, v: seq<nat>, x: nat)
    requires Encoded(bits, of, v) && x <= of.universe
    ensures Stands(of, v, Unary(of.BitsOffset() + x, false), FirstGeq(v, x, 0))
  {
    hide Bits, Pointers1, Samples, Ones, Offsets.BitsOffset;
  }

  method NextOne(bits: seq<bool>, of: Offsets, ghost v: seq<nat>, u: Unary, ghost m: nat) returns (u': Unary)
    requires Encoded(bits, of, v) && m < |v| && Stands(of, v, u, m)
    ensures u' == Unary(of.BitsOffset() + v[m], true) && Stands(of, v, u', m + 1)
  {
    hide Encoded, Ones, Offsets.BitsOffset, Offsets.End;
    EncodedInput(bits, of, v);
    EncodedOnes(bits, of, v);
    u' := OneBits.NextOne(bits, of.BitsOffset(), of.End(), Ones(of, v), u, m);
  }

  /**
   * The number of set bits in [begin, end), by words: the bits of the first word before begin and those
   * of the last word from end on are masked out.
   */
  method CountBits(bits: seq<bool>, begin: nat, end: nat) returns (count: nat)
    requires begin <= end <= |bits|
    ensures count == Rank(bits, end) - Rank(bits, begin)
  {
    hide Word, ShiftLeft, ShiftRight, Rank, Masked, Popcount;
    var beginWord, beginShift := begin / WORD, begin % WORD;
    var endWord, endShift := end / WORD, end % WORD;
    var word := ShiftLeft(ShiftRight(Word(bits, beginWord), beginShift), beginShift);
    count := 0;
    ghost var cur := begin;
    FirstWord(bits, beginWord, beginShift);
    while beginWord < endWord
      invariant WORD * beginWord <= cur <= end && cur < WORD * (beginWord + 1) && beginWord <= endWord
      invariant |word| == WORD && Masked(bits, beginWord, cur, word)
      invariant count == Rank(bits, cur) - Rank(bits, begin)
    {
      WholeWord(bits, beginWord, cur, word);
      count := count + Popcount(word);
      beginWord := beginWord + 1;
      word := Word(bits, beginWord);
      cur := WORD * beginWord;
      NextWord(bits, beginWord);
    }
    if endShift != 0 {
      var last := ShiftLeft(word, WORD - endShift);
      PartOfWord(bits, beginWord, cur, word, endShift);
      count := count + Popcount(last);
    }
  }

  /** word is the w-th word with the bits before position cur cleared. */
  ghost predicate Masked(bits: seq<bool>, w: nat, cur: nat, word: seq<bool>) {
    && |word| == WORD && WORD * w <= cur
    && forall k :: 0 <= k < WORD ==> word[k] == (WORD * w + k >= cur && WORD * w + k < |bits| && bits[WORD * w + k])
  }

  lemma FirstWord(bits: seq<bool>, w: nat, shift: nat)
    requires shift < WORD
    ensures Masked(bits, w, WORD * w + shift, ShiftLeft(ShiftRight(Word(bits, w), shift), shift))
  {
    hide Word, ShiftLeft, ShiftRight;
  }

  lemma NextWord(bits: seq<bool>, w: nat)
    ensures Masked(bits, w, WORD * w, Word(bits, w))
  {
    hide Word;
  }

  lemma WholeWord(bits: seq<bool>, w: nat, cur: nat, word: seq<bool>)
    requires Masked(bits, w, cur, word) && cur <= WORD * (w + 1) <= |bits|
    ensures Popcount(word) == Rank(bits, WORD * (w + 1)) - Rank(bits, cur)
  {
    RankOfPart(word, cur - WORD * w, bits, cur, WORD * (w + 1));
  }

  lemma PartOfWord(bits: seq<bool>, w: nat, cur: nat, word: seq<bool>, shift: nat)
    requires Masked(bits, w, cur, word) && shift <= WORD && cur <= WORD * w + shift <= |bits|
    ensures Popcount(ShiftLeft(word, WORD - shift)) == Rank(bits, WORD * w + shift) - Rank(bits, cur)
  {
    hide ShiftLeft;
    RankOfPart(ShiftLeft(word, WORD - shift), WORD - shift + (cur - WORD * w), bits, cur, WORD * w + shift);
  }

  const LINEAR_SCAN_THRESHOLD := 8

  class Enumerator {
    const bits: seq<bool>
    const of: Offsets
    ghost const v: seq<nat>
    var position: nat
    var value: nat
    var enumerator: Unary

    ghost predicate Valid()
      reads this
    {
      && Encoded(bits, of, v) && position <= |v|
      && value == ValueAt(position)
      && (position < |v| ==> enumerator == Unary(of.BitsOffset() + v[position], true))
    }

    /** The elements, followed by the universe. */
    ghost function ValueAt(i: nat): nat {
      if i < |v| then v[i] else of.universe
    }

    constructor (bits: seq<bool>, offset: nat, universe: nat, n: nat, logRank1Sampling: nat, logSampling1: nat,
                 ghost v: seq<nat>)
      requires Encoded(bits, Offsets(offset, universe, n, logRank1Sampling, logSampling1), v)
      ensures Valid() && this.v == v && position == n && of.universe == universe
      ensures this.bits == bits && of == Offsets(offset, universe, n, logRank1Sampling, logSampling1)
    {
      this.bits, this.v := bits, v;
      of := Offsets(offset, universe, n, logRank1Sampling, logSampling1);
      position, value, enumerator := n, universe, Unary(0, false);
      new;
      EncodedInput(bits, of, v);
    }

    function Size(): nat {
      of.n
    }

    /** Reads the element at `position` with the enumerator standing before it. */
    method ReadNext()
      requires Encoded(bits, of, v) && position < |v| && Stands(of, v, enumerator, position)
      modifies this`enumerator, this`value
      ensures Valid()
    {
      hide Encoded, Offsets.BitsOffset, Stands;
      EncodedInput(bits, of, v);
      enumerator := NextOne(bits, of, v, enumerator, position);
      value := enumerator.pos - of.BitsOffset();
    }

    /** Any position up to the size can be visited, forwards or backwards. */
    method Move(to: nat) returns (pos: nat, val: nat)
      requires Valid() && to <= |v|
      modifies this
      ensures Valid() && position == to && pos == to && val == ValueAt(to)
    {
      hide Encoded, Offsets.BitsOffset, Stands;
      EncodedInput(bits, of, v);
      if to == position {
        return position, value;
      }
      if to > position && to - position <= LINEAR_SCAN_THRESHOLD {
        SmallMove(to);
        return position, value;
      }
      pos, val := SlowMove(to);
    }

    method SmallMove(to: nat)
      requires Valid() && position < to <= |v|
      modifies this
      ensures Valid() && position == to
    {
      hide Encoded, Offsets.BitsOffset, Stands, Increasing;
      EncodedInput(bits, of, v);
      var skip := to - position;
      ghost var from := position;
      position := to;
      if position == Size() {
        value := of.universe;
      } else {
        var he := enumerator;
        StandsAfter(bits, of, v, from);
        for i := 0 to skip
          invariant position == to && Stands(of, v, he, from + 1 + i)
          invariant i > 0 ==> he == Unary(of.BitsOffset() + v[from + i], true)
        {
          he := NextOne(bits, of, v, he, from + 1 + i);
        }
        value := he.pos - of.BitsOffset();
        enumerator := he;
      }
    }

    method SlowMove(to: nat) returns (pos: nat, val: nat)
      requires Valid() && to <= |v| && to != position
      modifies this
      ensures Valid() && position == to && pos == to && val == ValueAt(to)
    {
      hide Encoded, Offsets.BitsOffset, Stands, Offsets.End, Ones;
      EncodedInput(bits, of, v);
      if to == Size() {
        position := to;
        value := of.universe;
        return position, value;
      }
      var toSkip;
      ghost var m;
      if to > position && Shr(to - position, of.logSampling1) == 0 {
        toSkip := to - position - 1;
        m := position + 1;
        StandsAfter(bits, of, v, position);
      } else {
        var ptr := Shr(to, of.logSampling1);
        ShiftAdjoint(ptr, to, of.logSampling1);
        var ptrPos := FollowPointer1(ptr);
        enumerator := Unary(of.BitsOffset() + ptrPos, false);
        toSkip := to - Shl(ptr, of.logSampling1);
        m := Shl(ptr, of.logSampling1);
      }
      SkipOnes(m, toSkip);
      position := to;
      ReadNext();
      return position, value;
    }

    method SkipOnes(ghost m: nat, toSkip: nat)
      requires Encoded(bits, of, v) && m + toSkip < |v| && Stands(of, v, enumerator, m)
      modifies this`enumerator
      ensures Stands(of, v, enumerator, m + toSkip)
    {
      hide Encoded, Offsets.BitsOffset, Ones, Offsets.End;
      EncodedOnes(bits, of, v);
      enumerator := OneBits.SkipOnes(bits, of.BitsOffset(), of.End(), Ones(of, v), enumerator, m, toSkip);
    }

    /** pointer1: the stored pointer, or the start of the bits. */
    method FollowPointer1(ptr: nat) returns (ptrPos: nat)
      requires Encoded(bits, of, v) && Shl(ptr, of.logSampling1) < |v|
      ensures Stands(of, v, Unary(of.BitsOffset() + ptrPos, false), Shl(ptr, of.logSampling1))
    {
      hide Offsets.PointerSize, Offsets.Pointers1Offset, Offsets.BitsOffset, Bits, Samples, Ones;
      if ptr == 0 {
        ShlOne(of.logSampling1);
        ptrPos := 0;
      } else {
        assert Pointer1(bits, of, v, ptr);
        StandsAfter(bits, of, v, Shl(ptr, of.logSampling1));
        ptrPos := Field(bits, Slot(of.Pointers1Offset(), ptr - 1, of.PointerSize()), of.PointerSize());
      }
    }

    /** rank1_sample: the stored rank, or none before the start. */
    method FollowSample(block: nat) returns (rank: nat)
      requires Encoded(bits, of, v) && Shl(block, of.logRank1Sampling) < of.universe
      ensures rank == FirstGeq(v, Shl(block, of.logRank1Sampling), 0)
    {
      hide Offsets.Rank1SampleSize, Offsets.Rank1SamplesOffset, Bits, Pointers1;
      if block == 0 {
        ShlOne(of.logRank1Sampling);
        rank := 0;
      } else {
        assert Sample(bits, of, v, block);
        rank := Field(bits, Slot(of.Rank1SamplesOffset(), block - 1, of.Rank1SampleSize()), of.Rank1SampleSize());
      }
    }

    /** next must not be called past the end. */
    method Next() returns (pos: nat, val: nat)
      requires Valid() && position < |v|
      modifies this
      ensures Valid() && position == old(position) + 1 && pos == position && val == ValueAt(position)
    {
      hide Encoded, Offsets.BitsOffset, Stands;
      EncodedInput(bits, of, v);
      StandsAfter(bits, of, v, position);
      position := position + 1;
      if position < Size() {
        ReadNext();
      } else {
        value := of.universe;
      }
      return position, value;
    }

    /** The element before the current one, or 0 if there is none. */
    method PrevValue() returns (prev: nat)
      requires Valid()
      ensures prev == if position == 0 then 0 else v[position - 1]
    {
      hide Encoded, Offsets.BitsOffset, Ones, Fits, Increasing;
      if position == 0 {
        return 0;
      }
      EncodedInput(bits, of, v);
      EncodedOnes(bits, of, v);
      ghost var lo, hi := of.BitsOffset(), of.End();
      OneBits.AfterOne(bits, lo, hi, Ones(of, v), position - 1);
      var pos;
      if position < Size() {
        OneBits.AfterOne(bits, lo, hi, Ones(of, v), position);
        pos := OneBits.PreviousOne(bits, lo, hi, Ones(of, v), enumerator.pos - 1, position);
      } else {
        pos := OneBits.PreviousOne(bits, lo, hi, Ones(of, v), of.End() - 1, position);
      }
      prev := pos - of.BitsOffset();
    }

    /** Only past the end does next_geq take the scanning path with nothing left to scan. */
    ghost predicate Overruns(bound: nat)
      reads this
    {
      position == |v| && of.universe < bound <= of.universe + LINEAR_SCAN_THRESHOLD
    }

    /** The first element that is at least the bound, from wherever the cursor is. */
    method NextGeq(bound: nat) returns (pos: nat, val: nat)
      requires Valid()
      modifies this
      ensures pos == position && val == value
      ensures old(Overruns(bound)) ==> position == |v| + 1 && val == of.universe
      ensures !old(Overruns(bound)) ==> Valid() && position == FirstGeq(v, bound, 0)
    {
      hide Encoded, Offsets.BitsOffset, Stands;
      EncodedInput(bits, of, v);
      if bound == value {
        FirstGeqIs(v, bound, position);
        return position, value;
      }
      if bound > value && bound - value <= LINEAR_SCAN_THRESHOLD {
        Scan(bound);
      } else {
        SlowNextGeq(bound);
      }
      return position, value;
    }

    /** The loop of the fast path: read until the bound is reached or nothing is left. */
    method Scan(bound: nat)
      requires Valid() && bound > value
      modifies this
      ensures old(position) == |v| ==> position == |v| + 1 && value == of.universe
      ensures old(position) < |v| ==> Valid() && position == FirstGeq(v, bound, 0)
    {
      hide Encoded, Offsets.BitsOffset, Stands, FirstGeq;
      EncodedInput(bits, of, v);
      ghost var from := position;
      var he := enumerator;
      if position < |v| {
        StandsAfter(bits, of, v, position);
      }
      var val: nat;
      while true
        invariant from <= position && (from < |v| ==> position < |v|) && (from == |v| ==> position == from)
        invariant forall j :: 0 <= j <= position && j < |v| ==> v[j] < bound
        invariant position < |v| ==> Stands(of, v, he, position + 1)
        decreases |v| - position
      {
        position := position + 1;
        if position < Size() {
          he := NextOne(bits, of, v, he, position);
          val := he.pos - of.BitsOffset();
        } else {
          val := of.universe;
          break;
        }
        if !(val < bound) {
          break;
        }
      }
      value := val;
      enumerator := he;
      if from < |v| {
        FirstGeqIs(v, bound, position);
      }
    }

    /** Counts the elements before the bound by words, from the current element or from a sample. */
    method SlowNextGeq(bound: nat)
      requires Valid() && bound != value
      modifies this
      ensures Valid() && position == FirstGeq(v, bound, 0)
    {
      hide Encoded, Offsets.BitsOffset, Stands, Fits, Increasing, FirstGeq, Rank, Shr, Shl, Offsets.End;
      EncodedInput(bits, of, v);
      if bound >= of.universe {
        var _, _ := Move(Size());
        AllBelow(of, v, bound);
        return;
      }
      enumerator := Unary(of.BitsOffset() + bound, false);
      StandsAtValue(bits, of, v, bound);
      var begin: nat;
      if bound > value && Shr(bound - value, of.logRank1Sampling) == 0 {
        begin := value;
        BelowElement(of, v, position);
      } else {
        var block := Shr(bound, of.logRank1Sampling);
        ShiftAdjoint(block, bound, of.logRank1Sampling);
        position := FollowSample(block);
        begin := Shl(block, of.logRank1Sampling);
      }
      RanksOf(bits, of, v, begin);
      RanksOf(bits, of, v, bound);
      var counted := CountBits(bits, of.BitsOffset() + begin, of.BitsOffset() + bound);
      position := position + counted;
      if position < Size() {
        ReadNext();
      } else {
        value := of.universe;
      }
    }
  }

  lemma AllBelow(of: Offsets, v: seq<nat>, bound: nat)
    requires Fits(of, v) && bound >= of.universe
    ensures FirstGeq(v, bound, 0) == |v|
  {
    FirstGeqIs(v, bound, |v|);
  }

  lemma BelowElement(of: Offsets, v: seq<nat>, i: nat)
    requires Increasing(v) && i < |v|
    ensures FirstGeq(v, v[i], 0) == i
  {
    FirstGeqIs(v, v[i], i);
  }

  /** The rank of position x tells how many elements are below x. */
  lemma RanksOf(bits: seq<bool>, of: Offsets, v: seq<nat>, x: nat)
    requires Encoded(bits, of, v) && x <= of.universe
    ensures of.BitsOffset() + x <= |bits|
    ensures Rank(bits, of.BitsOffset() + x) == Rank(bits, of.BitsOffset()) + FirstGeq(v, x, 0)
  {
    hide Bits, Pointers1, Samples, Ones, Offsets.BitsOffset;
    EncodedOnes(bits, of, v);
    StandsAtValue(bits, of, v, x);
    OneBits.RankAt(bits, of.BitsOffset(), of.End(), Ones(of, v), of.BitsOffset() + x, FirstGeq(v, x, 0));
  }
}
