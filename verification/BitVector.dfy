/**
 * Bit vectors and the primitives on them that the compressed sequences rely on.
 *
 * Little-endian fields, the builder, and the enumerator over set bits. Positions count bits from the
 * start, the least significant bit of a field first.
 */
module BitVector {
  // x << l, x >> l, and the l lowest bits of x
  function Shl(x: nat, l: nat): nat {
    if l == 0 then x else 2 * Shl(x, l - 1)
  }

  function Shr(x: nat, l: nat): nat {
    if l == 0 then x else Shr(x / 2, l - 1)
  }

  function Low(x: nat, l: nat): nat {
    if l == 0 then 0 else x % 2 + 2 * Low(x / 2, l - 1)
  }

  function Pow2(k: nat): (r: nat)
    ensures r > 0
  {
    if k == 0 then 1 else 2 * Pow2(k - 1)
  }

  lemma {:induction false} Pow2Monotone(a: nat, b: nat)
    requires a <= b
    ensures Pow2(a) <= Pow2(b)
    decreases b
  {
    if a < b {
      Pow2Monotone(a, b - 1);
    }
  }

  /** A number consists of its high and its low part. */
  lemma {:induction false} SplitBits(x: nat, l: nat)
    ensures x == Shl(Shr(x, l), l) + Low(x, l) && Low(x, l) < Pow2(l)
  {
    if l > 0 {
      SplitBits(x / 2, l - 1);
    }
  }

  lemma {:induction false} ShlSum(x: nat, y: nat, l: nat)
    ensures Shl(x + y, l) == Shl(x, l) + Shl(y, l)
  {
    if l > 0 {
      ShlSum(x, y, l - 1);
    }
  }

  lemma {:induction false} ShlOne(l: nat)
    ensures Shl(1, l) == Pow2(l) && Shl(0, l) == 0
  {
    if l > 0 {
      ShlOne(l - 1);
    }
  }

  lemma ShlNext(x: nat, l: nat)
    ensures Shl(x + 1, l) == Shl(x, l) + Pow2(l)
  {
    ShlSum(x, 1, l);
    ShlOne(l);
  }

  /** Shifting left and right are adjoint. */
  lemma {:induction false} ShiftAdjoint(k: nat, x: nat, l: nat)
    ensures Shl(k, l) <= x <==> k <= Shr(x, l)
  {
    if l > 0 {
      ShiftAdjoint(k, x / 2, l - 1);
    }
  }

  lemma ShrIsQuotient(x: nat, l: nat)
    ensures Shl(Shr(x, l), l) <= x < Shl(Shr(x, l) + 1, l)
  {
    ShiftAdjoint(Shr(x, l), x, l);
    ShiftAdjoint(Shr(x, l) + 1, x, l);
  }

  lemma {:induction false} ShrMonotone(x: nat, y: nat, l: nat)
    requires x <= y
    ensures Shr(x, l) <= Shr(y, l)
  {
    if l > 0 {
      ShrMonotone(x / 2, y / 2, l - 1);
    }
  }

  lemma {:induction false} ShlMonotone(x: nat, y: nat, l: nat)
    ensures x <= y <==> Shl(x, l) <= Shl(y, l)
  {
    if l > 0 {
      ShlMonotone(x, y, l - 1);
    }
  }

  /** ceil_div by a power of two. */
  function CeilShr(x: nat, l: nat): nat {
    Shr(x + Pow2(l) - 1, l)
  }

  lemma CeilShrIsLeast(x: nat, l: nat)
    ensures Shl(CeilShr(x, l), l) >= x && (CeilShr(x, l) > 0 ==> Shl(CeilShr(x, l) - 1, l) < x)
  {
    var r := CeilShr(x, l);
    ShiftAdjoint(r, x + Pow2(l) - 1, l);
    ShiftAdjoint(r + 1, x + Pow2(l) - 1, l);
    ShlNext(r, l);
    if r > 0 {
      ShlNext(r - 1, l);
    }
  }

  lemma {:induction false} ShlAtLeast(x: nat, l: nat)
    ensures Shl(x, l) >= x
  {
    if l > 0 {
      ShlAtLeast(x, l - 1);
    }
  }

  /** A number is a multiple of 2^log exactly if its low bits vanish. */
  lemma SampledIf(m: nat, log: nat)
    ensures (Low(m, log) == 0 <==> Shl(Shr(m, log), log) == m) && (forall q :: Shl(q, log) == m ==> q == Shr(m, log))
    ensures m > 0 && Low(m, log) == 0 ==> Shr(m, log) >= 1
  {
    SplitBits(m, log);
    forall q | Shl(q, log) == m
      ensures q == Shr(m, log)
    {
      ShiftAdjoint(q, m, log);
      ShlMonotone(Shr(m, log), q, log);
    }
    if Low(m, log) == 0 && Shr(m, log) == 0 {
      ShlOne(log);
    }
  }

  /** The index of the most significant bit. */
  function Msb(x: nat): (r: nat)
    requires x > 0
    ensures Pow2(r) <= x < 2 * Pow2(r)
  {
    if x == 1 then 0 else Msb(x / 2) + 1
  }

  function CeilLog2(x: nat): (r: nat)
    ensures x <= Pow2(r)
  {
    if x > 1 then Msb(x - 1) + 1 else 0
  }

  /** It is the least number of bits that tell x numbers apart. */
  lemma CeilLog2IsLeast(x: nat, r: nat)
    ensures x <= Pow2(r) <==> CeilLog2(x) <= r
  {
    if x > 1 && r < CeilLog2(x) {
      Pow2Monotone(r, CeilLog2(x) - 1);
    } else if CeilLog2(x) <= r {
      Pow2Monotone(CeilLog2(x), r);
    }
  }

  // ---------------------------------------------------------------------------------------------
  // Fields, least significant bit first

  function ToNat(s: seq<bool>): (r: nat)
    ensures r < Pow2(|s|)
  {
    if s == [] then 0 else (if s[0] then 1 else 0) + 2 * ToNat(s[1..])
  }

  function ToBits(x: nat, len: nat): (s: seq<bool>)
    ensures |s| == len
  {
    if len == 0 then [] else [x % 2 == 1] + ToBits(x / 2, len - 1)
  }

  /** A number that fits survives being written as bits. */
  lemma {:induction false} ToNatToBits(x: nat, len: nat)
    requires x < Pow2(len)
    ensures ToNat(ToBits(x, len)) == x
  {
    if len > 0 {
      ToNatToBits(x / 2, len - 1);
    }
  }

  lemma {:induction false} ToBitsSplit(x: nat, a: nat, b: nat)
    ensures ToBits(x, a + b) == ToBits(x, a) + ToBits(Shr(x, a), b)
  {
    if a > 0 {
      ToBitsSplit(x / 2, a - 1, b);
    }
  }

  /** Only the low bits matter. */
  lemma {:induction false} ToBitsLow(x: nat, len: nat)
    ensures ToBits(Low(x, len), len) == ToBits(x, len)
  {
    if len > 0 {
      ToBitsLow(x / 2, len - 1);
    }
  }

  /** Putting x on top of the p bits of w. */
  lemma {:induction false} JoinBits(w: nat, x: nat, p: nat, q: nat)
    requires w < Pow2(p)
    ensures ToBits(w + Shl(x, p), p + q) == ToBits(w, p) + ToBits(x, q)
    ensures x < Pow2(q) ==> w + Shl(x, p) < Pow2(p + q)
  {
    if p > 0 {
      JoinBits(w / 2, x, p - 1, q);
    }
  }

  lemma {:induction false} LowShl(x: nat, p: nat, q: nat)
    ensures Low(Shl(x, p), p + q) == Shl(Low(x, q), p)
  {
    if p > 0 {
      LowShl(x, p - 1, q);
    }
  }

  lemma {:induction false} ShrFits(x: nat, a: nat, b: nat)
    requires x < Pow2(a + b)
    ensures Shr(x, a) < Pow2(b)
  {
    if a > 0 {
      ShrFits(x / 2, a - 1, b);
    }
  }

  lemma {:induction false} LowFits(x: nat, len: nat)
    ensures Low(x, len) < Pow2(len) && (x < Pow2(len) ==> Low(x, len) == x)
  {
    if len > 0 {
      LowFits(x / 2, len - 1);
    }
  }

  lemma {:induction false} ToNatConcat(s: seq<bool>, t: seq<bool>)
    ensures ToNat(s + t) == ToNat(s) + Shl(ToNat(t), |s|)
  {
    if s == [] {
      assert s + t == t;
    } else {
      assert (s + t)[1..] == s[1..] + t;
      ToNatConcat(s[1..], t);
    }
  }

  /** The low bits of a number are its first bits, the high bits the others. */
  lemma {:induction false} ToNatSplit(s: seq<bool>, len: nat)
    requires len <= |s|
    ensures Low(ToNat(s), len) == ToNat(s[..len]) && Shr(ToNat(s), len) == ToNat(s[len..])
  {
    if len == 0 {
      assert s[0..] == s;
    } else {
      var tail := s[1..];
      ToNatSplit(tail, len - 1);
      ToNatFront(s);
      ToNatFront(s[..len]);
      assert s[..len][1..] == tail[..len - 1];
      assert s[len..] == tail[len - 1..];
    }
  }

  lemma ToNatFront(s: seq<bool>)
    requires s != []
    ensures ToNat(s) % 2 == (if s[0] then 1 else 0) && ToNat(s) / 2 == ToNat(s[1..])
  {
  }

  /** The start of the k-th of consecutive fields of one width. */
  function Slot(offset: nat, k: nat, width: nat): nat {
    if k == 0 then offset else Slot(offset, k - 1, width) + width
  }

  lemma {:induction false} SlotMonotone(offset: nat, k: nat, m: nat, width: nat)
    requires k <= m
    ensures Slot(offset, k, width) <= Slot(offset, m, width)
    ensures k < m ==> Slot(offset, k, width) + width <= Slot(offset, m, width)
    decreases m
  {
    if k < m {
      SlotMonotone(offset, k, m - 1, width);
    }
  }

  function Field(bits: seq<bool>, pos: nat, len: nat): (r: nat)
    requires pos + len <= |bits|
    ensures r < Pow2(len)
  {
    ToNat(bits[pos..pos + len])
  }

  /** The two sequences agree outside positions a to b. */
  ghost predicate SameExcept<T>(bits: seq<T>, bits': seq<T>, a: nat, b: nat) {
    |bits'| == |bits| && forall k :: 0 <= k < |bits| && !(a <= k < b) ==> bits'[k] == bits[k]
  }

  lemma FieldUntouched(bits: seq<bool>, bits': seq<bool>, a: nat, b: nat, pos: nat, len: nat)
    requires SameExcept(bits, bits', a, b) && pos + len <= |bits|
    requires pos + len <= a || b <= pos
    ensures Field(bits', pos, len) == Field(bits, pos, len)
  {
    assert bits'[pos..pos + len] == bits[pos..pos + len];
  }

  lemma Extended(bits: seq<bool>, base: nat, n: nat)
    requires base == |bits|
    ensures var bits' := bits + seq(n, _ => false);
      |bits'| == base + n && bits'[..base] == bits && forall p :: base <= p < |bits'| ==> !bits'[p]
  {
  }

  lemma KeepsPrefix(bits: seq<bool>, bits': seq<bool>, base: nat, end: nat, prefix: seq<bool>)
    requires base == |prefix| <= |bits| && SameExcept(bits, bits', base, end) && bits[..base] == prefix
    ensures bits'[..base] == prefix
  {
    assert forall k :: 0 <= k < base ==> bits'[k] == bits[k] == prefix[k];
  }

  /** The len bits at position a also stand in the other bit vector, at position b. */
  ghost predicate Moved(bits: seq<bool>, a: nat, bits': seq<bool>, b: nat, len: nat) {
    a + len <= |bits| && b + len <= |bits'| && bits'[b..b + len] == bits[a..a + len]
  }

  lemma MovedBit(bits: seq<bool>, a: nat, bits': seq<bool>, b: nat, len: nat, k: nat)
    requires Moved(bits, a, bits', b, len) && k < len
    ensures bits'[b + k] == bits[a + k]
  {
    assert bits'[b..b + len][k] == bits[a..a + len][k];
  }

  lemma MovedField(bits: seq<bool>, a: nat, bits': seq<bool>, b: nat, len: nat, k: nat, width: nat)
    requires Moved(bits, a, bits', b, len) && k + width <= len
    ensures Field(bits', b + k, width) == Field(bits, a + k, width)
  {
    hide ToNat;
    SliceOfSlice(bits', b, len, k, width);
    SliceOfSlice(bits, a, len, k, width);
  }

  lemma MovedInside(bits: seq<bool>, a: nat, bits': seq<bool>, b: nat, len: nat)
    requires Moved(bits, a, bits', b, len)
    ensures a + len <= |bits| && b + len <= |bits'|
  {
  }

  /** The part stands at the position. */
  ghost predicate StandsAt<T>(s: seq<T>, pos: nat, part: seq<T>) {
    pos + |part| <= |s| && s[pos..pos + |part|] == part
  }

  lemma StandsInParts<T>(s: seq<T>, pos: nat, a: seq<T>, b: seq<T>)
    requires StandsAt(s, pos, a + b)
    ensures StandsAt(s, pos, a) && StandsAt(s, pos + |a|, b)
  {
    SliceOfSlice(s, pos, |a + b|, 0, |a|);
    SliceOfSlice(s, pos, |a + b|, |a|, |b|);
    assert (a + b)[0..|a|] == a && (a + b)[|a|..|a| + |b|] == b;
  }

  lemma StillStandsAt<T>(s: seq<T>, s': seq<T>, pos: nat, part: seq<T>)
    requires StandsAt(s, pos, part) && s <= s'
    ensures StandsAt(s', pos, part)
  {
    assert s'[pos..pos + |part|] == s[pos..pos + |part|];
  }

  lemma Appended<T>(s: seq<T>, part: seq<T>)
    ensures StandsAt(s + part, |s|, part)
  {
  }

  lemma SliceOfSlice<T>(s: seq<T>, at: nat, len: nat, k: nat, width: nat)
    requires at + len <= |s| && k + width <= len
    ensures s[at..at + len][k..k + width] == s[at + k..at + k + width]
  {
    var l, r := s[at..at + len][k..k + width], s[at + k..at + k + width];
    assert |l| == |r|;
    forall i | 0 <= i < |l|
      ensures l[i] == r[i]
    {
    }
  }

  /** Slots keep their distance from the first one. */
  lemma {:induction false} SlotShift(offset: nat, offset': nat, k: nat, width: nat)
    ensures Slot(offset', k, width) - offset' == Slot(offset, k, width) - offset
  {
    if k > 0 {
      SlotShift(offset, offset', k - 1, width);
    }
  }

  // ---------------------------------------------------------------------------------------------
  // The builder

  class BitVectorBuilder {
    var bits: seq<bool>

    constructor ()
      ensures bits == []
    {
      bits := [];
    }

    method AppendBits(x: nat, len: nat)
      requires x < Pow2(len)
      modifies this
      ensures bits == old(bits) + ToBits(x, len)
      ensures Field(bits, |old(bits)|, len) == x
    {
      ToNatToBits(x, len);
      bits := bits + ToBits(x, len);
      assert bits[|old(bits)|..|old(bits)| + len] == ToBits(x, len);
    }

    method ZeroExtend(n: nat)
      modifies this
      ensures bits == old(bits) + seq(n, _ => false)
    {
      bits := bits + seq(n, _ => false);
    }

    method Append(other: seq<bool>)
      modifies this
      ensures bits == old(bits) + other
    {
      bits := bits + other;
    }

    method Set(pos: nat)
      requires pos < |bits|
      modifies this
      ensures bits == old(bits)[pos := true]
    {
      bits := bits[pos := true];
    }

    method SetBits(pos: nat, x: nat, len: nat)
      requires pos + len <= |bits| && x < Pow2(len)
      modifies this
      ensures SameExcept(old(bits), bits, pos, pos + len) && Field(bits, pos, len) == x
    {
      ToNatToBits(x, len);
      ghost var was := bits;
      bits := bits[..pos] + ToBits(x, len) + bits[pos + len..];
      assert bits[pos..pos + len] == ToBits(x, len);
      forall k | 0 <= k < |was| && !(pos <= k < pos + len)
        ensures bits[k] == was[k]
      {
      }
    }
  }

  // ---------------------------------------------------------------------------------------------
  // Rank, and the enumerator over set bits

  /** The number of set bits before p. */
  function Rank(bits: seq<bool>, p: nat): nat
    requires p <= |bits|
  {
    if p == 0 then 0 else Rank(bits, p - 1) + if bits[p - 1] then 1 else 0
  }

  lemma {:induction false} RankMonotone(bits: seq<bool>, p: nat, q: nat)
    requires p <= q <= |bits|
    ensures Rank(bits, p) <= Rank(bits, q) <= Rank(bits, p) + (q - p)
    decreases q
  {
    if p < q {
      RankMonotone(bits, p, q - 1);
    }
  }

  /** A set bit is determined by its rank, a clear bit by its rank among the clear ones. */
  lemma RankDetermines(bits: seq<bool>, p: nat, q: nat)
    requires p < |bits| && q < |bits| && bits[p] == bits[q]
    requires if bits[p] then Rank(bits, p) == Rank(bits, q) else p - Rank(bits, p) == q - Rank(bits, q)
    ensures p == q
  {
    if p < q {
      RankMonotone(bits, p + 1, q);
    } else if q < p {
      RankMonotone(bits, q + 1, p);
    }
  }

  // ---------------------------------------------------------------------------------------------
  // Words

  const WORD := 64

  /** The w-th word of the data; bits past the end are clear. */
  function Word(bits: seq<bool>, w: nat): (r: seq<bool>)
    ensures |r| == WORD && forall k :: 0 <= k < WORD ==> r[k] == (WORD * w + k < |bits| && bits[WORD * w + k])
  {
    seq(WORD, k requires 0 <= k => WORD * w + k < |bits| && bits[WORD * w + k])
  }

  function Popcount(word: seq<bool>): nat {
    Rank(word, |word|)
  }

  /** Shifts towards the most significant bit, the end of the sequence. */
  function ShiftLeft(word: seq<bool>, s: nat): (r: seq<bool>)
    requires s <= |word|
    ensures |r| == |word| && forall k :: 0 <= k < |word| ==> r[k] == (k >= s && word[k - s])
  {
    seq(s, _ => false) + word[..|word| - s]
  }

  function ShiftRight(word: seq<bool>, s: nat): (r: seq<bool>)
    requires s <= |word|
    ensures |r| == |word| && forall k :: 0 <= k < |word| ==> r[k] == (k + s < |word| && word[k + s])
  {
    word[s..] + seq(s, _ => false)
  }

  /** A part of the bit vector, with clear bits before it, has as many set bits as the ranks of its ends say. */
  lemma {:induction false} RankOfPart(part: seq<bool>, at: nat, bits: seq<bool>, from: nat, to: nat)
    requires from <= to <= |bits| && at + (to - from) <= |part|
    requires forall k :: 0 <= k < at ==> !part[k]
    requires forall k :: at <= k < at + (to - from) ==> part[k] == bits[from + (k - at)]
    ensures Rank(part, at + (to - from)) == Rank(bits, to) - Rank(bits, from)
    decreases at + (to - from)
  {
    if from < to {
      assert part[at + (to - from) - 1] == bits[to - 1];
      RankOfPart(part, at, bits, from, to - 1);
    } else if at > 0 {
      RankOfPart(part, at - 1, bits, from, to);
    }
  }

  /** A position in a bit vector; once consumed, the set bit at that position looks like a zero. */
  datatype Unary = Unary(pos: nat, consumed: bool) {
    /** The first position that can still yield a set bit. */
    function From(): nat {
      if consumed then pos + 1 else pos
    }

    ghost predicate Valid(bits: seq<bool>) {
      From() <= |bits|
    }
  }

  /** Moves to the next set bit and consumes it. */
  method Next(bits: seq<bool>, u: Unary) returns (u': Unary)
    requires u.Valid(bits) && Rank(bits, u.From()) < Rank(bits, |bits|)
    ensures u'.consumed && u'.pos < |bits| && bits[u'.pos]
    ensures Rank(bits, u'.pos) == Rank(bits, u.From())
  {
    var p := u.From();
    while !bits[p]
      invariant p < |bits| && Rank(bits, p) == Rank(bits, u.From())
      decreases |bits| - p
    {
      p := p + 1;
    }
    u' := Unary(p, true);
  }

  /** Skips k set bits and stops at the one after them, without consuming it. */
  method Skip(bits: seq<bool>, u: Unary, k: nat) returns (u': Unary)
    requires u.Valid(bits) && Rank(bits, u.From()) + k < Rank(bits, |bits|)
    ensures !u'.consumed && u'.pos < |bits| && bits[u'.pos]
    ensures Rank(bits, u'.pos) == Rank(bits, u.From()) + k
  {
    var p := u.From();
    var skipped := 0;
    while skipped < k || !bits[p]
      invariant p < |bits| && skipped <= k && Rank(bits, p) == Rank(bits, u.From()) + skipped
      decreases |bits| - p
    {
      if bits[p] {
        skipped := skipped + 1;
      }
      p := p + 1;
    }
    u' := Unary(p, false);
  }

  /** Skips k zeros and stops at the one after them; a consumed bit counts as a zero. */
  method Skip0(bits: seq<bool>, u: Unary, k: nat) returns (u': Unary)
    requires u.Valid(bits) && u.pos < |bits| && (u.consumed ==> bits[u.pos])
    requires k < |bits| - u.pos - (Rank(bits, |bits|) - Rank(bits, u.From()))
    ensures u.pos <= u'.pos < |bits| && u'.consumed == (u.consumed && u'.pos == u.pos)
    ensures bits[u'.pos] ==> u'.consumed
    ensures u'.consumed ==> k == 0
    ensures !u'.consumed ==> u'.pos >= u.From() && u'.pos - u.pos - (Rank(bits, u'.pos) - Rank(bits, u.From())) == k
  {
    if u.consumed && k == 0 {
      return u;
    }
    var p := u.From();
    var skipped := if u.consumed then 1 else 0;
    while skipped < k || bits[p]
      invariant u.From() <= p < |bits| && skipped <= k
      invariant p - u.pos - (Rank(bits, p) - Rank(bits, u.From())) == skipped
      decreases |bits| - p
    {
      if !bits[p] {
        skipped := skipped + 1;
      }
      p := p + 1;
    }
    u' := Unary(p, false);
  }

  /** The last set bit at or before p. */
  method Predecessor1(bits: seq<bool>, p: nat) returns (r: nat)
    requires p < |bits| && Rank(bits, p + 1) > 0
    ensures r <= p && bits[r] && Rank(bits, r + 1) == Rank(bits, p + 1)
  {
    r := p;
    while !bits[r]
      invariant r <= p && Rank(bits, r + 1) == Rank(bits, p + 1)
      decreases r
    {
      r := r - 1;
    }
  }
}
