/** Bit streams of little-endian words and the interpolative code (interpolative_coding.hpp). */
module InterpolativeCoding {
  // The middle value of a sorted range is written relative to the limits of the range, then both halves.

  import opened BitVector

  const WORD_BITS := 32

  // ---------------------------------------------------------------------------------------------
  // The codes

  /** 2^(b + 1) - u, where 2^b is the largest power of two up to u: the values below take one bit less. */
  function ShortCodes(u: nat): (m: nat)
    requires u > 0
    ensures m > 0
  {
    2 * Pow2(Msb(u)) - u
  }

  /** Truncated binary: val below u. */
  function IntCode(val: nat, u: nat): seq<bool>
    requires val < u
  {
    var b, m := Msb(u), ShortCodes(u);
    if val < m then ToBits(val, b) else ToBits((val + m) / 2, b) + ToBits((val + m) % 2, 1)
  }

  lemma IntCodeFits(val: nat, u: nat)
    requires val < u
    ensures val < ShortCodes(u) ==> val < Pow2(Msb(u))
    ensures val >= ShortCodes(u) ==> ShortCodes(u) <= (val + ShortCodes(u)) / 2 < Pow2(Msb(u))
  {
  }

  /** The share of all codes of b + 1 bits that start with the code of one of the first n values. */
  ghost function Taken(u: nat, n: nat): nat
    requires n <= u
  {
    if n == 0 then 0
    else
      CodeLength(n - 1, u);
      Taken(u, n - 1) + Pow2(Msb(u) + 1 - |IntCode(n - 1, u)|)
  }

  lemma CodeLength(val: nat, u: nat)
    requires val < u
    ensures |IntCode(val, u)| == Msb(u) + if val < ShortCodes(u) then 0 else 1
  {
  }

  /** No code is wasted: the codes of all values below u take all there is. */
  lemma AllTaken(u: nat)
    requires u > 0
    ensures Taken(u, u) == Pow2(Msb(u) + 1)
  {
    TakenByFirst(u, u);
  }

  lemma {:induction false} TakenByFirst(u: nat, n: nat)
    requires 0 < u && n <= u
    ensures Taken(u, n) == n + if n < ShortCodes(u) then n else ShortCodes(u)
  {
    hide Msb, IntCode;
    if n > 0 {
      TakenByFirst(u, n - 1);
      CodeLength(n - 1, u);
      assert Pow2(0) == 1 && Pow2(1) == 2;
    }
  }

  ghost predicate Between(s: seq<nat>, low: nat, high: nat) {
    && low <= high && (forall i :: 0 <= i < |s| ==> low <= s[i] <= high)
    && forall i, j :: 0 <= i < j < |s| ==> s[i] <= s[j]
  }

  function InterpolativeCode(s: seq<nat>, low: nat, high: nat): seq<bool>
    requires Between(s, low, high)
    decreases |s|
  {
    if s == [] then [] else
      var h := |s| / 2;
      IntCode(s[h] - low, high - low + 1) + InterpolativeCode(s[..h], low, s[h]) +
      InterpolativeCode(s[h + 1..], s[h], high)
  }

  /** All words of a buffer, lowest bit first. */
  ghost function WordBits(words: seq<nat>): (r: seq<bool>)
    ensures |r| == WORD_BITS * |words|
  {
    if words == [] then [] else WordBits(words[..|words| - 1]) + ToBits(words[|words| - 1], WORD_BITS)
  }

  lemma WordBitsAppend(words: seq<nat>, w: nat)
    ensures WordBits(words + [w]) == WordBits(words) + ToBits(w, WORD_BITS)
  {
    assert (words + [w])[..|words|] == words;
  }

  // ---------------------------------------------------------------------------------------------
  // Writing

  class BitWriter {
    var buf: seq<nat>
    var size: nat
    ghost var written: seq<bool>

    /** The last word is partly filled; its unused bits are clear. */
    ghost predicate Valid()
      reads this
    {
      |written| == size && AreWords(buf) && Holds(size % WORD_BITS)
    }

    ghost predicate Holds(used: nat)
      reads this
    {
      Packed(buf, written, used)
    }

    constructor ()
      ensures Valid() && written == []
    {
      buf, size, written := [], 0, [];
    }

    /** Appends the len lowest bits; they can spread over two words. */
    method Write(bits: nat, len: nat)
      requires Valid() && bits < Pow2(len) && len <= WORD_BITS
      modifies this
      ensures Valid() && written == old(written) + ToBits(bits, len)
    {
      if len == 0 {
        return;
      }
      var posInWord := size % WORD_BITS;
      if posInWord == 0 {
        NewWord(bits, len);
      } else {
        IntoWord(bits, len, posInWord);
      }
    }

    method NewWord(bits: nat, len: nat)
      requires Valid() && bits < Pow2(len) && 0 < len <= WORD_BITS && size % WORD_BITS == 0
      modifies this
      ensures Valid() && written == old(written) + ToBits(bits, len)
    {
      hide ToBits, Pow2;
      ghost var was := buf;
      Pow2Monotone(len, WORD_BITS);
      size := size + len;
      buf := buf + [bits];
      written := written + ToBits(bits, len);
      assert buf[..|buf| - 1] == was;
    }

    method IntoWord(bits: nat, len: nat, posInWord: nat)
      requires Valid() && bits < Pow2(len) && 0 < len <= WORD_BITS && posInWord == size % WORD_BITS > 0
      modifies this
      ensures Valid() && written == old(written) + ToBits(bits, len)
    {
      hide Packed, PackedLast, AreWords, ToBits, Pow2, Shl, Shr, Low;
      PackedWord(buf, written, posInWord);
      var n := |buf| - 1;
      ghost var was := buf;
      var room := WORD_BITS - posInWord;
      size := size + len;
      buf := buf[n := buf[n] + Low(Shl(bits, posInWord), WORD_BITS)];
      if len > room {
        buf := buf + [Shr(bits, room)];
        PackedAcross(was, written, posInWord, bits, len);
      } else {
        PackedInside(was, written, posInWord, bits, len);
      }
      written := written + ToBits(bits, len);
    }

    method WriteInt(val: nat, u: nat)
      requires Valid() && val < u < Pow2(WORD_BITS)
      modifies this
      ensures Valid() && written == old(written) + IntCode(val, u)
    {
      hide ToBits, Pow2, BitWriter.Holds;
      var b := Msb(u);
      var m := ShortCodes(u);
      MsbBound(u);
      IntCodeFits(val, u);
      OneBit((val + m) % 2);
      if val < m {
        Write(val, b);
      } else {
        // the stream is little-endian: the writes must be split
        Write((val + m) / 2, b);
        Write((val + m) % 2, 1);
      }
    }

    method WriteInterpolative(input: seq<nat>, low: nat, high: nat)
      requires Valid() && Between(input, low, high) && high + 1 < Pow2(WORD_BITS)
      modifies this
      ensures Valid() && written == old(written) + InterpolativeCode(input, low, high)
      decreases |input|
    {
      hide IntCode, Pow2, BitWriter.Valid, InterpolativeCode, Between;
      if |input| == 0 {
        NothingToCode(low, high);
        return;
      }
      var h := |input| / 2;
      var val := input[h];
      Halves(input, low, high);
      WriteInt(val - low, high - low + 1);
      WriteInterpolative(input[..h], low, val);
      WriteInterpolative(input[h + 1..], val, high);
    }
  }

  ghost predicate AreWords(buf: seq<nat>) {
    forall i :: 0 <= i < |buf| ==> buf[i] < Pow2(WORD_BITS)
  }

  /** The words hold the bits, with `used` bits in the last word unless it is full. */
  ghost predicate Packed(buf: seq<nat>, written: seq<bool>, used: nat) {
    if used == 0 then WordBits(buf) == written
    else buf != [] && PackedLast(buf[..|buf| - 1], buf[|buf| - 1], written, used)
  }

  ghost predicate PackedLast(front: seq<nat>, last: nat, written: seq<bool>, used: nat) {
    last < Pow2(used) && WordBits(front) + ToBits(last, used) == written
  }

  lemma PackedWord(buf: seq<nat>, written: seq<bool>, used: nat)
    requires Packed(buf, written, used) && used > 0
    ensures buf != [] && PackedLast(buf[..|buf| - 1], buf[|buf| - 1], written, used)
  {
  }

  /** The new bits fit into the last word. */
  lemma PackedInside(was: seq<nat>, written: seq<bool>, used: nat, bits: nat, len: nat)
    requires was != [] && PackedLast(was[..|was| - 1], was[|was| - 1], written, used)
    requires 0 < used < WORD_BITS && bits < Pow2(len) && 0 < len <= WORD_BITS - used
    ensures var word := was[|was| - 1] + Low(Shl(bits, used), WORD_BITS);
      && (AreWords(was) ==> AreWords(was[|was| - 1 := word]))
      && Packed(was[|was| - 1 := word], written + ToBits(bits, len), (used + len) % WORD_BITS)
  {
    hide ToBits, Pow2, Shl, Shr, Low, WordBits;
    var n := |was| - 1;
    var word := was[n] + Low(Shl(bits, used), WORD_BITS);
    WordFilled(was[..n], was[n], bits, len, used);
    LastReplaced(was, word, 0);
    WordBitsAppend(was[..n], word);
  }

  /** The last word is filled up, and the rest goes into a new one. */
  lemma PackedAcross(was: seq<nat>, written: seq<bool>, used: nat, bits: nat, len: nat)
    requires was != [] && PackedLast(was[..|was| - 1], was[|was| - 1], written, used)
    requires 0 < used < WORD_BITS && bits < Pow2(len) && WORD_BITS - used < len <= WORD_BITS
    ensures var word, next := was[|was| - 1] + Low(Shl(bits, used), WORD_BITS), Shr(bits, WORD_BITS - used);
      && (AreWords(was) ==> AreWords(was[|was| - 1 := word] + [next]))
      && Packed(was[|was| - 1 := word] + [next], written + ToBits(bits, len), (used + len) % WORD_BITS)
  {
    hide ToBits, Pow2, Shl, Shr, Low, WordBits;
    var n, room := |was| - 1, WORD_BITS - used;
    var word, next := was[n] + Low(Shl(bits, used), WORD_BITS), Shr(bits, room);
    WordFilled(was[..n], was[n], bits, len, used);
    WordBitsAppend(was[..n], word);
    assert PackedLast(was[..n] + [word], next, written + ToBits(bits, len), len - room);
    LastReplaced(was, word, next);
    assert (used + len) % WORD_BITS == len - room;
  }

  lemma LastReplaced<T>(s: seq<T>, x: T, y: T)
    requires s != []
    ensures var n, r := |s| - 1, s[|s| - 1 := x];
      && r == s[..n] + [x] && r[..n] == s[..n] && (r + [y])[..n + 1] == s[..n] + [x]
  {
  }

  lemma NothingToCode(low: nat, high: nat)
    requires Between([], low, high)
    ensures InterpolativeCode([], low, high) == []
  {
  }

  /** The middle value is coded first, then the values on both sides, within tighter limits. */
  lemma Halves(s: seq<nat>, low: nat, high: nat)
    requires Between(s, low, high) && s != []
    ensures var h := |s| / 2;
      && low <= s[h] <= high && Between(s[..h], low, s[h]) && Between(s[h + 1..], s[h], high)
      && InterpolativeCode(s, low, high) ==
         IntCode(s[h] - low, high - low + 1) + InterpolativeCode(s[..h], low, s[h]) +
      InterpolativeCode(s[h + 1..], s[h], high)
  {
    hide IntCode, Between;
    BetweenHalves(s, low, high);
  }

  lemma BetweenHalves(s: seq<nat>, low: nat, high: nat)
    requires Between(s, low, high) && s != []
    ensures var h := |s| / 2;
      low <= s[h] <= high && Between(s[..h], low, s[h]) && Between(s[h + 1..], s[h], high)
  {
  }

  lemma {:induction false} ZeroBits(k: nat)
    ensures ToBits(0, k) == seq(k, _ => false)
  {
    if k > 0 {
      ZeroBits(k - 1);
    }
  }

  lemma {:induction false} NothingAbove(w: nat, used: nat)
    requires w < Pow2(used)
    ensures Shr(w, used) == 0
  {
    if used > 0 {
      NothingAbove(w / 2, used - 1);
    }
  }

  lemma UnusedAreClear(w: nat, used: nat)
    requires used <= WORD_BITS && w < Pow2(used)
    ensures ToBits(w, WORD_BITS) == ToBits(w, used) + seq(WORD_BITS - used, _ => false)
  {
    hide ToBits, Pow2, Shr;
    ToBitsSplit(w, used, WORD_BITS - used);
    NothingAbove(w, used);
    ZeroBits(WORD_BITS - used);
  }

  /** The buffer holds what was written, and zeros. */
  lemma BufferBits(w: BitWriter)
    requires w.Valid()
    ensures |w.written| <= WORD_BITS * |w.buf|
    ensures WordBits(w.buf) == w.written + seq(WORD_BITS * |w.buf| - |w.written|, _ => false)
  {
    hide ToBits, Pow2;
    var used := w.size % WORD_BITS;
    if used != 0 {
      UnusedAreClear(w.buf[|w.buf| - 1], used);
    }
  }

  /** Memory holds bytes. */
  lemma {:induction false} BytesAreBytes(words: seq<nat>)
    ensures AreBytes(BytesOf(words))
  {
    hide Low, Shr;
    if words != [] {
      BytesAreBytes(words[..|words| - 1]);
      WordBytesAreBytes(words[|words| - 1]);
    }
  }

  lemma WordBytesAreBytes(w: nat)
    ensures AreBytes(WordBytes(w))
  {
    hide Low, Shr, Pow2;
    ByteSize();
    LowFits(w, 8);
    LowFits(Shr(w, 8), 8);
    LowFits(Shr(Shr(w, 8), 8), 8);
    LowFits(Shr(Shr(Shr(w, 8), 8), 8), 8);
  }

  lemma MsbBound(u: nat)
    requires 0 < u < Pow2(WORD_BITS)
    ensures Msb(u) < WORD_BITS
  {
    if Msb(u) >= WORD_BITS {
      Pow2Monotone(WORD_BITS, Msb(u));
    }
  }

  lemma OneBit(x: nat)
    requires x < 2
    ensures x < Pow2(1)
  {
  }

  /** What adding bits to a partly filled word does to the bits of the buffer. */
  lemma WordFilled(before: seq<nat>, word: nat, bits: nat, len: nat, used: nat)
    requires word < Pow2(used) && bits < Pow2(len) && 0 < len <= WORD_BITS && 0 < used < WORD_BITS
    ensures var room, word' := WORD_BITS - used, word + Low(Shl(bits, used), WORD_BITS);
      && word' < Pow2(WORD_BITS)
      && (len <= room ==> word' < Pow2(used + len))
      && (len <= room ==>
            WordBits(before) + ToBits(word', used + len) == WordBits(before) + ToBits(word, used) + ToBits(bits, len))
      && (len > room ==> Shr(bits, room) < Pow2(len - room) && Shr(bits, room) < Pow2(WORD_BITS))
      && (len > room ==> WordBits(before) + ToBits(word', WORD_BITS) + ToBits(Shr(bits, room), len - room) ==
                         WordBits(before) + ToBits(word, used) + ToBits(bits, len))
  {
    hide ToBits, Pow2, Shl, Shr, Low, WordBits;
    var room := WORD_BITS - used;
    LowShl(bits, used, room);
    LowFits(bits, room);
    JoinBits(word, Low(bits, room), used, room);
    if len <= room {
      Pow2Monotone(len, room);
      JoinBits(word, bits, used, len);
    } else {
      ToBitsLow(bits, room);
      ToBitsSplit(bits, room, len - room);
      ShrFits(bits, room, len - room);
      Pow2Monotone(len - room, WORD_BITS);
    }
  }

  // ---------------------------------------------------------------------------------------------
  // Words in memory

  /** All bits of a byte string, lowest bit of each byte first. */
  function ByteBits(bytes: seq<nat>): (r: seq<bool>)
    ensures |r| == 8 * |bytes|
  {
    if bytes == [] then [] else ByteBits(bytes[..|bytes| - 1]) + ToBits(bytes[|bytes| - 1], 8)
  }

  lemma {:induction false} ByteBitsConcat(a: seq<nat>, b: seq<nat>)
    ensures ByteBits(a + b) == ByteBits(a) + ByteBits(b)
  {
    hide ToBits;
    if b == [] {
      assert a + b == a;
    } else {
      var n := |b| - 1;
      assert (a + b)[..|a| + n] == a + b[..n] && (a + b)[|a| + n] == b[n];
      ByteBitsConcat(a, b[..n]);
    }
  }

  /** The four bytes of a word, little-endian. */
  function WordBytes(w: nat): seq<nat> {
    [Low(w, 8), Low(Shr(w, 8), 8), Low(Shr(Shr(w, 8), 8), 8), Low(Shr(Shr(Shr(w, 8), 8), 8), 8)]
  }

  lemma FourBytes(a: nat, b: nat, c: nat, d: nat)
    ensures ByteBits([a, b, c, d]) == ToBits(a, 8) + ToBits(b, 8) + ToBits(c, 8) + ToBits(d, 8)
  {
    hide ToBits, ByteBits;
    assert [a, b, c, d] == [a] + [b] + [c] + [d];
    OneByte(a);
    OneByte(b);
    OneByte(c);
    OneByte(d);
    ByteBitsConcat([a], [b]);
    ByteBitsConcat([a] + [b], [c]);
    ByteBitsConcat([a] + [b] + [c], [d]);
  }

  lemma OneByte(a: nat)
    ensures ByteBits([a]) == ToBits(a, 8)
  {
    hide ToBits;
    assert [a][..0] == [] && ByteBits([]) == [];
  }

  lemma WordBytesBits(w: nat)
    ensures ByteBits(WordBytes(w)) == ToBits(w, WORD_BITS)
  {
    hide ToBits, Shr, Low, ByteBits;
    var w1 := Shr(w, 8);
    var w2 := Shr(w1, 8);
    var w3 := Shr(w2, 8);
    FourBytes(Low(w, 8), Low(w1, 8), Low(w2, 8), Low(w3, 8));
    ToBitsSplit(w, 8, 24);
    ToBitsSplit(w1, 8, 16);
    ToBitsSplit(w2, 8, 8);
    ToBitsLow(w, 8);
    ToBitsLow(w1, 8);
    ToBitsLow(w2, 8);
    ToBitsLow(w3, 8);
  }

  /** A buffer of words seen as bytes. */
  function BytesOf(words: seq<nat>): (r: seq<nat>)
    ensures |r| == 4 * |words|
  {
    if words == [] then [] else BytesOf(words[..|words| - 1]) + WordBytes(words[|words| - 1])
  }

  lemma {:induction false} BytesOfBits(words: seq<nat>)
    ensures ByteBits(BytesOf(words)) == WordBits(words)
  {
    hide ToBits, WordBytes;
    if words != [] {
      var n := |words| - 1;
      BytesOfBits(words[..n]);
      WordBytesBits(words[n]);
      ByteBitsConcat(BytesOf(words[..n]), WordBytes(words[n]));
    }
  }

  function LoadWord(a: nat, b: nat, c: nat, d: nat): nat {
    a + Shl(b + Shl(c + Shl(d, 8), 8), 8)
  }

  lemma LoadWordBits(a: nat, b: nat, c: nat, d: nat)
    requires a < 256 && b < 256 && c < 256 && d < 256
    ensures ToBits(LoadWord(a, b, c, d), WORD_BITS) == ByteBits([a, b, c, d]) && LoadWord(a, b, c, d) < Pow2(WORD_BITS)
  {
    hide ToBits, Shl, ByteBits, Pow2;
    ByteSize();
    FourBytes(a, b, c, d);
    JoinBits(c, d, 8, 8);
    JoinBits(b, c + Shl(d, 8), 8, 16);
    JoinBits(a, b + Shl(c + Shl(d, 8), 8), 8, 24);
  }

  lemma ByteSize()
    ensures Pow2(8) == 256
  {
    assert Pow2(4) == 16;
  }

  lemma ByteSlice(bytes: seq<nat>, from: nat, to: nat)
    requires from <= to <= |bytes|
    ensures ByteBits(bytes)[8 * from..8 * to] == ByteBits(bytes[from..to])
  {
    hide ByteBits;
    var x, y, z := bytes[..from], bytes[from..to], bytes[to..];
    ThreeParts(bytes, from, to);
    ByteBitsConcat(x, y + z);
    ByteBitsConcat(y, z);
    Middle(ByteBits(x), ByteBits(y), ByteBits(z));
  }

  lemma ThreeParts<T>(s: seq<T>, from: nat, to: nat)
    requires from <= to <= |s|
    ensures s == s[..from] + (s[from..to] + s[to..])
  {
  }

  lemma Middle<T>(x: seq<T>, y: seq<T>, z: seq<T>)
    ensures (x + (y + z))[|x|..|x| + |y|] == y
  {
  }

  // ---------------------------------------------------------------------------------------------
  // Reading

  /** Words are fetched whole: reading up to a position needs all bytes of its word. */
  predicate Fetchable(bytes: seq<nat>, pos: nat) {
    4 * ((pos + WORD_BITS - 1) / WORD_BITS) <= |bytes|
  }

  ghost predicate AreBytes(bytes: seq<nat>) {
    forall i :: 0 <= i < |bytes| ==> bytes[i] < 256
  }

  class BitReader {
    const bytes: seq<nat>
    var next: nat
    var avail: nat
    var buf: nat
    var pos: nat

    ghost predicate Valid()
      reads this
    {
      && AreBytes(bytes) && 4 * next <= |bytes| && avail < WORD_BITS && pos + avail == WORD_BITS * next
      && buf == ToNat(ByteBits(bytes)[pos..pos + avail])
    }

    constructor (bytes: seq<nat>)
      requires AreBytes(bytes)
      ensures Valid() && pos == 0 && this.bytes == bytes
    {
      this.bytes, next, avail, buf, pos := bytes, 0, 0, 0, 0;
    }

    method Read(len: nat) returns (val: nat)
      requires Valid() && len <= WORD_BITS && Fetchable(bytes, pos + len)
      modifies this
      ensures Valid() && pos == old(pos) + len <= 8 * |bytes|
      ensures val == ToNat(ByteBits(bytes)[old(pos)..pos])
    {
      hide ByteBits, ToNat, Shl, Shr, Low, AreBytes;
      if len == 0 {
        NoBits();
        return 0;
      }
      ghost var from, bits := pos, ByteBits(bytes);
      if avail < len {
        Fetch();
      }
      val := Low(buf, len);
      buf := Shr(buf, len);
      SplitSlice(bits, from, avail, len);
      avail := avail - len;
      pos := pos + len;
    }

    /** A number written with the given width. */
    method ReadNumber(len: nat, ghost x: nat) returns (val: nat)
      requires Valid() && len <= WORD_BITS && x < Pow2(len) && CodeAt(bytes, pos, ToBits(x, len))
      modifies this
      ensures Valid() && pos == old(pos) + len && val == x
    {
      hide ByteBits, ToNat, BitReader.Valid, ToBits;
      ToNatToBits(x, len);
      val := Read(len);
    }

    method ReadInt(u: nat, ghost x: nat) returns (val: nat)
      requires Valid() && x < u < Pow2(WORD_BITS) && CodeAt(bytes, pos, IntCode(x, u))
      modifies this
      ensures Valid() && pos == old(pos) + |IntCode(x, u)| && val == x
    {
      hide ByteBits, ToNat, BitReader.Valid, ToBits, CodeAt, Pow2;
      var b := Msb(u);
      var m := ShortCodes(u);
      MsbBound(u);
      IntCodeFits(x, u);
      OneBit((x + m) % 2);
      if x >= m {
        CodeInParts(bytes, pos, ToBits((x + m) / 2, b), ToBits((x + m) % 2, 1));
      }
      val := ReadNumber(b, if x < m then x else (x + m) / 2);
      if val >= m {
        var bit := ReadNumber(1, (x + m) % 2);
        val := 2 * val + bit - m;
      }
    }

    /** Fills out[begin..begin + n] with the values that were coded. */
    method ReadInterpolative(out: array<nat>, begin: nat, n: nat, low: nat, high: nat, ghost s: seq<nat>)
      requires Valid() && n == |s| > 0 && begin + n <= out.Length && Between(s, low, high) && high + 1 < Pow2(WORD_BITS)
      requires CodeAt(bytes, pos, InterpolativeCode(s, low, high))
      modifies this, out
      ensures Valid() && pos == old(pos) + |InterpolativeCode(s, low, high)|
      ensures out[..] == old(out[..begin]) + s + old(out[begin + n..])
      decreases n, 1
    {
      hide ByteBits, BitReader.Valid, CodeAt, Pow2, IntCode, InterpolativeCode, Between;
      Halves(s, low, high);
      var h := n / 2;
      ghost var code := IntCode(s[h] - low, high - low + 1);
      ghost var rest := InterpolativeCode(s[..h], low, s[h]) + InterpolativeCode(s[h + 1..], s[h], high);
      ghost var before := out[..];
      assert InterpolativeCode(s, low, high) == code + rest;
      CodeInParts(bytes, pos, code, rest);
      var val := ReadInt(high - low + 1, s[h] - low);
      val := low + val;
      out[begin + h] := val;
      if n == 1 {
        assert s[..h] == [] && s[h + 1..] == [];
        NothingToCode(low, s[h]);
        NothingToCode(s[h], high);
        OneInPlace(before, s, begin);
        return;
      }
      ReadHalves(out, begin, n, low, val, high, s);
      MiddleInPlace(before, s, begin, h);
    }

    /** The recursive calls, once the middle value has been read. */
    method ReadHalves(out: array<nat>, begin: nat, n: nat, low: nat, val: nat, high: nat, ghost s: seq<nat>)
      requires Valid() && n == |s| > 1 && begin + n <= out.Length && high + 1 < Pow2(WORD_BITS)
      requires low <= val <= high && val == s[n / 2] && out[begin + n / 2] == val
      requires Between(s[..n / 2], low, val) && Between(s[n / 2 + 1..], val, high)
      requires CodeAt(bytes, pos,
                 InterpolativeCode(s[..n / 2], low, val) + InterpolativeCode(s[n / 2 + 1..], val, high))
      modifies this, out
      ensures Valid()
      ensures pos == old(pos) +
        |InterpolativeCode(s[..n / 2], low, val)| + |InterpolativeCode(s[n / 2 + 1..], val, high)|
      ensures out[..] == old(out[..begin]) + s + old(out[begin + n..])
      decreases n, 0
    {
      hide ByteBits, BitReader.Valid, CodeAt, Pow2, InterpolativeCode, Between;
      var h := n / 2;
      ghost var before := out[..];
      CodeInParts(bytes, pos, InterpolativeCode(s[..h], low, val), InterpolativeCode(s[h + 1..], val, high));
      if h > 0 {
        ReadInterpolative(out, begin, h, low, val, s[..h]);
      }
      ghost var leftDone := out[..];
      if n - h - 1 > 0 {
        ReadInterpolative(out, begin + h + 1, n - h - 1, val, high, s[h + 1..]);
      } else {
        assert s[h + 1..] == [];
        NothingToCode(val, high);
      }
      HalvesInPlace(before, leftDone, out[..], s, begin, h);
    }

    /** Puts the next word on top of the bits that are left. */
    method Fetch()
      requires Valid() && 4 * (next + 1) <= |bytes|
      modifies this
      ensures next == old(next) + 1 && avail == old(avail) + WORD_BITS && pos == old(pos)
      ensures pos + avail == WORD_BITS * next
      ensures pos + avail <= 8 * |bytes| && buf == ToNat(ByteBits(bytes)[pos..pos + avail])
    {
      hide ByteBits, ToNat, Shl, Pow2;
      var i := 4 * next;
      var word := LoadWord(bytes[i], bytes[i + 1], bytes[i + 2], bytes[i + 3]);
      LoadWordBits(bytes[i], bytes[i + 1], bytes[i + 2], bytes[i + 3]);
      ByteSlice(bytes, i, i + 4);
      assert bytes[i..i + 4] == [bytes[i], bytes[i + 1], bytes[i + 2], bytes[i + 3]];
      ghost var bits := ByteBits(bytes);
      ToNatToBits(word, WORD_BITS);
      ToNatConcat(bits[pos..pos + avail], bits[pos + avail..pos + avail + WORD_BITS]);
      assert bits[pos..pos + avail] + bits[pos + avail..pos + avail + WORD_BITS] == bits[pos..pos + avail + WORD_BITS];
      buf := buf + Shl(word, avail);
      avail := avail + WORD_BITS;
      next := next + 1;
    }
  }

  lemma OneInPlace<T>(before: seq<T>, s: seq<T>, begin: nat)
    requires |s| == 1 && begin < |before|
    ensures before[begin := s[0]] == before[..begin] + s + before[begin + 1..]
  {
  }

  lemma MiddleInPlace<T>(before: seq<T>, s: seq<T>, begin: nat, h: nat)
    requires h < |s| && begin + |s| <= |before|
    ensures before[begin + h := s[h]][..begin] == before[..begin]
    ensures before[begin + h := s[h]][begin + |s|..] == before[begin + |s|..]
  {
  }

  /** Around the middle value, writing the left and the right half writes the whole. */
  lemma HalvesInPlace<T>(before: seq<T>, left: seq<T>, right: seq<T>, s: seq<T>, begin: nat, h: nat)
    requires h < |s| && begin + |s| <= |before| && before[begin + h] == s[h]
    requires left == before[..begin] + s[..h] + before[begin + h..]
    requires right == left[..begin + h + 1] + s[h + 1..] + left[begin + |s|..]
    ensures right == before[..begin] + s + before[begin + |s|..]
  {
    assert s == s[..h] + [s[h]] + s[h + 1..];
    assert left[..begin + h + 1] == before[..begin] + s[..h] + [s[h]];
    assert left[begin + |s|..] == before[begin + |s|..];
  }

  /** Taking the lowest bits off a part of the stream. */
  lemma SplitSlice(bits: seq<bool>, from: nat, size: nat, len: nat)
    requires len <= size && from + size <= |bits|
    ensures Low(ToNat(bits[from..from + size]), len) == ToNat(bits[from..from + len])
    ensures Shr(ToNat(bits[from..from + size]), len) == ToNat(bits[from + len..from + size])
  {
    hide ToNat, Low, Shr;
    ToNatSplit(bits[from..from + size], len);
    assert bits[from..from + size][..len] == bits[from..from + len];
    assert bits[from..from + size][len..] == bits[from + len..from + size];
  }

  lemma NoBits()
    ensures ToNat([]) == 0
  {
  }

  /** The code stands at the position, and all its words can be fetched. */
  ghost predicate CodeAt(bytes: seq<nat>, pos: nat, code: seq<bool>) {
    && pos + |code| <= 8 * |bytes| && Fetchable(bytes, pos + |code|)
    && ByteBits(bytes)[pos..pos + |code|] == code
  }

  lemma CodeInParts(bytes: seq<nat>, pos: nat, a: seq<bool>, b: seq<bool>)
    requires CodeAt(bytes, pos, a + b)
    ensures CodeAt(bytes, pos, a) && CodeAt(bytes, pos + |a|, b)
  {
    hide ByteBits;
    StandsInParts(ByteBits(bytes), pos, a, b);
  }
}
