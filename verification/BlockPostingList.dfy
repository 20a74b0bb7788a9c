/**
 * Posting lists in blocks (block_posting_list.hpp).
 *
 * A list consists of the number of postings, the last document of every block, where every block but
 * the first starts, and the blocks themselves: a code of document gaps and a code of frequencies each.
 * The blocks need not be stored in order.
 */
module BlockPostingList {
  import opened BitVector
  import opened BlockCodecs
  import opened InterpolativeCoding
  import opened MonotoneSequence

  /** What the list needs of the block codec. */
  datatype Codec = Codec(encode: (seq<nat>, nat) -> seq<nat>, decode: (seq<nat>, nat, nat) -> (seq<nat>, nat))

  /** A block is decoded to its values and the decoder stops at its end, whatever follows. */
  ghost predicate DecodesBack(codec: Codec, x: seq<nat>, sum: nat, rest: seq<nat>) {
    codec.decode(codec.encode(x, sum) + rest, sum, |x|) == (x, |codec.encode(x, sum)|)
  }

  ghost predicate IsCodec(codec: Codec) {
    forall x, sum, rest :: IsBlock(x, sum) && |x| <= BLOCK_SIZE ==> DecodesBack(codec, x, sum, rest)
  }

  /** The interpolative block is such a codec. */
  function Interpolative(): Codec {
    Codec((x, sum) => if IsBlock(x, sum) then BlockCode(x, sum) else [],
          (bytes, sum, n) => if n > 0 then DecodeBlock(bytes, sum, n) else ([], 0))
  }

  lemma InterpolativeIsCodec()
    ensures IsCodec(Interpolative())
  {
    hide BlockCode, DecodeBlock;
    forall x, sum, rest | IsBlock(x, sum) && |x| <= BLOCK_SIZE
      ensures DecodesBack(Interpolative(), x, sum, rest)
    {
      BlockRoundTrip(x, sum, rest);
    }
  }

  // ---------------------------------------------------------------------------------------------
  // Blocks of a list

  function Blocks(n: nat): nat {
    (n + BLOCK_SIZE - 1) / BLOCK_SIZE
  }

  function Size(n: nat, b: nat): nat {
    if (b + 1) * BLOCK_SIZE <= n then BLOCK_SIZE else n % BLOCK_SIZE
  }

  function Start(b: nat): nat {
    b * BLOCK_SIZE
  }

  lemma BlockBounds(n: nat, b: nat)
    requires b < Blocks(n)
    ensures 0 < Size(n, b) <= BLOCK_SIZE && Start(b) + Size(n, b) <= n
    ensures b + 1 < Blocks(n) ==> Size(n, b) == BLOCK_SIZE && Start(b + 1) == Start(b) + Size(n, b) < n
    ensures b + 1 == Blocks(n) ==> Start(b) + Size(n, b) == n
  {
  }

  /** The distance to the previous document, minus one; the first document counts from zero. */
  function Gap(docs: seq<nat>, i: nat): nat
    requires i < |docs| && Increasing(docs)
  {
    if i == 0 then docs[0] else docs[i] - docs[i - 1] - 1
  }

  function Gaps(docs: seq<nat>, from: nat, end: nat): (r: seq<nat>)
    requires from <= end <= |docs| && Increasing(docs)
    ensures |r| == end - from && forall i :: 0 <= i < |r| ==> r[i] == Gap(docs, from + i)
    decreases end
  {
    if from == end then [] else Gaps(docs, from, end - 1) + [Gap(docs, end - 1)]
  }

  /** The least document that a block starting at a position can hold. */
  function Base(docs: seq<nat>, from: nat): nat
    requires from <= |docs|
  {
    if from == 0 then 0 else docs[from - 1] + 1
  }

  lemma {:induction false} GapsTotal(docs: seq<nat>, from: nat, end: nat)
    requires from < end <= |docs| && Increasing(docs)
    ensures Total(Gaps(docs, from, end)) == docs[end - 1] - Base(docs, from) - (end - from - 1)
    decreases end
  {
    hide Total;
    TotalNext(Gaps(docs, from, end - 1), Gap(docs, end - 1));
    if end - from > 1 {
      GapsTotal(docs, from, end - 1);
    } else {
      TotalOfNone();
    }
  }

  lemma TotalNext(s: seq<nat>, x: nat)
    ensures Total(s + [x]) == Total(s) + x
  {
    assert (s + [x])[..|s|] == s;
  }

  lemma TotalOfNone()
    ensures Total([]) == 0
  {
  }

  /** Frequencies are stored minus one. */
  function Lowered(freqs: seq<nat>, from: nat, end: nat): (r: seq<nat>)
    requires from <= end <= |freqs| && forall i :: 0 <= i < |freqs| ==> freqs[i] >= 1
    ensures |r| == end - from && forall i :: 0 <= i < |r| ==> r[i] == freqs[from + i] - 1
    decreases end
  {
    if from == end then [] else Lowered(freqs, from, end - 1) + [freqs[end - 1] - 1]
  }

  /** Documents strictly increase below 2^32 - 1; the frequencies of a block do not add up to 2^32 - 1. */
  ghost predicate IsPostings(docs: seq<nat>, freqs: seq<nat>) {
    && 0 < |docs| == |freqs| && Increasing(docs) && docs[|docs| - 1] < UNKNOWN
    && (forall i :: 0 <= i < |freqs| ==> freqs[i] >= 1)
    && forall b :: 0 <= b < Blocks(|docs|) ==> FewOccurrences(freqs, b)
  }

  ghost predicate FewOccurrences(freqs: seq<nat>, b: nat)
    requires forall i :: 0 <= i < |freqs| ==> freqs[i] >= 1
  {
    b < Blocks(|freqs|) ==>
      Start(b) + Size(|freqs|, b) <= |freqs| && Total(Lowered(freqs, Start(b), Start(b) + Size(|freqs|, b))) < UNKNOWN
  }

  function LastOf(docs: seq<nat>, b: nat): nat
    requires b < Blocks(|docs|)
  {
    BlockBounds(|docs|, b);
    docs[Start(b) + Size(|docs|, b) - 1]
  }

  function BlockGaps(docs: seq<nat>, b: nat): seq<nat>
    requires b < Blocks(|docs|) && Increasing(docs)
  {
    BlockBounds(|docs|, b);
    Gaps(docs, Start(b), Start(b) + Size(|docs|, b))
  }

  function BlockFreqs(freqs: seq<nat>, b: nat): seq<nat>
    requires b < Blocks(|freqs|) && forall i :: 0 <= i < |freqs| ==> freqs[i] >= 1
  {
    BlockBounds(|freqs|, b);
    Lowered(freqs, Start(b), Start(b) + Size(|freqs|, b))
  }

  /** The sum of the gaps, as cursor and writer compute it from the last documents of two blocks. */
  function GapsUniverse(docs: seq<nat>, b: nat): int
    requires b < Blocks(|docs|)
  {
    BlockBounds(|docs|, b);
    LastOf(docs, b) - Base(docs, Start(b)) - (Size(|docs|, b) - 1)
  }

  lemma BlocksAreBlocks(docs: seq<nat>, freqs: seq<nat>, b: nat)
    requires IsPostings(docs, freqs) && b < Blocks(|docs|)
    ensures 0 <= GapsUniverse(docs, b) < UNKNOWN && IsBlock(BlockGaps(docs, b), GapsUniverse(docs, b))
    ensures IsBlock(BlockFreqs(freqs, b), UNKNOWN)
    ensures |BlockGaps(docs, b)| == |BlockFreqs(freqs, b)| == Size(|docs|, b) <= BLOCK_SIZE
  {
    hide Total, Gaps, Lowered;
    BlockBounds(|docs|, b);
    GapsTotal(docs, Start(b), Start(b) + Size(|docs|, b));
    var last := Start(b) + Size(|docs|, b) - 1;
    assert last < |docs| - 1 ==> docs[last] < docs[|docs| - 1];
    assert FewOccurrences(freqs, b);
  }

  ghost function DocsCode(codec: Codec, docs: seq<nat>, freqs: seq<nat>, b: nat): seq<nat>
    requires IsPostings(docs, freqs) && b < Blocks(|docs|)
  {
    BlocksAreBlocks(docs, freqs, b);
    codec.encode(BlockGaps(docs, b), GapsUniverse(docs, b))
  }

  ghost function FreqsCode(codec: Codec, docs: seq<nat>, freqs: seq<nat>, b: nat): seq<nat>
    requires IsPostings(docs, freqs) && b < Blocks(|docs|)
  {
    codec.encode(BlockFreqs(freqs, b), UNKNOWN)
  }

  // ---------------------------------------------------------------------------------------------
  // The layout

  function MaxsOffset(base: nat, n: nat): nat {
    base + |VByteCode(n)|
  }

  function EndpointsOffset(base: nat, n: nat): nat {
    MaxsOffset(base, n) + 4 * Blocks(n)
  }

  function DataOffset(base: nat, n: nat): nat
    requires n > 0
  {
    EndpointsOffset(base, n) + 4 * (Blocks(n) - 1)
  }

  /** A little-endian word in memory. */
  function ReadWord(data: seq<nat>, pos: nat): nat
    requires pos + 4 <= |data|
  {
    LoadWord(data[pos], data[pos + 1], data[pos + 2], data[pos + 3])
  }

  ghost predicate WordAt(data: seq<nat>, pos: nat, x: nat) {
    pos + 4 <= |data| && ReadWord(data, pos) == x
  }

  /** Where block b starts, as stored; the first one starts at 0. */
  ghost predicate StartsAt(data: seq<nat>, base: nat, n: nat, b: nat, start: nat) {
    if b == 0 then start == 0 else WordAt(data, EndpointsOffset(base, n) + 4 * (b - 1), start)
  }

  /** Block b is where its endpoint says, and its last document is in the table. */
  ghost predicate BlockAt(codec: Codec, data: seq<nat>, base: nat, docs: seq<nat>, freqs: seq<nat>, b: nat, start: nat)
    requires IsPostings(docs, freqs) && b < Blocks(|docs|)
  {
    && WordAt(data, MaxsOffset(base, |docs|) + 4 * b, LastOf(docs, b))
    && StartsAt(data, base, |docs|, b, start)
    && StandsAt(data, DataOffset(base, |docs|) + start,
         DocsCode(codec, docs, freqs, b) + FreqsCode(codec, docs, freqs, b))
  }

  /** data hold the list at base; block b starts at starts[b] in the data part. */
  ghost predicate IsList(codec: Codec, data: seq<nat>, base: nat, docs: seq<nat>, freqs: seq<nat>, starts: seq<nat>) {
    && IsPostings(docs, freqs) && StandsAt(data, base, VByteCode(|docs|)) && DataOffset(base, |docs|) <= |data|
    && |starts| == Blocks(|docs|)
    && forall b :: 0 <= b < |starts| ==> BlockAt(codec, data, base, docs, freqs, b, starts[b])
  }

  // ---------------------------------------------------------------------------------------------
  // Words in memory

  lemma WordsBack(w: nat)
    requires w < UINT32
    ensures LoadWord(Low(w, 8), Low(Shr(w, 8), 8), Low(Shr(Shr(w, 8), 8), 8), Low(Shr(Shr(Shr(w, 8), 8), 8), 8)) == w
  {
    hide Low, Shr, ByteBits, ToBits, LoadWord, Pow2;
    var b := WordBytes(w);
    WordSize();
    WordBytesAreBytes(w);
    WordBytesBits(w);
    LoadWordBits(b[0], b[1], b[2], b[3]);
    assert b == [b[0], b[1], b[2], b[3]];
    ToNatToBits(w, WORD_BITS);
    ToNatToBits(LoadWord(b[0], b[1], b[2], b[3]), WORD_BITS);
  }

  /** Stores a word. */
  function SetWord(data: seq<nat>, pos: nat, x: nat): (r: seq<nat>)
    requires pos + 4 <= |data|
    ensures SameExcept(data, r, pos, pos + 4)
  {
    data[..pos] + WordBytes(x) + data[pos + 4..]
  }

  lemma WordStored(data: seq<nat>, pos: nat, x: nat)
    requires pos + 4 <= |data| && x < UINT32
    ensures WordAt(SetWord(data, pos, x), pos, x)
  {
    hide Low, Shr, LoadWord;
    WordsBack(x);
  }

  lemma WordKept(data: seq<nat>, data': seq<nat>, a: nat, b: nat, pos: nat, x: nat)
    requires WordAt(data, pos, x) && SameExcept(data, data', a, b) && (pos + 4 <= a || b <= pos)
    ensures WordAt(data', pos, x)
  {
    hide LoadWord;
  }

  lemma WordInPrefix(data: seq<nat>, data': seq<nat>, pos: nat, x: nat)
    requires WordAt(data, pos, x) && data <= data'
    ensures WordAt(data', pos, x)
  {
    hide LoadWord;
  }

  lemma PartKept(data: seq<nat>, data': seq<nat>, a: nat, b: nat, pos: nat, part: seq<nat>)
    requires StandsAt(data, pos, part) && SameExcept(data, data', a, b) && (pos + |part| <= a || b <= pos)
    ensures StandsAt(data', pos, part)
  {
    assert data'[pos..pos + |part|] == data[pos..pos + |part|];
  }

  // ---------------------------------------------------------------------------------------------
  // Writing

  /** The sizes of the first b blocks. */
  ghost function Offset(codec: Codec, docs: seq<nat>, freqs: seq<nat>, b: nat): nat
    requires IsPostings(docs, freqs) && b <= Blocks(|docs|)
  {
    if b == 0 then 0
    else
      Offset(codec, docs, freqs, b - 1) + |DocsCode(codec, docs, freqs, b - 1)| + |FreqsCode(codec, docs, freqs, b - 1)|
  }

  lemma {:induction false} OffsetsAscend(codec: Codec, docs: seq<nat>, freqs: seq<nat>, b: nat, c: nat)
    requires IsPostings(docs, freqs) && b <= c <= Blocks(|docs|)
    ensures Offset(codec, docs, freqs, b) <= Offset(codec, docs, freqs, c)
    decreases c
  {
    hide IsPostings, DocsCode, FreqsCode;
    if b < c {
      OffsetsAscend(codec, docs, freqs, b, c - 1);
    }
  }

  lemma BlockInPrefix(codec: Codec, data: seq<nat>, data': seq<nat>, base: nat, docs: seq<nat>, freqs: seq<nat>, b: nat,
                      start: nat)
    requires IsPostings(docs, freqs) && b < Blocks(|docs|) && BlockAt(codec, data, base, docs, freqs, b, start)
    requires data <= data'
    ensures BlockAt(codec, data', base, docs, freqs, b, start)
  {
    hide IsPostings, DocsCode, FreqsCode, WordAt, StandsAt, LastOf;
    WordInPrefix(data, data', MaxsOffset(base, |docs|) + 4 * b, LastOf(docs, b));
    if b > 0 {
      WordInPrefix(data, data', EndpointsOffset(base, |docs|) + 4 * (b - 1), start);
    }
    StillStandsAt(data, data', DataOffset(base, |docs|) + start,
      DocsCode(codec, docs, freqs, b) + FreqsCode(codec, docs, freqs, b));
  }

  /** Storing a word of the tables that does not belong to block b leaves the block alone. */
  lemma BlockKept(codec: Codec, data: seq<nat>, data': seq<nat>, base: nat, docs: seq<nat>, freqs: seq<nat>, b: nat,
                  start: nat, pos: nat)
    requires IsPostings(docs, freqs) && b < Blocks(|docs|) && BlockAt(codec, data, base, docs, freqs, b, start)
    requires SameExcept(data, data', pos, pos + 4) && pos + 4 <= DataOffset(base, |docs|)
    requires var max := MaxsOffset(base, |docs|) + 4 * b;
      max + 4 <= pos || pos + 4 <= max
    requires var end := EndpointsOffset(base, |docs|) + 4 * b;
      b > 0 ==> end <= pos || pos + 8 <= end
    ensures BlockAt(codec, data', base, docs, freqs, b, start)
  {
    hide IsPostings, DocsCode, FreqsCode, WordAt, StandsAt, SameExcept, LastOf;
    WordKept(data, data', pos, pos + 4, MaxsOffset(base, |docs|) + 4 * b, LastOf(docs, b));
    if b > 0 {
      WordKept(data, data', pos, pos + 4, EndpointsOffset(base, |docs|) + 4 * (b - 1), start);
    }
    PartKept(data, data', pos, pos + 4, DataOffset(base, |docs|) + start,
      DocsCode(codec, docs, freqs, b) + FreqsCode(codec, docs, freqs, b));
  }

  /** The first m blocks are written one after another, and block m is going to start at the end. */
  ghost predicate Prefix(codec: Codec, data: seq<nat>, base: nat, docs: seq<nat>, freqs: seq<nat>, m: nat)
    requires IsPostings(docs, freqs) && m <= Blocks(|docs|)
  {
    && |data| == DataOffset(base, |docs|) + Offset(codec, docs, freqs, m)
    && (m < Blocks(|docs|) ==> StartsAt(data, base, |docs|, m, Offset(codec, docs, freqs, m)))
    && forall b :: 0 <= b < m ==> BlockAt(codec, data, base, docs, freqs, b, Offset(codec, docs, freqs, b))
  }

  /** In 32 bits, starting from -1 gives the first document. */
  lemma GapWraps(docs: seq<nat>, i: nat, last: nat)
    requires Increasing(docs) && i < |docs| && docs[|docs| - 1] < UNKNOWN
    requires last == if i == 0 then UNKNOWN else docs[i - 1]
    ensures (docs[i] - last - 1) % UINT32 == Gap(docs, i)
  {
    assert i < |docs| - 1 ==> docs[i] < docs[|docs| - 1];
    assert i > 0 ==> docs[i - 1] < docs[i];
  }

  /** Gaps and lowered frequencies of the postings from position `from` on. */
  method CollectBlock(docs: seq<nat>, freqs: seq<nat>, from: nat, end: nat, last: nat)
    returns (docsBuf: seq<nat>, freqsBuf: seq<nat>, lastDoc: nat)
    requires IsPostings(docs, freqs) && from < end <= |docs|
    requires last == if from == 0 then UNKNOWN else docs[from - 1]
    ensures docsBuf == Gaps(docs, from, end) && freqsBuf == Lowered(freqs, from, end) && lastDoc == docs[end - 1]
  {
    hide FewOccurrences, Gap;
    docsBuf, freqsBuf, lastDoc := [], [], last;
    for i := from to end
      invariant docsBuf == Gaps(docs, from, i) && freqsBuf == Lowered(freqs, from, i)
      invariant lastDoc == if i == 0 then UNKNOWN else docs[i - 1]
    {
      var doc := docs[i];
      GapWraps(docs, i, lastDoc);
      docsBuf := docsBuf + [(doc - lastDoc - 1) % UINT32];
      lastDoc := doc;
      freqsBuf := freqsBuf + [freqs[i] - 1];
    }
  }

  /** All blocks before m are where the offsets say. */
  ghost predicate BlocksAt(codec: Codec, data: seq<nat>, base: nat, docs: seq<nat>, freqs: seq<nat>, m: nat)
    requires IsPostings(docs, freqs) && m <= Blocks(|docs|)
  {
    forall b :: 0 <= b < m ==> BlockAt(codec, data, base, docs, freqs, b, Offset(codec, docs, freqs, b))
  }

  lemma MaxStored(codec: Codec, data: seq<nat>, base: nat, docs: seq<nat>, freqs: seq<nat>, b: nat)
    requires IsPostings(docs, freqs) && b < Blocks(|docs|) && Prefix(codec, data, base, docs, freqs, b)
    ensures var pos := MaxsOffset(base, |docs|) + 4 * b;
      pos + 4 <= |data| && var data' := SetWord(data, pos, LastOf(docs, b));
      && BlocksAt(codec, data', base, docs, freqs, b) && WordAt(data', pos, LastOf(docs, b))
      && StartsAt(data', base, |docs|, b, Offset(codec, docs, freqs, b))
  {
    hide IsPostings, BlockAt, WordAt, SetWord, SameExcept, LastOf, VByteCode, Offset;
    var pos := MaxsOffset(base, |docs|) + 4 * b;
    var data' := SetWord(data, pos, LastOf(docs, b));
    MaxFits(docs, freqs, b);
    WordStored(data, pos, LastOf(docs, b));
    forall c | 0 <= c < b
      ensures BlockAt(codec, data', base, docs, freqs, c, Offset(codec, docs, freqs, c))
    {
      BlockKept(codec, data, data', base, docs, freqs, c, Offset(codec, docs, freqs, c), pos);
    }
    if b > 0 {
      WordKept(data, data', pos, pos + 4, EndpointsOffset(base, |docs|) + 4 * (b - 1), Offset(codec, docs, freqs, b));
    }
  }

  lemma MaxFits(docs: seq<nat>, freqs: seq<nat>, b: nat)
    requires IsPostings(docs, freqs) && b < Blocks(|docs|)
    ensures LastOf(docs, b) < UINT32
  {
    BlockBounds(|docs|, b);
    var last := Start(b) + Size(|docs|, b) - 1;
    assert last < |docs| - 1 ==> docs[last] < docs[|docs| - 1];
  }

  lemma CodesAppended(codec: Codec, data: seq<nat>, base: nat, docs: seq<nat>, freqs: seq<nat>, b: nat)
    requires IsPostings(docs, freqs) && b < Blocks(|docs|) && BlocksAt(codec, data, base, docs, freqs, b)
    requires |data| == DataOffset(base, |docs|) + Offset(codec, docs, freqs, b)
    requires WordAt(data, MaxsOffset(base, |docs|) + 4 * b, LastOf(docs, b))
    requires StartsAt(data, base, |docs|, b, Offset(codec, docs, freqs, b))
    ensures var data' := data + DocsCode(codec, docs, freqs, b) + FreqsCode(codec, docs, freqs, b);
      && BlocksAt(codec, data', base, docs, freqs, b + 1)
      && |data'| == DataOffset(base, |docs|) + Offset(codec, docs, freqs, b + 1)
  {
    hide IsPostings, BlockAt, WordAt, LastOf, VByteCode, DocsCode, FreqsCode, Offset, StandsAt;
    var code := DocsCode(codec, docs, freqs, b) + FreqsCode(codec, docs, freqs, b);
    var data' := data + DocsCode(codec, docs, freqs, b) + FreqsCode(codec, docs, freqs, b);
    assert data' == data + code;
    OffsetNext(codec, docs, freqs, b);
    Appended(data, code);
    WordInPrefix(data, data', MaxsOffset(base, |docs|) + 4 * b, LastOf(docs, b));
    if b > 0 {
      WordInPrefix(data, data', EndpointsOffset(base, |docs|) + 4 * (b - 1), Offset(codec, docs, freqs, b));
    }
    ThatBlock(codec, data', base, docs, freqs, b, Offset(codec, docs, freqs, b));
    forall c | 0 <= c < b
      ensures BlockAt(codec, data', base, docs, freqs, c, Offset(codec, docs, freqs, c))
    {
      BlockInPrefix(codec, data, data', base, docs, freqs, c, Offset(codec, docs, freqs, c));
    }
  }

  lemma OffsetNext(codec: Codec, docs: seq<nat>, freqs: seq<nat>, b: nat)
    requires IsPostings(docs, freqs) && b < Blocks(|docs|)
    ensures Offset(codec, docs, freqs, b + 1) ==
      Offset(codec, docs, freqs, b) + |DocsCode(codec, docs, freqs, b)| + |FreqsCode(codec, docs, freqs, b)|
  {
    hide IsPostings, DocsCode, FreqsCode;
  }

  lemma ThatBlock(codec: Codec, data: seq<nat>, base: nat, docs: seq<nat>, freqs: seq<nat>, b: nat, start: nat)
    requires IsPostings(docs, freqs) && b < Blocks(|docs|)
    requires WordAt(data, MaxsOffset(base, |docs|) + 4 * b, LastOf(docs, b)) && StartsAt(data, base, |docs|, b, start)
    requires StandsAt(data, DataOffset(base, |docs|) + start,
               DocsCode(codec, docs, freqs, b) + FreqsCode(codec, docs, freqs, b))
    ensures BlockAt(codec, data, base, docs, freqs, b, start)
  {
    hide IsPostings, DocsCode, FreqsCode, WordAt, StartsAt, StandsAt;
  }

  lemma EndpointStored(codec: Codec, data: seq<nat>, base: nat, docs: seq<nat>, freqs: seq<nat>, b: nat)
    requires IsPostings(docs, freqs) && b + 1 < Blocks(|docs|) && BlocksAt(codec, data, base, docs, freqs, b + 1)
    requires |data| == DataOffset(base, |docs|) + Offset(codec, docs, freqs, b + 1)
    requires Offset(codec, docs, freqs, b + 1) < UINT32
    ensures var pos := EndpointsOffset(base, |docs|) + 4 * b;
      && pos + 4 <= |data|
      && Prefix(codec, SetWord(data, pos, Offset(codec, docs, freqs, b + 1)), base, docs, freqs, b + 1)
  {
    hide IsPostings, BlockAt, WordAt, SetWord, SameExcept, LastOf, VByteCode, Offset;
    var pos, x := EndpointsOffset(base, |docs|) + 4 * b, Offset(codec, docs, freqs, b + 1);
    var data' := SetWord(data, pos, x);
    WordStored(data, pos, x);
    forall c | 0 <= c < b + 1
      ensures BlockAt(codec, data', base, docs, freqs, c, Offset(codec, docs, freqs, c))
    {
      BlockKept(codec, data, data', base, docs, freqs, c, Offset(codec, docs, freqs, c), pos);
    }
    SetWordSize(data, pos, x, 0);
  }

  lemma SetWordSize(data: seq<nat>, pos: nat, x: nat, k: nat)
    requires k <= pos && pos + 4 <= |data|
    ensures |SetWord(data, pos, x)| == |data| && SetWord(data, pos, x)[..k] == data[..k]
  {
  }

  /** Block b is written behind the others: last document, codes, and where the next block starts. */
  method WriteBlock(codec: Codec, before: seq<nat>, base: nat, docs: seq<nat>, freqs: seq<nat>, b: nat, last: nat,
                    blockBase: nat)
    returns (out: seq<nat>, lastDoc: nat)
    requires IsPostings(docs, freqs) && b < Blocks(|docs|) && Prefix(codec, before, base, docs, freqs, b)
    requires last == (if b == 0 then UNKNOWN else docs[Start(b) - 1]) && blockBase == Base(docs, Start(b))
    requires Offset(codec, docs, freqs, Blocks(|docs|)) < UINT32
    ensures Prefix(codec, out, base, docs, freqs, b + 1)
    ensures MaxsOffset(base, |docs|) <= |before| <= |out|
    ensures out[..MaxsOffset(base, |docs|)] == before[..MaxsOffset(base, |docs|)]
    ensures lastDoc == LastOf(docs, b)
  {
    hide IsPostings, FewOccurrences, Gaps, Lowered, Prefix, BlockAt, BlocksAt, VByteCode, IsBlock, SetWord, WordAt,
      SameExcept, StartsAt, Offset;
    var n := |docs|;
    BlockBounds(n, b);
    BlocksAreBlocks(docs, freqs, b);
    PrefixSize(codec, before, base, docs, freqs, b);
    var size := Size(n, b);
    var docsBuf, freqsBuf;
    docsBuf, freqsBuf, lastDoc := CollectBlock(docs, freqs, Start(b), Start(b) + size, last);
    MaxStored(codec, before, base, docs, freqs, b);
    SetWordSize(before, MaxsOffset(base, n) + 4 * b, lastDoc, MaxsOffset(base, n));
    out := SetWord(before, MaxsOffset(base, n) + 4 * b, lastDoc);
    CodesAppended(codec, out, base, docs, freqs, b);
    ghost var s := out;
    out := out + codec.encode(docsBuf, lastDoc - blockBase - (size - 1));
    out := out + codec.encode(freqsBuf, UNKNOWN);
    assert out[..MaxsOffset(base, n)] == s[..MaxsOffset(base, n)];
    if b != Blocks(n) - 1 {
      OffsetsAscend(codec, docs, freqs, b + 1, Blocks(n));
      EndpointStored(codec, out, base, docs, freqs, b);
      SetWordSize(out, EndpointsOffset(base, n) + 4 * b, |out| - DataOffset(base, n), MaxsOffset(base, n));
      out := SetWord(out, EndpointsOffset(base, n) + 4 * b, |out| - DataOffset(base, n));
    } else {
      LastPrefix(codec, out, base, docs, freqs, b + 1);
    }
  }

  lemma PrefixSize(codec: Codec, data: seq<nat>, base: nat, docs: seq<nat>, freqs: seq<nat>, b: nat)
    requires IsPostings(docs, freqs) && b <= Blocks(|docs|) && Prefix(codec, data, base, docs, freqs, b)
    ensures |data| == DataOffset(base, |docs|) + Offset(codec, docs, freqs, b)
  {
  }

  lemma LastPrefix(codec: Codec, data: seq<nat>, base: nat, docs: seq<nat>, freqs: seq<nat>, m: nat)
    requires IsPostings(docs, freqs) && m == Blocks(|docs|) && BlocksAt(codec, data, base, docs, freqs, m)
    requires |data| == DataOffset(base, |docs|) + Offset(codec, docs, freqs, m)
    ensures Prefix(codec, data, base, docs, freqs, m)
  {
    hide IsPostings, BlockAt, Offset;
  }

  /** Appends the list: its size, room for the tables, then block after block. */
  method Write(codec: Codec, before: seq<nat>, docs: seq<nat>, freqs: seq<nat>)
    returns (out: seq<nat>, ghost starts: seq<nat>)
    requires IsPostings(docs, freqs) && Offset(codec, docs, freqs, Blocks(|docs|)) < UINT32
    ensures before <= out && IsList(codec, out, |before|, docs, freqs, starts) && InOrder(codec, docs, freqs, starts)
    ensures |out| == DataOffset(|before|, |docs|) + Offset(codec, docs, freqs, Blocks(|docs|))
  {
    hide IsPostings, BlockAt, Offset, Prefix, VByteCode, StandsAt;
    var n, base := |docs|, |before|;
    CountFits(docs, freqs);
    out := EncodeVByte([n], before);
    OneCode(n);
    ghost var head := out;
    out := out + seq(4 * Blocks(n) + 4 * (Blocks(n) - 1), _ => 0);
    NoPrefix(codec, out, base, docs, freqs);
    var lastDoc, blockBase := UNKNOWN, 0;
    for b := 0 to Blocks(n)
      invariant |out| >= |head| && out[..|head|] == head && Prefix(codec, out, base, docs, freqs, b)
      invariant b < Blocks(n) ==>
        lastDoc == (if b == 0 then UNKNOWN else docs[Start(b) - 1]) && blockBase == Base(docs, Start(b))
    {
      BlockBounds(n, b);
      out, lastDoc := WriteBlock(codec, out, base, docs, freqs, b, lastDoc, blockBase);
      blockBase := lastDoc + 1;
    }
    starts := Offsets(codec, docs, freqs, Blocks(n));
    Appended(before, VByteCode(n));
    StillStandsAt(head, out, base, VByteCode(n));
    PrefixIsList(codec, out, base, docs, freqs, starts);
  }

  lemma CountFits(docs: seq<nat>, freqs: seq<nat>)
    requires IsPostings(docs, freqs)
    ensures 0 < |docs| == |freqs| < UINT32
  {
    Spread(docs, 0, |docs| - 1);
  }

  /** The blocks are stored in the order of their numbers. */
  ghost predicate InOrder(codec: Codec, docs: seq<nat>, freqs: seq<nat>, starts: seq<nat>)
    requires IsPostings(docs, freqs)
  {
    |starts| == Blocks(|docs|) && forall b :: 0 <= b < |starts| ==> starts[b] == Offset(codec, docs, freqs, b)
  }

  ghost function Offsets(codec: Codec, docs: seq<nat>, freqs: seq<nat>, m: nat): (r: seq<nat>)
    requires IsPostings(docs, freqs) && m <= Blocks(|docs|)
    ensures |r| == m && forall b :: 0 <= b < m ==> r[b] == Offset(codec, docs, freqs, b)
  {
    if m == 0 then [] else Offsets(codec, docs, freqs, m - 1) + [Offset(codec, docs, freqs, m - 1)]
  }

  lemma NoPrefix(codec: Codec, data: seq<nat>, base: nat, docs: seq<nat>, freqs: seq<nat>)
    requires IsPostings(docs, freqs) && |data| == DataOffset(base, |docs|)
    ensures Prefix(codec, data, base, docs, freqs, 0)
  {
  }

  lemma PrefixIsList(codec: Codec, data: seq<nat>, base: nat, docs: seq<nat>, freqs: seq<nat>, starts: seq<nat>)
    requires IsPostings(docs, freqs) && Prefix(codec, data, base, docs, freqs, Blocks(|docs|))
    requires InOrder(codec, docs, freqs, starts)
    requires StandsAt(data, base, VByteCode(|docs|))
    ensures IsList(codec, data, base, docs, freqs, starts)
    ensures |data| == DataOffset(base, |docs|) + Offset(codec, docs, freqs, Blocks(|docs|))
  {
    hide IsPostings, BlockAt, Offset, VByteCode, StandsAt;
  }

  // ---------------------------------------------------------------------------------------------
  // Writing given blocks in any order

  /** block_data: the number of a block, its last document, and its codes. */
  datatype BlockData =
    BlockData(index: nat, max: nat, size: nat, docGapsUniverse: nat, docsCode: seq<nat>, freqsCode: seq<nat>)

  ghost predicate IsBlockData(codec: Codec, docs: seq<nat>, freqs: seq<nat>, d: BlockData)
    requires IsPostings(docs, freqs)
  {
    && d.index < Blocks(|docs|) && d.max == LastOf(docs, d.index) && d.size == Size(|docs|, d.index)
    && d.docGapsUniverse == GapsUniverse(docs, d.index)
    && d.docsCode == DocsCode(codec, docs, freqs, d.index) && d.freqsCode == FreqsCode(codec, docs, freqs, d.index)
  }

  /** All blocks of a list, each once, block 0 first. */
  ghost predicate IsOrder(codec: Codec, docs: seq<nat>, freqs: seq<nat>, input: seq<BlockData>)
    requires IsPostings(docs, freqs)
  {
    && |input| == Blocks(|docs|) && (forall i :: 0 <= i < |input| ==> IsBlockData(codec, docs, freqs, input[i]))
    && (forall i, j :: 0 <= i < j < |input| ==> input[i].index != input[j].index)
    && (forall b :: 0 <= b < |input| ==> Contains(input, b))
    && input != [] && input[0].index == 0
  }

  ghost predicate Contains(input: seq<BlockData>, b: nat) {
    exists i :: 0 <= i < |input| && input[i].index == b
  }

  function TotalSize(input: seq<BlockData>): nat {
    if input == [] then 0
    else TotalSize(input[..|input| - 1]) + |input[|input| - 1].docsCode| + |input[|input| - 1].freqsCode|
  }

  lemma {:induction false} SizesGrow(input: seq<BlockData>, i: nat)
    requires i <= |input|
    ensures TotalSize(input[..i]) <= TotalSize(input)
    decreases |input| - i
  {
    if i < |input| {
      assert input[..i + 1][..i] == input[..i];
      SizesGrow(input, i + 1);
    } else {
      assert input[..i] == input;
    }
  }

  /** The first m of the given blocks are written, wherever they are. */
  ghost predicate SomeAt(codec: Codec, data: seq<nat>, base: nat, docs: seq<nat>, freqs: seq<nat>,
                         input: seq<BlockData>, starts: seq<nat>, m: nat)
    requires IsPostings(docs, freqs) && IsOrder(codec, docs, freqs, input) && |starts| == |input| && m <= |input|
  {
    forall i :: 0 <= i < m ==>
      && IsBlockData(codec, docs, freqs, input[i])
      && BlockAt(codec, data, base, docs, freqs, input[i].index, starts[input[i].index])
  }

  /** Storing the words of one block keeps the others. */
  lemma OthersKept(codec: Codec, data: seq<nat>, data': seq<nat>, base: nat, docs: seq<nat>, freqs: seq<nat>,
                   input: seq<BlockData>, starts: seq<nat>, m: nat, pos: nat)
    requires IsPostings(docs, freqs) && IsOrder(codec, docs, freqs, input) && |starts| == |input| && m < |input|
    requires SomeAt(codec, data, base, docs, freqs, input, starts, m)
    requires SameExcept(data, data', pos, pos + 4) && pos + 4 <= DataOffset(base, |docs|)
    requires var b := input[m].index;
      pos == MaxsOffset(base, |docs|) + 4 * b || (b > 0 && pos == EndpointsOffset(base, |docs|) + 4 * (b - 1))
    ensures SomeAt(codec, data', base, docs, freqs, input, starts, m)
  {
    hide IsPostings, BlockAt, SameExcept, VByteCode, Contains;
    forall i | 0 <= i < m
      ensures BlockAt(codec, data', base, docs, freqs, input[i].index, starts[input[i].index])
    {
      assert IsBlockData(codec, docs, freqs, input[i]) && IsBlockData(codec, docs, freqs, input[m]);
      assert input[i].index != input[m].index;
      BlockKept(codec, data, data', base, docs, freqs, input[i].index, starts[input[i].index], pos);
    }
  }

  lemma OthersInPrefix(codec: Codec, data: seq<nat>, data': seq<nat>, base: nat, docs: seq<nat>, freqs: seq<nat>,
                       input: seq<BlockData>, starts: seq<nat>, m: nat)
    requires IsPostings(docs, freqs) && IsOrder(codec, docs, freqs, input) && |starts| == |input| && m <= |input|
    requires SomeAt(codec, data, base, docs, freqs, input, starts, m) && data <= data'
    ensures SomeAt(codec, data', base, docs, freqs, input, starts, m)
  {
    hide IsPostings, BlockAt, VByteCode, Contains;
    forall i | 0 <= i < m
      ensures BlockAt(codec, data', base, docs, freqs, input[i].index, starts[input[i].index])
    {
      BlockInPrefix(codec, data, data', base, docs, freqs, input[i].index, starts[input[i].index]);
    }
  }

  /** Recording where the next block starts concerns no other block. */
  lemma StartRecorded(codec: Codec, data: seq<nat>, base: nat, docs: seq<nat>, freqs: seq<nat>,
                      input: seq<BlockData>, starts: seq<nat>, m: nat, start: nat)
    requires IsPostings(docs, freqs) && IsOrder(codec, docs, freqs, input) && |starts| == |input| && m < |input|
    requires SomeAt(codec, data, base, docs, freqs, input, starts, m)
    ensures input[m].index < |starts|
    ensures SomeAt(codec, data, base, docs, freqs, input, starts[input[m].index := start], m)
  {
    hide IsPostings, BlockAt, VByteCode, Contains;
    assert IsBlockData(codec, docs, freqs, input[m]);
  }

  /** One given block goes to the end: its endpoint unless it is the first, its last document, its codes. */
  method WriteBlockData(ghost codec: Codec, before: seq<nat>, base: nat, n: nat, ghost docs: seq<nat>,
                        ghost freqs: seq<nat>,
                        input: seq<BlockData>, ghost starts: seq<nat>, m: nat)
    returns (out: seq<nat>, ghost starts': seq<nat>)
    requires IsPostings(docs, freqs) && n == |docs| && IsOrder(codec, docs, freqs, input) && |starts| == |input|
    requires m < |input|
    requires |before| == DataOffset(base, n) + TotalSize(input[..m]) && TotalSize(input) < UINT32
    requires SomeAt(codec, before, base, docs, freqs, input, starts, m)
    ensures |starts'| == |input| && SomeAt(codec, out, base, docs, freqs, input, starts', m + 1)
    ensures |out| == DataOffset(base, n) + TotalSize(input[..m + 1])
    ensures MaxsOffset(base, n) <= |before| && out[..MaxsOffset(base, n)] == before[..MaxsOffset(base, n)]
  {
    hide IsPostings, BlockAt, SetWord, WordAt, SameExcept, VByteCode, IsOrder, SomeAt, DocsCode, FreqsCode, LastOf,
      StandsAt;
    var d := input[m];
    var b := d.index;
    BlockDataAt(codec, docs, freqs, input, m);
    MoreSizes(input, m);
    ghost var start, head := |before| - DataOffset(base, n), MaxsOffset(base, n);
    StartRecorded(codec, before, base, docs, freqs, input, starts, m, start);
    starts' := starts[b := start];
    out := before;
    FirstIsZero(codec, docs, freqs, input, m);
    if b != 0 {
      out := StoreWord(codec, out, base, docs, freqs, input, starts', m, EndpointsOffset(base, n) + 4 * (b - 1),
        |out| - DataOffset(base, n));
    }
    ghost var s := out;
    MaxFits(docs, freqs, b);
    out := StoreWord(codec, out, base, docs, freqs, input, starts', m, MaxsOffset(base, n) + 4 * b, d.max);
    if b != 0 {
      WordKept(s, out, MaxsOffset(base, n) + 4 * b, MaxsOffset(base, n) + 4 * b + 4,
        EndpointsOffset(base, n) + 4 * (b - 1), start);
    }
    ghost var tables := out;
    out := out + d.docsCode;
    out := out + d.freqsCode;
    BlockAppended(codec, tables, out, base, docs, freqs, input, starts', m);
    assert out[..head] == tables[..head];
  }

  /** Stores a word of block input[m]; the blocks before it in the input are kept. */
  method StoreWord(ghost codec: Codec, before: seq<nat>, base: nat, ghost docs: seq<nat>, ghost freqs: seq<nat>,
                   ghost input: seq<BlockData>, ghost starts: seq<nat>, ghost m: nat, pos: nat, x: nat)
    returns (out: seq<nat>)
    requires IsPostings(docs, freqs) && IsOrder(codec, docs, freqs, input) && |starts| == |input| && m < |input|
    requires SomeAt(codec, before, base, docs, freqs, input, starts, m) && x < UINT32
    requires MaxsOffset(base, |docs|) <= pos && pos + 4 <= DataOffset(base, |docs|) <= |before|
    requires var b := input[m].index;
      pos == MaxsOffset(base, |docs|) + 4 * b || (b > 0 && pos == EndpointsOffset(base, |docs|) + 4 * (b - 1))
    ensures SomeAt(codec, out, base, docs, freqs, input, starts, m) && WordAt(out, pos, x)
    ensures SameExcept(before, out, pos, pos + 4) && |out| == |before|
    ensures out[..MaxsOffset(base, |docs|)] == before[..MaxsOffset(base, |docs|)]
  {
    hide IsPostings, IsOrder, SetWord, WordAt, SameExcept, VByteCode, SomeAt;
    SetWordSize(before, pos, x, MaxsOffset(base, |docs|));
    WordStored(before, pos, x);
    out := SetWord(before, pos, x);
    OthersKept(codec, before, out, base, docs, freqs, input, starts, m, pos);
  }

  lemma BlockDataAt(codec: Codec, docs: seq<nat>, freqs: seq<nat>, input: seq<BlockData>, m: nat)
    requires IsPostings(docs, freqs) && IsOrder(codec, docs, freqs, input) && m < |input|
    ensures IsBlockData(codec, docs, freqs, input[m]) && |input| == Blocks(|docs|)
  {
  }

  lemma MoreSizes(input: seq<BlockData>, m: nat)
    requires m < |input|
    ensures TotalSize(input[..m + 1]) == TotalSize(input[..m]) + |input[m].docsCode| + |input[m].freqsCode|
    ensures TotalSize(input[..m + 1]) <= TotalSize(input)
  {
    assert input[..m + 1][..m] == input[..m];
    SizesGrow(input, m + 1);
  }

  /** Block 0 comes first, and no other block does. */
  lemma FirstIsZero(codec: Codec, docs: seq<nat>, freqs: seq<nat>, input: seq<BlockData>, m: nat)
    requires IsPostings(docs, freqs) && IsOrder(codec, docs, freqs, input) && m < |input|
    ensures input[m].index == 0 <==> m == 0
    ensures TotalSize(input[..0]) == 0
  {
    hide IsPostings;
    assert m > 0 ==> input[0].index != input[m].index;
  }

  lemma BlockAppended(codec: Codec, data: seq<nat>, data': seq<nat>, base: nat, docs: seq<nat>, freqs: seq<nat>,
                      input: seq<BlockData>, starts: seq<nat>, m: nat)
    requires IsPostings(docs, freqs) && IsOrder(codec, docs, freqs, input) && |starts| == |input| && m < |input|
    requires IsBlockData(codec, docs, freqs, input[m]) && |data| == DataOffset(base, |docs|) + starts[input[m].index]
    requires WordAt(data, MaxsOffset(base, |docs|) + 4 * input[m].index, LastOf(docs, input[m].index))
    requires StartsAt(data, base, |docs|, input[m].index, starts[input[m].index])
    requires SomeAt(codec, data, base, docs, freqs, input, starts, m)
    requires data' == data + input[m].docsCode + input[m].freqsCode
    ensures SomeAt(codec, data', base, docs, freqs, input, starts, m + 1)
  {
    hide IsPostings, BlockAt, WordAt, VByteCode, Contains, DocsCode, FreqsCode, LastOf, StandsAt;
    var b := input[m].index;
    var code := input[m].docsCode + input[m].freqsCode;
    assert data' == data + code;
    Appended(data, code);
    WordInPrefix(data, data', MaxsOffset(base, |docs|) + 4 * b, LastOf(docs, b));
    if b > 0 {
      WordInPrefix(data, data', EndpointsOffset(base, |docs|) + 4 * (b - 1), starts[b]);
    }
    ThatBlock(codec, data', base, docs, freqs, b, starts[b]);
    OthersInPrefix(codec, data, data', base, docs, freqs, input, starts, m);
  }

  /** Appends the list made of the given blocks, stored in the given order. */
  method WriteBlocks(ghost codec: Codec, before: seq<nat>, n: nat, input: seq<BlockData>, ghost docs: seq<nat>,
                     ghost freqs: seq<nat>)
    returns (out: seq<nat>, ghost starts: seq<nat>)
    requires IsPostings(docs, freqs) && n == |docs| && IsOrder(codec, docs, freqs, input) && TotalSize(input) < UINT32
    ensures before <= out && IsList(codec, out, |before|, docs, freqs, starts)
  {
    hide IsPostings, VByteCode, SomeAt, StandsAt, BlockAt, IsOrder;
    var base := |before|;
    CountFits(docs, freqs);
    BlockCount(codec, docs, freqs, input);
    out := EncodeVByte([n], before);
    OneCode(n);
    ghost var head := out;
    out := out + seq(4 * |input| + 4 * (|input| - 1), _ => 0);
    starts := seq(|input|, _ => 0);
    assert input[..0] == [];
    NoneAt(codec, out, base, docs, freqs, input, starts);
    for m := 0 to |input|
      invariant |out| == DataOffset(base, n) + TotalSize(input[..m]) && |starts| == |input|
      invariant |out| >= |head| && out[..|head|] == head
      invariant SomeAt(codec, out, base, docs, freqs, input, starts, m)
    {
      out, starts := WriteBlockData(codec, out, base, n, docs, freqs, input, starts, m);
    }
    Appended(before, VByteCode(n));
    StillStandsAt(head, out, base, VByteCode(n));
    AllAreThere(codec, out, base, docs, freqs, input, starts);
  }

  lemma BlockCount(codec: Codec, docs: seq<nat>, freqs: seq<nat>, input: seq<BlockData>)
    requires IsPostings(docs, freqs) && IsOrder(codec, docs, freqs, input)
    ensures |input| == Blocks(|docs|) > 0
  {
  }

  lemma NoneAt(codec: Codec, data: seq<nat>, base: nat, docs: seq<nat>, freqs: seq<nat>, input: seq<BlockData>,
               starts: seq<nat>)
    requires IsPostings(docs, freqs) && IsOrder(codec, docs, freqs, input) && |starts| == |input|
    ensures SomeAt(codec, data, base, docs, freqs, input, starts, 0)
  {
  }

  lemma AllAreThere(codec: Codec, data: seq<nat>, base: nat, docs: seq<nat>, freqs: seq<nat>, input: seq<BlockData>,
                    starts: seq<nat>)
    requires IsPostings(docs, freqs) && IsOrder(codec, docs, freqs, input) && |starts| == |input|
    requires SomeAt(codec, data, base, docs, freqs, input, starts, |input|) && |data| >= DataOffset(base, |docs|)
    requires StandsAt(data, base, VByteCode(|docs|))
    ensures IsList(codec, data, base, docs, freqs, starts)
  {
    hide IsPostings, VByteCode, StandsAt, BlockAt;
    forall b | 0 <= b < |starts|
      ensures BlockAt(codec, data, base, docs, freqs, b, starts[b])
    {
      assert Contains(input, b);
      var i :| 0 <= i < |input| && input[i].index == b;
    }
  }
}
