/**
 * The cursor over a posting list in blocks (block_posting_list.hpp, document_enumerator).
 *
 * Documents are decoded block by block, frequencies only when they are asked for. All a caller sees is
 * the list of documents and the list of frequencies, in whatever order the blocks are stored.
 */
module DocumentEnumerator {
  import opened BitVector
  import opened BlockCodecs
  import opened BlockPostingList
  import opened MonotoneSequence

  /** The document gaps of a block, the first one replaced by the document itself. */
  function Absolute(docs: seq<nat>, b: nat): (r: seq<nat>)
    requires b < Blocks(|docs|) && Increasing(docs)
    ensures |r| == Size(|docs|, b) > 0 && Start(b) + |r| <= |docs| && r[0] == docs[Start(b)]
    ensures forall i :: 1 <= i < |r| ==> r[i] == docs[Start(b) + i] - docs[Start(b) + i - 1] - 1
  {
    BlockBounds(|docs|, b);
    BlockGaps(docs, b)[0 := docs[Start(b)]]
  }

  /** The base of a block follows from the last document of the block before. */
  lemma BaseOfBlock(docs: seq<nat>, freqs: seq<nat>, b: nat)
    requires IsPostings(docs, freqs) && b < Blocks(|docs|)
    ensures Start(b) < |docs| && Base(docs, Start(b)) + BlockGaps(docs, b)[0] == docs[Start(b)] < UINT32
    ensures b > 0 ==> LastOf(docs, b - 1) + 1 == Base(docs, Start(b)) < UINT32
    ensures |BlockGaps(docs, b)| == Size(|docs|, b)
  {
    BlockBounds(|docs|, b);
    if b > 0 {
      BlockBounds(|docs|, b - 1);
      assert docs[Start(b) - 1] < docs[Start(b)];
    }
    assert Start(b) < |docs| - 1 ==> docs[Start(b)] < docs[|docs| - 1];
  }

  /** Every document is at most the last one of its block; later blocks hold larger ones. */
  lemma InBlock(docs: seq<nat>, freqs: seq<nat>, i: nat, b: nat)
    requires IsPostings(docs, freqs) && b < Blocks(|docs|) && i < |docs|
    ensures i < Start(b) + Size(|docs|, b) ==> docs[i] <= LastOf(docs, b)
    ensures i >= Start(b) + Size(|docs|, b) ==> docs[i] > LastOf(docs, b)
  {
    BlockBounds(|docs|, b);
    var last := Start(b) + Size(|docs|, b) - 1;
    assert i < last ==> docs[i] < docs[last];
    assert i > last ==> docs[i] > docs[last];
  }

  class Cursor {
    const codec: Codec
    const data: seq<nat>
    const n: nat
    const blocks: nat
    const blockMaxs: nat
    const blockEndpoints: nat
    const blocksData: nat
    const universe: nat
    var curBlock: nat
    var posInBlock: nat
    var curBlockMax: nat
    var curBlockSize: nat
    var curDocid: nat
    var freqsBlockData: nat
    var freqsDecoded: bool
    var docsBuf: seq<nat>
    var freqsBuf: seq<nat>
    ghost const base: nat
    ghost const docs: seq<nat>
    ghost const freqs: seq<nat>
    ghost const starts: seq<nat>

    /** What never changes. */
    ghost predicate Opened() {
      && IsCodec(codec) && IsList(codec, data, base, docs, freqs, starts)
      && n == |docs| && blocks == Blocks(n) && universe < UINT32
      && blockMaxs == MaxsOffset(base, n) && blockEndpoints == EndpointsOffset(base, n)
      && blocksData == DataOffset(base, n)
    }

    /** The buffers belong to the current block. */
    ghost predicate Loaded()
      requires Opened()
      reads this
    {
      && curBlock < blocks && curBlockSize == Size(n, curBlock) && curBlockMax == LastOf(docs, curBlock)
      && docsBuf == Absolute(docs, curBlock)
      && freqsBlockData == blocksData + starts[curBlock] + |DocsCode(codec, docs, freqs, curBlock)|
      && (freqsDecoded ==> freqsBuf == BlockFreqs(freqs, curBlock))
    }

    function Position(): nat
      reads this
    {
      curBlock * BLOCK_SIZE + posInBlock
    }

    /** The cursor is on a posting. */
    ghost predicate Valid()
      reads this
    {
      Opened() && Loaded() && posInBlock < curBlockSize && Position() < n && curDocid == docs[Position()]
    }

    function BlockMax(block: nat): (max: nat)
      requires Opened() && block < blocks
      ensures max == LastOf(docs, block)
    {
      MaxThere(codec, data, base, docs, freqs, starts, block);
      ReadWord(data, blockMaxs + 4 * block)
    }

    /** Opens the list at base: everything is found from the number of postings. */
    constructor (codec: Codec, data: seq<nat>, base: nat, universe: nat, ghost docs: seq<nat>, ghost freqs: seq<nat>,
                 ghost starts: seq<nat>)
      requires IsCodec(codec) && IsList(codec, data, base, docs, freqs, starts) && universe < UINT32
      ensures Valid() && Position() == 0 && this.docs == docs && this.freqs == freqs && this.universe == universe
    {
      hide IsPostings, DocsCode, FreqsCode, IsCodec, BlockAt, LastOf, Cursor.Loaded, VByteCode;
      Postings(codec, data, base, docs, freqs, starts);
      OneCode(|docs|);
      var sizes, pos := DecodeVByte(data, base, 1, [|docs|]);
      this.codec, this.data, this.universe := codec, data, universe;
      this.base, this.docs, this.freqs, this.starts := base, docs, freqs, starts;
      n, blocks := sizes[0], Blocks(sizes[0]);
      blockMaxs := pos;
      blockEndpoints := pos + 4 * Blocks(sizes[0]);
      blocksData := pos + 4 * Blocks(sizes[0]) + 4 * (Blocks(sizes[0]) - 1);
      curBlock, posInBlock, curBlockMax, curBlockSize, curDocid, freqsBlockData := 0, 0, 0, 0, 0, 0;
      docsBuf, freqsBuf, freqsDecoded := [], [], false;
      new;
      DecodeDocsBlock(0);
    }

    method Reset()
      requires Opened()
      modifies this
      ensures Valid() && Position() == 0
    {
      hide IsPostings, IsCodec, IsList, Cursor.Loaded;
      Postings(codec, data, base, docs, freqs, starts);
      DecodeDocsBlock(0);
    }

    /** The cursor has passed the last posting: the document is the universe. */
    ghost predicate Exhausted()
      reads this
    {
      Opened() && Loaded() && curDocid == universe
    }

    /** next must not be called past the end. */
    method Next()
      requires Valid()
      modifies this
      ensures Position() == old(Position()) + 1
      ensures Position() < n ==> Valid()
      ensures Position() == n ==> Exhausted()
    {
      hide IsPostings, DocsCode, FreqsCode, IsCodec, IsList, LastOf, Absolute, BlockFreqs;
      Postings(codec, data, base, docs, freqs, starts);
      BlockBounds(n, curBlock);
      posInBlock := posInBlock + 1;
      if posInBlock == curBlockSize {
        if curBlock + 1 == blocks {
          curDocid := universe;
          return;
        }
        DecodeDocsBlock(curBlock + 1);
      } else {
        Ascending(docs, Position() - 1);
        curDocid := curDocid + docsBuf[posInBlock] + 1;
      }
    }

    /** Steps inside the current block. */
    method Advance()
      requires Valid() && posInBlock + 1 < curBlockSize
      modifies this`posInBlock, this`curDocid
      ensures Valid() && Position() == old(Position()) + 1
    {
      hide IsPostings, DocsCode, FreqsCode, IsCodec, IsList, LastOf, Absolute, BlockFreqs;
      Postings(codec, data, base, docs, freqs, starts);
      BlockBounds(n, curBlock);
      Ascending(docs, Position());
      posInBlock := posInBlock + 1;
      curDocid := curDocid + docsBuf[posInBlock] + 1;
    }

    /** No posting at or beyond the bound has been passed; the cursor may have passed them all. */
    ghost predicate NothingMissed(bound: nat)
      reads this
    {
      || (Valid() && forall i :: 0 <= i < Position() && i < |docs| ==> docs[i] < bound)
      || (Exhausted() && forall i :: 0 <= i < |docs| ==> docs[i] < bound)
    }

    /** The calls that the code's own assertion admits are among these. */
    lemma ForwardMissesNothing(bound: nat)
      requires Valid() && (bound >= curDocid || Position() == 0)
      ensures NothingMissed(bound)
    {
      hide IsPostings, DocsCode, FreqsCode, IsCodec, IsList, LastOf, Absolute, BlockFreqs;
      Postings(codec, data, base, docs, freqs, starts);
    }

    /**
     * The first document that is at least the bound, provided that none has been passed. When there is
     * none, or none is left, the document is the universe, but the position does not move.
     */
    method NextGeq(bound: nat)
      requires NothingMissed(bound)
      modifies this
      ensures FirstGeq(docs, bound, 0) < n ==> Valid() && Position() == FirstGeq(docs, bound, 0)
      ensures FirstGeq(docs, bound, 0) == n ==> Exhausted() && Position() == old(Position())
    {
      hide IsPostings, DocsCode, FreqsCode, IsCodec, IsList, LastOf, FirstGeq, Absolute, Cursor.BlockMax,
        Cursor.NothingMissed;
      MissedBefore(bound);
      Postings(codec, data, base, docs, freqs, starts);
      if bound > curBlockMax {
        BlockOf(docs, freqs, bound, blocks - 1);
        if bound > BlockMax(blocks - 1) {
          BlockBounds(n, blocks - 1);
          curDocid := universe;
          return;
        }
        var block := SkipBlocks(bound);
        DecodeDocsBlock(block);
      } else {
        BlockOf(docs, freqs, bound, curBlock);
      }
      ScanTo(bound);
    }

    lemma NothingLeft(bound: nat)
      requires Exhausted() && forall i :: 0 <= i < |docs| ==> docs[i] < bound
      ensures NothingMissed(bound)
    {
    }

    lemma PassedMissesNothing(pos: nat, bound: nat)
      requires if pos < |docs| then Valid() && Position() == pos else Exhausted()
      requires forall i :: 0 <= i < pos && i < |docs| ==> docs[i] < bound
      ensures NothingMissed(bound)
    {
    }

    /** What a legal bound means for the search. */
    lemma MissedBefore(bound: nat)
      requires NothingMissed(bound)
      ensures Opened() && Loaded()
      ensures bound <= curBlockMax ==> Valid() && Position() <= FirstGeq(docs, bound, 0)
    {
      hide IsPostings, DocsCode, FreqsCode, IsCodec, IsList, Absolute, BlockFreqs;
      Postings(codec, data, base, docs, freqs, starts);
      BlockBounds(n, curBlock);
    }

    /** The first block whose last document reaches the bound. */
    method SkipBlocks(bound: nat) returns (block: nat)
      requires Opened() && Loaded() && bound > curBlockMax && bound <= LastOf(docs, blocks - 1)
      ensures curBlock < block < blocks && Start(block) <= FirstGeq(docs, bound, 0) < Start(block) + Size(n, block)
    {
      hide IsPostings, DocsCode, FreqsCode, IsCodec, IsList, LastOf, FirstGeq, Absolute, Cursor.BlockMax, Cursor.Loaded;
      Postings(codec, data, base, docs, freqs, starts);
      assert curBlock < blocks && curBlockMax == LastOf(docs, curBlock) by { LoadedMax(); }
      block := curBlock + 1;
      BlockOf(docs, freqs, bound, curBlock);
      BlockBounds(n, curBlock);
      while BlockMax(block) < bound
        invariant curBlock < block < blocks && FirstGeq(docs, bound, 0) >= Start(block)
        decreases blocks - block
      {
        BlockOf(docs, freqs, bound, block);
        BlockBounds(n, block);
        block := block + 1;
      }
      BlockOf(docs, freqs, bound, block);
    }

    lemma LoadedMax()
      requires Opened() && Loaded()
      ensures curBlock < blocks && curBlockMax == LastOf(docs, curBlock)
    {
    }

    /** Steps forward inside the current block. */
    method ScanTo(bound: nat)
      requires Valid() && Position() <= FirstGeq(docs, bound, 0) < Start(curBlock) + curBlockSize
      modifies this`posInBlock, this`curDocid
      ensures Valid() && Position() == FirstGeq(docs, bound, 0)
    {
      hide IsPostings, DocsCode, FreqsCode, IsCodec, IsList, LastOf, FirstGeq, Absolute;
      Postings(codec, data, base, docs, freqs, starts);
      while curDocid < bound
        invariant Valid() && Position() <= FirstGeq(docs, bound, 0) < Start(curBlock) + curBlockSize
        decreases FirstGeq(docs, bound, 0) - Position()
      {
        FirstGeqAfter(docs, bound, Position());
        Advance();
      }
    }

    /** Forward moves to a posting of the list. */
    method Move(pos: nat)
      requires Valid() && Position() <= pos < n
      modifies this
      ensures Valid() && Position() == pos
    {
      hide IsPostings, DocsCode, FreqsCode, IsCodec, IsList, LastOf, Absolute, BlockFreqs;
      var block := pos / BLOCK_SIZE;
      if block != curBlock {
        DecodeDocsBlock(block);
      }
      BlockBounds(n, block);
      while Position() < pos
        invariant Valid() && curBlock == block && Position() <= pos
        decreases pos - Position()
      {
        Advance();
      }
    }

    /** The frequency of the current posting; the block of frequencies is decoded when first needed. */
    method Freq() returns (freq: nat)
      requires Valid()
      modifies this`freqsBuf, this`freqsDecoded
      ensures Valid() && Position() < |freqs| && freq == freqs[Position()]
    {
      hide IsPostings, DocsCode, FreqsCode, IsCodec, IsList, LastOf, Absolute;
      Postings(codec, data, base, docs, freqs, starts);
      if !freqsDecoded {
        FreqsDecoded(codec, data, base, docs, freqs, starts, curBlock);
        var (buf, next) := codec.decode(data[freqsBlockData..], UNKNOWN, curBlockSize);
        freqsBuf := buf;
        freqsDecoded := true;
      }
      freq := freqsBuf[posInBlock] + 1;
    }

    /** The blocks of a list that stores them in order, each found behind the one before. */
    method GetBlocks() returns (result: seq<BlockData>)
      requires Opened() && InOrder(codec, docs, freqs, starts)
      ensures |result| == blocks && forall b :: 0 <= b < blocks ==>
        result[b].index == b && IsBlockData(codec, docs, freqs, result[b])
    {
      hide IsPostings, DocsCode, FreqsCode, IsCodec, IsList, StandsAt, LastOf, GapsUniverse, Offset, Cursor.BlockMax,
        IsBlockData;
      Postings(codec, data, base, docs, freqs, starts);
      result := [];
      var ptr := blocksData;
      NoOffset(codec, docs, freqs);
      for b := 0 to blocks
        invariant |result| == b && forall c :: 0 <= c < b ==>
          result[c].index == c && IsBlockData(codec, docs, freqs, result[c])
        invariant ptr == blocksData + Offset(codec, docs, freqs, b)
      {
        var d;
        d, ptr := GetBlock(b, ptr);
        OffsetNext(codec, docs, freqs, b);
        result := result + [d];
      }
    }

    /** One block, at a position of the data; also where the next one starts. */
    method GetBlock(b: nat, ptr: nat) returns (d: BlockData, next: nat)
      requires Opened() && b < blocks && b < |starts| && ptr == blocksData + starts[b]
      ensures d.index == b && IsBlockData(codec, docs, freqs, d)
      ensures next == ptr + |DocsCode(codec, docs, freqs, b)| + |FreqsCode(codec, docs, freqs, b)|
    {
      hide IsPostings, DocsCode, FreqsCode, IsCodec, IsList, LastOf, GapsUniverse, Cursor.BlockMax, BlockGaps,
        BlockFreqs, IsBlock;
      Postings(codec, data, base, docs, freqs, starts);
      BaseOfBlock(docs, freqs, b);
      UniverseOfBlock(docs, freqs, b);
      DocsDecoded(codec, data, base, docs, freqs, starts, b);
      FreqsDecoded(codec, data, base, docs, freqs, starts, b);
      CodesThere(codec, data, base, docs, freqs, starts, b);
      var size := Size(n, b);
      var curBase := ((if b > 0 then BlockMax(b - 1) else UNKNOWN) + 1) % UINT32;
      var gapsUniverse := BlockMax(b) - curBase - (size - 1);
      var (_, docsSize) := codec.decode(data[ptr..], gapsUniverse, size);
      var freqPtr := ptr + docsSize;
      var (_, freqsSize) := codec.decode(data[freqPtr..], UNKNOWN, size);
      next := freqPtr + freqsSize;
      d := BlockData(b, BlockMax(b), size, gapsUniverse, data[ptr..freqPtr], data[freqPtr..next]);
    }

    method DecodeDocsBlock(block: nat)
      requires Opened() && block < blocks
      modifies this
      ensures Valid() && curBlock == block && posInBlock == 0
    {
      hide IsPostings, DocsCode, FreqsCode, IsCodec, IsList, StandsAt, LastOf, Absolute, BlockGaps, GapsUniverse,
        ReadWord, Cursor.BlockMax;
      Postings(codec, data, base, docs, freqs, starts);
      var blockData, curBase := Limits(block);
      curBlockSize := Size(n, block);
      curBlockMax := BlockMax(block);
      UniverseOfBlock(docs, freqs, block);
      DocsDecoded(codec, data, base, docs, freqs, starts, block);
      var (buf, used) := codec.decode(data[blockData..], curBlockMax - curBase - (curBlockSize - 1), curBlockSize);
      freqsBlockData := blockData + used;
      AbsoluteIs(docs, freqs, block, buf, curBase);
      docsBuf := buf[0 := (buf[0] + curBase) % UINT32];
      curBlock := block;
      posInBlock := 0;
      curDocid := docsBuf[0];
      freqsDecoded := false;
    }

    /** Where a block starts and the least document it can hold. */
    method Limits(block: nat) returns (blockData: nat, curBase: nat)
      requires Opened() && block < blocks
      ensures block < |starts| && blockData == blocksData + starts[block]
      ensures Start(block) <= |docs| && curBase == Base(docs, Start(block))
    {
      hide IsPostings, DocsCode, FreqsCode, IsCodec, IsList, StandsAt, LastOf, BlockGaps, ReadWord, Cursor.BlockMax;
      Postings(codec, data, base, docs, freqs, starts);
      BaseOfBlock(docs, freqs, block);
      EndpointThere(codec, data, base, docs, freqs, starts, block);
      var endpoint := if block > 0 then ReadWord(data, blockEndpoints + 4 * (block - 1)) else 0;
      blockData := blocksData + endpoint;
      curBase := ((if block > 0 then BlockMax(block - 1) else UNKNOWN) + 1) % UINT32;
    }
  }

  lemma Ascending(docs: seq<nat>, i: nat)
    requires Increasing(docs) && i + 1 < |docs|
    ensures docs[i] < docs[i + 1]
  {
  }

  /** Whether the search ends in a block or behind it, by its last document. */
  lemma BlockOf(docs: seq<nat>, freqs: seq<nat>, bound: nat, b: nat)
    requires IsPostings(docs, freqs) && b < Blocks(|docs|)
    ensures bound <= LastOf(docs, b) ==> FirstGeq(docs, bound, 0) < Start(b) + Size(|docs|, b)
    ensures bound > LastOf(docs, b) ==> FirstGeq(docs, bound, 0) >= Start(b) + Size(|docs|, b)
  {
    hide FirstGeq, FewOccurrences;
    BlockBounds(|docs|, b);
    var r := FirstGeq(docs, bound, 0);
    if r < |docs| {
      InBlock(docs, freqs, r, b);
    }
  }

  lemma FirstGeqAfter(docs: seq<nat>, bound: nat, i: nat)
    requires Increasing(docs) && i < |docs|
    ensures docs[i] <= bound ==> i <= FirstGeq(docs, bound, 0)
    ensures docs[i] < bound ==> i < FirstGeq(docs, bound, 0)
  {
  }

  lemma NoOffset(codec: Codec, docs: seq<nat>, freqs: seq<nat>)
    requires IsPostings(docs, freqs)
    ensures Offset(codec, docs, freqs, 0) == 0
  {
  }

  lemma CodesThere(codec: Codec, data: seq<nat>, base: nat, docs: seq<nat>, freqs: seq<nat>, starts: seq<nat>, b: nat)
    requires IsList(codec, data, base, docs, freqs, starts) && b < Blocks(|docs|)
    ensures IsPostings(docs, freqs) && |starts| == Blocks(|docs|)
    ensures StandsAt(data, DataOffset(base, |docs|) + starts[b], DocsCode(codec, docs, freqs, b))
    ensures StandsAt(data, DataOffset(base, |docs|) + starts[b] + |DocsCode(codec, docs, freqs, b)|,
              FreqsCode(codec, docs, freqs, b))
  {
    hide IsPostings, DocsCode, FreqsCode, StandsAt, IsList;
    BlockThere(codec, data, base, docs, freqs, starts, b);
    StandsInParts(data, DataOffset(base, |docs|) + starts[b], DocsCode(codec, docs, freqs, b),
      FreqsCode(codec, docs, freqs, b));
  }

  lemma UniverseOfBlock(docs: seq<nat>, freqs: seq<nat>, b: nat)
    requires IsPostings(docs, freqs) && b < Blocks(|docs|)
    ensures Start(b) <= |docs|
    ensures 0 <= GapsUniverse(docs, b) == LastOf(docs, b) - Base(docs, Start(b)) - (Size(|docs|, b) - 1)
  {
    BlockBounds(|docs|, b);
    BlocksAreBlocks(docs, freqs, b);
  }

  lemma AbsoluteIs(docs: seq<nat>, freqs: seq<nat>, b: nat, buf: seq<nat>, curBase: nat)
    requires IsPostings(docs, freqs) && b < Blocks(|docs|) && buf == BlockGaps(docs, b)
    requires Start(b) <= |docs| && curBase == Base(docs, Start(b))
    ensures |buf| > 0 && buf[0 := (buf[0] + curBase) % UINT32] == Absolute(docs, b)
  {
    hide BlockGaps;
    BlockBounds(|docs|, b);
    BaseOfBlock(docs, freqs, b);
  }

  lemma EndpointThere(codec: Codec, data: seq<nat>, base: nat, docs: seq<nat>, freqs: seq<nat>, starts: seq<nat>,
                      b: nat)
    requires IsList(codec, data, base, docs, freqs, starts) && b < Blocks(|docs|)
    ensures |starts| == Blocks(|docs|)
    ensures if b == 0 then starts[b] == 0 else WordAt(data, EndpointsOffset(base, |docs|) + 4 * (b - 1), starts[b])
  {
    hide IsPostings, DocsCode, FreqsCode, StandsAt, LastOf, IsList, ReadWord;
    BlockThere(codec, data, base, docs, freqs, starts, b);
  }

  lemma Postings(codec: Codec, data: seq<nat>, base: nat, docs: seq<nat>, freqs: seq<nat>, starts: seq<nat>)
    requires IsList(codec, data, base, docs, freqs, starts)
    ensures IsPostings(docs, freqs) && Increasing(docs) && 0 < |docs| == |freqs| && |starts| == Blocks(|docs|)
    ensures forall i :: 0 <= i < |freqs| ==> freqs[i] >= 1
  {
  }

  lemma MaxThere(codec: Codec, data: seq<nat>, base: nat, docs: seq<nat>, freqs: seq<nat>, starts: seq<nat>, b: nat)
    requires IsList(codec, data, base, docs, freqs, starts) && b < Blocks(|docs|)
    ensures WordAt(data, MaxsOffset(base, |docs|) + 4 * b, LastOf(docs, b))
  {
    hide IsPostings, DocsCode, FreqsCode, StandsAt, WordAt, LastOf;
    assert BlockAt(codec, data, base, docs, freqs, b, starts[b]);
  }

  lemma BlockThere(codec: Codec, data: seq<nat>, base: nat, docs: seq<nat>, freqs: seq<nat>, starts: seq<nat>, b: nat)
    requires IsList(codec, data, base, docs, freqs, starts) && b < Blocks(|docs|)
    ensures IsPostings(docs, freqs) && |starts| == Blocks(|docs|)
    ensures StartsAt(data, base, |docs|, b, starts[b])
    ensures StandsAt(data, DataOffset(base, |docs|) + starts[b],
              DocsCode(codec, docs, freqs, b) + FreqsCode(codec, docs, freqs, b))
  {
    hide IsPostings, DocsCode, FreqsCode, StandsAt, WordAt, LastOf;
    assert BlockAt(codec, data, base, docs, freqs, b, starts[b]);
  }

  /** What stands at a position comes first in the rest of the data. */
  lemma FrontOfRest(data: seq<nat>, pos: nat, part: seq<nat>)
    requires StandsAt(data, pos, part)
    ensures pos <= |data| && data[pos..] == part + data[pos + |part|..]
  {
  }

  lemma DocsDecoded(codec: Codec, data: seq<nat>, base: nat, docs: seq<nat>, freqs: seq<nat>, starts: seq<nat>, b: nat)
    requires IsCodec(codec) && IsList(codec, data, base, docs, freqs, starts) && b < Blocks(|docs|)
    ensures IsPostings(docs, freqs) && |starts| == Blocks(|docs|)
    ensures var pos := DataOffset(base, |docs|) + starts[b];
      && pos <= |data| && 0 <= GapsUniverse(docs, b)
      && codec.decode(data[pos..], GapsUniverse(docs, b), Size(|docs|, b)) ==
         (BlockGaps(docs, b), |DocsCode(codec, docs, freqs, b)|)
  {
    hide FewOccurrences, StandsAt, IsList, IsBlock;
    BlockThere(codec, data, base, docs, freqs, starts, b);
    BlocksAreBlocks(docs, freqs, b);
    var pos, d, f := DataOffset(base, |docs|) + starts[b], DocsCode(codec, docs, freqs, b), FreqsCode(codec, docs,
      freqs, b);
    StandsInParts(data, pos, d, f);
    FrontOfRest(data, pos, d);
    assert DecodesBack(codec, BlockGaps(docs, b), GapsUniverse(docs, b), data[pos + |d|..]);
  }

  lemma FreqsDecoded(codec: Codec, data: seq<nat>, base: nat, docs: seq<nat>, freqs: seq<nat>, starts: seq<nat>, b: nat)
    requires IsCodec(codec) && IsList(codec, data, base, docs, freqs, starts) && b < Blocks(|docs|)
    ensures IsPostings(docs, freqs) && |starts| == Blocks(|docs|)
    ensures var pos := DataOffset(base, |docs|) + starts[b] + |DocsCode(codec, docs, freqs, b)|;
      && pos <= |data|
      && codec.decode(data[pos..], UNKNOWN, Size(|docs|, b)) ==
         (BlockFreqs(freqs, b), |FreqsCode(codec, docs, freqs, b)|)
  {
    hide FewOccurrences, StandsAt, IsList, IsBlock;
    BlockThere(codec, data, base, docs, freqs, starts, b);
    BlocksAreBlocks(docs, freqs, b);
    var pos, d, f := DataOffset(base, |docs|) + starts[b], DocsCode(codec, docs, freqs, b), FreqsCode(codec, docs,
      freqs, b);
    StandsInParts(data, pos, d, f);
    FrontOfRest(data, pos + |d|, f);
    assert DecodesBack(codec, BlockFreqs(freqs, b), UNKNOWN, data[pos + |d| + |f|..]);
  }

  /** order[i] is the number of the block that goes to place i. */
  ghost predicate IsReordering(order: seq<nat>, blocks: nat) {
    && |order| == blocks > 0 && order[0] == 0
    && (forall i :: 0 <= i < blocks ==> order[i] < blocks)
    && (forall i, j :: 0 <= i < j < blocks ==> order[i] != order[j])
    && (forall b :: 0 <= b < blocks ==> Takes(order, b))
  }

  ghost predicate Takes(order: seq<nat>, b: nat) {
    exists i :: 0 <= i < |order| && order[i] == b
  }

  function Reordered(blocks: seq<BlockData>, order: seq<nat>): (r: seq<BlockData>)
    requires forall i :: 0 <= i < |order| ==> order[i] < |blocks|
    ensures |r| == |order| && forall i :: 0 <= i < |r| ==> r[i] == blocks[order[i]]
  {
    seq(|order|, i requires 0 <= i < |order| => blocks[order[i]])
  }

  /**
   * Reordering the blocks of a list is invisible: the list that is written from them, in any order that
   * keeps block 0 first, is the same list to every cursor.
   */
  method Reorder(cursor: Cursor, order: seq<nat>, before: seq<nat>)
    returns (out: seq<nat>, ghost starts: seq<nat>, reopened: Cursor)
    requires cursor.Opened() && InOrder(cursor.codec, cursor.docs, cursor.freqs, cursor.starts)
    requires IsReordering(order, cursor.blocks)
    requires Offset(cursor.codec, cursor.docs, cursor.freqs, cursor.blocks) < UINT32
    ensures before <= out && IsList(cursor.codec, out, |before|, cursor.docs, cursor.freqs, starts)
    ensures fresh(reopened) && reopened.Valid() && reopened.Position() == 0
    ensures reopened.docs == cursor.docs && reopened.freqs == cursor.freqs && reopened.universe == cursor.universe
  {
    hide IsPostings, DocsCode, FreqsCode, IsCodec, IsList, Offset, IsBlockData, IsOrder, Cursor.Loaded;
    ghost var codec, docs, freqs := cursor.codec, cursor.docs, cursor.freqs;
    Postings(codec, cursor.data, cursor.base, docs, freqs, cursor.starts);
    var blocks := cursor.GetBlocks();
    var permuted := Reordered(blocks, order);
    ReorderedIsOrder(codec, docs, freqs, blocks, order);
    ReorderedSize(codec, docs, freqs, blocks, order);
    out, starts := WriteBlocks(codec, before, cursor.n, permuted, docs, freqs);
    reopened := new Cursor(cursor.codec, out, |before|, cursor.universe, docs, freqs, starts);
  }

  lemma ReorderedIsOrder(codec: Codec, docs: seq<nat>, freqs: seq<nat>, blocks: seq<BlockData>, order: seq<nat>)
    requires IsPostings(docs, freqs) && |blocks| == Blocks(|docs|) && IsReordering(order, |blocks|)
    requires forall b :: 0 <= b < |blocks| ==> blocks[b].index == b && IsBlockData(codec, docs, freqs, blocks[b])
    ensures IsOrder(codec, docs, freqs, Reordered(blocks, order))
  {
    hide IsPostings, IsBlockData, Reordered;
    var r := Reordered(blocks, order);
    forall b | 0 <= b < |r|
      ensures Contains(r, b)
    {
      assert Takes(order, b);
      var i :| 0 <= i < |order| && order[i] == b;
      assert r[i].index == b;
    }
  }

  function Without<T>(s: seq<T>, i: nat): (r: seq<T>)
    requires i < |s|
    ensures |r| == |s| - 1 && forall j :: 0 <= j < |r| ==> r[j] == s[if j < i then j else j + 1]
  {
    s[..i] + s[i + 1..]
  }

  lemma {:induction false} SizeWithout(s: seq<BlockData>, i: nat)
    requires i < |s|
    ensures TotalSize(s) == TotalSize(Without(s, i)) + |s[i].docsCode| + |s[i].freqsCode|
    decreases |s|
  {
    var n := |s| - 1;
    if i == n {
      assert Without(s, i) == s[..n];
    } else {
      SizeWithout(s[..n], i);
      assert Without(s, i)[..n - 1] == Without(s[..n], i);
    }
  }

  /** order takes every number below its length once. */
  ghost predicate IsPermutation(order: seq<nat>) {
    && (forall i :: 0 <= i < |order| ==> order[i] < |order|)
    && (forall i, j :: 0 <= i < j < |order| ==> order[i] != order[j])
    && (forall b :: 0 <= b < |order| ==> Takes(order, b))
  }

  lemma PermutationWithout(order: seq<nat>, i: nat)
    requires IsPermutation(order) && i < |order| && order[i] == |order| - 1
    ensures IsPermutation(Without(order, i))
  {
    var r := Without(order, i);
    forall b | 0 <= b < |r|
      ensures Takes(r, b)
    {
      assert Takes(order, b);
      var j :| 0 <= j < |order| && order[j] == b;
      assert r[if j < i then j else j - 1] == b;
    }
    forall j | 0 <= j < |r|
      ensures r[j] < |r|
    {
      var k := if j < i then j else j + 1;
      assert order[k] != order[i];
    }
  }

  lemma {:induction false} PermutedSize(blocks: seq<BlockData>, order: seq<nat>)
    requires |order| == |blocks| && IsPermutation(order)
    ensures TotalSize(Reordered(blocks, order)) == TotalSize(blocks)
    decreases |blocks|
  {
    hide Without, TotalSize;
    var k := |blocks| - 1;
    if k >= 0 {
      assert Takes(order, k);
      var i :| 0 <= i < |order| && order[i] == k;
      PermutationWithout(order, i);
      var rest, order' := blocks[..k], Without(order, i);
      PermutedSize(rest, order');
      SizeWithout(Reordered(blocks, order), i);
      assert Without(Reordered(blocks, order), i) == Reordered(rest, order');
      LastSize(blocks);
    } else {
      assert Reordered(blocks, order) == blocks;
    }
  }

  lemma LastSize(s: seq<BlockData>)
    requires s != []
    ensures TotalSize(s) == TotalSize(s[..|s| - 1]) + |s[|s| - 1].docsCode| + |s[|s| - 1].freqsCode|
  {
  }

  lemma {:induction false} SizesAreOffsets(codec: Codec, docs: seq<nat>, freqs: seq<nat>, blocks: seq<BlockData>,
                                           m: nat)
    requires IsPostings(docs, freqs) && m <= |blocks| == Blocks(|docs|)
    requires forall b :: 0 <= b < |blocks| ==> blocks[b].index == b && IsBlockData(codec, docs, freqs, blocks[b])
    ensures TotalSize(blocks[..m]) == Offset(codec, docs, freqs, m)
  {
    hide IsPostings, DocsCode, FreqsCode, LastOf, GapsUniverse;
    if m > 0 {
      SizesAreOffsets(codec, docs, freqs, blocks, m - 1);
      assert blocks[..m][..m - 1] == blocks[..m - 1];
      assert IsBlockData(codec, docs, freqs, blocks[m - 1]);
    }
  }

  lemma ReorderedSize(codec: Codec, docs: seq<nat>, freqs: seq<nat>, blocks: seq<BlockData>, order: seq<nat>)
    requires IsPostings(docs, freqs) && |blocks| == Blocks(|docs|) && IsReordering(order, |blocks|)
    requires forall b :: 0 <= b < |blocks| ==> blocks[b].index == b && IsBlockData(codec, docs, freqs, blocks[b])
    ensures TotalSize(Reordered(blocks, order)) == Offset(codec, docs, freqs, |blocks|)
  {
    hide IsPostings, DocsCode, FreqsCode, IsBlockData, Offset, TotalSize, Reordered;
    PermutedSize(blocks, order);
    SizesAreOffsets(codec, docs, freqs, blocks, |blocks|);
    assert blocks[..|blocks|] == blocks;
  }

  /** What the repository's own test does: write a list with the interpolative codec and read every posting back. */
  method RoundTrip(docs: seq<nat>, freqs: seq<nat>, universe: nat) returns (readDocs: seq<nat>, readFreqs: seq<nat>)
    requires IsPostings(docs, freqs) && universe < UINT32
    requires Offset(Interpolative(), docs, freqs, Blocks(|docs|)) < UINT32
    ensures readDocs == docs && readFreqs == freqs
  {
    hide IsPostings, IsCodec, IsList, Offset, InOrder, Interpolative, Cursor.Loaded;
    InterpolativeIsCodec();
    CountFits(docs, freqs);
    var out, starts := Write(Interpolative(), [], docs, freqs);
    var cursor := new Cursor(Interpolative(), out, 0, universe, docs, freqs, starts);
    readDocs, readFreqs := [], [];
    var i := 0;
    while i < cursor.n
      invariant cursor.n == |docs| && i <= |docs| && cursor.docs == docs && cursor.freqs == freqs && fresh(cursor)
      invariant i < |docs| ==> cursor.Valid() && cursor.Position() == i
      invariant readDocs == docs[..i] && readFreqs == freqs[..i]
    {
      readDocs := readDocs + [cursor.curDocid];
      var freq := cursor.Freq();
      readFreqs := readFreqs + [freq];
      cursor.Next();
      i := i + 1;
    }
  }

  /**
   * Starting over and searching for each document finds it with its frequency; a search behind the last
   * one, and again on the exhausted cursor, reports the universe.
   */
  method SeekEach(cursor: Cursor, targets: seq<nat>) returns (found: seq<nat>, foundFreqs: seq<nat>, end: nat)
    requires cursor.Opened() && targets == cursor.docs
    modifies cursor
    ensures found == cursor.docs && foundFreqs == cursor.freqs && end == cursor.universe
  {
    hide IsPostings, IsCodec, IsList, Cursor.Loaded, FirstGeq, Cursor.NothingMissed, Cursor.Opened;
    OpenedList(cursor);
    found, foundFreqs := [], [];
    for i := 0 to |targets|
      invariant found == targets[..i] && foundFreqs == cursor.freqs[..i]
    {
      cursor.Reset();
      FirstGeqIs(targets, targets[i], i);
      cursor.ForwardMissesNothing(targets[i]);
      cursor.NextGeq(targets[i]);
      var freq := cursor.Freq();
      found, foundFreqs := found + [cursor.curDocid], foundFreqs + [freq];
    }
    cursor.Reset();
    var behind := targets[|targets| - 1] + 1;
    FirstGeqIs(targets, behind, |targets|);
    cursor.ForwardMissesNothing(behind);
    cursor.NextGeq(behind);
    cursor.NextGeq(behind) by {
      cursor.NothingLeft(behind);
    }
    end := cursor.curDocid;
  }

  lemma OpenedList(cursor: Cursor)
    requires cursor.Opened()
    ensures cursor.n == |cursor.docs| == |cursor.freqs| > 0 && Increasing(cursor.docs)
  {
    hide IsPostings, IsCodec, IsList;
    Postings(cursor.codec, cursor.data, cursor.base, cursor.docs, cursor.freqs, cursor.starts);
  }
}
