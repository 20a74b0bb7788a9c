/**
 * An inverted index (freq_index.hpp, bitvector_collection.hpp), instantiated as ef_index.
 *
 * Every list contributes one bit vector to each of two collections. In the first, the sum of the
 * frequencies, the number of documents unless that sum is 1, and the documents as an Elias-Fano
 * sequence; in the second, the frequencies as a positive sequence over strict Elias-Fano. A collection
 * is the concatenation of its bit vectors, with their starts in an Elias-Fano sequence, so that any
 * list can be opened directly.
 */
module FreqIndex {
  import opened BitVector
  import opened IntegerCodes
  import opened MonotoneSequence
  import opened Postings
  import opened PositiveSequence
  import EliasFano
  import EliasFanoEnumerator
  import IndexedSequence
  import StrictEliasFano

  type Parameters = IndexedSequence.Parameters

  // ---------------------------------------------------------------------------------------------
  // A collection of bit vectors: their concatenation, and where each of them starts

  /** The start of part i in the concatenation. */
  function Start(parts: seq<seq<bool>>, i: nat): nat
    requires i <= |parts|
  {
    if i == 0 then 0 else Start(parts, i - 1) + |parts[i - 1]|
  }

  function Starts(parts: seq<seq<bool>>, n: nat): (r: seq<nat>)
    requires n <= |parts|
    ensures |r| == n && forall i :: 0 <= i < n ==> r[i] == Start(parts, i)
  {
    if n == 0 then [] else Starts(parts, n - 1) + [Start(parts, n - 1)]
  }

  lemma {:induction false} StartsSorted(parts: seq<seq<bool>>, i: nat, j: nat)
    requires i <= j <= |parts|
    ensures Start(parts, i) <= Start(parts, j)
    ensures i < j ==> Start(parts, i) + |parts[i]| <= Start(parts, j)
    decreases j
  {
    if i < j {
      StartsSorted(parts, i, j - 1);
    }
  }

  lemma {:induction false} StartOfPrefix(parts: seq<seq<bool>>, part: seq<bool>, i: nat)
    requires i <= |parts|
    ensures Start(parts + [part], i) == Start(parts, i)
  {
    if i > 0 {
      StartOfPrefix(parts, part, i - 1);
    }
  }

  ghost predicate Concatenated(bits: seq<bool>, parts: seq<seq<bool>>) {
    && |bits| == Start(parts, |parts|)
    && forall i :: 0 <= i < |parts| ==> StandsAt(bits, Start(parts, i), parts[i])
  }

  lemma OneMorePart(bits: seq<bool>, parts: seq<seq<bool>>, part: seq<bool>)
    requires Concatenated(bits, parts)
    ensures Concatenated(bits + part, parts + [part])
    ensures Starts(parts + [part], |parts| + 1) == Starts(parts, |parts|) + [|bits|]
  {
    hide StandsAt;
    var parts' := parts + [part];
    StartsOfMore(parts, part);
    forall i | 0 <= i < |parts'|
      ensures StandsAt(bits + part, Start(parts', i), parts'[i])
    {
      StartOfPrefix(parts, part, i);
      if i < |parts| {
        StillStandsAt(bits, bits + part, Start(parts, i), parts[i]);
      } else {
        Appended(bits, part);
      }
    }
  }

  lemma StartsOfMore(parts: seq<seq<bool>>, part: seq<bool>)
    ensures Start(parts + [part], |parts|) == Start(parts, |parts|)
    ensures Start(parts + [part], |parts| + 1) == Start(parts, |parts|) + |part|
    ensures Starts(parts + [part], |parts| + 1) == Starts(parts, |parts|) + [Start(parts, |parts|)]
  {
    forall i | 0 <= i <= |parts|
      ensures Start(parts + [part], i) == Start(parts, i)
    {
      StartOfPrefix(parts, part, i);
    }
  }

  class CollectionBuilder {
    const params: Parameters
    var bitvectors: seq<bool>
    var endpoints: seq<nat>
    ghost var parts: seq<seq<bool>>

    ghost predicate Valid()
      reads this
    {
      && Concatenated(bitvectors, parts) && endpoints == Starts(parts, |parts|) + [|bitvectors|]
      && forall i :: 0 <= i < |parts| ==> parts[i] != []
    }

    constructor (params: Parameters)
      ensures Valid() && parts == [] && this.params == params
    {
      this.params := params;
      bitvectors, endpoints, parts := [], [0], [];
    }

    method Append(bits: seq<bool>)
      requires Valid() && bits != []
      modifies this
      ensures Valid() && parts == old(parts) + [bits]
    {
      OneMorePart(bitvectors, parts, bits);
      bitvectors := bitvectors + bits;
      endpoints := endpoints + [|bitvectors|];
      parts := parts + [bits];
    }

    /** The starts go into an Elias-Fano sequence; the last endpoint is dropped. */
    method Build() returns (c: Collection)
      requires Valid() && parts != []
      ensures c.Holds(params, parts)
    {
      hide EliasFano.Encoded, EliasFano.Offsets.End, Concatenated;
      var size := |endpoints| - 1;
      var bvb := new BitVectorBuilder();
      StartsFit(bitvectors, parts);
      assert endpoints[..size] == Starts(parts, |parts|);
      var ok := EliasFano.Write(bvb, endpoints[..size], |bitvectors|, params.efLogSampling0, params.efLogSampling1);
      c := Collection(size, bvb.bits, bitvectors);
    }
  }

  lemma StartsFit(bits: seq<bool>, parts: seq<seq<bool>>)
    requires Concatenated(bits, parts) && forall i :: 0 <= i < |parts| ==> parts[i] != []
    ensures var s := Starts(parts, |parts|);
      Sorted(s) && forall i :: 0 <= i < |s| ==> s[i] < |bits|
  {
    var s := Starts(parts, |parts|);
    forall i, j | 0 <= i <= j < |s|
      ensures s[i] <= s[j] < |bits|
    {
      StartsSorted(parts, i, j);
      StartsSorted(parts, j, |parts|);
    }
  }

  datatype Collection = Collection(size: nat, endpoints: seq<bool>, bitvectors: seq<bool>) {
    ghost predicate Holds(params: Parameters, parts: seq<seq<bool>>) {
      && size == |parts| && Concatenated(bitvectors, parts)
      && EliasFano.Encoded(endpoints, params.Ef(0, |bitvectors|, size), Starts(parts, |parts|))
    }

    /** Where the i-th bit vector starts. */
    method Get(params: Parameters, i: nat, ghost parts: seq<seq<bool>>) returns (at: nat)
      requires Holds(params, parts) && i < size
      ensures StandsAt(bitvectors, at, parts[i])
    {
      hide EliasFano.Encoded;
      var e := new EliasFanoEnumerator.Enumerator(endpoints, 0, |bitvectors|, size,
        params.efLogSampling0, params.efLogSampling1,
        Starts(parts, |parts|));
      var _, endpoint := e.Move(i);
      at := endpoint;
    }
  }

  // ---------------------------------------------------------------------------------------------
  // What one list looks like

  /** The sum of the frequencies and, unless that is 1, the length. */
  function Header(list: PostingList): seq<bool>
    requires Total(list.freqs) > 0
  {
    var occurrences := Total(list.freqs);
    GammaCode(occurrences - 1) + if occurrences > 1 then ToBits(|list.docs|, CeilLog2(occurrences + 1)) else []
  }

  function DocsOffsets(params: Parameters, base: nat, numDocs: nat, list: PostingList): EliasFano.Offsets
    requires Total(list.freqs) > 0
  {
    params.Ef(base + |Header(list)|, numDocs, |list.docs|)
  }

  function FreqsOffsets(params: Parameters, base: nat, list: PostingList): EliasFano.Offsets
    requires |list.docs| <= Total(list.freqs)
  {
    StrictEliasFano.StrictOffsets(base, Total(list.freqs) + 1, |list.docs|,
      params.efLogSampling0, params.efLogSampling1)
  }

  ghost predicate IsList(numDocs: nat, list: PostingList) {
    list.docs != [] && list.Valid(numDocs)
  }

  lemma ListTotals(numDocs: nat, list: PostingList)
    requires IsList(numDocs, list)
    ensures 0 < |list.docs| == |list.freqs| <= Total(list.freqs) && Positive(list.freqs)
  {
    SumsIncrease(list.freqs);
  }

  /** The documents of a list start at the base. */
  ghost predicate DocsAt(bits: seq<bool>, base: nat, params: Parameters, numDocs: nat, list: PostingList) {
    && Total(list.freqs) > 0 && StandsAt(bits, base, Header(list))
    && EliasFano.Encoded(bits, DocsOffsets(params, base, numDocs, list), list.docs)
  }

  ghost predicate FreqsAt(bits: seq<bool>, base: nat, params: Parameters, list: PostingList) {
    && |list.docs| <= Total(list.freqs)
    && StrictEliasFano.Encoded(bits, FreqsOffsets(params, base, list), Sums(list.freqs))
  }

  /** A bit vector holds the documents of a list and nothing else. */
  ghost predicate DocsPart(part: seq<bool>, params: Parameters, numDocs: nat, list: PostingList) {
    DocsAt(part, 0, params, numDocs, list) && |part| == DocsOffsets(params, 0, numDocs, list).End()
  }

  ghost predicate FreqsPart(part: seq<bool>, params: Parameters, list: PostingList) {
    FreqsAt(part, 0, params, list) && |part| == FreqsOffsets(params, 0, list).End()
  }

  lemma StandsAtIsMoved(bits: seq<bool>, at: nat, part: seq<bool>, k: nat)
    requires StandsAt(bits, at, part) && k <= |part|
    ensures Moved(part, k, bits, at + k, |part| - k)
  {
    SliceOfSlice(bits, at, |part|, k, |part| - k);
  }

  lemma MovedDocs(part: seq<bool>, params: Parameters, numDocs: nat, list: PostingList, bits: seq<bool>, at: nat)
    requires DocsPart(part, params, numDocs, list) && StandsAt(bits, at, part)
    ensures DocsAt(bits, at, params, numDocs, list)
  {
    hide EliasFano.Encoded, EliasFano.Offsets.End, EliasFano.Offsets.Bitsize, Header, Moved;
    var of := DocsOffsets(params, 0, numDocs, list);
    of.Layout();
    var k := |Header(list)|;
    SliceOfSlice(bits, at, |part|, 0, k);
    StandsAtIsMoved(bits, at, part, k);
    EliasFano.MovedEncoding(part, of, list.docs, bits, at + k);
  }

  lemma MovedFreqs(part: seq<bool>, params: Parameters, list: PostingList, bits: seq<bool>, at: nat)
    requires FreqsPart(part, params, list) && StandsAt(bits, at, part)
    ensures FreqsAt(bits, at, params, list)
  {
    hide EliasFano.Encoded, EliasFano.Offsets.End, EliasFano.Offsets.Bitsize, Moved;
    StandsAtIsMoved(bits, at, part, 0);
    EliasFano.MovedEncoding(part, FreqsOffsets(params, 0, list), StrictEliasFano.Lowered(Sums(list.freqs)), bits, at);
  }

  // ---------------------------------------------------------------------------------------------
  // Building

  method WriteHeader(list: PostingList, occurrences: nat) returns (bvb: BitVectorBuilder)
    requires occurrences == Total(list.freqs) && 0 < |list.docs| <= occurrences
    ensures fresh(bvb) && bvb.bits == Header(list)
  {
    hide Pow2, ToBits, GammaCode, Total;
    bvb := new BitVectorBuilder();
    WriteGammaNonzero(bvb, occurrences);
    if occurrences > 1 {
      bvb.AppendBits(|list.docs|, CeilLog2(occurrences + 1));
    }
  }

  /** list_adder::prepare: the two bit vectors of a list. */
  method Prepare(params: Parameters, numDocs: nat, list: PostingList, occurrences: nat)
    returns (docsBits: seq<bool>, freqsBits: seq<bool>)
    requires IsList(numDocs, list) && occurrences == Total(list.freqs)
    ensures DocsPart(docsBits, params, numDocs, list) && FreqsPart(freqsBits, params, list)
    ensures docsBits != [] && freqsBits != []
  {
    hide EliasFano.Encoded, EliasFano.Offsets.End, StrictEliasFano.Encoded, Header;
    ListTotals(numDocs, list);
    var docs := WriteHeader(list, occurrences);
    assert StandsAt(docs.bits, 0, Header(list));
    ghost var header := docs.bits;
    var ok := EliasFano.Write(docs, list.docs, numDocs, params.efLogSampling0, params.efLogSampling1);
    StillStandsAt(header, docs.bits, 0, header);
    var freqs := new BitVectorBuilder();
    PositiveSequence.Write(freqs, list.freqs, occurrences + 1, params.efLogSampling0, params.efLogSampling1);
    docsBits, freqsBits := docs.bits, freqs.bits;
    SomeBits(DocsOffsets(params, 0, numDocs, list));
    SomeBits(FreqsOffsets(params, 0, list));
  }

  lemma SomeBits(of: EliasFano.Offsets)
    ensures of.End() > 0
  {
    hide EliasFano.Offsets.End;
    of.Layout();
  }

  class Builder {
    const params: Parameters
    const numDocs: nat
    const docsSequences: CollectionBuilder
    const freqsSequences: CollectionBuilder
    ghost var lists: seq<PostingList>

    ghost predicate Valid()
      reads this, docsSequences, freqsSequences
    {
      && docsSequences != freqsSequences && docsSequences.Valid() && freqsSequences.Valid()
      && docsSequences.params == freqsSequences.params == params
      && Prepared(params, numDocs, lists, docsSequences.parts, freqsSequences.parts)
    }

    constructor (numDocs: nat, params: Parameters)
      ensures Valid() && lists == [] && this.numDocs == numDocs && this.params == params
      ensures fresh(docsSequences) && fresh(freqsSequences)
    {
      this.numDocs, this.params := numDocs, params;
      docsSequences := new CollectionBuilder(params);
      freqsSequences := new CollectionBuilder(params);
      lists := [];
    }

    /** Prepares a list and commits it; an empty list is refused. */
    method AddPostingList(list: PostingList, occurrences: nat) returns (ok: bool)
      requires Valid() && list.Valid(numDocs) && occurrences == Total(list.freqs)
      modifies this, docsSequences, freqsSequences
      ensures Valid() && ok == (list.docs != [])
      ensures lists == if ok then old(lists) + [list] else old(lists)
    {
      hide DocsPart, FreqsPart, CollectionBuilder.Valid;
      if list.docs == [] {
        return false;
      }
      var docsBits, freqsBits := Prepare(params, numDocs, list, occurrences);
      docsSequences.Append(docsBits);
      freqsSequences.Append(freqsBits);
      lists := lists + [list];
      ok := true;
    }

    method Build() returns (index: FreqIndex)
      requires Valid() && lists != []
      ensures index.Indexes(lists) && index.params == params && index.numDocs == numDocs
    {
      hide Prepared, CollectionBuilder.Valid, Collection.Holds;
      PartsPerList(params, numDocs, lists, docsSequences.parts, freqsSequences.parts);
      var docs := docsSequences.Build();
      var freqs := freqsSequences.Build();
      index := FreqIndex(params, numDocs, docs, freqs);
      assert index.Stores(lists, docsSequences.parts, freqsSequences.parts);
    }
  }

  /** The parts of both collections, list by list. */
  ghost predicate Prepared(params: Parameters, numDocs: nat, lists: seq<PostingList>, docs: seq<seq<bool>>,
                           freqs: seq<seq<bool>>) {
    && |docs| == |freqs| == |lists|
    && forall i :: 0 <= i < |lists| ==>
      IsList(numDocs, lists[i]) && DocsPart(docs[i], params, numDocs, lists[i]) && FreqsPart(freqs[i], params, lists[i])
  }

  lemma PartsPerList(params: Parameters, numDocs: nat, lists: seq<PostingList>, docs: seq<seq<bool>>,
                     freqs: seq<seq<bool>>)
    requires Prepared(params, numDocs, lists, docs, freqs)
    ensures |docs| == |freqs| == |lists|
  {
  }

  // ---------------------------------------------------------------------------------------------
  // Reading

  datatype FreqIndex =
    FreqIndex(params: Parameters, numDocs: nat, docsSequences: Collection, freqsSequences: Collection)
  {
    ghost predicate Indexes(lists: seq<PostingList>) {
      exists docs, freqs :: Stores(lists, docs, freqs)
    }

    ghost predicate Stores(lists: seq<PostingList>, docs: seq<seq<bool>>, freqs: seq<seq<bool>>) {
      && docsSequences.Holds(params, docs) && freqsSequences.Holds(params, freqs)
      && Prepared(params, numDocs, lists, docs, freqs)
    }

    function Size(): nat {
      docsSequences.size
    }

    /** operator[]: opens the cursor on the i-th list. */
    method At(i: nat, ghost lists: seq<PostingList>) returns (e: DocumentEnumerator)
      requires Indexes(lists) && i < |lists|
      ensures fresh(e) && fresh(e.docsEnum) && fresh(e.freqsEnum) && fresh(e.freqsEnum.base)
      ensures fresh(e.freqsEnum.base.ef)
      ensures e.Valid() && e.list == lists[i] && e.numDocs == numDocs && e.curPos == 0
    {
      hide EliasFano.Encoded, StrictEliasFano.Encoded, Collection.Holds, DocsPart, FreqsPart, PostingList.Valid,
        Header, StandsAt;
      ghost var docs, freqs :| Stores(lists, docs, freqs);
      ghost var list := lists[i];
      ListTotals(numDocs, list);
      SizesAgree(this, lists, docs, freqs);
      var at := docsSequences.Get(params, i, docs);
      MovedDocs(docs[i], params, numDocs, list, docsSequences.bitvectors, at);
      var occurrences, n, pos := ReadHeader(docsSequences.bitvectors, at, list);
      var docsEnum := new EliasFanoEnumerator.Enumerator(docsSequences.bitvectors, pos, numDocs, n,
        params.efLogSampling0, params.efLogSampling1, list.docs);
      var freqsAt := freqsSequences.Get(params, i, freqs);
      MovedFreqs(freqs[i], params, list, freqsSequences.bitvectors, freqsAt);
      var freqsEnum := new PositiveSequence.Enumerator(freqsSequences.bitvectors, freqsAt, occurrences + 1, n,
        params.efLogSampling0, params.efLogSampling1, 0, list.freqs);
      e := new DocumentEnumerator(docsEnum, freqsEnum, list, numDocs);
    }
  }

  lemma SizesAgree(index: FreqIndex, lists: seq<PostingList>, docs: seq<seq<bool>>, freqs: seq<seq<bool>>)
    requires index.Stores(lists, docs, freqs)
    ensures index.docsSequences.size == index.freqsSequences.size == |lists|
  {
  }

  lemma TakeField(bits: seq<bool>, pos: nat, x: nat, len: nat)
    requires x < Pow2(len) && StandsAt(bits, pos, ToBits(x, len))
    ensures pos + len <= |bits| && Field(bits, pos, len) == x
  {
    ToNatToBits(x, len);
  }

  method ReadHeader(bits: seq<bool>, at: nat, ghost list: PostingList) returns (occurrences: nat, n: nat, pos: nat)
    requires 0 < |list.docs| <= Total(list.freqs) && StandsAt(bits, at, Header(list))
    ensures occurrences == Total(list.freqs) && n == |list.docs| && pos == at + |Header(list)|
  {
    hide GammaCode, Total, ToBits, CeilLog2, StandsAt, Pow2;
    ghost var total := Total(list.freqs);
    ghost var len := CeilLog2(total + 1);
    StandsInParts(bits, at, GammaCode(total - 1), if total > 1 then ToBits(|list.docs|, len) else []);
    var it := new BitEnumerator(bits, at);
    occurrences := it.ReadGammaNonzero(total);
    n := 1;
    if occurrences > 1 {
      TakeField(bits, it.pos, |list.docs|, len);
      n := it.Take(CeilLog2(occurrences + 1));
    }
    pos := it.pos;
  }

  /** The cursor that queries drive over a list. */
  class DocumentEnumerator {
    const docsEnum: EliasFanoEnumerator.Enumerator
    const freqsEnum: PositiveSequence.Enumerator
    ghost const list: PostingList
    ghost const numDocs: nat
    var curPos: nat
    var curDocid: nat

    ghost predicate Separate()
      reads this, docsEnum, freqsEnum, freqsEnum.base
    {
      docsEnum != freqsEnum.base.ef
    }

    ghost predicate Valid()
      reads this, docsEnum, freqsEnum, freqsEnum.base, freqsEnum.base.ef
    {
      && Separate() && list.Valid(numDocs) && list.docs != []
      && docsEnum.Valid() && docsEnum.v == list.docs && docsEnum.of.universe == numDocs && docsEnum.of.n == |list.docs|
      && freqsEnum.Valid() && freqsEnum.f == list.freqs
      && curPos == docsEnum.position && curDocid == DocAt(list.docs, curPos, numDocs)
    }

    constructor (docsEnum: EliasFanoEnumerator.Enumerator, freqsEnum: PositiveSequence.Enumerator,
                 ghost list: PostingList, ghost numDocs: nat)
      requires docsEnum != freqsEnum.base.ef && list.Valid(numDocs) && list.docs != []
      requires docsEnum.Valid() && docsEnum.v == list.docs && docsEnum.of.universe == numDocs
      requires docsEnum.of.n == |list.docs|
      requires freqsEnum.Valid() && freqsEnum.f == list.freqs
      modifies docsEnum
      ensures this.docsEnum == docsEnum && this.freqsEnum == freqsEnum && this.list == list && this.numDocs == numDocs
      ensures Valid() && curPos == 0
    {
      hide PositiveSequence.Enumerator.Valid, PostingList.Valid;
      this.docsEnum, this.freqsEnum, this.list, this.numDocs := docsEnum, freqsEnum, list, numDocs;
      var pos, val := docsEnum.Move(0);
      curPos, curDocid := pos, val;
    }

    function Size(): nat {
      docsEnum.Size()
    }

    method Next()
      requires Valid() && curPos < |list.docs|
      modifies this, docsEnum
      ensures Valid() && curPos == old(curPos) + 1
    {
      hide PositiveSequence.Enumerator.Valid, PostingList.Valid, EliasFanoEnumerator.Enumerator.Valid;
      var pos, val := docsEnum.Next();
      curPos, curDocid := pos, val;
    }

    method Move(to: nat)
      requires Valid() && to <= |list.docs|
      modifies this, docsEnum
      ensures Valid() && curPos == to
    {
      hide PositiveSequence.Enumerator.Valid, PostingList.Valid, EliasFanoEnumerator.Enumerator.Valid;
      var pos, val := docsEnum.Move(to);
      curPos, curDocid := pos, val;
    }

    /** Only past the end, with a bound just above the number of documents, the position leaves the list. */
    ghost predicate Overruns(bound: nat)
      reads this, docsEnum
    {
      docsEnum.Overruns(bound)
    }

    lemma NoOverrun(bound: nat)
      requires Valid() && bound <= numDocs
      ensures !Overruns(bound)
    {
      docsEnum.DoesNotOverrun(bound);
    }

    /** The first document at or beyond the bound, from wherever the cursor is. */
    method NextGeq(bound: nat)
      requires Valid()
      modifies this, docsEnum
      ensures !old(Overruns(bound)) ==> Valid() && curPos == FirstGeq(list.docs, bound, 0)
      ensures old(Overruns(bound)) ==> bound > numDocs && curPos == |list.docs| + 1 && curDocid == numDocs
    {
      hide PositiveSequence.Enumerator.Valid, EliasFanoEnumerator.Enumerator.Valid;
      docsEnum.InBounds();
      StaysPut(list, numDocs, curPos);
      ghost var overruns := Overruns(bound);
      var pos, val := docsEnum.NextGeq(bound);
      if !overruns {
        docsEnum.InBounds();
      }
      curPos, curDocid := pos, val;
    }

    method Freq() returns (freq: nat)
      requires Valid() && curPos < |list.docs|
      modifies freqsEnum, freqsEnum.base.ef
      ensures Valid() && freq == list.freqs[curPos]
    {
      hide PositiveSequence.Enumerator.Valid, EliasFanoEnumerator.Enumerator.Valid;
      var _, val := freqsEnum.Move(curPos);
      freq := val;
    }
  }

  /** Documents are strictly increasing, so the cursor is on the first one at or beyond the one it is on. */
  lemma StaysPut(list: PostingList, numDocs: nat, pos: nat)
    requires list.Valid(numDocs) && pos <= |list.docs|
    ensures FirstGeq(list.docs, DocAt(list.docs, pos, numDocs), 0) == pos
  {
    FirstGeqIs(list.docs, DocAt(list.docs, pos, numDocs), pos);
  }

  lemma AtElement(e: DocumentEnumerator)
    requires e.Valid()
    ensures e.Size() == |e.list.docs| == |e.list.freqs| && e.curPos <= |e.list.docs|
    ensures e.curPos < |e.list.docs| ==> e.curDocid == e.list.docs[e.curPos]
  {
  }

  lemma OneMore<T>(s: seq<T>, n: nat)
    requires n < |s|
    ensures s[..n + 1] == s[..n] + [s[n]]
  {
  }

  /** What verify_collection compares: document and frequency at the cursor, which then moves on. */
  method ReadPosting(e: DocumentEnumerator) returns (docid: nat, freq: nat)
    requires e.Valid() && e.curPos < |e.list.docs|
    modifies e, e.docsEnum, e.freqsEnum, e.freqsEnum.base.ef
    ensures e.Valid() && e.curPos == old(e.curPos) + 1
    ensures docid == e.list.docs[old(e.curPos)] && e.curPos <= |e.list.freqs| && freq == e.list.freqs[old(e.curPos)]
  {
    hide DocumentEnumerator.Valid;
    AtElement(e);
    docid := e.curDocid;
    freq := e.Freq();
    e.Next();
  }

  /** verify_collection for one list: walking over it gives back what was added. */
  method ReadList(index: FreqIndex, i: nat, ghost lists: seq<PostingList>) returns (list: PostingList)
    requires index.Indexes(lists) && i < |lists|
    ensures list == lists[i]
  {
    hide DocumentEnumerator.Valid, FreqIndex.Indexes;
    var e := index.At(i, lists);
    var docs, freqs := [], [];
    AtElement(e);
    while e.curPos < e.Size()
      invariant e.Valid() && e.list == lists[i] && e.curPos <= |e.list.docs| == |e.list.freqs|
      invariant fresh(e) && fresh(e.docsEnum) && fresh(e.freqsEnum) && fresh(e.freqsEnum.base.ef)
      invariant docs == e.list.docs[..e.curPos] && freqs == e.list.freqs[..e.curPos] && e.Size() == |e.list.docs|
      decreases |e.list.docs| - e.curPos
    {
      OneMore(e.list.docs, e.curPos);
      OneMore(e.list.freqs, e.curPos);
      var docid, freq := ReadPosting(e);
      docs, freqs := docs + [docid], freqs + [freq];
    }
    list := PostingList(docs, freqs);
  }

  method BuildIndex(lists: seq<PostingList>, numDocs: nat, params: Parameters) returns (index: FreqIndex)
    requires lists != [] && forall i :: 0 <= i < |lists| ==> IsList(numDocs, lists[i])
    ensures index.Indexes(lists) && index.numDocs == numDocs
  {
    hide IsList, Builder.Valid, FreqIndex.Indexes, PostingList.Valid, Total;
    var builder := new Builder(numDocs, params);
    for i := 0 to |lists|
      invariant builder.Valid() && builder.lists == lists[..i]
      invariant fresh(builder) && fresh(builder.docsSequences) && fresh(builder.freqsSequences)
    {
      ListIsValid(numDocs, lists[i]);
      OneMore(lists, i);
      var ok := builder.AddPostingList(lists[i], Total(lists[i].freqs));
    }
    assert lists[..|lists|] == lists;
    index := builder.Build();
  }

  /** Building an index from non-empty lists and walking over it gives the lists back. */
  method RoundTrip(lists: seq<PostingList>, numDocs: nat, params: Parameters) returns (read: seq<PostingList>)
    requires lists != [] && forall i :: 0 <= i < |lists| ==> IsList(numDocs, lists[i])
    ensures read == lists
  {
    hide FreqIndex.Indexes, IsList;
    var index := BuildIndex(lists, numDocs, params);
    read := [];
    for i := 0 to |lists|
      invariant read == lists[..i]
    {
      OneMore(lists, i);
      var list := ReadList(index, i, lists);
      read := read + [list];
    }
  }

  lemma ListIsValid(numDocs: nat, list: PostingList)
    requires IsList(numDocs, list)
    ensures list.docs != [] && list.Valid(numDocs)
  {
  }
}
