/** The cursors over an index keep the contract that queries rely on (freq_index.hpp, block_posting_list.hpp). */
module CursorRefinement {
  // A query drives the cursors of ScoredEnums. Each of these can be replaced by a cursor over a
  // compressed list: as long as both make the same moves, they report the same documents and frequencies.

  import opened MonotoneSequence
  import opened Postings
  import DocumentEnumerator
  import FreqIndex

  type IndexCursor = FreqIndex.DocumentEnumerator

  /** The cursor over an index stands where cursor i of the query stands. */
  ghost predicate Follows(e: IndexCursor, es: ScoredEnums, i: nat)
    reads es, e, e.docsEnum, e.freqsEnum, e.freqsEnum.base, e.freqsEnum.base.ef
  {
    && es.Valid() && i < |es.terms| && es.pos[i] <= |es.terms[i].list.docs|
    && e.Valid() && e.list == es.terms[i].list && e.numDocs == es.numDocs && e.curPos == es.pos[i]
  }

  lemma SameDocument(e: IndexCursor, es: ScoredEnums, i: nat)
    requires Follows(e, es, i)
    ensures e.curDocid == es.Docid(i)
  {
  }

  method FollowNext(e: IndexCursor, es: ScoredEnums, i: nat)
    requires Follows(e, es, i) && es.pos[i] < |es.terms[i].list.docs|
    modifies es, e, e.docsEnum
    ensures Follows(e, es, i) && es.pos == old(es.pos)[i := old(es.pos[i]) + 1]
  {
    hide FreqIndex.DocumentEnumerator.Valid;
    es.Next(i);
    e.Next();
  }

  method FollowNextGeq(e: IndexCursor, es: ScoredEnums, i: nat, bound: nat)
    requires Follows(e, es, i) && Passed(es.terms[i].list.docs, es.pos[i], bound) && bound <= es.numDocs
    modifies es, e, e.docsEnum
    ensures Follows(e, es, i) && es.pos == old(es.pos)[i := FirstGeq(es.terms[i].list.docs, bound, 0)]
  {
    hide FreqIndex.DocumentEnumerator.Valid, FreqIndex.DocumentEnumerator.Overruns, FirstGeq;
    e.NoOverrun(bound);
    es.NextGeq(i, bound);
    e.NextGeq(bound);
  }

  method FollowFreq(e: IndexCursor, es: ScoredEnums, i: nat) returns (freq: nat)
    requires Follows(e, es, i) && es.pos[i] < |es.terms[i].list.docs|
    modifies e.freqsEnum, e.freqsEnum.base.ef
    ensures Follows(e, es, i) && es.pos[i] < |es.terms[i].list.freqs| && freq == es.Freq(i)
  {
    hide FreqIndex.DocumentEnumerator.Valid;
    FreqIndex.AtElement(e);
    freq := e.Freq();
  }

  type BlockCursor = DocumentEnumerator.Cursor

  /** The same for a list in blocks, whose cursor forgets its position when it reaches the end. */
  ghost predicate BlockFollows(e: BlockCursor, es: ScoredEnums, i: nat)
    reads es, e
  {
    && es.Valid() && i < |es.terms| && es.pos[i] <= |es.terms[i].list.docs|
    && e.docs == es.terms[i].list.docs && e.freqs == es.terms[i].list.freqs && e.universe == es.numDocs && e.Opened()
    && if es.pos[i] < |es.terms[i].list.docs| then e.Valid() && e.Position() == es.pos[i] else e.Exhausted()
  }

  lemma SameBlockDocument(e: BlockCursor, es: ScoredEnums, i: nat)
    requires BlockFollows(e, es, i)
    ensures e.curDocid == es.Docid(i)
  {
    hide DocumentEnumerator.Cursor.Loaded, DocumentEnumerator.Cursor.Opened;
  }

  method FollowBlockNext(e: BlockCursor, es: ScoredEnums, i: nat)
    requires BlockFollows(e, es, i) && es.pos[i] < |es.terms[i].list.docs|
    modifies es, e
    ensures BlockFollows(e, es, i) && es.pos == old(es.pos)[i := old(es.pos[i]) + 1]
  {
    hide DocumentEnumerator.Cursor.Valid, DocumentEnumerator.Cursor.Exhausted, DocumentEnumerator.Cursor.Opened;
    DocumentEnumerator.OpenedList(e);
    es.Next(i);
    e.Next();
  }

  /** Whatever the bound: none of its documents has been passed. */
  method FollowBlockNextGeq(e: BlockCursor, es: ScoredEnums, i: nat, bound: nat)
    requires BlockFollows(e, es, i) && Passed(es.terms[i].list.docs, es.pos[i], bound)
    modifies es, e
    ensures BlockFollows(e, es, i) && es.pos == old(es.pos)[i := FirstGeq(es.terms[i].list.docs, bound, 0)]
  {
    hide FirstGeq, DocumentEnumerator.Cursor.Valid, DocumentEnumerator.Cursor.Exhausted,
      DocumentEnumerator.Cursor.Opened;
    DocumentEnumerator.OpenedList(e);
    e.PassedMissesNothing(es.pos[i], bound);
    es.NextGeq(i, bound);
    e.NextGeq(bound);
  }

  method FollowBlockFreq(e: BlockCursor, es: ScoredEnums, i: nat) returns (freq: nat)
    requires BlockFollows(e, es, i) && es.pos[i] < |es.terms[i].list.docs|
    modifies e
    ensures BlockFollows(e, es, i) && es.pos[i] < |es.terms[i].list.freqs| && freq == es.Freq(i)
  {
    hide DocumentEnumerator.Cursor.Valid, DocumentEnumerator.Cursor.Exhausted, DocumentEnumerator.Cursor.Opened;
    freq := e.Freq();
  }
}
