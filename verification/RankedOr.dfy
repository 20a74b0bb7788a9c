/** ranked_or_query (queries.hpp): the exhaustive evaluation that the pruned operators are measured against. */
module RankedOr {
  import opened Postings
  import opened QueryTerms
  import opened TermScores
  import opened TopKQueue
  import opened Traversal
  import opened UnionSweep
  import opened WandData

  lemma IdentityView<T>(s: seq<T>)
    ensures View(s, Identity(|s|)) == s
  {
  }

  /** Scores d on every list that holds it, and finds the next document. */
  method ScoreAll(es: ScoredEnums, scorer: Scorer, d: nat) returns (score: real, next: nat)
    requires es.Valid() && ValidLists(es.terms, es.numDocs) && d < es.numDocs
    requires AtDocument(es.terms, es.pos, es.numDocs, d)
    modifies es
    ensures es.Valid() && d < next && AtDocument(es.terms, es.pos, es.numDocs, next)
    ensures score == Score(es.terms, scorer, d)
    ensures forall e :: d < e < next ==> !InUnion(es.terms, e)
  {
    hide View, PostingList.Valid, TermList.Contribution;
    var all := Identity(|es.terms|);
    IdentityArranged(es.terms);
    IdentityView(es.terms);
    IdentityView(es.pos);
    OthersDoNotHold(es.terms, es.pos, es.numDocs, d, 0);
    score, next := Sweep(es, all, 0, scorer, d);
    IdentityView(es.pos);
    Swept(es.terms, old(es.pos), es.pos, es.numDocs, d, 0, next);
    ReadyLater(es.terms, es.pos, d + 1, next);
  }

  /** One document is scored and offered; up to the next one there is nothing in the union. */
  method Step(es: ScoredEnums, scorer: Scorer, queue: Queue, d: nat) returns (next: nat)
    requires es.Valid() && ValidLists(es.terms, es.numDocs) && d < es.numDocs
    requires AtDocument(es.terms, es.pos, es.numDocs, d) && Covered(queue, es.terms, scorer, d)
    modifies es, queue
    ensures es.Valid() && d < next && AtDocument(es.terms, es.pos, es.numDocs, next)
    ensures Covered(queue, es.terms, scorer, next)
  {
    var score;
    score, next := ScoreAll(es, scorer, d);
    var entered := queue.Insert(score, score);
    SkipRange(queue, es.terms, scorer, d + 1, next);
  }

  /** Every document of the union is scored once, in increasing order. */
  method Visit(es: ScoredEnums, scorer: Scorer, queue: Queue)
    requires es.Valid() && ValidLists(es.terms, es.numDocs) && es.terms != []
    requires (forall i :: 0 <= i < |es.terms| ==> es.pos[i] == 0) && Covered(queue, es.terms, scorer, 0)
    modifies es, queue
    ensures Covered(queue, es.terms, scorer, es.numDocs)
  {
    hide View, PostingList.Valid, TermList.Contribution;
    var curDoc := MinDocid(es);
    StartsAtDocument(es.terms, es.pos, es.numDocs, curDoc);
    SkipRange(queue, es.terms, scorer, 0, curDoc);
    while curDoc < es.numDocs
      invariant es.Valid() && AtDocument(es.terms, es.pos, es.numDocs, curDoc)
      invariant Covered(queue, es.terms, scorer, curDoc)
      decreases es.numDocs - curDoc
    {
      curDoc := Step(es, scorer, queue, curDoc);
    }
  }

  /** ranked_or_query::operator(): the top k of the BM25 scores over the union of the lists. */
  method Query(log: real -> real, index: Index, wdata: Data, k: nat, terms: seq<nat>) returns (topk: seq<real>)
    requires k >= 1 && Answerable(index, terms) && wdata.BoundsFor(index.lists)
    ensures forall qf :: IsQueryFreqs(terms, qf) ==>
      IsTopK(k, Bm25UnionScores(log, index, wdata, terms, qf), topk)
    ensures index.numDocs <= |wdata.normLens| ==>
      IsTopK(k, Bm25AnyScores(log, index, wdata.normLens, terms), topk)
  {
    var queue := new Queue(k);
    var qf := QueryFreqs(terms);
    QueryTermsInRange(index, terms, qf);
    Bm25ListsBounded(log, index, wdata, qf);
    if terms == [] {
      NoTerms(terms, qf);
      EmptyUnion(Bm25Scorer(wdata.normLens), index.numDocs);
    } else {
      var lists := Bm25Lists(log, index, wdata.maxTermWeight, qf);
      assert terms[0] in terms;
      var es := new ScoredEnums(lists, index.numDocs);
      Visit(es, Bm25Scorer(wdata.normLens), queue);
    }
    topk := queue.Finalize();
    forall other | IsQueryFreqs(terms, other)
      ensures IsTopK(k, Bm25UnionScores(log, index, wdata, terms, other), topk)
    {
      QueryFreqsUnique(terms, qf, other);
    }
    if index.numDocs <= |wdata.normLens| {
      Bm25UnionByTerms(log, index, wdata, terms, qf);
    }
  }
}
