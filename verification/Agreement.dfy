/** What test/test_ranked_queries.cpp checks on a sample of queries, for every query. */
module Agreement {
  import MaxScore
  import RankedOr
  import Wand
  import opened Bm25
  import opened MonotoneSequence
  import opened Postings
  import opened QueryTerms
  import opened TopKQueue
  import opened WandData

  /** wand_query returns the same score list as ranked_or_query. */
  method WandAgainstOr(log: real -> real, index: Index, wdata: Data, k: nat, terms: seq<nat>)
    returns (wand: seq<real>, or: seq<real>)
    requires k >= 1 && Answerable(index, terms) && wdata.BoundsFor(index.lists)
    ensures wand == or
  {
    or := RankedOr.Query(log, index, wdata, k, terms);
    wand := Wand.Query(log, index, wdata, k, terms);
    var qf := QueryFreqs(terms);
    TopKIsUnique(k, Bm25UnionScores(log, index, wdata, terms, qf), wand, or);
  }

  // ---------------------------------------------------------------------------------------------
  // maxscore_query ranks by frequency, ranked_or_query by BM25. On an index of a single document with
  // frequency f in every list, the former scores at least f and the latter at most the query weights.

  function OneDocument(f: nat, size: nat): (index: Index)
    ensures |index.lists| == size && forall l :: l in index.lists ==> l == PostingList([0], [f])
  {
    Index(1, seq(size, _ => PostingList([0], [f])))
  }

  lemma OneDocumentIsValid(f: nat, size: nat)
    requires f >= 1
    ensures OneDocument(f, size).Valid()
  {
  }

  /** What the terms of a query weigh together, for lists of one document out of one. */
  function TotalWeight(log: real -> real, qf: seq<(nat, nat)>): real {
    if qf == [] then 0.0
    else TotalWeight(log, qf[..|qf| - 1]) + QueryTermWeight(log, qf[|qf| - 1].1, 1, 1)
  }

  lemma {:induction false} TotalWeightNonNegative(log: real -> real, qf: seq<(nat, nat)>)
    requires forall i :: 0 <= i < |qf| ==> qf[i].1 >= 1
    ensures TotalWeight(log, qf) >= 0.0
  {
    hide QueryTermWeight;
    if qf != [] {
      TotalWeightNonNegative(log, qf[..|qf| - 1]);
      QueryTermWeightPositive(log, qf[|qf| - 1].1, 1, 1);
    }
  }

  /** The lists of a query on that index. */
  ghost predicate SingleDocumentLists(ts: seq<TermList>, f: nat) {
    forall i :: 0 <= i < |ts| ==> ts[i].list == PostingList([0], [f])
  }

  lemma GainOfOne(t: TermList, scorer: Scorer, f: nat)
    requires f >= 1 && t.list == PostingList([0], [f])
    ensures t.Contribution(scorer, 0) == Times(t.qWeight, scorer.Weight(f, 0))
  {
    t.ContributionAt(scorer, 1, 0);
  }

  /** By frequency, the document reaches the sum of all bounds. */
  lemma {:induction false} FreqScoreReachesBounds(ts: seq<TermList>, f: nat, n: nat)
    requires f >= 1 && SingleDocumentLists(ts, f) && n <= |ts|
    requires forall i :: 0 <= i < |ts| ==> ts[i].qWeight >= 1.0 && ts[i].maxWeight == f as real
    ensures PartialScore(ts, FreqScorer, 0, n) >= MaxSum(ts, n) >= if n > 0 then f as real else 0.0
  {
    if n > 0 {
      FreqScoreReachesBounds(ts, f, n - 1);
      GainOfOne(ts[n - 1], FreqScorer, f);
      TimesAtLeast(ts[n - 1].qWeight, f as real);
    }
  }

  lemma TimesAtLeast(q: real, x: real)
    requires q >= 1.0 && x >= 0.0
    ensures Times(q, x) >= x
  {
    assert (q - 1.0) * x >= 0.0;
  }

  lemma TimesAtMost(q: real, x: real)
    requires q >= 0.0 && 0.0 <= x <= 1.0
    ensures Times(q, x) <= q
  {
    assert q * (1.0 - x) >= 0.0;
  }

  /** By BM25, the document scores no more than the query weighs. */
  lemma {:induction false} Bm25ScoreStaysSmall(log: real -> real, ts: seq<TermList>, qf: seq<(nat, nat)>,
                                               normLens: seq<NonNegative>, f: nat, n: nat)
    requires f >= 1 && SingleDocumentLists(ts, f) && n <= |ts| == |qf|
    requires forall i :: 0 <= i < |qf| ==> qf[i].1 >= 1 && ts[i].qWeight == QueryTermWeight(log, qf[i].1, 1, 1)
    ensures PartialScore(ts, Bm25Scorer(normLens), 0, n) <= TotalWeight(log, qf[..n])
  {
    hide QueryTermWeight, DocTermWeight, Times;
    if n > 0 {
      Bm25ScoreStaysSmall(log, ts, qf, normLens, f, n - 1);
      GainOfOne(ts[n - 1], Bm25Scorer(normLens), f);
      QueryTermWeightPositive(log, qf[n - 1].1, 1, 1);
      if normLens != [] {
        DocTermWeightBelowOne(f, normLens[0]);
      }
      TimesAtMost(ts[n - 1].qWeight, Bm25Scorer(normLens).Weight(f, 0));
      assert qf[..n][..n - 1] == qf[..n - 1];
    }
  }

  lemma FreqListsOfOne(index: Index, bounds: seq<real>, qf: seq<(nat, nat)>, f: nat)
    requires |bounds| == |index.lists| && index == OneDocument(f, |index.lists|)
    requires forall i :: 0 <= i < |qf| ==> qf[i].0 < |index.lists| && qf[i].1 >= 1
    requires forall i :: 0 <= i < |bounds| ==> IsMaxFreq(index.lists[i].freqs, bounds[i])
    ensures var ts := FreqLists(index, bounds, qf);
      SingleDocumentLists(ts, f) && forall i :: 0 <= i < |ts| ==> ts[i].qWeight >= 1.0 && ts[i].maxWeight == f as real
  {
    var ts := FreqLists(index, bounds, qf);
    forall i | 0 <= i < |ts|
      ensures ts[i].list == PostingList([0], [f]) && ts[i].maxWeight == f as real
    {
      var list := index.lists[qf[i].0];
      assert list in index.lists && list.freqs[0] as real <= bounds[qf[i].0];
    }
  }

  lemma Bm25ListsOfOne(log: real -> real, index: Index, bounds: seq<real>, qf: seq<(nat, nat)>, f: nat)
    requires |bounds| == |index.lists| && index == OneDocument(f, |index.lists|)
    requires forall i :: 0 <= i < |qf| ==> qf[i].0 < |index.lists|
    ensures var ts := Bm25Lists(log, index, bounds, qf);
      SingleDocumentLists(ts, f) && forall i :: 0 <= i < |ts| ==> ts[i].qWeight == QueryTermWeight(log, qf[i].1, 1, 1)
  {
    hide QueryTermWeight;
    forall i | 0 <= i < |qf|
      ensures index.lists[qf[i].0] == PostingList([0], [f])
    {
      assert index.lists[qf[i].0] in index.lists;
    }
  }

  /** The best frequency score on that index. */
  lemma MaxScoreIsLarge(index: Index, wdata: Data, terms: seq<nat>, qf: seq<(nat, nat)>, f: nat, topk: seq<real>)
    requires Answerable(index, terms) && wdata.BoundsFor(index.lists) && IsQueryFreqs(terms, qf) && terms != []
    requires f >= 1 && index == OneDocument(f, |index.lists|) && MaxScore.StopsEarly(index, wdata, terms, qf, topk)
    ensures |topk| == 1 && topk[0] >= f as real
  {
    hide IsQueryFreqs;
    QueryTermsInRange(index, terms, qf);
    MaxScore.SomeTerm(terms, qf);
    FreqListsOfOne(index, wdata.maxTermWeight, qf, f);
    var ts := FreqLists(index, wdata.maxTermWeight, qf);
    FreqScoreReachesBounds(ts, f, |ts|);
    assert ts[0].list.docs[0] == 0;
    assert MaxScore.IsFirst(ts, 0);
  }

  /** The best BM25 score on that index. */
  lemma OrIsSmall(log: real -> real, index: Index, wdata: Data, terms: seq<nat>, qf: seq<(nat, nat)>, f: nat,
                  topk: seq<real>)
    requires Answerable(index, terms) && wdata.BoundsFor(index.lists) && IsQueryFreqs(terms, qf)
    requires f >= 1 && index == OneDocument(f, |index.lists|)
    requires IsTopK(1, Bm25UnionScores(log, index, wdata, terms, qf), topk)
    ensures forall x :: x in topk ==> x <= TotalWeight(log, qf)
  {
    hide IsQueryFreqs, TotalWeight, QueryTermWeight;
    QueryTermsInRange(index, terms, qf);
    Bm25ListsOfOne(log, index, wdata.maxTermWeight, qf, f);
    var ts, scorer := Bm25Lists(log, index, wdata.maxTermWeight, qf), Bm25Scorer(wdata.normLens);
    Bm25ScoreStaysSmall(log, ts, qf, wdata.normLens, f, |ts|);
    assert qf[..|ts|] == qf;
    forall x | x in topk
      ensures x <= TotalWeight(log, qf)
    {
      assert x in multiset(topk);
      OneScore(ts, scorer, x);
    }
  }

  lemma OneScore(ts: seq<TermList>, scorer: Scorer, x: real)
    requires x in UnionScores(ts, scorer, 1)
    ensures x == Score(ts, scorer, 0)
  {
    assert UnionScores(ts, scorer, 1 - 1) == multiset{};
  }

  /** For every query there is an index on which the two agree if and only if the query is empty. */
  method MaxScoreAgainstOr(log: real -> real, terms: seq<nat>)
    returns (index: Index, wdata: Data, maxScore: seq<real>, or: seq<real>)
    ensures Answerable(index, terms) && wdata.BoundsFor(index.lists)
    ensures forall l :: l in index.lists ==> l.docs != []
    ensures maxScore == or <==> terms == []
  {
    hide IsQueryFreqs, IsTopK, TotalWeight, IsMaxFreq;
    var qf := QueryFreqs(terms);
    var size := Size(terms);
    CountsPositive(terms, qf);
    TotalWeightNonNegative(log, qf);
    var f := TotalWeight(log, qf).Floor + 1;
    index := OneDocument(f, size);
    OneDocumentIsValid(f, size);
    wdata := new Data([1], index.lists) by {
      assert Total([1]) == 1;
    }
    if terms == [] {
      maxScore, or := EmptyQuery(log, index, wdata, 1);
      return;
    }
    maxScore := MaxScore.Query(index, wdata, 1, terms);
    or := RankedOr.Query(log, index, wdata, 1, terms);
    MaxScoreIsLarge(index, wdata, terms, qf, f, maxScore);
    OrIsSmall(log, index, wdata, terms, qf, f, or);
    assert maxScore[0] in maxScore;
  }

  lemma CountsPositive(terms: seq<nat>, qf: seq<(nat, nat)>)
    requires IsQueryFreqs(terms, qf)
    ensures forall i :: 0 <= i < |qf| ==> qf[i].1 >= 1
  {
  }

  /** On every index, both answer the empty query with nothing. */
  method EmptyQuery(log: real -> real, index: Index, wdata: Data, k: nat) returns (maxScore: seq<real>, or: seq<real>)
    requires k >= 1 && index.Valid() && wdata.BoundsFor(index.lists)
    ensures maxScore == or == []
  {
    hide IsQueryFreqs;
    var qf := QueryFreqs([]);
    NoTerms([], qf);
    EmptyUnion(FreqScorer, index.numDocs);
    EmptyUnion(Bm25Scorer(wdata.normLens), index.numDocs);
    maxScore := MaxScore.Query(index, wdata, k, []);
    or := RankedOr.Query(log, index, wdata, k, []);
    NothingBest(k, FreqUnionScores(index, wdata, [], qf), maxScore);
    NothingBest(k, Bm25UnionScores(log, index, wdata, [], qf), or);
  }

  lemma NothingBest(k: nat, all: multiset<real>, topk: seq<real>)
    requires all == multiset{} && IsTopK(k, all, topk)
    ensures topk == []
  {
    assert |multiset(topk)| == |topk|;
  }
}
