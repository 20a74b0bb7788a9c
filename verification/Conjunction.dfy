/** Conjunctive queries: and_query and ranked_and_query (queries.hpp). */
module Conjunction {
  import opened MonotoneSequence
  import opened Postings
  import opened QueryTerms
  import opened TermScores
  import opened TopKQueue
  import opened Traversal
  import opened WandData

  ghost predicate InAll(ts: seq<TermList>, d: nat) {
    forall i :: 0 <= i < |ts| ==> d in ts[i].list.docs
  }

  /** The documents below limit that every list holds. */
  ghost function Matches(ts: seq<TermList>, limit: nat): set<nat> {
    set d: nat | d < limit && InAll(ts, d)
  }

  /** The scores of the documents below limit that every list holds. */
  ghost function IntersectionScores(ts: seq<TermList>, scorer: Scorer, limit: nat): multiset<real> {
    if limit == 0 then multiset{}
    else
      IntersectionScores(ts, scorer, limit - 1) +
      if InAll(ts, limit - 1) then multiset{Score(ts, scorer, limit - 1)} else multiset{}
  }

  lemma {:induction false} NoScores(ts: seq<TermList>, scorer: Scorer, from: nat, end: nat)
    requires from <= end && forall d :: from <= d < end ==> !InAll(ts, d)
    ensures IntersectionScores(ts, scorer, end) == IntersectionScores(ts, scorer, from)
    decreases end
  {
    if end > from {
      NoScores(ts, scorer, from, end - 1);
    }
  }

  /** A stretch of candidates without a match changes neither result. */
  lemma NoMatches(ts: seq<TermList>, scorer: Scorer, from: nat, end: nat)
    requires from <= end && forall d :: from <= d < end ==> !InAll(ts, d)
    ensures Matches(ts, end) == Matches(ts, from)
    ensures IntersectionScores(ts, scorer, end) == IntersectionScores(ts, scorer, from)
  {
    NoScores(ts, scorer, from, end);
    forall d: nat
      ensures d in Matches(ts, end) <==> d in Matches(ts, from)
    {
    }
  }

  /** A match adds itself and its score. */
  lemma OneMatch(ts: seq<TermList>, scorer: Scorer, d: nat, end: nat)
    requires d < end && InAll(ts, d) && forall e :: d < e < end ==> !InAll(ts, e)
    ensures |Matches(ts, end)| == |Matches(ts, d)| + 1
    ensures IntersectionScores(ts, scorer, end) == IntersectionScores(ts, scorer, d) + multiset{Score(ts, scorer, d)}
  {
    NoMatches(ts, scorer, d + 1, end);
    assert Matches(ts, d + 1) == Matches(ts, d) + {d};
  }

  lemma InAllOfPermutation(a: seq<TermList>, b: seq<TermList>, d: nat)
    requires multiset(a) == multiset(b)
    ensures InAll(a, d) <==> InAll(b, d)
  {
    PermutationMembers(a, b);
    if InAll(a, d) {
      forall i | 0 <= i < |b|
        ensures d in b[i].list.docs
      {
        assert b[i] in a;
      }
    }
    if InAll(b, d) {
      forall i | 0 <= i < |a|
        ensures d in a[i].list.docs
      {
        assert a[i] in b;
      }
    }
  }

  /** The order of the lists matters neither for the matches nor for their scores. */
  lemma MatchesOfPermutation(a: seq<TermList>, b: seq<TermList>, limit: nat)
    requires multiset(a) == multiset(b)
    ensures Matches(a, limit) == Matches(b, limit)
  {
    forall d: nat
      ensures InAll(a, d) <==> InAll(b, d)
    {
      InAllOfPermutation(a, b, d);
    }
  }

  lemma ScoresOfPermutation(a: seq<TermList>, b: seq<TermList>, scorer: Scorer, limit: nat)
    requires multiset(a) == multiset(b)
    ensures IntersectionScores(a, scorer, limit) == IntersectionScores(b, scorer, limit)
  {
    forall d: nat
      ensures Score(a, scorer, d) == Score(b, scorer, d) && (InAll(a, d) <==> InAll(b, d))
    {
      ScoreOfPermutation(a, b, scorer, d);
      InAllOfPermutation(a, b, d);
    }
    SameScoresSameMatches(a, b, scorer, limit);
  }

  lemma SameScoresSameMatches(a: seq<TermList>, b: seq<TermList>, scorer: Scorer, limit: nat)
    requires forall d: nat :: Score(a, scorer, d) == Score(b, scorer, d) && (InAll(a, d) <==> InAll(b, d))
    ensures IntersectionScores(a, scorer, limit) == IntersectionScores(b, scorer, limit)
  {
  }

  // ---------------------------------------------------------------------------------------------
  // Looking for the next match

  /** The first i cursors are on the candidate, and no cursor has passed it. */
  ghost predicate Agreeing(ts: seq<TermList>, ps: seq<nat>, numDocs: nat, candidate: nat, i: nat) {
    && Ready(ts, ps, candidate) && i <= |ts|
    && forall j :: 0 <= j < i ==> Doc(ts, ps, numDocs, j) == candidate
  }

  lemma AgreeingIsMatch(ts: seq<TermList>, ps: seq<nat>, numDocs: nat, candidate: nat)
    requires ValidLists(ts, numDocs) && Agreeing(ts, ps, numDocs, candidate, |ts|) && candidate < numDocs
    ensures InAll(ts, candidate)
  {
    forall i | 0 <= i < |ts|
      ensures candidate in ts[i].list.docs
    {
      assert Doc(ts, ps, numDocs, i) == candidate;
    }
  }

  /** A cursor beyond the candidate rules out everything before it. */
  lemma NoMatchBefore(ts: seq<TermList>, ps: seq<nat>, numDocs: nat, candidate: nat, i: nat, end: nat)
    requires ValidLists(ts, numDocs) && Ready(ts, ps, candidate) && i < |ts| && end <= Doc(ts, ps, numDocs, i)
    ensures forall d :: candidate <= d < end ==> !InAll(ts, d)
  {
    forall d | candidate <= d < end
      ensures !InAll(ts, d)
    {
      assert ts[i].list.Valid(numDocs);
      NotListed(ts[i].list, numDocs, ps[i], candidate, d);
    }
  }

  /**
   * Moves the cursors from i on to the candidate until one misses it; that one names the next
   * candidate. Candidates only ever grow.
   */
  method Align(es: ScoredEnums, first: nat, candidate: nat) returns (next: nat)
    requires es.Valid() && ValidLists(es.terms, es.numDocs) && candidate < es.numDocs
    requires Agreeing(es.terms, es.pos, es.numDocs, candidate, first)
    modifies es
    ensures es.Valid() && candidate <= next <= es.numDocs
    ensures next == candidate ==> Agreeing(es.terms, es.pos, es.numDocs, candidate, |es.terms|)
    ensures next > candidate ==> Ready(es.terms, es.pos, next) && forall d :: candidate <= d < next ==>
      !InAll(es.terms, d)
  {
    hide PostingList.Valid;
    for i := first to |es.terms|
      invariant es.Valid() && Agreeing(es.terms, es.pos, es.numDocs, candidate, i)
    {
      ghost var was := es.pos;
      es.NextGeq(i, candidate);
      CursorMoved(es.terms, was, es.pos, es.numDocs, candidate, i);
      if es.Docid(i) != candidate {
        next := es.Docid(i);
        DocInRange(es.terms, es.pos, es.numDocs, i);
        NoMatchBefore(es.terms, es.pos, es.numDocs, candidate, i, next);
        ReadyLater(es.terms, es.pos, candidate, next);
        return;
      }
    }
    next := candidate;
  }

  lemma CursorMoved(ts: seq<TermList>, ps: seq<nat>, qs: seq<nat>, numDocs: nat, candidate: nat, i: nat)
    requires Agreeing(ts, ps, numDocs, candidate, i) && i < |ts| && |qs| == |ps| && qs == ps[i := qs[i]]
    requires Passed(ts[i].list.docs, qs[i], candidate) && candidate < numDocs
    requires qs[i] < |ts[i].list.docs| ==> ts[i].list.docs[qs[i]] >= candidate
    ensures Ready(ts, qs, candidate) && Doc(ts, qs, numDocs, i) >= candidate
    ensures Doc(ts, qs, numDocs, i) == candidate ==> Agreeing(ts, qs, numDocs, candidate, i + 1)
  {
    forall j | 0 <= j < |ts| && j != i
      ensures Doc(ts, qs, numDocs, j) == Doc(ts, ps, numDocs, j) && Passed(ts[j].list.docs, qs[j], candidate)
    {
      assert Passed(ts[j].list.docs, ps[j], candidate);
    }
  }

  /** After a match the first cursor steps on and names the next candidate. */
  method StepFirst(es: ScoredEnums, candidate: nat) returns (next: nat)
    requires es.Valid() && ValidLists(es.terms, es.numDocs) && es.terms != [] && candidate < es.numDocs
    requires Agreeing(es.terms, es.pos, es.numDocs, candidate, |es.terms|)
    modifies es
    ensures es.Valid() && candidate < next <= es.numDocs && Agreeing(es.terms, es.pos, es.numDocs, next, 1)
    ensures forall d :: candidate < d < next ==> !InAll(es.terms, d)
  {
    ghost var was := es.pos;
    assert es.Docid(0) == Doc(es.terms, es.pos, es.numDocs, 0);
    es.Next(0);
    next := es.Docid(0);
    FirstStepped(es.terms, was, es.pos, es.numDocs, candidate);
    assert next == Doc(es.terms, es.pos, es.numDocs, 0);
  }

  lemma FirstStepped(ts: seq<TermList>, ps: seq<nat>, qs: seq<nat>, numDocs: nat, candidate: nat)
    requires ValidLists(ts, numDocs) && ts != [] && candidate < numDocs && Agreeing(ts, ps, numDocs, candidate, |ts|)
    requires qs == ps[0 := ps[0] + 1]
    ensures var next := Doc(ts, qs, numDocs, 0);
      && candidate < next <= numDocs && Agreeing(ts, qs, numDocs, next, 1)
      && forall d :: candidate < d < next ==> !InAll(ts, d)
  {
    var next := Doc(ts, qs, numDocs, 0);
    assert ts[0].list.Valid(numDocs) && Doc(ts, ps, numDocs, 0) == candidate;
    assert Passed(ts[0].list.docs, qs[0], candidate + 1);
    ReadyLater(ts, ps, candidate, candidate + 1);
    NoMatchBefore(ts, qs, numDocs, candidate + 1, 0, next);
    ReadyLater(ts, qs, candidate + 1, next);
  }

  // ---------------------------------------------------------------------------------------------
  // The operators

  /** The sum of what the cursors gain from the document they agree on. */
  method ScoreMatch(es: ScoredEnums, scorer: Scorer, d: nat) returns (score: real)
    requires es.Valid() && ValidLists(es.terms, es.numDocs) && d < es.numDocs
    requires Agreeing(es.terms, es.pos, es.numDocs, d, |es.terms|)
    ensures score == Score(es.terms, scorer, d)
  {
    hide PostingList.Valid, TermList.Contribution;
    score := 0.0;
    for i := 0 to |es.terms|
      invariant score == PartialScore(es.terms, scorer, d, i)
    {
      assert es.terms[i].list.Valid(es.numDocs);
      assert es.Docid(i) == Doc(es.terms, es.pos, es.numDocs, i);
      var gain := Gain(es, i, scorer);
      score := score + gain;
    }
  }

  /** The loop of and_query: every document that all lists hold is counted once. */
  method Count(es: ScoredEnums) returns (results: nat)
    requires es.Valid() && ValidLists(es.terms, es.numDocs) && es.terms != []
    requires forall i :: 0 <= i < |es.terms| ==> es.pos[i] == 0
    modifies es
    ensures results == |Matches(es.terms, es.numDocs)|
  {
    hide PostingList.Valid, InAll, Matches, Ready;
    var ts := es.terms;
    results := 0;
    var candidate := FirstCandidate(es);
    var i := 1;
    NothingBelowZero(ts);
    NoMatches(ts, FreqScorer, 0, candidate);
    while candidate < es.numDocs
      invariant es.Valid() && candidate <= es.numDocs && Agreeing(ts, es.pos, es.numDocs, candidate, i)
      invariant results == |Matches(ts, candidate)|
      decreases es.numDocs - candidate
    {
      var next := Align(es, i, candidate);
      if next == candidate {
        AgreeingIsMatch(ts, es.pos, es.numDocs, candidate);
        results := results + 1;
        next := StepFirst(es, candidate);
        i := 1;
        OneMatch(ts, FreqScorer, candidate, next);
      } else {
        NoMatches(ts, FreqScorer, candidate, next);
        i := 0;
      }
      candidate := next;
    }
  }

  lemma NothingBelowZero(ts: seq<TermList>)
    ensures Matches(ts, 0) == {}
  {
  }

  /** The loop of ranked_and_query: every match is scored and offered. */
  method Rank(es: ScoredEnums, scorer: Scorer, queue: Queue)
    requires es.Valid() && ValidLists(es.terms, es.numDocs) && es.terms != []
    requires forall i :: 0 <= i < |es.terms| ==> es.pos[i] == 0
    requires queue.Valid() && queue.seen == multiset{}
    modifies es, queue
    ensures queue.Valid() && queue.seen == IntersectionScores(es.terms, scorer, es.numDocs)
  {
    hide PostingList.Valid, InAll, Matches, Ready, Queue.Valid;
    var ts := es.terms;
    var candidate := FirstCandidate(es);
    var i := 1;
    NoMatches(ts, scorer, 0, candidate);
    while candidate < es.numDocs
      invariant es.Valid() && candidate <= es.numDocs && Agreeing(ts, es.pos, es.numDocs, candidate, i)
      invariant queue.Valid() && queue.seen == IntersectionScores(ts, scorer, candidate)
      decreases es.numDocs - candidate
    {
      var next := Align(es, i, candidate);
      if next == candidate {
        AgreeingIsMatch(ts, es.pos, es.numDocs, candidate);
        var score := ScoreMatch(es, scorer, candidate);
        var entered := queue.Insert(score, score);
        next := StepFirst(es, candidate);
        i := 1;
        OneMatch(ts, scorer, candidate, next);
      } else {
        NoMatches(ts, scorer, candidate, next);
        i := 0;
      }
      candidate := next;
    }
  }

  /** The first document of the first list: nothing before it can match. */
  method FirstCandidate(es: ScoredEnums) returns (candidate: nat)
    requires es.Valid() && ValidLists(es.terms, es.numDocs) && es.terms != []
    requires forall i :: 0 <= i < |es.terms| ==> es.pos[i] == 0
    ensures candidate <= es.numDocs && Agreeing(es.terms, es.pos, es.numDocs, candidate, 1)
    ensures forall d :: 0 <= d < candidate ==> !InAll(es.terms, d)
  {
    candidate := es.Docid(0);
    assert candidate == Doc(es.terms, es.pos, es.numDocs, 0);
    DocInRange(es.terms, es.pos, es.numDocs, 0);
    NoMatchBefore(es.terms, es.pos, es.numDocs, 0, 0, candidate);
    ReadyLater(es.terms, es.pos, 0, candidate);
  }

  ghost predicate SortedBySize(s: seq<TermList>) {
    forall i, j :: 0 <= i < j < |s| ==> |s[i].list.docs| <= |s[j].list.docs|
  }

  method InsertBySize(s: seq<TermList>, x: TermList) returns (r: seq<TermList>)
    requires SortedBySize(s)
    ensures SortedBySize(r) && multiset(r) == multiset(s) + multiset{x}
  {
    var at := 0;
    while at < |s| && |s[at].list.docs| <= |x.list.docs|
      invariant 0 <= at <= |s|
      invariant forall i :: 0 <= i < at ==> |s[i].list.docs| <= |x.list.docs|
    {
      at := at + 1;
    }
    r := s[..at] + [x] + s[at..];
    BagOfInserted(s, at, x);
  }

  lemma BagOfOneMore<T>(s: seq<T>, n: nat)
    requires n < |s|
    ensures multiset(s[..n + 1]) == multiset(s[..n]) + multiset{s[n]}
  {
    assert s[..n + 1] == s[..n] + [s[n]];
  }

  /** std::sort by list size. */
  method SortBySize(lists: seq<TermList>) returns (s: seq<TermList>)
    ensures multiset(s) == multiset(lists) && SortedBySize(s)
  {
    s := [];
    for n := 0 to |lists|
      invariant multiset(s) == multiset(lists[..n]) && SortedBySize(s)
    {
      s := InsertBySize(s, lists[n]);
      BagOfOneMore(lists, n);
    }
    assert lists[..|lists|] == lists;
  }

  /** remove_duplicate_terms: sorting, then std::unique. */
  method RemoveDuplicateTerms(terms: seq<nat>) returns (distinct: seq<nat>)
    ensures Increasing(distinct) && forall t :: t in distinct <==> t in terms
  {
    var sorted := SortTerms(terms);
    distinct := [];
    for i := 0 to |sorted|
      invariant Increasing(distinct) && forall t :: t in distinct <==> t in sorted[..i]
      invariant distinct == [] <==> i == 0
      invariant i > 0 ==> distinct[|distinct| - 1] == sorted[i - 1]
    {
      assert sorted[..i + 1] == sorted[..i] + [sorted[i]];
      if i == 0 || sorted[i] != sorted[i - 1] {
        distinct := distinct + [sorted[i]];
      }
    }
    assert sorted[..|sorted|] == sorted;
    PermutationMembers(sorted, terms);
  }

  /** The lists of the terms, without weights: the plain operators do not score. */
  function PlainLists(index: Index, terms: seq<nat>): (ts: seq<TermList>)
    requires forall t :: t in terms ==> t < |index.lists|
    ensures |ts| == |terms| && forall i :: 0 <= i < |ts| ==> terms[i] in terms && ts[i].list == index.lists[terms[i]]
  {
    seq(|terms|, i requires 0 <= i < |terms| => assert terms[i] in terms; TermList(index.lists[terms[i]], 1.0, 0.0))
  }

  ghost predicate HoldsAll(index: Index, terms: seq<nat>, d: nat)
    requires Answerable(index, terms)
  {
    forall t :: t in terms ==> d in index.lists[t].docs
  }

  /** The documents that hold every term of a query. */
  ghost function Intersection(index: Index, terms: seq<nat>): set<nat>
    requires Answerable(index, terms)
  {
    set d: nat | d < index.numDocs && HoldsAll(index, terms, d)
  }

  lemma PlainListsAreValid(index: Index, terms: seq<nat>)
    requires Answerable(index, terms)
    ensures ValidLists(PlainLists(index, terms), index.numDocs)
  {
    var ts := PlainLists(index, terms);
    forall i | 0 <= i < |ts|
      ensures ts[i].list.Valid(index.numDocs)
    {
      assert terms[i] in terms && index.lists[terms[i]] in index.lists;
    }
  }

  lemma MatchesAreIntersection(index: Index, terms: seq<nat>, distinct: seq<nat>)
    requires Answerable(index, terms) && forall t :: t in distinct <==> t in terms
    ensures Matches(PlainLists(index, distinct), index.numDocs) == Intersection(index, terms)
  {
    var ts := PlainLists(index, distinct);
    forall d: nat
      ensures InAll(ts, d) <==> HoldsAll(index, terms, d)
    {
      if InAll(ts, d) {
        forall t | t in terms
          ensures d in index.lists[t].docs
        {
          assert t in distinct;
          var i :| 0 <= i < |distinct| && distinct[i] == t;
          assert d in ts[i].list.docs;
        }
      }
    }
  }

  /** and_query::operator(): the size of the intersection; no terms, no results. */
  method AndQuery(index: Index, terms: seq<nat>) returns (results: nat)
    requires Answerable(index, terms)
    ensures results == if terms == [] then 0 else |Intersection(index, terms)|
  {
    if terms == [] {
      return 0;
    }
    assert terms[0] in terms;
    var distinct := RemoveDuplicateTerms(terms);
    PlainListsAreValid(index, distinct);
    var lists := PlainLists(index, distinct);
    var sorted := SortBySize(lists);
    ValidPermutation(lists, sorted, index.numDocs);
    var es := new ScoredEnums(sorted, index.numDocs);
    results := Count(es);
    MatchesOfPermutation(sorted, lists, index.numDocs);
    MatchesAreIntersection(index, terms, distinct);
  }

  lemma ValidPermutation(a: seq<TermList>, b: seq<TermList>, numDocs: nat)
    requires multiset(a) == multiset(b) && ValidLists(a, numDocs)
    ensures ValidLists(b, numDocs) && |a| == |b|
  {
    PermutationMembers(a, b);
    forall i | 0 <= i < |b|
      ensures b[i].list.Valid(numDocs)
    {
      assert b[i] in a;
    }
  }

  /** The BM25 scores of the documents that hold every term: what ranked_and_query selects from. */
  ghost function Bm25IntersectionScores(log: real -> real, index: Index, wdata: Data, terms: seq<nat>,
                                        qf: seq<(nat, nat)>): multiset<real>
    requires Answerable(index, terms) && wdata.BoundsFor(index.lists) && IsQueryFreqs(terms, qf)
  {
    if terms == [] then multiset{}
    else
      QueryTermsInRange(index, terms, qf);
      IntersectionScores(Bm25Lists(log, index, wdata.maxTermWeight, qf), Bm25Scorer(wdata.normLens), index.numDocs)
  }

  lemma {:induction false} IntersectionIsDocScores(ts: seq<TermList>, scorer: Scorer, selected: nat -> bool,
                                                   score: nat -> real, limit: nat)
    requires forall d: nat :: d < limit ==> (InAll(ts, d) <==> selected(d)) && Score(ts, scorer, d) == score(d)
    ensures IntersectionScores(ts, scorer, limit) == DocScores(selected, score, limit)
  {
    hide InAll, Score;
    if limit > 0 {
      IntersectionIsDocScores(ts, scorer, selected, score, limit - 1);
    }
  }

  lemma {:induction false} NoneSelected(selected: nat -> bool, score: nat -> real, limit: nat)
    requires forall d: nat :: d < limit ==> !selected(d)
    ensures DocScores(selected, score, limit) == multiset{}
  {
    if limit > 0 {
      NoneSelected(selected, score, limit - 1);
    }
  }

  /** The BM25 scores over the intersection, in terms of the query as it stands. */
  lemma Bm25IntersectionByTerms(log: real -> real, index: Index, wdata: Data, terms: seq<nat>, qf: seq<(nat, nat)>)
    requires Answerable(index, terms) && wdata.BoundsFor(index.lists) && IsQueryFreqs(terms, qf)
    requires index.numDocs <= |wdata.normLens|
    ensures Bm25IntersectionScores(log, index, wdata, terms, qf) == Bm25AllScores(log, index, wdata.normLens, terms)
  {
    hide IsQueryFreqs, Score, HeldBySome, Bm25List, TermsIn, Bm25Score, DocScores, IntersectionScores;
    AnswerableTerms(index, terms);
    QueryTermsInRange(index, terms, qf);
    if terms == [] {
      NoneSelected(InEvery(index, terms), Bm25Of(log, index, wdata.normLens, terms), index.numDocs);
      return;
    }
    var ts := Bm25Lists(log, index, wdata.maxTermWeight, qf);
    Bm25ListsAre(log, index, wdata.maxTermWeight, qf);
    forall d: nat | d < index.numDocs
      ensures InAll(ts, d) <==> HeldByAll(index, terms, d)
      ensures Score(ts, Bm25Scorer(wdata.normLens), d) == Bm25Score(log, index, wdata.normLens, terms, d)
    {
      InUnionIff(index, terms, qf, ts, d);
      Bm25ScoreByTerms(log, index, wdata.maxTermWeight, wdata.normLens, terms, qf, d);
    }
    IntersectionIsDocScores(ts, Bm25Scorer(wdata.normLens), InEvery(index, terms),
      Bm25Of(log, index, wdata.normLens, terms), index.numDocs);
  }

  /** ranked_and_query::operator(): the top k of the BM25 scores over the intersection of the lists. */
  method RankedAndQuery(log: real -> real, index: Index, wdata: Data, k: nat, terms: seq<nat>) returns (topk: seq<real>)
    requires k >= 1 && Answerable(index, terms) && wdata.BoundsFor(index.lists)
    ensures forall qf :: IsQueryFreqs(terms, qf) ==>
      IsTopK(k, Bm25IntersectionScores(log, index, wdata, terms, qf), topk)
    ensures index.numDocs <= |wdata.normLens| ==>
      IsTopK(k, Bm25AllScores(log, index, wdata.normLens, terms), topk)
  {
    var queue := new Queue(k);
    var qf := QueryFreqs(terms);
    QueryTermsInRange(index, terms, qf);
    Bm25ListsBounded(log, index, wdata, qf);
    if terms != [] {
      var lists := Bm25Lists(log, index, wdata.maxTermWeight, qf);
      assert terms[0] in terms;
      var sorted := SortBySize(lists);
      ValidPermutation(lists, sorted, index.numDocs);
      var es := new ScoredEnums(sorted, index.numDocs);
      Rank(es, Bm25Scorer(wdata.normLens), queue);
      ScoresOfPermutation(sorted, lists, Bm25Scorer(wdata.normLens), index.numDocs);
    }
    topk := queue.Finalize();
    forall other | IsQueryFreqs(terms, other)
      ensures IsTopK(k, Bm25IntersectionScores(log, index, wdata, terms, other), topk)
    {
      QueryFreqsUnique(terms, qf, other);
    }
    if index.numDocs <= |wdata.normLens| {
      Bm25IntersectionByTerms(log, index, wdata, terms, qf);
    }
  }
}
