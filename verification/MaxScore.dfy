/** maxscore_query (queries.hpp): lists with small bounds only complete scores, yet the top k is exact. */
module MaxScore {
  import opened Bm25
  import opened MonotoneSequence
  import opened Postings
  import opened QueryTerms
  import opened TermScores
  import opened TopKQueue
  import opened Traversal
  import opened UnionSweep
  import opened WandData

  // In what follows ts and ps are the lists and the cursor positions in order of increasing bound.
  // The first `nonEssential` of them are no longer used to find documents.

  /** upperBounds[i] is what lists 0..i can contribute together. */
  ghost predicate AreUpperBounds(ts: seq<TermList>, upperBounds: seq<real>) {
    |upperBounds| == |ts| && forall i :: 0 <= i < |ts| ==> upperBounds[i] == MaxSum(ts, i + 1)
  }

  ghost predicate SortedByBound(ts: seq<TermList>) {
    forall i, j :: 0 <= i < j < |ts| ==> ts[i].maxWeight <= ts[j].maxWeight
  }

  /** std::sort by increasing bound. */
  method SortByBound(es: ScoredEnums) returns (ordered: seq<nat>)
    ensures Arranged(es.terms, ordered) && SortedByBound(View(es.terms, ordered))
  {
    hide Arranged, View;
    ordered := Identity(|es.terms|);
    IdentityArranged(es.terms);
    for n := 0 to |ordered|
      invariant |ordered| == |es.terms| && Arranged(es.terms, ordered) && InRange(ordered, |es.terms|)
      invariant forall i, j :: 0 <= i < j < n ==> es.terms[ordered[i]].maxWeight <= es.terms[ordered[j]].maxWeight
    {
      var at := n;
      while at > 0 && es.terms[ordered[at]].maxWeight < es.terms[ordered[at - 1]].maxWeight
        invariant 0 <= at <= n < |ordered| == |es.terms|
        invariant Arranged(es.terms, ordered) && InRange(ordered, |es.terms|)
        invariant forall i, j :: 0 <= i < j <= n && i != at && j != at ==>
          es.terms[ordered[i]].maxWeight <= es.terms[ordered[j]].maxWeight
        invariant forall j :: at < j <= n ==> es.terms[ordered[at]].maxWeight <= es.terms[ordered[j]].maxWeight
      {
        ghost var was := ordered;
        ordered := SwapAt(ordered, at - 1, at);
        SwapKeepsArranged(es.terms, was, ordered, at - 1, at);
        at := at - 1;
      }
    }
  }

  method UpperBounds(es: ScoredEnums, ordered: seq<nat>) returns (upperBounds: seq<real>)
    requires InRange(ordered, |es.terms|) && ordered != []
    ensures AreUpperBounds(View(es.terms, ordered), upperBounds)
  {
    upperBounds := [es.terms[ordered[0]].maxWeight];
    for i := 1 to |ordered|
      invariant |upperBounds| == i
      invariant forall j :: 0 <= j < i ==> upperBounds[j] == MaxSum(View(es.terms, ordered), j + 1)
    {
      upperBounds := upperBounds + [upperBounds[i - 1] + es.terms[ordered[i]].maxWeight];
    }
  }

  /** Looks d up on the i-th list, moving its cursor up to d but not past it. */
  method LookUp(es: ScoredEnums, ordered: seq<nat>, i: nat, scorer: Scorer, d: nat) returns (gain: real)
    requires es.Valid() && InRange(ordered, |es.terms|) && Distinct(ordered) && i < |ordered|
    requires es.terms[ordered[i]].list.Valid(es.numDocs) && d < es.numDocs
    requires Passed(es.terms[ordered[i]].list.docs, es.pos[ordered[i]], d)
    modifies es
    ensures es.Valid() && gain == es.terms[ordered[i]].Contribution(scorer, d)
    ensures Passed(es.terms[ordered[i]].list.docs, es.pos[ordered[i]], d)
    ensures View(es.pos, ordered) == old(View(es.pos, ordered))[i := es.pos[ordered[i]]]
  {
    var x := ordered[i];
    es.NextGeq(x, d);
    ViewOfMove(old(es.pos), es.pos, ordered, i);
    if es.Docid(x) == d {
      gain := Gain(es, x, scorer);
    } else {
      NotListed(es.terms[x].list, es.numDocs, es.pos[x], d, d);
      NoContribution(es.terms[x], scorer, d);
      gain := 0.0;
    }
  }

  /**
   * The score is the one of d, or neither of the two can enter. Sound bounds ensure this; while all
   * lists are essential, it holds anyway.
   */
  ghost predicate Faithful(ts: seq<TermList>, scorer: Scorer, queue: Queue, nonEssential: nat, d: nat, score: real)
    reads queue
  {
    Bounded(ts, scorer) || nonEssential == 0 ==>
      score == Score(ts, scorer, d) || (!queue.WouldEnter(score) && !queue.WouldEnter(Score(ts, scorer, d)))
  }

  /** With sound bounds, the documents below the limit are accounted for. */
  ghost predicate Tracked(queue: Queue, ts: seq<TermList>, scorer: Scorer, limit: nat)
    reads queue
  {
    queue.Valid() && (Bounded(ts, scorer) ==> Covered(queue, ts, scorer, limit))
  }

  /**
   * Completes the score of d on the non-essential lists, from the largest bound down, giving up as
   * soon as the rest cannot lift it into the queue.
   */
  method Complete(es: ScoredEnums, ordered: seq<nat>, nonEssential: nat, upperBounds: seq<real>, scorer: Scorer,
                  d: nat, partial: real, queue: Queue) returns (score: real)
    requires es.Valid() && InRange(ordered, |es.terms|) && Distinct(ordered) && nonEssential <= |ordered|
    requires ValidLists(View(es.terms, ordered), es.numDocs) && d < es.numDocs
    requires AreUpperBounds(View(es.terms, ordered), upperBounds)
    requires forall j :: 0 <= j < nonEssential ==>
      Passed(View(es.terms, ordered)[j].list.docs, View(es.pos, ordered)[j], d)
    requires var ts := View(es.terms, ordered);
      partial == PartialScore(ts, scorer, d, |ts|) - PartialScore(ts, scorer, d, nonEssential)
    modifies es
    ensures es.Valid()
    ensures forall j :: 0 <= j < nonEssential ==>
      Passed(View(es.terms, ordered)[j].list.docs, View(es.pos, ordered)[j], d)
    ensures forall j :: nonEssential <= j < |ordered| ==> View(es.pos, ordered)[j] == old(View(es.pos, ordered))[j]
    ensures Faithful(View(es.terms, ordered), scorer, queue, nonEssential, d, score)
  {
    hide View, PostingList.Valid, TermList.Contribution;
    ghost var ts := View(es.terms, ordered);
    score := partial;
    var i := nonEssential;
    while i > 0 && queue.WouldEnter(score + upperBounds[i - 1])
      invariant 0 <= i <= nonEssential && es.Valid()
      invariant forall j :: 0 <= j < nonEssential ==> Passed(ts[j].list.docs, View(es.pos, ordered)[j], d)
      invariant forall j :: nonEssential <= j < |ordered| ==> View(es.pos, ordered)[j] == old(View(es.pos, ordered))[j]
      invariant score == PartialScore(ts, scorer, d, |ts|) - PartialScore(ts, scorer, d, i)
      decreases i
    {
      i := i - 1;
      assert ts[i].list.Valid(es.numDocs) && Passed(ts[i].list.docs, View(es.pos, ordered)[i], d);
      var gain := LookUp(es, ordered, i, scorer, d);
      score := score + gain;
    }
    if i > 0 && Bounded(ts, scorer) {
      PartialScoreBelowMaxSum(ts, scorer, d, i);
      assert upperBounds[i - 1] == MaxSum(ts, (i - 1) + 1);
    }
  }

  /** The non-essential lists together cannot lift any document into the queue. */
  ghost predicate NonEssentialBarred(queue: Queue, ts: seq<TermList>, nonEssential: nat)
    requires nonEssential <= |ts|
    reads queue
  {
    nonEssential > 0 ==> !queue.WouldEnter(MaxSum(ts, nonEssential))
  }

  /** No cursor has passed d, the essential ones have all reached it, and d is worth visiting. */
  ghost predicate AtCandidate(ts: seq<TermList>, ps: seq<nat>, numDocs: nat, nonEssential: nat, d: nat) {
    && Ready(ts, ps, d) && nonEssential <= |ts|
    && (forall j :: nonEssential <= j < |ts| ==> Doc(ts, ps, numDocs, j) >= d)
    && d <= numDocs && (d < numDocs ==> InUnion(ts, d))
  }

  /** Documents held by non-essential lists only score below the bar. */
  lemma NonEssentialOnly(ts: seq<TermList>, scorer: Scorer, queue: Queue, nonEssential: nat, d: nat)
    requires Bounded(ts, scorer) && nonEssential <= |ts| && NonEssentialBarred(queue, ts, nonEssential)
    requires InUnion(ts, d)
    requires forall j :: nonEssential <= j < |ts| ==> d !in ts[j].list.docs
    ensures !queue.WouldEnter(Score(ts, scorer, d))
  {
    ScoreOfPrefix(ts, scorer, d, nonEssential, |ts|);
    PartialScoreBelowMaxSum(ts, scorer, d, nonEssential);
  }

  /** Raising the bar can only make more lists non-essential. */
  method GrowNonEssential(queue: Queue, upperBounds: seq<real>, ghost ts: seq<TermList>, nonEssential: nat)
    returns (grown: nat)
    requires AreUpperBounds(ts, upperBounds) && nonEssential <= |ts| && NonEssentialBarred(queue, ts, nonEssential)
    ensures nonEssential <= grown <= |ts| && NonEssentialBarred(queue, ts, grown)
    ensures grown < |ts| ==> queue.WouldEnter(upperBounds[grown])
  {
    grown := nonEssential;
    while grown < |upperBounds| && !queue.WouldEnter(upperBounds[grown])
      invariant nonEssential <= grown <= |ts| && NonEssentialBarred(queue, ts, grown)
    {
      grown := grown + 1;
    }
  }

  /** The cursors after both inner loops: the essential ones swept, the others looked up. */
  lemma NextCandidate(ts: seq<TermList>, qs: seq<nat>, rs: seq<nat>, numDocs: nat, nonEssential: nat, d: nat, next: nat)
    requires Ready(ts, qs, d + 1) && d < next <= numDocs && (next < numDocs ==> InUnion(ts, next))
    requires nonEssential <= |ts| == |rs|
    requires forall j :: nonEssential <= j < |ts| ==> Doc(ts, qs, numDocs, j) >= next && rs[j] == qs[j]
    requires forall j :: 0 <= j < nonEssential ==> Passed(ts[j].list.docs, rs[j], d)
    ensures AtCandidate(ts, rs, numDocs, nonEssential, next)
  {
    forall j | nonEssential <= j < |ts|
      ensures Doc(ts, rs, numDocs, j) >= next && Passed(ts[j].list.docs, rs[j], next)
    {
      assert Doc(ts, qs, numDocs, j) >= next && Passed(ts[j].list.docs, qs[j], d + 1);
    }
  }

  /** Scores one candidate as far as it is worth it, and finds the next one. */
  method ScoreCandidate(es: ScoredEnums, ordered: seq<nat>, nonEssential: nat, upperBounds: seq<real>, scorer: Scorer,
                        d: nat, queue: Queue) returns (score: real, next: nat)
    requires es.Valid() && InRange(ordered, |es.terms|) && Distinct(ordered) && nonEssential <= |ordered|
    requires ValidLists(View(es.terms, ordered), es.numDocs)
    requires AreUpperBounds(View(es.terms, ordered), upperBounds) && d < es.numDocs
    requires AtCandidate(View(es.terms, ordered), View(es.pos, ordered), es.numDocs, nonEssential, d)
    modifies es
    ensures es.Valid() && d < next
    ensures AtCandidate(View(es.terms, ordered), View(es.pos, ordered), es.numDocs, nonEssential, next)
    ensures forall e, j :: d < e < next && nonEssential <= j < |ordered| ==> e !in View(es.terms, ordered)[j].list.docs
    ensures Faithful(View(es.terms, ordered), scorer, queue, nonEssential, d, score)
  {
    hide View, PostingList.Valid, TermList.Contribution, Distinct;
    ghost var ts, ps := View(es.terms, ordered), View(es.pos, ordered);
    OthersDoNotHold(ts, ps, es.numDocs, d, nonEssential);
    score, next := Sweep(es, ordered, nonEssential, scorer, d);
    ghost var qs := View(es.pos, ordered);
    Swept(ts, ps, qs, es.numDocs, d, nonEssential, next);
    assert forall j :: 0 <= j < nonEssential ==> qs[j] == ps[j];
    score := Complete(es, ordered, nonEssential, upperBounds, scorer, d, score, queue);
    NextCandidate(ts, qs, View(es.pos, ordered), es.numDocs, nonEssential, d, next);
  }

  /** Offers the candidate's score and skips what only non-essential lists hold up to the next one. */
  method Offer(queue: Queue, ghost ts: seq<TermList>, scorer: Scorer, ghost nonEssential: nat, score: real, d: nat,
               next: nat)
    returns (entered: bool)
    requires nonEssential <= |ts| && NonEssentialBarred(queue, ts, nonEssential)
    requires Tracked(queue, ts, scorer, d) && d < next && InUnion(ts, d)
    requires Faithful(ts, scorer, queue, nonEssential, d, score)
    requires forall e, j :: d < e < next && nonEssential <= j < |ts| ==> e !in ts[j].list.docs
    modifies queue
    ensures NonEssentialBarred(queue, ts, nonEssential) && Tracked(queue, ts, scorer, next)
    ensures old(queue.q) == [] ==> entered && queue.q == [score]
  {
    hide UnionScores, Score, Bounded, InUnion, MaxSum, Queue.Valid;
    UnionScoresNext(ts, scorer, d);
    ghost var bounded := Bounded(ts, scorer);
    entered := queue.Insert(score, if bounded then Score(ts, scorer, d) else score);
    assert NonEssentialBarred(queue, ts, nonEssential);
    if bounded {
      SkipUpTo(ts, scorer, queue, nonEssential, d + 1, next);
    }
  }

  /** Documents that only non-essential lists hold are accounted for without a visit. */
  ghost method SkipUpTo(ts: seq<TermList>, scorer: Scorer, queue: Queue, nonEssential: nat, d: nat, next: nat)
    requires Bounded(ts, scorer) && nonEssential <= |ts| && NonEssentialBarred(queue, ts, nonEssential) && d <= next
    requires forall e, j :: d <= e < next && nonEssential <= j < |ts| ==> e !in ts[j].list.docs
    requires Covered(queue, ts, scorer, d)
    modifies queue`seen
    ensures Covered(queue, ts, scorer, next)
  {
    forall e | d <= e < next && InUnion(ts, e)
      ensures !queue.WouldEnter(Score(ts, scorer, e))
    {
      NonEssentialOnly(ts, scorer, queue, nonEssential, e);
    }
    SkipRange(queue, ts, scorer, d, next);
  }

  /** For k == 1, a first score that reaches the sum of all bounds is kept and ends the search. */
  ghost predicate OneVisit(queue: Queue, ts: seq<TermList>, scorer: Scorer, d: nat, grown: nat)
    reads queue
  {
    Score(ts, scorer, d) >= MaxSum(ts, |ts|) ==> queue.q == [Score(ts, scorer, d)] && grown == |ts|
  }

  lemma FirstRaisesBar(queue: Queue, ts: seq<TermList>, scorer: Scorer, upperBounds: seq<real>, d: nat, grown: nat)
    requires queue.k == 1 && AreUpperBounds(ts, upperBounds) && NonNegativeBounds(ts) && grown <= |ts|
    requires queue.q == [Score(ts, scorer, d)] && (grown < |ts| ==> queue.WouldEnter(upperBounds[grown]))
    ensures OneVisit(queue, ts, scorer, d, grown)
  {
    if grown < |ts| {
      assert upperBounds[grown] == MaxSum(ts, grown + 1);
      MaxSumMonotone(ts, grown + 1, |ts|);
    }
  }

  /** One round: offer the candidate, skip what only non-essential lists hold, raise the bar. */
  method Step(es: ScoredEnums, ordered: seq<nat>, nonEssential: nat, upperBounds: seq<real>, scorer: Scorer, d: nat,
              queue: Queue)
    returns (grown: nat, next: nat)
    requires es.Valid() && InRange(ordered, |es.terms|) && Distinct(ordered) && nonEssential <= |ordered|
    requires ValidLists(View(es.terms, ordered), es.numDocs)
    requires AreUpperBounds(View(es.terms, ordered), upperBounds) && d < es.numDocs
    requires AtCandidate(View(es.terms, ordered), View(es.pos, ordered), es.numDocs, nonEssential, d)
    requires NonEssentialBarred(queue, View(es.terms, ordered), nonEssential)
    requires Tracked(queue, View(es.terms, ordered), scorer, d)
    modifies es, queue
    ensures es.Valid() && d < next && nonEssential <= grown <= |ordered|
    ensures AtCandidate(View(es.terms, ordered), View(es.pos, ordered), es.numDocs, grown, next)
    ensures NonEssentialBarred(queue, View(es.terms, ordered), grown)
    ensures Tracked(queue, View(es.terms, ordered), scorer, next)
    ensures nonEssential == 0 && old(queue.q) == [] && queue.k == 1 && NonNegativeBounds(View(es.terms, ordered)) ==>
      OneVisit(queue, View(es.terms, ordered), scorer, d, grown)
  {
    hide View, PostingList.Valid, TermList.Contribution, Distinct, TermList.Dominates;
    ghost var ts := View(es.terms, ordered);
    var score;
    score, next := ScoreCandidate(es, ordered, nonEssential, upperBounds, scorer, d, queue);
    var entered := Offer(queue, ts, scorer, nonEssential, score, d, next);
    grown := nonEssential;
    if entered {
      grown := GrowNonEssential(queue, upperBounds, ts, nonEssential);
    }
    if nonEssential == 0 && old(queue.q) == [] && queue.k == 1 && NonNegativeBounds(ts) {
      FirstRaisesBar(queue, ts, scorer, upperBounds, d, grown);
    }
  }

  /** The main loop: with sound bounds it ends with every document of the union accounted for. */
  method Loop(es: ScoredEnums, ordered: seq<nat>, upperBounds: seq<real>, scorer: Scorer, queue: Queue, first: nat)
    requires es.Valid() && InRange(ordered, |es.terms|) && Distinct(ordered)
    requires ValidLists(View(es.terms, ordered), es.numDocs)
    requires AreUpperBounds(View(es.terms, ordered), upperBounds)
    requires AtCandidate(View(es.terms, ordered), View(es.pos, ordered), es.numDocs, 0, first)
    requires Tracked(queue, View(es.terms, ordered), scorer, first)
    modifies es, queue
    ensures Tracked(queue, View(es.terms, ordered), scorer, es.numDocs)
    ensures (old(queue.q) == [] && queue.k == 1 && first < es.numDocs && ordered != [] &&
             NonNegativeBounds(View(es.terms, ordered))) ==>
      KeepsFirst(queue, View(es.terms, ordered), scorer, first)
  {
    hide View, PostingList.Valid, TermList.Contribution, AreUpperBounds, Distinct, AtCandidate, Bounded, Covered,
      UnionScores, Score,
      NonNegativeBounds;
    ghost var ts := View(es.terms, ordered);
    var nonEssential, curDoc := 0, first;
    NoneBarred(queue, ts);
    while nonEssential < |ordered| && curDoc < es.numDocs
      invariant es.Valid() && nonEssential <= |ordered|
      invariant AtCandidate(ts, View(es.pos, ordered), es.numDocs, nonEssential, curDoc)
      invariant NonEssentialBarred(queue, ts, nonEssential) && Tracked(queue, ts, scorer, curDoc)
      invariant old(queue.q) == [] && queue.k == 1 && NonNegativeBounds(ts) ==>
        (nonEssential == 0 && curDoc == first && queue.q == []) || OneVisit(queue, ts, scorer, first, nonEssential)
      decreases es.numDocs - curDoc
    {
      nonEssential, curDoc := Step(es, ordered, nonEssential, upperBounds, scorer, curDoc, queue);
    }
    CandidateInRange(ts, View(es.pos, ordered), es.numDocs, nonEssential, curDoc);
    if curDoc < es.numDocs && Bounded(ts, scorer) {
      SkipUpTo(ts, scorer, queue, |ts|, curDoc, es.numDocs);
    }
  }

  /** What OneVisit leaves behind. */
  ghost predicate KeepsFirst(queue: Queue, ts: seq<TermList>, scorer: Scorer, d: nat)
    reads queue
  {
    Score(ts, scorer, d) >= MaxSum(ts, |ts|) ==> queue.q == [Score(ts, scorer, d)]
  }

  /** The smallest document of the union. */
  ghost predicate IsFirst(ts: seq<TermList>, d: nat) {
    InUnion(ts, d) && forall e :: 0 <= e < d ==> !InUnion(ts, e)
  }

  lemma NoneBarred(queue: Queue, ts: seq<TermList>)
    ensures NonEssentialBarred(queue, ts, 0)
  {
  }

  lemma CandidateInRange(ts: seq<TermList>, ps: seq<nat>, numDocs: nat, nonEssential: nat, d: nat)
    requires AtCandidate(ts, ps, numDocs, nonEssential, d)
    ensures d <= numDocs
  {
  }

  method Search(es: ScoredEnums, scorer: Scorer, queue: Queue)
    requires es.Valid() && ValidLists(es.terms, es.numDocs) && es.terms != []
    requires (forall i :: 0 <= i < |es.terms| ==> es.pos[i] == 0) && Covered(queue, es.terms, scorer, 0)
    modifies es, queue
    ensures Tracked(queue, es.terms, scorer, es.numDocs)
    ensures old(queue.q) == [] && queue.k == 1 && NonNegativeBounds(es.terms) ==>
      forall d :: IsFirst(es.terms, d) ==> KeepsFirst(queue, es.terms, scorer, d)
  {
    hide View, Arranged, PostingList.Valid, TermList.Dominates, TermList.Contribution, AreUpperBounds, Bounded, Score,
      MaxSum;
    var ordered := SortByBound(es);
    ArrangedParts(es.terms, ordered, scorer, es.numDocs);
    ghost var ts := View(es.terms, ordered);
    var upperBounds := UpperBounds(es, ordered);
    var curDoc := MinDocid(es);
    StartsAtDocument(es.terms, es.pos, es.numDocs, curDoc);
    StartsAtCandidate(es.terms, es.pos, ordered, es.numDocs, curDoc);
    if Bounded(ts, scorer) {
      SkipRange(queue, ts, scorer, 0, curDoc);
    }
    Loop(es, ordered, upperBounds, scorer, queue, curDoc);
    UnionScoresOfPermutation(ts, es.terms, scorer, es.numDocs);
    MaxSumOfPermutation(ts, es.terms);
    ScoreOfPermutation(ts, es.terms, scorer, curDoc);
    forall d | IsFirst(es.terms, d)
      ensures d == curDoc < es.numDocs
    {
      FirstIsCandidate(es.terms, es.numDocs, d, curDoc);
    }
  }

  lemma FirstIsCandidate(ts: seq<TermList>, numDocs: nat, d: nat, candidate: nat)
    requires ValidLists(ts, numDocs) && IsFirst(ts, d)
    requires candidate <= numDocs && (candidate < numDocs ==> InUnion(ts, candidate))
    requires forall e :: 0 <= e < candidate ==> !InUnion(ts, e)
    ensures d == candidate < numDocs
  {
    var i :| 0 <= i < |ts| && d in ts[i].list.docs;
    assert ts[i].list.Valid(numDocs);
  }

  lemma ArrangedParts(ts: seq<TermList>, o: seq<nat>, scorer: Scorer, numDocs: nat)
    requires Arranged(ts, o) && ValidLists(ts, numDocs)
    ensures InRange(o, |ts|) && Distinct(o) && multiset(View(ts, o)) == multiset(ts) && |o| == |ts|
    ensures ValidLists(View(ts, o), numDocs) && (Bounded(ts, scorer) ==> Bounded(View(ts, o), scorer))
    ensures NonNegativeBounds(ts) ==> NonNegativeBounds(View(ts, o))
  {
    PermutationMembers(ts, View(ts, o));
    forall i | 0 <= i < |o|
      ensures View(ts, o)[i].list.Valid(numDocs) && (Bounded(ts, scorer) ==> View(ts, o)[i].Dominates(scorer))
    {
      assert ts[o[i]].list.Valid(numDocs);
    }
  }

  lemma StartsAtCandidate(ts: seq<TermList>, ps: seq<nat>, o: seq<nat>, numDocs: nat, d: nat)
    requires InRange(o, |ts|) && multiset(View(ts, o)) == multiset(ts)
    requires AtDocument(ts, ps, numDocs, d) && forall e :: 0 <= e < d ==> !InUnion(ts, e)
    ensures AtCandidate(View(ts, o), View(ps, o), numDocs, 0, d)
    ensures forall e :: 0 <= e < d ==> !InUnion(View(ts, o), e)
  {
    ReadyView(ts, ps, o, d);
    AllFromView(ts, ps, o, numDocs, d);
    forall e: nat
      ensures InUnion(View(ts, o), e) <==> InUnion(ts, e)
    {
      UnionOfPermutation(View(ts, o), ts, e);
    }
  }

  predicate NoRepeatedTerm(terms: seq<nat>) {
    forall t :: t in terms ==> multiset(terms)[t] == 1
  }

  /** For k == 1, the search is over as soon as the score of the first document reaches the sum of all bounds. */
  ghost predicate StopsEarly(index: Index, wdata: Data, terms: seq<nat>, qf: seq<(nat, nat)>, topk: seq<real>)
    requires Answerable(index, terms) && wdata.BoundsFor(index.lists) && IsQueryFreqs(terms, qf)
  {
    QueryTermsInRange(index, terms, qf);
    var ts := FreqLists(index, wdata.maxTermWeight, qf);
    forall d :: IsFirst(ts, d) && Score(ts, FreqScorer, d) >= MaxSum(ts, |ts|) ==> topk == [Score(ts, FreqScorer, d)]
  }

  lemma FreqListsValid(index: Index, wdata: Data, qf: seq<(nat, nat)>)
    requires index.Valid() && wdata.BoundsFor(index.lists) && forall i :: 0 <= i < |qf| ==> qf[i].0 < |index.lists|
    ensures ValidLists(FreqLists(index, wdata.maxTermWeight, qf), index.numDocs)
  {
    var ts := FreqLists(index, wdata.maxTermWeight, qf);
    forall i | 0 <= i < |ts|
      ensures ts[i].list.Valid(index.numDocs)
    {
      assert index.lists[qf[i].0] in index.lists;
    }
  }

  lemma SingleCounts(terms: seq<nat>, qf: seq<(nat, nat)>)
    requires IsQueryFreqs(terms, qf) && NoRepeatedTerm(terms)
    ensures forall i :: 0 <= i < |qf| ==> qf[i].1 == 1
  {
    forall i | 0 <= i < |qf|
      ensures qf[i].1 == 1
    {
      MembersAreTerms(terms, qf, TermIds(qf)[i]);
    }
  }

  lemma SomeTerm(terms: seq<nat>, qf: seq<(nat, nat)>)
    requires IsQueryFreqs(terms, qf) && terms != []
    ensures qf != []
  {
    assert terms[0] in terms;
  }

  lemma NothingSeen(ts: seq<TermList>, scorer: Scorer)
    ensures UnionScores(ts, scorer, 0) == multiset{}
  {
  }

  lemma OneVisitStops(index: Index, wdata: Data, terms: seq<nat>, qf: seq<(nat, nat)>, before: seq<real>,
                      topk: seq<real>)
    requires Answerable(index, terms) && wdata.BoundsFor(index.lists) && IsQueryFreqs(terms, qf)
    requires forall i :: 0 <= i < |qf| ==> qf[i].0 < |index.lists|
    requires multiset(topk) == multiset(before)
    requires var ts := FreqLists(index, wdata.maxTermWeight, qf);
      forall d :: IsFirst(ts, d) && Score(ts, FreqScorer, d) >= MaxSum(ts, |ts|) ==>
        before == [Score(ts, FreqScorer, d)]
    ensures StopsEarly(index, wdata, terms, qf, topk)
  {
    if |before| == 1 {
      PermutationMembers(topk, before);
      assert topk[0] in before;
      assert topk == before;
    }
  }

  lemma FreqBoundsNonNegative(index: Index, wdata: Data, qf: seq<(nat, nat)>)
    requires wdata.BoundsFor(index.lists) && forall i :: 0 <= i < |qf| ==> qf[i].0 < |index.lists|
    ensures NonNegativeBounds(FreqLists(index, wdata.maxTermWeight, qf))
  {
    var ts := FreqLists(index, wdata.maxTermWeight, qf);
    forall i | 0 <= i < |ts|
      ensures ts[i].maxWeight >= 0.0
    {
      assert IsMaxFreq(index.lists[qf[i].0].freqs, wdata.maxTermWeight[qf[i].0]);
    }
  }

  /**
   * maxscore_query::operator(). It scores by frequency times multiplicity but bounds a list by its
   * largest frequency alone, so exactness needs that no term is repeated.
   */
  method Query(index: Index, wdata: Data, k: nat, terms: seq<nat>) returns (topk: seq<real>)
    requires k >= 1 && Answerable(index, terms) && wdata.BoundsFor(index.lists)
    ensures NoRepeatedTerm(terms) ==>
      forall qf :: IsQueryFreqs(terms, qf) ==> IsTopK(k, FreqUnionScores(index, wdata, terms, qf), topk)
    ensures NoRepeatedTerm(terms) ==> IsTopK(k, FreqAnyScores(index, terms), topk)
    ensures k == 1 ==>
      forall qf :: IsQueryFreqs(terms, qf) ==> StopsEarly(index, wdata, terms, qf, topk)
  {
    hide IsQueryFreqs, StopsEarly, UnionScores, IsBest, NonNegativeBounds, Score, MaxSum;
    var queue := new Queue(k);
    var qf := QueryFreqs(terms);
    QueryTermsInRange(index, terms, qf);
    var lists := FreqLists(index, wdata.maxTermWeight, qf);
    FreqListsValid(index, wdata, qf);
    FreqBoundsNonNegative(index, wdata, qf);
    if NoRepeatedTerm(terms) {
      SingleCounts(terms, qf);
      FreqListsBounded(index, wdata, qf);
    }
    if terms == [] {
      NoTerms(terms, qf);
      EmptyUnion(FreqScorer, index.numDocs);
    } else {
      assert terms[0] in terms;
      SomeTerm(terms, qf);
      NothingSeen(lists, FreqScorer);
      var es := new ScoredEnums(lists, index.numDocs);
      Search(es, FreqScorer, queue);
    }
    ghost var before := queue.q;
    topk := queue.Finalize();
    if k == 1 {
      OneVisitStops(index, wdata, terms, qf, before, topk);
    }
    forall other | IsQueryFreqs(terms, other)
      ensures NoRepeatedTerm(terms) ==> IsTopK(k, FreqUnionScores(index, wdata, terms, other), topk)
      ensures k == 1 ==> StopsEarly(index, wdata, terms, other, topk)
    {
      QueryFreqsUnique(terms, qf, other);
    }
    FreqUnionByTerms(index, wdata, terms, qf);
  }
}
