/** wand_query (queries.hpp): skipping by per-list bounds returns the same top k as scoring everything. */
module Wand {
  import opened Postings
  import opened QueryTerms
  import opened TermScores
  import opened TopKQueue
  import opened Traversal
  import opened UnionSweep
  import opened WandData

  // In what follows ts and ps are the lists and the cursor positions in the current visiting order.

  /** The bounds of no prefix of up to n lists could enter the queue. */
  ghost predicate PrefixesBarred(queue: Queue, ts: seq<TermList>, n: nat)
    requires n <= |ts|
    reads queue
  {
    forall j :: 1 <= j <= n ==> !queue.WouldEnter(MaxSum(ts, j))
  }

  /**
   * Adds up bounds in docid order until the sum could enter the queue. Without a pivot, pivot is
   * where the search stopped: at an exhausted cursor or at the end.
   */
  method FindPivot(es: ScoredEnums, ordered: seq<nat>, queue: Queue) returns (found: bool, pivot: nat)
    requires es.Valid() && InRange(ordered, |es.terms|)
    ensures pivot <= |ordered| && PrefixesBarred(queue, View(es.terms, ordered), pivot)
    ensures found ==> pivot < |ordered| && es.Docid(ordered[pivot]) != es.numDocs
    ensures found ==> queue.WouldEnter(MaxSum(View(es.terms, ordered), pivot + 1))
    ensures !found ==> pivot == |ordered| || es.Docid(ordered[pivot]) == es.numDocs
  {
    var upperBound := 0.0;
    pivot := 0;
    while pivot < |ordered|
      invariant pivot <= |ordered| && upperBound == MaxSum(View(es.terms, ordered), pivot)
      invariant PrefixesBarred(queue, View(es.terms, ordered), pivot)
    {
      if es.Docid(ordered[pivot]) == es.numDocs {
        return false, pivot;
      }
      upperBound := upperBound + es.terms[ordered[pivot]].maxWeight;
      if queue.WouldEnter(upperBound) {
        return true, pivot;
      }
      pivot := pivot + 1;
    }
    return false, pivot;
  }

  /** Sorted cursors: those on the smallest document come first, all others lie beyond it. */
  lemma Leaders(ts: seq<TermList>, ps: seq<nat>, numDocs: nat) returns (lead: nat)
    requires |ps| == |ts| && SortedByDoc(ts, ps, numDocs) && ts != []
    ensures 0 < lead <= |ts|
    ensures forall j :: 0 <= j < lead ==> Doc(ts, ps, numDocs, j) == Doc(ts, ps, numDocs, 0)
    ensures forall j :: lead <= j < |ts| ==> Doc(ts, ps, numDocs, j) > Doc(ts, ps, numDocs, 0)
  {
    lead := 1;
    while lead < |ts| && Doc(ts, ps, numDocs, lead) == Doc(ts, ps, numDocs, 0)
      invariant 0 < lead <= |ts|
      invariant forall j :: 0 <= j < lead ==> Doc(ts, ps, numDocs, j) == Doc(ts, ps, numDocs, 0)
    {
      lead := lead + 1;
    }
    SortedAround(ts, ps, numDocs, 0);
    if lead < |ts| {
      SortedAround(ts, ps, numDocs, lead);
    }
  }

  /** The cursor positions after the first lead cursors have been stepped. */
  ghost predicate SteppedBy(ps: seq<nat>, qs: seq<nat>, lead: nat) {
    |qs| == |ps| && forall j :: 0 <= j < |ps| ==> qs[j] == if j < lead then ps[j] + 1 else ps[j]
  }

  /** Scores the document the leading cursors are on, and steps those cursors past it. */
  method ScorePivot(es: ScoredEnums, ordered: seq<nat>, scorer: Scorer, pivotId: nat, ghost lead: nat)
    returns (score: real)
    requires es.Valid() && InRange(ordered, |es.terms|) && Distinct(ordered)
    requires ValidLists(View(es.terms, ordered), es.numDocs) && lead <= |ordered| && pivotId < es.numDocs
    requires forall j :: 0 <= j < |ordered| ==>
      (Doc(View(es.terms, ordered), View(es.pos, ordered), es.numDocs, j) == pivotId <==> j < lead)
    requires forall j :: lead <= j < |ordered| ==> pivotId !in View(es.terms, ordered)[j].list.docs
    modifies es
    ensures es.Valid() && SteppedBy(old(View(es.pos, ordered)), View(es.pos, ordered), lead)
    ensures score == Score(View(es.terms, ordered), scorer, pivotId)
  {
    hide TermList.Contribution, PostingList.Valid, View;
    score := 0.0;
    ghost var ts, ps := View(es.terms, ordered), View(es.pos, ordered);
    ScoreOfPrefix(ts, scorer, pivotId, lead, |ts|);
    var i := 0;
    while i < |ordered| && es.Docid(ordered[i]) == pivotId
      invariant i <= lead && es.Valid() && SteppedBy(old(View(es.pos, ordered)), View(es.pos, ordered), i)
      invariant score == PartialScore(ts, scorer, pivotId, i)
      decreases |ordered| - i
    {
      ghost var was := es.pos;
      assert Doc(ts, ps, es.numDocs, i) == es.Docid(ordered[i]);
      assert ts[i].list.Valid(es.numDocs);
      var gain := Gain(es, ordered[i], scorer);
      score := score + gain;
      es.Next(ordered[i]);
      ViewOfMove(was, es.pos, ordered, i);
      i := i + 1;
    }
    assert i < |ordered| ==> Doc(ts, ps, es.numDocs, i) == es.Docid(ordered[i]);
  }

  /** Bubbles cursor at, which may lie too far left, into its place. */
  method BubbleDown(es: ScoredEnums, ordered: seq<nat>, at: nat) returns (r: seq<nat>)
    requires es.Valid() && Arranged(es.terms, ordered) && InRange(ordered, |es.terms|) && at < |ordered|
    requires SortedPart(es, ordered, 0, |ordered|, at)
    requires forall i :: 0 <= i < at ==> es.Docid(ordered[i]) <= es.Docid(ordered[at])
    ensures |r| == |ordered| && Arranged(es.terms, r) && InRange(r, |es.terms|) && SortedPart(es, r, 0, |r|, -1)
    ensures forall i :: 0 <= i < at ==> r[i] == ordered[i]
    ensures r[at] == ordered[at] || (at + 1 < |r| && r[at] == ordered[at + 1])
  {
    hide Arranged;
    r := ordered;
    var i := at + 1;
    while i < |r| && es.Docid(r[i]) < es.Docid(r[i - 1])
      invariant at < i <= |r| == |ordered| && Arranged(es.terms, r) && InRange(r, |es.terms|)
      invariant SortedPart(es, r, 0, |r|, i - 1)
      invariant forall j :: 0 <= j < at ==> r[j] == ordered[j]
      invariant if i == at + 1 then r == ordered else r[at] == ordered[at + 1]
      invariant forall j :: 0 <= j < i - 1 ==> es.Docid(r[j]) <= es.Docid(r[i - 1])
    {
      ghost var was := r;
      r := SwapAt(r, i - 1, i);
      SwapKeepsArranged(es.terms, was, r, i - 1, i);
      forall a, b {:trigger Pair(a, b)} | 0 <= a < b < |r| && a != i && b != i && Pair(a, b)
        ensures es.Docid(r[a]) <= es.Docid(r[b])
      {
        assert Pair(i, b) && Pair(a, i);
      }
      i := i + 1;
    }
    forall a, b {:trigger Pair(a, b)} | 0 <= a < b < |r| && Pair(a, b)
      ensures es.Docid(r[a]) <= es.Docid(r[b])
    {
      assert Pair(i, b);
    }
  }

  /**
   * The reason skipping is safe: an unvisited document below limit is held only by the first pivot
   * lists, and what those can add up to would not enter the queue.
   */
  lemma CannotEnterBelow(ts: seq<TermList>, ps: seq<nat>, scorer: Scorer, numDocs: nat,
                         queue: Queue, frontier: nat, pivot: nat, limit: nat, d: nat)
    requires ValidLists(ts, numDocs) && Bounded(ts, scorer)
    requires Ready(ts, ps, frontier) && pivot <= |ts| && PrefixesBarred(queue, ts, pivot)
    requires forall i :: pivot <= i < |ts| ==> Doc(ts, ps, numDocs, i) >= limit
    requires frontier <= d < limit && InUnion(ts, d)
    ensures !queue.WouldEnter(Score(ts, scorer, d))
  {
    AheadOfSomeCursor(ts, ps, numDocs, frontier, d);
    forall i | pivot <= i < |ts|
      ensures d !in ts[i].list.docs
    {
      assert ts[i].list.Valid(numDocs) && Doc(ts, ps, numDocs, i) >= limit;
      NotListed(ts[i].list, numDocs, ps[i], frontier, d);
    }
    ScoreOfPrefix(ts, scorer, d, pivot, |ts|);
    PartialScoreBelowMaxSum(ts, scorer, d, pivot);
  }

  /** The m cursors that lag behind the frontier cannot lift any document into the queue. */
  ghost predicate LaggardsHarmless(ts: seq<TermList>, ps: seq<nat>, numDocs: nat, queue: Queue, frontier: nat, m: nat)
    requires |ps| == |ts|
    reads queue
  {
    && m <= |ts|
    && (forall i :: m <= i < |ts| ==> Doc(ts, ps, numDocs, i) >= frontier)
    && (m > 0 ==> !queue.WouldEnter(MaxSum(ts, m)))
  }

  /** The frontier never lies beyond a pivot: sums of bounds only shrink and the bar only rises. */
  lemma PivotAtOrBeyondFrontier(ts: seq<TermList>, ps: seq<nat>, scorer: Scorer, numDocs: nat,
                                queue: Queue, frontier: nat, m: nat, pivot: nat)
    requires Bounded(ts, scorer) && |ps| == |ts| && LaggardsHarmless(ts, ps, numDocs, queue, frontier, m)
    requires pivot < |ts| && queue.WouldEnter(MaxSum(ts, pivot + 1))
    ensures frontier <= Doc(ts, ps, numDocs, pivot)
  {
    if pivot < m {
      BoundedNonNegative(ts, scorer);
      MaxSumMonotone(ts, pivot + 1, m);
    }
  }

  /** What every round of the search keeps. */
  ghost predicate Invariant(es: ScoredEnums, ordered: seq<nat>, queue: Queue, frontier: nat, m: nat)
    reads es, queue
  {
    && es.Valid() && Arranged(es.terms, ordered)
    && Ready(es.terms, es.pos, frontier) && frontier <= es.numDocs
    && SortedByDoc(View(es.terms, ordered), View(es.pos, ordered), es.numDocs)
    && LaggardsHarmless(View(es.terms, ordered), View(es.pos, ordered), es.numDocs, queue, frontier, m)
  }

  ghost method SkipTo(es: ScoredEnums, ordered: seq<nat>, scorer: Scorer, queue: Queue, frontier: nat, pivot: nat,
                      limit: nat)
    requires es.Valid() && Arranged(es.terms, ordered) && Ready(es.terms, es.pos, frontier)
    requires ValidLists(es.terms, es.numDocs) && Bounded(es.terms, scorer)
    requires Covered(queue, es.terms, scorer, frontier)
    requires pivot <= |ordered| && frontier <= limit && PrefixesBarred(queue, View(es.terms, ordered), pivot)
    requires forall i :: pivot <= i < |ordered| ==>
      Doc(View(es.terms, ordered), View(es.pos, ordered), es.numDocs, i) >= limit
    modifies queue`seen
    ensures Covered(queue, es.terms, scorer, limit)
  {
    var ts, ps := View(es.terms, ordered), View(es.pos, ordered);
    BoundedPermutation(es.terms, ts, scorer, es.numDocs);
    ReadyView(es.terms, es.pos, ordered, frontier);
    forall d | frontier <= d < limit && InUnion(es.terms, d)
      ensures !queue.WouldEnter(Score(es.terms, scorer, d))
    {
      UnionOfPermutation(ts, es.terms, d);
      CannotEnterBelow(ts, ps, scorer, es.numDocs, queue, frontier, pivot, limit, d);
      ScoreOfPermutation(ts, es.terms, scorer, d);
    }
    SkipRange(queue, es.terms, scorer, frontier, limit);
  }

  /** After a match every cursor is beyond the document, and at least one has moved. */
  lemma Matched(ts: seq<TermList>, ps: seq<nat>, qs: seq<nat>, numDocs: nat, d: nat, lead: nat)
    requires ValidLists(ts, numDocs) && Ready(ts, ps, d) && 0 < lead <= |ts| && d < numDocs
    requires forall j :: 0 <= j < |ts| ==>
      if j < lead then Doc(ts, ps, numDocs, j) == d else Doc(ts, ps, numDocs, j) > d
    requires SteppedBy(ps, qs, lead)
    ensures Ready(ts, qs, d + 1) && AllFrom(ts, qs, numDocs, d + 1) && Progress(ps, qs)
  {
    forall j | 0 <= j < |ts|
      ensures Passed(ts[j].list.docs, qs[j], d + 1) && Doc(ts, qs, numDocs, j) > d
    {
      assert ts[j].list.Valid(numDocs) && Passed(ts[j].list.docs, ps[j], d) && Doc(ts, ps, numDocs, j) >= d;
    }
    assert ps[0] < qs[0];
  }

  lemma ArrangedInRange(ts: seq<TermList>, o: seq<nat>)
    requires Arranged(ts, o)
    ensures InRange(o, |ts|)
  {
  }

  lemma ArrangedBounded(ts: seq<TermList>, o: seq<nat>, scorer: Scorer, numDocs: nat)
    requires Arranged(ts, o) && InRange(o, |ts|) && ValidLists(ts, numDocs) && Bounded(ts, scorer)
    ensures ValidLists(View(ts, o), numDocs) && Bounded(View(ts, o), scorer)
  {
    BoundedPermutation(ts, View(ts, o), scorer, numDocs);
  }

  /** A match: the pivot's document is scored and offered, and the cursors are sorted again. */
  method Match(es: ScoredEnums, ordered: seq<nat>, scorer: Scorer, queue: Queue, pivotId: nat) returns (r: seq<nat>)
    requires es.Valid() && Arranged(es.terms, ordered) && ordered != [] && es.Docid(ordered[0]) == pivotId < es.numDocs
    requires SortedByDoc(View(es.terms, ordered), View(es.pos, ordered), es.numDocs)
    requires ValidLists(es.terms, es.numDocs) && Bounded(es.terms, scorer) && Ready(es.terms, es.pos, pivotId)
    requires Covered(queue, es.terms, scorer, pivotId)
    modifies es, queue
    ensures Invariant(es, r, queue, pivotId + 1, 0) && Covered(queue, es.terms, scorer, pivotId + 1)
    ensures Progress(old(es.pos), es.pos)
  {
    hide View;
    ghost var ts, ps := View(es.terms, ordered), View(es.pos, ordered);
    ghost var lead := Leaders(ts, ps, es.numDocs);
    BoundedPermutation(es.terms, ts, scorer, es.numDocs);
    ReadyView(es.terms, es.pos, ordered, pivotId);
    OthersDoNotHold(ts, ps, es.numDocs, pivotId, lead);
    var score := ScorePivot(es, ordered, scorer, pivotId, lead);
    ScoreOfPermutation(ts, es.terms, scorer, pivotId);
    Matched(ts, ps, View(es.pos, ordered), es.numDocs, pivotId, lead);
    ReadyBack(es.terms, es.pos, ordered, pivotId + 1);
    AllFromBack(es.terms, es.pos, ordered, es.numDocs, pivotId + 1);
    ProgressOfView(old(es.pos), es.pos, ordered);
    assert InUnion(es.terms, pivotId) by {
      assert pivotId in es.terms[ordered[0]].list.docs;
    }
    var entered := queue.Insert(score, score);
    r := SortByDocid(es, ordered);
    AllFromView(es.terms, es.pos, r, es.numDocs, pivotId + 1);
  }

  /**
   * No match yet: the last cursor before the pivot's document is moved up to it and bubbled into
   * place. The cursors before it keep their places.
   */
  method AdvanceToPivot(es: ScoredEnums, ordered: seq<nat>, pivot: nat) returns (r: seq<nat>, moved: nat)
    requires es.Valid() && Arranged(es.terms, ordered) && SortedPart(es, ordered, 0, |ordered|, -1)
    requires pivot < |ordered| && es.Docid(ordered[0]) < es.Docid(ordered[pivot]) <= es.numDocs
    requires Ready(es.terms, es.pos, es.Docid(ordered[pivot]))
    modifies es
    ensures es.Valid() && moved < pivot && |r| == |ordered| && Arranged(es.terms, r) && SortedPart(es, r, 0, |r|, -1)
    ensures forall i :: 0 <= i < moved ==> r[i] == ordered[i]
    ensures Ready(es.terms, es.pos, old(es.Docid(ordered[pivot]))) && Progress(old(es.pos), es.pos)
    ensures es.Docid(r[moved]) >= old(es.Docid(ordered[pivot]))
  {
    hide View;
    var pivotId := es.Docid(ordered[pivot]);
    moved := pivot;
    while es.Docid(ordered[moved]) == pivotId
      invariant moved <= pivot
      invariant forall i :: moved < i <= pivot ==> es.Docid(ordered[i]) == pivotId
      decreases moved
    {
      moved := moved - 1;
    }
    assert Pair(moved, pivot);
    forall i | 0 <= i < moved
      ensures es.Docid(ordered[i]) <= es.Docid(ordered[moved])
    {
      assert Pair(i, moved);
    }
    es.NextGeq(ordered[moved], pivotId);
    forall i | 0 <= i < |ordered| && i != moved
      ensures es.Docid(ordered[i]) == old(es.Docid(ordered[i]))
    {
      assert IndexOf(ordered, ordered[i]) == i && IndexOf(ordered, ordered[moved]) == moved;
    }
    r := BubbleDown(es, ordered, moved);
  }

  /** No match: one laggard is moved up, and fewer cursors than before the pivot still lag. */
  method NoMatch(es: ScoredEnums, ordered: seq<nat>, queue: Queue, pivot: nat) returns (r: seq<nat>, moved: nat)
    requires es.Valid() && Arranged(es.terms, ordered) && pivot < |ordered|
    requires SortedByDoc(View(es.terms, ordered), View(es.pos, ordered), es.numDocs)
    requires es.Docid(ordered[0]) < es.Docid(ordered[pivot]) <= es.numDocs
    requires Ready(es.terms, es.pos, es.Docid(ordered[pivot]))
    requires PrefixesBarred(queue, View(es.terms, ordered), pivot)
    modifies es
    ensures Invariant(es, r, queue, old(es.Docid(ordered[pivot])), moved)
    ensures Progress(old(es.pos), es.pos)
  {
    hide View, Arranged;
    ArrangedInRange(es.terms, ordered);
    SortedPartIsView(es, ordered);
    r, moved := AdvanceToPivot(es, ordered, pivot);
    ArrangedInRange(es.terms, r);
    SortedPartIsView(es, r);
    var ts, ps := View(es.terms, r), View(es.pos, r);
    MaxSumOfCommonPrefix(View(es.terms, ordered), ts, moved);
    SortedAround(ts, ps, es.numDocs, moved);
  }

  /** A round with a pivot, once everything before the pivot's document is accounted for. */
  method Settle(es: ScoredEnums, ordered: seq<nat>, scorer: Scorer, queue: Queue, pivot: nat)
    returns (r: seq<nat>, ghost frontier: nat, ghost m: nat)
    requires es.Valid() && Arranged(es.terms, ordered) && InRange(ordered, |es.terms|) && pivot < |ordered|
    requires SortedByDoc(View(es.terms, ordered), View(es.pos, ordered), es.numDocs)
    requires es.Docid(ordered[0]) <= es.Docid(ordered[pivot]) < es.numDocs
    requires ValidLists(es.terms, es.numDocs) && Bounded(es.terms, scorer)
    requires Ready(es.terms, es.pos, es.Docid(ordered[pivot]))
    requires Covered(queue, es.terms, scorer, es.Docid(ordered[pivot]))
    requires PrefixesBarred(queue, View(es.terms, ordered), pivot)
    modifies es, queue
    ensures Invariant(es, r, queue, frontier, m) && Covered(queue, es.terms, scorer, frontier)
    ensures Progress(old(es.pos), es.pos)
  {
    hide View, Arranged;
    var pivotId := es.Docid(ordered[pivot]);
    frontier := pivotId;
    if pivotId == es.Docid(ordered[0]) {
      r := Match(es, ordered, scorer, queue, pivotId);
      frontier, m := pivotId + 1, 0;
    } else {
      r, m := NoMatch(es, ordered, queue, pivot);
    }
  }

  /** One round of the search loop: find a pivot, then match it or move one cursor. */
  method Round(es: ScoredEnums, ordered: seq<nat>, scorer: Scorer, queue: Queue, ghost frontier: nat, ghost m: nat)
    returns (more: bool, r: seq<nat>, ghost frontier': nat, ghost m': nat)
    requires ValidLists(es.terms, es.numDocs) && Bounded(es.terms, scorer)
    requires Invariant(es, ordered, queue, frontier, m) && Covered(queue, es.terms, scorer, frontier)
    modifies es, queue
    ensures !more ==> Covered(queue, es.terms, scorer, es.numDocs)
    ensures more ==> Invariant(es, r, queue, frontier', m') && Covered(queue, es.terms, scorer, frontier')
    ensures more ==> Progress(old(es.pos), es.pos)
  {
    hide View, Arranged;
    ArrangedInRange(es.terms, ordered);
    ghost var ts, ps := View(es.terms, ordered), View(es.pos, ordered);
    r, frontier', m' := ordered, frontier, m;
    var pivot;
    more, pivot := FindPivot(es, ordered, queue);
    if pivot < |ordered| {
      SortedAround(ts, ps, es.numDocs, pivot);
    }
    if !more {
      SkipTo(es, ordered, scorer, queue, frontier, pivot, es.numDocs);
    } else {
      assert es.Docid(ordered[0]) == Doc(ts, ps, es.numDocs, 0);
      DocInRange(es.terms, es.pos, es.numDocs, ordered[pivot]);
      ArrangedBounded(es.terms, ordered, scorer, es.numDocs);
      PivotAtOrBeyondFrontier(ts, ps, scorer, es.numDocs, queue, frontier, m, pivot);
      SkipTo(es, ordered, scorer, queue, frontier, pivot, es.Docid(ordered[pivot]));
      ReadyLater(es.terms, es.pos, frontier, es.Docid(ordered[pivot]));
      r, frontier', m' := Settle(es, ordered, scorer, queue, pivot);
    }
  }

  /** The search accounts for every document of the union, scored or not. */
  method Search(es: ScoredEnums, scorer: Scorer, queue: Queue)
    requires es.Valid() && ValidLists(es.terms, es.numDocs) && Bounded(es.terms, scorer)
    requires Ready(es.terms, es.pos, 0) && Covered(queue, es.terms, scorer, 0)
    modifies es, queue
    ensures Covered(queue, es.terms, scorer, es.numDocs)
  {
    hide View, Arranged;
    ghost var frontier, m := 0, 0;
    var ordered := Identity(|es.terms|);
    IdentityArranged(es.terms);
    ordered := SortByDocid(es, ordered);
    var more := true;
    while more
      invariant more ==> Invariant(es, ordered, queue, frontier, m) && Covered(queue, es.terms, scorer, frontier)
      invariant !more ==> Covered(queue, es.terms, scorer, es.numDocs)
      decreases if more then 1 + Left(es.terms, es.pos, |es.terms|) else 0
    {
      ghost var before := es.pos;
      more, ordered, frontier, m := Round(es, ordered, scorer, queue, frontier, m);
      if more {
        ghost var i :| 0 <= i < |before| && before[i] < es.pos[i];
        LeftShrinks(es.terms, before, es.pos, |es.terms|, i);
      }
    }
  }

  /** wand_query::operator(): whatever the skipping leaves out, the result is the top k of the whole union. */
  method Query(log: real -> real, index: Index, wdata: Data, k: nat, terms: seq<nat>) returns (topk: seq<real>)
    requires k >= 1 && Answerable(index, terms) && wdata.BoundsFor(index.lists)
    ensures forall qf :: IsQueryFreqs(terms, qf) ==>
      IsTopK(k, Bm25UnionScores(log, index, wdata, terms, qf), topk)
    ensures index.numDocs <= |wdata.normLens| ==>
      IsTopK(k, Bm25AnyScores(log, index, wdata.normLens, terms), topk)
  {
    var queue := new Queue(k);
    var qf := QueryFreqs(terms);
    QueryTermsInRange(index, terms, qf);
    Bm25ListsBounded(log, index, wdata, qf);
    if terms == [] {
      NoTerms(terms, qf);
      EmptyUnion(Bm25Scorer(wdata.normLens), index.numDocs);
    } else {
      var lists := Bm25Lists(log, index, wdata.maxTermWeight, qf);
      var es := new ScoredEnums(lists, index.numDocs);
      Search(es, Bm25Scorer(wdata.normLens), queue);
    }
    topk := queue.Finalize();
    forall other | IsQueryFreqs(terms, other)
      ensures IsTopK(k, Bm25UnionScores(log, index, wdata, terms, other), topk)
    {
      QueryFreqsUnique(terms, qf, other);
    }
    if index.numDocs <= |wdata.normLens| {
      Bm25UnionByTerms(log, index, wdata, terms, qf);
    }
  }
}
