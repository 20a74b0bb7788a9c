/**
 * Visiting the documents of a union in increasing order.
 *
 * The loop that ranked_or_query, or_query and maxscore_query share.
 */
module UnionSweep {
  import opened Postings
  import opened TopKQueue
  import opened Traversal

  /** std::min_element over the current documents. */
  method MinDocid(es: ScoredEnums) returns (d: nat)
    requires es.Valid() && es.terms != []
    ensures AllFrom(es.terms, es.pos, es.numDocs, d)
    ensures exists i :: 0 <= i < |es.terms| && Doc(es.terms, es.pos, es.numDocs, i) == d
  {
    d := es.Docid(0);
    assert Doc(es.terms, es.pos, es.numDocs, 0) == d;
    for n := 1 to |es.terms|
      invariant forall i :: 0 <= i < n ==> Doc(es.terms, es.pos, es.numDocs, i) >= d
      invariant exists i :: 0 <= i < n && Doc(es.terms, es.pos, es.numDocs, i) == d
    {
      assert es.Docid(n) == Doc(es.terms, es.pos, es.numDocs, n);
      if es.Docid(n) < d {
        d := es.Docid(n);
      }
    }
  }

  /** Where a cursor at pos stands once document d has been dealt with. */
  function PosAfter(docs: seq<nat>, numDocs: nat, pos: nat, d: nat): nat {
    if DocAt(docs, pos, numDocs) == d then pos + 1 else pos
  }

  /** Cursors first..upto have dealt with d, and the others have not moved. */
  ghost predicate SweptPart(ts: seq<TermList>, ps: seq<nat>, qs: seq<nat>, numDocs: nat, d: nat, first: nat, upto: nat)
    requires |ps| == |ts|
  {
    && |qs| == |ps|
    && forall j :: 0 <= j < |ts| ==>
      qs[j] == if first <= j < upto then PosAfter(ts[j].list.docs, numDocs, ps[j], d) else ps[j]
  }

  /** The smallest document of cursors first..upto, or numDocs. */
  ghost predicate IsNext(ts: seq<TermList>, qs: seq<nat>, numDocs: nat, first: nat, upto: nat, next: nat)
    requires upto <= |ts| == |qs|
  {
    && next <= numDocs
    && (forall j :: first <= j < upto ==> next <= Doc(ts, qs, numDocs, j))
    && (next < numDocs ==> exists j :: first <= j < upto && Doc(ts, qs, numDocs, j) == next)
  }

  lemma NextOfOneMore(ts: seq<TermList>, ps: seq<nat>, qs: seq<nat>, numDocs: nat, first: nat, i: nat, next: nat)
    requires first <= i < |ts| == |ps| == |qs| && IsNext(ts, ps, numDocs, first, i, next)
    requires forall j :: 0 <= j < i ==> qs[j] == ps[j]
    ensures var d := Doc(ts, qs, numDocs, i);
      IsNext(ts, qs, numDocs, first, i + 1, if d < next then d else next)
  {
    forall j | first <= j < i
      ensures Doc(ts, qs, numDocs, j) == Doc(ts, ps, numDocs, j)
    {
    }
    if next < numDocs {
      var j :| first <= j < i && Doc(ts, ps, numDocs, j) == next;
      assert Doc(ts, qs, numDocs, j) == next;
    }
  }

  /** Scores and steps the i-th cursor if it is on d, and leaves it where it is otherwise. */
  method TakeIfOn(es: ScoredEnums, ordered: seq<nat>, i: nat, scorer: Scorer, d: nat) returns (gain: real)
    requires es.Valid() && InRange(ordered, |es.terms|) && Distinct(ordered) && i < |ordered|
    requires es.terms[ordered[i]].list.Valid(es.numDocs) && d < es.numDocs
    requires es.Docid(ordered[i]) != d ==> d !in es.terms[ordered[i]].list.docs
    modifies es
    ensures es.Valid() && gain == es.terms[ordered[i]].Contribution(scorer, d)
    ensures var ps := old(View(es.pos, ordered));
      View(es.pos, ordered) == ps[i := PosAfter(es.terms[ordered[i]].list.docs, es.numDocs, ps[i], d)]
  {
    if es.Docid(ordered[i]) == d {
      gain := Gain(es, ordered[i], scorer);
      es.Next(ordered[i]);
      ViewOfMove(old(es.pos), es.pos, ordered, i);
    } else {
      NoContribution(es.terms[ordered[i]], scorer, d);
      gain := 0.0;
    }
  }

  /**
   * The inner loop common to the union operators: every cursor from first on that is on d is scored
   * and stepped, and the smallest document any of them is on afterwards is returned.
   */
  method Sweep(es: ScoredEnums, ordered: seq<nat>, first: nat, scorer: Scorer, d: nat) returns (score: real, next: nat)
    requires es.Valid() && InRange(ordered, |es.terms|) && Distinct(ordered) && first <= |ordered|
    requires ValidLists(View(es.terms, ordered), es.numDocs) && d < es.numDocs
    requires forall j ::
      first <= j < |ordered| && Doc(View(es.terms, ordered), View(es.pos, ordered), es.numDocs, j) != d ==>
      d !in View(es.terms, ordered)[j].list.docs
    modifies es
    ensures es.Valid()
    ensures SweptPart(View(es.terms, ordered), old(View(es.pos, ordered)), View(es.pos, ordered), es.numDocs,
              d, first, |ordered|)
    ensures IsNext(View(es.terms, ordered), View(es.pos, ordered), es.numDocs, first, |ordered|, next)
    ensures var ts := View(es.terms, ordered);
      score == PartialScore(ts, scorer, d, |ts|) - PartialScore(ts, scorer, d, first)
  {
    hide TermList.Contribution, PostingList.Valid, View, IsNext;
    score, next := 0.0, es.numDocs;
    ghost var ts, ps := View(es.terms, ordered), View(es.pos, ordered);
    NextOfNone(ts, ps, es.numDocs, first);
    for i := first to |ordered|
      invariant es.Valid() && SweptPart(ts, ps, View(es.pos, ordered), es.numDocs, d, first, i)
      invariant IsNext(ts, View(es.pos, ordered), es.numDocs, first, i, next)
      invariant score == PartialScore(ts, scorer, d, i) - PartialScore(ts, scorer, d, first)
    {
      ghost var was := View(es.pos, ordered);
      assert Doc(ts, ps, es.numDocs, i) == es.Docid(ordered[i]);
      assert ts[i].list.Valid(es.numDocs);
      var gain := TakeIfOn(es, ordered, i, scorer, d);
      score := score + gain;
      NextOfOneMore(ts, was, View(es.pos, ordered), es.numDocs, first, i, next);
      assert Doc(ts, View(es.pos, ordered), es.numDocs, i) == es.Docid(ordered[i]);
      if es.Docid(ordered[i]) < next {
        next := es.Docid(ordered[i]);
      }
    }
  }

  lemma NextOfNone(ts: seq<TermList>, ps: seq<nat>, numDocs: nat, first: nat)
    requires first <= |ts| == |ps|
    ensures IsNext(ts, ps, numDocs, first, first, numDocs)
  {
  }

  lemma NoContribution(t: TermList, scorer: Scorer, d: nat)
    requires d !in t.list.docs
    ensures t.Contribution(scorer, d) == 0.0
  {
  }

  /** d is the smallest document that any cursor is on, and no cursor has passed it. */
  ghost predicate AtDocument(ts: seq<TermList>, ps: seq<nat>, numDocs: nat, d: nat) {
    && Ready(ts, ps, d) && AllFrom(ts, ps, numDocs, d)
    && d <= numDocs && (d < numDocs ==> InUnion(ts, d))
  }

  lemma StartsAtDocument(ts: seq<TermList>, ps: seq<nat>, numDocs: nat, d: nat)
    requires ValidLists(ts, numDocs) && |ps| == |ts| && forall i :: 0 <= i < |ts| ==> ps[i] == 0
    requires AllFrom(ts, ps, numDocs, d) && exists i :: 0 <= i < |ts| && Doc(ts, ps, numDocs, i) == d
    ensures AtDocument(ts, ps, numDocs, d)
    ensures forall e :: 0 <= e < d ==> !InUnion(ts, e)
  {
    var i :| 0 <= i < |ts| && Doc(ts, ps, numDocs, i) == d;
    DocInRange(ts, ps, numDocs, i);
    assert d < numDocs ==> d in ts[i].list.docs;
    forall e | 0 <= e < d
      ensures !InUnion(ts, e)
    {
      if InUnion(ts, e) {
        AheadOfSomeCursor(ts, ps, numDocs, 0, e);
      }
    }
  }

  /** After a sweep the cursors from first on are beyond d, and the next document is ahead of them all. */
  lemma Swept(ts: seq<TermList>, ps: seq<nat>, qs: seq<nat>, numDocs: nat, d: nat, first: nat, next: nat)
    requires ValidLists(ts, numDocs) && Ready(ts, ps, d) && d < numDocs && first <= |ts|
    requires forall j :: first <= j < |ts| ==> Doc(ts, ps, numDocs, j) >= d
    requires SweptPart(ts, ps, qs, numDocs, d, first, |ts|) && IsNext(ts, qs, numDocs, first, |ts|, next)
    ensures Ready(ts, qs, d + 1) && d < next <= numDocs && (next < numDocs ==> InUnion(ts, next))
    ensures forall j :: first <= j < |ts| ==> Doc(ts, qs, numDocs, j) >= next
    ensures forall e, j :: d < e < next && first <= j < |ts| ==> e !in ts[j].list.docs
  {
    forall j | 0 <= j < |ts|
      ensures Passed(ts[j].list.docs, qs[j], d + 1) && (first <= j ==> Doc(ts, qs, numDocs, j) > d)
    {
      assert ts[j].list.Valid(numDocs) && Passed(ts[j].list.docs, ps[j], d);
      assert first <= j ==> Doc(ts, ps, numDocs, j) >= d;
    }
    if next < numDocs {
      var j :| first <= j < |ts| && Doc(ts, qs, numDocs, j) == next;
      assert next in ts[j].list.docs;
    }
    forall e, j | d < e < next && first <= j < |ts|
      ensures e !in ts[j].list.docs
    {
      assert ts[j].list.Valid(numDocs) && Doc(ts, qs, numDocs, j) >= next;
      NotListed(ts[j].list, numDocs, qs[j], d + 1, e);
    }
  }

  lemma OthersDoNotHold(ts: seq<TermList>, ps: seq<nat>, numDocs: nat, d: nat, first: nat)
    requires ValidLists(ts, numDocs) && Ready(ts, ps, d)
    requires forall j :: first <= j < |ts| ==> Doc(ts, ps, numDocs, j) >= d
    ensures forall j :: first <= j < |ts| && Doc(ts, ps, numDocs, j) != d ==> d !in ts[j].list.docs
  {
    forall j | first <= j < |ts| && Doc(ts, ps, numDocs, j) != d
      ensures d !in ts[j].list.docs
    {
      assert ts[j].list.Valid(numDocs) && Doc(ts, ps, numDocs, j) >= d;
      NotListed(ts[j].list, numDocs, ps[j], d, d);
    }
  }
}
