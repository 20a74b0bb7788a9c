/** The plain disjunctive query, or_query (queries.hpp). */
module Disjunction {
  import opened Conjunction
  import opened Postings
  import opened QueryTerms
  import opened RankedOr
  import opened Traversal
  import opened UnionSweep

  ghost predicate HoldsSome(index: Index, terms: seq<nat>, d: nat)
    requires Answerable(index, terms)
  {
    exists t :: t in terms && d in index.lists[t].docs
  }

  /** The documents that hold some term of a query. */
  ghost function Union(index: Index, terms: seq<nat>): set<nat>
    requires Answerable(index, terms)
  {
    set d: nat | d < index.numDocs && HoldsSome(index, terms, d)
  }

  /** The documents below limit that some list holds. */
  ghost function Members(ts: seq<TermList>, limit: nat): set<nat> {
    set d: nat | d < limit && InUnion(ts, d)
  }

  lemma NoMembers(ts: seq<TermList>, from: nat, end: nat)
    requires from <= end && forall d :: from <= d < end ==> !InUnion(ts, d)
    ensures Members(ts, end) == Members(ts, from)
  {
    forall d: nat
      ensures d in Members(ts, end) <==> d in Members(ts, from)
    {
    }
  }

  lemma OneMember(ts: seq<TermList>, d: nat, end: nat)
    requires d < end && InUnion(ts, d) && forall e :: d < e < end ==> !InUnion(ts, e)
    ensures |Members(ts, end)| == |Members(ts, d)| + 1
  {
    NoMembers(ts, d + 1, end);
    assert Members(ts, d + 1) == Members(ts, d) + {d};
  }

  lemma NothingBelowZero(ts: seq<TermList>)
    ensures Members(ts, 0) == {}
  {
  }

  /** The loop of or_query: every document of the union is counted once; frequencies are read and dropped. */
  method Count(es: ScoredEnums) returns (results: nat)
    requires es.Valid() && ValidLists(es.terms, es.numDocs) && es.terms != []
    requires forall i :: 0 <= i < |es.terms| ==> es.pos[i] == 0
    modifies es
    ensures results == |Members(es.terms, es.numDocs)|
  {
    hide PostingList.Valid, InUnion, Members, Ready, Score;
    results := 0;
    var curDoc := MinDocid(es);
    StartsAtDocument(es.terms, es.pos, es.numDocs, curDoc);
    NothingBelowZero(es.terms);
    NoMembers(es.terms, 0, curDoc);
    while curDoc < es.numDocs
      invariant es.Valid() && AtDocument(es.terms, es.pos, es.numDocs, curDoc)
      invariant results == |Members(es.terms, curDoc)|
      decreases es.numDocs - curDoc
    {
      results := results + 1;
      var freqs, next := ScoreAll(es, FreqScorer, curDoc);
      OneMember(es.terms, curDoc, next);
      curDoc := next;
    }
  }

  lemma MembersAreUnion(index: Index, terms: seq<nat>, distinct: seq<nat>)
    requires Answerable(index, terms) && forall t :: t in distinct <==> t in terms
    ensures Members(PlainLists(index, distinct), index.numDocs) == Union(index, terms)
  {
    var ts := PlainLists(index, distinct);
    forall d: nat
      ensures InUnion(ts, d) <==> HoldsSome(index, terms, d)
    {
      if HoldsSome(index, terms, d) {
        var t :| t in terms && d in index.lists[t].docs;
        assert t in distinct;
        var i :| 0 <= i < |distinct| && distinct[i] == t;
        assert d in ts[i].list.docs;
      }
    }
  }

  /** or_query::operator(): the size of the union. */
  method OrQuery(index: Index, terms: seq<nat>) returns (results: nat)
    requires Answerable(index, terms)
    ensures results == |Union(index, terms)|
  {
    if terms == [] {
      MembersAreUnion(index, [], []);
      assert Members([], index.numDocs) == {};
      return 0;
    }
    assert terms[0] in terms;
    var distinct := RemoveDuplicateTerms(terms);
    PlainListsAreValid(index, distinct);
    var es := new ScoredEnums(PlainLists(index, distinct), index.numDocs);
    results := Count(es);
    MembersAreUnion(index, terms, distinct);
  }
}
