/** From query terms to scored posting lists (queries.hpp, query_freqs and the set-up of each operator). */
module QueryTerms {
  import opened Bm25
  import opened MonotoneSequence
  import opened Postings
  import opened WandData

  datatype Index = Index(numDocs: nat, lists: seq<PostingList>) {
    ghost predicate Valid() {
      forall l :: l in lists ==> l.Valid(numDocs)
    }
  }

  ghost function TermIds(qf: seq<(nat, nat)>): (s: seq<nat>)
    ensures |s| == |qf| && forall i :: 0 <= i < |qf| ==> s[i] == qf[i].0
  {
    seq(|qf|, i requires 0 <= i < |qf| => qf[i].0)
  }

  /** The distinct terms in increasing order, each with the number of times it occurs. */
  ghost predicate IsQueryFreqs(terms: seq<nat>, qf: seq<(nat, nat)>) {
    && Increasing(TermIds(qf))
    && (forall i :: 0 <= i < |qf| ==> qf[i].1 == multiset(terms)[qf[i].0] >= 1)
    && (forall t :: t in terms ==> t in TermIds(qf))
  }

  method InsertSorted(s: seq<nat>, x: nat) returns (r: seq<nat>)
    requires Sorted(s)
    ensures Sorted(r) && multiset(r) == multiset(s) + multiset{x}
  {
    var at := 0;
    while at < |s| && s[at] <= x
      invariant 0 <= at <= |s|
      invariant forall i :: 0 <= i < at ==> s[i] <= x
    {
      at := at + 1;
    }
    r := s[..at] + [x] + s[at..];
    BagOfInserted(s, at, x);
  }

  method SortTerms(terms: seq<nat>) returns (s: seq<nat>)
    ensures multiset(s) == multiset(terms) && Sorted(s)
  {
    s := [];
    for n := 0 to |terms|
      invariant multiset(s) == multiset(terms[..n]) && Sorted(s)
    {
      s := InsertSorted(s, terms[n]);
      assert terms[..n + 1] == terms[..n] + [terms[n]];
    }
    assert terms[..|terms|] == terms;
  }

  method QueryFreqs(terms: seq<nat>) returns (qf: seq<(nat, nat)>)
    ensures IsQueryFreqs(terms, qf)
  {
    hide IsQueryFreqs, TermIds;
    var sorted := SortTerms(terms);
    qf := [];
    NoFreqs();
    for i := 0 to |sorted|
      invariant IsQueryFreqs(sorted[..i], qf)
      invariant qf == [] <==> i == 0
      invariant i > 0 ==> qf[|qf| - 1].0 == sorted[i - 1]
    {
      assert sorted[..i + 1] == sorted[..i] + [sorted[i]];
      if i == 0 || sorted[i] != sorted[i - 1] {
        StartRun(sorted[..i], qf, sorted[i]);
        qf := qf + [(sorted[i], 1)];
      } else {
        ExtendRun(sorted[..i], qf);
        qf := qf[..|qf| - 1] + [(sorted[i], qf[|qf| - 1].1 + 1)];
      }
    }
    assert sorted[..|sorted|] == sorted;
    SameBagSameFreqs(sorted, terms, qf);
  }

  lemma NoFreqs()
    ensures IsQueryFreqs([], [])
  {
  }

  lemma SameBagSameFreqs(a: seq<nat>, b: seq<nat>, qf: seq<(nat, nat)>)
    requires multiset(a) == multiset(b) && IsQueryFreqs(a, qf)
    ensures IsQueryFreqs(b, qf)
  {
    PermutationMembers(a, b);
  }

  /** A term larger than all before it starts a new pair. */
  lemma StartRun(before: seq<nat>, qf: seq<(nat, nat)>, x: nat)
    requires IsQueryFreqs(before, qf)
    requires forall t :: t in before ==> t <= x
    requires qf == [] || qf[|qf| - 1].0 < x
    ensures IsQueryFreqs(before + [x], qf + [(x, 1)])
  {
    var qf' := qf + [(x, 1)];
    assert TermIds(qf') == TermIds(qf) + [x];
    forall j | 0 <= j < |qf|
      ensures qf[j].0 < x
    {
      assert TermIds(qf)[j] <= TermIds(qf)[|qf| - 1];
    }
    assert forall t :: t in TermIds(qf) ==> t < x;
    assert x !in before;
    assert multiset(before)[x] == 0;
  }

  /** One more occurrence of the last term raises its count. */
  lemma ExtendRun(before: seq<nat>, qf: seq<(nat, nat)>)
    requires IsQueryFreqs(before, qf) && qf != []
    ensures var last := qf[|qf| - 1];
      IsQueryFreqs(before + [last.0], qf[..|qf| - 1] + [(last.0, last.1 + 1)])
  {
    var n := |qf| - 1;
    var qf' := qf[..n] + [(qf[n].0, qf[n].1 + 1)];
    assert TermIds(qf') == TermIds(qf);
    forall j | 0 <= j < n
      ensures qf[j].0 != qf[n].0
    {
      assert TermIds(qf)[j] < TermIds(qf)[n];
    }
  }

  lemma HeadIsMember(s: seq<nat>)
    requires s != []
    ensures s[0] in s
  {
  }

  lemma {:induction false} SameMembersSameSequence(a: seq<nat>, b: seq<nat>)
    requires Increasing(a) && Increasing(b)
    requires forall x :: x in a <==> x in b
    ensures a == b
  {
    if b != [] {
      HeadIsMember(b);
    }
    if a != [] {
      assert a[0] in a;

      assert a[0] in b && b[0] in a;
      forall x
        ensures x in a[1..] <==> x in b[1..]
      {
        assert x in a[1..] <==> x in a && x != a[0];
        assert x in b[1..] <==> x in b && x != b[0];
      }
      SameMembersSameSequence(a[1..], b[1..]);
      assert a == [a[0]] + a[1..] && b == [b[0]] + b[1..];
    }
  }

  /** A query determines its list of (term, count) pairs. */
  lemma QueryFreqsUnique(terms: seq<nat>, p: seq<(nat, nat)>, q: seq<(nat, nat)>)
    requires IsQueryFreqs(terms, p) && IsQueryFreqs(terms, q)
    ensures p == q
  {
    forall x
      ensures x in TermIds(p) <==> x in TermIds(q)
    {
      MembersAreTerms(terms, p, x);
      MembersAreTerms(terms, q, x);
    }
    SameMembersSameSequence(TermIds(p), TermIds(q));
    forall i | 0 <= i < |p|
      ensures p[i] == q[i]
    {
      assert p[i].0 == TermIds(p)[i] == TermIds(q)[i] == q[i].0;
    }
  }

  lemma MembersAreTerms(terms: seq<nat>, p: seq<(nat, nat)>, x: nat)
    requires IsQueryFreqs(terms, p)
    ensures x in TermIds(p) <==> x in terms
  {
    if x in TermIds(p) {
      var i :| 0 <= i < |p| && TermIds(p)[i] == x;
      assert multiset(terms)[p[i].0] >= 1;
    }
  }

  // ---------------------------------------------------------------------------------------------

  /** The number of lists that an index needs for the terms. */
  method Size(terms: seq<nat>) returns (size: nat)
    ensures forall t :: t in terms ==> t < size
  {
    size := 0;
    for i := 0 to |terms|
      invariant forall j :: 0 <= j < i ==> terms[j] < size
    {
      if terms[i] >= size {
        size := terms[i] + 1;
      }
    }
  }

  ghost predicate Answerable(index: Index, terms: seq<nat>) {
    index.Valid() && forall t :: t in terms ==> t < |index.lists|
  }

  /** BM25 weights and the bound wand_query derives from them. */
  function Bm25Lists(log: real -> real, index: Index, bounds: seq<real>, qf: seq<(nat, nat)>): (ts: seq<TermList>)
    requires |bounds| == |index.lists| && forall i :: 0 <= i < |qf| ==> qf[i].0 < |index.lists|
    ensures |ts| == |qf|
  {
    seq(|qf|, i requires 0 <= i < |qf| => Bm25List(log, index, bounds, qf[i]))
  }

  function Bm25List(log: real -> real, index: Index, bounds: seq<real>, tf: (nat, nat)): TermList
    requires |bounds| == |index.lists| && tf.0 < |index.lists|
  {
    var list := index.lists[tf.0];
    var qWeight := QueryTermWeight(log, tf.1, |list.docs|, index.numDocs);
    TermList(list, qWeight, Times(qWeight, bounds[tf.0]))
  }

  /** The weights maxscore_query uses instead: the count of the term, and the bare bound. */
  function FreqLists(index: Index, bounds: seq<real>, qf: seq<(nat, nat)>): (ts: seq<TermList>)
    requires |bounds| == |index.lists| && forall i :: 0 <= i < |qf| ==> qf[i].0 < |index.lists|
    ensures |ts| == |qf|
  {
    seq(|qf|, i requires 0 <= i < |qf| => FreqList(index, bounds, qf[i]))
  }

  function FreqList(index: Index, bounds: seq<real>, tf: (nat, nat)): TermList
    requires |bounds| == |index.lists| && tf.0 < |index.lists|
  {
    TermList(index.lists[tf.0], tf.1 as real, bounds[tf.0])
  }

  lemma QueryTermsInRange(index: Index, terms: seq<nat>, qf: seq<(nat, nat)>)
    requires Answerable(index, terms) && IsQueryFreqs(terms, qf)
    ensures forall i :: 0 <= i < |qf| ==> qf[i].0 < |index.lists| && qf[i].1 >= 1
  {
    forall i | 0 <= i < |qf|
      ensures qf[i].0 < |index.lists|
    {
      MembersAreTerms(terms, qf, TermIds(qf)[i]);
    }
  }

  lemma Bm25ListBounded(log: real -> real, index: Index, wdata: Data, tf: (nat, nat))
    requires index.Valid() && wdata.BoundsFor(index.lists) && tf.0 < |index.lists| && tf.1 >= 1
    ensures var t := Bm25List(log, index, wdata.maxTermWeight, tf);
      t.list.Valid(index.numDocs) && t.Dominates(Bm25Scorer(wdata.normLens))
  {
    hide QueryTermWeight, TermList.Dominates, IsMaxFreq, PostingList.Valid, Times;
    var list := index.lists[tf.0];
    assert list in index.lists;
    QueryTermWeightPositive(log, tf.1, |list.docs|, index.numDocs);
    Bm25BoundDominates(Bm25List(log, index, wdata.maxTermWeight, tf), index.numDocs, wdata.normLens,
      wdata.maxTermWeight[tf.0]);
  }

  /** Every BM25 list of a query is bounded by what wand_query keeps for it. */
  lemma Bm25ListsBounded(log: real -> real, index: Index, wdata: Data, qf: seq<(nat, nat)>)
    requires index.Valid() && wdata.BoundsFor(index.lists)
    requires forall i :: 0 <= i < |qf| ==> qf[i].0 < |index.lists| && qf[i].1 >= 1
    ensures var ts := Bm25Lists(log, index, wdata.maxTermWeight, qf);
      ValidLists(ts, index.numDocs) && Bounded(ts, Bm25Scorer(wdata.normLens))
  {
    hide Bm25List, TermList.Dominates, PostingList.Valid;
    forall i | 0 <= i < |qf|
      ensures var t := Bm25List(log, index, wdata.maxTermWeight, qf[i]);
        t.list.Valid(index.numDocs) && t.Dominates(Bm25Scorer(wdata.normLens))
    {
      Bm25ListBounded(log, index, wdata, qf[i]);
    }
  }

  /** With no repeated term, every list of maxscore_query is bounded too. */
  lemma FreqListsBounded(index: Index, wdata: Data, qf: seq<(nat, nat)>)
    requires index.Valid() && wdata.BoundsFor(index.lists)
    requires forall i :: 0 <= i < |qf| ==> qf[i].0 < |index.lists| && qf[i].1 == 1
    ensures var ts := FreqLists(index, wdata.maxTermWeight, qf);
      ValidLists(ts, index.numDocs) && Bounded(ts, FreqScorer)
  {
    forall i | 0 <= i < |qf|
      ensures var t := FreqList(index, wdata.maxTermWeight, qf[i]);
        t.list.Valid(index.numDocs) && t.Dominates(FreqScorer)
    {
      assert index.lists[qf[i].0] in index.lists;
      var t := FreqList(index, wdata.maxTermWeight, qf[i]);
      if t.list.docs != [] {
        FreqBoundDominatesIff(t, index.numDocs, 1);
      }
    }
  }

  /** The BM25 scores of every document that holds a query term: what a ranked query selects from. */
  ghost function Bm25UnionScores(log: real -> real, index: Index, wdata: Data, terms: seq<nat>,
                                 qf: seq<(nat, nat)>): multiset<real>
    requires Answerable(index, terms) && wdata.BoundsFor(index.lists) && IsQueryFreqs(terms, qf)
  {
    QueryTermsInRange(index, terms, qf);
    UnionScores(Bm25Lists(log, index, wdata.maxTermWeight, qf), Bm25Scorer(wdata.normLens), index.numDocs)
  }

  /** The sums of frequencies that maxscore_query ranks by. */
  ghost function FreqUnionScores(index: Index, wdata: Data, terms: seq<nat>, qf: seq<(nat, nat)>): multiset<real>
    requires Answerable(index, terms) && wdata.BoundsFor(index.lists) && IsQueryFreqs(terms, qf)
  {
    QueryTermsInRange(index, terms, qf);
    UnionScores(FreqLists(index, wdata.maxTermWeight, qf), FreqScorer, index.numDocs)
  }

  lemma EmptyUnion(scorer: Scorer, limit: nat)
    ensures UnionScores([], scorer, limit) == multiset{}
  {
  }

  lemma NoTerms(terms: seq<nat>, qf: seq<(nat, nat)>)
    requires IsQueryFreqs(terms, qf) && terms == []
    ensures qf == []
  {
    if qf != [] {
      MembersAreTerms(terms, qf, TermIds(qf)[0]);
    }
  }
}
