/** maxscore_query (queries.hpp) answers exactly the queries without a repeated term exactly. */
module RepeatedTerms {
  import opened Bm25
  import opened MaxScore
  import opened MonotoneSequence
  import opened Postings
  import opened QueryTerms
  import opened TopKQueue
  import opened WandData

  // An index that a repeated term t loses on: list t holds documents 0 and 1, the second with one more
  // occurrence, and every other list holds document 1 once.

  function TrapList(t: nat, f: nat, i: nat): PostingList {
    if i == t then PostingList([0, 1], [f, f + 1]) else PostingList([1], [1])
  }

  function Trap(t: nat, f: nat, size: nat): (index: Index)
    ensures |index.lists| == size && forall i :: 0 <= i < size ==> index.lists[i] == TrapList(t, f, i)
  {
    Index(2, seq(size, i requires 0 <= i => TrapList(t, f, i)))
  }

  lemma TrapIsValid(t: nat, f: nat, size: nat)
    requires f >= 1
    ensures Trap(t, f, size).Valid() && forall l :: l in Trap(t, f, size).lists ==> l.docs != []
  {
  }

  /** The lists of a query on that index; the repeated term is the p-th one. */
  ghost predicate IsTrap(ts: seq<TermList>, p: nat, f: nat) {
    && p < |ts| && ts[p].qWeight >= 2.0 && ts[p].maxWeight == (f + 1) as real
    && (forall i :: 0 <= i < |ts| ==> ts[i].list == TrapList(p, f, i) && ts[i].qWeight >= 1.0)
    && forall i :: 0 <= i < |ts| && i != p ==> ts[i].maxWeight == 1.0
  }

  lemma TrapGains(ts: seq<TermList>, p: nat, f: nat, i: nat)
    requires f >= 1 && IsTrap(ts, p, f) && i < |ts|
    ensures ts[i].Contribution(FreqScorer, 0) == if i == p then Times(ts[p].qWeight, f as real) else 0.0
    ensures ts[i].Contribution(FreqScorer, 1) >= 0.0
    ensures ts[p].Contribution(FreqScorer, 1) == Times(ts[p].qWeight, (f + 1) as real)
  {
    ts[p].ContributionAt(FreqScorer, 2, 0);
    ts[p].ContributionAt(FreqScorer, 2, 1);
    if i != p {
      ts[i].ContributionAt(FreqScorer, 2, 0);
    }
  }

  /** Document 0 gains from the repeated term only, document 1 at least as much as that term gives it. */
  lemma {:induction false} TrapSums(ts: seq<TermList>, p: nat, f: nat, n: nat)
    requires f >= 1 && IsTrap(ts, p, f) && n <= |ts|
    ensures PartialScore(ts, FreqScorer, 0, n) == if n > p then Times(ts[p].qWeight, f as real) else 0.0
    ensures PartialScore(ts, FreqScorer, 1, n) >= if n > p then Times(ts[p].qWeight, (f + 1) as real) else 0.0
    ensures MaxSum(ts, n) == (n + if n > p then f else 0) as real
  {
    if n > 0 {
      TrapSums(ts, p, f, n - 1);
      TrapGains(ts, p, f, n - 1);
    }
  }

  /** The first document reaches the sum of the bounds, and the second one scores more. */
  lemma TrapSprings(ts: seq<TermList>, p: nat)
    requires IsTrap(ts, p, |ts|)
    ensures IsFirst(ts, 0) && InUnion(ts, 1)
    ensures Score(ts, FreqScorer, 0) >= MaxSum(ts, |ts|)
    ensures Score(ts, FreqScorer, 1) > Score(ts, FreqScorer, 0)
  {
    hide Times, TermList.Contribution, PartialScore, MaxSum;
    TrapHolds(ts, p);
    TrapSums(ts, p, |ts|, |ts|);
    var x := |ts| as real;
    TwiceReaches(ts[p].qWeight, x);
    assert (|ts| + |ts|) as real == x + x && (|ts| + 1) as real == x + 1.0;
  }

  lemma TrapHolds(ts: seq<TermList>, p: nat)
    requires IsTrap(ts, p, |ts|)
    ensures InUnion(ts, 0) && InUnion(ts, 1)
  {
    assert ts[p].list.docs[0] == 0 && ts[p].list.docs[1] == 1;
  }

  lemma TwiceReaches(q: real, x: real)
    requires q >= 2.0 && x >= 0.0
    ensures Times(q, x) >= x + x && Times(q, x + 1.0) > Times(q, x)
  {
    TimesMore(q, 2.0, x);
    assert Times(q, x + 1.0) == Times(q, x) + q;
  }

  lemma TimesMore(q: real, r: real, x: real)
    requires q >= r && x >= 0.0
    ensures Times(q, x) >= Times(r, x)
  {
  }

  lemma BetterLeftOut(all: multiset<real>, x: real, y: real)
    requires y in all && y > x
    ensures !IsTopK(1, all, [x])
  {
    assert x in multiset([x]);
    assert y in all - multiset([x]);
  }

  /** A query with a repeated term on the index made for it. */
  lemma QueryIsTrap(index: Index, bounds: seq<real>, terms: seq<nat>, qf: seq<(nat, nat)>, t: nat) returns (p: nat)
    requires IsQueryFreqs(terms, qf) && multiset(terms)[t] >= 2 && |bounds| == |index.lists|
    requires forall i :: 0 <= i < |qf| ==> qf[i].0 < |index.lists| && qf[i].1 >= 1
    requires index == Trap(t, |qf|, |index.lists|)
    requires forall i :: 0 <= i < |bounds| ==> IsMaxFreq(index.lists[i].freqs, bounds[i])
    ensures IsTrap(FreqLists(index, bounds, qf), p, |qf|)
  {
    assert t in terms;
    p :| 0 <= p < |qf| && TermIds(qf)[p] == t;
    var ts := FreqLists(index, bounds, qf);
    forall i | 0 <= i < |ts|
      ensures ts[i].list == TrapList(p, |qf|, i) && ts[i].maxWeight == if i == p then (|qf| + 1) as real else 1.0
    {
      assert i != p ==> TermIds(qf)[i] != TermIds(qf)[p];
      LargestOfTrap(t, |qf|, qf[i].0, bounds[qf[i].0]);
    }
  }

  lemma LargestOfTrap(t: nat, f: nat, i: nat, m: real)
    requires IsMaxFreq(TrapList(t, f, i).freqs, m)
    ensures m == if i == t then (f + 1) as real else 1.0
  {
    var freqs := TrapList(t, f, i).freqs;
    assert freqs[|freqs| - 1] as real <= m;
  }

  /** Searches for a term that is repeated. */
  method FindRepeated(terms: seq<nat>) returns (found: bool, t: nat)
    ensures found == !NoRepeatedTerm(terms) && (found ==> multiset(terms)[t] >= 2)
  {
    found, t := false, 0;
    for i := 0 to |terms|
      invariant !found ==> forall j :: 0 <= j < i ==> multiset(terms)[terms[j]] == 1
      invariant found ==> multiset(terms)[t] >= 2
    {
      assert terms[i] in terms && terms[i] in multiset(terms);
      if multiset(terms)[terms[i]] != 1 {
        found, t := true, terms[i];
      }
    }
    if found {
      assert t in multiset(terms) && t in terms;
    }
  }

  /**
   * For every query there is an index of non-empty lists on which it is answered exactly if and only
   * if no term is repeated. Without a repeated term, MaxScore.Query is exact on every index.
   */
  method ExactIffNoRepeatedTerm(terms: seq<nat>) returns (index: Index, wdata: Data, topk: seq<real>)
    ensures Answerable(index, terms) && wdata.BoundsFor(index.lists)
    ensures forall l :: l in index.lists ==> l.docs != []
    ensures forall qf :: IsQueryFreqs(terms, qf) ==>
      (IsTopK(1, FreqUnionScores(index, wdata, terms, qf), topk) <==> NoRepeatedTerm(terms))
  {
    hide UnionScores, IsTopK, IsQueryFreqs, IsMaxFreq, NoRepeatedTerm, IsTrap, Score, MaxSum, IsFirst;
    var qf := QueryFreqs(terms);
    var size := Size(terms);
    var repeated, t := FindRepeated(terms);
    var f := if qf == [] then 1 else |qf|;
    index := Trap(t, f, size);
    TrapIsValid(t, f, size);
    wdata := new Data([1, 1], index.lists) by {
      assert [1, 1][..1] == [1];
      TrapLengths(t, f, size);
    }
    topk := Query(index, wdata, 1, terms);
    if repeated {
      RepeatedMisses(index, wdata, terms, qf, t, topk);
    }
    forall other | IsQueryFreqs(terms, other)
      ensures IsTopK(1, FreqUnionScores(index, wdata, terms, other), topk) <==> NoRepeatedTerm(terms)
    {
      QueryFreqsUnique(terms, qf, other);
    }
  }

  lemma TrapLengths(t: nat, f: nat, size: nat)
    ensures forall l :: l in Trap(t, f, size).lists ==> |l.freqs| == |l.docs|
  {
  }

  lemma RepeatedMisses(index: Index, wdata: Data, terms: seq<nat>, qf: seq<(nat, nat)>, t: nat, topk: seq<real>)
    requires Answerable(index, terms) && wdata.BoundsFor(index.lists) && IsQueryFreqs(terms, qf)
    requires multiset(terms)[t] >= 2 && index == Trap(t, if qf == [] then 1 else |qf|, |index.lists|)
    requires StopsEarly(index, wdata, terms, qf, topk)
    ensures !IsTopK(1, FreqUnionScores(index, wdata, terms, qf), topk)
  {
    hide IsTrap, IsTopK, Score, MaxSum;
    QueryTermsInRange(index, terms, qf);
    assert t in multiset(terms) && t in terms;
    SomeTerm(terms, qf);
    var p := QueryIsTrap(index, wdata.maxTermWeight, terms, qf, t);
    var ts := FreqLists(index, wdata.maxTermWeight, qf);
    TrapSprings(ts, p);
    assert Score(ts, FreqScorer, 1) in UnionScores(ts, FreqScorer, 1 + 1);
    BetterLeftOut(FreqUnionScores(index, wdata, terms, qf), Score(ts, FreqScorer, 0), Score(ts, FreqScorer, 1));
  }
}
