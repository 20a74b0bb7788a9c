/**
 * Posting lists, what a document scores on them, and the cursor a query drives over one list.
 */
module Postings {
  import opened Bm25
  import opened MonotoneSequence

  datatype PostingList = PostingList(docs: seq<nat>, freqs: seq<nat>) {
    ghost predicate Valid(numDocs: nat) {
      && |freqs| == |docs|
      && (forall i, j :: 0 <= i < j < |docs| ==> docs[i] < docs[j])
      && (forall i :: 0 <= i < |docs| ==> docs[i] < numDocs)
      && (forall i :: 0 <= i < |freqs| ==> freqs[i] >= 1)
    }
  }

  /** The per-document half of a score: BM25 for most operators, the plain frequency for MaxScore. */
  datatype Scorer = Bm25Scorer(normLens: seq<NonNegative>) | FreqScorer {
    function Weight(freq: nat, d: nat): real {
      match this
      case Bm25Scorer(normLens) => if d < |normLens| then DocTermWeight(freq, normLens[d]) else 0.0
      case FreqScorer => freq as real
    }
  }

  /** One query term: its list, the weight of the term in the query, and the bound kept for it. */
  datatype TermList = TermList(list: PostingList, qWeight: real, maxWeight: real) {
    /** What the i-th document of the list gains from it. */
    function GainAt(scorer: Scorer, i: nat): real
      requires i < |list.docs| && i < |list.freqs|
    {
      Times(qWeight, scorer.Weight(list.freqs[i], list.docs[i]))
    }

    ghost function Contribution(scorer: Scorer, d: nat): real {
      if d in list.docs then
        var i :| 0 <= i < |list.docs| && list.docs[i] == d;
        if i < |list.freqs| then GainAt(scorer, i) else 0.0
      else 0.0
    }

    /** maxWeight bounds what any document can gain from this list. */
    ghost predicate Dominates(scorer: Scorer) {
      maxWeight >= 0.0 &&
      forall i :: 0 <= i < |list.docs| && i < |list.freqs| ==> 0.0 <= GainAt(scorer, i) <= maxWeight
    }

    lemma ContributionAt(scorer: Scorer, numDocs: nat, i: nat)
      requires list.Valid(numDocs) && i < |list.docs|
      ensures Contribution(scorer, list.docs[i]) == GainAt(scorer, i)
    {
    }

    lemma ContributionBounds(scorer: Scorer, d: nat)
      requires Dominates(scorer)
      ensures 0.0 <= Contribution(scorer, d) <= maxWeight
    {
    }
  }

  ghost predicate ValidLists(ts: seq<TermList>, numDocs: nat) {
    forall i {:trigger ts[i].list.Valid(numDocs)} :: 0 <= i < |ts| ==> ts[i].list.Valid(numDocs)
  }

  ghost predicate Bounded(ts: seq<TermList>, scorer: Scorer) {
    forall i {:trigger ts[i].Dominates(scorer)} :: 0 <= i < |ts| ==> ts[i].Dominates(scorer)
  }

  /** What a document gains from the first n lists. */
  ghost function PartialScore(ts: seq<TermList>, scorer: Scorer, d: nat, n: nat): real
    requires n <= |ts|
  {
    if n == 0 then 0.0 else PartialScore(ts, scorer, d, n - 1) + ts[n - 1].Contribution(scorer, d)
  }

  ghost function Score(ts: seq<TermList>, scorer: Scorer, d: nat): real {
    PartialScore(ts, scorer, d, |ts|)
  }

  /** The bounds of the first n lists, added up. */
  function MaxSum(ts: seq<TermList>, n: nat): real
    requires n <= |ts|
  {
    if n == 0 then 0.0 else MaxSum(ts, n - 1) + ts[n - 1].maxWeight
  }

  ghost predicate InUnion(ts: seq<TermList>, d: nat) {
    exists i :: 0 <= i < |ts| && d in ts[i].list.docs
  }

  /** The scores of the documents below limit that occur in at least one list. */
  ghost function UnionScores(ts: seq<TermList>, scorer: Scorer, limit: nat): multiset<real> {
    if limit == 0 then multiset{}
    else
      UnionScores(ts, scorer, limit - 1) +
      if InUnion(ts, limit - 1) then multiset{Score(ts, scorer, limit - 1)} else multiset{}
  }

  // ---------------------------------------------------------------------------------------------
  // Sums over lists

  /** The last element of a occurs in a permutation b; without it the rest is still a permutation. */
  lemma LastElsewhere<T>(a: seq<T>, b: seq<T>) returns (j: nat)
    requires multiset(a) == multiset(b) && a != []
    ensures j < |b| && b[j] == a[|a| - 1]
    ensures multiset(a[..|a| - 1]) == multiset(b[..j] + b[j + 1..])
  {
    var n := |a| - 1;
    PermutationMembers(a, b);
    assert a[n] in b;
    j :| 0 <= j < |b| && b[j] == a[n];
    BagOfRemoved(a, n);
    assert a[..n] + a[n + 1..] == a[..n];
    BagOfRemoved(b, j);
    SameBagLess(multiset(a[..n]), multiset(b[..j] + b[j + 1..]), a[n]);
  }

  lemma ScoreOfCommonPrefix(a: seq<TermList>, b: seq<TermList>, scorer: Scorer, d: nat, n: nat)
    requires n <= |a| && n <= |b| && forall i :: 0 <= i < n ==> a[i] == b[i]
    ensures PartialScore(a, scorer, d, n) == PartialScore(b, scorer, d, n)
  {
  }

  lemma ScoreWithout(b: seq<TermList>, j: nat, scorer: Scorer, d: nat, n: nat)
    requires j < n <= |b|
    ensures PartialScore(b, scorer, d, n) ==
      PartialScore(b[..j] + b[j + 1..], scorer, d, n - 1) + b[j].Contribution(scorer, d)
  {
    if n == j + 1 {
      ScoreOfCommonPrefix(b, b[..j] + b[j + 1..], scorer, d, j);
    } else {
      ScoreWithout(b, j, scorer, d, n - 1);
    }
  }

  /** The order in which lists are added up does not matter. */
  lemma {:induction false} ScoreOfPermutation(a: seq<TermList>, b: seq<TermList>, scorer: Scorer, d: nat)
    requires multiset(a) == multiset(b)
    ensures Score(a, scorer, d) == Score(b, scorer, d)
  {
    PermutationMembers(a, b);
    if a != [] {
      var n := |a| - 1;
      var j := LastElsewhere(a, b);
      var rest := b[..j] + b[j + 1..];
      ScoreOfPermutation(a[..n], rest, scorer, d);
      ScoreOfCommonPrefix(a, a[..n], scorer, d, n);
      ScoreWithout(b, j, scorer, d, |b|);
    }
  }

  lemma UnionOfPermutation(a: seq<TermList>, b: seq<TermList>, d: nat)
    requires multiset(a) == multiset(b)
    ensures InUnion(a, d) <==> InUnion(b, d)
  {
    PermutationMembers(a, b);
    if i :| 0 <= i < |a| && d in a[i].list.docs {
      assert a[i] in b;
    }
    if i :| 0 <= i < |b| && d in b[i].list.docs {
      assert b[i] in a;
    }
  }

  /** Any order of the same lists yields the same bag of document scores. */
  lemma UnionScoresOfPermutation(a: seq<TermList>, b: seq<TermList>, scorer: Scorer, limit: nat)
    requires multiset(a) == multiset(b)
    ensures UnionScores(a, scorer, limit) == UnionScores(b, scorer, limit)
  {
    forall d: nat
      ensures Score(a, scorer, d) == Score(b, scorer, d) && (InUnion(a, d) <==> InUnion(b, d))
    {
      ScoreOfPermutation(a, b, scorer, d);
      UnionOfPermutation(a, b, d);
    }
    SameScoresSameUnion(a, b, scorer, limit);
  }

  lemma SameScoresSameUnion(a: seq<TermList>, b: seq<TermList>, scorer: Scorer, limit: nat)
    requires forall d: nat :: Score(a, scorer, d) == Score(b, scorer, d) && (InUnion(a, d) <==> InUnion(b, d))
    ensures UnionScores(a, scorer, limit) == UnionScores(b, scorer, limit)
  {
  }

  lemma BoundedPermutation(a: seq<TermList>, b: seq<TermList>, scorer: Scorer, numDocs: nat)
    requires multiset(a) == multiset(b)
    requires ValidLists(a, numDocs) && Bounded(a, scorer)
    ensures ValidLists(b, numDocs) && Bounded(b, scorer)
  {
    PermutationMembers(a, b);
    forall i | 0 <= i < |b|
      ensures b[i].list.Valid(numDocs) && b[i].Dominates(scorer)
    {
      assert b[i] in a;
    }
  }

  ghost predicate NonNegativeBounds(ts: seq<TermList>) {
    forall i :: 0 <= i < |ts| ==> ts[i].maxWeight >= 0.0
  }

  lemma BoundedNonNegative(ts: seq<TermList>, scorer: Scorer)
    requires Bounded(ts, scorer)
    ensures NonNegativeBounds(ts)
  {
    forall i | 0 <= i < |ts|
      ensures ts[i].maxWeight >= 0.0
    {
      assert ts[i].Dominates(scorer);
    }
  }

  lemma {:induction false} MaxSumMonotone(ts: seq<TermList>, i: nat, j: nat)
    requires i <= j <= |ts| && NonNegativeBounds(ts)
    ensures 0.0 <= MaxSum(ts, i) <= MaxSum(ts, j)
    decreases j
  {
    if 0 < j {
      MaxSumMonotone(ts, if i < j then i else i - 1, j - 1);
    }
  }

  lemma {:induction false} MaxSumWithout(b: seq<TermList>, j: nat, n: nat)
    requires j < n <= |b|
    ensures MaxSum(b, n) == MaxSum(b[..j] + b[j + 1..], n - 1) + b[j].maxWeight
  {
    if n == j + 1 {
      MaxSumOfCommonPrefix(b, b[..j] + b[j + 1..], j);
    } else {
      MaxSumWithout(b, j, n - 1);
    }
  }

  /** The sum of all bounds does not depend on the order of the lists. */
  lemma {:induction false} MaxSumOfPermutation(a: seq<TermList>, b: seq<TermList>)
    requires multiset(a) == multiset(b)
    ensures |a| == |b| && MaxSum(a, |a|) == MaxSum(b, |b|)
  {
    PermutationMembers(a, b);
    if a != [] {
      var n := |a| - 1;
      var j := LastElsewhere(a, b);
      MaxSumOfPermutation(a[..n], b[..j] + b[j + 1..]);
      MaxSumOfCommonPrefix(a, a[..n], n);
      MaxSumWithout(b, j, |b|);
    }
  }

  lemma MaxSumOfCommonPrefix(a: seq<TermList>, b: seq<TermList>, n: nat)
    requires n <= |a| && n <= |b| && forall i :: 0 <= i < n ==> a[i] == b[i]
    ensures MaxSum(a, n) == MaxSum(b, n)
  {
  }

  /** The bounds of the first n lists bound what these lists give to any document. */
  lemma {:induction false} PartialScoreBelowMaxSum(ts: seq<TermList>, scorer: Scorer, d: nat, n: nat)
    requires Bounded(ts, scorer) && n <= |ts|
    ensures 0.0 <= PartialScore(ts, scorer, d, n) <= MaxSum(ts, n)
  {
    if n > 0 {
      ts[n - 1].ContributionBounds(scorer, d);
      PartialScoreBelowMaxSum(ts, scorer, d, n - 1);
    }
  }

  /** Lists from m on that do not hold d add nothing. */
  lemma {:induction false} ScoreOfPrefix(ts: seq<TermList>, scorer: Scorer, d: nat, m: nat, n: nat)
    requires m <= n <= |ts|
    requires forall i :: m <= i < n ==> d !in ts[i].list.docs
    ensures PartialScore(ts, scorer, d, n) == PartialScore(ts, scorer, d, m)
  {
    if m < n {
      ScoreOfPrefix(ts, scorer, d, m, n - 1);
    }
  }

  // ---------------------------------------------------------------------------------------------
  // The cursors

  /** A cursor at pos is within the list and has passed only documents below bound. */
  ghost predicate Passed(docs: seq<nat>, pos: nat, bound: nat) {
    pos <= |docs| && forall i :: 0 <= i < pos ==> docs[i] < bound
  }

  /** The document at pos, or numDocs at the end. */
  function DocAt(docs: seq<nat>, pos: nat, numDocs: nat): nat {
    if pos < |docs| then docs[pos] else numDocs
  }

  /** The scored enumerators of one query: a cursor into each of its lists. */
  class ScoredEnums {
    const terms: seq<TermList>
    const numDocs: nat
    var pos: seq<nat>

    ghost predicate Valid()
      reads this
    {
      |pos| == |terms|
    }

    constructor (terms: seq<TermList>, numDocs: nat)
      ensures Valid() && this.terms == terms && this.numDocs == numDocs
      ensures forall i :: 0 <= i < |terms| ==> pos[i] == 0
    {
      this.terms := terms;
      this.numDocs := numDocs;
      pos := seq(|terms|, _ => 0);
    }

    function Docid(i: nat): nat
      requires Valid() && i < |terms|
      reads this
    {
      DocAt(terms[i].list.docs, pos[i], numDocs)
    }

    function Freq(i: nat): nat
      requires Valid() && i < |terms| && pos[i] < |terms[i].list.freqs|
      reads this
    {
      terms[i].list.freqs[pos[i]]
    }

    method Next(i: nat)
      requires Valid() && i < |terms|
      modifies this
      ensures Valid() && pos == old(pos)[i := old(pos[i]) + 1]
    {
      pos := pos[i := pos[i] + 1];
    }

    /**
     * Moves cursor i to the first document >= lowerBound. Every implementation of the cursor agrees
     * on this as long as nothing at or above lowerBound has been passed already.
     */
    method NextGeq(i: nat, lowerBound: nat)
      requires Valid() && i < |terms| && Passed(terms[i].list.docs, pos[i], lowerBound)
      modifies this
      ensures Valid() && pos == old(pos)[i := pos[i]]
      ensures pos[i] >= old(pos[i]) && Passed(terms[i].list.docs, pos[i], lowerBound)
      ensures pos[i] < |terms[i].list.docs| ==> terms[i].list.docs[pos[i]] >= lowerBound
      ensures old(Docid(i)) < lowerBound && lowerBound <= numDocs ==> pos[i] > old(pos[i])
      ensures pos[i] == FirstGeq(terms[i].list.docs, lowerBound, 0)
    {
      while pos[i] < |terms[i].list.docs| && terms[i].list.docs[pos[i]] < lowerBound
        invariant Valid() && pos == old(pos)[i := pos[i]]
        invariant pos[i] >= old(pos[i]) && Passed(terms[i].list.docs, pos[i], lowerBound)
        decreases |terms[i].list.docs| - pos[i]
      {
        pos := pos[i := pos[i] + 1];
      }
      FirstGeqIs(terms[i].list.docs, lowerBound, pos[i]);
    }
  }
}
