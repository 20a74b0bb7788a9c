/** What the scores of queries.hpp mean: sums over the terms of the query, one occurrence after the other. */
module TermScores {
  // The operators score by lists of distinct terms with counts and weights. Here scores are defined on the
  // terms as they stand in the query, without either.

  import opened Bm25
  import opened MonotoneSequence
  import opened Postings
  import opened QueryTerms
  import opened WandData

  /** How often the list says that d holds its term; 0 if it does not. */
  ghost function FreqIn(list: PostingList, d: nat): nat {
    if exists i :: 0 <= i < |list.docs| && i < |list.freqs| && list.docs[i] == d then
      var i :| 0 <= i < |list.docs| && i < |list.freqs| && list.docs[i] == d;
      list.freqs[i]
    else 0
  }

  lemma FreqInAt(list: PostingList, numDocs: nat, d: nat)
    requires list.Valid(numDocs)
    ensures d in list.docs <==> FreqIn(list, d) > 0
    ensures forall i :: 0 <= i < |list.docs| && list.docs[i] == d ==> FreqIn(list, d) == list.freqs[i]
  {
  }

  ghost predicate TermsIn(index: Index, terms: seq<nat>) {
    forall i :: 0 <= i < |terms| ==> terms[i] < |index.lists|
  }

  lemma AnswerableTerms(index: Index, terms: seq<nat>)
    requires Answerable(index, terms)
    ensures TermsIn(index, terms)
  {
    forall i | 0 <= i < |terms|
      ensures terms[i] < |index.lists|
    {
      assert terms[i] in terms;
    }
  }

  /** The frequencies of all terms in d, a term counted as often as the query names it. */
  ghost function FreqScore(index: Index, terms: seq<nat>, d: nat): nat
    requires TermsIn(index, terms)
  {
    if terms == [] then 0 else FreqIn(index.lists[terms[0]], d) + FreqScore(index, terms[1..], d)
  }

  /** What one occurrence of term t gives to d. */
  ghost function TermGain(log: real -> real, index: Index, normLens: seq<NonNegative>, t: nat, d: nat): real
    requires t < |index.lists| && d < |normLens|
  {
    var list := index.lists[t];
    Times(QueryTermWeight(log, 1, |list.docs|, index.numDocs), DocTermWeight(FreqIn(list, d), normLens[d]))
  }

  ghost function Bm25Score(log: real -> real, index: Index, normLens: seq<NonNegative>, terms: seq<nat>, d: nat): real
    requires TermsIn(index, terms) && d < |normLens|
  {
    if terms == [] then 0.0
    else TermGain(log, index, normLens, terms[0], d) + Bm25Score(log, index, normLens, terms[1..], d)
  }

  // ---------------------------------------------------------------------------------------------
  // Sums over pairs of terms and counts are sums over the query

  /** The gains of the first n pairs, each as often as its count says. */
  ghost function CountedSum(qf: seq<(nat, nat)>, gain: nat -> real, n: nat): real
    requires n <= |qf|
  {
    if n == 0 then 0.0 else CountedSum(qf, gain, n - 1) + Times(qf[n - 1].1 as real, gain(qf[n - 1].0))
  }

  ghost function TermSum(terms: seq<nat>, gain: nat -> real): real {
    if terms == [] then 0.0 else gain(terms[0]) + TermSum(terms[1..], gain)
  }

  /** qf counts the terms; terms that no longer occur may be left over. */
  ghost predicate CountsOf(terms: seq<nat>, qf: seq<(nat, nat)>) {
    && (forall i, j :: 0 <= i < j < |qf| ==> qf[i].0 != qf[j].0)
    && (forall i :: 0 <= i < |qf| ==> qf[i].1 == multiset(terms)[qf[i].0])
    && (forall t :: t in terms ==> exists i :: 0 <= i < |qf| && qf[i].0 == t)
  }

  lemma QueryFreqsCount(terms: seq<nat>, qf: seq<(nat, nat)>)
    requires IsQueryFreqs(terms, qf)
    ensures CountsOf(terms, qf)
  {
    forall i, j | 0 <= i < j < |qf|
      ensures qf[i].0 != qf[j].0
    {
      assert TermIds(qf)[i] < TermIds(qf)[j];
    }
    forall t | t in terms
      ensures exists i :: 0 <= i < |qf| && qf[i].0 == t
    {
      var i :| 0 <= i < |TermIds(qf)| && TermIds(qf)[i] == t;
      assert qf[i].0 == t;
    }
  }

  lemma FirstTermGone(terms: seq<nat>, qf: seq<(nat, nat)>, i: nat)
    requires terms != [] && CountsOf(terms, qf) && i < |qf| && qf[i].0 == terms[0]
    ensures qf[i].1 >= 1 && CountsOf(terms[1..], qf[i := (terms[0], qf[i].1 - 1)])
  {
    var rest, qf' := terms[1..], qf[i := (terms[0], qf[i].1 - 1)];
    assert terms == [terms[0]] + rest;
    assert multiset(terms) == multiset{terms[0]} + multiset(rest);
    forall t | t in rest
      ensures exists j :: 0 <= j < |qf'| && qf'[j].0 == t
    {
      assert t in terms;
      var j :| 0 <= j < |qf| && qf[j].0 == t;
      assert qf'[j].0 == t;
    }
  }

  /** Lowering one count by one takes one gain away. */
  lemma {:induction false} OneLess(qf: seq<(nat, nat)>, gain: nat -> real, i: nat, n: nat)
    requires i < |qf| && qf[i].1 >= 1 && n <= |qf|
    ensures CountedSum(qf, gain, n) == CountedSum(qf[i := (qf[i].0, qf[i].1 - 1)], gain, n) +
      if i < n then gain(qf[i].0) else 0.0
  {
    hide Times;
    if n > 0 {
      OneLess(qf, gain, i, n - 1);
      OneTimeLess(qf[i].1, gain(qf[i].0));
    }
  }

  lemma OneTimeLess(count: nat, x: real)
    requires count >= 1
    ensures Times(count as real, x) == Times((count - 1) as real, x) + x
  {
  }

  lemma {:induction false} NothingCounted(qf: seq<(nat, nat)>, gain: nat -> real, n: nat)
    requires n <= |qf| && forall i :: 0 <= i < |qf| ==> qf[i].1 == 0
    ensures CountedSum(qf, gain, n) == 0.0
  {
    if n > 0 {
      NothingCounted(qf, gain, n - 1);
    }
  }

  lemma {:induction false} CountedIsTermSum(terms: seq<nat>, qf: seq<(nat, nat)>, gain: nat -> real)
    requires CountsOf(terms, qf)
    ensures CountedSum(qf, gain, |qf|) == TermSum(terms, gain)
    decreases |terms|
  {
    if terms == [] {
      NothingCounted(qf, gain, |qf|);
    } else {
      assert terms[0] in terms;
      var i :| 0 <= i < |qf| && qf[i].0 == terms[0];
      FirstTermGone(terms, qf, i);
      CountedIsTermSum(terms[1..], qf[i := (terms[0], qf[i].1 - 1)], gain);
      OneLess(qf, gain, i, |qf|);
    }
  }

  /** A score whose lists contribute the gain of their term, once for each occurrence. */
  lemma {:induction false} ScoreIsCountedSum(ts: seq<TermList>, scorer: Scorer, d: nat, qf: seq<(nat, nat)>,
                                             gain: nat -> real, n: nat)
    requires n <= |ts| == |qf|
    requires forall i :: 0 <= i < |ts| ==> ts[i].Contribution(scorer, d) == Times(qf[i].1 as real, gain(qf[i].0))
    ensures PartialScore(ts, scorer, d, n) == CountedSum(qf, gain, n)
  {
    hide TermList.Contribution, Times;
    if n > 0 {
      ScoreIsCountedSum(ts, scorer, d, qf, gain, n - 1);
    }
  }

  // ---------------------------------------------------------------------------------------------
  // Frequencies

  lemma FreqContribution(index: Index, bounds: seq<real>, tf: (nat, nat), d: nat)
    requires index.Valid() && |bounds| == |index.lists| && tf.0 < |index.lists|
    ensures FreqList(index, bounds, tf).Contribution(FreqScorer, d) ==
      Times(tf.1 as real, FreqIn(index.lists[tf.0], d) as real)
  {
    var t := FreqList(index, bounds, tf);
    assert t.list in index.lists;
    FreqInAt(t.list, index.numDocs, d);
    if i :| 0 <= i < |t.list.docs| && t.list.docs[i] == d {
      t.ContributionAt(FreqScorer, index.numDocs, i);
    }
  }

  /** maxscore_query sums up the frequencies of a document, over all occurrences of terms in the query. */
  lemma FreqScoreByTerms(index: Index, bounds: seq<real>, terms: seq<nat>, qf: seq<(nat, nat)>, d: nat)
    requires Answerable(index, terms) && IsQueryFreqs(terms, qf) && |bounds| == |index.lists|
    ensures (forall i :: 0 <= i < |qf| ==> qf[i].0 < |index.lists|) && TermsIn(index, terms)
    ensures Score(FreqLists(index, bounds, qf), FreqScorer, d) == FreqScore(index, terms, d) as real
  {
    hide IsQueryFreqs, TermList.Contribution, FreqIn, CountedSum, TermSum, CountsOf, Times, PartialScore, FreqScore;
    AnswerableTerms(index, terms);
    QueryTermsInRange(index, terms, qf);
    var gain := (t: nat) => if t < |index.lists| then FreqIn(index.lists[t], d) as real else 0.0;
    var ts := FreqLists(index, bounds, qf);
    forall i | 0 <= i < |ts|
      ensures ts[i].Contribution(FreqScorer, d) == Times(qf[i].1 as real, gain(qf[i].0))
    {
      FreqContribution(index, bounds, qf[i], d);
    }
    ScoreIsCountedSum(ts, FreqScorer, d, qf, gain, |ts|);
    QueryFreqsCount(terms, qf);
    CountedIsTermSum(terms, qf, gain);
    FreqSumIs(index, terms, d, gain);
  }

  lemma {:induction false} FreqSumIs(index: Index, terms: seq<nat>, d: nat, gain: nat -> real)
    requires TermsIn(index, terms)
    requires forall t: nat :: t < |index.lists| ==> gain(t) == FreqIn(index.lists[t], d) as real
    ensures TermSum(terms, gain) == FreqScore(index, terms, d) as real
    decreases |terms|
  {
    hide FreqIn;
    if terms != [] {
      FreqSumIs(index, terms[1..], d, gain);
    }
  }

  // ---------------------------------------------------------------------------------------------
  // BM25

  lemma Bm25Contribution(log: real -> real, index: Index, bounds: seq<real>, normLens: seq<NonNegative>, tf: (nat, nat),
                         d: nat)
    requires index.Valid() && |bounds| == |index.lists| && tf.0 < |index.lists| && d < |normLens|
    ensures Bm25List(log, index, bounds, tf).Contribution(Bm25Scorer(normLens), d) ==
      Times(tf.1 as real, TermGain(log, index, normLens, tf.0, d))
  {
    hide QueryTermWeight, DocTermWeight, FreqIn;
    var t := Bm25List(log, index, bounds, tf);
    var list := index.lists[tf.0];
    assert list in index.lists;
    FreqInAt(list, index.numDocs, d);
    WeightPerOccurrence(log, tf.1, |list.docs|, index.numDocs);
    if i :| 0 <= i < |list.docs| && list.docs[i] == d {
      t.ContributionAt(Bm25Scorer(normLens), index.numDocs, i);
      TimesRegroup(tf.1 as real, QueryTermWeight(log, 1, |list.docs|, index.numDocs),
        DocTermWeight(list.freqs[i], normLens[d]));
    } else {
      NoOccurrence(normLens[d]);
    }
  }

  lemma TimesRegroup(x: real, y: real, z: real)
    ensures Times(Times(x, y), z) == Times(x, Times(y, z))
  {
  }

  lemma NoOccurrence(normLen: NonNegative)
    ensures DocTermWeight(0, normLen) == 0.0
  {
  }

  /** The other ranked operators sum up the BM25 gains of all occurrences of terms in the query. */
  lemma Bm25ScoreByTerms(log: real -> real, index: Index, bounds: seq<real>, normLens: seq<NonNegative>,
                         terms: seq<nat>, qf: seq<(nat, nat)>, d: nat)
    requires Answerable(index, terms) && IsQueryFreqs(terms, qf) && |bounds| == |index.lists| && d < |normLens|
    ensures (forall i :: 0 <= i < |qf| ==> qf[i].0 < |index.lists|) && TermsIn(index, terms)
    ensures Score(Bm25Lists(log, index, bounds, qf), Bm25Scorer(normLens), d) ==
      Bm25Score(log, index, normLens, terms, d)
  {
    hide IsQueryFreqs, TermList.Contribution, TermGain, CountedSum, TermSum, CountsOf, Times, PartialScore, Bm25Score,
      Bm25List;
    AnswerableTerms(index, terms);
    QueryTermsInRange(index, terms, qf);
    var gain := (t: nat) => if t < |index.lists| then TermGain(log, index, normLens, t, d) else 0.0;
    var ts := Bm25Lists(log, index, bounds, qf);
    forall i | 0 <= i < |ts|
      ensures ts[i].Contribution(Bm25Scorer(normLens), d) == Times(qf[i].1 as real, gain(qf[i].0))
    {
      Bm25Contribution(log, index, bounds, normLens, qf[i], d);
    }
    ScoreIsCountedSum(ts, Bm25Scorer(normLens), d, qf, gain, |ts|);
    QueryFreqsCount(terms, qf);
    CountedIsTermSum(terms, qf, gain);
    Bm25SumIs(log, index, normLens, terms, d, gain);
  }

  lemma {:induction false} Bm25SumIs(log: real -> real, index: Index, normLens: seq<NonNegative>, terms: seq<nat>,
                                     d: nat, gain: nat -> real)
    requires TermsIn(index, terms) && d < |normLens|
    requires forall t: nat :: t < |index.lists| ==> gain(t) == TermGain(log, index, normLens, t, d)
    ensures TermSum(terms, gain) == Bm25Score(log, index, normLens, terms, d)
    decreases |terms|
  {
    hide TermGain;
    if terms != [] {
      Bm25SumIs(log, index, normLens, terms[1..], d, gain);
    }
  }

  // ---------------------------------------------------------------------------------------------
  // The scores a query selects from

  ghost predicate HeldBySome(index: Index, terms: seq<nat>, d: nat) {
    exists t :: t in terms && t < |index.lists| && d in index.lists[t].docs
  }

  ghost predicate HeldByAll(index: Index, terms: seq<nat>, d: nat) {
    terms != [] && forall t :: t in terms && t < |index.lists| ==> d in index.lists[t].docs
  }

  /** The scores of the documents below limit that are selected. */
  ghost function DocScores(selected: nat -> bool, score: nat -> real, limit: nat): multiset<real> {
    if limit == 0 then multiset{}
    else
      DocScores(selected, score, limit - 1) + if selected(limit - 1) then multiset{score(limit - 1)} else multiset{}
  }

  ghost function InSome(index: Index, terms: seq<nat>): nat -> bool {
    (d: nat) => HeldBySome(index, terms, d)
  }

  ghost function InEvery(index: Index, terms: seq<nat>): nat -> bool {
    (d: nat) => HeldByAll(index, terms, d)
  }

  ghost function Bm25Of(log: real -> real, index: Index, normLens: seq<NonNegative>, terms: seq<nat>): nat -> real
    requires TermsIn(index, terms)
  {
    (d: nat) => if d < |normLens| then Bm25Score(log, index, normLens, terms, d) else 0.0
  }

  ghost function FreqOf(index: Index, terms: seq<nat>): nat -> real
    requires TermsIn(index, terms)
  {
    (d: nat) => FreqScore(index, terms, d) as real
  }

  /** What wand_query and ranked_or_query select from. */
  ghost function Bm25AnyScores(log: real -> real, index: Index, normLens: seq<NonNegative>, terms: seq<nat>)
    : multiset<real>
    requires Answerable(index, terms)
  {
    AnswerableTerms(index, terms);
    DocScores(InSome(index, terms), Bm25Of(log, index, normLens, terms), index.numDocs)
  }

  /** What ranked_and_query selects from. */
  ghost function Bm25AllScores(log: real -> real, index: Index, normLens: seq<NonNegative>, terms: seq<nat>)
    : multiset<real>
    requires Answerable(index, terms)
  {
    AnswerableTerms(index, terms);
    DocScores(InEvery(index, terms), Bm25Of(log, index, normLens, terms), index.numDocs)
  }

  /** What maxscore_query selects from. */
  ghost function FreqAnyScores(index: Index, terms: seq<nat>): multiset<real>
    requires Answerable(index, terms)
  {
    AnswerableTerms(index, terms);
    DocScores(InSome(index, terms), FreqOf(index, terms), index.numDocs)
  }

  lemma {:induction false} UnionIsDocScores(ts: seq<TermList>, scorer: Scorer, selected: nat -> bool,
                                            score: nat -> real, limit: nat)
    requires forall d: nat :: d < limit ==> (InUnion(ts, d) <==> selected(d)) && Score(ts, scorer, d) == score(d)
    ensures UnionScores(ts, scorer, limit) == DocScores(selected, score, limit)
  {
    hide InUnion, Score;
    if limit > 0 {
      UnionIsDocScores(ts, scorer, selected, score, limit - 1);
    }
  }

  lemma InUnionIff(index: Index, terms: seq<nat>, qf: seq<(nat, nat)>, ts: seq<TermList>, d: nat)
    requires Answerable(index, terms) && IsQueryFreqs(terms, qf) && |ts| == |qf|
    requires forall i :: 0 <= i < |qf| ==> qf[i].0 < |index.lists| && ts[i].list == index.lists[qf[i].0]
    ensures InUnion(ts, d) <==> HeldBySome(index, terms, d)
    ensures (forall i :: 0 <= i < |ts| ==> d in ts[i].list.docs) && terms != [] <==> HeldByAll(index, terms, d)
  {
    hide Index.Valid, Increasing;
    forall i | 0 <= i < |qf|
      ensures qf[i].0 in terms
    {
      MembersAreTerms(terms, qf, TermIds(qf)[i]);
    }
    QueryFreqsCount(terms, qf);
    hide IsQueryFreqs;
    forall t | t in terms && d in index.lists[t].docs
      ensures InUnion(ts, d)
    {
      var i :| 0 <= i < |qf| && qf[i].0 == t;
      assert d in ts[i].list.docs;
    }
    forall t | t in terms && d !in index.lists[t].docs
      ensures exists i :: 0 <= i < |ts| && d !in ts[i].list.docs
    {
      var i :| 0 <= i < |qf| && qf[i].0 == t;
      assert d !in ts[i].list.docs;
    }
  }

  /** The BM25 scores over the union, in terms of the query as it stands. */
  lemma Bm25UnionByTerms(log: real -> real, index: Index, wdata: Data, terms: seq<nat>, qf: seq<(nat, nat)>)
    requires Answerable(index, terms) && wdata.BoundsFor(index.lists) && IsQueryFreqs(terms, qf)
    requires index.numDocs <= |wdata.normLens|
    ensures Bm25UnionScores(log, index, wdata, terms, qf) == Bm25AnyScores(log, index, wdata.normLens, terms)
  {
    hide IsQueryFreqs, Score, InUnion, HeldBySome, HeldByAll, Bm25List, TermsIn, Bm25Score, DocScores,
      UnionScores;
    AnswerableTerms(index, terms);
    QueryTermsInRange(index, terms, qf);
    var ts := Bm25Lists(log, index, wdata.maxTermWeight, qf);
    Bm25ListsAre(log, index, wdata.maxTermWeight, qf);
    forall d: nat | d < index.numDocs
      ensures InUnion(ts, d) <==> HeldBySome(index, terms, d)
      ensures Score(ts, Bm25Scorer(wdata.normLens), d) == Bm25Score(log, index, wdata.normLens, terms, d)
    {
      InUnionIff(index, terms, qf, ts, d);
      Bm25ScoreByTerms(log, index, wdata.maxTermWeight, wdata.normLens, terms, qf, d);
    }
    UnionIsDocScores(ts, Bm25Scorer(wdata.normLens), InSome(index, terms), Bm25Of(log, index, wdata.normLens, terms),
      index.numDocs);
  }

  lemma Bm25ListsAre(log: real -> real, index: Index, bounds: seq<real>, qf: seq<(nat, nat)>)
    requires |bounds| == |index.lists| && forall i :: 0 <= i < |qf| ==> qf[i].0 < |index.lists|
    ensures forall i :: 0 <= i < |qf| ==> Bm25Lists(log, index, bounds, qf)[i].list == index.lists[qf[i].0]
  {
  }

  /** The frequency scores over the union, in terms of the query as it stands. */
  lemma FreqUnionByTerms(index: Index, wdata: Data, terms: seq<nat>, qf: seq<(nat, nat)>)
    requires Answerable(index, terms) && wdata.BoundsFor(index.lists) && IsQueryFreqs(terms, qf)
    ensures FreqUnionScores(index, wdata, terms, qf) == FreqAnyScores(index, terms)
  {
    hide IsQueryFreqs, Score, InUnion, HeldBySome, HeldByAll, TermsIn, FreqScore, DocScores, UnionScores;
    AnswerableTerms(index, terms);
    QueryTermsInRange(index, terms, qf);
    var ts := FreqLists(index, wdata.maxTermWeight, qf);
    forall d: nat | d < index.numDocs
      ensures InUnion(ts, d) <==> HeldBySome(index, terms, d)
      ensures Score(ts, FreqScorer, d) == FreqScore(index, terms, d) as real
    {
      InUnionIff(index, terms, qf, ts, d);
      FreqScoreByTerms(index, wdata.maxTermWeight, terms, qf, d);
    }
    UnionIsDocScores(ts, FreqScorer, InSome(index, terms), FreqOf(index, terms), index.numDocs);
  }

  // ---------------------------------------------------------------------------------------------
  // What makes a document rank higher

  /** The bound that wand_query keeps for a list is the weight of its largest frequency, not more. */
  lemma Bm25BoundIs(log: real -> real, index: Index, wdata: Data, tf: (nat, nat))
    requires index.Valid() && wdata.BoundsFor(index.lists) && tf.0 < |index.lists| && index.lists[tf.0].docs != []
    ensures var t := Bm25List(log, index, wdata.maxTermWeight, tf);
      exists i :: 0 <= i < |t.list.freqs| && t.maxWeight == Times(t.qWeight, t.list.freqs[i] as real) &&
        forall j :: 0 <= j < |t.list.freqs| ==> t.list.freqs[j] <= t.list.freqs[i]
  {
    hide QueryTermWeight;
    var list, m := index.lists[tf.0], wdata.maxTermWeight[tf.0];
    assert list in index.lists && list.freqs[0] >= 1;
    assert IsMaxFreq(list.freqs, m);
    assert list.freqs[0] as real <= m;
    var i :| 0 <= i < |list.freqs| && list.freqs[i] as real == m;
    forall j | 0 <= j < |list.freqs|
      ensures list.freqs[j] <= list.freqs[i]
    {
      assert list.freqs[j] as real <= m;
    }
    assert Bm25List(log, index, wdata.maxTermWeight, tf).maxWeight ==
      Times(Bm25List(log, index, wdata.maxTermWeight, tf).qWeight, list.freqs[i] as real);
  }

  lemma DocsFew(list: PostingList, numDocs: nat)
    requires list.Valid(numDocs)
    ensures |list.docs| <= numDocs
  {
    if list.docs != [] {
      Spread(list.docs, 0, |list.docs| - 1);
    }
  }

  /**
   * Two documents of one length that hold their terms equally often: the one with the rarer term gains
   * at least as much, and more exactly if its term is rarer and its idf above the floor.
   */
  lemma RarerTermGainsMore(log: real -> real, index: Index, normLens: seq<NonNegative>, s: nat, t: nat, d: nat, e: nat)
    requires IsIncreasing(log) && index.Valid() && s < |index.lists| && t < |index.lists|
    requires d < |normLens| && e < |normLens| && normLens[d] == normLens[e]
    requires FreqIn(index.lists[s], d) == FreqIn(index.lists[t], e) >= 1
    requires |index.lists[s].docs| <= |index.lists[t].docs|
    ensures TermGain(log, index, normLens, s, d) >= TermGain(log, index, normLens, t, e)
    ensures TermGain(log, index, normLens, s, d) > TermGain(log, index, normLens, t, e) <==>
      |index.lists[s].docs| < |index.lists[t].docs| && log(Odds(|index.lists[s].docs|, index.numDocs)) > EPSILON_SCORE
  {
    hide QueryTermWeight, DocTermWeight, Odds, FreqIn, IsIncreasing;
    assert index.lists[t] in index.lists;
    DocsFew(index.lists[t], index.numDocs);
    var df, more := |index.lists[s].docs|, |index.lists[t].docs|;
    RarerWeighsMore(log, 1, df, more, index.numDocs);
    var freq := FreqIn(index.lists[s], d);
    DocTermWeightBelowOne(freq, normLens[d]);
    TimesKeepsOrder(QueryTermWeight(log, 1, df, index.numDocs), QueryTermWeight(log, 1, more, index.numDocs),
      DocTermWeight(freq, normLens[d]));
  }

  lemma TimesKeepsOrder(x: real, y: real, z: real)
    requires z > 0.0
    ensures Times(x, z) > Times(y, z) <==> x > y
    ensures Times(x, z) >= Times(y, z) <==> x >= y
  {
    assert x * z - y * z == (x - y) * z;
    assert x > y ==> (x - y) * z > 0.0;
    assert x < y ==> (x - y) * z < 0.0;
  }

  /** For one term, more occurrences gain more in documents of one length, and longer documents gain less. */
  lemma GainOrder(log: real -> real, index: Index, normLens: seq<NonNegative>, t: nat, d: nat, e: nat)
    requires t < |index.lists| && d < |normLens| && e < |normLens|
    ensures normLens[d] == normLens[e] ==>
      (TermGain(log, index, normLens, t, d) < TermGain(log, index, normLens, t, e) <==>
       FreqIn(index.lists[t], d) < FreqIn(index.lists[t], e))
    ensures FreqIn(index.lists[t], d) == FreqIn(index.lists[t], e) >= 1 ==>
      (TermGain(log, index, normLens, t, d) < TermGain(log, index, normLens, t, e) <==> normLens[d] > normLens[e])
  {
    hide QueryTermWeight, DocTermWeight, FreqIn;
    var w := QueryTermWeight(log, 1, |index.lists[t].docs|, index.numDocs);
    QueryTermWeightPositive(log, 1, |index.lists[t].docs|, index.numDocs);
    var f, g := FreqIn(index.lists[t], d), FreqIn(index.lists[t], e);
    TimesCommutes(w, DocTermWeight(f, normLens[d]));
    TimesCommutes(w, DocTermWeight(g, normLens[e]));
    TimesKeepsOrder(DocTermWeight(g, normLens[e]), DocTermWeight(f, normLens[d]), w);
    if f < g {
      DocTermWeightGrows(f, g, normLens[d]);
    } else if g < f {
      DocTermWeightGrows(g, f, normLens[d]);
    }
    if f >= 1 && normLens[d] < normLens[e] {
      DocTermWeightShrinks(f, normLens[d], normLens[e]);
    } else if f >= 1 && normLens[e] < normLens[d] {
      DocTermWeightShrinks(f, normLens[e], normLens[d]);
    }
  }

  lemma TimesCommutes(x: real, y: real)
    ensures Times(x, y) == Times(y, x)
  {
  }
}
