/** The per-list bounds and document lengths that ranked queries rely on (wand_data.hpp). */
module WandData {
  import opened Bm25
  import opened MonotoneSequence
  import opened Postings

  /** m is the largest frequency of the list, or 0 for an empty one. */
  ghost predicate IsMaxFreq(freqs: seq<nat>, m: real) {
    && (forall i :: 0 <= i < |freqs| ==> freqs[i] as real <= m)
    && (m == 0.0 || exists i :: 0 <= i < |freqs| && freqs[i] as real == m)
  }

  function SumReal(s: seq<real>): real {
    if s == [] then 0.0 else SumReal(s[..|s| - 1]) + s[|s| - 1]
  }

  ghost predicate IsQuotient(x: real, y: real, q: real) {
    q * y == x
  }

  /** norms are the lengths divided by their average. */
  ghost predicate NormalisedBy(lengths: seq<nat>, norms: seq<real>, avg: real) {
    |norms| == |lengths| && forall d :: 0 <= d < |lengths| ==> IsQuotient(lengths[d] as real, avg, norms[d])
  }

  ghost predicate Normalised(lengths: seq<nat>, norms: seq<real>) {
    lengths != [] && NormalisedBy(lengths, norms, Total(lengths) as real / |lengths| as real)
  }

  function Quotient(x: real, y: real): (q: NonNegative)
    requires x >= 0.0 && y > 0.0
    ensures IsQuotient(x, y, q)
  {
    var q := x / y;
    assert q * y == x;
    assert q < 0.0 ==> q * y < 0.0;
    q
  }

  method Normalise(lengths: seq<nat>) returns (norms: seq<NonNegative>)
    requires Total(lengths) > 0
    ensures Normalised(lengths, norms)
  {
    hide IsQuotient, Quotient;
    var lensSum := 0;
    for i := 0 to |lengths|
      invariant lensSum == Total(lengths[..i])
    {
      assert lengths[..i + 1][..i] == lengths[..i];
      lensSum := lensSum + lengths[i];
    }
    assert lengths[..|lengths|] == lengths;
    var avg := lensSum as real / |lengths| as real;
    AverageIsPositive(lensSum as real, |lengths| as real);
    norms := [];
    for i := 0 to |lengths|
      invariant |norms| == i
      invariant forall d :: 0 <= d < i ==> IsQuotient(lengths[d] as real, avg, norms[d])
    {
      norms := norms + [Quotient(lengths[i] as real, avg)];
    }
  }

  method MaxFreq(list: PostingList) returns (m: real)
    requires |list.freqs| == |list.docs|
    ensures IsMaxFreq(list.freqs, m)
  {
    m := 0.0;
    for i := 0 to |list.docs|
      invariant IsMaxFreq(list.freqs[..i], m)
    {
      m := Max(m, list.freqs[i] as real);
      assert list.freqs[..i + 1] == list.freqs[..i] + [list.freqs[i]];
      assert forall j :: 0 <= j < i ==> list.freqs[..i + 1][j] == list.freqs[..i][j];
    }
    assert list.freqs[..|list.docs|] == list.freqs;
  }

  class Data {
    const normLens: seq<NonNegative>
    const maxTermWeight: seq<real>

    /** Every list's bound is its largest frequency: the fork no longer scores it with BM25. */
    ghost predicate BoundsFor(coll: seq<PostingList>) {
      |maxTermWeight| == |coll| && forall t :: 0 <= t < |coll| ==> IsMaxFreq(coll[t].freqs, maxTermWeight[t])
    }

    constructor (lengths: seq<nat>, coll: seq<PostingList>)
      requires Total(lengths) > 0
      requires forall l :: l in coll ==> |l.freqs| == |l.docs|
      ensures BoundsFor(coll) && Normalised(lengths, normLens)
    {
      var norms := Normalise(lengths);
      var bounds: seq<real> := [];
      for t := 0 to |coll|
        invariant |bounds| == t
        invariant forall u :: 0 <= u < t ==> IsMaxFreq(coll[u].freqs, bounds[u])
      {
        var m := MaxFreq(coll[t]);
        bounds := bounds + [m];
      }
      normLens := norms;
      maxTermWeight := bounds;
    }
  }

  lemma AverageIsPositive(sum: real, n: real)
    requires sum > 0.0 && n > 0.0
    ensures sum / n > 0.0
  {
    var q := sum / n;
    assert q * n == sum;
    assert q <= 0.0 ==> q * n <= 0.0;
  }

  /** The normalised lengths average to 1: dividing by the average loses nothing. */
  lemma {:induction false} NormLensAverageToOne(lengths: seq<nat>, norms: seq<real>, avg: real)
    requires NormalisedBy(lengths, norms, avg)
    ensures SumReal(norms) * avg == Total(lengths) as real
  {
    if lengths != [] {
      var n := |lengths| - 1;
      NormLensAverageToOne(lengths[..n], norms[..n], avg);
      assert (SumReal(norms[..n]) + norms[n]) * avg == SumReal(norms[..n]) * avg + norms[n] * avg;
    }
  }

  /** The BM25 bound q_weight * max_term_weight is sound because a BM25 weight is below any frequency. */
  lemma Bm25BoundDominates(t: TermList, numDocs: nat, normLens: seq<NonNegative>, m: real)
    requires t.list.Valid(numDocs) && t.qWeight >= 0.0
    requires IsMaxFreq(t.list.freqs, m) && t.maxWeight == Times(t.qWeight, m)
    ensures t.Dominates(Bm25Scorer(normLens))
  {
    hide DocTermWeight, Times;
    var scorer := Bm25Scorer(normLens);
    TimesMonotone(t.qWeight, 0.0, m);
    forall i | 0 <= i < |t.list.docs|
      ensures 0.0 <= t.GainAt(scorer, i) <= t.maxWeight
    {
      if t.list.docs[i] < |normLens| {
        DocTermWeightBelowOne(t.list.freqs[i], normLens[t.list.docs[i]]);
      }
      assert 1.0 <= t.list.freqs[i] as real <= m;
      TimesMonotone(t.qWeight, scorer.Weight(t.list.freqs[i], t.list.docs[i]), m);
    }
  }

  lemma TimesMonotone(q: real, w: real, m: real)
    requires q >= 0.0 && 0.0 <= w <= m
    ensures 0.0 <= Times(q, w) <= Times(q, m)
  {
  }

  /**
   * MaxScore scores a posting count * freq but bounds it by the largest frequency alone. On a
   * non-empty list that bound is sound exactly when the term is not repeated in the query.
   */
  lemma FreqBoundDominatesIff(t: TermList, numDocs: nat, count: nat)
    requires t.list.Valid(numDocs) && t.list.docs != []
    requires t.qWeight == count as real && IsMaxFreq(t.list.freqs, t.maxWeight)
    ensures t.Dominates(FreqScorer) <==> count <= 1
  {
    hide Times;
    assert 1.0 <= t.list.freqs[0] as real <= t.maxWeight;
    if count <= 1 {
      forall i | 0 <= i < |t.list.docs|
        ensures 0.0 <= t.GainAt(FreqScorer, i) <= t.maxWeight
      {
        assert t.list.freqs[i] as real <= t.maxWeight;
        AtMostOnce(t.qWeight, t.list.freqs[i] as real);
      }
    } else {
      var i :| 0 <= i < |t.list.freqs| && t.list.freqs[i] as real == t.maxWeight;
      MoreThanOnce(t.qWeight, t.maxWeight);
      assert t.GainAt(FreqScorer, i) > t.maxWeight;
    }
  }

  lemma AtMostOnce(c: real, f: real)
    requires 0.0 <= c <= 1.0 && f >= 0.0
    ensures 0.0 <= Times(c, f) <= f
  {
    TimesMonotone(f, c, 1.0);
    assert Times(f, c) == Times(c, f);
  }

  lemma MoreThanOnce(c: real, f: real)
    requires c >= 2.0 && f > 0.0
    ensures Times(c, f) > f
  {
    assert (c - 1.0) * f > 0.0;
  }
}
