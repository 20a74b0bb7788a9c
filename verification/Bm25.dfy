/** The BM25 weights (bm25.hpp) over exact reals. */
module Bm25 {
  const B: real := 0.5
  const K1: real := 1.2
  const EPSILON_SCORE: real := 0.000001

  type NonNegative = x: real | x >= 0.0

  // products of two weights go by a name, so that proofs about them need no non-linear arithmetic
  function Times(x: real, y: real): real {
    x * y
  }

  function DocTermWeight(freq: nat, normLen: NonNegative): real {
    freq as real / (freq as real + K1 * (1.0 - B + B * normLen))
  }

  function Max(x: real, y: real): real {
    if x < y then y else x
  }

  /** The odds that a document does not hold a term which df of numDocs documents hold. */
  function Odds(df: nat, numDocs: nat): real {
    (numDocs as real - df as real + 0.5) / (df as real + 0.5)
  }

  /** log stands for the C library's natural logarithm, which is not part of this model. */
  function QueryTermWeight(log: real -> real, freq: nat, df: nat, numDocs: nat): real {
    var idf := log(Odds(df, numDocs));
    freq as real * Max(EPSILON_SCORE, idf) * (1.0 + K1)
  }

  lemma FractionBelowOne(f: real, c: real)
    requires f > 0.0 && c > 0.0
    ensures 0.0 < f / (f + c) < 1.0
  {
    var q := f / (f + c);
    assert q * (f + c) == f;
    assert q >= 1.0 ==> q * (f + c) >= f + c;
    assert q <= 0.0 ==> q * (f + c) <= 0.0;
  }

  /** A document weighs strictly between 0 and 1, whatever its length: less than any frequency. */
  lemma DocTermWeightBelowOne(freq: nat, normLen: NonNegative)
    requires freq >= 1
    ensures 0.0 < DocTermWeight(freq, normLen) < 1.0
  {
    FractionBelowOne(freq as real, K1 * (1.0 - B + B * normLen));
  }

  /** Frequent or not, a query term never has a negative weight: idf is cut off from below. */
  lemma QueryTermWeightPositive(log: real -> real, freq: nat, df: nat, numDocs: nat)
    requires freq >= 1
    ensures QueryTermWeight(log, freq, df, numDocs) > 0.0
  {
    var m := Max(EPSILON_SCORE, log(Odds(df, numDocs)));
    assert m > 0.0;
    assert freq as real * m > 0.0;
  }

  // ---------------------------------------------------------------------------------------------
  // How the weights react to their arguments

  lemma FractionGrows(f: real, g: real, c: real)
    requires 0.0 <= f < g && c > 0.0
    ensures f / (f + c) < g / (g + c)
  {
    var p, q := f / (f + c), g / (g + c);
    assert p * (f + c) == f && q * (g + c) == g;
    FractionBelowOne(g, c);
    assert (g - f) * (1.0 - q) > 0.0;
    assert p >= q ==> (p - q) * (f + c) >= 0.0;
  }

  lemma FractionShrinks(f: real, c: real, d: real)
    requires f > 0.0 && 0.0 < c < d
    ensures f / (f + d) < f / (f + c)
  {
    var p, q := f / (f + d), f / (f + c);
    assert p * (f + d) == f && q * (f + c) == f;
    FractionBelowOne(f, c);
    assert q * (d - c) > 0.0;
    assert p >= q ==> (p - q) * (f + d) >= 0.0;
  }

  /** More occurrences weigh more. */
  lemma DocTermWeightGrows(freq: nat, more: nat, normLen: NonNegative)
    requires freq < more
    ensures DocTermWeight(freq, normLen) < DocTermWeight(more, normLen)
  {
    FractionGrows(freq as real, more as real, K1 * (1.0 - B + B * normLen));
  }

  /** In a longer document, occurrences weigh less. */
  lemma DocTermWeightShrinks(freq: nat, normLen: NonNegative, longer: NonNegative)
    requires freq >= 1 && normLen < longer
    ensures DocTermWeight(freq, longer) < DocTermWeight(freq, normLen)
  {
    FractionShrinks(freq as real, K1 * (1.0 - B + B * normLen), K1 * (1.0 - B + B * longer));
  }

  /** The weight is half of what it can get exactly where the frequency equals the length factor. */
  lemma DocTermWeightIsHalfIff(freq: nat, normLen: NonNegative)
    ensures DocTermWeight(freq, normLen) == 0.5 <==> freq as real == K1 * (1.0 - B + B * normLen)
  {
    var f, c := freq as real, K1 * (1.0 - B + B * normLen);
    assert f / (f + c) * (f + c) == f;
  }

  /** In a document of average length, a single occurrence gains the larger of idf and its floor. */
  lemma SingleOccurrenceGain(log: real -> real, df: nat, numDocs: nat)
    ensures Times(QueryTermWeight(log, 1, df, numDocs), DocTermWeight(1, 1.0)) ==
      Max(EPSILON_SCORE, log(Odds(df, numDocs)))
  {
  }

  /** Every occurrence of a term in the query counts the same. */
  lemma WeightPerOccurrence(log: real -> real, freq: nat, df: nat, numDocs: nat)
    ensures QueryTermWeight(log, freq, df, numDocs) == Times(freq as real, QueryTermWeight(log, 1, df, numDocs))
  {
  }

  /** Even odds are those of a term that half of the documents hold. */
  lemma OddsArePositive(df: nat, numDocs: nat)
    requires df <= numDocs
    ensures Odds(df, numDocs) > 0.0 && (Odds(df, numDocs) > 1.0 <==> 2 * df < numDocs)
    ensures Odds(df, numDocs) == 1.0 <==> 2 * df == numDocs
  {
    QuotientAgainstOne(numDocs as real - df as real + 0.5, df as real + 0.5);
    assert 2 * df < numDocs <==> df as real < numDocs as real - df as real;
  }

  lemma QuotientAgainstOne(x: real, y: real)
    requires x > 0.0 && y > 0.0
    ensures x / y > 0.0 && (x / y > 1.0 <==> x > y) && (x / y == 1.0 <==> x == y)
  {
    var q := x / y;
    assert q * y == x;
    assert q <= 0.0 ==> q * y <= 0.0;
    assert (q - 1.0) * y == x - y;
    assert q > 1.0 ==> (q - 1.0) * y > 0.0;
    assert q < 1.0 ==> (q - 1.0) * y < 0.0;
    assert q == 1.0 ==> (q - 1.0) * y == 0.0;
  }

  lemma OddsFall(df: nat, more: nat, numDocs: nat)
    requires df < more <= numDocs
    ensures Odds(more, numDocs) < Odds(df, numDocs)
  {
    var p, q := Odds(df, numDocs), Odds(more, numDocs);
    assert p * (df as real + 0.5) == numDocs as real - df as real + 0.5;
    assert q * (more as real + 0.5) == numDocs as real - more as real + 0.5;
    OddsArePositive(more, numDocs);
    assert q * (more as real - df as real) > 0.0;
    assert q >= p ==> (q - p) * (df as real + 0.5) >= 0.0;
  }

  /** log increases strictly on positive numbers. */
  ghost predicate IsIncreasing(log: real -> real) {
    forall x, y :: 0.0 < x < y ==> log(x) < log(y)
  }

  /** The rarer of two terms weighs more, and strictly more exactly if it is rarer and its idf is above the floor. */
  lemma RarerWeighsMore(log: real -> real, freq: nat, df: nat, more: nat, numDocs: nat)
    requires IsIncreasing(log) && freq >= 1 && df <= more <= numDocs
    ensures QueryTermWeight(log, freq, df, numDocs) >= QueryTermWeight(log, freq, more, numDocs)
    ensures QueryTermWeight(log, freq, df, numDocs) > QueryTermWeight(log, freq, more, numDocs) <==>
      df < more && log(Odds(df, numDocs)) > EPSILON_SCORE
  {
    hide Odds;
    OddsArePositive(more, numDocs);
    if df < more {
      OddsFall(df, more, numDocs);
      assert log(Odds(more, numDocs)) < log(Odds(df, numDocs));
    }
    var m, n := Max(EPSILON_SCORE, log(Odds(df, numDocs))), Max(EPSILON_SCORE, log(Odds(more, numDocs)));
    assert m > n ==> freq as real * (m - n) > 0.0;
  }
}
