/**
 * Finding the set bits of one region of a bit vector again, by their number.
 */
module OneBits {
  import opened BitVector

  /** The set bits between lo and hi are those at the given positions. */
  ghost predicate OnesAre(bits: seq<bool>, lo: nat, hi: nat, ones: seq<nat>) {
    && lo <= hi <= |bits|
    && (forall i, j :: 0 <= i < j < |ones| ==> ones[i] < ones[j])
    && (forall i :: 0 <= i < |ones| ==> lo <= ones[i] < hi && bits[ones[i]])
    && (forall p :: lo <= p < hi && bits[p] ==> IsOne(ones, p))
  }

  ghost predicate IsOne(ones: seq<nat>, p: nat) {
    exists i :: 0 <= i < |ones| && ones[i] == p
  }

  /** A position in the region that m set bits precede. */
  ghost predicate After(lo: nat, hi: nat, ones: seq<nat>, p: nat, m: nat) {
    lo <= p <= hi && m <= |ones| && (m > 0 ==> ones[m - 1] < p) && (m < |ones| ==> p <= ones[m])
  }

  lemma {:induction false} RankAt(bits: seq<bool>, lo: nat, hi: nat, ones: seq<nat>, p: nat, m: nat)
    requires OnesAre(bits, lo, hi, ones) && After(lo, hi, ones, p, m)
    ensures Rank(bits, p) == Rank(bits, lo) + m
    decreases p
  {
    if p > lo {
      if bits[p - 1] {
        assert IsOne(ones, p - 1);
        var i :| 0 <= i < |ones| && ones[i] == p - 1;
        assert i == m - 1;
        RankAt(bits, lo, hi, ones, p - 1, m - 1);
      } else {
        RankAt(bits, lo, hi, ones, p - 1, m);
      }
    }
  }

  lemma AfterOne(bits: seq<bool>, lo: nat, hi: nat, ones: seq<nat>, i: nat)
    requires OnesAre(bits, lo, hi, ones) && i < |ones|
    ensures After(lo, hi, ones, ones[i], i) && After(lo, hi, ones, ones[i] + 1, i + 1)
  {
  }

  /** The set bit that m set bits of the region precede is the m-th one. */
  lemma OneFound(bits: seq<bool>, lo: nat, hi: nat, ones: seq<nat>, p: nat, m: nat)
    requires OnesAre(bits, lo, hi, ones) && m < |ones| && p < |bits| && bits[p]
    requires Rank(bits, p) == Rank(bits, lo) + m
    ensures p == ones[m]
  {
    AfterOne(bits, lo, hi, ones, m);
    RankAt(bits, lo, hi, ones, ones[m], m);
    RankDetermines(bits, p, ones[m]);
  }

  /** All set bits of the region remain to be found from its start. */
  lemma Remaining(bits: seq<bool>, lo: nat, hi: nat, ones: seq<nat>)
    requires OnesAre(bits, lo, hi, ones)
    ensures Rank(bits, hi) == Rank(bits, lo) + |ones| && Rank(bits, |bits|) >= Rank(bits, hi)
  {
    RankAt(bits, lo, hi, ones, hi, |ones|);
    RankMonotone(bits, hi, |bits|);
  }

  /** The next set bit, once m are behind. */
  method NextOne(bits: seq<bool>, ghost lo: nat, ghost hi: nat, ghost ones: seq<nat>, u: Unary, ghost m: nat)
    returns (u': Unary)
    requires OnesAre(bits, lo, hi, ones) && m < |ones| && After(lo, hi, ones, u.From(), m)
    ensures u' == Unary(ones[m], true) && After(lo, hi, ones, u'.From(), m + 1)
  {
    hide OnesAre;
    Bounds(bits, lo, hi, ones);
    Remaining(bits, lo, hi, ones);
    RankAt(bits, lo, hi, ones, u.From(), m);
    u' := Next(bits, u);
    OneFound(bits, lo, hi, ones, u'.pos, m);
    AfterOne(bits, lo, hi, ones, m);
  }

  lemma Bounds(bits: seq<bool>, lo: nat, hi: nat, ones: seq<nat>)
    requires OnesAre(bits, lo, hi, ones)
    ensures lo <= hi <= |bits|
  {
  }

  /** Skips k set bits, once m are behind. */
  method SkipOnes(bits: seq<bool>, ghost lo: nat, ghost hi: nat, ghost ones: seq<nat>, u: Unary, ghost m: nat, k: nat)
    returns (u': Unary)
    requires OnesAre(bits, lo, hi, ones) && m + k < |ones| && After(lo, hi, ones, u.From(), m)
    ensures After(lo, hi, ones, u'.From(), m + k)
  {
    hide OnesAre;
    Bounds(bits, lo, hi, ones);
    Remaining(bits, lo, hi, ones);
    RankAt(bits, lo, hi, ones, u.From(), m);
    u' := Skip(bits, u, k);
    OneFound(bits, lo, hi, ones, u'.pos, m + k);
    AfterOne(bits, lo, hi, ones, m + k);
  }

  /** The set bit before the m-th one, or the last one. */
  method PreviousOne(bits: seq<bool>, ghost lo: nat, ghost hi: nat, ghost ones: seq<nat>, p: nat, ghost m: nat)
    returns (r: nat)
    requires OnesAre(bits, lo, hi, ones) && 1 <= m <= |ones| && p < hi && After(lo, hi, ones, p + 1, m)
    ensures r == ones[m - 1]
  {
    RankAt(bits, lo, hi, ones, p + 1, m);
    r := Predecessor1(bits, p);
    OneFound(bits, lo, hi, ones, r, m - 1);
  }
}
