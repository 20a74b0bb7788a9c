/**
 * Sorted sequences of numbers, searching in them, and prefix sums.
 */
module MonotoneSequence {
  function Min(x: nat, y: nat): nat {
    if x < y then x else y
  }

  ghost predicate SortedUpTo(v: seq<nat>, m: nat)
    requires m <= |v|
  {
    forall i, j :: 0 <= i <= j < m ==> v[i] <= v[j]
  }

  ghost predicate Sorted(v: seq<nat>) {
    SortedUpTo(v, |v|)
  }

  ghost predicate IncreasingUpTo(v: seq<nat>, m: nat)
    requires m <= |v|
  {
    forall i, j :: 0 <= i < j < m ==> v[i] < v[j]
  }

  ghost predicate Increasing(v: seq<nat>) {
    IncreasingUpTo(v, |v|)
  }

  /** The first element from i on that is at least the bound. */
  function FirstGeq(v: seq<nat>, bound: nat, i: nat): (r: nat)
    requires i <= |v|
    ensures i <= r <= |v| && (r < |v| ==> v[r] >= bound)
    ensures forall j :: i <= j < r ==> v[j] < bound
    decreases |v| - i
  {
    if i == |v| || v[i] >= bound then i else FirstGeq(v, bound, i + 1)
  }

  lemma FirstGeqIs(v: seq<nat>, bound: nat, r: nat)
    requires r <= |v| && (forall j :: 0 <= j < r ==> v[j] < bound) && (r < |v| ==> v[r] >= bound)
    ensures FirstGeq(v, bound, 0) == r
  {
  }

  /** Each element of an increasing sequence exceeds the one before by at least one. */
  lemma {:induction false} Spread(v: seq<nat>, i: nat, j: nat)
    requires Increasing(v) && i <= j < |v|
    ensures v[i] + (j - i) <= v[j]
    decreases j
  {
    if i < j {
      Spread(v, i, j - 1);
      assert v[j - 1] < v[j];
    }
  }

  function Total(x: seq<nat>): nat {
    if x == [] then 0 else Total(x[..|x| - 1]) + x[|x| - 1]
  }

  /** Prefix sums. */
  function Sums(x: seq<nat>): (r: seq<nat>)
    ensures |r| == |x| && (x != [] ==> r[|x| - 1] == Total(x))
  {
    if x == [] then [] else Sums(x[..|x| - 1]) + [Total(x)]
  }

  lemma BagOfInserted<T>(s: seq<T>, at: nat, x: T)
    requires at <= |s|
    ensures multiset(s[..at] + [x] + s[at..]) == multiset(s) + multiset{x}
  {
    assert s == s[..at] + s[at..];
  }

  lemma BagOfRemoved<T>(s: seq<T>, at: nat)
    requires at < |s|
    ensures multiset(s) == multiset(s[..at] + s[at + 1..]) + multiset{s[at]}
  {
    assert s == s[..at] + [s[at]] + s[at + 1..];
  }

  lemma SameBagLess<T>(a: multiset<T>, b: multiset<T>, x: T)
    requires a + multiset{x} == b + multiset{x}
    ensures a == b
  {
    assert a == (a + multiset{x}) - multiset{x};
    assert b == (b + multiset{x}) - multiset{x};
  }

  /** Sequences with the same bag of elements have the same length and members. */
  lemma PermutationMembers<T>(a: seq<T>, b: seq<T>)
    requires multiset(a) == multiset(b)
    ensures |a| == |b|
    ensures forall x :: x in a <==> x in b
  {
    assert |a| == |multiset(a)| && |b| == |multiset(b)|;
    assert forall x :: x in a <==> x in multiset(a);
    assert forall x :: x in b <==> x in multiset(b);
  }
}
