/** The bounded min-heap that collects the best k scores of a query (queries.hpp, topk_queue). */
module TopKQueue {
  import opened MonotoneSequence

  // ---------------------------------------------------------------------------------------------
  // What "the k best" means: a specification on bags of scores that mentions no heap.

  /** best holds min(k, |all|) of the scores in all, and nothing left out beats anything kept. */
  ghost predicate IsBest(k: nat, all: multiset<real>, best: multiset<real>) {
    && best <= all
    && |best| == Min(k, |all|)
    && forall x, y :: x in all - best && y in best ==> x <= y
  }

  predicate Descending(s: seq<real>) {
    forall i, j :: 0 <= i < j < |s| ==> s[i] >= s[j]
  }

  /** The list a query returns: the k best scores, best first. */
  ghost predicate IsTopK(k: nat, all: multiset<real>, s: seq<real>) {
    Descending(s) && IsBest(k, all, multiset(s))
  }

  lemma AnElement<T>(a: multiset<T>) returns (x: T)
    requires |a| > 0
    ensures x in a
  {
    x :| x in a;
  }

  lemma {:induction false} LargerSomewhere(a: multiset<real>, b: multiset<real>) returns (x: real)
    requires |a| == |b| && a != b
    ensures a[x] > b[x]
    decreases |a|
  {
    assert |a| > 0;
    x := AnElement(a);
    if x in b {
      var common := multiset{x};
      assert a == (a - common) + common && b == (b - common) + common;
      x := LargerSomewhere(a - common, b - common);
    }
  }

  lemma BestIsUnique(k: nat, all: multiset<real>, a: multiset<real>, b: multiset<real>)
    requires IsBest(k, all, a) && IsBest(k, all, b)
    ensures a == b
  {
    if a != b {
      var x := LargerSomewhere(a, b);
      var y := LargerSomewhere(b, a);
      // x is kept by a and left out by b, y the other way round: so x <= y <= x
      assert x == y by {
        assert x in all - b && y in b;
        assert y in all - a && x in a;
      }
    }
  }

  /** The head of a descending list is the greatest element of its bag. */
  lemma HeadOfBag(s: seq<real>)
    requires Descending(s) && s != []
    ensures s[0] in multiset(s) && forall x :: x in multiset(s) ==> x <= s[0]
    ensures multiset(s[1..]) == multiset(s) - multiset{s[0]}
  {
    assert s == [s[0]] + s[1..];
    forall x | x in multiset(s)
      ensures x <= s[0]
    {
      assert x in s;
    }
  }

  lemma TailsAgree(s: seq<real>, t: seq<real>)
    requires Descending(s) && Descending(t) && multiset(s) == multiset(t)
    requires s != [] && t != []
    ensures s[0] == t[0] && multiset(s[1..]) == multiset(t[1..])
  {
    HeadOfBag(s);
    HeadOfBag(t);
  }

  lemma {:induction false} DescendingIsUnique(s: seq<real>, t: seq<real>)
    requires Descending(s) && Descending(t) && multiset(s) == multiset(t)
    ensures s == t
  {
    assert |s| == |t| by {
      assert |s| == |multiset(s)| && |t| == |multiset(t)|;
    }
    if s != [] {
      TailsAgree(s, t);
      DescendingIsUnique(s[1..], t[1..]);
      assert s == [s[0]] + s[1..] && t == [t[0]] + t[1..];
    }
  }

  /** The result list of a query is determined by the bag of document scores alone. */
  lemma TopKIsUnique(k: nat, all: multiset<real>, s: seq<real>, t: seq<real>)
    requires IsTopK(k, all, s) && IsTopK(k, all, t)
    ensures s == t
  {
    BestIsUnique(k, all, multiset(s), multiset(t));
    DescendingIsUnique(s, t);
  }

  /** A score that does not beat any of k kept scores can be offered or skipped alike. */
  lemma SkipKeepsBest(k: nat, all: multiset<real>, best: multiset<real>, x: real)
    requires IsBest(k, all, best) && |best| == k
    requires forall y :: y in best ==> x <= y
    ensures IsBest(k, all + multiset{x}, best)
  {
    assert |all + multiset{x}| == |all| + 1;
    forall z, y | z in (all + multiset{x}) - best && y in best
      ensures z <= y
    {
      assert z == x || z in all - best;
    }
  }

  lemma GrowKeepsBest(k: nat, all: multiset<real>, best: multiset<real>, x: real)
    requires IsBest(k, all, best) && |best| < k
    ensures IsBest(k, all + multiset{x}, best + multiset{x})
  {
    assert all == best + (all - best);
    assert |all| == |best| + |all - best|;
    assert all == best;
  }

  lemma ReplaceKeepsBest(k: nat, all: multiset<real>, best: multiset<real>, x: real, least: real)
    requires IsBest(k, all, best) && |best| == k
    requires least in best && x > least && forall y :: y in best ==> least <= y
    ensures IsBest(k, all + multiset{x}, best - multiset{least} + multiset{x})
  {
    var best' := best - multiset{least} + multiset{x};
    assert |best'| == k;
    assert |all + multiset{x}| == |all| + 1;
    forall z, y | z in (all + multiset{x}) - best' && y in best'
      ensures z <= y
    {
      assert z == least || z in all - best;
      assert y == x || y in best;
    }
  }

  // ---------------------------------------------------------------------------------------------
  // The binary heap kept in a vector, ordered by std::greater: the smallest score is in front.

  function Parent(j: nat): nat
    requires j >= 1
  {
    (j - 1) / 2
  }

  predicate IsHeap(q: seq<real>) {
    forall j {:trigger Parent(j)} :: 1 <= j < |q| ==> q[Parent(j)] <= q[j]
  }

  lemma FrontIsLeast(q: seq<real>, j: nat)
    requires IsHeap(q) && j < |q|
    ensures q[0] <= q[j]
  {
    if j > 0 {
      FrontIsLeast(q, Parent(j));
    }
  }

  lemma FrontOfBag(q: seq<real>)
    requires q != [] && IsHeap(q)
    ensures q[0] in multiset(q) && forall y :: y in multiset(q) ==> q[0] <= y
  {
    forall y | y in multiset(q)
      ensures q[0] <= y
    {
      assert y in q;
      var j :| 0 <= j < |q| && q[j] == y;
      FrontIsLeast(q, j);
    }
  }

  method Swap(q: seq<real>, i: nat, j: nat) returns (r: seq<real>)
    requires i < |q| && j < |q|
    ensures |r| == |q| && multiset(r) == multiset(q)
    ensures r[i] == q[j] && r[j] == q[i]
    ensures forall m :: 0 <= m < |q| && m != i && m != j ==> r[m] == q[m]
  {
    r := q[i := q[j]][j := q[i]];
  }

  method Append(q: seq<real>, x: real) returns (r: seq<real>)
    ensures |r| == |q| + 1 && r[|q|] == x && forall m :: 0 <= m < |q| ==> r[m] == q[m]
    ensures multiset(r) == multiset(q) + multiset{x}
  {
    r := q + [x];
  }

  method Prepend(x: real, q: seq<real>) returns (r: seq<real>)
    ensures r == [x] + q
    ensures multiset(r) == multiset{x} + multiset(q)
  {
    r := [x] + q;
  }

  method DropLast(q: seq<real>) returns (r: seq<real>)
    requires q != []
    ensures |r| == |q| - 1 && forall m :: 0 <= m < |r| ==> r[m] == q[m]
    ensures multiset(r) + multiset{q[|q| - 1]} == multiset(q)
  {
    r := q[..|q| - 1];
    assert q == r + [q[|q| - 1]];
  }

  /** push_back and std::push_heap: the new last element is sifted up. */
  method PushHeap(heap: seq<real>, x: real) returns (q: seq<real>)
    requires IsHeap(heap)
    ensures IsHeap(q) && multiset(q) == multiset(heap) + multiset{x}
    ensures heap == [] ==> q == [x]
  {
    q := Append(heap, x);
    var i := |heap|;
    while i > 0 && q[i] < q[Parent(i)]
      invariant 0 <= i < |q| && (heap == [] ==> q == [x])
      invariant multiset(q) == multiset(heap) + multiset{x}
      invariant forall j {:trigger Parent(j)} :: 1 <= j < |q| && j != i ==> q[Parent(j)] <= q[j]
      invariant forall j {:trigger Parent(j)} :: 1 <= j < |q| && i > 0 && Parent(j) == i ==> q[Parent(i)] <= q[j]
    {
      ghost var was := q;
      var p := Parent(i);
      q := Swap(q, i, p);
      assert p > 0 ==> was[Parent(p)] <= was[p];
      i := p;
    }
  }

  /** In order everywhere but possibly between i and its children, and its parent is below these. */
  ghost predicate HeapBut(q: seq<real>, i: nat) {
    && (forall j {:trigger Parent(j)} :: 1 <= j < |q| && Parent(j) != i ==> q[Parent(j)] <= q[j])
    && (forall j {:trigger Parent(j)} :: 1 <= j < |q| && i > 0 && Parent(j) == i ==> q[Parent(i)] <= q[j])
  }

  /** c is the smaller child of i. */
  ghost predicate SmallerChild(q: seq<real>, i: nat, c: nat) {
    && 1 <= c < |q| && Parent(c) == i
    && forall j {:trigger Parent(j)} :: 1 <= j < |q| && Parent(j) == i ==> q[c] <= q[j]
  }

  method FindSmallerChild(q: seq<real>, i: nat) returns (c: nat)
    requires 2 * i + 1 < |q|
    ensures SmallerChild(q, i, c)
  {
    c := if 2 * i + 2 < |q| && q[2 * i + 2] < q[2 * i + 1] then 2 * i + 2 else 2 * i + 1;
    forall j {:trigger Parent(j)} | 1 <= j < |q| && Parent(j) == i
      ensures q[c] <= q[j]
    {
      assert j == 2 * i + 1 || j == 2 * i + 2;
    }
  }

  /** Swapping with the smaller child moves the disorder down to it. */
  lemma SiftedDown(was: seq<real>, q: seq<real>, i: nat, c: nat)
    requires HeapBut(was, i) && SmallerChild(was, i, c) && was[c] < was[i] && i < c
    requires |q| == |was| && q[i] == was[c] && q[c] == was[i]
    requires forall m :: 0 <= m < |q| && m != i && m != c ==> q[m] == was[m]
    ensures HeapBut(q, c)
  {
  }

  /** std::pop_heap followed by dropping the back, which holds the old front. */
  method PopHeap(heap: seq<real>) returns (q: seq<real>)
    requires heap != [] && IsHeap(heap)
    ensures IsHeap(q) && |q| == |heap| - 1
    ensures multiset(q) + multiset{heap[0]} == multiset(heap)
  {
    q := Swap(heap, 0, |heap| - 1);
    q := DropLast(q);
    var i := 0;
    assert HeapBut(q, 0);
    while 2 * i + 1 < |q|
      invariant 0 <= i && |q| == |heap| - 1 && HeapBut(q, i)
      invariant multiset(q) + multiset{heap[0]} == multiset(heap)
      decreases |q| - i
    {
      hide HeapBut, IsHeap;
      var c := FindSmallerChild(q, i);
      if q[i] <= q[c] {
        InOrder(q, i, c);
        return;
      }
      ghost var was := q;
      q := Swap(q, i, c);
      SiftedDown(was, q, i, c);
      i := c;
    }
  }

  lemma InOrder(q: seq<real>, i: nat, c: nat)
    requires HeapBut(q, i) && SmallerChild(q, i, c) && q[i] <= q[c]
    ensures IsHeap(q)
  {
  }

  class Queue {
    const k: nat
    var q: seq<real>
    // every score accounted for so far, whether it was offered or proved unable to enter
    ghost var seen: multiset<real>

    ghost predicate Valid()
      reads this
    {
      k >= 1 && IsHeap(q) && IsBest(k, seen, multiset(q))
    }

    constructor (k: nat)
      requires k >= 1
      ensures Valid() && this.k == k && seen == multiset{} && q == []
    {
      this.k := k;
      q := [];
      seen := multiset{};
    }

    predicate WouldEnter(score: real)
      reads this
    {
      |q| < k || (|q| > 0 && score > q[0])
    }

    /** Below the bar means: the queue is full and no kept score is smaller. */
    lemma CannotEnter(score: real)
      requires Valid()
      ensures !WouldEnter(score) <==> |q| == k && forall y :: y in multiset(q) ==> score <= y
    {
      assert |multiset(q)| == |q|;
      if q != [] {
        FrontOfBag(q);
      }
    }

    /**
     * Offers a score. A caller that gave up early may offer a partial score instead of the actual
     * one, as long as neither can enter.
     */
    method Insert(score: real, ghost actual: real) returns (entered: bool)
      requires Valid()
      requires score == actual || (!WouldEnter(score) && !WouldEnter(actual))
      modifies this
      ensures Valid() && seen == old(seen) + multiset{actual}
      ensures entered == old(WouldEnter(score))
      ensures !entered ==> q == old(q)
      ensures old(q) == [] ==> entered && q == [score]
      ensures forall x :: !old(WouldEnter(x)) ==> !WouldEnter(x)
    {
      CannotEnter(actual);
      ghost var best := multiset(q);
      assert |best| == |q|;
      entered := WouldEnter(score);
      if |q| < k {
        GrowKeepsBest(k, seen, best, score);
        q := PushHeap(q, score);
      } else if score > q[0] {
        FrontOfBag(q);
        ReplaceKeepsBest(k, seen, best, score, q[0]);
        ghost var least := q[0];
        var rest := PopHeap(q);
        q := PushHeap(rest, score);
        assert multiset(q) == best - multiset{least} + multiset{score};
        FrontOfBag(q);
        assert |q| == |multiset(q)|;
      } else {
        SkipKeepsBest(k, seen, best, actual);
      }
      seen := seen + multiset{actual};
    }

    /** Accounts for a score that is never computed because it cannot enter. */
    ghost method Skip(score: real)
      requires Valid() && !WouldEnter(score)
      modifies this`seen
      ensures Valid() && seen == old(seen) + multiset{score}
    {
      CannotEnter(score);
      assert |multiset(q)| == |q|;
      SkipKeepsBest(k, seen, multiset(q), score);
      seen := seen + multiset{score};
    }

    /** std::sort_heap with std::greater leaves the scores in descending order. */
    method Finalize() returns (topk: seq<real>)
      requires Valid()
      modifies this`q
      ensures q == topk && IsTopK(k, seen, topk) && multiset(topk) == multiset(old(q))
    {
      hide IsHeap, Descending, NoneAbove, IsBest;
      var heap, sorted := q, [];
      ghost var best := multiset(q);
      NothingSorted(multiset(heap));
      while heap != []
        invariant IsHeap(heap) && Descending(sorted) && NoneAbove(multiset(heap), sorted)
        invariant multiset(heap) + multiset(sorted) == best
        decreases |heap|
      {
        var rest := PopHeap(heap);
        var least := heap[0];
        LeastInFront(heap, rest, sorted);
        sorted := Prepend(least, sorted);
        heap := rest;
      }
      assert multiset(sorted) == best;
      topk := sorted;
      q := sorted;
    }
  }

  /** Nothing sorted is larger than anything still in the heap. */
  ghost predicate NoneAbove(heap: multiset<real>, sorted: seq<real>) {
    forall x, i :: x in heap && 0 <= i < |sorted| ==> x >= sorted[i]
  }

  lemma NothingSorted(heap: multiset<real>)
    ensures Descending([]) && NoneAbove(heap, [])
  {
  }

  lemma LeastInFront(heap: seq<real>, rest: seq<real>, sorted: seq<real>)
    requires heap != [] && IsHeap(heap) && multiset(rest) + multiset{heap[0]} == multiset(heap)
    requires Descending(sorted) && NoneAbove(multiset(heap), sorted)
    ensures Descending([heap[0]] + sorted) && NoneAbove(multiset(rest), [heap[0]] + sorted)
    ensures multiset(rest) + (multiset{heap[0]} + multiset(sorted)) == multiset(heap) + multiset(sorted)
  {
    FrontOfBag(heap);
    forall x | x in multiset(rest)
      ensures x in multiset(heap)
    {
      assert x in multiset(rest) + multiset{heap[0]};
    }
  }
}
