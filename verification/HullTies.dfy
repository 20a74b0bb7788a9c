/** When the order of equal labels matters to the selection of encodings (optimal_hybrid_index.cpp). */
module HullTies {
  // The sort by lambda says nothing about points with equal labels. Without such points in a block any
  // sort will do; with them, some other block and some order make the selection lose.

  import opened Bm25
  import opened HybridIndex
  import opened LowerHull
  import opened MonotoneSequence

  /** No label of the hull occurs twice: no three of its points are on a line. */
  ghost predicate LabelsAscend(h: seq<LambdaPoint>) {
    forall i :: 1 <= i < |h| ==> h[i - 1].lambda < h[i].lambda
  }

  // ---------------------------------------------------------------------------------------------
  // Any order will do

  lemma {:induction false} LabelsApart(h: seq<LambdaPoint>, i: nat, j: nat)
    requires LabelsAscend(h) && i < j < |h|
    ensures h[i].lambda < h[j].lambda
    decreases j
  {
    if i < j - 1 {
      LabelsApart(h, i, j - 1);
    }
  }

  lemma {:induction false} CountOf(s: seq<LambdaPoint>, b: nat, x: LambdaPoint)
    ensures multiset(Of(s, b))[x] == if x.blockId == b then multiset(s)[x] else 0
  {
    if s != [] {
      var n := |s| - 1;
      CountOf(s[..n], b, x);
      assert s == s[..n] + [s[n]];
    }
  }

  lemma BagOfBlock(s: seq<LambdaPoint>, t: seq<LambdaPoint>, b: nat)
    requires multiset(s) == multiset(t)
    ensures multiset(Of(s, b)) == multiset(Of(t, b))
  {
    forall x: LambdaPoint
      ensures multiset(Of(s, b))[x] == multiset(Of(t, b))[x]
    {
      CountOf(s, b, x);
      CountOf(t, b, x);
    }
  }

  lemma {:induction false} OfIsSorted(s: seq<LambdaPoint>, b: nat)
    requires SortedByLambda(s)
    ensures SortedByLambda(Of(s, b)) && forall x :: x in Of(s, b) ==> x in s && x.blockId == b
  {
    if s != [] {
      OfIsSorted(s[..|s| - 1], b);
    }
  }

  lemma SameLast<T>(s: seq<T>, t: seq<T>)
    requires multiset(s) == multiset(t) && s != [] && t != [] && s[|s| - 1] == t[|t| - 1]
    ensures multiset(s[..|s| - 1]) == multiset(t[..|t| - 1])
  {
    assert s == s[..|s| - 1] + [s[|s| - 1]] && t == t[..|t| - 1] + [t[|t| - 1]];
    assert multiset(s[..|s| - 1]) == multiset(s) - multiset{s[|s| - 1]};
    assert multiset(t[..|t| - 1]) == multiset(t) - multiset{t[|t| - 1]};
  }

  /** Points with different labels can be sorted in one way only. */
  lemma {:induction false} OneOrder(s: seq<LambdaPoint>, h: seq<LambdaPoint>)
    requires multiset(s) == multiset(h) && SortedByLambda(s) && LabelsAscend(h)
    ensures s == h
  {
    PermutationMembers(s, h);
    if h != [] {
      var n := |h| - 1;
      assert h[n] in s && s[n] in h;
      var i :| 0 <= i < |h| && h[i] == s[n];
      var k :| 0 <= k < |s| && s[k] == h[n];
      if i < n {
        LabelsApart(h, i, n);
      }
      SameLast(s, h);
      OneOrder(s[..n], h[..n]);
    }
  }

  /** If no hull has two equal labels, every sort of the points by lambda leaves them in hull order. */
  lemma AnyOrderWillDo(candidates: seq<seq<Point>>, points: seq<LambdaPoint>, s: seq<LambdaPoint>)
    requires AreHulls(points, candidates) && SortedFrom(points, s)
    requires forall b :: 0 <= b < |candidates| ==> LabelsAscend(Of(points, b))
    ensures InHullOrder(s, candidates)
  {
    hide Of, IsHull, LabelsAscend, SortedByLambda;
    forall b | 0 <= b < |candidates|
      ensures Of(s, b) == Of(points, b)
    {
      BagOfBlock(s, points, b);
      OfIsSorted(s, b);
      OneOrder(Of(s, b), Of(points, b));
    }
  }

  /** What the loop leaves after some sort of the hull points: the best, if no hull has two equal labels. */
  ghost predicate IsOutcome(candidates: seq<seq<Point>>, points: seq<LambdaPoint>, s: seq<LambdaPoint>, n: nat,
                            spaceBase: nat, budget: nat, curSpace: nat, curTime: real, blockCodecs: seq<nat>)
  {
    && AreHulls(points, candidates) && SortedFrom(points, s)
    && IsPass(|candidates|, s, n, spaceBase, budget, curSpace, curTime, blockCodecs)
    && ((forall b :: 0 <= b < |candidates| ==> LabelsAscend(Of(points, b))) ==>
          && IsSelection(candidates, s, n, spaceBase, budget, curSpace, curTime, blockCodecs)
          && (budget > 0 ==> WithinBudgetIff(candidates, spaceBase, budget, curSpace)))
  }

  /** All that a sort promises. */
  method SortInSomeOrder(points: seq<LambdaPoint>, ghost candidates: seq<seq<Point>>) returns (s: seq<LambdaPoint>)
    requires AreHulls(points, candidates)
    ensures SortedFrom(points, s)
  {
    HullsAscend(points, candidates);
    s := SortByLambda(points);
  }

  /** The whole selection, without any assumption on how equal labels are sorted. */
  method OptimizeInSomeOrder(candidates: seq<seq<Point>>, spaceBase: nat, budget: nat)
    returns (curSpace: nat, curTime: real, blockCodecs: array<nat>)
    requires forall b :: 0 <= b < |candidates| ==> candidates[b] != []
    ensures exists points, s, n: nat ::
      IsOutcome(candidates, points, s, n, spaceBase, budget, curSpace, curTime, blockCodecs[..])
  {
    hide AreHulls, SortedFrom, IsPass, IsSelection, WithinBudgetIff, InHullOrder, LabelsAscend, Of;
    var points := AllHulls(candidates);
    var s := SortInSomeOrder(points, candidates);
    ghost var n;
    curSpace, curTime, blockCodecs, n := Select(candidates, points, s, spaceBase, budget);
    if forall b :: 0 <= b < |candidates| ==> LabelsAscend(Of(points, b)) {
      AnyOrderWillDo(candidates, points, s);
    }
    assert IsOutcome(candidates, points, s, n, spaceBase, budget, curSpace, curTime, blockCodecs[..]);
  }

  // ---------------------------------------------------------------------------------------------
  // Where labels are equal

  lemma {:induction false} LastTie(b: nat, h: seq<LambdaPoint>, i: nat) returns (j: nat)
    requires IsChain(b, h) && 1 <= i < |h| - 1 && h[i].lambda == h[i + 1].lambda
    ensures i <= j < |h| - 1 && h[j].lambda == h[j + 1].lambda && (j + 2 < |h| ==> h[j + 1].lambda < h[j + 2].lambda)
    decreases |h| - i
  {
    if i + 2 < |h| && h[i + 1].lambda == h[i + 2].lambda {
      j := LastTie(b, h, i + 1);
    } else {
      j := i;
    }
  }

  function Share(x: real, m: real): (y: real)
    requires m > 0.0 && x > 0.0
    ensures Times(m, y) == x && y > 0.0
  {
    var y := x / m;
    assert m * y == x;
    assert y <= 0.0 ==> m * y <= 0.0;
    y
  }

  /** Where more space is paid for time, the same space gains less. */
  lemma DearerGainsLess(l: real, m: real, x: real, y: real)
    requires 0.0 < l < m && Times(l, x) == Times(m, y) && Times(l, x) > 0.0
    ensures y < x
  {
    assert y >= x && x > 0.0 ==> m * y >= m * x > l * x;
    assert x <= 0.0 ==> l * x <= 0.0;
  }

  // The other block has a slow point, a fast one twice as large as the step of the tie, and one halfway
  // between them in space that is just too slow to be on the hull.

  function SlowPoint(y: real): Point {
    Point(0, y + y, 0)
  }

  function MiddlePoint(ds: nat, x: real): Point {
    Point(ds, x, 1)
  }

  function FastPoint(ds: nat): Point {
    Point(ds + ds, 0.0, 2)
  }

  function Companion(ds: nat, x: real, y: real): seq<Point> {
    [SlowPoint(y), MiddlePoint(ds, x), FastPoint(ds)]
  }

  function CompanionHull(ds: nat, m: real, y: real): seq<LambdaPoint> {
    [LambdaPoint(1, 0.0, SlowPoint(y)), LambdaPoint(1, m, FastPoint(ds))]
  }

  lemma CompanionIsHull(ds: nat, m: real, x: real, y: real)
    requires ds > 0 && m > 0.0 && 0.0 < y < x && Times(m, y) == ds as real
    ensures IsHull(1, Companion(ds, x, y), CompanionHull(ds, m, y))
  {
    hide Cost;
    var c, h := Companion(ds, x, y), CompanionHull(ds, m, y);
    assert Times(m, y + y) == (ds + ds) as real;
    assert c[0] == SlowPoint(y) && c[1] == MiddlePoint(ds, x) && c[2] == FastPoint(ds);
    forall p, mu: real | p in c && mu >= 0.0
      ensures CoveredAt(mu, h, p)
    {
      var i := if p == c[0] then 0 else if p == c[2] then 1 else if mu <= m then 0 else 1;
      if p == c[1] {
        MiddleIsCovered(ds, m, x, y, mu);
      }
      assert Cost(mu, h[i].st) <= Cost(mu, p);
    }
    forall p | p in c
      ensures Keeps(h, p) || AlwaysBeaten(c, p)
    {
      if p == c[1] {
        MiddleIsBeaten(ds, m, x, y);
      } else {
        assert p == h[0].st || p == h[1].st;
      }
    }
  }

  lemma MiddleIsBeaten(ds: nat, m: real, x: real, y: real)
    requires ds > 0 && m > 0.0 && 0.0 < y < x && Times(m, y) == ds as real
    ensures AlwaysBeaten(Companion(ds, x, y), MiddlePoint(ds, x))
  {
    hide Cost;
    var c := Companion(ds, x, y);
    assert c[0] == SlowPoint(y) && c[2] == FastPoint(ds);
    forall mu: real | mu > 0.0
      ensures BeatenAt(mu, c, MiddlePoint(ds, x))
    {
      MiddleIsCovered(ds, m, x, y, mu);
      var q := c[if mu <= m then 0 else 2];
      assert Cost(mu, q) < Cost(mu, MiddlePoint(ds, x));
    }
  }

  lemma MiddleIsCovered(ds: nat, m: real, x: real, y: real, mu: real)
    requires ds > 0 && m > 0.0 && 0.0 < y < x && Times(m, y) == ds as real && mu >= 0.0
    ensures mu <= m ==> Cost(mu, SlowPoint(y)) <= Cost(mu, MiddlePoint(ds, x))
    ensures mu >= m ==> Cost(mu, FastPoint(ds)) <= Cost(mu, MiddlePoint(ds, x))
    ensures 0.0 < mu <= m ==> Cost(mu, SlowPoint(y)) < Cost(mu, MiddlePoint(ds, x))
    ensures mu >= m ==> Cost(mu, FastPoint(ds)) < Cost(mu, MiddlePoint(ds, x))
  {
    hide Times;
    Distribute(mu, y + y, y);
    Distribute(mu, x, y);
    TimesNonNegative(mu, x - y);
    TimesPositive(mu, x - y);
    Distribute(mu, 0.0, 0.0);
    if mu <= m {
      TimesOrder(mu, m, y);
    }
    if mu >= m {
      TimesOrder(m, mu, y);
    }
  }

  /** The hull of block 0 with a tie at j and j + 1 in reverse, and the points of the companion. */
  function BadOrder(h: seq<LambdaPoint>, g: seq<LambdaPoint>, j: nat): seq<LambdaPoint>
    requires j + 1 < |h| && |g| == 2
  {
    ([g[0]] + h[..j] + [h[j + 1]]) + [h[j]] + [g[1]] + h[j + 2..]
  }

  lemma RearrangedBag<T>(x: T, a: seq<T>, c: T, b: T, y: T, rest: seq<T>)
    ensures multiset(([x] + a + [c]) + [b] + [y] + rest) == multiset((a + [b] + [c] + rest) + ([x] + [y]))
  {
  }

  /** Where the k-th point of that order comes from. */
  lemma BadOrderAt(h: seq<LambdaPoint>, g: seq<LambdaPoint>, j: nat, k: nat)
    requires j + 1 < |h| && |g| == 2 && k < |h| + 2
    ensures |BadOrder(h, g, j)| == |h| + 2
    ensures var p := BadOrder(h, g, j)[k];
      && (k == 0 ==> p == g[0]) && (1 <= k <= j ==> p == h[k - 1]) && (k == j + 1 ==> p == h[j + 1])
      && (k == j + 2 ==> p == h[j]) && (k == j + 3 ==> p == g[1]) && (k > j + 3 ==> p == h[k - 2])
  {
  }

  lemma BadOrderBag(h: seq<LambdaPoint>, g: seq<LambdaPoint>, j: nat)
    requires j + 1 < |h| && |g| == 2
    ensures multiset(BadOrder(h, g, j)) == multiset(h + g)
  {
    RearrangedBag(g[0], h[..j], h[j + 1], h[j], g[1], h[j + 2..]);
    assert h == h[..j] + [h[j]] + [h[j + 1]] + h[j + 2..];
    assert g == [g[0]] + [g[1]];
  }

  lemma BadOrderIsSorted(h: seq<LambdaPoint>, g: seq<LambdaPoint>, j: nat)
    requires IsChain(0, h) && 1 <= j < |h| - 1 && h[j].lambda == h[j + 1].lambda
    requires |g| == 2 && g[0].lambda == 0.0 && h[j].lambda <= g[1].lambda
    requires forall k :: j + 2 <= k < |h| ==> g[1].lambda <= h[k].lambda
    ensures SortedByLambda(BadOrder(h, g, j))
  {
    hide IsChain, BadOrder;
    BadOrderAt(h, g, j, 0);
    var s := BadOrder(h, g, j);
    forall k, l | 0 <= k < l < |s|
      ensures s[k].lambda <= s[l].lambda
    {
      BadOrderAt(h, g, j, k);
      BadOrderAt(h, g, j, l);
      ChainIsMonotone(0, h, 0, From(j, k));
      ChainIsMonotone(0, h, 0, From(j, l));
      if From(j, k) <= From(j, l) {
        ChainIsMonotone(0, h, From(j, k), From(j, l));
      }
      if k == j + 3 {
        assert s[l] == h[l - 2];
      }
      if l == j + 3 && k > 0 {
        ChainIsMonotone(0, h, if From(j, k) <= j then From(j, k) else j, j);
      }
    }
  }

  /** Which hull point stands at position k; the companion's points count as their predecessors. */
  function From(j: nat, k: nat): nat {
    if k == 0 then 0 else if k <= j then k - 1 else if k == j + 1 then j + 1 else if k == j + 2 then j
    else if k == j + 3 then j + 1 else k - 2
  }

  /** What the blocks take while the first i points of a sequence are applied. */
  lemma ChoiceBelow(s: seq<LambdaPoint>, b: nat, space: nat)
    requires forall k :: 0 <= k < |s| && s[k].blockId == b ==> s[k].st.space <= space
    ensures Choice(s, b).space <= space
  {
    if s != [] {
      ChoiceBelow(s[..|s| - 1], b, space);
    }
  }

  lemma TwoSums(a: seq<Point>)
    requires |a| == 2
    ensures SumSpace(a) == a[0].space + a[1].space && SumTime(a) == a[0].time + a[1].time
  {
    assert a[..1] == [a[0]] && [a[0]][..0] == [];
    assert SumSpace([a[0]]) == a[0].space && SumTime([a[0]]) == a[0].time;
  }

  /** Before the fast point of the companion, the total stays below the larger point of the tie. */
  lemma StaysSmall(h: seq<LambdaPoint>, g: seq<LambdaPoint>, j: nat, i: nat)
    requires IsChain(0, h) && 1 <= j < |h| - 1 && |g| == 2 && g[0].blockId == g[1].blockId == 1 && g[0].st.space == 0
    requires i <= j + 3
    ensures i <= |BadOrder(h, g, j)|
    ensures SumSpace(Choices(BadOrder(h, g, j)[..i], 2)) <= h[j + 1].st.space
  {
    hide IsSlope, SumSpace, Of;
    var s := BadOrder(h, g, j)[..i];
    forall k | 0 <= k < |s|
      ensures s[k].blockId == 0 ==> s[k].st.space <= h[j + 1].st.space
      ensures s[k].blockId == 1 ==> s[k].st.space == 0
    {
      assert s[k] == if k == 0 then g[0] else if k <= j then h[k - 1] else if k == j + 1 then h[j + 1] else h[j];
      if k > 0 {
        ChainGrows(0, h, if k <= j then k - 1 else if k == j + 1 then j + 1 else j, j + 1);
      }
    }
    ChoiceBelow(s, 0, h[j + 1].st.space);
    ChoiceBelow(s, 1, 0);
    TwoSums(Choices(s, 2));
  }

  lemma BadChoices(h: seq<LambdaPoint>, g: seq<LambdaPoint>, j: nat)
    requires IsChain(0, h) && j + 1 < |h| && |g| == 2 && g[1].blockId == 1
    ensures j + 4 <= |BadOrder(h, g, j)| && BadOrder(h, g, j)[j + 3] == g[1]
    ensures Choices(BadOrder(h, g, j)[..j + 4], 2) == [h[j].st, g[1].st]
  {
    hide IsSlope, Of;
    var s := BadOrder(h, g, j);
    var front := [g[0]] + h[..j] + [h[j + 1]];
    assert s[..j + 4] == (front + [h[j]]) + [g[1]];
    ChoicesOfNext(front, h[j], 2);
    ChoicesOfNext(front + [h[j]], g[1], 2);
  }

  /** An order of the points of two blocks, a budget, and how far it lets the loop go. */
  datatype Trap = Trap(companion: seq<Point>, g: seq<LambdaPoint>, s: seq<LambdaPoint>, n: nat, budget: nat) {
    /** A legal sort of the two hulls on which the first n points are applied and the selection is beaten. */
    ghost predicate Springs(points: seq<Point>, h: seq<LambdaPoint>, other: seq<Point>) {
      && IsHull(0, points, h) && IsHull(1, companion, g)
      && SortedByLambda(s) && multiset(s) == multiset(h + g)
      && 0 < n <= |s| && s[n - 1].lambda > 0.0 && budget > 0
      && (forall i :: 0 <= i < n ==> SumSpace(Choices(s[..i], 2)) <= budget)
      && SumSpace(Choices(s[..n], 2)) > budget
      && IsAssignment(other, [points, companion])
      && SumSpace(other) <= SumSpace(Choices(s[..n], 2)) && SumTime(other) < SumTime(Choices(s[..n], 2))
    }
  }

  /** Two equal labels admit another block and an order of ties on which the selection is beaten. */
  lemma EqualLabelsCanLose(points: seq<Point>, h: seq<LambdaPoint>) returns (trap: Trap, other: seq<Point>)
    requires IsHull(0, points, h) && !LabelsAscend(h)
    ensures trap.Springs(points, h, other) && LabelsAscend(trap.g)
    ensures |h| == 3 ==> trap.n == |trap.s|
  {
    hide Cost, IsSlope, Choices, SumSpace, SumTime, SortedByLambda, Covers, Keeps, AlwaysBeaten, NotAfter;
    var j := ATie(points, h);
    var ds, l, m, x, y := TrapNumbers(points, h, j);
    var companion, g := Companion(ds, x, y), CompanionHull(ds, m, y);
    CompanionIsHull(ds, m, x, y);
    var s := BadOrder(h, g, j);
    LaterLabels(points, h, j, m);
    BadOrderIsSorted(h, g, j);
    BadOrderBag(h, g, j);
    BadChoices(h, g, j);
    TwoSums([h[j].st, g[1].st]);
    other := [h[j + 1].st, MiddlePoint(ds, x)];
    TwoSums(other);
    assert companion[1] == MiddlePoint(ds, x);
    trap := Trap(companion, g, s, j + 4, h[j].st.space + ds + ds - 1);
    AlwaysSmall(h, g, j);
  }

  lemma AlwaysSmall(h: seq<LambdaPoint>, g: seq<LambdaPoint>, j: nat)
    requires IsChain(0, h) && 1 <= j < |h| - 1 && |g| == 2 && g[0].blockId == g[1].blockId == 1 && g[0].st.space == 0
    ensures |BadOrder(h, g, j)| == |h| + 2
    ensures forall i :: 0 <= i < j + 4 ==> SumSpace(Choices(BadOrder(h, g, j)[..i], 2)) <= h[j + 1].st.space
  {
    hide IsChain, SumSpace, Choices;
    forall i: nat | i < j + 4
      ensures SumSpace(Choices(BadOrder(h, g, j)[..i], 2)) <= h[j + 1].st.space
    {
      StaysSmall(h, g, j, i);
    }
  }

  lemma ATie(points: seq<Point>, h: seq<LambdaPoint>) returns (j: nat)
    requires IsHull(0, points, h) && !LabelsAscend(h)
    ensures 1 <= j < |h| - 1 && h[j].lambda == h[j + 1].lambda > 0.0
    ensures j + 2 < |h| ==> h[j + 1].lambda < h[j + 2].lambda
  {
    hide IsSlope, Covers;
    var i: nat :| 1 <= i < |h| && h[i - 1].lambda >= h[i].lambda;
    LaterLabelsPositive(0, points, h, i);
    j := LastTie(0, h, i - 1);
    LaterLabelsPositive(0, points, h, j);
  }

  /** The step of the tie in space and its price, a price up to the next label, and two times. */
  lemma TrapNumbers(points: seq<Point>, h: seq<LambdaPoint>, j: nat)
    returns (ds: nat, l: real, m: real, x: real, y: real)
    requires IsHull(0, points, h) && 1 <= j < |h| - 1 && h[j].lambda == h[j + 1].lambda > 0.0
    requires j + 2 < |h| ==> h[j + 1].lambda < h[j + 2].lambda
    ensures ds > 0 && h[j + 1].st.space == h[j].st.space + ds
    ensures l == h[j].lambda < m && (j + 2 < |h| ==> m <= h[j + 2].lambda)
    ensures 0.0 < y < x < h[j].st.time - h[j + 1].st.time && Times(m, y) == ds as real
  {
    hide Covers, Keeps, AlwaysBeaten, NotAfter;
    var b, c := h[j].st, h[j + 1].st;
    assert IsSlope(b, c, h[j + 1].lambda);
    SlopeSign(b, c, h[j + 1].lambda);
    ds, l := c.space - b.space, h[j].lambda;
    m := if j + 2 < |h| then (l + h[j + 2].lambda) / 2.0 else l + 1.0;
    y := Share(ds as real, m);
    var dt := b.time - c.time;
    DearerGainsLess(l, m, dt, y);
    x := (y + dt) / 2.0;
  }

  lemma LaterLabels(points: seq<Point>, h: seq<LambdaPoint>, j: nat, m: real)
    requires IsHull(0, points, h) && j + 2 < |h| ==> m <= h[j + 2].lambda
    requires IsHull(0, points, h)
    ensures forall k :: j + 2 <= k < |h| ==> m <= h[k].lambda
  {
    hide IsChain, Covers, Keeps, AlwaysBeaten, NotAfter;
    forall k | j + 2 <= k < |h|
      ensures m <= h[k].lambda
    {
      ChainIsMonotone(0, h, j + 2, k);
    }
  }

  /** The greedy loop walks into it: the encodings it settles on are beaten. */
  method GreedyIsBeaten(points: seq<Point>, ghost h: seq<LambdaPoint>, trap: Trap, ghost other: seq<Point>)
    returns (curSpace: nat, curTime: real, blockCodecs: array<nat>)
    requires trap.Springs(points, h, other)
    ensures IsPass(2, trap.s, trap.n, 0, trap.budget, curSpace, curTime, blockCodecs[..])
    ensures IsAssignment(other, [points, trap.companion])
    ensures SumSpace(other) <= curSpace && SumTime(other) < curTime
  {
    hide Choices, SumSpace, SumTime, IsHull, SortedByLambda, IsAssignment;
    TwoBlocks(points, h, trap);
    var applied;
    applied, curSpace, curTime, blockCodecs := Greedy(trap.s, 2, 0, trap.budget);
    assert applied > trap.n ==> GoesOn(trap.s, trap.n, 2, 0, trap.budget);
    assert trap.s[..|trap.s|] == trap.s;
  }

  lemma TwoBlocks(points: seq<Point>, h: seq<LambdaPoint>, trap: Trap)
    requires IsHull(0, points, h) && IsHull(1, trap.companion, trap.g) && multiset(trap.s) == multiset(h + trap.g)
    ensures forall i :: 0 <= i < |trap.s| ==> trap.s[i].blockId < 2
  {
    hide IsSlope, Covers;
    PermutationMembers(trap.s, h + trap.g);
    forall i | 0 <= i < |trap.s|
      ensures trap.s[i].blockId < 2
    {
      assert trap.s[i] in h + trap.g;
    }
  }

  /** Whatever the other block is and however equal labels are sorted, no selection along the way is beaten. */
  ghost predicate SafeInAnyOrder(points: seq<Point>, h: seq<LambdaPoint>) {
    forall companion, g, s, n :: IsLegal(h, companion, g, s, n) ==> NotBeaten(Choices(s[..n], 2), [points, companion])
  }

  ghost predicate IsLegal(h: seq<LambdaPoint>, companion: seq<Point>, g: seq<LambdaPoint>, s: seq<LambdaPoint>,
                          n: nat) {
    && companion != [] && IsHull(1, companion, g) && LabelsAscend(g) && SortedFrom(h + g, s)
    && n <= |s| && (n == |s| || (n > 0 && s[n - 1].lambda > 0.0))
  }

  /** A block is safe whatever the sort does if and only if its labels are all different. */
  lemma SafeIffLabelsAscend(points: seq<Point>, h: seq<LambdaPoint>)
    requires points != [] && IsHull(0, points, h)
    ensures SafeInAnyOrder(points, h) <==> LabelsAscend(h)
  {
    hide IsHull, LabelsAscend, NotBeaten, Choices, SortedByLambda, Of, IsAssignment, SumSpace, SumTime;
    if LabelsAscend(h) {
      forall companion, g, s, n | IsLegal(h, companion, g, s, n)
        ensures NotBeaten(Choices(s[..n], 2), [points, companion])
      {
        TwoHulls(points, h, companion, g);
        AnyOrderWillDo([points, companion], h + g, s);
        PrefixIsOptimal(s, [points, companion], n);
      }
    } else {
      var trap, other := EqualLabelsCanLose(points, h);
      assert IsLegal(h, trap.companion, trap.g, trap.s, trap.n) by {
        HullNotEmpty(1, trap.companion, trap.g);
      }
      Beaten(Choices(trap.s[..trap.n], 2), other, [points, trap.companion]);
    }
  }

  lemma HullNotEmpty(b: nat, points: seq<Point>, h: seq<LambdaPoint>)
    requires IsHull(b, points, h)
    ensures points != []
  {
    assert h[0].st in points;
  }

  lemma Beaten(chosen: seq<Point>, other: seq<Point>, candidates: seq<seq<Point>>)
    requires IsAssignment(other, candidates) && SumSpace(other) <= SumSpace(chosen) && SumTime(other) < SumTime(chosen)
    ensures !NotBeaten(chosen, candidates)
  {
  }

  lemma TwoHulls(points: seq<Point>, h: seq<LambdaPoint>, companion: seq<Point>, g: seq<LambdaPoint>)
    requires IsHull(0, points, h) && IsHull(1, companion, g)
    ensures AreHulls(h + g, [points, companion]) && Of(h + g, 0) == h && Of(h + g, 1) == g
  {
    hide IsSlope, Covers, Of, Keeps, AlwaysBeaten, NotAfter;
    OfConcat(h, g, 0);
    OfConcat(h, g, 1);
    OfUniform(h, 0, 0);
    OfUniform(h, 0, 1);
    OfUniform(g, 1, 0);
    OfUniform(g, 1, 1);
    assert h + [] == h && [] + g == g;
  }

  /** An instance: three points on a line. */
  lemma TiesOutOfOrderCanLose()
    returns (candidates: seq<seq<Point>>, h: seq<LambdaPoint>, g: seq<LambdaPoint>, s: seq<LambdaPoint>)
    ensures |candidates| == 2 && IsHull(0, candidates[0], h) && IsHull(1, candidates[1], g)
    ensures multiset(s) == multiset(h + g) && SortedByLambda(s) && !NotBeaten(Choices(s, 2), candidates)
  {
    hide IsHull, IsAssignment, Choices, SumSpace, SumTime, SortedByLambda, NotBeaten;
    var p, q, r := Point(0, 2.0, 0), Point(1, 1.0, 1), Point(2, 0.0, 2);
    h := [LambdaPoint(0, 0.0, p), LambdaPoint(0, 1.0, q), LambdaPoint(0, 1.0, r)];
    ThreeOnALine(p, q, r, h);
    assert !LabelsAscend(h) by {
      assert h[1].lambda == h[2].lambda;
    }
    var trap, other := EqualLabelsCanLose([p, q, r], h);
    candidates, g, s := [[p, q, r], trap.companion], trap.g, trap.s;
    assert s[..|s|] == s;
    Beaten(Choices(s, 2), other, candidates);
  }

  lemma ThreeOnALine(p: Point, q: Point, r: Point, h: seq<LambdaPoint>)
    requires p == Point(0, 2.0, 0) && q == Point(1, 1.0, 1) && r == Point(2, 0.0, 2)
    requires h == [LambdaPoint(0, 0.0, p), LambdaPoint(0, 1.0, q), LambdaPoint(0, 1.0, r)]
    ensures IsHull(0, [p, q, r], h)
  {
    hide Cost;
    assert [p, q, r][0] == p && [p, q, r][1] == q && [p, q, r][2] == r;
    forall x, mu: real | x in [p, q, r]
      ensures CoveredAt(mu, h, x)
    {
      var i := if x == p then 0 else if x == q then 1 else 2;
      assert Cost(mu, h[i].st) <= Cost(mu, x);
    }
    forall x | x in [p, q, r]
      ensures Keeps(h, x)
    {
      var i := if x == p then 0 else if x == q then 1 else 2;
      assert h[i].st == x;
    }
  }
}
