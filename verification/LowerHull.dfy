/** The space-time trade-offs of one block (optimal_hybrid_index.cpp, append_lambdas). */
module LowerHull {
  // The candidate encodings are reduced to their lower convex hull, each hull point labelled with the
  // price of time, lambda, from which on it pays off.

  import MonotoneSequence
  import opened Bm25

  /** space_time_point: bytes, predicted decoding time, and which codec achieves them. */
  datatype Point = Point(space: nat, time: real, codec: nat)

  datatype LambdaPoint = LambdaPoint(blockId: nat, lambda: real, st: Point)

  /** Space plus time at price mu. */
  ghost function Cost(mu: real, p: Point): real {
    p.space as real + Times(mu, p.time)
  }

  /** Lexicographic order on (space, time), the order of std::sort on points. */
  predicate NotAfter(p: Point, q: Point) {
    p.space < q.space || (p.space == q.space && p.time <= q.time)
  }

  ghost predicate SortedPoints(s: seq<Point>) {
    forall i, j :: 0 <= i < j < |s| ==> NotAfter(s[i], s[j])
  }

  /** lambda is the space paid per unit of time gained on the way from p to the faster q. */
  ghost predicate IsSlope(p: Point, q: Point, lambda: real) {
    q.time < p.time && Times(lambda, p.time - q.time) == q.space as real - p.space as real
  }

  /** Consecutive points get faster and larger at prices that never fall; the first one is free. */
  ghost predicate IsChain(b: nat, h: seq<LambdaPoint>) {
    && h != [] && h[0].lambda == 0.0
    && (forall i :: 0 <= i < |h| ==> h[i].blockId == b)
    && (forall i :: 1 <= i < |h| ==> IsSlope(h[i - 1].st, h[i].st, h[i].lambda) && h[i - 1].lambda <= h[i].lambda)
  }

  /** At price mu some point of h is at least as good as p. */
  ghost predicate CoveredAt(mu: real, h: seq<LambdaPoint>, p: Point) {
    exists i :: 0 <= i < |h| && Cost(mu, h[i].st) <= Cost(mu, p)
  }

  ghost predicate Covers(h: seq<LambdaPoint>, p: Point) {
    forall mu: real :: mu >= 0.0 ==> CoveredAt(mu, h, p)
  }

  /** Some hull point is as large and as fast as p. */
  ghost predicate Keeps(h: seq<LambdaPoint>, p: Point) {
    exists i :: 0 <= i < |h| && h[i].st.space == p.space && h[i].st.time == p.time
  }

  ghost predicate BeatenAt(mu: real, points: seq<Point>, p: Point) {
    exists q :: q in points && Cost(mu, q) < Cost(mu, p)
  }

  /** At every positive price some candidate costs less than p. */
  ghost predicate AlwaysBeaten(points: seq<Point>, p: Point) {
    forall mu: real :: mu > 0.0 ==> BeatenAt(mu, points, p)
  }

  /** h is the labelled lower hull of the candidates of block b; only candidates that are always beaten are missing. */
  ghost predicate IsHull(b: nat, points: seq<Point>, h: seq<LambdaPoint>) {
    && IsChain(b, h)
    && (forall i :: 0 <= i < |h| ==> h[i].st in points)
    && (forall p :: p in points ==> NotAfter(h[0].st, p) && Covers(h, p) && (Keeps(h, p) || AlwaysBeaten(points, p)))
  }

  // ---------------------------------------------------------------------------------------------
  // Prices

  /** Below the slope the slower point is the cheaper one, above it the faster one is. */
  lemma SlopeDecides(p: Point, q: Point, lambda: real, mu: real)
    requires IsSlope(p, q, lambda)
    ensures mu <= lambda ==> Cost(mu, p) <= Cost(mu, q)
    ensures mu >= lambda ==> Cost(mu, q) <= Cost(mu, p)
    ensures mu < lambda ==> Cost(mu, p) < Cost(mu, q)
    ensures mu > lambda ==> Cost(mu, q) < Cost(mu, p)
  {
    hide Times;
    Distribute(mu, p.time, q.time);
    if mu <= lambda {
      TimesOrder(mu, lambda, p.time - q.time);
    }
    if mu >= lambda {
      TimesOrder(lambda, mu, p.time - q.time);
    }
  }

  lemma Distribute(a: real, x: real, y: real)
    ensures Times(a, x - y) == Times(a, x) - Times(a, y)
  {
  }

  lemma TimesOrder(a: real, b: real, x: real)
    requires a <= b && x >= 0.0
    ensures Times(a, x) <= Times(b, x)
    ensures a < b && x > 0.0 ==> Times(a, x) < Times(b, x)
  {
    hide Times;
    TimesCommutes(a, x);
    TimesCommutes(b, x);
    Distribute(x, b, a);
    TimesNonNegative(x, b - a);
    TimesPositive(x, b - a);
  }

  lemma TimesCommutes(a: real, x: real)
    ensures Times(a, x) == Times(x, a)
  {
  }

  lemma PositiveProduct(a: real, x: real)
    requires a > 0.0 && x > 0.0
    ensures a * x > 0.0
  {
  }

  lemma TimesPositive(a: real, x: real)
    ensures a > 0.0 && x > 0.0 ==> Times(a, x) > 0.0
  {
    if a > 0.0 && x > 0.0 {
      PositiveProduct(a, x);
    }
  }

  /** A price is positive exactly when the faster point is larger. */
  lemma SlopeSign(p: Point, q: Point, lambda: real)
    requires IsSlope(p, q, lambda)
    ensures lambda > 0.0 <==> q.space > p.space
    ensures lambda >= 0.0 <==> q.space >= p.space
  {
    var gained := p.time - q.time;
    assert lambda > 0.0 ==> lambda * gained > 0.0;
    assert lambda < 0.0 ==> lambda * gained < 0.0;
  }

  lemma DominatedCost(p: Point, q: Point, mu: real)
    requires NotAfter(p, q) && p.time <= q.time && mu >= 0.0
    ensures Cost(mu, p) <= Cost(mu, q)
    ensures mu > 0.0 && (p.space < q.space || p.time < q.time) ==> Cost(mu, p) < Cost(mu, q)
  {
    hide Times;
    Distribute(mu, q.time, p.time);
    TimesNonNegative(mu, q.time - p.time);
    TimesPositive(mu, q.time - p.time);
  }

  /** The space paid for time, as the quotient that the code computes. */
  function Slope(p: Point, q: Point): (lambda: real)
    requires q.time < p.time
    ensures IsSlope(p, q, lambda)
  {
    (q.space as real - p.space as real) / (p.time - q.time)
  }

  /**
   * Where the price of reaching cur from last is below the price of reaching last, last is everywhere
   * dearer than one of its neighbours: it can be popped.
   */
  lemma PoppedIsCovered(before: Point, last: Point, cur: Point, lambda: real, steeper: real, mu: real)
    requires IsSlope(before, last, steeper) && IsSlope(last, cur, lambda) && lambda < steeper
    ensures Cost(mu, before) < Cost(mu, last) || Cost(mu, cur) < Cost(mu, last)
  {
    SlopeDecides(before, last, steeper, mu);
    SlopeDecides(last, cur, lambda, mu);
  }

  /** Along a chain prices never fall, sizes strictly grow, times strictly shrink. */
  lemma {:induction false} ChainIsMonotone(b: nat, h: seq<LambdaPoint>, i: nat, j: nat)
    requires IsChain(b, h) && i <= j < |h|
    ensures 0.0 <= h[i].lambda <= h[j].lambda && h[j].st.time <= h[i].st.time
    ensures i < j ==> h[j].st.time < h[i].st.time
    decreases j
  {
    if j > 0 {
      ChainIsMonotone(b, h, if i < j then i else j - 1, j - 1);
    }
  }

  /** Along a chain sizes never shrink. */
  lemma {:induction false} ChainGrows(b: nat, h: seq<LambdaPoint>, i: nat, j: nat)
    requires IsChain(b, h) && i <= j < |h|
    ensures h[i].st.space <= h[j].st.space
    decreases j
  {
    if i < j {
      ChainGrows(b, h, i, j - 1);
      ChainIsMonotone(b, h, 0, j);
      SlopeSign(h[j - 1].st, h[j].st, h[j].lambda);
    }
  }

  /** p is faster than q, or as fast and no larger. */
  predicate NotSlower(p: Point, q: Point) {
    p.time < q.time || (p.time == q.time && p.space <= q.space)
  }

  /** A price at which gaining at least `gap` of time is worth any space up to that of p. */
  lemma DearTime(p: Point, q: Point, gap: real, mu: real)
    requires gap > 0.0 && q.time >= p.time + gap && mu >= 0.0 && Times(mu, gap) > p.space as real
    ensures Cost(mu, q) > Cost(mu, p)
  {
    hide Times;
    Distribute(mu, q.time, p.time);
    Distribute(mu, q.time - p.time, gap);
    TimesNonNegative(mu, q.time - p.time - gap);
  }

  lemma TimesNonNegative(a: real, x: real)
    requires a >= 0.0 && x >= 0.0
    ensures Times(a, x) >= 0.0
  {
  }

  lemma APrice(space: nat, gap: real) returns (mu: real)
    requires gap > 0.0
    ensures mu >= 0.0 && Times(mu, gap) > space as real
  {
    mu := (space + 1) as real / gap;
    assert mu * gap == (space + 1) as real;
    assert mu < 0.0 ==> mu * gap < 0.0;
  }

  /** The last hull point is the fastest candidate, and the smallest of the fastest. */
  lemma LastIsFastest(b: nat, points: seq<Point>, h: seq<LambdaPoint>, p: Point)
    requires IsHull(b, points, h) && p in points
    ensures NotSlower(h[|h| - 1].st, p)
  {
    hide Cost, Times, IsSlope;
    var last := |h| - 1;
    if p.time < h[last].st.time {
      var mu := APrice(p.space, h[last].st.time - p.time);
      assert CoveredAt(mu, h, p);
      var i :| 0 <= i < |h| && Cost(mu, h[i].st) <= Cost(mu, p);
      ChainIsMonotone(b, h, i, last);
      DearTime(p, h[i].st, h[last].st.time - p.time, mu);
    } else if p.time == h[last].st.time {
      if last == 0 {
        assert NotAfter(h[0].st, p);
      } else {
        ChainIsMonotone(b, h, last - 1, last);
        var gap := h[last - 1].st.time - p.time;
        var mu := APrice(p.space, gap);
        assert CoveredAt(mu, h, p);
        var i :| 0 <= i < |h| && Cost(mu, h[i].st) <= Cost(mu, p);
        if i < last {
          ChainIsMonotone(b, h, i, last - 1);
          DearTime(p, h[i].st, gap, mu);
        }
        SameTimeSmaller(h[last].st, p, mu);
      }
    }
  }

  lemma SameTimeSmaller(p: Point, q: Point, mu: real)
    requires p.time == q.time && Cost(mu, p) <= Cost(mu, q)
    ensures p.space <= q.space
  {
  }

  lemma {:induction false} CheaperTowards(b: nat, h: seq<LambdaPoint>, mu: real, i: nat, j: nat)
    requires IsChain(b, h) && i <= j < |h|
    ensures h[j].lambda <= mu ==> Cost(mu, h[j].st) <= Cost(mu, h[i].st)
    ensures i < j && mu <= h[i + 1].lambda ==> Cost(mu, h[i].st) <= Cost(mu, h[j].st)
    decreases j - i
  {
    if i < j {
      SlopeDecides(h[j - 1].st, h[j].st, h[j].lambda, mu);
      ChainIsMonotone(b, h, i + 1, j);
      CheaperTowards(b, h, mu, i, j - 1);
    }
  }

  /**
   * The point a price selects is optimal: if mu lies between the label of a hull point and the label
   * of the next one, no candidate costs less at price mu.
   */
  lemma SelectedIsOptimal(b: nat, points: seq<Point>, h: seq<LambdaPoint>, mu: real, j: nat, p: Point)
    requires IsHull(b, points, h) && p in points && mu >= 0.0
    requires j < |h| && h[j].lambda <= mu && (j + 1 < |h| ==> mu <= h[j + 1].lambda)
    ensures Cost(mu, h[j].st) <= Cost(mu, p)
  {
    assert CoveredAt(mu, h, p);
    var i :| 0 <= i < |h| && Cost(mu, h[i].st) <= Cost(mu, p);
    if i <= j {
      CheaperTowards(b, h, mu, i, j);
    } else {
      CheaperTowards(b, h, mu, j, i);
    }
  }

  /** All labels but the first are positive prices. */
  lemma LaterLabelsPositive(b: nat, points: seq<Point>, h: seq<LambdaPoint>, j: nat)
    requires IsHull(b, points, h) && 1 <= j < |h|
    ensures h[j].lambda > 0.0
  {
    ChainIsMonotone(b, h, 1, j);
    assert NotAfter(h[0].st, h[1].st);
    SlopeSign(h[0].st, h[1].st, h[1].lambda);
  }

  ghost predicate CheapestAt(mu: real, points: seq<Point>, p: Point) {
    forall q :: q in points ==> Cost(mu, p) <= Cost(mu, q)
  }

  /** A price in the range of a hull point. */
  lemma PriceOf(b: nat, points: seq<Point>, h: seq<LambdaPoint>, i: nat) returns (mu: real)
    requires IsHull(b, points, h) && i < |h|
    ensures mu > 0.0 && h[i].lambda <= mu && (i + 1 < |h| ==> mu <= h[i + 1].lambda)
  {
    hide Cost, IsSlope, NotAfter, Covers, Keeps, AlwaysBeaten;
    mu := if i > 0 then h[i].lambda else if |h| > 1 then h[1].lambda else 1.0;
    if |h| > 1 {
      LaterLabelsPositive(b, points, h, if i > 0 then i else 1);
    }
    if i > 0 && i + 1 < |h| {
      ChainIsMonotone(b, h, i, i + 1);
    }
  }

  /** A candidate is on the hull, up to others of the same size and time, if and only if a price makes it cheapest. */
  lemma OnHullIff(b: nat, points: seq<Point>, h: seq<LambdaPoint>, p: Point)
    requires IsHull(b, points, h) && p in points
    ensures Keeps(h, p) <==> exists mu: real :: mu > 0.0 && CheapestAt(mu, points, p)
  {
    hide IsChain, NotAfter, Covers, Cost;
    if i :| 0 <= i < |h| && h[i].st.space == p.space && h[i].st.time == p.time {
      var mu := PriceOf(b, points, h, i);
      forall q | q in points
        ensures Cost(mu, p) <= Cost(mu, q)
      {
        SelectedIsOptimal(b, points, h, mu, i, q);
        SameCost(mu, p, h[i].st);
      }
      assert CheapestAt(mu, points, p);
    }
    if mu: real :| mu > 0.0 && CheapestAt(mu, points, p) {
      assert !BeatenAt(mu, points, p);
    }
  }

  lemma SameCost(mu: real, p: Point, q: Point)
    requires p.space == q.space && p.time == q.time
    ensures Cost(mu, p) == Cost(mu, q)
  {
  }

  // ---------------------------------------------------------------------------------------------
  // Building the hull

  /** p is covered by the points of h or, failing that, by the point about to be added. */
  ghost predicate CoveredWith(h: seq<LambdaPoint>, cur: Point, p: Point) {
    forall mu: real :: mu >= 0.0 ==>
      Cost(mu, cur) <= Cost(mu, p) || CoveredAt(mu, h, p)
  }

  lemma PopKeepsCover(b: nat, h: seq<LambdaPoint>, cur: Point, lambda: real, p: Point)
    requires IsChain(b, h) && |h| >= 2 && CoveredWith(h, cur, p)
    requires IsSlope(h[|h| - 1].st, cur, lambda) && lambda < h[|h| - 1].lambda
    ensures CoveredWith(h[..|h| - 1], cur, p)
  {
    hide Cost, IsSlope;
    var n := |h| - 1;
    forall mu: real | mu >= 0.0
      ensures Cost(mu, cur) <= Cost(mu, p) || CoveredAt(mu, h[..n], p)
    {
      PoppedIsCovered(h[n - 1].st, h[n].st, cur, lambda, h[n].lambda, mu);
      if !(Cost(mu, cur) <= Cost(mu, p)) {
        var i :| 0 <= i < |h| && Cost(mu, h[i].st) <= Cost(mu, p);
        var i' := if i == n then n - 1 else i;
        assert Cost(mu, h[..n][i'].st) <= Cost(mu, p);
      }
    }
  }

  lemma PushKeepsCover(h: seq<LambdaPoint>, last: LambdaPoint, p: Point)
    requires CoveredWith(h, last.st, p)
    ensures Covers(h + [last], p)
  {
    hide Cost;
    var h' := h + [last];
    forall mu: real | mu >= 0.0
      ensures CoveredAt(mu, h', p)
    {
      if Cost(mu, last.st) <= Cost(mu, p) {
        assert Cost(mu, h'[|h|].st) <= Cost(mu, p);
      } else {
        var i :| 0 <= i < |h| && Cost(mu, h[i].st) <= Cost(mu, p);
        assert Cost(mu, h'[i].st) <= Cost(mu, p);
      }
    }
  }

  lemma SkipKeepsCover(h: seq<LambdaPoint>, cur: Point, p: Point)
    requires h != [] && CoveredWith(h, cur, p)
    requires NotAfter(h[|h| - 1].st, cur) && h[|h| - 1].st.time <= cur.time
    ensures Covers(h, p)
  {
    hide Cost, NotAfter;
    forall mu: real | mu >= 0.0
      ensures CoveredAt(mu, h, p)
    {
      DominatedCost(h[|h| - 1].st, cur, mu);
    }
  }

  /** What holds of one block's part of the buffer while its candidates are added in sorted order. */
  ghost predicate Building(b: nat, points: seq<Point>, n: nat, h: seq<LambdaPoint>)
    requires n <= |points|
  {
    && points != [] && IsChain(b, h) && h[0].st == points[0]
    && (forall i :: 0 <= i < |h| ==>
          h[i].st in points && forall j :: n <= j < |points| ==> NotAfter(h[i].st, points[j]))
    && (forall j :: 0 <= j < n ==> Covers(h, points[j]))
    && (forall j :: 0 <= j < n ==> Keeps(h, points[j]) || AlwaysBeaten(points, points[j]))
  }

  /** The same while candidate n is being added: it counts as available already. */
  ghost predicate Adding(b: nat, points: seq<Point>, n: nat, h: seq<LambdaPoint>)
    requires n < |points|
  {
    && IsChain(b, h) && h[0].st == points[0]
    && (forall i :: 0 <= i < |h| ==>
          h[i].st in points && forall j :: n <= j < |points| ==> NotAfter(h[i].st, points[j]))
    && (forall j :: 0 <= j < n ==> CoveredWith(h, points[n], points[j]))
    && (forall j :: 0 <= j < n ==> Keeps(h, points[j]) || AlwaysBeaten(points, points[j]))
  }

  /** The first point of a block has label 0 and is never popped: no earlier block is touched. */
  lemma NeverPopsFirst(b: nat, points: seq<Point>, n: nat, h: seq<LambdaPoint>, lambda: real)
    requires n < |points| && Adding(b, points, n, h)
    requires IsSlope(h[|h| - 1].st, points[n], lambda) && lambda < h[|h| - 1].lambda
    ensures |h| >= 2
  {
    assert NotAfter(h[|h| - 1].st, points[n]);
    SlopeSign(h[|h| - 1].st, points[n], lambda);
  }

  lemma PopStep(b: nat, points: seq<Point>, n: nat, h: seq<LambdaPoint>, lambda: real)
    requires n < |points| && Adding(b, points, n, h)
    requires IsSlope(h[|h| - 1].st, points[n], lambda) && lambda < h[|h| - 1].lambda
    ensures Adding(b, points, n, h[..|h| - 1])
  {
    hide IsSlope, NotAfter, CoveredWith, Keeps, AlwaysBeaten;
    NeverPopsFirst(b, points, n, h, lambda);
    forall j | 0 <= j < n
      ensures CoveredWith(h[..|h| - 1], points[n], points[j])
      ensures Keeps(h[..|h| - 1], points[j]) || AlwaysBeaten(points, points[j])
    {
      PopKeepsCover(b, h, points[n], lambda, points[j]);
      PoppedIsBeaten(b, points, n, h, lambda, points[j]);
    }
  }

  lemma PoppedIsBeaten(b: nat, points: seq<Point>, n: nat, h: seq<LambdaPoint>, lambda: real, p: Point)
    requires n < |points| && IsChain(b, h) && |h| >= 2 && h[|h| - 2].st in points
    requires IsSlope(h[|h| - 1].st, points[n], lambda) && lambda < h[|h| - 1].lambda
    ensures Keeps(h, p) ==> Keeps(h[..|h| - 1], p) || AlwaysBeaten(points, p)
  {
    hide IsSlope;
    var last := |h| - 1;
    if i :| 0 <= i < |h| && h[i].st.space == p.space && h[i].st.time == p.time {
      if i < last {
        assert h[..last][i] == h[i];
      } else {
        forall mu: real | mu > 0.0
          ensures BeatenAt(mu, points, p)
        {
          PoppedIsCovered(h[last - 1].st, h[last].st, points[n], lambda, h[last].lambda, mu);
          assert points[n] in points;
        }
      }
    }
  }

  lemma PushStep(b: nat, points: seq<Point>, n: nat, h: seq<LambdaPoint>, lambda: real)
    requires n < |points| && SortedPoints(points) && Adding(b, points, n, h)
    requires IsSlope(h[|h| - 1].st, points[n], lambda) && lambda >= h[|h| - 1].lambda
    ensures Building(b, points, n + 1, h + [LambdaPoint(b, lambda, points[n])])
  {
    hide IsSlope, NotAfter, CoveredWith, Covers, Cost, AlwaysBeaten, Keeps;
    var last := LambdaPoint(b, lambda, points[n]);
    CoveredByItself(h, points[n]);
    forall j | 0 <= j < n + 1
      ensures Covers(h + [last], points[j]) && (Keeps(h + [last], points[j]) || AlwaysBeaten(points, points[j]))
    {
      PushKeepsCover(h, last, points[j]);
      PushKeeps(h, last, points[j]);
    }
  }

  lemma PushKeeps(h: seq<LambdaPoint>, last: LambdaPoint, p: Point)
    ensures Keeps(h, p) || p == last.st ==> Keeps(h + [last], p)
  {
    var h' := h + [last];
    assert h'[|h|] == last;
    if i :| 0 <= i < |h| && h[i].st.space == p.space && h[i].st.time == p.time {
      assert h'[i] == h[i];
    }
  }

  lemma CoveredByItself(h: seq<LambdaPoint>, p: Point)
    ensures CoveredWith(h, p, p)
  {
  }

  /** A candidate no faster than the last point is at least as large, hence dominated. */
  lemma SkipStep(b: nat, points: seq<Point>, n: nat, h: seq<LambdaPoint>)
    requires n < |points| && Adding(b, points, n, h) && points[n].time >= h[|h| - 1].st.time
    ensures Building(b, points, n + 1, h)
  {
    hide IsSlope, NotAfter, CoveredWith, Covers, Cost, AlwaysBeaten, Keeps;
    CoveredByItself(h, points[n]);
    SkippedIsBeaten(points, h, points[n]);
    forall j | 0 <= j < n + 1
      ensures Covers(h, points[j])
    {
      SkipKeepsCover(h, points[n], points[j]);
    }
  }

  lemma SkippedIsBeaten(points: seq<Point>, h: seq<LambdaPoint>, cur: Point)
    requires h != [] && h[|h| - 1].st in points
    requires NotAfter(h[|h| - 1].st, cur) && h[|h| - 1].st.time <= cur.time
    ensures Keeps(h, cur) || AlwaysBeaten(points, cur)
  {
    hide Cost;
    var last := h[|h| - 1].st;
    if last.space < cur.space || last.time < cur.time {
      forall mu: real | mu > 0.0
        ensures BeatenAt(mu, points, cur)
      {
        DominatedCost(last, cur, mu);
      }
    }
  }

  lemma StartAdding(b: nat, points: seq<Point>, n: nat, h: seq<LambdaPoint>)
    requires n < |points| && Building(b, points, n, h)
    ensures Adding(b, points, n, h)
  {
    hide Cost, IsSlope, NotAfter, Keeps, AlwaysBeaten;
  }

  class LambdasComputer {
    var pointsBuf: seq<LambdaPoint>

    constructor ()
      ensures pointsBuf == []
    {
      pointsBuf := [];
    }

    /** Adds one candidate, popping the points of this block that it makes superfluous. */
    method AddPoint(points: seq<Point>, n: nat, blockId: nat, ghost before: seq<LambdaPoint>, ghost h: seq<LambdaPoint>)
      returns (ghost h': seq<LambdaPoint>)
      requires n < |points| && SortedPoints(points)
      requires pointsBuf == before + h && Building(blockId, points, n, h)
      modifies this
      ensures pointsBuf == before + h' && Building(blockId, points, n + 1, h')
    {
      hide Adding, Building, IsSlope;
      var cur := points[n];
      h' := h;
      StartAdding(blockId, points, n, h);
      while true
        invariant pointsBuf == before + h' && Adding(blockId, points, n, h')
        decreases |pointsBuf|
      {
        AddingNonEmpty(blockId, points, n, h');
        var prev := pointsBuf[|pointsBuf| - 1];
        if cur.time >= prev.st.time {
          SkipStep(blockId, points, n, h');
          break;
        }
        var lambda := Slope(prev.st, cur);
        if lambda < prev.lambda {
          PopStep(blockId, points, n, h', lambda);
          pointsBuf := pointsBuf[..|pointsBuf| - 1];
          h' := h'[..|h'| - 1];
        } else {
          PushStep(blockId, points, n, h', lambda);
          pointsBuf := pointsBuf + [LambdaPoint(blockId, lambda, cur)];
          h' := h' + [LambdaPoint(blockId, lambda, cur)];
          break;
        }
      }
    }

    /** Appends the hull of one block to the buffer and leaves the blocks before it alone. */
    method AppendLambdas(candidates: seq<Point>, blockId: nat) returns (ghost h: seq<LambdaPoint>)
      requires candidates != []
      modifies this
      ensures pointsBuf == old(pointsBuf) + h && IsHull(blockId, candidates, h)
    {
      var points := SortPoints(candidates);
      SameLength(points, candidates);
      pointsBuf := pointsBuf + [LambdaPoint(blockId, 0.0, points[0])];
      h := [LambdaPoint(blockId, 0.0, points[0])];
      StartBuilding(blockId, points, h);
      for n := 0 to |points|
        invariant pointsBuf == old(pointsBuf) + h && Building(blockId, points, n, h)
      {
        h := AddPoint(points, n, blockId, old(pointsBuf), h);
      }
      BuiltIsHull(blockId, points, candidates, h);
    }
  }

  lemma AddingNonEmpty(b: nat, points: seq<Point>, n: nat, h: seq<LambdaPoint>)
    requires n < |points| && Adding(b, points, n, h)
    ensures h != []
  {
  }

  lemma SameLength(a: seq<Point>, b: seq<Point>)
    requires multiset(a) == multiset(b)
    ensures |a| == |b|
  {
    assert |multiset(a)| == |a| && |multiset(b)| == |b|;
  }

  lemma StartBuilding(b: nat, points: seq<Point>, h: seq<LambdaPoint>)
    requires points != [] && SortedPoints(points) && h == [LambdaPoint(b, 0.0, points[0])]
    ensures Building(b, points, 0, h)
  {
  }

  lemma BuiltIsHull(b: nat, points: seq<Point>, candidates: seq<Point>, h: seq<LambdaPoint>)
    requires multiset(points) == multiset(candidates) && SortedPoints(points) && Building(b, points, |points|, h)
    ensures IsHull(b, candidates, h)
  {
    hide IsSlope, Covers, Keeps, AlwaysBeaten, NotAfter;
    SameMembers(points, candidates);
    forall p | p in candidates
      ensures NotAfter(h[0].st, p) && Covers(h, p) && (Keeps(h, p) || AlwaysBeaten(candidates, p))
    {
      var j :| 0 <= j < |points| && points[j] == p;
      assert points[0] == h[0].st && Covers(h, points[j]) && (Keeps(h, points[j]) || AlwaysBeaten(points, points[j]));
      BeatenByTheSame(points, candidates, p);
      FirstComesFirst(points, j);
    }
  }

  lemma SameMembers(points: seq<Point>, candidates: seq<Point>)
    requires multiset(points) == multiset(candidates)
    ensures forall p :: p in points <==> p in candidates
  {
    assert forall p :: p in candidates ==> p in multiset(points);
    assert forall p :: p in points ==> p in multiset(candidates);
  }

  lemma FirstComesFirst(points: seq<Point>, j: nat)
    requires SortedPoints(points) && j < |points|
    ensures NotAfter(points[0], points[j])
  {
  }

  lemma BeatenByTheSame(points: seq<Point>, candidates: seq<Point>, p: Point)
    requires forall q :: q in points <==> q in candidates
    ensures AlwaysBeaten(points, p) ==> AlwaysBeaten(candidates, p)
  {
    hide Cost;
    if AlwaysBeaten(points, p) {
      forall mu: real | mu > 0.0
        ensures BeatenAt(mu, candidates, p)
      {
        assert BeatenAt(mu, points, p);
      }
    }
  }

  method InsertPoint(s: seq<Point>, p: Point) returns (r: seq<Point>)
    requires SortedPoints(s)
    ensures SortedPoints(r) && multiset(r) == multiset(s) + multiset{p}
  {
    var at := 0;
    while at < |s| && NotAfter(s[at], p)
      invariant 0 <= at <= |s|
      invariant forall i :: 0 <= i < at ==> NotAfter(s[i], p)
    {
      at := at + 1;
    }
    r := s[..at] + [p] + s[at..];
    MonotoneSequence.BagOfInserted(s, at, p);
  }

  /** std::sort by space, then time. */
  method SortPoints(points: seq<Point>) returns (s: seq<Point>)
    ensures SortedPoints(s) && multiset(s) == multiset(points)
  {
    s := [];
    for n := 0 to |points|
      invariant SortedPoints(s) && multiset(s) == multiset(points[..n])
    {
      s := InsertPoint(s, points[n]);
      assert points[..n + 1] == points[..n] + [points[n]];
    }
    assert points[..|points|] == points;
  }
}
