/** Choosing one encoding per block under a space budget (optimal_hybrid_index.cpp). */
module HybridIndex {
  // All hull points are sorted by lambda and applied one after another until the budget is exceeded.

  import opened Bm25
  import opened LowerHull

  /** The points of block b in s, in the order of s. */
  ghost function Of(s: seq<LambdaPoint>, b: nat): seq<LambdaPoint> {
    if s == [] then []
    else
      var n := |s| - 1;
      if s[n].blockId == b then Of(s[..n], b) + [s[n]] else Of(s[..n], b)
  }

  const UNSET: Point := Point(0, 0.0, 0)

  /** The encoding that block b has after the points of s have been applied. */
  ghost function Choice(s: seq<LambdaPoint>, b: nat): Point {
    var own := Of(s, b);
    if own == [] then UNSET else own[|own| - 1].st
  }

  ghost function Choices(s: seq<LambdaPoint>, m: nat): (a: seq<Point>)
    ensures |a| == m && forall b :: 0 <= b < m ==> a[b] == Choice(s, b)
  {
    if m == 0 then [] else Choices(s, m - 1) + [Choice(s, m - 1)]
  }

  ghost function SumSpace(a: seq<Point>): nat {
    if a == [] then 0 else SumSpace(a[..|a| - 1]) + a[|a| - 1].space
  }

  ghost function SumTime(a: seq<Point>): real {
    if a == [] then 0.0 else SumTime(a[..|a| - 1]) + a[|a| - 1].time
  }

  ghost predicate SortedByLambda(s: seq<LambdaPoint>) {
    forall i, j :: 0 <= i < j < |s| ==> s[i].lambda <= s[j].lambda
  }

  // ---------------------------------------------------------------------------------------------
  // The greedy loop

  lemma ChoicesOfNext(s: seq<LambdaPoint>, p: LambdaPoint, m: nat)
    requires p.blockId < m
    ensures Choices(s + [p], m) == Choices(s, m)[p.blockId := p.st]
  {
    assert (s + [p])[..|s|] == s;
  }

  lemma {:induction false} SumsOfReplaced(a: seq<Point>, b: nat, p: Point)
    requires b < |a|
    ensures SumSpace(a[b := p]) == SumSpace(a) - a[b].space + p.space
    ensures SumTime(a[b := p]) == SumTime(a) - a[b].time + p.time
    decreases |a|
  {
    var n := |a| - 1;
    if b == n {
      assert a[b := p][..n] == a[..n];
    } else {
      assert a[b := p][..n] == a[..n][b := p];
      SumsOfReplaced(a[..n], b, p);
    }
  }

  /** The loop goes on after a point unless that point has a positive price and a budget is exceeded. */
  ghost predicate GoesOn(s: seq<LambdaPoint>, i: nat, m: nat, spaceBase: nat, budget: nat)
    requires 1 <= i <= |s|
  {
    s[i - 1].lambda > 0.0 && budget != 0 ==> spaceBase + SumSpace(Choices(s[..i], m)) <= budget
  }

  /**
   * Applies points in order. It stops at the first point with a positive price that takes the total
   * over the budget, and keeps that point applied: the budget may be exceeded by one step. Budget 0
   * stands for no budget: the trade-offs are only listed.
   */
  method Greedy(s: seq<LambdaPoint>, numBlocks: nat, spaceBase: nat, budget: nat)
    returns (applied: nat, curSpace: nat, curTime: real, blockCodecs: array<nat>)
    requires forall i :: 0 <= i < |s| ==> s[i].blockId < numBlocks
    ensures fresh(blockCodecs) && blockCodecs.Length == numBlocks
    ensures applied <= |s|
    ensures var chosen := Choices(s[..applied], numBlocks);
      && curSpace == spaceBase + SumSpace(chosen) && curTime == SumTime(chosen)
      && forall b :: 0 <= b < numBlocks ==> blockCodecs[b] == chosen[b].codec
    ensures forall i :: 1 <= i < applied ==> GoesOn(s, i, numBlocks, spaceBase, budget)
    ensures applied < |s| ==> applied > 0 && s[applied - 1].lambda > 0.0 && curSpace > budget > 0
  {
    hide Choices, SumSpace, SumTime;
    var blockSpaces := new nat[numBlocks](_ => 0);
    var blockTimes := new real[numBlocks](_ => 0.0);
    blockCodecs := new nat[numBlocks](_ => 0);
    curSpace, curTime, applied := spaceBase, 0.0, 0;
    ghost var chosen := Choices([], numBlocks);
    NothingChosen(numBlocks);
    assert s[..0] == [];
    while applied < |s|
      invariant applied <= |s| && chosen == Choices(s[..applied], numBlocks)
      invariant curSpace == spaceBase + SumSpace(chosen) && curTime == SumTime(chosen)
      invariant forall b :: 0 <= b < numBlocks ==> blockSpaces[b] == chosen[b].space
      invariant forall b :: 0 <= b < numBlocks ==> blockTimes[b] == chosen[b].time
      invariant forall b :: 0 <= b < numBlocks ==> blockCodecs[b] == chosen[b].codec
      invariant forall i :: 1 <= i <= applied ==> GoesOn(s, i, numBlocks, spaceBase, budget)
    {
      var p := s[applied];
      assert s[..applied + 1] == s[..applied] + [p];
      ChoicesOfNext(s[..applied], p, numBlocks);
      SumsOfReplaced(chosen, p.blockId, p.st);
      curSpace := curSpace - blockSpaces[p.blockId] + p.st.space;
      curTime := curTime - blockTimes[p.blockId] + p.st.time;
      blockSpaces[p.blockId] := p.st.space;
      blockTimes[p.blockId] := p.st.time;
      blockCodecs[p.blockId] := p.st.codec;
      chosen := chosen[p.blockId := p.st];
      applied := applied + 1;
      if p.lambda > 0.0 {
        if budget != 0 && curSpace > budget {
          break;
        }
      }
    }
  }

  lemma NothingChosen(m: nat)
    ensures SumSpace(Choices([], m)) == 0 && SumTime(Choices([], m)) == 0.0
    ensures forall b :: 0 <= b < m ==> Choices([], m)[b] == UNSET
  {
    if m > 0 {
      NothingChosen(m - 1);
      assert Choices([], m)[..m - 1] == Choices([], m - 1);
    }
  }

  // ---------------------------------------------------------------------------------------------
  // Optimality

  /** s holds the hulls of all blocks, sorted by lambda, with ties of a block in hull order. */
  ghost predicate InHullOrder(s: seq<LambdaPoint>, candidates: seq<seq<Point>>) {
    SortedByLambda(s) && forall b :: 0 <= b < |candidates| ==> IsHull(b, candidates[b], Of(s, b))
  }

  /** One candidate for each block. */
  ghost predicate IsAssignment(a: seq<Point>, candidates: seq<seq<Point>>) {
    |a| == |candidates| && forall b :: 0 <= b < |a| ==> a[b] in candidates[b]
  }

  /** Price mu separates the first n points from the others. */
  ghost predicate Separates(s: seq<LambdaPoint>, n: nat, mu: real)
    requires n <= |s|
  {
    (forall i :: 0 <= i < n ==> s[i].lambda <= mu) && forall i :: n <= i < |s| ==> s[i].lambda >= mu
  }

  /** Points applied before position n carry smaller labels than points still to come. */
  lemma {:induction false} LabelsAround(s: seq<LambdaPoint>, n: nat, b: nat, k: nat, mu: real)
    requires n <= k <= |s| && Separates(s, n, mu)
    ensures var own, all := Of(s[..n], b), Of(s[..k], b);
      && own <= all
      && (forall i :: 0 <= i < |own| ==> all[i].lambda <= mu)
      && (forall i :: |own| <= i < |all| ==> all[i].lambda >= mu)
    decreases k
  {
    if k > n {
      assert s[..k][..k - 1] == s[..k - 1];
      LabelsAround(s, n, b, k - 1, mu);
    } else if k > 0 {
      assert s[..k][..k - 1] == s[..k - 1];
      OwnLabels(s, n, b, mu);
    }
  }

  lemma {:induction false} OwnLabels(s: seq<LambdaPoint>, n: nat, b: nat, mu: real)
    requires n <= |s| && forall i :: 0 <= i < n ==> s[i].lambda <= mu
    ensures forall i :: 0 <= i < |Of(s[..n], b)| ==> Of(s[..n], b)[i].lambda <= mu
    decreases n
  {
    if n > 0 {
      assert s[..n][..n - 1] == s[..n - 1];
      OwnLabels(s, n - 1, b, mu);
    }
  }

  /** When all points up to a positive price mu are applied, every block is at an optimal point for mu. */
  lemma ChoiceIsOptimal(s: seq<LambdaPoint>, candidates: seq<seq<Point>>, n: nat, mu: real, b: nat, p: Point)
    requires InHullOrder(s, candidates) && b < |candidates| && p in candidates[b]
    requires n <= |s| && mu > 0.0 && Separates(s, n, mu)
    ensures Choice(s[..n], b) in candidates[b] && Cost(mu, Choice(s[..n], b)) <= Cost(mu, p)
  {
    hide Cost, Covers, IsSlope;
    var own, h := Of(s[..n], b), Of(s, b);
    assert s[..|s|] == s;
    LabelsAround(s, n, b, |s|, mu);
    assert IsHull(b, candidates[b], h);
    assert own != [] by {
      assert h[0].lambda == 0.0;
    }
    var j := |own| - 1;
    assert h[j] == own[j];
    SelectedIsOptimal(b, candidates[b], h, mu, j, p);
  }

  /** The cost of an assignment at price mu is its space plus its time at that price. */
  lemma {:induction false} CheaperBlockByBlock(mu: real, a: seq<Point>, c: seq<Point>)
    requires |a| == |c| && forall b :: 0 <= b < |a| ==> Cost(mu, a[b]) <= Cost(mu, c[b])
    ensures SumSpace(a) as real + Times(mu, SumTime(a)) <= SumSpace(c) as real + Times(mu, SumTime(c))
  {
    hide Times;
    if a == [] {
    } else {
      var n := |a| - 1;
      CheaperBlockByBlock(mu, a[..n], c[..n]);
      TimesSum(mu, SumTime(a[..n]), a[n].time);
      TimesSum(mu, SumTime(c[..n]), c[n].time);
    }
  }

  lemma TimesSum(mu: real, x: real, y: real)
    ensures Times(mu, x + y) == Times(mu, x) + Times(mu, y)
  {
  }

  lemma TimesCancel(mu: real, x: real, y: real)
    requires mu > 0.0 && Times(mu, x) <= Times(mu, y)
    ensures x <= y
  {
    assert x > y ==> mu * (x - y) > 0.0;
  }

  /** No choice of one candidate per block is both at most as large and faster. */
  ghost predicate NotBeaten(chosen: seq<Point>, candidates: seq<seq<Point>>) {
    forall other :: IsAssignment(other, candidates) && SumSpace(other) <= SumSpace(chosen) ==>
      SumTime(chosen) <= SumTime(other)
  }

  lemma SeparatedIsOptimal(s: seq<LambdaPoint>, candidates: seq<seq<Point>>, n: nat, mu: real, other: seq<Point>)
    requires InHullOrder(s, candidates) && IsAssignment(other, candidates)
    requires n <= |s| && mu > 0.0 && Separates(s, n, mu)
    ensures var chosen := Choices(s[..n], |candidates|);
      IsAssignment(chosen, candidates) && (SumSpace(other) <= SumSpace(chosen) ==> SumTime(chosen) <= SumTime(other))
  {
    hide Cost, Times;
    var chosen := Choices(s[..n], |candidates|);
    forall b | 0 <= b < |candidates|
      ensures chosen[b] in candidates[b] && Cost(mu, chosen[b]) <= Cost(mu, other[b])
    {
      ChoiceIsOptimal(s, candidates, n, mu, b, other[b]);
    }
    CheaperBlockByBlock(mu, chosen, other);
    if SumSpace(other) <= SumSpace(chosen) {
      TimesCancel(mu, SumTime(chosen), SumTime(other));
    }
  }

  /**
   * Lagrangian optimality: stop after any point with a positive price, or after the last point, and
   * no other choice of one candidate per block that is at most as large is faster.
   */
  lemma PrefixIsOptimal(s: seq<LambdaPoint>, candidates: seq<seq<Point>>, n: nat)
    requires InHullOrder(s, candidates) && n <= |s|
    requires n == |s| || (n > 0 && s[n - 1].lambda > 0.0)
    requires forall b :: 0 <= b < |candidates| ==> candidates[b] != []
    ensures var chosen := Choices(s[..n], |candidates|);
      IsAssignment(chosen, candidates) && NotBeaten(chosen, candidates)
  {
    hide Choices, SumSpace, SumTime, IsAssignment, InHullOrder, Separates;
    var chosen := Choices(s[..n], |candidates|);
    var mu := SeparatingPrice(s, candidates, n);
    forall other | IsAssignment(other, candidates) && SumSpace(other) <= SumSpace(chosen)
      ensures SumTime(chosen) <= SumTime(other)
    {
      SeparatedIsOptimal(s, candidates, n, mu, other);
    }
    SeparatedIsOptimal(s, candidates, n, mu, AnAssignment(candidates));
  }

  lemma SeparatingPrice(s: seq<LambdaPoint>, candidates: seq<seq<Point>>, n: nat) returns (mu: real)
    requires InHullOrder(s, candidates) && n <= |s|
    requires n == |s| || (n > 0 && s[n - 1].lambda > 0.0)
    ensures mu > 0.0 && Separates(s, n, mu)
  {
    hide Of, IsHull;
    if n == 0 {
      mu := 1.0;
    } else if s[n - 1].lambda > 0.0 {
      mu := s[n - 1].lambda;
    } else {
      mu := 1.0;
    }
  }

  function AnAssignment(candidates: seq<seq<Point>>): (a: seq<Point>)
    requires forall b :: 0 <= b < |candidates| ==> candidates[b] != []
    ensures IsAssignment(a, candidates)
  {
    seq(|candidates|, b requires 0 <= b < |candidates| => candidates[b][0])
  }

  // ---------------------------------------------------------------------------------------------
  // From candidates to the sorted list of points

  lemma OfConcat(s: seq<LambdaPoint>, t: seq<LambdaPoint>, b: nat)
    ensures Of(s + t, b) == Of(s, b) + Of(t, b)
  {
    if t == [] {
      assert s + t == s;
    } else {
      var n := |t| - 1;
      assert (s + t)[..|s| + n] == s + t[..n];
      OfConcat(s, t[..n], b);
    }
  }

  lemma OfUniform(h: seq<LambdaPoint>, own: nat, b: nat)
    requires forall i :: 0 <= i < |h| ==> h[i].blockId == own
    ensures Of(h, b) == if b == own then h else []
  {
    if h != [] {
      OfUniform(h[..|h| - 1], own, b);
    }
  }

  /** prepare(): the hulls of all blocks, one after another. */
  method AllHulls(candidates: seq<seq<Point>>) returns (points: seq<LambdaPoint>)
    requires forall b :: 0 <= b < |candidates| ==> candidates[b] != []
    ensures AreHulls(points, candidates)
  {
    hide IsHull, Of;
    var computer := new LambdasComputer();
    for n := 0 to |candidates|
      invariant HullsUpTo(candidates, n, computer.pointsBuf)
    {
      ghost var buf := computer.pointsBuf;
      ghost var h := computer.AppendLambdas(candidates[n], n);
      NextHull(candidates, n, buf, h);
    }
    points := computer.pointsBuf;
  }

  /** buf holds the hulls of the first n blocks and nothing else. */
  ghost predicate HullsUpTo(candidates: seq<seq<Point>>, n: nat, buf: seq<LambdaPoint>)
    requires n <= |candidates|
  {
    && (forall b :: 0 <= b < n ==> IsHull(b, candidates[b], Of(buf, b)))
    && (forall i :: 0 <= i < |buf| ==> buf[i].blockId < n)
  }

  lemma NextHull(candidates: seq<seq<Point>>, n: nat, buf: seq<LambdaPoint>, h: seq<LambdaPoint>)
    requires n < |candidates| && HullsUpTo(candidates, n, buf) && IsHull(n, candidates[n], h)
    ensures HullsUpTo(candidates, n + 1, buf + h)
  {
    hide IsHull, Of;
    HullIds(n, candidates[n], h);
    forall b | 0 <= b < n + 1
      ensures IsHull(b, candidates[b], Of(buf + h, b))
    {
      OfConcat(buf, h, b);
      OfUniform(h, n, b);
      if b == n {
        OfOthers(buf, n);
        assert [] + h == h;
      } else {
        assert Of(buf, b) + [] == Of(buf, b);
      }
    }
  }

  lemma HullIds(b: nat, points: seq<Point>, h: seq<LambdaPoint>)
    requires IsHull(b, points, h)
    ensures forall i :: 0 <= i < |h| ==> h[i].blockId == b
  {
  }

  /** Within every block the labels do not fall. */
  ghost predicate BlocksAscend(s: seq<LambdaPoint>) {
    forall i, j :: 0 <= i < j < |s| && s[i].blockId == s[j].blockId ==> s[i].lambda <= s[j].lambda
  }

  method InsertByLambda(s: seq<LambdaPoint>, p: LambdaPoint) returns (r: seq<LambdaPoint>)
    requires SortedByLambda(s) && forall i :: 0 <= i < |s| && s[i].blockId == p.blockId ==> s[i].lambda <= p.lambda
    ensures SortedByLambda(r) && multiset(r) == multiset(s) + multiset{p}
    ensures forall b: nat :: Of(r, b) == Of(s + [p], b)
  {
    hide Of;
    var at := |s|;
    while at > 0 && s[at - 1].lambda > p.lambda
      invariant 0 <= at <= |s|
      invariant forall i :: at <= i < |s| ==> s[i].lambda > p.lambda
    {
      at := at - 1;
    }
    r := s[..at] + ([p] + s[at..]);
    InsertedMultiset(s, at, p);
    InsertedBlocks(s, at, p);
  }

  lemma InsertedMultiset(s: seq<LambdaPoint>, at: nat, p: LambdaPoint)
    requires at <= |s|
    ensures multiset(s[..at] + ([p] + s[at..])) == multiset(s) + multiset{p}
  {
    assert s == s[..at] + s[at..];
  }

  lemma InsertedBlocks(s: seq<LambdaPoint>, at: nat, p: LambdaPoint)
    requires at <= |s| && forall i :: at <= i < |s| ==> s[i].blockId != p.blockId
    ensures forall b: nat :: Of(s[..at] + ([p] + s[at..]), b) == Of(s + [p], b)
  {
    hide Of;
    forall b: nat
      ensures Of(s[..at] + ([p] + s[at..]), b) == Of(s + [p], b)
    {
      OfInserted(s[..at], s[at..], p, b);
      assert s + [p] == s[..at] + (s[at..] + [p]);
    }
  }

  lemma OfInserted(s: seq<LambdaPoint>, t: seq<LambdaPoint>, p: LambdaPoint, b: nat)
    requires forall i :: 0 <= i < |t| ==> t[i].blockId != p.blockId
    ensures Of(s + ([p] + t), b) == Of(s + (t + [p]), b)
  {
    OfConcat(s, [p] + t, b);
    OfConcat([p], t, b);
    OfConcat(s, t + [p], b);
    OfConcat(t, [p], b);
    OfOne(p, b);
    if b == p.blockId {
      OfOthers(t, b);
    }
  }

  lemma OfOne(p: LambdaPoint, b: nat)
    ensures Of([p], b) == if b == p.blockId then [p] else []
  {
    assert [p][..0] == [];
  }

  lemma OfOthers(t: seq<LambdaPoint>, b: nat)
    requires forall i :: 0 <= i < |t| ==> t[i].blockId != b
    ensures Of(t, b) == []
  {
  }

  /** The sort by lambda, taken to keep the order of points of one block that have equal labels. */
  method SortByLambda(points: seq<LambdaPoint>) returns (s: seq<LambdaPoint>)
    requires BlocksAscend(points)
    ensures SortedByLambda(s) && multiset(s) == multiset(points)
    ensures forall b: nat :: Of(s, b) == Of(points, b)
  {
    hide Of;
    s := [];
    for n := 0 to |points|
      invariant SortedByLambda(s) && multiset(s) == multiset(points[..n])
      invariant forall b: nat :: Of(s, b) == Of(points[..n], b)
    {
      assert points[..n + 1] == points[..n] + [points[n]];
      forall i | 0 <= i < |s| && s[i].blockId == points[n].blockId
        ensures s[i].lambda <= points[n].lambda
      {
        assert s[i] in multiset(points[..n]);
        var j :| 0 <= j < n && points[..n][j] == s[i];
        assert points[j].blockId == points[n].blockId;
      }
      ghost var was := s;
      s := InsertByLambda(s, points[n]);
      forall b: nat
        ensures Of(s, b) == Of(points[..n + 1], b)
      {
        OfConcat(was, [points[n]], b);
        OfConcat(points[..n], [points[n]], b);
      }
    }
    assert points[..|points|] == points;
  }

  lemma HullsAscend(points: seq<LambdaPoint>, candidates: seq<seq<Point>>)
    requires AreHulls(points, candidates)
    ensures BlocksAscend(points)
  {
    hide Covers, IsSlope;
    forall i, j | 0 <= i < j < |points| && points[i].blockId == points[j].blockId
      ensures points[i].lambda <= points[j].lambda
    {
      var b := points[i].blockId;
      var h := Of(points, b);
      var p, q := OfKeepsOrder(points, i, j);
      assert IsHull(b, candidates[b], h);
      ChainIsMonotone(b, h, p, q);
    }
  }

  lemma {:induction false} OfKeepsOrder(s: seq<LambdaPoint>, i: nat, j: nat) returns (p: nat, q: nat)
    requires i < j < |s| && s[i].blockId == s[j].blockId
    ensures var own := Of(s, s[i].blockId);
      p < q < |own| && own[p] == s[i] && own[q] == s[j]
  {
    var n := |s| - 1;
    if j < n {
      p, q := OfKeepsOrder(s[..n], i, j);
    } else {
      p := OfMember(s[..n], i);
      q := |Of(s, s[i].blockId)| - 1;
    }
  }

  lemma {:induction false} OfMember(s: seq<LambdaPoint>, i: nat) returns (p: nat)
    requires i < |s|
    ensures var own := Of(s, s[i].blockId);
      p < |own| && own[p] == s[i]
  {
    var n := |s| - 1;
    if i < n {
      p := OfMember(s[..n], i);
    } else {
      p := |Of(s, s[i].blockId)| - 1;
    }
  }

  /** points are the hulls of all blocks, and nothing else. */
  ghost predicate AreHulls(points: seq<LambdaPoint>, candidates: seq<seq<Point>>) {
    && (forall b :: 0 <= b < |candidates| ==> IsHull(b, candidates[b], Of(points, b)))
    && (forall i :: 0 <= i < |points| ==> points[i].blockId < |candidates|)
  }

  /** s are the same points by price, in whatever order a sort leaves those with equal labels. */
  ghost predicate SortedFrom(points: seq<LambdaPoint>, s: seq<LambdaPoint>) {
    SortedByLambda(s) && multiset(s) == multiset(points)
  }

  /**
   * The first n of the points s are applied. They stay within the budget until the last one, and
   * further points are left only if that one exceeds it.
   */
  ghost predicate IsPass(m: nat, s: seq<LambdaPoint>, n: nat, spaceBase: nat, budget: nat,
                         curSpace: nat, curTime: real, blockCodecs: seq<nat>)
  {
    && n <= |s|
    && (var chosen := Choices(s[..n], m);
        && curSpace == spaceBase + SumSpace(chosen) && curTime == SumTime(chosen)
        && |blockCodecs| == m && forall b :: 0 <= b < m ==> blockCodecs[b] == chosen[b].codec)
    && (forall i :: 1 <= i < n ==> GoesOn(s, i, m, spaceBase, budget))
    && (n < |s| ==> n > 0 && s[n - 1].lambda > 0.0 && curSpace > budget > 0)
  }

  /** A selection that no other one beats. */
  ghost predicate IsSelection(candidates: seq<seq<Point>>, s: seq<LambdaPoint>, n: nat, spaceBase: nat, budget: nat,
                              curSpace: nat, curTime: real, blockCodecs: seq<nat>)
  {
    && InHullOrder(s, candidates)
    && IsPass(|candidates|, s, n, spaceBase, budget, curSpace, curTime, blockCodecs)
    && var chosen := Choices(s[..n], |candidates|);
      IsAssignment(chosen, candidates) && NotBeaten(chosen, candidates)
  }

  /** The greedy loop after any sort of the hull points: the selection is optimal if ties are in hull order. */
  method Select(candidates: seq<seq<Point>>, ghost points: seq<LambdaPoint>, s: seq<LambdaPoint>, spaceBase: nat,
                budget: nat)
    returns (curSpace: nat, curTime: real, blockCodecs: array<nat>, ghost n: nat)
    requires forall b :: 0 <= b < |candidates| ==> candidates[b] != []
    requires AreHulls(points, candidates) && SortedFrom(points, s)
    ensures IsPass(|candidates|, s, n, spaceBase, budget, curSpace, curTime, blockCodecs[..])
    ensures InHullOrder(s, candidates) ==>
      IsSelection(candidates, s, n, spaceBase, budget, curSpace, curTime, blockCodecs[..])
    ensures InHullOrder(s, candidates) && budget > 0 ==> WithinBudgetIff(candidates, spaceBase, budget, curSpace)
  {
    hide Of, Choices, SumSpace, SumTime, IsHull, NotBeaten, GoesOn, InHullOrder, IsAssignment;
    SamePoints(s, points, |candidates|);
    var applied;
    applied, curSpace, curTime, blockCodecs := Greedy(s, |candidates|, spaceBase, budget);
    n := applied;
    if InHullOrder(s, candidates) {
      PrefixIsOptimal(s, candidates, n);
      if budget > 0 {
        FitsIffFastestFits(candidates, s, n, spaceBase, budget, curSpace);
      }
    }
  }

  /**
   * The whole selection, with a sort that keeps the hull order of ties. The encodings it settles on
   * cannot be beaten: every other choice of one candidate per block is larger or at least as slow.
   */
  method Optimize(candidates: seq<seq<Point>>, spaceBase: nat, budget: nat)
    returns (curSpace: nat, curTime: real, blockCodecs: array<nat>)
    requires forall b :: 0 <= b < |candidates| ==> candidates[b] != []
    ensures exists s, n: nat :: IsSelection(candidates, s, n, spaceBase, budget, curSpace, curTime, blockCodecs[..])
    ensures budget > 0 ==> WithinBudgetIff(candidates, spaceBase, budget, curSpace)
  {
    hide Of, Choices, SumSpace, SumTime, IsHull, NotBeaten, GoesOn, WithinBudgetIff;
    var points := AllHulls(candidates);
    HullsAscend(points, candidates);
    var s := SortByLambda(points);
    ghost var n;
    curSpace, curTime, blockCodecs, n := Select(candidates, points, s, spaceBase, budget);
  }

  // ---------------------------------------------------------------------------------------------
  // The budget

  /** The fastest candidate of every block, and the smallest of the fastest. */
  ghost predicate IsFastest(a: seq<Point>, candidates: seq<seq<Point>>) {
    IsAssignment(a, candidates) && forall b, p :: 0 <= b < |candidates| && p in candidates[b] ==> NotSlower(a[b], p)
  }

  /** The budget holds exactly if it holds for the fastest candidates of all blocks together. */
  ghost predicate WithinBudgetIff(candidates: seq<seq<Point>>, spaceBase: nat, budget: nat, curSpace: nat) {
    && (exists a :: IsFastest(a, candidates))
    && forall a :: IsFastest(a, candidates) ==> (curSpace <= budget <==> spaceBase + SumSpace(a) <= budget)
  }

  lemma {:induction false} OfPrefix(s: seq<LambdaPoint>, n: nat, b: nat)
    requires n <= |s|
    ensures Of(s[..n], b) <= Of(s, b)
  {
    if n == |s| {
      assert s[..n] == s;
    } else {
      var k := |s| - 1;
      OfPrefix(s[..k], n, b);
      assert s[..k][..n] == s[..n];
    }
  }

  lemma OfNext(s: seq<LambdaPoint>, n: nat)
    requires n < |s|
    ensures s[..n + 1] == s[..n] + [s[n]] && Of(s[..n + 1], s[n].blockId) == Of(s[..n], s[n].blockId) + [s[n]]
  {
    assert s[..n + 1][..n] == s[..n];
  }

  /** Applying the next point never makes the total smaller. */
  lemma SpaceGrows(s: seq<LambdaPoint>, candidates: seq<seq<Point>>, n: nat)
    requires InHullOrder(s, candidates) && n < |s| && s[n].blockId < |candidates|
    ensures SumSpace(Choices(s[..n], |candidates|)) <= SumSpace(Choices(s[..n + 1], |candidates|))
  {
    hide IsSlope, Covers, SumSpace, Choices, Of;
    var b := s[n].blockId;
    var own := Of(s[..n], b);
    OfNext(s, n);
    OfPrefix(s, n + 1, b);
    if own != [] {
      assert IsHull(b, candidates[b], Of(s, b));
      ChainGrows(b, Of(s, b), |own| - 1, |own|);
    }
    ChoicesOfNext(s[..n], s[n], |candidates|);
    SumsOfReplaced(Choices(s[..n], |candidates|), b, s[n].st);
  }

  lemma {:induction false} SpacesGrow(s: seq<LambdaPoint>, candidates: seq<seq<Point>>, n: nat, k: nat)
    requires InHullOrder(s, candidates) && n <= k <= |s| && forall i :: 0 <= i < |s| ==> s[i].blockId < |candidates|
    ensures SumSpace(Choices(s[..n], |candidates|)) <= SumSpace(Choices(s[..k], |candidates|))
    decreases k
  {
    if n < k {
      SpacesGrow(s, candidates, n, k - 1);
      SpaceGrows(s, candidates, k - 1);
    }
  }

  lemma {:induction false} SameSpaces(a: seq<Point>, c: seq<Point>)
    requires |a| == |c| && forall b :: 0 <= b < |a| ==> a[b].space == c[b].space
    ensures SumSpace(a) == SumSpace(c)
  {
    if a != [] {
      SameSpaces(a[..|a| - 1], c[..|c| - 1]);
    }
  }

  /** With all points applied, every block is at its fastest candidate. */
  lemma AllAppliedIsFastest(s: seq<LambdaPoint>, candidates: seq<seq<Point>>, a: seq<Point>)
    requires InHullOrder(s, candidates) && IsFastest(a, candidates)
    ensures SumSpace(Choices(s, |candidates|)) == SumSpace(a)
  {
    hide Of, Covers, IsSlope;
    var all := Choices(s, |candidates|);
    forall b | 0 <= b < |candidates|
      ensures all[b].space == a[b].space
    {
      var h := Of(s, b);
      assert IsHull(b, candidates[b], h);
      LastIsFastest(b, candidates[b], h, a[b]);
      assert NotSlower(a[b], h[|h| - 1].st);
    }
    SameSpaces(all, a);
  }

  lemma LastPointsAreFastest(s: seq<LambdaPoint>, candidates: seq<seq<Point>>)
    requires InHullOrder(s, candidates)
    ensures IsFastest(Choices(s, |candidates|), candidates)
  {
    hide Of, Covers, IsSlope;
    var all := Choices(s, |candidates|);
    forall b | 0 <= b < |candidates|
      ensures all[b] in candidates[b] && forall p :: p in candidates[b] ==> NotSlower(all[b], p)
    {
      var h := Of(s, b);
      assert IsHull(b, candidates[b], h);
      forall p | p in candidates[b]
        ensures NotSlower(all[b], p)
      {
        LastIsFastest(b, candidates[b], h, p);
      }
    }
  }

  lemma FitsIffFastestFits(candidates: seq<seq<Point>>, s: seq<LambdaPoint>, n: nat, spaceBase: nat, budget: nat,
                           curSpace: nat)
    requires InHullOrder(s, candidates) && n <= |s| && forall i :: 0 <= i < |s| ==> s[i].blockId < |candidates|
    requires curSpace == spaceBase + SumSpace(Choices(s[..n], |candidates|))
    requires n < |s| ==> curSpace > budget
    ensures WithinBudgetIff(candidates, spaceBase, budget, curSpace)
  {
    hide InHullOrder, IsFastest, Choices, SumSpace;
    assert s[..|s|] == s;
    SpacesGrow(s, candidates, n, |s|);
    LastPointsAreFastest(s, candidates);
    forall a | IsFastest(a, candidates)
      ensures curSpace <= budget <==> spaceBase + SumSpace(a) <= budget
    {
      AllAppliedIsFastest(s, candidates, a);
    }
  }

  /** A selection that exceeds the budget although the smallest encodings are within it. */
  method BudgetCanBeExceeded()
    returns (candidates: seq<seq<Point>>, budget: nat, curSpace: nat, curTime: real, blockCodecs: array<nat>)
    ensures exists s, n: nat :: IsSelection(candidates, s, n, 0, budget, curSpace, curTime, blockCodecs[..])
    ensures curSpace > budget && exists small :: IsAssignment(small, candidates) && SumSpace(small) <= budget
  {
    hide IsSelection;
    var p, q := Point(0, 1.0, 0), Point(10, 0.0, 1);
    candidates, budget := [[p, q]], 5;
    curSpace, curTime, blockCodecs := Optimize(candidates, 0, budget);
    assert candidates[0][0] == p && candidates[0][1] == q;
    assert [q][..0] == [] && [p][..0] == [];
    ghost var small, fastest := [p], [q];
    assert IsFastest(fastest, candidates) && SumSpace(fastest) == 10;
    assert IsAssignment(small, candidates) && SumSpace(small) == 0;
  }

  lemma SamePoints(s: seq<LambdaPoint>, points: seq<LambdaPoint>, m: nat)
    requires multiset(s) == multiset(points) && forall i :: 0 <= i < |points| ==> points[i].blockId < m
    ensures forall i :: 0 <= i < |s| ==> s[i].blockId < m
  {
    forall i | 0 <= i < |s|
      ensures s[i].blockId < m
    {
      assert s[i] in multiset(points);
    }
  }
}
