/** Splitting a sequence into partitions by an approximate shortest path (optimal_partition.hpp). */
module OptimalPartition {
  // Node i stands for "the first i elements are split"; a window per cost bound slides over the sequence
  // and proposes the edges.

  import opened MonotoneSequence

  const POSTINGS := 0x1_0000_0000

  /** The values, the cost of encoding n values below u, and the bound on all values. */
  datatype Problem = Problem(v: seq<nat>, cost: (nat, nat) -> nat, universe: nat) {
    ghost predicate Valid() {
      0 < |v| < POSTINGS && Increasing(v)
    }

    /** The first value that can occur at position i. */
    function Base(i: nat): nat
      requires i <= |v| && v != []
    {
      if i == 0 then v[0] else v[i - 1] + 1
    }

    /** The cost of storing positions i to e as one piece; the 32-bit arithmetic wraps around. */
    function Piece(i: nat, e: nat): nat
      requires i < e <= |v|
    {
      cost((v[e - 1] - Base(i) + 1) % POSTINGS, e - i)
    }

    function Single(): nat {
      cost(universe, |v|)
    }

    /** The cost of the pieces that end at the given cuts, from position `from` on. */
    ghost function Pieces(from: nat, cuts: seq<nat>): nat
      requires AreCuts(from, cuts)
      decreases |cuts|
    {
      if cuts == [] then 0 else
        assert AreCuts(cuts[0], cuts[1..]);
        Piece(from, cuts[0]) + Pieces(cuts[0], cuts[1..])
    }

    ghost predicate AreCuts(from: nat, cuts: seq<nat>) {
      && (forall k :: 0 <= k < |cuts| ==> from < cuts[k] <= |v|)
      && (forall k, l :: 0 <= k < l < |cuts| ==> cuts[k] < cuts[l])
    }

    /** The first end from e on at which a piece that starts at i costs the bound, or the last position. */
    ghost function FirstEnd(i: nat, bound: nat, e: nat): (r: nat)
      requires i < e <= |v|
      ensures e <= r <= |v| && (r == |v| || Piece(i, r) >= bound)
      ensures forall k :: e <= k < r ==> Piece(i, k) < bound
      decreases |v| - e
    {
      if e == |v| || Piece(i, e) >= bound then e else FirstEnd(i, bound, e + 1)
    }

    /** A window inside another one costs no more. */
    ghost predicate Monotone() {
      forall i, e, i', e' :: 0 <= i' <= i < e <= e' <= |v| ==> Piece(i, e) <= Piece(i', e')
    }
  }

  lemma FirstEndIsLeast(p: Problem, i: nat, bound: nat, e: nat, r: nat)
    requires i < e <= r <= |p.v| && (forall k :: e <= k < r ==> p.Piece(i, k) < bound)
    requires r == |p.v| || p.Piece(i, r) >= bound
    ensures p.FirstEnd(i, bound, e) == r
  {
  }

  lemma FirstEndStep(p: Problem, i: nat, bound: nat, e: nat)
    requires i < e <= |p.v|
    ensures p.FirstEnd(i, bound, e) ==
      if e == |p.v| || p.Piece(i, e) >= bound then e else p.FirstEnd(i, bound, e + 1)
  {
  }

  // ---------------------------------------------------------------------------------------------
  // The bounds of the windows

  function NextBound(c: nat, eps2: real): nat
    requires eps2 >= 0.0
  {
    assert c as real * (1.0 + eps2) >= 0.0;
    (c as real * (1.0 + eps2)).Floor
  }

  predicate Opens(c: nat, lb: nat, eps1: real) {
    eps1 == 0.0 || (c as real) < lb as real / eps1
  }

  /** After the window for bound c another one may follow. */
  predicate Continues(c: nat, lb: nat, single: nat, eps1: real) {
    Opens(c, lb, eps1) && c < single
  }

  ghost function BoundAfter(k: nat, lb: nat, eps2: real): nat
    requires eps2 >= 0.0
  {
    if k == 0 then lb else NextBound(BoundAfter(k - 1, lb, eps2), eps2)
  }

  predicate Grows(lb: nat, eps2: real) {
    lb as real * eps2 >= 1.0
  }

  ghost predicate BoundsEnd(lb: nat, single: nat, eps1: real, eps2: real) {
    Continues(lb, lb, single, eps1) ==> Grows(lb, eps2)
  }

  lemma NextBoundGrows(c: nat, lb: nat, eps2: real)
    requires eps2 >= 0.0 && lb <= c
    ensures Grows(lb, eps2) ==> NextBound(c, eps2) > c
    ensures !Grows(lb, eps2) ==> NextBound(lb, eps2) == lb
  {
    assert c as real * (1.0 + eps2) == c as real + c as real * eps2;
    assert lb as real * (1.0 + eps2) == lb as real + lb as real * eps2;
    assert (c as real - lb as real) * eps2 >= 0.0;
    assert lb as real * eps2 >= 0.0;
  }

  lemma {:induction false} BoundsAfter(k: nat, lb: nat, eps2: real)
    requires eps2 >= 0.0
    ensures Grows(lb, eps2) ==> BoundAfter(k, lb, eps2) >= lb + k
    ensures !Grows(lb, eps2) ==> BoundAfter(k, lb, eps2) == lb
  {
    if k > 0 {
      BoundsAfter(k - 1, lb, eps2);
      if Grows(lb, eps2) {
        NextBoundGrows(BoundAfter(k - 1, lb, eps2), lb, eps2);
      } else {
        NextBoundGrows(lb, lb, eps2);
      }
    }
  }

  /** The loop that creates the windows ends exactly when it stops at once or the least cost times eps2 reaches 1. */
  lemma BoundsEndIff(lb: nat, single: nat, eps1: real, eps2: real)
    requires eps2 >= 0.0
    ensures BoundsEnd(lb, single, eps1, eps2) <==>
      exists k: nat :: !Continues(BoundAfter(k, lb, eps2), lb, single, eps1)
  {
    if BoundsEnd(lb, single, eps1, eps2) {
      var k := if Continues(lb, lb, single, eps1) then single else 0;
      BoundsAfter(k, lb, eps2);
      assert !Continues(BoundAfter(k, lb, eps2), lb, single, eps1);
    } else {
      forall k: nat
        ensures Continues(BoundAfter(k, lb, eps2), lb, single, eps1)
      {
        BoundsAfter(k, lb, eps2);
      }
    }
  }

  ghost predicate Ascending(bounds: seq<nat>) {
    forall j, k :: 0 <= j < k < |bounds| ==> bounds[j] < bounds[k]
  }

  /** The bounds are the first values of BoundAfter; only the last one may reach the cost of a single piece. */
  ghost predicate AreBounds(bounds: seq<nat>, lb: nat, single: nat, eps1: real, eps2: real)
    requires eps2 >= 0.0
  {
    && Ascending(bounds)
    && (forall k :: 0 <= k < |bounds| ==> bounds[k] == BoundAfter(k, lb, eps2) && Opens(bounds[k], lb, eps1))
    && (forall k :: 0 <= k < |bounds| - 1 ==> bounds[k] < single)
  }

  /** All bounds for which a window opens: the last one reaches the cost of a single piece, or the next is too large. */
  ghost predicate WindowBounds(bounds: seq<nat>, lb: nat, single: nat, eps1: real, eps2: real)
    requires eps2 >= 0.0
  {
    && AreBounds(bounds, lb, single, eps1, eps2)
    && ((bounds != [] && bounds[|bounds| - 1] >= single) || !Opens(BoundAfter(|bounds|, lb, eps2), lb, eps1))
  }

  /** The parameters determine the windows. */
  lemma WindowBoundsUnique(a: seq<nat>, b: seq<nat>, lb: nat, single: nat, eps1: real, eps2: real)
    requires eps2 >= 0.0 && WindowBounds(a, lb, single, eps1, eps2) && WindowBounds(b, lb, single, eps1, eps2)
    ensures a == b
  {
    LongestBounds(a, b, lb, single, eps1, eps2);
    LongestBounds(b, a, lb, single, eps1, eps2);
  }

  lemma LongestBounds(a: seq<nat>, b: seq<nat>, lb: nat, single: nat, eps1: real, eps2: real)
    requires eps2 >= 0.0 && WindowBounds(a, lb, single, eps1, eps2) && AreBounds(b, lb, single, eps1, eps2)
    ensures |b| <= |a|
  {
  }

  lemma AddBound(bounds: seq<nat>, bound: nat, lb: nat, single: nat, eps1: real, eps2: real)
    requires eps2 >= 0.0 && AreBounds(bounds, lb, single, eps1, eps2)
    requires bound == BoundAfter(|bounds|, lb, eps2) && Opens(bound, lb, eps1)
    requires forall k :: 0 <= k < |bounds| ==> bounds[k] < bound && bounds[k] < single
    ensures AreBounds(bounds + [bound], lb, single, eps1, eps2)
  {
  }

  /** One bound for each power of 1 + eps2, rounded down, as long as bounds matter. */
  method Bounds(lb: nat, single: nat, eps1: real, eps2: real) returns (bounds: seq<nat>)
    requires eps2 >= 0.0 && BoundsEnd(lb, single, eps1, eps2)
    ensures WindowBounds(bounds, lb, single, eps1, eps2)
  {
    hide NextBound, Opens, Grows;
    var bound := lb;
    bounds := [];
    while Opens(bound, lb, eps1)
      invariant bound == BoundAfter(|bounds|, lb, eps2) && bound >= lb
      invariant AreBounds(bounds, lb, single, eps1, eps2)
      invariant bound == lb || Grows(lb, eps2)
      invariant forall k :: 0 <= k < |bounds| ==> bounds[k] < bound && bounds[k] < single
      decreases single as int - bound as int
    {
      AddBound(bounds, bound, lb, single, eps1, eps2);
      bounds := bounds + [bound];
      if bound >= single {
        break;
      }
      NextBoundGrows(bound, lb, eps2);
      bound := NextBound(bound, eps2);
    }
  }

  // ---------------------------------------------------------------------------------------------
  // Shortest paths

  /** What the tables say once all nodes before i and perhaps node i itself have proposed edges. */
  ghost predicate Tables(p: Problem, i: nat, minCost: seq<nat>, path: seq<nat>) {
    && |minCost| == |path| == |p.v| + 1 && minCost[0] == 0 && path[0] == 0
    && forall e :: 1 <= e <= |p.v| ==> Untouched(p, e, minCost, path) || Reached(p, i, e, minCost, path)
  }

  ghost predicate Untouched(p: Problem, e: nat, minCost: seq<nat>, path: seq<nat>)
    requires e < |minCost| == |path|
  {
    minCost[e] == p.Single() && path[e] == 0
  }

  ghost predicate Reached(p: Problem, i: nat, e: nat, minCost: seq<nat>, path: seq<nat>)
    requires e < |minCost| == |path| == |p.v| + 1
  {
    && path[e] < e && path[e] <= i
    && minCost[e] == minCost[path[e]] + p.Piece(path[e], e) && minCost[e] < p.Single()
  }

  /** The end that the windows before window j have reached at node i. */
  ghost function LastEnd(p: Problem, bounds: seq<nat>, i: nat, j: nat): (r: nat)
    requires i < |p.v| && j <= |bounds|
    ensures i < r <= |p.v|
  {
    if j == 0 then i + 1 else p.FirstEnd(i, bounds[j - 1], i + 1)
  }

  /**
   * Where window j starts to propose ends at node i: not before the end it reached at the node before,
   * nor before the end that the window before it has reached.
   */
  ghost function FirstOffer(p: Problem, bounds: seq<nat>, i: nat, j: nat): (r: nat)
    requires i < |p.v| && j < |bounds|
    ensures i < r <= |p.v|
  {
    var reached := if i == 0 then 0 else p.FirstEnd(i - 1, bounds[j], i);
    var last := LastEnd(p, bounds, i, j);
    if reached < last then last else reached
  }

  /** Window j proposes the edge from i to e: every end that it passes, up to the first one to reach its bound. */
  ghost predicate Offers(p: Problem, bounds: seq<nat>, i: nat, j: nat, e: nat)
    requires i < |p.v| && j < |bounds|
  {
    FirstOffer(p, bounds, i, j) <= e <= p.FirstEnd(i, bounds[j], i + 1)
  }

  /** The edges that window j proposes at node i have been taken into account. */
  ghost predicate Relaxed(p: Problem, bounds: seq<nat>, i: nat, j: nat, minCost: seq<nat>)
    requires i < |p.v| && |minCost| == |p.v| + 1 && j < |bounds|
  {
    forall e: nat :: Offers(p, bounds, i, j, e) ==> minCost[e] <= minCost[i] + p.Piece(i, e)
  }

  /** Edges are relaxed from node i to the ends given, and nothing else changes. */
  ghost predicate Proposed(p: Problem, i: nat, from: nat, to: nat, before: seq<nat>, beforePath: seq<nat>,
                           after: seq<nat>, afterPath: seq<nat>)
    requires i < from && to <= |p.v|
  {
    && |before| == |after| == |beforePath| == |afterPath| == |p.v| + 1
    && forall e :: 0 <= e <= |p.v| ==>
         if from <= e <= to && before[i] + p.Piece(i, e) < before[e]
         then after[e] == before[i] + p.Piece(i, e) && afterPath[e] == i
         else after[e] == before[e] && afterPath[e] == beforePath[e]
  }

  lemma NothingProposed(p: Problem, i: nat, from: nat, minCost: seq<nat>, path: seq<nat>)
    requires i < from <= |p.v| && |minCost| == |path| == |p.v| + 1
    ensures Proposed(p, i, from, from - 1, minCost, path, minCost, path)
  {
  }

  lemma OneMoreProposed(p: Problem, i: nat, from: nat, e: nat, before: seq<nat>, beforePath: seq<nat>,
                        minCost: seq<nat>, path: seq<nat>, after: seq<nat>, afterPath: seq<nat>)
    requires i < from <= e <= |p.v|
    requires Proposed(p, i, from, e - 1, before, beforePath, minCost, path)
    requires Proposed(p, i, e, e, minCost, path, after, afterPath)
    ensures Proposed(p, i, from, e, before, beforePath, after, afterPath)
  {
    hide Problem.Piece;
    assert minCost[i] == before[i];
  }

  lemma ProposedImproves(p: Problem, i: nat, from: nat, to: nat, before: seq<nat>, beforePath: seq<nat>,
                         after: seq<nat>, afterPath: seq<nat>)
    requires i < from && to <= |p.v| && i < |p.v| && Proposed(p, i, from, to, before, beforePath, after, afterPath)
    ensures Improves(i, before, after)
  {
    hide Problem.Piece;
  }

  lemma ProposedIsRelaxed(p: Problem, bounds: seq<nat>, i: nat, j: nat, from: nat, to: nat,
                          before: seq<nat>, beforePath: seq<nat>, after: seq<nat>, afterPath: seq<nat>)
    requires i < |p.v| && j < |bounds| && from == FirstOffer(p, bounds, i, j) && to == p.FirstEnd(i, bounds[j], i + 1)
    requires Proposed(p, i, from, to, before, beforePath, after, afterPath)
    ensures Relaxed(p, bounds, i, j, after)
  {
    hide Problem.Piece, FirstOffer;
    assert after[i] == before[i];
  }

  /** Node i is being processed: its own entry and those before stay, the others only go down. */
  ghost predicate Improves(i: nat, before: seq<nat>, after: seq<nat>) {
    && |before| == |after| && i < |before|
    && (forall k :: 0 <= k <= i ==> after[k] == before[k])
    && (forall k :: 0 <= k < |after| ==> after[k] <= before[k])
  }

  lemma StillRelaxed(p: Problem, bounds: seq<nat>, i: nat, k: nat, j: nat, before: seq<nat>, after: seq<nat>)
    requires k <= i < |p.v| && |before| == |p.v| + 1 && Improves(i, before, after) && j < |bounds|
    requires Relaxed(p, bounds, k, j, before)
    ensures Relaxed(p, bounds, k, j, after)
  {
    hide FirstOffer, Problem.Piece;
  }

  lemma RelaxEdge(p: Problem, i: nat, e: nat, minCost: seq<nat>, path: seq<nat>)
    requires p.Valid() && i < e <= |p.v| && Tables(p, i, minCost, path)
    requires minCost[i] + p.Piece(i, e) < minCost[e]
    ensures Tables(p, i, minCost[e := minCost[i] + p.Piece(i, e)], path[e := i])
  {
    var minCost', path' := minCost[e := minCost[i] + p.Piece(i, e)], path[e := i];
    forall k | 1 <= k <= |p.v|
      ensures Untouched(p, k, minCost', path') || Reached(p, i, k, minCost', path')
    {
      assert Untouched(p, k, minCost, path) || Reached(p, i, k, minCost, path);
    }
  }

  /** cost_window: positions start to end and the values around them, in 32 bits. */
  datatype CostWindow = CostWindow(start: nat, end: nat, minP: nat, maxP: nat, bound: nat) {
    ghost predicate Valid(p: Problem) {
      && p.v != [] && start <= |p.v| && end <= |p.v|
      && minP == p.Base(start) % POSTINGS && (end > 0 ==> maxP == p.v[end - 1] % POSTINGS)
    }

    function Universe(): nat {
      (maxP - minP + 1) % POSTINGS
    }

    function AdvanceStart(p: Problem): CostWindow
      requires start < |p.v|
    {
      this.(minP := (p.v[start] + 1) % POSTINGS, start := start + 1)
    }

    function AdvanceEnd(p: Problem): CostWindow
      requires end < |p.v|
    {
      this.(maxP := p.v[end] % POSTINGS, end := end + 1)
    }
  }

  /** Wrap-around cancels out: the window knows the cost of the piece it covers. */
  lemma WindowCost(p: Problem, w: CostWindow)
    requires w.Valid(p) && w.start < w.end
    ensures p.cost(w.Universe(), w.end - w.start) == p.Piece(w.start, w.end)
  {
    hide Increasing;
    WrapsAway(p.v[w.end - 1], p.Base(w.start));
  }

  /** Reducing both ends first does not matter. */
  lemma WrapsAway(a: nat, b: nat)
    ensures (a % POSTINGS - b % POSTINGS + 1) % POSTINGS == (a - b + 1) % POSTINGS
  {
    var qa, qb := a / POSTINGS, b / POSTINGS;
    assert a - b + 1 == (a % POSTINGS - b % POSTINGS + 1) + (qa - qb) * POSTINGS;
  }

  /** Takes one edge into account. */
  method Relax(p: Problem, i: nat, e: nat, cost: nat, minCost: array<nat>, path: array<nat>)
    requires p.Valid() && i < e <= |p.v| && cost == p.Piece(i, e)
    requires minCost != path && Tables(p, i, minCost[..], path[..])
    modifies minCost, path
    ensures Tables(p, i, minCost[..], path[..])
    ensures Proposed(p, i, e, e, old(minCost[..]), old(path[..]), minCost[..], path[..])
  {
    if minCost[i] + cost < minCost[e] {
      RelaxEdge(p, i, e, minCost[..], path[..]);
      minCost[e] := minCost[i] + cost;
      path[e] := i;
    }
  }

  /** The window follows the windows before it. */
  method CatchUp(p: Problem, window: CostWindow, lastEnd: nat) returns (w: CostWindow)
    requires window.Valid(p) && lastEnd <= |p.v|
    ensures w.Valid(p) && w.start == window.start && w.bound == window.bound
    ensures w.end == if window.end < lastEnd then lastEnd else window.end
  {
    w := window;
    while w.end < lastEnd
      invariant w.Valid(p) && w.start == window.start && w.bound == window.bound
      invariant w.end == window.end || window.end < w.end <= lastEnd
    {
      w := w.AdvanceEnd(p);
    }
  }

  /**
   * One window at node i: it first catches up with the windows before it, then proposes edges up to
   * the first end whose cost reaches its bound. `calls` counts the evaluations of the cost function.
   */
  method Propose(p: Problem, i: nat, window: CostWindow, lastEnd: nat, minCost: array<nat>, path: array<nat>)
    returns (w: CostWindow, ghost calls: nat)
    requires p.Valid() && window.Valid(p) && window.start == i < lastEnd <= |p.v|
    requires minCost != path && Tables(p, i, minCost[..], path[..])
    modifies minCost, path
    ensures Tables(p, i, minCost[..], path[..])
    ensures w.Valid(p) && w.start == i + 1 && w.bound == window.bound
    ensures var from := if window.end < lastEnd then lastEnd else window.end;
      && w.end == p.FirstEnd(i, w.bound, from)
      && calls == w.end - from + 1
      && Proposed(p, i, from, w.end, old(minCost[..]), old(path[..]), minCost[..], path[..])
  {
    hide Tables, Problem.Piece, Problem.FirstEnd, CostWindow.Universe, Proposed;
    w := CatchUp(p, window, lastEnd);
    calls := 0;
    ghost var from := w.end;
    TableSizes(p, i, minCost[..], path[..]);
    NothingProposed(p, i, from, minCost[..], path[..]);
    while true
      invariant w.Valid(p) && w.start == i && w.bound == window.bound && w.end >= from && calls == w.end - from
      invariant p.FirstEnd(i, w.bound, from) == p.FirstEnd(i, w.bound, w.end)
      invariant Tables(p, i, minCost[..], path[..])
      invariant Proposed(p, i, from, w.end - 1, old(minCost[..]), old(path[..]), minCost[..], path[..])
      decreases |p.v| - w.end
    {
      ghost var was, wasPath := minCost[..], path[..];
      var windowCost := p.cost(w.Universe(), w.end - w.start);
      calls := calls + 1;
      WindowCost(p, w);
      FirstEndStep(p, i, w.bound, w.end);
      TableSizes(p, i, minCost[..], path[..]);
      Relax(p, i, w.end, windowCost, minCost, path);
      OneMoreProposed(p, i, from, w.end, old(minCost[..]), old(path[..]), was, wasPath, minCost[..], path[..]);
      if w.end == |p.v| { break; }
      if windowCost >= w.bound { break; }
      w := w.AdvanceEnd(p);
    }
    w := w.AdvanceStart(p);
  }

  lemma TableSizes(p: Problem, i: nat, minCost: seq<nat>, path: seq<nat>)
    requires Tables(p, i, minCost, path)
    ensures |minCost| == |path| == |p.v| + 1
  {
  }

  // ---------------------------------------------------------------------------------------------
  // All windows, all nodes

  /** A larger bound is reached later. */
  lemma EndsAscend(p: Problem, i: nat, bound: nat, larger: nat)
    requires i < |p.v| && bound <= larger
    ensures p.FirstEnd(i, bound, i + 1) <= p.FirstEnd(i, larger, i + 1)
  {
  }

  /** The end of a window never moves back when its start advances. */
  lemma EndsFollow(p: Problem, i: nat, bound: nat)
    requires 1 <= i < |p.v| && p.Monotone()
    ensures p.FirstEnd(i - 1, bound, i) <= p.FirstEnd(i, bound, i + 1)
  {
    var r := p.FirstEnd(i, bound, i + 1);
    assert p.Piece(i, r) <= p.Piece(i - 1, r);
  }

  /** Where a window stands before node i. */
  ghost predicate Waiting(p: Problem, i: nat, bound: nat, w: CostWindow) {
    && w.Valid(p) && w.start == i && w.bound == bound && i <= |p.v|
    && (if i == 0 then w.end == 0 else p.Monotone() ==> w.end == p.FirstEnd(i - 1, bound, i))
  }

  ghost predicate WindowsAt(p: Problem, i: nat, bounds: seq<nat>, done: nat, ws: seq<CostWindow>) {
    && |ws| == |bounds|
    && forall j :: 0 <= j < |ws| ==> Waiting(p, if j < done then i + 1 else i, bounds[j], ws[j])
  }

  /** The windows before `done` have proposed their edges at node i, all windows those at the nodes before. */
  ghost predicate AllRelaxed(p: Problem, i: nat, bounds: seq<nat>, done: nat, minCost: seq<nat>)
    requires |minCost| == |p.v| + 1
  {
    && (forall k, j :: 0 <= k < i && k < |p.v| && 0 <= j < |bounds| ==> Relaxed(p, bounds, k, j, minCost))
    && (i < |p.v| ==> forall j :: 0 <= j < done && j < |bounds| ==> Relaxed(p, bounds, i, j, minCost))
  }

  /** Every node that a path leads to was proposed by some window. */
  ghost predicate AllOffered(p: Problem, bounds: seq<nat>, minCost: seq<nat>, path: seq<nat>) {
    && |minCost| == |path| == |p.v| + 1
    && forall e :: 1 <= e <= |p.v| && minCost[e] < p.Single() ==> path[e] < e && Offered(p, bounds, path[e], e)
  }

  ghost predicate Offered(p: Problem, bounds: seq<nat>, i: nat, e: nat)
    requires i < |p.v|
  {
    exists j :: 0 <= j < |bounds| && Offers(p, bounds, i, j, e)
  }

  lemma ProposedIsOffered(p: Problem, bounds: seq<nat>, i: nat, j: nat, from: nat, to: nat,
                          before: seq<nat>, beforePath: seq<nat>, after: seq<nat>, afterPath: seq<nat>)
    requires i < |p.v| && j < |bounds| && from == FirstOffer(p, bounds, i, j) && to == p.FirstEnd(i, bounds[j], i + 1)
    requires Proposed(p, i, from, to, before, beforePath, after, afterPath)
    requires AllOffered(p, bounds, before, beforePath)
    ensures AllOffered(p, bounds, after, afterPath)
  {
    hide Problem.Piece, FirstOffer, Problem.Single;
    forall e | 1 <= e <= |p.v| && after[e] < p.Single()
      ensures afterPath[e] < e && Offered(p, bounds, afterPath[e], e)
    {
      if from <= e <= to {
        assert Offers(p, bounds, i, j, e);
      }
    }
  }

  lemma StillAllRelaxed(p: Problem, i: nat, bounds: seq<nat>, done: nat, before: seq<nat>, after: seq<nat>)
    requires i < |p.v| && done < |bounds| && |before| == |p.v| + 1 && Improves(i, before, after)
    requires AllRelaxed(p, i, bounds, done, before) && Relaxed(p, bounds, i, done, after)
    ensures AllRelaxed(p, i, bounds, done + 1, after)
  {
    hide Relaxed;
    forall k, j | 0 <= k <= i && 0 <= j < |bounds| && (k < i || j < done)
      ensures Relaxed(p, bounds, k, j, after)
    {
      StillRelaxed(p, bounds, i, k, j, before, after);
    }
  }

  /** Work is bounded by the distance that the ends of the windows travel. */
  ghost function Travelled(ws: seq<CostWindow>): nat {
    if ws == [] then 0 else Travelled(ws[..|ws| - 1]) + ws[|ws| - 1].start + ws[|ws| - 1].end
  }

  lemma {:induction false} TravelledReplaced(ws: seq<CostWindow>, j: nat, w: CostWindow)
    requires j < |ws|
    ensures Travelled(ws[j := w]) == Travelled(ws) - ws[j].start - ws[j].end + w.start + w.end
    decreases |ws|
  {
    var n := |ws| - 1;
    if j == n {
      assert ws[j := w][..n] == ws[..n];
    } else {
      assert ws[j := w][..n] == ws[..n][j := w];
      TravelledReplaced(ws[..n], j, w);
    }
  }

  lemma {:induction false} TravelledBound(ws: seq<CostWindow>, n: nat)
    requires forall j :: 0 <= j < |ws| ==> ws[j].start <= n && ws[j].end <= n
    ensures Travelled(ws) <= 2 * n * |ws|
  {
    if ws != [] {
      TravelledBound(ws[..|ws| - 1], n);
      assert 2 * n * |ws| == 2 * n * (|ws| - 1) + 2 * n;
    }
  }

  /** Window j at node i proposes what it should, wherever the shared lastEnd made it start. */
  lemma WindowMoves(p: Problem, bounds: seq<nat>, i: nat, j: nat, window: CostWindow, from: nat, end: nat)
    requires p.Valid() && i < |p.v| && Ascending(bounds) && j < |bounds| && Waiting(p, i, bounds[j], window)
    requires var lastEnd := LastEnd(p, bounds, i, j); from == if window.end < lastEnd then lastEnd else window.end
    requires from <= |p.v| && end == p.FirstEnd(i, bounds[j], from)
    requires p.Monotone()
    ensures from == FirstOffer(p, bounds, i, j) && end == p.FirstEnd(i, bounds[j], i + 1)
  {
    hide CostWindow.Valid, Problem.Valid, Ascending, Problem.Piece, Problem.FirstEnd, Problem.Monotone;
    FirstIsOffered(p, bounds, i, j);
    FirstEndIsLeast(p, i, bounds[j], from, p.FirstEnd(i, bounds[j], i + 1));
  }

  /** For monotone costs every window proposes the first end that reaches its bound. */
  lemma FirstIsOffered(p: Problem, bounds: seq<nat>, i: nat, j: nat)
    requires i < |p.v| && Ascending(bounds) && j < |bounds| && p.Monotone()
    ensures Offers(p, bounds, i, j, p.FirstEnd(i, bounds[j], i + 1))
  {
    hide Problem.Monotone;
    if i > 0 {
      EndsFollow(p, i, bounds[j]);
    }
    if j > 0 {
      EndsAscend(p, i, bounds[j - 1], bounds[j]);
    }
  }

  method ProposeAll(p: Problem, i: nat, bounds: seq<nat>, windows: array<CostWindow>, minCost: array<nat>,
                    path: array<nat>)
    returns (ghost calls: nat)
    requires p.Valid() && i < |p.v| && Ascending(bounds) && WindowsAt(p, i, bounds, 0, windows[..])
    requires minCost != path && Tables(p, i, minCost[..], path[..])
    requires p.Monotone() ==> AllRelaxed(p, i, bounds, 0, minCost[..]) && AllOffered(p, bounds, minCost[..], path[..])
    modifies windows, minCost, path
    ensures Tables(p, i, minCost[..], path[..]) && WindowsAt(p, i, bounds, |bounds|, windows[..])
    ensures p.Monotone() ==>
      AllRelaxed(p, i, bounds, |bounds|, minCost[..]) && AllOffered(p, bounds, minCost[..], path[..])
    ensures calls <= Travelled(windows[..]) - old(Travelled(windows[..]))
    ensures bounds == [] ==> minCost[..] == old(minCost[..])
  {
    hide Tables, Improves, AllRelaxed, AllOffered, Relaxed, Problem.Piece, CostWindow.Valid, Problem.Monotone;
    calls := 0;
    var lastEnd := i + 1;
    TableSizes(p, i, minCost[..], path[..]);
    for done := 0 to windows.Length
      invariant i < lastEnd <= |p.v|
      invariant p.Monotone() ==> lastEnd == LastEnd(p, bounds, i, done)
      invariant Tables(p, i, minCost[..], path[..]) && WindowsAt(p, i, bounds, done, windows[..])
      invariant p.Monotone() ==>
        AllRelaxed(p, i, bounds, done, minCost[..]) && AllOffered(p, bounds, minCost[..], path[..])
      invariant calls <= Travelled(windows[..]) - old(Travelled(windows[..]))
      invariant windows.Length == 0 ==> minCost[..] == old(minCost[..])
    {
      lastEnd, calls := ProposeNext(p, i, bounds, done, lastEnd, calls, windows, minCost, path);
    }
  }

  /** One window: nothing but its own slot changes among the windows. */
  method ProposeNext(p: Problem, i: nat, bounds: seq<nat>, done: nat, last: nat, ghost before: nat,
                     windows: array<CostWindow>, minCost: array<nat>, path: array<nat>)
    returns (lastEnd: nat, ghost calls: nat)
    requires p.Valid() && i < |p.v| && Ascending(bounds) && done < |bounds|
    requires WindowsAt(p, i, bounds, done, windows[..])
    requires minCost != path && Tables(p, i, minCost[..], path[..])
    requires i < last <= |p.v| && (p.Monotone() ==> last == LastEnd(p, bounds, i, done))
    requires p.Monotone() ==>
      AllRelaxed(p, i, bounds, done, minCost[..]) && AllOffered(p, bounds, minCost[..], path[..])
    modifies windows, minCost, path
    ensures Tables(p, i, minCost[..], path[..]) && WindowsAt(p, i, bounds, done + 1, windows[..])
    ensures i < lastEnd <= |p.v|
    ensures p.Monotone() ==> lastEnd == LastEnd(p, bounds, i, done + 1)
    ensures p.Monotone() ==>
      AllRelaxed(p, i, bounds, done + 1, minCost[..]) && AllOffered(p, bounds, minCost[..], path[..])
    ensures calls - before <= Travelled(windows[..]) - old(Travelled(windows[..]))
  {
    hide Tables, Improves, AllRelaxed, AllOffered, Problem.Piece, CostWindow.Valid, Problem.Monotone, Travelled,
      Relaxed, FirstOffer, Proposed;
    ghost var was, costs, paths := windows[..], minCost[..], path[..];
    var window := windows[done];
    assert window == was[done];
    var w, used := Propose(p, i, window, last, minCost, path);
    TableSizes(p, i, minCost[..], path[..]);
    if p.Monotone() {
      ghost var from := if window.end < last then last else window.end;
      WindowMoves(p, bounds, i, done, window, from, w.end);
      ProposedImproves(p, i, from, w.end, costs, paths, minCost[..], path[..]);
      ProposedIsRelaxed(p, bounds, i, done, from, w.end, costs, paths, minCost[..], path[..]);
      ProposedIsOffered(p, bounds, i, done, from, w.end, costs, paths, minCost[..], path[..]);
      StillAllRelaxed(p, i, bounds, done, costs, minCost[..]);
    }
    windows[done] := w;
    assert windows[..] == was[done := w];
    TravelledReplaced(was, done, w);
    lastEnd := w.end;
    calls := before + used;
  }

  /** Node 0 costs nothing, every other node at first as much as a single piece. */
  lemma StartTables(p: Problem, minCost: seq<nat>, path: seq<nat>)
    requires p.Valid() && |minCost| == |path| == |p.v| + 1 && minCost[0] == 0
    requires forall e :: 1 <= e <= |p.v| ==> minCost[e] == p.Single()
    requires forall e :: 0 <= e <= |p.v| ==> path[e] == 0
    ensures Tables(p, 0, minCost, path)
  {
  }

  lemma NextTables(p: Problem, i: nat, minCost: seq<nat>, path: seq<nat>)
    requires Tables(p, i, minCost, path)
    ensures Tables(p, i + 1, minCost, path)
  {
  }

  /** The windows at the end of node i wait for node i + 1. */
  lemma NextWindows(p: Problem, i: nat, bounds: seq<nat>, ws: seq<CostWindow>)
    requires WindowsAt(p, i, bounds, |bounds|, ws)
    ensures WindowsAt(p, i + 1, bounds, 0, ws)
  {
  }

  lemma NextRelaxed(p: Problem, i: nat, bounds: seq<nat>, minCost: seq<nat>)
    requires |minCost| == |p.v| + 1 && AllRelaxed(p, i, bounds, |bounds|, minCost)
    ensures AllRelaxed(p, i + 1, bounds, 0, minCost)
  {
  }

  /** The tables after all nodes have been processed in order. */
  method ShortestPaths(p: Problem, bounds: seq<nat>)
    returns (minCost: array<nat>, path: array<nat>, ghost calls: nat)
    requires p.Valid() && Ascending(bounds)
    ensures minCost != path && Tables(p, |p.v|, minCost[..], path[..])
    ensures p.Monotone() ==>
      AllRelaxed(p, |p.v|, bounds, 0, minCost[..]) && AllOffered(p, bounds, minCost[..], path[..])
    ensures calls <= 2 * |p.v| * |bounds|
    ensures bounds == [] ==> minCost[|p.v|] == p.Single()
  {
    hide Tables, AllRelaxed, AllOffered, Problem.Monotone, Relaxed;
    var single := p.Single();
    minCost := new nat[|p.v| + 1](e => if e == 0 then 0 else single);
    path := new nat[|p.v| + 1](_ => 0);
    var windows := new CostWindow[|bounds|](j requires 0 <= j < |bounds| =>
      CostWindow(0, 0, p.v[0] % POSTINGS, 0, bounds[j]));
    calls := 0;
    StartTables(p, minCost[..], path[..]);
    StartRelaxed(p, bounds, minCost[..], path[..]);
    StartTravelled(windows[..]);
    for i := 0 to |p.v|
      invariant minCost != path && minCost.Length == |p.v| + 1
      invariant Tables(p, i, minCost[..], path[..]) && WindowsAt(p, i, bounds, 0, windows[..])
      invariant p.Monotone() ==>
        AllRelaxed(p, i, bounds, 0, minCost[..]) && AllOffered(p, bounds, minCost[..], path[..])
      invariant calls <= Travelled(windows[..])
      invariant bounds == [] ==> minCost[|p.v|] == single
    {
      var used := ProposeAll(p, i, bounds, windows, minCost, path);
      calls := calls + used;
      NextTables(p, i, minCost[..], path[..]);
      NextWindows(p, i, bounds, windows[..]);
      if p.Monotone() {
        NextRelaxed(p, i, bounds, minCost[..]);
      }
    }
    TravelledBound(windows[..], |p.v|);
  }

  lemma StartRelaxed(p: Problem, bounds: seq<nat>, minCost: seq<nat>, path: seq<nat>)
    requires |minCost| == |path| == |p.v| + 1
    requires forall e :: 1 <= e <= |p.v| ==> minCost[e] == p.Single()
    ensures AllRelaxed(p, 0, bounds, 0, minCost) && AllOffered(p, bounds, minCost, path)
  {
  }

  lemma {:induction false} StartTravelled(ws: seq<CostWindow>)
    requires forall j :: 0 <= j < |ws| ==> ws[j].start == ws[j].end == 0
    ensures Travelled(ws) == 0
  {
    if ws != [] {
      StartTravelled(ws[..|ws| - 1]);
    }
  }

  // ---------------------------------------------------------------------------------------------
  // The result

  /** cuts split positions `from` to the end into pieces. */
  ghost predicate IsPartition(p: Problem, from: nat, cuts: seq<nat>) {
    p.AreCuts(from, cuts) && from <= |p.v| && |p.v| == if cuts == [] then from else cuts[|cuts| - 1]
  }

  /** A partition all of whose pieces are proposed by some window. */
  ghost predicate IsSparse(p: Problem, bounds: seq<nat>, from: nat, cuts: seq<nat>)
    requires IsPartition(p, from, cuts)
    decreases |cuts|
  {
    cuts != [] ==>
      && Offered(p, bounds, from, cuts[0])
      && assert IsPartition(p, cuts[0], cuts[1..]); IsSparse(p, bounds, cuts[0], cuts[1..])
  }

  /** A partition each of whose pieces is the first one to reach one of the bounds, or reaches the end. */
  ghost predicate ReachesBounds(p: Problem, bounds: seq<nat>, from: nat, cuts: seq<nat>)
    requires IsPartition(p, from, cuts)
    decreases |cuts|
  {
    cuts != [] ==>
      && (exists j :: 0 <= j < |bounds| && cuts[0] == p.FirstEnd(from, bounds[j], from + 1))
      && assert IsPartition(p, cuts[0], cuts[1..]); ReachesBounds(p, bounds, cuts[0], cuts[1..])
  }

  /** For monotone costs, such partitions are among the sparse ones. */
  lemma {:induction false} BoundsAreSparse(p: Problem, bounds: seq<nat>, from: nat, cuts: seq<nat>)
    requires Ascending(bounds) && p.Monotone() && IsPartition(p, from, cuts) && ReachesBounds(p, bounds, from, cuts)
    ensures IsSparse(p, bounds, from, cuts)
    decreases |cuts|
  {
    hide Problem.Monotone, Offers;
    if cuts != [] {
      var j :| 0 <= j < |bounds| && cuts[0] == p.FirstEnd(from, bounds[j], from + 1);
      FirstIsOffered(p, bounds, from, j);
      assert IsPartition(p, cuts[0], cuts[1..]);
      BoundsAreSparse(p, bounds, cuts[0], cuts[1..]);
    }
  }

  /** No sparse partition is cheaper than the cost computed. */
  lemma {:induction false} CheapestSparse(p: Problem, bounds: seq<nat>, minCost: seq<nat>, from: nat, cuts: seq<nat>)
    requires |minCost| == |p.v| + 1 && AllRelaxed(p, |p.v|, bounds, 0, minCost)
    requires IsPartition(p, from, cuts) && IsSparse(p, bounds, from, cuts)
    ensures minCost[|p.v|] <= minCost[from] + p.Pieces(from, cuts)
    decreases |cuts|
  {
    hide Offers;
    if cuts != [] {
      var j :| 0 <= j < |bounds| && Offers(p, bounds, from, j, cuts[0]);
      assert Relaxed(p, bounds, from, j, minCost);
      assert IsPartition(p, cuts[0], cuts[1..]);
      CheapestSparse(p, bounds, minCost, cuts[0], cuts[1..]);
    }
  }

  /** Following the path backwards accounts for the cost of the last node piece by piece. */
  method CutsOf(p: Problem, ghost bounds: seq<nat>, minCost: array<nat>, path: array<nat>) returns (cuts: seq<nat>)
    requires p.Valid() && Tables(p, |p.v|, minCost[..], path[..])
    ensures cuts != [] && IsPartition(p, 0, cuts)
    ensures var cost := minCost[|p.v|];
      (cost == p.Pieces(0, cuts) && cost < p.Single()) || (cost == p.Single() && cuts == [|p.v|])
    ensures AllOffered(p, bounds, minCost[..], path[..]) && minCost[|p.v|] < p.Single() ==> IsSparse(p, bounds, 0, cuts)
  {
    hide Problem.Piece, Problem.Single, Offered;
    var pos: nat := |p.v|;
    cuts := [];
    assert Untouched(p, pos, minCost[..], path[..]) || Reached(p, |p.v|, pos, minCost[..], path[..]);
    while pos != 0
      invariant pos <= |p.v| && IsPartition(p, pos, cuts)
      invariant minCost[|p.v|] < p.Single() ==> minCost[|p.v|] == minCost[pos] + p.Pieces(pos, cuts)
      invariant AllOffered(p, bounds, minCost[..], path[..]) && minCost[|p.v|] < p.Single() ==>
        IsSparse(p, bounds, pos, cuts)
      invariant minCost[|p.v|] >= p.Single() ==> minCost[|p.v|] == p.Single()
      invariant minCost[|p.v|] >= p.Single() ==> (pos == |p.v| && cuts == []) || (pos == 0 && cuts == [|p.v|])
    {
      assert Untouched(p, pos, minCost[..], path[..]) || Reached(p, |p.v|, pos, minCost[..], path[..]);
      PrependCut(p, bounds, path[pos], pos, cuts);
      cuts := [pos] + cuts;
      pos := path[pos];
    }
  }

  lemma PrependCut(p: Problem, bounds: seq<nat>, from: nat, pos: nat, cuts: seq<nat>)
    requires from < pos && IsPartition(p, pos, cuts)
    ensures IsPartition(p, from, [pos] + cuts)
    ensures Offered(p, bounds, from, pos) && IsSparse(p, bounds, pos, cuts) ==> IsSparse(p, bounds, from, [pos] + cuts)
    ensures p.Pieces(from, [pos] + cuts) == p.Piece(from, pos) + p.Pieces(pos, cuts)
  {
    assert ([pos] + cuts)[1..] == cuts;
  }

  class OptimalPartition {
    var partition: seq<nat>
    var costOpt: nat

    /**
     * The cuts end at the size and account for the cost computed, which never exceeds that of a single
     * piece; only when no edge improved on the single piece is that cost taken on trust, as it always
     * is if no window opens. The trust is justified if the whole as a piece costs no more. For monotone
     * costs, no partition into pieces that windows propose is cheaper, and the cuts are such a partition.
     */
    constructor (p: Problem, eps1: real, eps2: real)
      requires p.Valid() && eps2 >= 0.0 && BoundsEnd(p.cost(1, 1), p.Single(), eps1, eps2)
      ensures partition != [] && IsPartition(p, 0, partition)
      ensures (costOpt == p.Pieces(0, partition) && costOpt < p.Single()) ||
        (costOpt == p.Single() && partition == [|p.v|])
      ensures p.Piece(0, |p.v|) <= p.Single() ==> p.Pieces(0, partition) <= costOpt
      ensures !Opens(p.cost(1, 1), p.cost(1, 1), eps1) ==> costOpt == p.Single() && partition == [|p.v|]
      ensures exists bounds ::
        (WindowBounds(bounds, p.cost(1, 1), p.Single(), eps1, eps2) &&
         (p.Monotone() ==> IsCheapest(p, bounds, partition, costOpt)))
    {
      hide Tables, AllRelaxed, AllOffered, NoneCheaper, IsSparse, Opens, Problem.Pieces, Problem.Piece,
        Problem.Monotone, Problem.AreCuts;
      var bounds := Bounds(p.cost(1, 1), p.Single(), eps1, eps2);
      var minCost, path, calls := ShortestPaths(p, bounds);
      StartsAtZero(p, |p.v|, minCost[..], path[..]);
      var cuts := CutsOf(p, bounds, minCost, path);
      partition := cuts;
      costOpt := minCost[|p.v|];
      ComputedIsCheapest(p, bounds, minCost[..]);
      OnePiece(p);
      NoWindow(bounds, p.cost(1, 1), p.Single(), eps1, eps2);
    }
  }

  lemma NoWindow(bounds: seq<nat>, lb: nat, single: nat, eps1: real, eps2: real)
    requires eps2 >= 0.0 && AreBounds(bounds, lb, single, eps1, eps2)
    ensures !Opens(lb, lb, eps1) ==> bounds == []
  {
    if bounds != [] {
      assert bounds[0] == BoundAfter(0, lb, eps2) == lb;
    }
  }

  lemma OnePiece(p: Problem)
    requires p.v != []
    ensures IsPartition(p, 0, [|p.v|]) && p.Pieces(0, [|p.v|]) == p.Piece(0, |p.v|)
  {
  }

  lemma StartsAtZero(p: Problem, i: nat, minCost: seq<nat>, path: seq<nat>)
    requires Tables(p, i, minCost, path)
    ensures |minCost| == |p.v| + 1 && minCost[0] == 0
  {
  }

  ghost predicate NoneCheaper(p: Problem, bounds: seq<nat>, cost: nat) {
    forall cuts :: IsPartition(p, 0, cuts) && IsSparse(p, bounds, 0, cuts) ==> cost <= p.Pieces(0, cuts)
  }

  /** The cost is the least of all sparse partitions and the single block, and the cuts account for it. */
  ghost predicate IsCheapest(p: Problem, bounds: seq<nat>, cuts: seq<nat>, cost: nat)
    requires IsPartition(p, 0, cuts)
  {
    NoneCheaper(p, bounds, cost) && (cost < p.Single() ==> IsSparse(p, bounds, 0, cuts))
  }

  lemma CheaperStill(p: Problem, bounds: seq<nat>, cost: nat, less: nat)
    requires less <= cost
    ensures NoneCheaper(p, bounds, cost) ==> NoneCheaper(p, bounds, less)
  {
  }

  lemma ComputedIsCheapest(p: Problem, bounds: seq<nat>, minCost: seq<nat>)
    requires |minCost| == |p.v| + 1 && minCost[0] == 0
    ensures AllRelaxed(p, |p.v|, bounds, 0, minCost) ==> NoneCheaper(p, bounds, minCost[|p.v|])
  {
    hide AllRelaxed;
    if AllRelaxed(p, |p.v|, bounds, 0, minCost) {
      forall cuts | IsPartition(p, 0, cuts) && IsSparse(p, bounds, 0, cuts)
        ensures minCost[|p.v|] <= p.Pieces(0, cuts)
      {
        CheapestSparse(p, bounds, minCost, 0, cuts);
      }
    }
  }

  /**
   * The cuts account for the cost computed whatever the parameters are if and only if the whole as a
   * piece costs no more than the single block: the constructor promises one half, and this choice of
   * parameters shows the other.
   */
  method AccountedIffWholeFits(p: Problem) returns (o: OptimalPartition)
    requires p.Valid()
    ensures o.partition != [] && IsPartition(p, 0, o.partition)
    ensures p.Pieces(0, o.partition) <= o.costOpt <==> p.Piece(0, |p.v|) <= p.Single()
  {
    o := new OptimalPartition(p, 1.0, 0.0);
  }

  /** A cost that grows with the universe meets the condition if all values are below the universe. */
  lemma WholeFits(p: Problem)
    requires p.Valid() && p.v[|p.v| - 1] < p.universe
    requires forall u, u', n :: u <= u' ==> p.cost(u, n) <= p.cost(u', n)
    ensures p.Piece(0, |p.v|) <= p.Single()
  {
    var span := p.v[|p.v| - 1] - p.v[0] + 1;
    assert span % POSTINGS <= span <= p.universe;
  }

  /** A cost that falls as the universe grows: here every partition costs more than the single block. */
  lemma SingleCanBeUnderestimated() returns (p: Problem)
    ensures p.Valid() && p.Monotone() && p.v[|p.v| - 1] < p.universe
    ensures forall cuts :: cuts != [] && IsPartition(p, 0, cuts) ==> p.Pieces(0, cuts) > p.Single()
  {
    p := Problem([3], (u, n) => if u >= 10 then 1 else 5, 10);
    forall cuts | cuts != [] && IsPartition(p, 0, cuts)
      ensures p.Pieces(0, cuts) > p.Single()
    {
      assert cuts[0] == 1;
    }
  }

  /** A cost that grows with universe and size is monotone in the windows, as long as values span less than 2^32. */
  lemma MonotoneCost(p: Problem)
    requires p.Valid() && p.v[|p.v| - 1] - p.v[0] + 1 < POSTINGS
    requires forall u, n, u', n' :: u <= u' && n <= n' ==> p.cost(u, n) <= p.cost(u', n')
    ensures p.Monotone()
  {
    hide Problem.Piece;
    forall i: nat, e: nat, i': nat, e': nat | 0 <= i' <= i < e <= e' <= |p.v|
      ensures p.Piece(i, e) <= p.Piece(i', e')
    {
      LargerWindow(p, i, e, i', e');
    }
  }

  lemma LargerWindow(p: Problem, i: nat, e: nat, i': nat, e': nat)
    requires p.Valid() && p.v[|p.v| - 1] - p.v[0] + 1 < POSTINGS && i' <= i < e <= e' <= |p.v|
    requires forall u, n, u', n' :: u <= u' && n <= n' ==> p.cost(u, n) <= p.cost(u', n')
    ensures p.Piece(i, e) <= p.Piece(i', e')
  {
    Spans(p, i, e, i', e');
  }

  lemma Spans(p: Problem, i: nat, e: nat, i': nat, e': nat)
    requires p.Valid() && p.v[|p.v| - 1] - p.v[0] + 1 < POSTINGS && i' <= i < e <= e' <= |p.v|
    ensures 0 <= p.v[e - 1] - p.Base(i) + 1 <= p.v[e' - 1] - p.Base(i') + 1 < POSTINGS
    ensures e - i <= e' - i'
  {
    assert p.v[e - 1] <= p.v[e' - 1] <= p.v[|p.v| - 1] && p.v[0] <= p.Base(i') <= p.Base(i) <= p.v[e - 1] + 1;
  }
}
