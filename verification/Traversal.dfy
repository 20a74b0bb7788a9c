/**
 * What all document-at-a-time operators share: cursors over lists, and accounting for documents.
 */
module Traversal {
  import opened Bm25
  import opened Postings
  import opened TopKQueue

  /** Every cursor has passed only documents below bound. */
  ghost predicate Ready(ts: seq<TermList>, ps: seq<nat>, bound: nat) {
    |ps| == |ts| && forall i :: 0 <= i < |ts| ==> Passed(ts[i].list.docs, ps[i], bound)
  }

  /** The document cursor i is on. */
  function Doc(ts: seq<TermList>, ps: seq<nat>, numDocs: nat, i: nat): nat
    requires |ps| == |ts| && i < |ts|
  {
    DocAt(ts[i].list.docs, ps[i], numDocs)
  }

  lemma ReadyLater(ts: seq<TermList>, ps: seq<nat>, bound: nat, later: nat)
    requires Ready(ts, ps, bound) && bound <= later
    ensures Ready(ts, ps, later)
  {
  }

  lemma DocInRange(ts: seq<TermList>, ps: seq<nat>, numDocs: nat, i: nat)
    requires ValidLists(ts, numDocs) && |ps| == |ts| && i < |ts|
    ensures Doc(ts, ps, numDocs, i) <= numDocs
  {
    assert ts[i].list.Valid(numDocs);
  }

  /** A cursor beyond d that passed nothing from d on is on a list without d. */
  lemma NotListed(list: PostingList, numDocs: nat, pos: nat, bound: nat, d: nat)
    requires list.Valid(numDocs) && Passed(list.docs, pos, bound) && bound <= d < DocAt(list.docs, pos, numDocs)
    ensures d !in list.docs
  {
  }

  /** A document at or beyond bound that is in the union is still ahead of some cursor. */
  lemma AheadOfSomeCursor(ts: seq<TermList>, ps: seq<nat>, numDocs: nat, bound: nat, d: nat)
    requires ValidLists(ts, numDocs) && Ready(ts, ps, bound) && bound <= d && InUnion(ts, d)
    ensures exists i :: 0 <= i < |ts| && Doc(ts, ps, numDocs, i) <= d
  {
    var i :| 0 <= i < |ts| && d in ts[i].list.docs;
    if d < Doc(ts, ps, numDocs, i) {
      assert ts[i].list.Valid(numDocs);
      NotListed(ts[i].list, numDocs, ps[i], bound, d);
    }
  }

  /** What the document under cursor i gains from its list. */
  method Gain(es: ScoredEnums, i: nat, scorer: Scorer) returns (gain: real)
    requires es.Valid() && i < |es.terms| && es.terms[i].list.Valid(es.numDocs) && es.Docid(i) < es.numDocs
    ensures gain == es.terms[i].Contribution(scorer, es.Docid(i))
  {
    es.terms[i].ContributionAt(scorer, es.numDocs, es.pos[i]);
    gain := Times(es.terms[i].qWeight, scorer.Weight(es.Freq(i), es.Docid(i)));
  }

  // ---------------------------------------------------------------------------------------------
  // Pointers into the enumerators: an arrangement is the order in which an operator visits them

  ghost function IndexOf<T>(s: seq<T>, x: T): nat {
    if x in s then
      var i :| 0 <= i < |s| && s[i] == x;
      i
    else 0
  }

  ghost predicate Distinct<T>(s: seq<T>) {
    forall i :: 0 <= i < |s| ==> IndexOf(s, s[i]) == i
  }

  ghost predicate InRange(o: seq<nat>, n: nat) {
    forall i :: 0 <= i < |o| ==> o[i] < n
  }

  /** The lists, and the cursor positions, in visiting order. */
  ghost function View<T>(s: seq<T>, o: seq<nat>): (v: seq<T>)
    requires InRange(o, |s|)
    ensures |v| == |o| && forall i :: 0 <= i < |o| ==> v[i] == s[o[i]]
  {
    seq(|o|, i requires 0 <= i < |o| => s[o[i]])
  }

  ghost predicate Onto(o: seq<nat>, n: nat) {
    forall x :: 0 <= x < n ==> x in o
  }

  /** Every list is visited once. */
  ghost predicate Arranged(ts: seq<TermList>, o: seq<nat>) {
    InRange(o, |ts|) && Distinct(o) && Onto(o, |ts|) && multiset(View(ts, o)) == multiset(ts)
  }

  method SwapAt<T>(s: seq<T>, i: nat, j: nat) returns (r: seq<T>)
    requires i < j < |s|
    ensures Swapped(s, r, i, j)
  {
    r := s[i := s[j]][j := s[i]];
  }

  ghost predicate Swapped<T>(s: seq<T>, r: seq<T>, i: nat, j: nat)
    requires i < j < |s|
  {
    && |r| == |s| && r[i] == s[j] && r[j] == s[i]
    && forall m :: 0 <= m < |s| && m != i && m != j ==> r[m] == s[m]
  }

  lemma SwapKeepsBag<T>(s: seq<T>, r: seq<T>, i: nat, j: nat)
    requires i < j < |s| && Swapped(s, r, i, j)
    ensures multiset(r) == multiset(s)
  {
    assert r == s[i := s[j]][j := s[i]];
  }

  lemma SwapKeepsDistinct<T>(s: seq<T>, r: seq<T>, i: nat, j: nat)
    requires i < j < |s| && Swapped(s, r, i, j) && Distinct(s)
    ensures Distinct(r)
  {
    forall m | 0 <= m < |r|
      ensures IndexOf(r, r[m]) == m
    {
      var p := IndexOf(r, r[m]);
      var m' := if m == i then j else if m == j then i else m;
      var p' := if p == i then j else if p == j then i else p;
      assert s[m'] == r[m] == r[p] == s[p'];
    }
  }

  lemma SwapKeepsArranged(ts: seq<TermList>, o: seq<nat>, r: seq<nat>, i: nat, j: nat)
    requires Arranged(ts, o) && i < j < |o| && Swapped(o, r, i, j)
    ensures Arranged(ts, r) && InRange(r, |ts|)
  {
    SwapKeepsDistinct(o, r, i, j);
    forall x | 0 <= x < |ts|
      ensures x in r
    {
      var m := IndexOf(o, x);
      assert o[m] == r[if m == i then j else if m == j then i else m];
    }
    SwapKeepsBag(View(ts, o), View(ts, r), i, j);
  }

  /** The visiting order in which the enumerators were opened. */
  function Identity(n: nat): (o: seq<nat>)
    ensures |o| == n && forall i :: 0 <= i < n ==> o[i] == i
  {
    seq(n, i => i)
  }

  lemma IdentityArranged(ts: seq<TermList>)
    ensures Arranged(ts, Identity(|ts|))
  {
    var o := Identity(|ts|);
    assert View(ts, o) == ts;
    forall i | 0 <= i < |o|
      ensures IndexOf(o, o[i]) == i && i in o
    {
      assert o[i] in o;
    }
  }

  /** Moving one cursor changes one position of the view. */
  lemma ViewOfMove(ps: seq<nat>, qs: seq<nat>, o: seq<nat>, i: nat)
    requires InRange(o, |ps|) && Distinct(o) && i < |o|
    requires |qs| == |ps| && forall m :: 0 <= m < |ps| && m != o[i] ==> qs[m] == ps[m]
    ensures View(qs, o) == View(ps, o)[i := qs[o[i]]]
  {
    forall j | 0 <= j < |o| && j != i
      ensures View(qs, o)[j] == View(ps, o)[j]
    {
      assert IndexOf(o, o[j]) == j && IndexOf(o, o[i]) == i;
    }
  }

  /** The cursors have moved, some of them forwards and none backwards. */
  ghost predicate Progress(ps: seq<nat>, qs: seq<nat>) {
    |qs| == |ps| && (forall i :: 0 <= i < |ps| ==> ps[i] <= qs[i]) && exists i :: 0 <= i < |ps| && ps[i] < qs[i]
  }

  lemma ProgressOfView(ps: seq<nat>, qs: seq<nat>, o: seq<nat>)
    requires InRange(o, |ps|) && Onto(o, |ps|) && |qs| == |ps| && Progress(View(ps, o), View(qs, o))
    ensures Progress(ps, qs)
  {
    forall i | 0 <= i < |ps|
      ensures ps[i] <= qs[i]
    {
      var j := IndexOf(o, i);
      assert View(ps, o)[j] <= View(qs, o)[j];
    }
  }

  /** All cursors are at or beyond bound. */
  ghost predicate AllFrom(ts: seq<TermList>, ps: seq<nat>, numDocs: nat, bound: nat)
    requires |ps| == |ts|
  {
    forall i :: 0 <= i < |ts| ==> Doc(ts, ps, numDocs, i) >= bound
  }

  lemma ReadyBack(ts: seq<TermList>, ps: seq<nat>, o: seq<nat>, bound: nat)
    requires |ps| == |ts| && InRange(o, |ts|) && Onto(o, |ts|) && Ready(View(ts, o), View(ps, o), bound)
    ensures Ready(ts, ps, bound)
  {
    forall i | 0 <= i < |ts|
      ensures Passed(ts[i].list.docs, ps[i], bound)
    {
      var j := IndexOf(o, i);
      assert Passed(View(ts, o)[j].list.docs, View(ps, o)[j], bound);
    }
  }

  lemma AllFromBack(ts: seq<TermList>, ps: seq<nat>, o: seq<nat>, numDocs: nat, bound: nat)
    requires |ps| == |ts| && InRange(o, |ts|) && Onto(o, |ts|) && AllFrom(View(ts, o), View(ps, o), numDocs, bound)
    ensures AllFrom(ts, ps, numDocs, bound)
  {
    forall i | 0 <= i < |ts|
      ensures Doc(ts, ps, numDocs, i) >= bound
    {
      var j := IndexOf(o, i);
      assert Doc(View(ts, o), View(ps, o), numDocs, j) >= bound;
    }
  }

  lemma AllFromView(ts: seq<TermList>, ps: seq<nat>, o: seq<nat>, numDocs: nat, bound: nat)
    requires |ps| == |ts| && InRange(o, |ts|) && AllFrom(ts, ps, numDocs, bound)
    ensures AllFrom(View(ts, o), View(ps, o), numDocs, bound)
  {
    forall i | 0 <= i < |o|
      ensures Doc(View(ts, o), View(ps, o), numDocs, i) >= bound
    {
      assert Doc(ts, ps, numDocs, o[i]) >= bound;
    }
  }

  lemma ReadyView(ts: seq<TermList>, ps: seq<nat>, o: seq<nat>, bound: nat)
    requires Ready(ts, ps, bound) && InRange(o, |ts|)
    ensures Ready(View(ts, o), View(ps, o), bound)
  {
  }

  // ---------------------------------------------------------------------------------------------
  // Sorting by current document

  // names a pair of positions, so that sortedness is used only for pairs that a proof mentions
  ghost predicate Pair(i: int, j: int) {
    true
  }

  ghost predicate SortedByDoc(ts: seq<TermList>, ps: seq<nat>, numDocs: nat)
    requires |ps| == |ts|
  {
    forall i, j {:trigger Pair(i, j)} :: 0 <= i < j < |ts| && Pair(i, j) ==>
      Doc(ts, ps, numDocs, i) <= Doc(ts, ps, numDocs, j)
  }

  lemma SortedAround(ts: seq<TermList>, ps: seq<nat>, numDocs: nat, p: nat)
    requires |ps| == |ts| && SortedByDoc(ts, ps, numDocs) && p < |ts|
    ensures forall i :: 0 <= i < p ==> Doc(ts, ps, numDocs, i) <= Doc(ts, ps, numDocs, p)
    ensures forall i :: p <= i < |ts| ==> Doc(ts, ps, numDocs, p) <= Doc(ts, ps, numDocs, i)
  {
    forall i | 0 <= i < p
      ensures Doc(ts, ps, numDocs, i) <= Doc(ts, ps, numDocs, p)
    {
      assert Pair(i, p);
    }
    forall i | p < i < |ts|
      ensures Doc(ts, ps, numDocs, p) <= Doc(ts, ps, numDocs, i)
    {
      assert Pair(p, i);
    }
  }

  /** Cursors lo..hi are in docid order. */
  ghost predicate SortedPart(es: ScoredEnums, o: seq<nat>, lo: nat, hi: nat, skip: int)
    requires es.Valid() && InRange(o, |es.terms|) && hi <= |o|
    reads es
  {
    forall i, j {:trigger Pair(i, j)} :: lo <= i < j < hi && i != skip && j != skip && Pair(i, j) ==>
      es.Docid(o[i]) <= es.Docid(o[j])
  }

  lemma SortedPartIsView(es: ScoredEnums, o: seq<nat>)
    requires es.Valid() && InRange(o, |es.terms|)
    ensures SortedPart(es, o, 0, |o|, -1) <==> SortedByDoc(View(es.terms, o), View(es.pos, o), es.numDocs)
  {
    assert forall i :: 0 <= i < |o| ==> es.Docid(o[i]) == Doc(View(es.terms, o), View(es.pos, o), es.numDocs, i);
  }

  /** Lets the last of n cursors sink into the sorted ones before it. */
  method SinkLast(es: ScoredEnums, o: seq<nat>, n: nat) returns (r: seq<nat>)
    requires es.Valid() && Arranged(es.terms, o) && InRange(o, |es.terms|) && n < |o| && SortedPart(es, o, 0, n, -1)
    ensures |r| == |o| && Arranged(es.terms, r) && InRange(r, |es.terms|) && SortedPart(es, r, 0, n + 1, -1)
  {
    hide Arranged;
    r := o;
    var at := n;
    while at > 0 && es.Docid(r[at]) < es.Docid(r[at - 1])
      invariant 0 <= at <= n < |r| == |o| && Arranged(es.terms, r) && InRange(r, |es.terms|)
      invariant SortedPart(es, r, 0, n + 1, at)
      invariant forall i :: at < i <= n ==> es.Docid(r[at]) < es.Docid(r[i])
    {
      ghost var was := r;
      r := SwapAt(r, at - 1, at);
      SwapKeepsArranged(es.terms, was, r, at - 1, at);
      forall i, j {:trigger Pair(i, j)} | 0 <= i < j < n + 1 && i != at - 1 && j != at - 1 && Pair(i, j)
        ensures es.Docid(r[i]) <= es.Docid(r[j])
      {
        assert Pair(at - 1, j) && Pair(i, at - 1);
      }
      at := at - 1;
    }
    forall i, j {:trigger Pair(i, j)} | 0 <= i < j < n + 1 && Pair(i, j)
      ensures es.Docid(r[i]) <= es.Docid(r[j])
    {
      assert Pair(i, at - 1) && Pair(at, j);
    }
  }

  /** std::sort by increasing docid. */
  method SortByDocid(es: ScoredEnums, o: seq<nat>) returns (r: seq<nat>)
    requires es.Valid() && Arranged(es.terms, o)
    ensures |r| == |o| && Arranged(es.terms, r)
    ensures SortedByDoc(View(es.terms, r), View(es.pos, r), es.numDocs)
  {
    r := o;
    for n := 0 to |o|
      invariant |r| == |o| && Arranged(es.terms, r) && SortedPart(es, r, 0, n, -1)
    {
      r := SinkLast(es, r, n);
    }
    SortedPartIsView(es, r);
  }

  // ---------------------------------------------------------------------------------------------
  // Accounting for documents

  /** All documents of the lists below limit are accounted for. */
  ghost predicate Covered(queue: Queue, ts: seq<TermList>, scorer: Scorer, limit: nat)
    reads queue
  {
    queue.Valid() && queue.seen == UnionScores(ts, scorer, limit)
  }

  lemma UnionScoresNext(ts: seq<TermList>, scorer: Scorer, d: nat)
    ensures UnionScores(ts, scorer, d + 1) ==
      UnionScores(ts, scorer, d) + if InUnion(ts, d) then multiset{Score(ts, scorer, d)} else multiset{}
  {
  }

  /** Documents from..to whose score cannot enter the queue are accounted for without being visited. */
  ghost method SkipRange(queue: Queue, ts: seq<TermList>, scorer: Scorer, from: nat, to: nat)
    requires queue.Valid() && from <= to
    requires queue.seen == UnionScores(ts, scorer, from)
    requires forall d :: from <= d < to && InUnion(ts, d) ==> !queue.WouldEnter(Score(ts, scorer, d))
    modifies queue`seen
    ensures queue.Valid() && queue.seen == UnionScores(ts, scorer, to)
  {
    hide Queue.Valid, UnionScores, InUnion, Score;
    var d := from;
    while d < to
      invariant from <= d <= to && queue.Valid()
      invariant queue.seen == UnionScores(ts, scorer, d)
    {
      UnionScoresNext(ts, scorer, d);
      if InUnion(ts, d) {
        queue.Skip(Score(ts, scorer, d));
      }
      d := d + 1;
    }
  }

  /** The number of postings still ahead of the cursors. */
  ghost function Left(ts: seq<TermList>, ps: seq<nat>, n: nat): nat
    requires n <= |ts| == |ps|
  {
    if n == 0 then 0
    else
      var size := |ts[n - 1].list.docs|;
      Left(ts, ps, n - 1) + if ps[n - 1] <= size then size - ps[n - 1] else 0
  }

  lemma {:induction false} LeftShrinks(ts: seq<TermList>, ps: seq<nat>, qs: seq<nat>, n: nat, moved: nat)
    requires n <= |ts| == |ps| == |qs|
    requires forall i :: 0 <= i < |ts| ==> ps[i] <= qs[i] <= |ts[i].list.docs|
    requires moved < |ts| && ps[moved] < qs[moved]
    ensures Left(ts, qs, n) <= Left(ts, ps, n)
    ensures moved < n ==> Left(ts, qs, n) < Left(ts, ps, n)
  {
    if n > 0 {
      LeftShrinks(ts, ps, qs, n - 1, moved);
    }
  }
}
