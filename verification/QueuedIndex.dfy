/** Building an index through the work queue: which lists it holds (freq_index.hpp, semiasync_queue.hpp). */
module QueuedIndex {
  // add_posting_list submits a list as a job, prepared by some thread and committed by the main thread;
  // build calls complete and takes what has been committed by then.

  import opened FreqIndex
  import opened MonotoneSequence
  import opened Postings
  import opened SemiasyncQueue

  /** The jobs committed so far are the first ones submitted. */
  lemma CommittedAreFirst(c: Config, s: State)
    requires Invariant(c, s)
    ensures |s.committed| <= s.submitted && forall i :: 0 <= i < |s.committed| ==> s.committed[i] == i
  {
    CommittedFew(c, s);
  }

  /** The commits, in the order in which the queue makes them, and then build. */
  method BuildCommitted(lists: seq<PostingList>, numDocs: nat, params: Parameters, ghost c: Config, s: State)
    returns (ok: bool, index: FreqIndex)
    requires Invariant(c, s) && s.submitted == |lists|
    requires forall i :: 0 <= i < |lists| ==> IsList(numDocs, lists[i])
    ensures ok <==> s.committed != []
    ensures ok ==> index.numDocs == numDocs && |s.committed| <= |lists| && index.Indexes(lists[..|s.committed|])
  {
    hide Invariant, IsList, Builder.Valid, FreqIndex.Indexes, PostingList.Valid, Total;
    CommittedAreFirst(c, s);
    var builder := new Builder(numDocs, params);
    for i := 0 to |s.committed|
      invariant builder.Valid() && builder.lists == lists[..i]
      invariant fresh(builder) && fresh(builder.docsSequences) && fresh(builder.freqsSequences)
    {
      var list := lists[s.committed[i]];
      ListIsValid(numDocs, list);
      OneMore(lists, i);
      var added := builder.AddPostingList(list, Total(list.freqs));
    }
    ok := s.committed != [];
    index := FreqIndex(params, numDocs, Collection(0, [], []), Collection(0, [], []));
    if ok {
      index := builder.Build();
    }
  }

  /** A call in progress submits nothing. */
  lemma {:induction false} CallSubmitsNothing(c: Config, s: State, steps: seq<Step>, s': State)
    requires IsCall(c, s, steps, s')
    ensures s'.submitted == s.submitted
    decreases |steps|
  {
    if !s.main.Idle? {
      BusySteps(c, s, steps[0]);
      CallSubmitsNothing(c, Apply(c, s, steps[0]), steps[1..], s');
    }
  }

  lemma NumbersUpTo(committed: seq<nat>, n: nat)
    requires |committed| <= n && forall i :: 0 <= i < |committed| ==> committed[i] == i
    ensures committed == Numbers(n) <==> |committed| == n
  {
  }

  /**
   * build: after complete the index holds the lists committed, the first ones submitted. Those are all
   * of them if and only if jobs were pending or none was running when build was called.
   */
  method Build(lists: seq<PostingList>, numDocs: nat, params: Parameters, ghost c: Config, ghost s: State,
               ghost steps: seq<Step>, s': State)
    returns (ok: bool, index: FreqIndex)
    requires Reachable(c, s) && s.main.Idle? && IsCall(c, Apply(c, s, Complete), steps, s') && s.submitted == |lists|
    requires forall i :: 0 <= i < |lists| ==> IsList(numDocs, lists[i])
    ensures ok <==> s'.committed != []
    ensures ok ==> index.numDocs == numDocs && |s'.committed| <= |lists| && index.Indexes(lists[..|s'.committed|])
    ensures |s'.committed| == |lists| <==> s.pending != [] || s.running == []
  {
    hide Invariant, Reachable, IsList, FreqIndex.Indexes, Numbers;
    ReachableHolds(c, s);
    StepKeepsInvariant(c, s, Complete);
    CallsAreShort(c, Apply(c, s, Complete), steps, s');
    CallSubmitsNothing(c, Apply(c, s, Complete), steps, s');
    CompleteOutcome(c, s, steps, s');
    CommittedAreFirst(c, s');
    NumbersUpTo(s'.committed, s'.submitted);
    ok, index := BuildCommitted(lists, numDocs, params, c, s');
  }

  /** A list is submitted with twice its size as its work. */
  ghost function ListWorks(lists: seq<PostingList>): (works: seq<real>)
    ensures |works| == |lists| && forall i :: 0 <= i < |lists| ==> works[i] == (2 * |lists[i].docs|) as real
  {
    seq(|lists|, i requires 0 <= i < |lists| => (2 * |lists[i].docs|) as real)
  }

  /** The postings of the given lists. */
  ghost function TotalPostings(lists: seq<PostingList>, jobs: seq<nat>): nat
    requires forall i :: 0 <= i < |jobs| ==> jobs[i] < |lists|
  {
    if jobs == [] then 0 else TotalPostings(lists, jobs[..|jobs| - 1]) + |lists[jobs[|jobs| - 1]].docs|
  }

  lemma {:induction false} WorkIsPostings(lists: seq<PostingList>, jobs: seq<nat>)
    requires forall i :: 0 <= i < |jobs| ==> jobs[i] < |lists|
    ensures WorkOf(ListWorks(lists), jobs) == 2 * TotalPostings(lists, jobs)
  {
    if jobs != [] {
      WorkIsPostings(lists, jobs[..|jobs| - 1]);
    }
  }

  /**
   * Which indexes are complete, whatever the scheduling was: lists are submitted in any run, one more
   * after them, and then build is called. All lists are in the index if and only if there are no threads
   * or the lists pending when the last one was submitted hold, with it, less than half of the work for a
   * thread in postings.
   */
  lemma AllIndexedIff(lists: seq<PostingList>, last: PostingList, c: Config, steps: seq<Step>, s: State,
                      adding: seq<Step>, s1: State, completing: seq<Step>, s2: State)
    requires IsRun(c, INITIAL, steps, s) && s.main.Idle? && Works(steps) == ListWorks(lists)
    requires IsCall(c, Apply(c, s, AddJob((2 * |last.docs|) as real)), adding, s1) && s1.main.Idle?
    requires IsCall(c, Apply(c, s1, Complete), completing, s2)
    ensures forall i :: 0 <= i < |s.pending| ==> s.pending[i] < |lists|
    ensures |s2.committed| == |lists| + 1 <==>
      c.maxThreads == 0 || (2 * (TotalPostings(lists, s.pending) + |last.docs|)) as real < c.workPerThread
  {
    hide Invariant, IsRun, Numbers, ListWorks, WorkOf, TotalPostings;
    var w := (2 * |last.docs|) as real;
    CompleteAfterAdd(c, steps, s, w, adding, s1, completing, s2);
    WorkIsPostings(lists, s.pending);
    RunHolds(c, steps, s);
    StepKeepsInvariant(c, s, AddJob(w));
    CallsAreShort(c, Apply(c, s, AddJob(w)), adding, s1);
    CallSubmitsNothing(c, Apply(c, s, AddJob(w)), adding, s1);
    StepKeepsInvariant(c, s1, Complete);
    CallsAreShort(c, Apply(c, s1, Complete), completing, s2);
    CallSubmitsNothing(c, Apply(c, s1, Complete), completing, s2);
    CommittedAreFirst(c, s2);
    NumbersUpTo(s2.committed, s2.submitted);
  }

  lemma RunHolds(c: Config, steps: seq<Step>, s: State)
    requires IsRun(c, INITIAL, steps, s)
    ensures Invariant(c, s)
  {
    hide IsRun, Invariant;
    InitiallyHolds(c);
    RunKeepsInvariant(c, INITIAL, steps, s);
  }
}
