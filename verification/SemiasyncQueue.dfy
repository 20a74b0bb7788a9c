/** A queue whose jobs are prepared by threads and committed in submission order (semiasync_queue.hpp). */
module SemiasyncQueue {
  // The queue is a step system: worker threads prepare the jobs of their batches in any interleaving
  // with each other and with the main thread, which starts them, joins them and commits.

  /** What happens to a job; jobs are numbered in submission order. */
  datatype Event = Prepare(job: nat) | Commit(job: nat)

  /** A batch and its thread, which has prepared the first `done` jobs. */
  datatype Batch = Batch(jobs: seq<nat>, done: nat)

  /** Where a call returns to after a batch has been spawned or committed. */
  datatype After = ThenReturn | ThenDrain
  datatype Next = ThenLaunch(after: After) | ThenDrainOn

  /** What the main thread is doing. */
  datatype Main =
    | Idle
    | Spawning(after: After)              // at the check for a free thread
    | Joining(next: Next)                 // waiting for the first batch to be prepared
    | Committing(count: nat, next: Next)  // has committed that many jobs of the first batch
    | Launching(after: After)             // about to start a thread for the pending jobs
    | Draining                            // at the head of the loop of complete

  datatype State = State(pending: seq<nat>, running: seq<Batch>, expectedWork: nat, main: Main,
                         submitted: nat, committed: seq<nat>, trace: seq<Event>)

  datatype Config = Config(maxThreads: nat, workPerThread: real)

  datatype Step =
    | AddJob(expectedWork: real)
    | Complete
    | MainStep
    | Worker(k: nat)

  const INITIAL := State([], [], 0, Idle, 0, [], [])

  predicate Enabled(c: Config, s: State, step: Step) {
    match step
    case AddJob(w) => s.main.Idle? && w >= 0.0
    case Complete => s.main.Idle?
    case MainStep =>
      !s.main.Idle? && (s.main.Joining? || s.main.Committing? ==> s.running != []) &&
      (s.main.Joining? ==> s.running[0].done == |s.running[0].jobs|)
    case Worker(k) => k < |s.running| && s.running[k].done < |s.running[k].jobs|
  }

  /** The work is an unsigned integer: adding to it drops the fraction. */
  function AddWork(work: nat, w: real): nat
    requires w >= 0.0
  {
    assert work as real + w >= 0.0;
    (work as real + w).Floor
  }

  function Add(c: Config, s: State, w: real): State
    requires w >= 0.0
  {
    var job := s.submitted;
    if c.maxThreads == 0 then
      s.(submitted := job + 1, committed := s.committed + [job], trace := s.trace + [Prepare(job), Commit(job)])
    else
      var work := AddWork(s.expectedWork, w);
      s.(pending := s.pending + [job], submitted := job + 1, expectedWork := work,
         main := if work as real >= c.workPerThread then Spawning(ThenReturn) else Idle)
  }

  function StepMain(c: Config, s: State): State
    requires Enabled(c, s, MainStep)
  {
    match s.main
    case Spawning(after) =>
      s.(main := if |s.running| == c.maxThreads then Joining(ThenLaunch(after)) else Launching(after))
    case Launching(after) =>
      s.(running := s.running + [Batch(s.pending, 0)], pending := [], expectedWork := 0,
         main := if after.ThenReturn? then Idle else Draining)
    case Joining(next) => s.(main := Committing(0, next))
    case Committing(count, next) =>
      if count < |s.running[0].jobs| then
        var job := s.running[0].jobs[count];
        s.(committed := s.committed + [job], trace := s.trace + [Commit(job)], main := Committing(count + 1, next))
      else
        s.(running := s.running[1..], main := if next.ThenDrainOn? then Draining else Launching(next.after))
    case Draining => s.(main := if s.running == [] then Idle else Joining(ThenDrainOn))
  }

  function Apply(c: Config, s: State, step: Step): State
    requires Enabled(c, s, step)
  {
    match step
    case AddJob(w) => Add(c, s, w)
    case Complete => if s.pending == [] then s else s.(main := Spawning(ThenDrain))
    case MainStep => StepMain(c, s)
    case Worker(k) =>
      var b := s.running[k];
      s.(running := s.running[k := b.(done := b.done + 1)], trace := s.trace + [Prepare(b.jobs[b.done])])
  }

  ghost predicate IsRun(c: Config, s: State, steps: seq<Step>, s': State)
    decreases |steps|
  {
    if steps == [] then s' == s
    else Enabled(c, s, steps[0]) && IsRun(c, Apply(c, s, steps[0]), steps[1..], s')
  }

  ghost predicate Reachable(c: Config, s: State) {
    exists steps :: IsRun(c, INITIAL, steps, s)
  }

  // ---------------------------------------------------------------------------------------------
  // The invariant

  /** How many jobs of the first batch are committed already. */
  function InFront(s: State): nat {
    if s.main.Committing? then s.main.count else 0
  }

  /** The number of the first job of batch k; jobs are numbered through committed, running and pending ones. */
  ghost function FirstOf(committed: nat, running: seq<Batch>, k: nat): nat
    requires k <= |running|
  {
    if k == 0 then committed else FirstOf(committed, running, k - 1) + |running[k - 1].jobs|
  }

  ghost predicate Counts(jobs: seq<nat>, first: nat) {
    forall i :: 0 <= i < |jobs| ==> jobs[i] == first + i
  }

  ghost predicate InBatches(committed: nat, running: seq<Batch>) {
    forall k :: 0 <= k < |running| ==> BatchAt(committed, running, k)
  }

  ghost predicate BatchAt(committed: nat, running: seq<Batch>, k: nat)
    requires k < |running|
  {
    Counts(running[k].jobs, FirstOf(committed, running, k)) && running[k].done <= |running[k].jobs|
  }

  /** Committed, running and pending jobs are all jobs in submission order. */
  ghost predicate Ordered(s: State) {
    && InFront(s) <= |s.committed|
    && Counts(s.committed, 0) && InBatches(|s.committed| - InFront(s), s.running)
    && Counts(s.pending, FirstOf(|s.committed| - InFront(s), s.running, |s.running|))
    && s.submitted == FirstOf(|s.committed| - InFront(s), s.running, |s.running|) + |s.pending|
  }

  /** Limits on what the main thread can be doing. */
  ghost predicate Controlled(c: Config, s: State) {
    && |s.running| <= c.maxThreads && (forall k :: 0 <= k < |s.running| ==> s.running[k].jobs != [])
    && (c.maxThreads == 0 ==> s.main.Idle? && s.pending == [])
    && (s.main.Joining? || s.main.Committing? ==> s.running != [])
    && (s.main.Committing? ==> s.running[0].done == |s.running[0].jobs| && s.main.count <= |s.running[0].jobs|)
    && (s.main.Launching? ==> |s.running| < c.maxThreads)
    && (Drains(s.main) ==> s.pending == [])
    && (s.main.Spawning? || s.main.Launching? ==> s.pending != [])
    && (s.main.Joining? && s.main.next.ThenLaunch? ==> s.pending != [])
    && (s.main.Committing? && s.main.next.ThenLaunch? ==> s.pending != [])
    && (WaitsToLaunch(s.main) ==> |s.running| == c.maxThreads)
  }

  /** The first batch is joined and committed to make room for the next one. */
  predicate WaitsToLaunch(main: Main) {
    (main.Joining? && main.next.ThenLaunch?) || (main.Committing? && main.next.ThenLaunch?)
  }

  /** complete has spawned the pending jobs and is committing the rest. */
  predicate Drains(main: Main) {
    main.Draining? || (main.Joining? && main.next.ThenDrainOn?) || (main.Committing? && main.next.ThenDrainOn?)
  }

  function CommitsOf(trace: seq<Event>): seq<nat> {
    if trace == [] then []
    else
      var n := |trace| - 1;
      CommitsOf(trace[..n]) + if trace[n].Commit? then [trace[n].job] else []
  }

  function PreparesOf(trace: seq<Event>): seq<nat> {
    if trace == [] then []
    else
      var n := |trace| - 1;
      PreparesOf(trace[..n]) + if trace[n].Prepare? then [trace[n].job] else []
  }

  /** The worker of batch k has prepared the job. */
  ghost predicate PreparedIn(first: nat, running: seq<Batch>, k: nat, job: nat)
    requires k < |running|
  {
    var from := FirstOf(first, running, k);
    from <= job < from + running[k].done
  }

  ghost predicate PreparedAmong(first: nat, running: seq<Batch>, job: nat) {
    exists k :: 0 <= k < |running| && PreparedIn(first, running, k, job)
  }

  ghost predicate IsPrepared(s: State, job: nat)
    requires InFront(s) <= |s.committed|
  {
    job < |s.committed| || PreparedAmong(|s.committed| - InFront(s), s.running, job)
  }

  ghost predicate Distinct(jobs: seq<nat>) {
    forall i, j :: 0 <= i < j < |jobs| ==> jobs[i] != jobs[j]
  }

  /** Commits follow submission order; every job is prepared at most once, and before its commit. */
  ghost predicate Traced(s: State)
    requires InFront(s) <= |s.committed|
  {
    && CommitsOf(s.trace) == s.committed
    && Distinct(PreparesOf(s.trace))
    && (forall job: nat :: job in PreparesOf(s.trace) <==> IsPrepared(s, job))
    && (forall p :: 0 <= p < |s.trace| && s.trace[p].Commit? ==> s.trace[p].job in PreparesOf(s.trace[..p]))
  }

  ghost predicate Invariant(c: Config, s: State) {
    Ordered(s) && Controlled(c, s) && Traced(s)
  }

  // ---------------------------------------------------------------------------------------------
  // Job numbers

  lemma {:induction false} FirstsAscend(committed: nat, running: seq<Batch>, k: nat, l: nat)
    requires k <= l <= |running|
    ensures FirstOf(committed, running, k) <= FirstOf(committed, running, l)
    ensures k < l ==> FirstOf(committed, running, k) + |running[k].jobs| <= FirstOf(committed, running, l)
    decreases l
  {
    if k < l {
      FirstsAscend(committed, running, k, l - 1);
    }
  }

  /** Numbers depend only on the sizes of the batches before. */
  lemma {:induction false} SameFirsts(committed: nat, running: seq<Batch>, committed': nat, running': seq<Batch>,
                                      k: nat)
    requires k <= |running| && k <= |running'| && committed == committed'
    requires forall i :: 0 <= i < k ==> |running[i].jobs| == |running'[i].jobs|
    ensures FirstOf(committed, running, k) == FirstOf(committed', running', k)
  {
    if k > 0 {
      SameFirsts(committed, running, committed', running', k - 1);
    }
  }

  /** Dropping the first batch once all of it is committed. */
  lemma {:induction false} FirstsWithoutFront(committed: nat, running: seq<Batch>, k: nat)
    requires 1 <= k <= |running|
    ensures FirstOf(committed + |running[0].jobs|, running[1..], k - 1) == FirstOf(committed, running, k)
  {
    if k == 1 {
      assert FirstOf(committed, running, 0) == committed;
    } else {
      FirstsWithoutFront(committed, running, k - 1);
    }
  }

  lemma CommitsOfAppended(trace: seq<Event>, e: Event)
    ensures CommitsOf(trace + [e]) == CommitsOf(trace) + if e.Commit? then [e.job] else []
    ensures PreparesOf(trace + [e]) == PreparesOf(trace) + if e.Prepare? then [e.job] else []
  {
    assert (trace + [e])[..|trace|] == trace;
  }

  // ---------------------------------------------------------------------------------------------
  // Every step keeps the invariant

  lemma BatchAppended(first: nat, running: seq<Batch>, b: Batch)
    requires InBatches(first, running) && Counts(b.jobs, FirstOf(first, running, |running|)) && b.done <= |b.jobs|
    ensures InBatches(first, running + [b])
    ensures FirstOf(first, running + [b], |running| + 1) == FirstOf(first, running, |running|) + |b.jobs|
  {
    hide Counts, FirstOf;
    var running' := running + [b];
    forall k | 0 <= k < |running'|
      ensures BatchAt(first, running', k)
    {
      SameFirsts(first, running', first, running, k);
      assert k < |running| ==> BatchAt(first, running, k);
    }
    SameFirsts(first, running', first, running, |running|);
    NextFirst(first, running', |running|);
  }

  lemma NextFirst(first: nat, running: seq<Batch>, k: nat)
    requires k < |running|
    ensures FirstOf(first, running, k + 1) == FirstOf(first, running, k) + |running[k].jobs|
  {
  }

  lemma BatchPrepared(first: nat, running: seq<Batch>, k: nat)
    requires InBatches(first, running) && k < |running| && running[k].done < |running[k].jobs|
    ensures var running' := running[k := running[k].(done := running[k].done + 1)];
      && InBatches(first, running')
      && FirstOf(first, running', |running|) == FirstOf(first, running, |running|)
  {
    hide Counts, FirstOf;
    var running' := running[k := running[k].(done := running[k].done + 1)];
    forall l: nat | l < |running'|
      ensures BatchAt(first, running', l)
    {
      SameFirsts(first, running', first, running, l);
      assert BatchAt(first, running, l);
    }
    SameFirsts(first, running', first, running, |running|);
  }

  lemma BatchPopped(first: nat, running: seq<Batch>)
    requires running != [] && InBatches(first, running)
    ensures var rest := running[1..];
      && InBatches(first + |running[0].jobs|, rest)
      && FirstOf(first + |running[0].jobs|, rest, |rest|) == FirstOf(first, running, |running|)
  {
    hide Counts, FirstOf;
    var rest, from := running[1..], first + |running[0].jobs|;
    forall k: nat | k < |rest|
      ensures BatchAt(from, rest, k)
    {
      FirstsWithoutFront(first, running, k + 1);
      assert BatchAt(first, running, k + 1);
    }
    FirstsWithoutFront(first, running, |running|);
  }

  lemma StepKeepsOrder(c: Config, s: State, step: Step)
    requires Invariant(c, s) && Enabled(c, s, step)
    ensures Ordered(Apply(c, s, step))
  {
    hide Traced, InBatches, FirstOf, AddWork;
    var first := |s.committed| - InFront(s);
    match step
    case AddJob(w) => AddKeepsOrder(c, s, w);
    case Complete =>
    case Worker(k) => BatchPrepared(first, s.running, k);
    case MainStep =>
      match s.main
      case Launching(after) => BatchAppended(first, s.running, Batch(s.pending, 0));
      case Committing(count, next) => CommittingKeepsOrder(c, s);
      case _ =>
  }

  lemma CommittingKeepsOrder(c: Config, s: State)
    requires Invariant(c, s) && s.main.Committing?
    ensures Ordered(StepMain(c, s))
  {
    hide Traced, InBatches;
    if s.main.count < |s.running[0].jobs| {
      NextToCommit(c, s);
    } else {
      BatchPopped(|s.committed| - InFront(s), s.running);
    }
  }

  /** The next job to commit is the first one that is not committed. */
  lemma NextToCommit(c: Config, s: State)
    requires Invariant(c, s) && s.main.Committing? && s.main.count < |s.running[0].jobs|
    ensures s.running[0].jobs[s.main.count] == |s.committed|
  {
    hide Traced;
    assert BatchAt(|s.committed| - InFront(s), s.running, 0);
  }

  lemma AddKeepsOrder(c: Config, s: State, w: real)
    requires Invariant(c, s) && s.main.Idle? && w >= 0.0
    ensures Ordered(Add(c, s, w))
  {
    hide Traced, InBatches, AddWork;
    if c.maxThreads == 0 {
      assert FirstOf(|s.committed|, s.running, 0) == |s.committed|;
      assert s.running == [];
      NoBatches(|s.committed| + 1);
    }
  }

  lemma NoBatches(first: nat)
    ensures InBatches(first, []) && FirstOf(first, [], 0) == first
  {
  }

  lemma StepKeepsControl(c: Config, s: State, step: Step)
    requires Invariant(c, s) && Enabled(c, s, step)
    ensures Controlled(c, Apply(c, s, step))
  {
    hide Traced, Ordered;
  }

  // ---------------------------------------------------------------------------------------------
  // The trace

  lemma AppendedUnprepared(first: nat, running: seq<Batch>, b: Batch, job: nat)
    requires b.done == 0
    ensures PreparedAmong(first, running + [b], job) <==> PreparedAmong(first, running, job)
  {
    hide FirstOf;
    var running' := running + [b];
    forall k: nat | k < |running|
      ensures PreparedIn(first, running', k, job) <==> PreparedIn(first, running, k, job)
    {
      SameFirsts(first, running', first, running, k);
    }
    if PreparedAmong(first, running', job) {
      var k :| 0 <= k < |running'| && PreparedIn(first, running', k, job);
      assert k < |running|;
    }
    if PreparedAmong(first, running, job) {
      var k :| 0 <= k < |running| && PreparedIn(first, running, k, job);
      assert PreparedIn(first, running', k, job);
    }
  }

  lemma PoppedPrepared(first: nat, running: seq<Batch>, job: nat)
    requires running != []
    ensures PreparedAmong(first, running, job) <==>
      PreparedIn(first, running, 0, job) || PreparedAmong(first + |running[0].jobs|, running[1..], job)
  {
    hide FirstOf;
    var rest, from := running[1..], first + |running[0].jobs|;
    forall k: nat | k < |rest|
      ensures PreparedIn(from, rest, k, job) <==> PreparedIn(first, running, k + 1, job)
    {
      FirstsWithoutFront(first, running, k + 1);
    }
    if PreparedAmong(first, running, job) {
      var k :| 0 <= k < |running| && PreparedIn(first, running, k, job);
      assert k > 0 ==> PreparedIn(from, rest, k - 1, job);
    }
    if PreparedAmong(from, rest, job) {
      var k :| 0 <= k < |rest| && PreparedIn(from, rest, k, job);
      assert PreparedIn(first, running, k + 1, job);
    }
  }

  /** A worker prepares one more job, which nobody has prepared before. */
  lemma NewlyPrepared(first: nat, running: seq<Batch>, k: nat, job: nat)
    requires InBatches(first, running) && k < |running| && running[k].done < |running[k].jobs|
    ensures var newJob := running[k].jobs[running[k].done];
      && newJob == FirstOf(first, running, k) + running[k].done && !PreparedAmong(first, running, newJob)
      && (PreparedAmong(first, running[k := running[k].(done := running[k].done + 1)], job) <==>
          PreparedAmong(first, running, job) || job == newJob)
  {
    hide FirstOf;
    var running' := running[k := running[k].(done := running[k].done + 1)];
    var newJob := running[k].jobs[running[k].done];
    assert BatchAt(first, running, k);
    forall l: nat | l < |running|
      ensures !PreparedIn(first, running, l, newJob)
      ensures PreparedIn(first, running', l, job) <==> PreparedIn(first, running, l, job) || (l == k && job == newJob)
    {
      SameFirsts(first, running', first, running, l);
      assert BatchAt(first, running, l);
      if l < k {
        FirstsAscend(first, running, l, k);
      } else if l > k {
        FirstsAscend(first, running, k, l);
      }
    }
    if PreparedAmong(first, running', job) {
      var l :| 0 <= l < |running'| && PreparedIn(first, running', l, job);
      assert PreparedIn(first, running, l, job) || job == newJob;
    }
    if PreparedAmong(first, running, job) {
      var l :| 0 <= l < |running| && PreparedIn(first, running, l, job);
      assert PreparedIn(first, running', l, job);
    }
    assert job == newJob ==> PreparedIn(first, running', k, job);
  }

  lemma DistinctAppended(jobs: seq<nat>, job: nat)
    requires Distinct(jobs) && job !in jobs
    ensures Distinct(jobs + [job])
  {
  }

  /** What a new event does to the trace properties. */
  lemma TraceAppended(s: State, s': State, e: Event)
    requires InFront(s) <= |s.committed| && InFront(s') <= |s'.committed| && Traced(s) && s'.trace == s.trace + [e]
    requires s'.committed == s.committed + if e.Commit? then [e.job] else []
    requires if e.Commit? then IsPrepared(s, e.job) else !IsPrepared(s, e.job)
    requires forall job: nat :: IsPrepared(s', job) <==> IsPrepared(s, job) || job == e.job
    ensures Traced(s')
  {
    hide IsPrepared;
    CommitsOfAppended(s.trace, e);
    if e.Prepare? {
      DistinctAppended(PreparesOf(s.trace), e.job);
    }
    forall p | 0 <= p < |s'.trace| && s'.trace[p].Commit?
      ensures s'.trace[p].job in PreparesOf(s'.trace[..p])
    {
      assert s'.trace[..p] == s.trace[..p];
      assert s.trace[..|s.trace|] == s.trace;
    }
  }

  lemma SameTrace(s: State, s': State)
    requires InFront(s) <= |s.committed| && InFront(s') <= |s'.committed| && Traced(s)
    requires s'.trace == s.trace && s'.committed == s.committed
    requires forall job: nat :: IsPrepared(s', job) <==> IsPrepared(s, job)
    ensures Traced(s')
  {
    hide IsPrepared;
  }

  lemma WorkerKeepsTrace(c: Config, s: State, k: nat)
    requires Invariant(c, s) && Enabled(c, s, Worker(k)) && Ordered(Apply(c, s, Worker(k)))
    ensures Traced(Apply(c, s, Worker(k)))
  {
    hide Traced, PreparedAmong, InBatches, FirstOf;
    var s', first := Apply(c, s, Worker(k)), |s.committed| - InFront(s);
    var job := s.running[k].jobs[s.running[k].done];
    forall x: nat
      ensures IsPrepared(s', x) <==> IsPrepared(s, x) || x == job
    {
      NewlyPrepared(first, s.running, k, x);
    }
    NewlyPrepared(first, s.running, k, job);
    BeyondCommitted(c, s, k);
    TraceAppended(s, s', Prepare(job));
  }

  /** What a worker still has to prepare is not committed. */
  lemma BeyondCommitted(c: Config, s: State, k: nat)
    requires Invariant(c, s) && Enabled(c, s, Worker(k))
    ensures FirstOf(|s.committed| - InFront(s), s.running, k) + s.running[k].done >= |s.committed|
  {
    hide Traced, InBatches, FirstOf;
    var first := |s.committed| - InFront(s);
    assert FirstOf(first, s.running, 0) == first by { ZeroFirst(first, s.running); }
    if k > 0 {
      FirstsAscend(first, s.running, 0, k);
    }
  }

  lemma ZeroFirst(first: nat, running: seq<Batch>)
    ensures FirstOf(first, running, 0) == first
  {
  }

  lemma CommitKeepsTrace(c: Config, s: State)
    requires Invariant(c, s) && s.main.Committing? && s.main.count < |s.running[0].jobs| && Ordered(StepMain(c, s))
    ensures Traced(StepMain(c, s))
  {
    hide Traced, PreparedAmong, InBatches;
    var s' := StepMain(c, s);
    var first := |s.committed| - InFront(s);
    NextToCommit(c, s);
    assert PreparedIn(first, s.running, 0, |s.committed|);
    Among(first, s.running, 0, |s.committed|);
    TraceAppended(s, s', Commit(|s.committed|));
  }

  lemma Among(first: nat, running: seq<Batch>, k: nat, job: nat)
    requires k < |running| && PreparedIn(first, running, k, job)
    ensures PreparedAmong(first, running, job)
  {
  }

  lemma PopKeepsTrace(c: Config, s: State)
    requires Invariant(c, s) && s.main.Committing? && s.main.count == |s.running[0].jobs| && Ordered(StepMain(c, s))
    ensures Traced(StepMain(c, s))
  {
    hide Traced, PreparedAmong, InBatches;
    var s' := StepMain(c, s);
    forall x: nat
      ensures IsPrepared(s', x) <==> IsPrepared(s, x)
    {
      PoppedPrepared(|s.committed| - InFront(s), s.running, x);
    }
    SameTrace(s, s');
  }

  lemma LaunchKeepsTrace(c: Config, s: State)
    requires Invariant(c, s) && s.main.Launching? && Ordered(StepMain(c, s))
    ensures Traced(StepMain(c, s))
  {
    hide Traced, PreparedAmong, InBatches, FirstOf;
    var s' := StepMain(c, s);
    forall x: nat
      ensures IsPrepared(s', x) <==> IsPrepared(s, x)
    {
      AppendedUnprepared(|s.committed|, s.running, Batch(s.pending, 0), x);
    }
    SameTrace(s, s');
  }

  lemma InlineKeepsTrace(c: Config, s: State, w: real)
    requires Invariant(c, s) && s.main.Idle? && w >= 0.0 && c.maxThreads == 0 && Ordered(Add(c, s, w))
    ensures Traced(Add(c, s, w))
  {
    hide Traced, InBatches;
    var s', job := Add(c, s, w), s.submitted;
    assert FirstOf(|s.committed|, s.running, 0) == |s.committed|;
    // between the two events the job is prepared by the main thread
    var busy := s.(running := [Batch([job], 1)], trace := s.trace + [Prepare(job)]);
    forall x: nat
      ensures IsPrepared(busy, x) <==> IsPrepared(s, x) || x == job
    {
      OneBatch(|s.committed|, busy.running, x);
    }
    TraceAppended(s, busy, Prepare(job));
    assert s'.trace == busy.trace + [Commit(job)];
    TraceAppended(busy, s', Commit(job));
  }

  lemma OneBatch(first: nat, running: seq<Batch>, job: nat)
    requires |running| == 1
    ensures PreparedAmong(first, running, job) <==> first <= job < first + running[0].done
  {
    assert PreparedIn(first, running, 0, job) <==> first <= job < first + running[0].done;
  }

  lemma StepKeepsTrace(c: Config, s: State, step: Step)
    requires Invariant(c, s) && Enabled(c, s, step) && Ordered(Apply(c, s, step))
    ensures Traced(Apply(c, s, step))
  {
    hide Traced, Ordered, Controlled, PreparedAmong;
    match step
    case AddJob(w) =>
      if c.maxThreads == 0 {
        InlineKeepsTrace(c, s, w);
      } else {
        QuietKeepsTrace(c, s, Apply(c, s, step));
      }
    case Complete => QuietKeepsTrace(c, s, Apply(c, s, step));
    case Worker(k) => WorkerKeepsTrace(c, s, k);
    case MainStep => MainKeepsTrace(c, s);
  }

  lemma MainKeepsTrace(c: Config, s: State)
    requires Invariant(c, s) && Enabled(c, s, MainStep) && Ordered(StepMain(c, s))
    ensures Traced(StepMain(c, s))
  {
    hide Traced, Ordered, PreparedAmong;
    if s.main.Launching? {
      LaunchKeepsTrace(c, s);
    } else if s.main.Committing? {
      if s.main.count < |s.running[0].jobs| {
        CommitKeepsTrace(c, s);
      } else {
        PopKeepsTrace(c, s);
      }
    } else {
      QuietKeepsTrace(c, s, StepMain(c, s));
    }
  }

  /** Steps that touch neither batches nor trace. */
  lemma QuietKeepsTrace(c: Config, s: State, s': State)
    requires Invariant(c, s) && Ordered(s') && s'.trace == s.trace && s'.committed == s.committed
    requires s'.running == s.running
    requires InFront(s) == InFront(s') == 0
    ensures Traced(s')
  {
    hide Traced, PreparedAmong, InBatches;
    SameTrace(s, s');
  }

  // ---------------------------------------------------------------------------------------------
  // Runs

  lemma InitiallyHolds(c: Config)
    ensures Invariant(c, INITIAL)
  {
    NoBatches(0);
  }

  lemma StepKeepsInvariant(c: Config, s: State, step: Step)
    requires Invariant(c, s) && Enabled(c, s, step)
    ensures Invariant(c, Apply(c, s, step))
  {
    hide Ordered, Controlled, Traced, Apply, Enabled;
    StepKeepsOrder(c, s, step);
    StepKeepsControl(c, s, step);
    StepKeepsTrace(c, s, step);
  }

  lemma {:induction false} RunKeepsInvariant(c: Config, s: State, steps: seq<Step>, s': State)
    requires Invariant(c, s) && IsRun(c, s, steps, s')
    ensures Invariant(c, s')
    decreases |steps|
  {
    hide Invariant, Apply, Enabled;
    if steps != [] {
      StepKeepsInvariant(c, s, steps[0]);
      RunKeepsInvariant(c, Apply(c, s, steps[0]), steps[1..], s');
    }
  }

  lemma ReachableHolds(c: Config, s: State)
    requires Reachable(c, s)
    ensures Invariant(c, s)
  {
    hide Invariant, IsRun;
    InitiallyHolds(c);
    var steps :| IsRun(c, INITIAL, steps, s);
    RunKeepsInvariant(c, INITIAL, steps, s);
  }

  /** The jobs of all batches, in order. */
  ghost function Flat(running: seq<Batch>): seq<nat> {
    if running == [] then [] else Flat(running[..|running| - 1]) + running[|running| - 1].jobs
  }

  ghost function Numbers(n: nat): (r: seq<nat>)
    ensures |r| == n && forall i :: 0 <= i < n ==> r[i] == i
  {
    if n == 0 then [] else Numbers(n - 1) + [n - 1]
  }

  lemma {:induction false} FlatCounts(first: nat, running: seq<Batch>)
    requires InBatches(first, running)
    ensures |Flat(running)| == FirstOf(first, running, |running|) - first && Counts(Flat(running), first)
    decreases |running|
  {
    hide FirstOf, InBatches;
    if running == [] {
      ZeroFirst(first, running);
    } else {
      var n := |running| - 1;
      FewerBatches(first, running, n);
      FlatCounts(first, running[..n]);
      SameFirsts(first, running[..n], first, running, n);
      NextFirst(first, running, n);
    }
  }

  lemma FewerBatches(first: nat, running: seq<Batch>, n: nat)
    requires InBatches(first, running) && n == |running| - 1
    ensures InBatches(first, running[..n]) && BatchAt(first, running, n)
  {
    hide FirstOf;
    forall k: nat | k < n
      ensures BatchAt(first, running[..n], k)
    {
      SameFirsts(first, running[..n], first, running, k);
      assert BatchAt(first, running, k);
    }
    assert BatchAt(first, running, n);
  }

  /**
   * Safety over every interleaving: committed jobs, then running ones that are not committed, then
   * pending ones are exactly the submitted jobs in order; every job is prepared at most once and before
   * its one commit; no more batches run than there are threads, and only if there are as many is a batch
   * waited for before the next one is started.
   */
  lemma QueueSafety(c: Config, s: State)
    requires Reachable(c, s)
    ensures InFront(s) <= |Flat(s.running)|
    ensures s.committed + Flat(s.running)[InFront(s)..] + s.pending == Numbers(s.submitted)
    ensures CommitsOf(s.trace) == s.committed && Distinct(PreparesOf(s.trace))
    ensures forall p :: 0 <= p < |s.trace| && s.trace[p].Commit? ==> s.trace[p].job in PreparesOf(s.trace[..p])
    ensures |s.running| <= c.maxThreads && (WaitsToLaunch(s.main) ==> |s.running| == c.maxThreads)
  {
    hide InBatches, FirstOf, Flat, PreparedAmong, Reachable;
    ReachableHolds(c, s);
    var first := |s.committed| - InFront(s);
    FlatCounts(first, s.running);
    FrontFits(c, s);
    var all := s.committed + Flat(s.running)[InFront(s)..] + s.pending;
    assert |all| == s.submitted;
    assert forall i :: 0 <= i < |all| ==> all[i] == i;
  }

  lemma FrontFits(c: Config, s: State)
    requires Invariant(c, s)
    ensures InFront(s) <= |Flat(s.running)|
  {
    hide Traced, Flat;
    var first := |s.committed| - InFront(s);
    FlatCounts(first, s.running);
    ZeroFirst(first, s.running);
    if s.main.Committing? {
      FirstsAscend(first, s.running, 0, |s.running|);
    }
  }

  // ---------------------------------------------------------------------------------------------
  // Calls return

  ghost function Unprepared(running: seq<Batch>): int {
    if running == [] then 0
    else Unprepared(running[..|running| - 1]) + |running[|running| - 1].jobs| - running[|running| - 1].done
  }

  ghost function Progress(main: Main): nat {
    match main
    case Idle => 0
    case Spawning(_) => 3
    case Launching(_) => 1
    case Joining(_) => 2
    case Committing(_, _) => 1
    case Draining => 3
  }

  /** What is left to do before the main thread is idle, in steps. */
  ghost function Measure(s: State): int {
    Unprepared(s.running) + |s.pending| + (s.submitted - |s.committed|) + 5 * |s.running| +
    (if s.pending == [] then 0 else 8) + Progress(s.main)
  }

  lemma {:induction false} UnpreparedUpdated(running: seq<Batch>, k: nat)
    requires k < |running|
    ensures Unprepared(running[k := running[k].(done := running[k].done + 1)]) == Unprepared(running) - 1
    decreases |running|
  {
    var n := |running| - 1;
    var running' := running[k := running[k].(done := running[k].done + 1)];
    if k < n {
      UnpreparedUpdated(running[..n], k);
      assert running'[..n] == running[..n][k := running[k].(done := running[k].done + 1)];
    } else {
      assert running'[..n] == running[..n];
    }
  }

  lemma {:induction false} UnpreparedPopped(running: seq<Batch>)
    requires running != [] && running[0].done == |running[0].jobs|
    ensures Unprepared(running[1..]) == Unprepared(running)
    decreases |running|
  {
    var n := |running| - 1;
    if n > 0 {
      UnpreparedPopped(running[..n]);
      assert running[1..][..n - 1] == running[..n][1..];
    } else {
      assert running[..0] == [] && running[1..] == [];
    }
  }

  lemma UnpreparedAppended(running: seq<Batch>, b: Batch)
    ensures Unprepared(running + [b]) == Unprepared(running) + |b.jobs| - b.done
  {
    assert (running + [b])[..|running|] == running;
  }

  lemma {:induction false} UnpreparedNonNegative(running: seq<Batch>)
    requires forall k :: 0 <= k < |running| ==> running[k].done <= |running[k].jobs|
    ensures Unprepared(running) >= 0
  {
    if running != [] {
      UnpreparedNonNegative(running[..|running| - 1]);
    }
  }

  lemma MeasureNonNegative(c: Config, s: State)
    requires Invariant(c, s)
    ensures Measure(s) >= 0
  {
    hide Traced, FirstOf;
    forall k | 0 <= k < |s.running|
      ensures s.running[k].done <= |s.running[k].jobs|
    {
      assert BatchAt(|s.committed| - InFront(s), s.running, k);
    }
    UnpreparedNonNegative(s.running);
    CommittedFew(c, s);
  }

  lemma CommittedFew(c: Config, s: State)
    requires Invariant(c, s)
    ensures |s.committed| <= s.submitted
  {
    hide Traced, Flat;
    FrontFits(c, s);
    FlatCounts(|s.committed| - InFront(s), s.running);
  }

  /** Every step of a worker or of a busy main thread leaves less to do. */
  lemma StepsDecrease(c: Config, s: State, step: Step)
    requires Invariant(c, s) && Enabled(c, s, step) && (step.MainStep? || step.Worker?)
    ensures Measure(Apply(c, s, step)) < Measure(s)
  {
    hide Traced, Ordered, Unprepared;
    match step
    case Worker(k) => UnpreparedUpdated(s.running, k);
    case MainStep =>
      match s.main
      case Launching(after) => UnpreparedAppended(s.running, Batch(s.pending, 0));
      case Committing(count, next) => UnpreparedPopped(s.running);
      case _ =>
  }

  /** A busy main thread can take a step, or waits for a worker that can. */
  lemma NoDeadlock(c: Config, s: State)
    requires Invariant(c, s) && !s.main.Idle?
    ensures Enabled(c, s, MainStep) || Enabled(c, s, Worker(0))
  {
    hide Traced;
    if s.main.Joining? {
      assert BatchAt(|s.committed| - InFront(s), s.running, 0);
    }
  }

  /** The steps from a state until the main thread is idle. */
  ghost predicate IsCall(c: Config, s: State, steps: seq<Step>, s': State)
    decreases |steps|
  {
    if s.main.Idle? then steps == [] && s' == s
    else steps != [] && Enabled(c, s, steps[0]) && IsCall(c, Apply(c, s, steps[0]), steps[1..], s')
  }

  lemma {:induction false} CallsAreShort(c: Config, s: State, steps: seq<Step>, s': State)
    requires Invariant(c, s) && IsCall(c, s, steps, s')
    ensures |steps| <= Measure(s) && Invariant(c, s')
    decreases |steps|
  {
    hide Invariant, Apply, Enabled, Measure;
    MeasureNonNegative(c, s);
    if !s.main.Idle? {
      BusySteps(c, s, steps[0]);
      StepKeepsInvariant(c, s, steps[0]);
      StepsDecrease(c, s, steps[0]);
      CallsAreShort(c, Apply(c, s, steps[0]), steps[1..], s');
    }
  }

  lemma BusySteps(c: Config, s: State, step: Step)
    requires Enabled(c, s, step) && !s.main.Idle?
    ensures step.MainStep? || step.Worker?
  {
  }

  /** The main thread is inside complete. */
  predicate Completing(main: Main) {
    || Drains(main)
    || (main.Spawning? && main.after.ThenDrain?) || (main.Launching? && main.after.ThenDrain?)
    || (main.Joining? && main.next.ThenLaunch? && main.next.after.ThenDrain?)
    || (main.Committing? && main.next.ThenLaunch? && main.next.after.ThenDrain?)
  }

  lemma StillCompleting(c: Config, s: State, step: Step)
    requires Invariant(c, s) && Completing(s.main) && Enabled(c, s, step)
    ensures var s' := Apply(c, s, step);
      Completing(s'.main) || (s'.main.Idle? && s'.running == [] && s'.pending == [])
  {
    hide Traced, Ordered;
  }

  lemma {:induction false} CompletingCall(c: Config, s: State, steps: seq<Step>, s': State)
    requires Invariant(c, s) && IsCall(c, s, steps, s')
    requires Completing(s.main) || (s.main.Idle? && s.running == [] && s.pending == [])
    ensures s'.main.Idle? && s'.running == [] && s'.pending == []
    decreases |steps|
  {
    hide Invariant, Apply, Enabled;
    if !s.main.Idle? {
      StillCompleting(c, s, steps[0]);
      StepKeepsInvariant(c, s, steps[0]);
      CompletingCall(c, Apply(c, s, steps[0]), steps[1..], s');
    }
  }

  /** Idle and empty means everything is committed, each job after it was prepared. */
  lemma NothingLeft(c: Config, s: State)
    requires Invariant(c, s) && s.main.Idle?
    ensures s.committed == Numbers(s.submitted) <==> s.running == [] && s.pending == []
  {
    hide Traced;
    ZeroFirst(|s.committed|, s.running);
    FirstsAscend(|s.committed|, s.running, 0, |s.running|);
    assert s.running != [] ==> s.running[0].jobs != [];
    if s.running == [] && s.pending == [] {
      assert s.committed == Numbers(s.submitted);
    }
  }

  /**
   * complete commits everything exactly if jobs are pending or no batch is running: if the last
   * submission has just spawned its batch, complete returns at once and leaves it uncommitted.
   */
  lemma CompleteOutcome(c: Config, s: State, steps: seq<Step>, s': State)
    requires Reachable(c, s) && s.main.Idle? && IsCall(c, Apply(c, s, Complete), steps, s')
    ensures s'.committed == Numbers(s'.submitted) <==> s.pending != [] || s.running == []
  {
    hide Invariant, Reachable;
    ReachableHolds(c, s);
    CompleteCommits(c, s, steps, s');
  }

  lemma CompleteCommits(c: Config, s: State, steps: seq<Step>, s': State)
    requires Invariant(c, s) && s.main.Idle? && IsCall(c, Apply(c, s, Complete), steps, s')
    ensures s'.committed == Numbers(s'.submitted) <==> s.pending != [] || s.running == []
  {
    hide Invariant;
    StepKeepsInvariant(c, s, Complete);
    CallsAreShort(c, Apply(c, s, Complete), steps, s');
    if s.pending != [] {
      CompletingCall(c, Apply(c, s, Complete), steps, s');
    }
    NothingLeft(c, s');
  }

  /**
   * The failing side is reached whenever the last job submitted fills up a batch: complete finds
   * nothing pending and returns, however long the batch still runs.
   */
  lemma LastBatchIsLost(c: Config, w: real) returns (s: State)
    requires c.maxThreads >= 1 && w >= 0.0 && AddWork(0, w) as real >= c.workPerThread
    ensures Reachable(c, s) && s.main.Idle? && s.pending == [] && s.running != [] && s.submitted == 1
    ensures forall steps, s' :: IsCall(c, Apply(c, s, Complete), steps, s') ==> s'.committed == [] && s'.submitted == 1
  {
    var added := Apply(c, INITIAL, AddJob(w));
    var launching := Apply(c, added, MainStep);
    s := Apply(c, launching, MainStep);
    var steps := [AddJob(w), MainStep, MainStep];
    assert IsRun(c, s, [], s);
    assert steps[2..] == [MainStep] && steps[2..][1..] == [];
    assert IsRun(c, launching, steps[2..], s);
    assert steps[1..][1..] == steps[2..];
    assert IsRun(c, added, steps[1..], s);
    assert IsRun(c, INITIAL, steps, s);
  }

  // ---------------------------------------------------------------------------------------------
  // Work adds up

  /** The expected work of the jobs submitted, in order. */
  ghost function Works(steps: seq<Step>): seq<real> {
    if steps == [] then []
    else (if steps[0].AddJob? then [steps[0].expectedWork] else []) + Works(steps[1..])
  }

  /** The work of the given jobs together, that of each job rounded down. */
  ghost function WorkOf(works: seq<real>, jobs: seq<nat>): int
    requires forall i :: 0 <= i < |jobs| ==> jobs[i] < |works|
  {
    if jobs == [] then 0 else WorkOf(works, jobs[..|jobs| - 1]) + works[jobs[|jobs| - 1]].Floor
  }

  lemma {:induction false} LaterWorks(works: seq<real>, more: seq<real>, jobs: seq<nat>)
    requires forall i :: 0 <= i < |jobs| ==> jobs[i] < |works|
    ensures WorkOf(works + more, jobs) == WorkOf(works, jobs)
    decreases |jobs|
  {
    if jobs != [] {
      LaterWorks(works, more, jobs[..|jobs| - 1]);
    }
  }

  /** The work noted is that of the pending jobs. */
  ghost predicate WorkNoted(works: seq<real>, s: State) {
    && |works| == s.submitted && (forall i :: 0 <= i < |s.pending| ==> s.pending[i] < s.submitted)
    && s.expectedWork == WorkOf(works, s.pending)
  }

  lemma AddNotesWork(c: Config, works: seq<real>, s: State, w: real)
    requires WorkNoted(works, s) && w >= 0.0
    ensures WorkNoted(works + [w], Add(c, s, w))
  {
    LaterWorks(works, [w], s.pending);
    AddWorkRoundsDown(s.expectedWork, w);
    if c.maxThreads > 0 {
      var jobs := s.pending + [s.submitted];
      assert jobs[..|jobs| - 1] == s.pending;
      assert WorkOf(works + [w], jobs) == WorkOf(works + [w], s.pending) + w.Floor;
    }
  }

  lemma AddWorkRoundsDown(work: nat, w: real)
    requires w >= 0.0
    ensures AddWork(work, w) == work + w.Floor
  {
  }

  lemma StepNotesWork(c: Config, works: seq<real>, s: State, step: Step)
    requires WorkNoted(works, s) && Enabled(c, s, step)
    ensures WorkNoted(works + if step.AddJob? then [step.expectedWork] else [], Apply(c, s, step))
  {
    hide WorkOf, AddWork;
    assert works + [] == works;
    if step.AddJob? {
      AddNotesWork(c, works, s, step.expectedWork);
    } else {
      NoJobsNoWork(works);
    }
  }

  lemma NoJobsNoWork(works: seq<real>)
    ensures WorkOf(works, []) == 0
  {
  }

  lemma {:induction false} RunNotesWork(c: Config, works: seq<real>, s: State, steps: seq<Step>, s': State)
    requires WorkNoted(works, s) && IsRun(c, s, steps, s')
    ensures WorkNoted(works + Works(steps), s')
    decreases |steps|
  {
    hide WorkNoted, Apply, Enabled;
    if steps == [] {
      assert works + [] == works;
    } else {
      var first := if steps[0].AddJob? then [steps[0].expectedWork] else [];
      StepNotesWork(c, works, s, steps[0]);
      RunNotesWork(c, works + first, Apply(c, s, steps[0]), steps[1..], s');
      assert works + first + Works(steps[1..]) == works + (first + Works(steps[1..]));
    }
  }

  /** In every state that can be reached, the work noted is the work of the jobs that are pending. */
  lemma WorkAddsUp(c: Config, steps: seq<Step>, s: State)
    requires IsRun(c, INITIAL, steps, s)
    ensures WorkNoted(Works(steps), s)
  {
    NoJobsNoWork([]);
    RunNotesWork(c, [], INITIAL, steps, s);
    assert [] + Works(steps) == Works(steps);
  }

  /** With one more job of work w, the pending jobs fill a batch. */
  ghost predicate Fills(c: Config, works: seq<real>, s: State, w: real)
    requires WorkNoted(works, s)
  {
    c.maxThreads > 0 && (WorkOf(works, s.pending) + w.Floor) as real >= c.workPerThread
  }

  /** A submission starts a thread if and only if the jobs pending with it make up the work for one. */
  lemma LaunchesIff(c: Config, steps: seq<Step>, s: State, w: real)
    requires IsRun(c, INITIAL, steps, s) && s.main.Idle? && w >= 0.0
    ensures WorkNoted(Works(steps), s)
    ensures var main := Apply(c, s, AddJob(w)).main;
      main == (if Fills(c, Works(steps), s, w) then Spawning(ThenReturn) else Idle)
  {
    hide IsRun, WorkOf;
    WorkAddsUp(c, steps, s);
    AddWorkRoundsDown(s.expectedWork, w);
  }

  /** The main thread is about to start a thread for the jobs pending, and will then return from add_job. */
  predicate Submitting(main: Main) {
    || (main.Spawning? && main.after.ThenReturn?) || (main.Launching? && main.after.ThenReturn?)
    || (main.Joining? && main.next.ThenLaunch? && main.next.after.ThenReturn?)
    || (main.Committing? && main.next.ThenLaunch? && main.next.after.ThenReturn?)
  }

  lemma StillSubmitting(c: Config, s: State, step: Step)
    requires Submitting(s.main) && Enabled(c, s, step)
    ensures var s' := Apply(c, s, step);
      Submitting(s'.main) || (s'.main.Idle? && s'.running != [] && s'.pending == [])
  {
  }

  /** Once a batch is started, it runs and nothing is pending. */
  lemma {:induction false} SubmittingCall(c: Config, s: State, steps: seq<Step>, s': State)
    requires IsCall(c, s, steps, s')
    requires Submitting(s.main) || (s.main.Idle? && s.running != [] && s.pending == [])
    ensures s'.main.Idle? && s'.running != [] && s'.pending == []
    decreases |steps|
  {
    hide Apply, Enabled;
    if !s.main.Idle? {
      StillSubmitting(c, s, steps[0]);
      SubmittingCall(c, Apply(c, s, steps[0]), steps[1..], s');
    }
  }

  /**
   * After any run, one more submission and then complete: everything is committed if and only if the
   * last job did not fill a batch, however the threads are scheduled.
   */
  lemma CompleteAfterAdd(c: Config, steps: seq<Step>, s: State, w: real, adding: seq<Step>, s1: State,
                         completing: seq<Step>, s2: State)
    requires IsRun(c, INITIAL, steps, s) && s.main.Idle? && w >= 0.0
    requires IsCall(c, Apply(c, s, AddJob(w)), adding, s1) && s1.main.Idle?
    requires IsCall(c, Apply(c, s1, Complete), completing, s2)
    ensures WorkNoted(Works(steps), s)
    ensures s2.committed == Numbers(s2.submitted) <==> !Fills(c, Works(steps), s, w)
  {
    hide Invariant, WorkNoted, Fills, Numbers;
    InitiallyHolds(c);
    RunKeepsInvariant(c, INITIAL, steps, s);
    LaunchesIff(c, steps, s, w);
    StepKeepsInvariant(c, s, AddJob(w));
    CallsAreShort(c, Apply(c, s, AddJob(w)), adding, s1);
    CompleteCommits(c, s1, completing, s2);
    if Fills(c, Works(steps), s, w) {
      SubmittingCall(c, Apply(c, s, AddJob(w)), adding, s1);
    } else {
      NoThreads(c, s1);
      OnlyWithThreads(c, s, w);
    }
  }

  lemma NoThreads(c: Config, s: State)
    requires Invariant(c, s)
    ensures c.maxThreads == 0 ==> s.running == []
  {
    hide Traced, Ordered;
  }

  lemma OnlyWithThreads(c: Config, s: State, w: real)
    requires w >= 0.0
    ensures c.maxThreads > 0 ==> Add(c, s, w).pending != []
  {
  }

  /** Work below one unit is dropped entirely. */
  lemma SmallWorkIsLost(work: nat, w: real)
    requires 0.0 <= w < 1.0
    ensures AddWork(work, w) == work
  {
  }

  /** Nothing runs, and no work has been noted. */
  predicate Waiting(s: State) {
    s.main.Idle? && s.running == [] && s.expectedWork == 0 && |s.pending| + |s.committed| == s.submitted
  }

  /** Only jobs with less than one unit of work are submitted. */
  predicate SmallJobs(steps: seq<Step>) {
    forall i :: 0 <= i < |steps| ==> !steps[i].Complete? && (steps[i].AddJob? ==> steps[i].expectedWork < 1.0)
  }

  /** Such jobs alone never start a thread before complete, no matter how many there are. */
  lemma {:induction false} SmallJobsOnlyWait(c: Config, s: State, steps: seq<Step>, s': State)
    requires c.workPerThread > 0.0 && Waiting(s) && SmallJobs(steps) && IsRun(c, s, steps, s')
    ensures Waiting(s') && (c.maxThreads > 0 ==> s'.committed == s.committed)
    decreases |steps|
  {
    if steps != [] {
      assert Enabled(c, s, steps[0]) && steps[0].AddJob?;
      SmallWorkIsLost(0, steps[0].expectedWork);
      SmallJobsOnlyWait(c, Apply(c, s, steps[0]), steps[1..], s');
    }
  }
}
