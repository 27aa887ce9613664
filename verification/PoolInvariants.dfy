/** What every reachable state of the thread pool keeps, whatever the interleaving. */
module PoolInvariants {
  import opened JobQueue
  import opened ThreadPool

  // ---------------------------------------------------------------- the invariants

  predicate HoldsLock(pc: Pc) {
    pc.CountIdle? || pc.Take? || pc.CountTaken?
  }

  ghost predicate Mutex(s: State) {
    && (s.lock.ByWorker? ==> s.lock.i < |s.workers|)
    && (forall i | 0 <= i < |s.workers| :: HoldsLock(s.workers[i].pc) <==> s.lock == ByWorker(i))
    && (s.control.AddInsert? || s.control.AddCount? <==> s.lock == ByControl)
  }

  /** Inserted and not yet posted. */
  function Unposted(control: Control): int { One(control.AddCount? || control.AddPost?) }

  /** Semaphore accounting. */
  ghost predicate Semaphore(s: State) {
    && s.sem + Sum(s.workers, Woken) + Unposted(s.control) == |s.queue| + s.exitPosts - s.emptyWakes
    && s.emptyWakes <= s.exitPosts
  }

  ghost predicate Counter(s: State) {
    s.curJobNum == |s.queue| + Sum(s.workers, Uncounted) - One(s.control.AddCount?)
  }

  /** First in, first out. */
  ghost predicate Fifo(s: State) {
    s.accepted == s.dequeued + s.queue
  }

  function Times(jobs: seq<Job>, job: Job): nat {
    if jobs == [] then 0 else Times(jobs[..|jobs| - 1], job) + (if jobs[|jobs| - 1] == job then 1 else 0)
  }

  /** Exactly once: a dequeued job is with one worker or completed. */
  ghost predicate KeptJob(s: State, job: Job) {
    Times(s.dequeued, job) == Times(s.completed, job) + Sum(s.workers, Holding(job))
  }

  ghost predicate Kept(s: State) {
    forall job :: KeptJob(s, job)
  }

  ghost predicate Idle(s: State) {
    var busy := Sum(s.workers, Busy);
    && s.maxThreadNum - busy <= s.idleThreadNum <= s.maxThreadNum
    && (!s.overCounted ==> s.idleThreadNum == s.maxThreadNum - busy)
  }

  /** How many posts ThreadPoolExitHandle still has to make. */
  function PostsLeft(s: State): int {
    match s.control
    case Exit(idx) => |s.workers| - idx
    case JoinOne(idx) => |s.workers| - idx - 1
    case _ => 0
  }

  predicate Exiting(control: Control) {
    control.Exit? || control.JoinOne? || control.JoinAll? || control.Down?
  }

  ghost predicate Phases(s: State) {
    && 0 < s.maxThreadNum < THREAD_POOL_NUM_MAX && |s.workers| <= s.maxThreadNum
    && (s.isRunning <==> !Exiting(s.control))
    && (s.isRunning && !s.control.Creating? ==> |s.workers| == s.maxThreadNum)
    && PostsLeft(s) >= 0
    && (s.isRunning ==> s.exitPosts == 0)
    && (!s.isRunning ==> s.exitPosts + PostsLeft(s) == |s.workers|)
    && (s.control.JoinOne? ==> s.policy != PostThenJoin)
    && (s.control.JoinAll? ==> s.policy == PostThenJoin && s.control.idx <= |s.workers|)
  }

  /** Once `isRunning` is false there are tokens, present or still to be posted, for every wait to come. */
  ghost predicate Tokens(s: State) {
    !s.isRunning ==> s.sem + PostsLeft(s) >= Sum(s.workers, ToWait)
  }

  /** With all posts before all joins, a worker that has been joined has exited. */
  ghost predicate Joined(s: State) {
    s.policy == PostThenJoin ==>
      && (s.control.JoinAll? ==> forall i | 0 <= i < s.control.idx && i < |s.workers| :: s.workers[i].pc == Exited)
      && (s.control.Down? ==> forall i | 0 <= i < |s.workers| :: s.workers[i].pc == Exited)
  }

  ghost predicate Inv(s: State) {
    Mutex(s) && Semaphore(s) && Counter(s) && Fifo(s) && Kept(s) && Idle(s) && Phases(s) && Tokens(s) && Joined(s)
  }

  // ---------------------------------------------------------------- preservation

  lemma MutexWork(s: State, i: nat)
    requires Mutex(s) && WorkerEnabled(s, i)
    ensures Mutex(WorkerStep(s, i))
  {
  }

  lemma MutexControl(s: State)
    requires Mutex(s) && ControlEnabled(s)
    ensures Mutex(ControlStep(s))
  {
  }

  lemma SemaphoreWork(s: State, i: nat)
    requires Semaphore(s) && Phases(s) && WorkerEnabled(s, i)
    ensures Semaphore(WorkerStep(s, i))
  {
    SumBounds(s.workers, Woken, 1);
    SumUpdate(s.workers, i, Moved(s, s.workers[i]), Woken);
  }

  lemma SemaphoreControl(s: State)
    requires Semaphore(s) && Phases(s) && ControlEnabled(s)
    ensures Semaphore(ControlStep(s))
  {
    SumBounds(s.workers, Woken, 1);
    SumAppend(s.workers, Worker(Check, false), Woken);
  }

  lemma CounterWork(s: State, i: nat)
    requires Counter(s) && WorkerEnabled(s, i)
    ensures Counter(WorkerStep(s, i))
  {
    SumBounds(s.workers, Uncounted, 1);
    SumUpdate(s.workers, i, Moved(s, s.workers[i]), Uncounted);
  }

  lemma CounterControl(s: State)
    requires Counter(s) && ControlEnabled(s)
    ensures Counter(ControlStep(s))
  {
    SumBounds(s.workers, Uncounted, 1);
    SumAppend(s.workers, Worker(Check, false), Uncounted);
  }

  lemma FifoWork(s: State, i: nat)
    requires Fifo(s) && WorkerEnabled(s, i)
    ensures Fifo(WorkerStep(s, i))
  {
    if s.queue != [] {
      assert s.dequeued + s.queue == (s.dequeued + [s.queue[0]]) + s.queue[1..];
    }
  }

  lemma FifoControl(s: State)
    requires Fifo(s) && ControlEnabled(s)
    ensures Fifo(ControlStep(s))
  {
    if s.control.AddInsert? {
      assert s.dequeued + (s.queue + [s.control.job]) == (s.dequeued + s.queue) + [s.control.job];
    }
  }

  lemma TimesAppend(jobs: seq<Job>, last: Job, job: Job)
    ensures Times(jobs + [last], job) == Times(jobs, job) + One(last == job)
  {
    assert (jobs + [last])[..|jobs|] == jobs;
  }

  lemma KeptJobTake(s: State, i: nat, job: Job)
    requires KeptJob(s, job) && WorkerEnabled(s, i) && s.workers[i].pc == Take && s.queue != []
    ensures KeptJob(WorkerStep(s, i), job)
  {
    SumUpdate(s.workers, i, Moved(s, s.workers[i]), Holding(job));
    TimesAppend(s.dequeued, s.queue[0], job);
  }

  lemma KeptJobRun(s: State, i: nat, job: Job)
    requires KeptJob(s, job) && WorkerEnabled(s, i) && s.workers[i].pc.Run?
    ensures KeptJob(WorkerStep(s, i), job)
  {
    SumUpdate(s.workers, i, Moved(s, s.workers[i]), Holding(job));
    TimesAppend(s.completed, s.workers[i].pc.job, job);
  }

  lemma KeptJobWork(s: State, i: nat, job: Job)
    requires KeptJob(s, job) && WorkerEnabled(s, i)
    ensures KeptJob(WorkerStep(s, i), job)
  {
    if s.workers[i].pc == Take && s.queue != [] {
      KeptJobTake(s, i, job);
    } else if s.workers[i].pc.Run? {
      KeptJobRun(s, i, job);
    } else {
      SumUpdate(s.workers, i, Moved(s, s.workers[i]), Holding(job));
    }
  }

  lemma KeptWork(s: State, i: nat)
    requires Kept(s) && WorkerEnabled(s, i)
    ensures Kept(WorkerStep(s, i))
  {
    forall job ensures KeptJob(WorkerStep(s, i), job) {
      KeptJobWork(s, i, job);
    }
  }

  lemma KeptControl(s: State)
    requires Kept(s) && ControlEnabled(s)
    ensures Kept(ControlStep(s))
  {
    forall job ensures KeptJob(ControlStep(s), job) {
      assert KeptJob(s, job);
      SumAppend(s.workers, Worker(Check, false), Holding(job));
    }
  }

  lemma IdleWork(s: State, i: nat)
    requires Idle(s) && WorkerEnabled(s, i)
    ensures Idle(WorkerStep(s, i))
  {
    SumBounds(s.workers, Busy, 1);
    SumUpdate(s.workers, i, Moved(s, s.workers[i]), Busy);
  }

  lemma IdleControl(s: State)
    requires Idle(s) && ControlEnabled(s)
    ensures Idle(ControlStep(s))
  {
    SumBounds(s.workers, Busy, 1);
    SumAppend(s.workers, Worker(Check, false), Busy);
  }

  lemma PhasesWork(s: State, i: nat)
    requires Phases(s) && WorkerEnabled(s, i)
    ensures Phases(WorkerStep(s, i))
  {
  }

  lemma PhasesControl(s: State)
    requires Phases(s) && ControlEnabled(s)
    ensures Phases(ControlStep(s))
  {
  }

  /** During the shutdown a worker's step uses a token exactly when it uses up a wait. */
  lemma WaitUsesToken(s: State, i: nat)
    requires !s.isRunning && WorkerEnabled(s, i)
    ensures ToWait(Moved(s, s.workers[i])) - ToWait(s.workers[i]) == WorkerStep(s, i).sem - s.sem
    ensures WorkerStep(s, i).workers == s.workers[i := Moved(s, s.workers[i])]
    ensures WorkerStep(s, i).control == s.control && WorkerStep(s, i).isRunning == s.isRunning
  {
  }

  lemma TokensWork(s: State, i: nat)
    requires Tokens(s) && Phases(s) && WorkerEnabled(s, i)
    ensures Tokens(WorkerStep(s, i))
  {
    if !s.isRunning {
      WaitUsesToken(s, i);
      SumUpdate(s.workers, i, Moved(s, s.workers[i]), ToWait);
    }
  }

  lemma TokensControl(s: State)
    requires Tokens(s) && Phases(s) && ControlEnabled(s)
    ensures Tokens(ControlStep(s))
  {
    SumBounds(s.workers, ToWait, 1);
    SumAppend(s.workers, Worker(Check, false), ToWait);
  }

  lemma JoinedWork(s: State, i: nat)
    requires Joined(s) && Phases(s) && WorkerEnabled(s, i)
    ensures Joined(WorkerStep(s, i))
  {
  }

  lemma JoinedControl(s: State)
    requires Joined(s) && Phases(s) && ControlEnabled(s)
    ensures Joined(ControlStep(s))
  {
  }

  /** Every step keeps the invariant. */
  lemma InvStep(s: State, e: Event)
    requires Inv(s) && Enabled(s, e)
    ensures Inv(Next(s, e))
  {
    match e
    case Work(i) => InvWork(s, i);
    case Advance => InvControl(s);
    case _ =>
      SumBounds(s.workers, ToWait, 1);
      forall job ensures KeptJob(Next(s, e), job) {
        assert KeptJob(s, job);
      }
  }

  lemma InvWork(s: State, i: nat)
    requires Inv(s) && WorkerEnabled(s, i)
    ensures Inv(WorkerStep(s, i))
  {
    MutexWork(s, i);
    SemaphoreWork(s, i);
    CounterWork(s, i);
    FifoWork(s, i);
    KeptWork(s, i);
    IdleWork(s, i);
    PhasesWork(s, i);
    TokensWork(s, i);
    JoinedWork(s, i);
  }

  lemma InvControl(s: State)
    requires Inv(s) && ControlEnabled(s)
    ensures Inv(ControlStep(s))
  {
    MutexControl(s);
    SemaphoreControl(s);
    CounterControl(s);
    FifoControl(s);
    KeptControl(s);
    IdleControl(s);
    PhasesControl(s);
    TokensControl(s);
    JoinedControl(s);
  }

  lemma {:induction false} InvAlways(s: State, es: seq<Event>, t: State)
    requires Inv(s) && Leads(s, es, t)
    ensures Inv(t)
    decreases |es|
  {
    if es != [] {
      InvStep(s, es[0]);
      InvAlways(Next(s, es[0]), es[1..], t);
    }
  }

  lemma ReachableInv(s: State)
    requires Reachable(s)
    ensures Inv(s)
  {
    var policy, threadNum: nat, es :|
      0 < threadNum < THREAD_POOL_NUM_MAX && Leads(Init(policy, threadNum), es, s);
    InvAlways(Init(policy, threadNum), es, s);
  }
}
