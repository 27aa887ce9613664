/** The pool's promises, for every reachable state and every run. */
module PoolResults {
  import opened JobQueue
  import opened ThreadPool
  import opened PoolInvariants
  import opened PoolRuns
  import Scheduler

  /** Tokens, woken workers and unposted jobs together account for the queue; so until the pool is
      told to stop, a woken worker always finds a job. */
  lemma SemaphoreAccounting(s: State)
    requires Reachable(s)
    ensures s.sem + Sum(s.workers, Woken) + Unposted(s.control) == |s.queue| + s.exitPosts - s.emptyWakes
    ensures s.emptyWakes <= s.exitPosts <= |s.workers| && (s.isRunning ==> s.exitPosts == 0)
    ensures forall i | 0 <= i < |s.workers| && s.workers[i].pc == Take && s.isRunning :: s.queue != []
  {
    ReachableInv(s);
    SumBounds(s.workers, Woken, 1);
    forall i | 0 <= i < |s.workers| && s.workers[i].pc == Take && s.isRunning ensures s.queue != [] {
      assert Woken(s.workers[i]) == 1;
    }
  }

  /** `curJobNum` is the queue length whenever the lock is free. */
  lemma CounterExact(s: State)
    requires Reachable(s) && s.lock == Unlocked
    ensures s.curJobNum == |s.queue|
  {
    ReachableInv(s);
    forall i | 0 <= i < |s.workers| ensures Uncounted(s.workers[i]) == 0 {
      assert !HoldsLock(s.workers[i].pc);
    }
    SumZero(s.workers, Uncounted);
  }

  lemma TimesConcat(a: seq<Job>, b: seq<Job>, job: Job)
    ensures Times(a + b, job) == Times(a, job) + Times(b, job)
  {
    if b == [] {
      assert a + b == a;
    } else {
      var last := |b| - 1;
      assert (a + b)[..|a + b| - 1] == a + b[..last];
      TimesConcat(a, b[..last], job);
    }
  }

  /** Jobs start in the order they were accepted, and each accepted job is, exactly once, waiting,
      with one worker, or completed. */
  lemma ExactlyOnceInOrder(s: State, job: Job)
    requires Reachable(s)
    ensures s.accepted == s.dequeued + s.queue
    ensures Times(s.accepted, job) == Times(s.queue, job) + Sum(s.workers, Holding(job)) + Times(s.completed, job)
  {
    ReachableInv(s);
    assert KeptJob(s, job);
    TimesConcat(s.dequeued, s.queue, job);
  }

  /** The idle counter is never below the truth and never above the number of threads. */
  lemma IdleBounds(s: State)
    requires Reachable(s)
    ensures s.maxThreadNum - Sum(s.workers, Busy) <= s.idleThreadNum <= s.maxThreadNum && 0 <= s.idleThreadNum
  {
    ReachableInv(s);
    SumBounds(s.workers, Busy, 1);
  }

  /** No worker counts itself idle for the first time while another is busy. */
  ghost predicate QuietStarts(s: State, es: seq<Event>)
    decreases |es|
  {
    es != [] && Enabled(s, es[0]) ==>
      && (es[0].Work? && s.workers[es[0].i] == Worker(CountIdle, false) ==> Sum(s.workers, Busy) == 0)
      && QuietStarts(Next(s, es[0]), es[1..])
  }

  ghost predicate Exact(s: State) {
    s.idleThreadNum == s.maxThreadNum - Sum(s.workers, Busy)
  }

  /** The idle counter is exact in every state of the run. */
  ghost predicate ExactThroughout(s: State, es: seq<Event>)
    decreases |es|
  {
    && Exact(s)
    && (es != [] && Enabled(s, es[0]) ==> ExactThroughout(Next(s, es[0]), es[1..]))
  }

  /** A first pass is quiet exactly when it leaves the counter exact. */
  lemma ExactStepIff(s: State, e: Event)
    requires Inv(s) && !s.overCounted && Enabled(s, e)
    ensures var late := e.Work? && s.workers[e.i] == Worker(CountIdle, false) && Sum(s.workers, Busy) != 0;
      && (Next(s, e).overCounted <==> late)
      && (late ==> !Exact(Next(s, e)))
  {
    SumBounds(s.workers, Busy, 1);
    if e.Work? {
      SumUpdate(s.workers, e.i, Moved(s, s.workers[e.i]), Busy);
    }
  }

  /** The idle counter is exact all along a run if and only if no worker counts itself idle for the
      first time while another is busy. */
  lemma {:induction false} IdleExactIff(s: State, es: seq<Event>, t: State)
    requires Inv(s) && !s.overCounted && Leads(s, es, t)
    ensures QuietStarts(s, es) <==> ExactThroughout(s, es)
    decreases |es|
  {
    if es != [] {
      var u := Next(s, es[0]);
      InvStep(s, es[0]);
      ExactStepIff(s, es[0]);
      if !u.overCounted {
        IdleExactIff(u, es[1..], t);
      }
    }
  }

  // ---------------------------------------------------------------- what a user can do about it

  predicate FirstWaitReached(w: Worker) {
    w.served || w.pc.Wait? || w.pc.LockTake? || w.pc.Exited?
  }

  ghost predicate AllWaited(s: State) {
    forall i | 0 <= i < |s.workers| :: FirstWaitReached(s.workers[i])
  }

  /** The events that lead to a post: a job is accepted, or the shutdown begins. */
  predicate Wakes(s: State, e: Event) {
    (e.Advance? && s.control.AddInsert?) || e.CreateFails? || e.Deinit?
  }

  /** Nothing is accepted and no shutdown begins before every worker has reached its first sem_wait. */
  ghost predicate WakesLate(s: State, es: seq<Event>)
    decreases |es|
  {
    es != [] && Enabled(s, es[0]) ==> (Wakes(s, es[0]) ==> AllWaited(s)) && WakesLate(Next(s, es[0]), es[1..])
  }

  /** Nobody can have been woken yet. */
  ghost predicate Untouched(s: State) {
    && s.isRunning && s.sem == 0 && !s.control.AddCount? && !s.control.AddPost? && !Exiting(s.control)
    && forall i | 0 <= i < |s.workers| ::
      var w := s.workers[i]; !w.served && (w.pc.Check? || w.pc.LockIdle? || w.pc.CountIdle? || w.pc.Wait?)
  }

  lemma UntouchedStep(s: State, e: Event)
    requires Untouched(s) && Enabled(s, e) && (Wakes(s, e) ==> AllWaited(s))
    ensures Untouched(Next(s, e)) || (!Next(s, e).control.Creating? && AllWaited(Next(s, e)))
  {
  }

  lemma AllWaitedStep(s: State, e: Event)
    requires AllWaited(s) && !s.control.Creating? && Enabled(s, e)
    ensures AllWaited(Next(s, e)) && !Next(s, e).control.Creating?
  {
  }

  lemma {:induction false} WakesLateIsQuiet(s: State, es: seq<Event>, t: State)
    requires Leads(s, es, t) && WakesLate(s, es)
    requires Untouched(s) || (!s.control.Creating? && AllWaited(s))
    ensures QuietStarts(s, es)
    decreases |es|
  {
    if es != [] {
      if Untouched(s) {
        SumZero(s.workers, Busy);
        UntouchedStep(s, es[0]);
      } else {
        AllWaitedStep(s, es[0]);
      }
      WakesLateIsQuiet(Next(s, es[0]), es[1..], t);
    }
  }

  /** So whoever waits with the first job, and with a shutdown, until all threads have reached their
      first sem_wait gets an exact counter for the rest of the run. */
  lemma ExactWhenWakesLate(policy: Policy, threadNum: nat, es: seq<Event>, t: State)
    requires 0 < threadNum < THREAD_POOL_NUM_MAX && Leads(Init(policy, threadNum), es, t)
    requires WakesLate(Init(policy, threadNum), es)
    ensures ExactThroughout(Init(policy, threadNum), es)
  {
    var s := InitReachable(policy, threadNum);
    ReachableInv(s);
    WakesLateIsQuiet(s, es, t);
    IdleExactIff(s, es, t);
  }

  // ---------------------------------------------------------------- the scheduler

  function RunningJobs(ws: seq<Worker>): map<nat, Job> {
    map i: nat | i < |ws| && HasJob(ws[i]) :: ws[i].pc.job
  }

  function Abstract(s: State): Scheduler.Jobs<Job> {
    Scheduler.Jobs(s.queue, RunningJobs(s.workers), s.completed)
  }

  function ActionOf(s: State, e: Event): Scheduler.Action<Job>
    requires Enabled(s, e)
  {
    match e
    case Work(i) =>
      (match s.workers[i].pc
       case Take => if s.queue == [] then Scheduler.Stutter else Scheduler.Start(i)
       case Run(_) => Scheduler.Finish(i)
       case _ => Scheduler.Stutter)
    case Advance => if s.control.AddInsert? then Scheduler.Accept(s.control.job) else Scheduler.Stutter
    case _ => Scheduler.Stutter
  }

  /** Every step of the pool is a step of the scheduler, or no step at all. */
  lemma RefinesScheduler(s: State, e: Event)
    requires Enabled(s, e)
    ensures Scheduler.Step(Abstract(s), ActionOf(s, e), Abstract(Next(s, e)))
  {
    if e.Work? {
      WorkRefines(s, e.i);
    } else {
      assert RunningJobs(Next(s, e).workers) == RunningJobs(s.workers);
    }
  }

  lemma RunningUpdate(ws: seq<Worker>, i: nat, w: Worker)
    requires i < |ws|
    ensures RunningJobs(ws[i := w]) == if HasJob(w) then RunningJobs(ws)[i := w.pc.job] else RunningJobs(ws) - {i}
  {
  }

  lemma WorkRefines(s: State, i: nat)
    requires WorkerEnabled(s, i)
    ensures Scheduler.Step(Abstract(s), ActionOf(s, Work(i)), Abstract(WorkerStep(s, i)))
  {
    var a, w := RunningJobs(s.workers), Moved(s, s.workers[i]);
    RunningUpdate(s.workers, i, w);
    if HasJob(s.workers[i]) {
      assert a[i := s.workers[i].pc.job] == a;
    } else {
      assert a - {i} == a;
    }
  }

  // ---------------------------------------------------------------- a late first pass

  /** The last thread counts itself idle only after the first has taken a job, so the counter says
      that all threads are idle while one is busy. */
  lemma OverCountReachable(policy: Policy, threadNum: nat, job: Job) returns (s: State)
    requires 1 < threadNum < THREAD_POOL_NUM_MAX
    ensures Reachable(s) && s.policy == policy && s.maxThreadNum == threadNum
    ensures s.idleThreadNum == s.maxThreadNum && Sum(s.workers, Busy) == 1
  {
    var last := threadNum - 1;
    ParkedReachable(policy, threadNum, last);
    s := Go(Parked(policy, threadNum, last), Advance);
    s := Go(s, Advance);
    ghost var ws := s.workers;
    SumZero(ws, Busy);
    s := GoAdd(s, job);
    s := GoTake(s, 0);
    s := GoIdle(s, last);
    SumUpdate(ws, 0, Worker(Run(job), true), Busy);
    SumUpdate(ws[0 := Worker(Run(job), true)], last, Worker(Wait, false), Busy);
  }

  lemma {:induction false} OneThreadIsExact(s: State, es: seq<Event>, t: State)
    requires Inv(s) && !s.overCounted && s.maxThreadNum == 1 && Leads(s, es, t)
    ensures Inv(t) && !t.overCounted
    decreases |es|
  {
    if es != [] {
      InvStep(s, es[0]);
      ExactStepIff(s, es[0]);
      if es[0].Work? && s.workers[es[0].i] == Worker(CountIdle, false) {
        SumZero(s.workers, Busy);
      }
      OneThreadIsExact(Next(s, es[0]), es[1..], t);
    }
  }

  /** The counter of a pool can be wrong if and only if the pool has more than one thread. */
  lemma OverCountIff(threadNum: nat)
    requires 0 < threadNum < THREAD_POOL_NUM_MAX
    ensures (exists s :: Reachable(s) && s.maxThreadNum == threadNum && !Exact(s)) <==> threadNum > 1
  {
    if threadNum > 1 {
      var s := OverCountReachable(JoinEach, threadNum, Job(1, 1));
    } else {
      forall s | Reachable(s) && s.maxThreadNum == threadNum ensures Exact(s) {
        var policy, n: nat, es :| 0 < n < THREAD_POOL_NUM_MAX && Leads(Init(policy, n), es, s);
        KeepsThreadNum(Init(policy, n), es, s);
        var s0 := InitReachable(policy, n);
        ReachableInv(s0);
        OneThreadIsExact(s0, es, s);
      }
    }
  }

  lemma {:induction false} KeepsThreadNum(s: State, es: seq<Event>, t: State)
    requires Leads(s, es, t)
    ensures t.maxThreadNum == s.maxThreadNum
    decreases |es|
  {
    if es != [] {
      KeepsThreadNum(Next(s, es[0]), es[1..], t);
    }
  }
}
