/** The pool while it is running: no worker leaves, and every accepted job is completed. */
module PoolProgress {
  import opened JobQueue
  import opened ThreadPool
  import opened PoolInvariants
  import opened PoolRuns

  // ---------------------------------------------------------------- nobody leaves

  ghost predicate NoneExited(s: State) {
    s.isRunning ==> forall i | 0 <= i < |s.workers| :: s.workers[i].pc != Exited
  }

  lemma NoneExitedStep(s: State, e: Event)
    requires NoneExited(s) && Enabled(s, e)
    ensures NoneExited(Next(s, e))
  {
  }

  lemma {:induction false} NoneExitedAlways(s: State, es: seq<Event>, t: State)
    requires NoneExited(s) && Leads(s, es, t)
    ensures NoneExited(t)
    decreases |es|
  {
    if es != [] {
      NoneExitedStep(s, es[0]);
      NoneExitedAlways(Next(s, es[0]), es[1..], t);
    }
  }

  /** As long as the pool is running, no worker has left its loop, however many jobs it has done. */
  lemma WorkersStay(s: State)
    requires Reachable(s) && s.isRunning
    ensures forall i | 0 <= i < |s.workers| :: s.workers[i].pc != Exited
  {
    var policy, threadNum: nat, es :|
      0 < threadNum < THREAD_POOL_NUM_MAX && Leads(Init(policy, threadNum), es, s);
    NoneExitedAlways(Init(policy, threadNum), es, s);
  }

  // ---------------------------------------------------------------- something can move

  /** A step of a thread that is already at work; the others are calls from outside. */
  predicate Own(e: Event) {
    e.Work? || e.Advance?
  }

  ghost predicate CanMove(s: State) {
    exists e :: Own(e) && Enabled(s, e)
  }

  /** Every thread has been created and waits for a job, and nobody is inside a call. */
  ghost predicate AtRest(s: State) {
    && s.control == Free && s.lock == Unlocked && s.sem == 0 && s.queue == []
    && forall i | 0 <= i < |s.workers| :: s.workers[i].pc == Wait
  }

  lemma RestIsIdle(s: State)
    requires AtRest(s)
    ensures !CanMove(s)
  {
  }

  /** Whoever holds the lock can go on. */
  lemma HolderMoves(s: State)
    requires Inv(s) && s.isRunning && s.lock != Unlocked
    ensures CanMove(s)
  {
    match s.lock
    case ByWorker(i) => assert Own(Work(i)) && Enabled(s, Work(i));
    case ByControl => assert Own(Advance) && Enabled(s, Advance);
  }

  lemma IdleIsRest(s: State)
    requires Inv(s) && NoneExited(s) && s.isRunning && !CanMove(s)
    ensures AtRest(s)
  {
    if s.lock != Unlocked {
      HolderMoves(s);
    }
    assert !(Own(Advance) && Enabled(s, Advance));
    forall i | 0 <= i < |s.workers| ensures s.workers[i].pc == Wait && s.sem == 0 {
      assert !(Own(Work(i)) && Enabled(s, Work(i)));
    }
    assert s.workers[0].pc == Wait;
    SumZero(s.workers, Woken);
  }

  /** At rest every accepted job has been completed. */
  lemma RestIsDone(s: State, job: Job)
    requires Inv(s) && AtRest(s)
    ensures Times(s.completed, job) == Times(s.accepted, job)
  {
    assert KeptJob(s, job);
    SumZero(s.workers, Holding(job));
    assert s.accepted == s.dequeued;
  }

  /** While the pool is running, some thread can take a step unless all are at rest; so as long as an
      accepted job is not completed, some thread can. */
  lemma WorkGoesOn(s: State)
    requires Reachable(s) && s.isRunning
    ensures !CanMove(s) <==> AtRest(s)
    ensures (exists job :: Times(s.completed, job) != Times(s.accepted, job)) ==> CanMove(s)
  {
    ReachableInv(s);
    WorkersStay(s);
    if !CanMove(s) {
      IdleIsRest(s);
      forall job ensures Times(s.completed, job) == Times(s.accepted, job) {
        RestIsDone(s, job);
      }
    }
    if AtRest(s) {
      RestIsIdle(s);
    }
  }

  // ---------------------------------------------------------------- and comes to an end

  /** Steps to the next wait. */
  function ToRest(w: Worker): int {
    match w.pc
    case Wait => 0 case CountIdle => 1 case LockIdle => 2 case Check => 3 case Run(_) => 4
    case CountTaken(_) => 5 case Take => 6 case LockTake => 7 case Exited => 0
  }

  function ControlToRest(s: State): int {
    match s.control
    case Creating => 4 * (s.maxThreadNum - |s.workers|) + 1
    case AddPost => 9
    case AddCount => 10
    case AddInsert(_) => 11
    case AddLock(_) => 12
    case _ => 0
  }

  /** Steps left, at most, until all are at rest: a token pays for one round of a worker. */
  function WorkLeft(s: State): int {
    8 * s.sem + Sum(s.workers, ToRest) + ControlToRest(s)
  }

  lemma WorkLeftIsNat(s: State)
    requires Phases(s)
    ensures 0 <= WorkLeft(s)
  {
    SumBounds(s.workers, ToRest, 7);
  }

  /** A worker's step brings its next wait closer; passing the semaphore uses up a token. */
  lemma RoundGoesOn(s: State, i: nat)
    requires s.isRunning && WorkerEnabled(s, i)
    ensures var t := WorkerStep(s, i);
      && t.workers == s.workers[i := Moved(s, s.workers[i])] && t.control == s.control
      && t.isRunning && t.maxThreadNum == s.maxThreadNum
      && 8 * t.sem + ToRest(Moved(s, s.workers[i])) < 8 * s.sem + ToRest(s.workers[i])
  {
  }

  /** A step of whoever is inside a call brings the end of the call closer; a new worker has three steps
      to its wait, and a post leaves a token. */
  lemma CallGoesOn(s: State)
    requires Phases(s) && s.isRunning && ControlEnabled(s)
    ensures var t := ControlStep(s);
      && t.isRunning && t.maxThreadNum == s.maxThreadNum
      && (t.workers == s.workers || t.workers == s.workers + [Worker(Check, false)])
      && 8 * t.sem + ControlToRest(t) + 3 * (|t.workers| - |s.workers|) < 8 * s.sem + ControlToRest(s)
  {
    match s.control
    case Creating =>
    case AddLock(_) =>
    case AddInsert(_) =>
    case AddCount =>
    case AddPost =>
  }

  lemma OwnStepWorks(s: State, e: Event)
    requires Inv(s) && s.isRunning && Own(e) && Enabled(s, e)
    ensures Next(s, e).isRunning && 0 <= WorkLeft(Next(s, e)) < WorkLeft(s)
  {
    InvStep(s, e);
    WorkLeftIsNat(Next(s, e));
    match e
    case Work(i) =>
      RoundGoesOn(s, i);
      SumUpdate(s.workers, i, Moved(s, s.workers[i]), ToRest);
    case Advance =>
      CallGoesOn(s);
      SumAppend(s.workers, Worker(Check, false), ToRest);
  }

  ghost predicate OwnSteps(es: seq<Event>) {
    forall e | e in es :: Own(e)
  }

  lemma {:induction false} OwnRunsAreBounded(s: State, es: seq<Event>, t: State)
    requires Inv(s) && NoneExited(s) && s.isRunning && Leads(s, es, t) && OwnSteps(es)
    ensures Inv(t) && NoneExited(t) && t.isRunning && |es| + WorkLeft(t) <= WorkLeft(s) && WorkLeft(t) >= 0
    decreases |es|
  {
    if es == [] {
      WorkLeftIsNat(s);
    } else {
      assert Own(es[0]) && forall e | e in es[1..] :: e in es;
      OwnStepWorks(s, es[0]);
      InvStep(s, es[0]);
      NoneExitedStep(s, es[0]);
      OwnRunsAreBounded(Next(s, es[0]), es[1..], t);
    }
  }

  /** Every job is completed: from a reachable state in which the pool is running, a run without further
      calls is at most WorkLeft steps long, and where it cannot go on all threads are at rest and every
      job accepted until then has been completed. */
  lemma EveryJobCompletes(s: State, es: seq<Event>, t: State)
    requires Reachable(s) && s.isRunning && Leads(s, es, t) && OwnSteps(es)
    ensures |es| <= WorkLeft(s)
    ensures !CanMove(t) <==> AtRest(t)
    ensures !CanMove(t) ==> forall job :: Times(t.completed, job) == Times(t.accepted, job)
  {
    ReachableInv(s);
    WorkersStay(s);
    OwnRunsAreBounded(s, es, t);
    if !CanMove(t) {
      IdleIsRest(t);
      forall job ensures Times(t.completed, job) == Times(t.accepted, job) {
        RestIsDone(t, job);
      }
    }
    if AtRest(t) {
      RestIsIdle(t);
    }
  }

  /** And such a run exists: the pool can always be left to finish its work. */
  lemma {:induction false} ComesToRest(s: State, left: nat) returns (es: seq<Event>, t: State)
    requires Inv(s) && NoneExited(s) && s.isRunning && WorkLeft(s) <= left
    ensures Leads(s, es, t) && OwnSteps(es) && AtRest(t) && s.accepted <= t.accepted
    decreases left
  {
    if CanMove(s) {
      var e :| Own(e) && Enabled(s, e);
      OwnStepWorks(s, e);
      InvStep(s, e);
      NoneExitedStep(s, e);
      var rest;
      rest, t := ComesToRest(Next(s, e), left - 1);
      es := [e] + rest;
      assert es[1..] == rest;
    } else {
      IdleIsRest(s);
      es, t := [], s;
    }
  }
}
