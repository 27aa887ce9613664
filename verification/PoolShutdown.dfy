/** ThreadPoolExitHandle: when it ends, and when it does not. */
module PoolShutdown {
  import opened JobQueue
  import opened ThreadPool
  import opened PoolInvariants
  import opened PoolRuns

  // ---------------------------------------------------------------- every run ends

  function ControlRank(s: State): int {
    var n := |s.workers|;
    match s.control
    case Exit(idx) => 2 * (n - idx) + n + 2
    case JoinOne(idx) => 2 * (n - idx) + n + 1
    case JoinAll(idx) => n - idx + 1
    case _ => 0
  }

  /** Steps left, at most, once `isRunning` is false; a job counts as one step. */
  function Measure(s: State): int {
    Sum(s.workers, Rank) + ControlRank(s)
  }

  lemma MeasureWork(s: State, i: nat)
    requires !s.isRunning && WorkerEnabled(s, i)
    ensures Measure(WorkerStep(s, i)) < Measure(s)
  {
    SumUpdate(s.workers, i, Moved(s, s.workers[i]), Rank);
    assert Rank(Moved(s, s.workers[i])) < Rank(s.workers[i]);
  }

  lemma ControlRankDrops(s: State)
    requires !s.isRunning && Phases(s) && ControlEnabled(s)
    ensures ControlStep(s).workers == s.workers && ControlRank(ControlStep(s)) < ControlRank(s)
  {
    match s.control
    case Exit(_) =>
    case JoinOne(_) =>
    case JoinAll(_) =>
  }

  lemma MeasureControl(s: State)
    requires !s.isRunning && Phases(s) && ControlEnabled(s)
    ensures Measure(ControlStep(s)) < Measure(s)
  {
    ControlRankDrops(s);
  }

  lemma MeasureIsNat(s: State)
    requires Phases(s)
    ensures 0 <= Measure(s)
  {
    SumBounds(s.workers, Rank, 8);
  }

  /** After the shutdown has begun every step of every thread brings the end closer. */
  lemma MeasureDecreases(s: State, e: Event)
    requires Inv(s) && !s.isRunning && Enabled(s, e)
    ensures !Next(s, e).isRunning && 0 <= Measure(Next(s, e)) < Measure(s)
  {
    InvStep(s, e);
    MeasureIsNat(Next(s, e));
    match e
    case Work(i) => MeasureWork(s, i);
    case Advance => MeasureControl(s);
  }

  lemma {:induction false} RunsAreBounded(s: State, es: seq<Event>, t: State)
    requires Inv(s) && !s.isRunning && Leads(s, es, t)
    ensures Inv(t) && !t.isRunning && |es| + Measure(t) <= Measure(s) && Measure(t) >= 0
    decreases |es|
  {
    if es == [] {
      MeasureIsNat(s);
    } else {
      MeasureDecreases(s, es[0]);
      InvStep(s, es[0]);
      RunsAreBounded(Next(s, es[0]), es[1..], t);
    }
  }

  // ---------------------------------------------------------------- and ends well

  ghost predicate Finished(s: State) {
    s.control == Down && forall i | 0 <= i < |s.workers| :: s.workers[i].pc == Exited
  }

  ghost predicate Stuck(s: State) {
    !s.isRunning && !Finished(s) && forall e :: !Enabled(s, e)
  }

  /** Some worker that has not exited can step, or all of those wait without a token. */
  lemma WorkerCanStep(s: State, i: nat)
    requires Inv(s) && !s.isRunning && i < |s.workers| && s.workers[i].pc != Exited
    requires s.workers[i].pc == Wait ==> PostsLeft(s) == 0
    ensures exists e :: Enabled(s, e)
  {
    match s.lock
    case ByWorker(k) => assert Enabled(s, Work(k));
    case ByControl => assert false;
    case Unlocked =>
      if s.workers[i].pc == Wait {
        SumBounds(s.workers, ToWait, 1);
        assert ToWait(s.workers[i]) == 1;
      }
      assert Enabled(s, Work(i));
  }

  /** Unless each join follows its own post and there are several threads, something can always
      move until everything is finished. */
  lemma ProgressDuringExit(s: State)
    requires Inv(s) && !s.isRunning && !Finished(s)
    requires s.policy == JoinEach ==> |s.workers| <= 1
    ensures exists e :: Enabled(s, e)
  {
    if ControlEnabled(s) {
      assert Enabled(s, Advance);
    } else if s.control == Down {
      var i :| 0 <= i < |s.workers| && s.workers[i].pc != Exited;
      WorkerCanStep(s, i);
    } else {
      WorkerCanStep(s, s.control.idx);
    }
  }

  /** With all posts before all joins, a run of the shutdown can only stop where
      ThreadPoolExitHandle has returned and every worker has exited. */
  lemma ShutdownCompletes(s: State)
    requires Reachable(s) && !s.isRunning && s.policy == PostThenJoin
    ensures (forall e :: !Enabled(s, e)) <==> Finished(s)
    ensures s.control == Down ==> Finished(s)
  {
    ReachableInv(s);
    if !Finished(s) {
      ProgressDuringExit(s);
    }
  }

  // ---------------------------------------------------------------- one more wait, one more job

  /** How often worker `i` gets through the semaphore in the run. */
  ghost function Waits(s: State, es: seq<Event>, i: nat): nat
    decreases |es|
  {
    if es == [] || !Enabled(s, es[0]) then 0 else
      (if es[0] == Work(i) && s.workers[i].pc == Wait then 1 else 0) + Waits(Next(s, es[0]), es[1..], i)
  }

  /** How many jobs worker `i` runs in the run. */
  ghost function JobsRun(s: State, es: seq<Event>, i: nat): nat
    decreases |es|
  {
    if es == [] || !Enabled(s, es[0]) then 0 else
      (if es[0] == Work(i) && s.workers[i].pc.Run? then 1 else 0) + JobsRun(Next(s, es[0]), es[1..], i)
  }

  /** What one event of the shutdown does to the steps that worker `i` has left. */
  lemma RankAfter(s: State, e: Event, i: nat)
    requires !s.isRunning && Exiting(s.control) && Enabled(s, e) && i < |s.workers|
    ensures var u := Next(s, e);
      && !u.isRunning && Exiting(u.control) && i < |u.workers|
      && Rank(u.workers[i]) <= Rank(s.workers[i])
      && (e == Work(i) && s.workers[i].pc == Wait ==> Rank(s.workers[i]) == 6 && Rank(u.workers[i]) < 6)
      && (e == Work(i) && s.workers[i].pc.Run? ==> Rank(s.workers[i]) == 2 && Rank(u.workers[i]) < 2)
  {
  }

  lemma {:induction false} OneMoreRound(s: State, es: seq<Event>, t: State, i: nat)
    requires !s.isRunning && Exiting(s.control) && Leads(s, es, t) && i < |s.workers|
    ensures Waits(s, es, i) <= (if Rank(s.workers[i]) >= 6 then 1 else 0)
    ensures JobsRun(s, es, i) <= (if Rank(s.workers[i]) >= 2 then 1 else 0)
    decreases |es|
  {
    if es != [] {
      RankAfter(s, es[0], i);
      OneMoreRound(Next(s, es[0]), es[1..], t, i);
    }
  }

  // ---------------------------------------------------------------- the other two ways to join

  lemma OnlyOneThreadIsSafe(s: State)
    requires Reachable(s) && s.policy == JoinEach && s.maxThreadNum == 1
    ensures !Stuck(s)
  {
    ReachableInv(s);
    if !s.isRunning && !Finished(s) {
      ProgressDuringExit(s);
    }
  }

  /** Joining each thread right after its post: another worker takes the token. */
  lemma JoinEachGetsStuck(threadNum: nat) returns (s: State)
    requires 1 < threadNum < THREAD_POOL_NUM_MAX
    ensures Reachable(s) && s.policy == JoinEach && s.maxThreadNum == threadNum && Stuck(s)
  {
    s := Started(JoinEach, threadNum);
    s := Go(s, Deinit);
    s := Go(s, Advance);
    s := GoEmpty(s, 1);
    s := Go(s, Work(1));
    assert s.workers[0].pc == Wait && s.sem == 0 && s.control == JoinOne(0);
    forall e ensures !Enabled(s, e) {
      if e.Work? && e.i < |s.workers| {
        assert s.workers[e.i].pc == if e.i == 1 then Exited else Wait;
      }
    }
  }

  /** So correcting only the index of the join is enough exactly for a pool of one thread. */
  lemma JoinEachDeadlockIff(threadNum: nat)
    requires 0 < threadNum < THREAD_POOL_NUM_MAX
    ensures (exists s :: Reachable(s) && s.policy == JoinEach && s.maxThreadNum == threadNum && Stuck(s))
        <==> threadNum > 1
  {
    if threadNum > 1 {
      var s := JoinEachGetsStuck(threadNum);
    } else {
      forall s | Reachable(s) && s.policy == JoinEach && s.maxThreadNum == threadNum ensures !Stuck(s) {
        OnlyOneThreadIsSafe(s);
      }
    }
  }

  /** The exit handler of the source, alone, from its loop at `idx` to its return. */
  lemma GoStray(s: State, idx: nat) returns (t: State)
    requires Reachable(s) && s.policy == JoinStray && s.control == Exit(idx) && idx <= |s.workers|
    ensures Reachable(t) && t.control == Down
    ensures t.policy == JoinStray && t.maxThreadNum == s.maxThreadNum && t.workers == s.workers
    decreases |s.workers| - idx
  {
    t := Go(s, Advance);
    if idx < |s.workers| {
      t := Go(t, Advance);
      t := GoStray(t, idx + 1);
    }
  }

  /** With `k` of `threadNum` threads created, all waiting, the handler can return at once. */
  lemma StrayJoinLeavesWaiting(threadNum: nat, k: nat) returns (s: State)
    requires 0 < threadNum < THREAD_POOL_NUM_MAX && k <= threadNum
    ensures Reachable(s) && s.policy == JoinStray && s.maxThreadNum == threadNum && s.control == Down
    ensures |s.workers| == k && forall i | 0 <= i < k :: s.workers[i].pc == Wait
  {
    if k < threadNum {
      ParkedReachable(JoinStray, threadNum, k);
      s := Go(Parked(JoinStray, threadNum, k), CreateFails);
    } else {
      s := Started(JoinStray, threadNum);
      s := Go(s, Deinit);
    }
    s := GoStray(s, 0);
  }

  /** The join of the source waits for nobody: that ThreadPoolExitHandle has returned means that all
      `k` created workers have exited if and only if there are none. */
  lemma StrayJoinWaitsIff(threadNum: nat, k: nat)
    requires 0 < threadNum < THREAD_POOL_NUM_MAX && k <= threadNum
    ensures (forall s | Reachable(s) && s.policy == JoinStray && s.maxThreadNum == threadNum && |s.workers| == k &&
                        s.control == Down :: Finished(s))
        <==> k == 0
  {
    if k > 0 {
      var s := StrayJoinLeavesWaiting(threadNum, k);
      assert s.workers[0].pc != Exited;
    }
  }

  /** And in every pool it can return, and the pool be torn down, while a worker is running a job. */
  lemma StrayJoinReturnsEarly(threadNum: nat, job: Job) returns (s: State)
    requires 0 < threadNum < THREAD_POOL_NUM_MAX
    ensures Reachable(s) && s.policy == JoinStray && s.maxThreadNum == threadNum == |s.workers|
    ensures s.control == Down && s.workers[0].pc == Run(job)
  {
    s := Started(JoinStray, threadNum);
    s := GoAdd(s, job);
    s := GoTake(s, 0);
    s := Go(s, Deinit);
    s := GoStray(s, 0);
  }
}
