/** Short runs of the pool, from which the scenarios are put together. */
module PoolRuns {
  import opened JobQueue
  import opened ThreadPool

  /** A running worker goes through the top of its loop to the semaphore. */
  lemma GoIdle(s: State, i: nat) returns (t: State)
    requires Reachable(s) && s.isRunning && s.lock == Unlocked && i < |s.workers| && s.workers[i].pc == Check
    ensures Reachable(t)
    ensures var full := s.idleThreadNum == s.maxThreadNum;
      t == s.(workers := s.workers[i := Worker(Wait, s.workers[i].served)],
              idleThreadNum := if full then s.idleThreadNum else s.idleThreadNum + 1,
              overCounted := s.overCounted || (!full && !s.workers[i].served))
  {
    t := Go(s, Work(i));
    t := Go(t, Work(i));
    t := Go(t, Work(i));
  }

  /** A waiting worker takes a token and the oldest job. */
  lemma GoTake(s: State, i: nat) returns (t: State)
    requires Reachable(s) && s.lock == Unlocked && s.sem > 0 && s.queue != []
    requires i < |s.workers| && s.workers[i].pc == Wait
    ensures Reachable(t)
    ensures t == s.(workers := s.workers[i := Worker(Run(s.queue[0]), true)], sem := s.sem - 1,
                    idleThreadNum := s.idleThreadNum - 1, curJobNum := s.curJobNum - 1,
                    queue := s.queue[1..], dequeued := s.dequeued + [s.queue[0]])
  {
    t := Go(s, Work(i));
    t := Go(t, Work(i));
    t := Go(t, Work(i));
    t := Go(t, Work(i));
  }

  /** A waiting worker takes a token, finds no job and goes back to the top of its loop. */
  lemma GoEmpty(s: State, i: nat) returns (t: State)
    requires Reachable(s) && s.lock == Unlocked && s.sem > 0 && s.queue == []
    requires i < |s.workers| && s.workers[i].pc == Wait
    ensures Reachable(t)
    ensures t == s.(workers := s.workers[i := Worker(Check, true)], sem := s.sem - 1,
                    idleThreadNum := s.idleThreadNum - 1, emptyWakes := s.emptyWakes + 1)
  {
    t := Go(s, Work(i));
    t := Go(t, Work(i));
    t := Go(t, Work(i));
  }

  /** A whole ThreadPoolAddJob call. */
  lemma GoAdd(s: State, job: Job) returns (t: State)
    requires Reachable(s) && s.lock == Unlocked && s.control == Free
    ensures Reachable(t)
    ensures t == s.(queue := s.queue + [job], accepted := s.accepted + [job],
                    curJobNum := s.curJobNum + 1, sem := s.sem + 1)
  {
    t := Go(s, AddJob(job));
    t := Go(t, Advance);
    t := Go(t, Advance);
    t := Go(t, Advance);
    t := Go(t, Advance);
  }

  /** A pool of `threadNum` threads of which the first `k` have been created and wait. */
  function Parked(policy: Policy, threadNum: nat, k: nat): State
    requires 0 < threadNum < THREAD_POOL_NUM_MAX && k <= threadNum
  {
    Init(policy, threadNum).(workers := seq(k, _ => Worker(Wait, false)))
  }

  lemma {:induction false} ParkedReachable(policy: Policy, threadNum: nat, k: nat)
    requires 0 < threadNum < THREAD_POOL_NUM_MAX && k <= threadNum
    ensures Reachable(Parked(policy, threadNum, k))
  {
    if k == 0 {
      var s := InitReachable(policy, threadNum);
      assert s.workers == seq(0, _ => Worker(Wait, false));
    } else {
      ParkedReachable(policy, threadNum, k - 1);
      var s := Go(Parked(policy, threadNum, k - 1), Advance);
      var t := GoIdle(s, k - 1);
      assert t.workers == seq(k, _ => Worker(Wait, false));
    }
  }

  /** A pool that has just started, all its threads waiting. */
  lemma Started(policy: Policy, threadNum: nat) returns (s: State)
    requires 0 < threadNum < THREAD_POOL_NUM_MAX
    ensures Reachable(s) && s == Parked(policy, threadNum, threadNum).(control := Free)
  {
    ParkedReachable(policy, threadNum, threadNum);
    s := Go(Parked(policy, threadNum, threadNum), Advance);
  }
}
