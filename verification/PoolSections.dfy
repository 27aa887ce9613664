/** The sections of thread_pool.c over the real job ring, each the same as letting one thread of the
    transition system take the steps of that section by itself; and the end of the list. */
module PoolSections {
  import opened JobQueue
  import opened LinkedList
  import opened ThreadPool

  /** Worker `i` from line 57 to line 61. */
  function IdleSection(s: State, i: nat): State
    requires WorkerEnabled(s, i) && s.workers[i].pc == LockIdle
  {
    WorkerStep(WorkerStep(s, i), i)
  }

  /** Worker `i` from line 64 to line 70 or 73. */
  function TakeSection(s: State, i: nat): State
    requires WorkerEnabled(s, i) && s.workers[i].pc == LockTake
  {
    var t := WorkerStep(WorkerStep(s, i), i);
    if t.workers[i].pc == Check then t else WorkerStep(t, i)
  }

  lemma TakeSectionShared(s: State, i: nat)
    requires WorkerEnabled(s, i) && s.workers[i].pc == LockTake
    ensures var t, none := TakeSection(s, i), s.queue == [];
      && t.workers == s.workers[i := Worker(if none then Check else Run(s.queue[0]), true)]
      && t.queue == (if none then [] else s.queue[1..]) && t.curJobNum == s.curJobNum - One(!none)
      && t.idleThreadNum == s.idleThreadNum - 1 && t.sem == s.sem
      && t.isRunning == s.isRunning && t.maxThreadNum == s.maxThreadNum
  {
  }

  /** The AddJob call from line 185 to line 190. */
  function AddSection(s: State): State
    requires ControlEnabled(s) && s.control.AddLock?
  {
    ControlStep(ControlStep(ControlStep(ControlStep(s))))
  }

  /** The dequeued payloads are with the workers that have those jobs. */
  ghost predicate HeldByWorkers(held: map<nat, JobNode>, ws: seq<Worker>) {
    && (forall i | i in held :: i < |ws| && HasJob(ws[i]) && held[i].job == ws[i].pc.job)
    && (forall i: nat | i < |ws| && HasJob(ws[i]) :: i in held)
  }

  class Pool {
    var isInit: bool
    var isRunning: bool
    var curJobNum: int
    var maxThreadNum: int
    var idleThreadNum: int
    var sem: nat
    const jobs: JobList

    /** The shared fields have the values that state `s` gives them. */
    ghost predicate Shows(s: State)
      reads this, jobs, jobs.memory, jobs.ring
    {
      && jobs.Valid() && jobs.contents == s.queue && HeldByWorkers(jobs.held, s.workers)
      && isRunning == s.isRunning && curJobNum == s.curJobNum && sem == s.sem
      && maxThreadNum == s.maxThreadNum && idleThreadNum == s.idleThreadNum
    }

    constructor (ghost policy: Policy, threadNum: int)
      requires 0 < threadNum < THREAD_POOL_NUM_MAX
      ensures Shows(Init(policy, threadNum)) && isInit
      ensures fresh(jobs) && fresh(jobs.memory) && fresh(jobs.ring)
    {
      jobs := new JobList();
      isInit, isRunning := true, true;
      curJobNum, maxThreadNum, idleThreadNum, sem := 0, threadNum, threadNum, 0;
    }

    method CountIdle(ghost s: State, ghost i: nat)
      requires Shows(s) && WorkerEnabled(s, i) && s.workers[i].pc == LockIdle
      modifies this`idleThreadNum
      ensures Shows(IdleSection(s, i))
    {
      if idleThreadNum != maxThreadNum {
        idleThreadNum := idleThreadNum + 1;
      }
    }

    method TakeJob(ghost s: State, ghost i: nat) returns (cur: JobNode?)
      requires Shows(s) && WorkerEnabled(s, i) && s.workers[i].pc == LockTake
      modifies this`idleThreadNum, this`curJobNum, jobs, jobs.memory, jobs.ring
      ensures Shows(TakeSection(s, i)) && forall n | n in jobs.ring :: n in old(jobs.ring)
      ensures TakeSection(s, i).workers[i].pc == (if cur == null then Check else Run(cur.job))
      ensures cur != null ==> i in jobs.held && jobs.held[i] == cur
    {
      TakeSectionShared(s, i);
      idleThreadNum := idleThreadNum - 1;
      cur := jobs.TakeJob(i);
      if cur != null {
        curJobNum := curJobNum - 1;
      }
    }

    /** Lines 74-78: the job the worker runs is the one in the payload, which is live until then. */
    method RunJob(cur: JobNode, ghost s: State, ghost i: nat) returns (job: Job)
      requires Shows(s) && WorkerEnabled(s, i) && s.workers[i].pc.Run?
      requires i in jobs.held && jobs.held[i] == cur
      modifies jobs`held, jobs.memory
      ensures Shows(WorkerStep(s, i)) && WorkerStep(s, i).completed == s.completed + [job]
      ensures jobs.memory.freed == old(jobs.memory.freed) + [cur]
    {
      job := cur.JobInfo(jobs.memory);
      jobs.FreeJob(cur, i);
    }

    /** ThreadPoolAddJob: refuses NULL and an uninitialised pool, and fails without memory. */
    method AddJob(job: Job, hasRoomForJob: bool, hasRoomForNode: bool, ghost s: State) returns (ret: int)
      requires Shows(s) && s.control == AddLock(job) && s.lock == Unlocked
      modifies this`curJobNum, this`sem, jobs, jobs.memory, jobs.ring
      ensures ret == (if job.jobFunc == 0 || job.arg == 0 then -3
                      else if isInit && hasRoomForJob && hasRoomForNode then 0 else -1)
      ensures Shows(if ret == 0 then AddSection(s) else s)
      ensures forall n | n in jobs.ring :: n in old(jobs.ring) || fresh(n)
    {
      if job.jobFunc == 0 || job.arg == 0 {
        return -3;
      }
      if !isInit {
        return -1;
      }
      ret := jobs.AddJob(job, hasRoomForJob, hasRoomForNode);
      if ret != 0 {
        return -1;
      }
      curJobNum := curJobNum + 1;
      sem := sem + 1;
    }

    /** The rest of ThreadPoolDeinit (lines 146-150), after ThreadPoolExitHandle has returned: when
        every worker has exited, every payload ever allocated has been freed, and none twice. */
    method Deinit(ghost s: State)
      requires Shows(s) && s.control == Down && s.lock == Unlocked
      modifies this`curJobNum, this`maxThreadNum, this`idleThreadNum, jobs, jobs.memory, jobs.head
      ensures curJobNum == 0 && maxThreadNum == 0 && idleThreadNum == 0
      ensures jobs.Valid() && jobs.contents == [] && jobs.made == old(jobs.made)
      ensures forall p | p in jobs.made :: p in jobs.memory.freed || p in jobs.held.Values
      ensures (forall i | 0 <= i < |s.workers| :: s.workers[i].pc == Exited) ==>
        forall p | p in jobs.made :: p in jobs.memory.freed
      ensures Distinct(jobs.memory.freed)
    {
      curJobNum, maxThreadNum, idleThreadNum := 0, 0, 0;
      jobs.Deinit();
    }
  }

  /** ThreadPoolInit up to the creation of the threads, which are the first steps of the transition
      system: it takes 1 to 6 threads. */
  method ThreadPoolInit(threadNum: int, ghost policy: Policy) returns (ret: int, pool: Pool?)
    ensures ret == if 1 <= threadNum <= 6 then 0 else -3
    ensures pool != null <==> ret == 0
    ensures pool != null ==> fresh(pool) && pool.isInit && pool.Shows(Init(policy, threadNum))
  {
    if threadNum <= 0 || threadNum >= THREAD_POOL_NUM_MAX {
      return -3, null;
    }
    pool := new Pool(policy, threadNum);
    ret := 0;
  }
}
