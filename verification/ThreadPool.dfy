/** The thread pool of framework/thread_pool/thread_pool.c as a transition system over its
    threads: every load, store, lock, semaphore operation and join that another thread can
    observe is a step of its own, and steps of different threads interleave freely. */
module ThreadPool {
  import opened JobQueue

  const THREAD_POOL_NUM_MAX := 7

  /** Where a worker is in PthreadPoolProcessThread: the step it takes next. */
  datatype Pc =
    | Check                  // line 56
    | LockIdle               // line 57
    | CountIdle              // lines 58-61, lock held
    | Wait                   // line 63
    | LockTake               // lines 64-66
    | Take                   // lines 67-71, lock held
    | CountTaken(job: Job)   // lines 72-73, lock held
    | Run(job: Job)          // lines 74-78
    | Exited

  /** `served`: the worker has been past the decrement of line 66 at least once. */
  datatype Worker = Worker(pc: Pc, served: bool)

  /** What the thread inside `g_initMutex` is doing.  Init, Deinit and AddJob all hold that mutex
      from start to end, so there is never more than one. */
  datatype Control =
    | Creating               // lines 118-125
    | Free                   // nobody holds g_initMutex
    | AddLock(job: Job)      // line 185
    | AddInsert(job: Job)    // line 187, lock held
    | AddCount               // lines 188-189, lock held
    | AddPost                // line 190
    | Exit(idx: nat)         // lines 40-41, `idx` workers dealt with
    | JoinOne(idx: nat)      // line 44
    | JoinAll(idx: nat)      // the joins when they come after all the posts
    | Down                   // ThreadPoolExitHandle has returned

  /** How ThreadPoolExitHandle joins: the source joins a thread id that was never created, which is
      taken to wait for nobody; `JoinEach` corrects only the index; `PostThenJoin` posts for everyone first. */
  datatype Policy = JoinStray | JoinEach | PostThenJoin

  datatype Lock = Unlocked | ByWorker(i: nat) | ByControl

  /** The fields from `accepted` on record what happened; no step reads them. */
  datatype State = State(
    policy: Policy,
    isRunning: bool,
    curJobNum: int,
    maxThreadNum: nat,
    idleThreadNum: int,
    sem: nat,
    lock: Lock,
    queue: seq<Job>,
    workers: seq<Worker>,
    control: Control,
    accepted: seq<Job>,
    dequeued: seq<Job>,
    completed: seq<Job>,
    exitPosts: nat,
    emptyWakes: nat,
    overCounted: bool)

  function Init(policy: Policy, threadNum: nat): State
    requires 0 < threadNum < THREAD_POOL_NUM_MAX
  {
    State(policy, true, 0, threadNum, threadNum, 0, Unlocked, [], [], Creating, [], [], [], 0, 0, false)
  }

  // ---------------------------------------------------------------- steps

  predicate WorkerEnabled(s: State, i: nat) {
    i < |s.workers| &&
    match s.workers[i].pc
    case LockIdle => s.lock == Unlocked
    case LockTake => s.lock == Unlocked
    case Wait => s.sem > 0
    case Exited => false
    case _ => true
  }

  /** Worker `w` after its next step. */
  function Moved(s: State, w: Worker): Worker {
    match w.pc
    case Check => w.(pc := if s.isRunning then LockIdle else Exited)
    case LockIdle => w.(pc := CountIdle)
    case CountIdle => w.(pc := Wait)
    case Wait => w.(pc := LockTake)
    case LockTake => Worker(Take, true)
    case Take => w.(pc := if s.queue == [] then Check else CountTaken(s.queue[0]))
    case CountTaken(job) => w.(pc := Run(job))
    case Run(_) => w.(pc := Check)
    case Exited => w
  }

  function WorkerStep(s: State, i: nat): State
    requires WorkerEnabled(s, i)
  {
    var w := s.workers[i];
    var t := s.(workers := s.workers[i := Moved(s, w)]);
    match w.pc
    case Check => t
    case LockIdle => t.(lock := ByWorker(i))
    case CountIdle =>
      if s.idleThreadNum == s.maxThreadNum then t.(lock := Unlocked)
      else t.(lock := Unlocked, idleThreadNum := s.idleThreadNum + 1, overCounted := s.overCounted || !w.served)
    case Wait => t.(sem := s.sem - 1)
    case LockTake => t.(lock := ByWorker(i), idleThreadNum := s.idleThreadNum - 1)
    case Take =>
      if s.queue == [] then t.(lock := Unlocked, emptyWakes := s.emptyWakes + 1)
      else t.(queue := s.queue[1..], dequeued := s.dequeued + [s.queue[0]])
    case CountTaken(_) => t.(lock := Unlocked, curJobNum := s.curJobNum - 1)
    case Run(job) => t.(completed := s.completed + [job])
  }

  predicate ControlEnabled(s: State) {
    match s.control
    case Free => false
    case Down => false
    case AddLock(_) => s.lock == Unlocked
    case JoinOne(idx) => s.policy == JoinStray || (idx < |s.workers| && s.workers[idx].pc == Exited)
    case JoinAll(idx) => idx < |s.workers| ==> s.workers[idx].pc == Exited
    case _ => true
  }

  function ControlStep(s: State): State
    requires ControlEnabled(s)
  {
    match s.control
    case Creating =>
      if |s.workers| < s.maxThreadNum then s.(workers := s.workers + [Worker(Check, false)]) else s.(control := Free)
    case AddLock(job) => s.(control := AddInsert(job), lock := ByControl)
    case AddInsert(job) => s.(control := AddCount, queue := s.queue + [job], accepted := s.accepted + [job])
    case AddCount => s.(control := AddPost, lock := Unlocked, curJobNum := s.curJobNum + 1)
    case AddPost => s.(control := Free, sem := s.sem + 1)
    case Exit(idx) =>
      if idx < |s.workers| then
        s.(sem := s.sem + 1, exitPosts := s.exitPosts + 1,
           control := if s.policy == PostThenJoin then Exit(idx + 1) else JoinOne(idx))
      else
        s.(control := if s.policy == PostThenJoin then JoinAll(0) else Down)
    case JoinOne(idx) => s.(control := Exit(idx + 1))
    case JoinAll(idx) => s.(control := if idx < |s.workers| then JoinAll(idx + 1) else Down)
  }

  datatype Event =
    | Work(i: nat)           // worker `i` takes its next step
    | Advance                // the thread inside g_initMutex takes its next step
    | CreateFails            // line 120: pthread_create fails
    | AddJob(job: Job)       // a ThreadPoolAddJob call gets g_initMutex
    | Deinit                 // a ThreadPoolDeinit call gets g_initMutex

  predicate Enabled(s: State, e: Event) {
    match e
    case Work(i) => WorkerEnabled(s, i)
    case Advance => ControlEnabled(s)
    case CreateFails => s.control == Creating && |s.workers| < s.maxThreadNum
    case AddJob(_) => s.control == Free
    case Deinit => s.control == Free
  }

  function Next(s: State, e: Event): State
    requires Enabled(s, e)
  {
    match e
    case Work(i) => WorkerStep(s, i)
    case Advance => ControlStep(s)
    case CreateFails => s.(isRunning := false, control := Exit(0))
    case AddJob(job) => s.(control := AddLock(job))
    case Deinit => s.(isRunning := false, control := Exit(0))
  }

  /** The events `es` can happen in this order from `s` and lead to `t`. */
  ghost predicate Leads(s: State, es: seq<Event>, t: State)
    decreases |es|
  {
    if es == [] then s == t else Enabled(s, es[0]) && Leads(Next(s, es[0]), es[1..], t)
  }

  ghost predicate Reachable(s: State) {
    exists policy, threadNum: nat, es ::
      0 < threadNum < THREAD_POOL_NUM_MAX && Leads(Init(policy, threadNum), es, s)
  }

  lemma {:induction false} LeadsOn(s: State, es: seq<Event>, t: State, more: seq<Event>, u: State)
    requires Leads(s, es, t) && Leads(t, more, u)
    ensures Leads(s, es + more, u)
    decreases |es|
  {
    if es == [] {
      assert es + more == more;
    } else {
      assert (es + more)[1..] == es[1..] + more;
      LeadsOn(Next(s, es[0]), es[1..], t, more, u);
    }
  }

  lemma InitReachable(policy: Policy, threadNum: nat) returns (s: State)
    requires 0 < threadNum < THREAD_POOL_NUM_MAX
    ensures s == Init(policy, threadNum) && Reachable(s)
  {
    s := Init(policy, threadNum);
    assert Leads(Init(policy, threadNum), [], s);
  }

  lemma Go(s: State, e: Event) returns (t: State)
    requires Reachable(s) && Enabled(s, e)
    ensures t == Next(s, e) && Reachable(t)
  {
    t := Next(s, e);
    var policy, threadNum: nat, es :|
      0 < threadNum < THREAD_POOL_NUM_MAX && Leads(Init(policy, threadNum), es, s);
    assert Leads(s, [e], t) by {
      assert [e][1..] == [];
    }
    LeadsOn(Init(policy, threadNum), es, s, [e], t);
  }

  // ---------------------------------------------------------------- counting workers

  function Sum(ws: seq<Worker>, f: Worker -> int): int {
    if ws == [] then 0 else Sum(ws[..|ws| - 1], f) + f(ws[|ws| - 1])
  }

  lemma {:induction false} SumUpdate(ws: seq<Worker>, i: nat, w: Worker, f: Worker -> int)
    requires i < |ws|
    ensures Sum(ws[i := w], f) == Sum(ws, f) - f(ws[i]) + f(w)
  {
    var last := |ws| - 1;
    if i == last {
      assert ws[i := w][..last] == ws[..last];
    } else {
      assert ws[i := w][..last] == ws[..last][i := w];
      SumUpdate(ws[..last], i, w, f);
    }
  }

  lemma SumAppend(ws: seq<Worker>, w: Worker, f: Worker -> int)
    ensures Sum(ws + [w], f) == Sum(ws, f) + f(w)
  {
    assert (ws + [w])[..|ws|] == ws;
  }

  lemma {:induction false} SumBounds(ws: seq<Worker>, f: Worker -> int, hi: nat)
    requires forall w :: 0 <= f(w) <= hi
    ensures 0 <= Sum(ws, f) <= hi * |ws|
    ensures forall i | 0 <= i < |ws| :: f(ws[i]) <= Sum(ws, f)
  {
    if ws != [] {
      SumBounds(ws[..|ws| - 1], f, hi);
      assert forall i | 0 <= i < |ws| - 1 :: ws[i] == ws[..|ws| - 1][i];
    }
  }

  lemma {:induction false} SumZero(ws: seq<Worker>, f: Worker -> int)
    requires forall i | 0 <= i < |ws| :: f(ws[i]) == 0
    ensures Sum(ws, f) == 0
  {
    if ws != [] {
      assert forall i | 0 <= i < |ws| - 1 :: ws[..|ws| - 1][i] == ws[i];
      SumZero(ws[..|ws| - 1], f);
    }
  }

  function One(b: bool): int { if b then 1 else 0 }

  /** Woken by the semaphore and not yet at the list. */
  function Woken(w: Worker): int { One(w.pc.LockTake? || w.pc.Take?) }

  /** Holds a job that `curJobNum` still counts. */
  function Uncounted(w: Worker): int { One(w.pc.CountTaken?) }

  /** Past the decrement of line 66 and not yet back at the increment of line 59; exited workers stay so. */
  function Busy(w: Worker): int { One(w.served && !w.pc.Wait? && !w.pc.LockTake?) }

  /** Still going to wait on the semaphore before its next look at `isRunning`. */
  function ToWait(w: Worker): int { One(w.pc.LockIdle? || w.pc.CountIdle? || w.pc.Wait?) }

  /** Steps left before the worker exits, once `isRunning` is false. */
  function Rank(w: Worker): int {
    match w.pc
    case Exited => 0 case Check => 1 case Run(_) => 2 case CountTaken(_) => 3 case Take => 4
    case LockTake => 5 case Wait => 6 case CountIdle => 7 case LockIdle => 8
  }

  predicate HasJob(w: Worker) {
    w.pc.CountTaken? || w.pc.Run?
  }

  /** Counts the workers that hold `job`, dequeued and not completed. */
  function Holding(job: Job): Worker -> int {
    (w: Worker) => One(HasJob(w) && w.pc.job == job)
  }
}
