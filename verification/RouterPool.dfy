/** The router over the thread pool: one run of both, in which the pool's k-th accepted job is the
    router's job k, and what the router promises holds by the pool's own account of its jobs. */
module RouterPool {
  import opened JobQueue
  import opened RouteTable
  import opened Wrappers
  import D = RouterDelivery
  import P = ThreadPool
  import PoolInvariants
  import PoolResults
  import R = Router
  import RouterInvariants
  import Scheduler

  /** MsgRouteCoreJobFunc with the copy of the router's k-th accepted message. */
  function JobOf(k: nat): Job {
    Job(1, k + 1)
  }

  // ---------------------------------------------------------------- one scheduler for both

  function NamesOf(jobs: seq<nat>): seq<Job> {
    seq(|jobs|, k requires 0 <= k < |jobs| => JobOf(jobs[k]))
  }

  function RunningNames(running: map<nat, nat>): map<nat, Job> {
    map w | w in running :: JobOf(running[w])
  }

  /** The router's jobs as the pool knows them. */
  function Named(a: Scheduler.Jobs<nat>): Scheduler.Jobs<Job> {
    Scheduler.Jobs(NamesOf(a.pending), RunningNames(a.running), NamesOf(a.finished))
  }

  function NamedAction(x: Scheduler.Action<nat>): Scheduler.Action<Job> {
    match x
    case Stutter => Scheduler.Stutter
    case Accept(job) => Scheduler.Accept(JobOf(job))
    case Start(w) => Scheduler.Start(w)
    case Finish(w) => Scheduler.Finish(w)
  }

  lemma NamedStep(a: Scheduler.Jobs<nat>, x: Scheduler.Action<nat>, b: Scheduler.Jobs<nat>)
    requires Scheduler.Step(a, x, b)
    ensures Scheduler.Step(Named(a), NamedAction(x), Named(b))
  {
    match x
    case Stutter =>
    case Accept(job) => assert NamesOf(a.pending + [job]) == NamesOf(a.pending) + [JobOf(job)];
    case Start(w) =>
      assert NamesOf(a.pending[1..]) == NamesOf(a.pending)[1..];
      assert RunningNames(a.running[w := a.pending[0]]) == RunningNames(a.running)[w := JobOf(a.pending[0])];
    case Finish(w) =>
      assert RunningNames(a.running - {w}) == RunningNames(a.running) - {w};
      assert NamesOf(a.finished + [a.running[w]]) == NamesOf(a.finished) + [JobOf(a.running[w])];
  }

  // ---------------------------------------------------------------- both together

  datatype Both = Both(pool: P.State, router: R.State)

  /** A step of the pool, of the router, or of both at once. */
  datatype Joint = Joint(pool: Option<P.Event>, router: R.Event)

  function PoolAction(p: P.State, e: Option<P.Event>): Scheduler.Action<Job>
    requires e.Some? ==> P.Enabled(p, e.value)
  {
    if e.Some? then PoolResults.ActionOf(p, e.value) else Scheduler.Stutter
  }

  /** The steps in which the pool accepts, starts or finishes a job are the steps in which the router
      hands it over, a worker enters its job function, or leaves it. */
  ghost predicate Happens(s: Both, j: Joint) {
    && R.Shaped(s.router) && R.Enabled(s.router, j.router) && (j.pool.Some? ==> P.Enabled(s.pool, j.pool.value))
    && PoolAction(s.pool, j.pool) == NamedAction(RouterInvariants.ActionOf(s.router, j.router))
  }

  ghost function After(s: Both, j: Joint): Both
    requires Happens(s, j)
  {
    Both(if j.pool.Some? then P.Next(s.pool, j.pool.value) else s.pool, R.Next(s.router, j.router))
  }

  /** Pool and router agree about what is waiting, running and done. */
  ghost predicate Linked(s: Both) {
    && PoolResults.Abstract(s.pool) == Named(RouterInvariants.Abstract(s.router))
    && |s.pool.dequeued| == R.Started(s.router)
    && s.pool.maxThreadNum == R.POOL_THREADS
  }

  lemma PoolCounts(p: P.State, e: Option<P.Event>)
    requires e.Some? ==> P.Enabled(p, e.value)
    ensures var q := if e.Some? then P.Next(p, e.value) else p;
      && |q.dequeued| == |p.dequeued| + (if PoolAction(p, e).Start? then 1 else 0)
      && q.maxThreadNum == p.maxThreadNum
      && Scheduler.Step(PoolResults.Abstract(p), PoolAction(p, e), PoolResults.Abstract(q))
  {
    if e.Some? {
      PoolResults.RefinesScheduler(p, e.value);
    }
  }

  lemma RouterCounts(r: R.State, e: R.Event)
    requires R.Shaped(r) && R.Enabled(r, e)
    ensures R.Started(R.Next(r, e)) ==
      R.Started(r) + (if RouterInvariants.ActionOf(r, e).Start? then 1 else 0)
  {
    if !e.Start? && !e.Step? {
      RouterInvariants.OnlyWorkersWork(r, e);
    }
  }

  lemma LinkedStep(s: Both, j: Joint)
    requires Linked(s) && Happens(s, j)
    ensures Linked(After(s, j))
  {
    PoolCounts(s.pool, j.pool);
    RouterCounts(s.router, j.router);
    RouterInvariants.RefinesScheduler(s.router, j.router);
    NamedStep(RouterInvariants.Abstract(s.router), RouterInvariants.ActionOf(s.router, j.router),
              RouterInvariants.Abstract(R.Next(s.router, j.router)));
  }

  // ---------------------------------------------------------------- whole runs

  ghost predicate JointStep(s: Both, j: Joint, t: Both) {
    Happens(s, j) && t == After(s, j)
  }

  ghost predicate IsJointRun(bs: seq<Both>, js: seq<Joint>, policy: P.Policy) {
    && |bs| == |js| + 1 && bs[0] == Both(P.Init(policy, R.POOL_THREADS), R.Init())
    && forall k {:trigger js[k]} | 0 <= k < |js| :: JointStep(bs[k], js[k], bs[k + 1])
  }

  function RouterStates(bs: seq<Both>): seq<R.State> {
    seq(|bs|, k requires 0 <= k < |bs| => bs[k].router)
  }

  function RouterEvents(js: seq<Joint>): seq<R.Event> {
    seq(|js|, k requires 0 <= k < |js| => js[k].router)
  }

  /** Seen from the router, a joint run is a run of the router. */
  lemma JointIsRouterRun(bs: seq<Both>, js: seq<Joint>, policy: P.Policy)
    requires IsJointRun(bs, js, policy)
    ensures RouterInvariants.IsRun(RouterStates(bs), RouterEvents(js))
  {
    var tr, es := RouterStates(bs), RouterEvents(js);
    forall k {:trigger es[k]} | 0 <= k < |es| ensures RouterInvariants.StepsTo(tr[k], es[k], tr[k + 1]) {
      assert JointStep(bs[k], js[k], bs[k + 1]);
    }
  }

  lemma InitLinked(policy: P.Policy)
    ensures Linked(Both(P.Init(policy, R.POOL_THREADS), R.Init()))
  {
    var p, r := P.Init(policy, R.POOL_THREADS), R.Init();
    assert PoolResults.RunningJobs(p.workers) == map[];
    assert RunningNames(RouterInvariants.JobsRunning(r.running)) == map[];
  }

  /** Seen from the pool, it is a run of the pool; and the two agree throughout. */
  lemma {:induction false} JointRun(bs: seq<Both>, js: seq<Joint>, policy: P.Policy, k: nat)
    requires IsJointRun(bs, js, policy) && k <= |js|
    ensures P.Reachable(bs[k].pool) && Linked(bs[k])
  {
    if k == 0 {
      var _ := P.InitReachable(policy, R.POOL_THREADS);
      InitLinked(policy);
    } else {
      JointRun(bs, js, policy, k - 1);
      var s, j := bs[k - 1], js[k - 1];
      assert JointStep(s, j, bs[k]);
      LinkedStep(s, j);
      if j.pool.Some? {
        var _ := P.Go(s.pool, j.pool.value);
      }
    }
  }

  /** Delivery by the pool's account: between a moment at which the pool had not dequeued a job and one
      at which it has completed it, the job has sent what RouterDelivery says. */
  lemma DeliveryOverPool(bs: seq<Both>, js: seq<Joint>, policy: P.Policy, from: nat, until: nat, job: nat, i: nat)
    requires IsJointRun(bs, js, policy) && from <= until <= |js| && i < MAX_APP_ID
    requires |bs[from].pool.dequeued| <= job && JobOf(job) in bs[until].pool.completed
    ensures var tr := RouterStates(bs);
      && job < |tr[until].accepted| && ValidMsg(tr[until].accepted[job])
      && D.Outcome(tr, from, until, job, tr[until].accepted[job], i)
  {
    JointIsRouterRun(bs, js, policy);
    JointRun(bs, js, policy, from);
    JointRun(bs, js, policy, until);
    var finished := bs[until].router.finished;
    assert bs[until].pool.completed == NamesOf(finished);
    var k :| 0 <= k < |finished| && NamesOf(finished)[k] == JobOf(job);
    assert finished[k] == job;
    D.Delivery(RouterStates(bs), RouterEvents(js), from, until, job, i);
  }

  // ---------------------------------------------------------------- the pool is not held up

  /** Whatever job the scheduler lets a worker start, the router lets it start. */
  lemma RouterStarts(r: R.State, w: nat, b: Scheduler.Jobs<nat>)
    requires R.Shaped(r) && w < R.POOL_THREADS
    requires Scheduler.Step(RouterInvariants.Abstract(r), Scheduler.Start(w), b)
    ensures R.Enabled(r, R.Start(w)) && RouterInvariants.Abstract(R.Next(r, R.Start(w))) == b
  {
    RouterInvariants.RefinesScheduler(r, R.Start(w));
  }

  /** And lets it finish when its job function is through. */
  lemma RouterFinishes(r: R.State, w: nat, b: Scheduler.Jobs<nat>)
    requires R.Shaped(r) && Scheduler.Step(RouterInvariants.Abstract(r), Scheduler.Finish(w), b)
    requires r.running[w].pc == R.End
    ensures R.Enabled(r, R.Step(w)) && RouterInvariants.Abstract(R.Next(r, R.Step(w))) == b
  {
    RouterInvariants.RefinesScheduler(r, R.Step(w));
  }

  /** The epoll thread has a message that is the router's next job. */
  ghost predicate CanAccept(r: R.State) {
    R.Shaped(r) && exists fd :: R.Enabled(r, R.Receive(fd)) && RouterInvariants.ActionOf(r, R.Receive(fd)).Accept?
  }

  /** What a step of the pool needs of the router: nothing, unless it is the end of a job function or
      the acceptance of a job. */
  ghost predicate RouterReady(s: Both, x: Scheduler.Action<Job>) {
    match x
    case Stutter => true
    case Start(w) => true
    case Finish(w) => w in s.router.running && s.router.running[w].pc == R.End
    case Accept(job) => job == JobOf(|s.router.accepted|) && CanAccept(s.router)
  }

  lemma StartIsReady(s: Both, i: nat)
    requires R.Shaped(s.router) && Linked(s) && P.Reachable(s.pool) && P.Enabled(s.pool, P.Work(i))
    requires PoolResults.ActionOf(s.pool, P.Work(i)) == Scheduler.Start(i)
    ensures Happens(s, Joint(Some(P.Work(i)), R.Start(i)))
  {
    PoolInvariants.ReachableInv(s.pool);
    PoolResults.RefinesScheduler(s.pool, P.Work(i));
    var a := RouterInvariants.Abstract(s.router);
    assert i !in RunningNames(a.running) && |NamesOf(a.pending)| > 0;
  }

  /** Every step that the pool can take, the two can take together, if and only if the router is ready:
      so the pool waits for the router only where a job function has not returned. */
  lemma PoolStepIff(s: Both, e: P.Event)
    requires R.Shaped(s.router) && Linked(s) && P.Reachable(s.pool) && P.Enabled(s.pool, e)
    ensures (exists re :: Happens(s, Joint(Some(e), re))) <==> RouterReady(s, PoolResults.ActionOf(s.pool, e))
  {
    var x := PoolResults.ActionOf(s.pool, e);
    match x
    case Stutter => assert Happens(s, Joint(Some(e), R.Elsewhere));
    case Start(w) => StartIsReady(s, w);
    case Finish(w) =>
      if RouterReady(s, x) {
        assert Happens(s, Joint(Some(e), R.Step(w)));
      }
    case Accept(job) =>
      if RouterReady(s, x) {
        var fd :| R.Enabled(s.router, R.Receive(fd)) && RouterInvariants.ActionOf(s.router, R.Receive(fd)).Accept?;
        assert Happens(s, Joint(Some(e), R.Receive(fd)));
      }
  }
}
