/** What every state of every run of the router keeps. */
module RouterInvariants {
  import opened RouteTable
  import opened RouteServer
  import opened RouteClient
  import opened Router
  import RouteHistory
  import Scheduler

  ghost predicate StepsTo(s: State, e: Event, t: State) {
    Shaped(s) && Enabled(s, e) && t == Next(s, e)
  }

  /** A run: `tr[k + 1]` is `tr[k]` after event `es[k]`.  Shaped holds in Init and is kept by every
      event (ShapedStep), so asking for it leaves no run out. */
  ghost predicate IsRun(tr: seq<State>, es: seq<Event>) {
    && |tr| == |es| + 1 && tr[0] == Init()
    && forall k {:trigger es[k]} | 0 <= k < |es| :: StepsTo(tr[k], es[k], tr[k + 1])
  }

  lemma InitShaped()
    ensures Shaped(Init())
  {
  }

  lemma ShapedConn(s: State, fd: int, c: Conn)
    requires Shaped(s) && fd >= 0 && LocalValid(c.local) && ConnShaped(fd, c)
    ensures Shaped(Put(s, fd, c))
  {
  }

  lemma ShapedJob(s: State, w: nat)
    requires Shaped(s) && w in s.running
    ensures Shaped(StepJob(s, w))
  {
  }

  lemma ShapedHandle(s: State, fd: int, m: Msg)
    requires Shaped(s) && ChangeInRange(m) && m.src >= 0 && m.data != []
    ensures Shaped(Handle(s, fd, m))
  {
  }

  lemma ShapedStep(s: State, e: Event)
    requires Shaped(s) && Enabled(s, e)
    ensures Shaped(Next(s, e))
  {
    match e
    case Connect(fd, appId, local, polled) => ShapedConn(s, fd, NewConn(s.connected, appId, local, polled));
    case ClientSend(fd, p) => ShapedConn(s, fd, SendOn(s.conns[fd], p));
    case ClientChange(fd, u) =>
      ShapedConn(s, fd, Next(s, e).conns[fd]);
    case ClientCommit(fd) =>
      ShapedConn(s, fd, Next(s, e).conns[fd]);
    case Hangup(fd) => ShapedConn(s, fd, Next(s, e).conns[fd]);
    case Receive(fd) =>
      var c := s.conns[fd];
      assert ConnShaped(fd, c) && PacketInRange(fd, c.channel[0]);
      var d := c.(channel := c.channel[1..]);
      ShapedConn(s, fd, d);
      var m := Frame(fd, c.channel[0]);
      if m.Some? {
        ShapedHandle(Put(s, fd, d), fd, m.value);
      }
    case EndOfFile(fd) =>
    case Close =>
    case Start(w) =>
    case Step(w) => ShapedJob(s, w);
    case Elsewhere =>
  }

  // ---------------------------------------------------------------- jobs

  /** A job is with at most one worker, and not any more once it is finished; only jobs that were
      taken have sent anything. */
  ghost predicate JobsApart(s: State) {
    && (forall w, v | w in s.running && v in s.running && w != v :: s.running[w].job != s.running[v].job)
    && (forall w | w in s.running :: s.running[w].job !in s.finished)
    && (forall j | j in s.finished :: j < Started(s))
    && (forall x | x in s.sent :: x.job < Started(s))
  }

  /** Only workers change anything about jobs that have been started. */
  lemma OnlyWorkersWork(s: State, e: Event)
    requires Shaped(s) && Enabled(s, e) && !e.Start? && !e.Step?
    ensures var t := Next(s, e);
      t.running == s.running && t.finished == s.finished && t.sent == s.sent && Started(t) == Started(s)
  {
    if e.Receive? {
      assert ConnShaped(e.fd, s.conns[e.fd]);
    }
  }

  lemma JobsApartStart(s: State, w: nat)
    requires Shaped(s) && JobsApart(s) && Enabled(s, Start(w))
    ensures JobsApart(Next(s, Start(w)))
  {
  }

  lemma JobsApartWork(s: State, w: nat)
    requires Shaped(s) && JobsApart(s) && Enabled(s, Step(w))
    ensures JobsApart(Next(s, Step(w)))
  {
  }

  lemma JobsApartStep(s: State, e: Event)
    requires Shaped(s) && JobsApart(s) && Enabled(s, e)
    ensures JobsApart(Next(s, e))
  {
    match e
    case Start(w) => JobsApartStart(s, w);
    case Step(w) => JobsApartWork(s, w);
    case _ => OnlyWorkersWork(s, e);
  }

  // ---------------------------------------------------------------- history

  /** The table is the fold of the accepted changes and disconnects, so RouteHistory.TableIsHistory
      applies to it. */
  ghost predicate TableIsFold(s: State) {
    RouteHistory.ValidHistory(s.history) && s.table == RouteHistory.Fold(s.history)
  }

  lemma TableIsFoldStep(s: State, e: Event)
    requires Shaped(s) && TableIsFold(s) && Enabled(s, e)
    ensures TableIsFold(Next(s, e))
  {
    match e
    case Receive(fd) =>
      var p := s.conns[fd].channel[0];
      assert ConnShaped(fd, s.conns[fd]) && PacketInRange(fd, p);
      var f := Frame(fd, p);
      if f.Some? && IsChange(f.value) {
        var m := f.value;
        RouteHistory.FoldAppend(s.history,
          RouteHistory.Changed(m.src, m.appId, m.data[0], m.msgType == MSG_ROUTE_SUBSCRIBE_MSG));
      }
    case EndOfFile(fd) => RouteHistory.FoldAppend(s.history, RouteHistory.Gone(fd));
    case _ =>
  }

  // ---------------------------------------------------------------- the scheduler

  function JobsRunning(running: map<nat, Run>): map<nat, nat> {
    map w | w in running :: running[w].job
  }

  function Abstract(s: State): Scheduler.Jobs<nat> {
    Scheduler.Jobs(s.pending, JobsRunning(s.running), s.finished)
  }

  ghost function ActionOf(s: State, e: Event): Scheduler.Action<nat>
    requires Shaped(s) && Enabled(s, e)
  {
    match e
    case Receive(fd) =>
      if |Next(s, e).accepted| > |s.accepted| then Scheduler.Accept(|s.accepted|) else Scheduler.Stutter
    case Start(w) => Scheduler.Start(w)
    case Step(w) => if s.running[w].pc == End then Scheduler.Finish(w) else Scheduler.Stutter
    case _ => Scheduler.Stutter
  }

  /** The router uses its workers only in the ways that the thread pool offers. */
  lemma RefinesScheduler(s: State, e: Event)
    requires Shaped(s) && Enabled(s, e)
    ensures Scheduler.Step(Abstract(s), ActionOf(s, e), Abstract(Next(s, e)))
  {
    var t := Next(s, e);
    match e
    case Receive(fd) => assert ConnShaped(fd, s.conns[fd]);
    case Start(w) => assert JobsRunning(t.running) == JobsRunning(s.running)[w := s.pending[0]];
    case Step(w) =>
      if s.running[w].pc == End {
        assert JobsRunning(t.running) == JobsRunning(s.running) - {w};
      } else {
        assert JobsRunning(t.running) == JobsRunning(s.running);
      }
    case _ =>
  }

  // ---------------------------------------------------------------- whole runs

  ghost predicate Inv(s: State) {
    Shaped(s) && JobsApart(s) && TableIsFold(s)
  }

  lemma InvStep(s: State, e: Event)
    requires Inv(s) && Enabled(s, e)
    ensures Inv(Next(s, e))
  {
    ShapedStep(s, e);
    JobsApartStep(s, e);
    TableIsFoldStep(s, e);
  }

  lemma InitInv()
    ensures Inv(Init())
  {
  }

  lemma RunStep(tr: seq<State>, es: seq<Event>, k: nat)
    requires IsRun(tr, es) && k < |es|
    ensures Shaped(tr[k]) && Enabled(tr[k], es[k]) && tr[k + 1] == Next(tr[k], es[k])
  {
    assert StepsTo(tr[k], es[k], tr[k + 1]);
  }

  lemma {:induction false} RunInv(tr: seq<State>, es: seq<Event>, k: nat)
    requires IsRun(tr, es) && k <= |es|
    ensures Inv(tr[k])
  {
    if k == 0 {
      InitInv();
    } else {
      RunInv(tr, es, k - 1);
      RunStep(tr, es, k - 1);
      var s, e := tr[k - 1], es[k - 1];
      InvStep(s, e);
    }
  }

  lemma AcceptedGrows(s: State, e: Event)
    requires Shaped(s) && Enabled(s, e)
    ensures s.accepted <= Next(s, e).accepted && Started(s) <= Started(Next(s, e))
  {
    if e.Receive? {
      assert ConnShaped(e.fd, s.conns[e.fd]);
    }
  }
}
