/** What the router can always still do: finish every job, take in every message, and serve new clients. */
module RouterProgress {
  import opened Wrappers
  import opened RouteTable
  import opened RouteServer
  import opened RouteClient
  import opened Router
  import opened RouterInvariants
  import opened RouterDelivery
  import opened RouterJob
  import opened RouterFds
  import opened RouterAcceptance

  lemma {:induction false} LeadsOn(s: State, es: seq<Event>, t: State, more: seq<Event>, u: State)
    requires Leads(s, es, t) && Leads(t, more, u)
    ensures Leads(s, es + more, u)
    decreases |es|
  {
    if es == [] {
      assert es + more == more;
    } else {
      LeadsOn(Next(s, es[0]), es[1..], t, more, u);
      LeadsFirst(s, es[0], es[1..] + more, u);
      assert [es[0]] + (es[1..] + more) == es + more;
    }
  }

  lemma OneEvent(s: State, e: Event)
    requires Shaped(s) && Enabled(s, e)
    ensures Leads(s, [e], Next(s, e)) && Shaped(Next(s, e))
  {
    ShapedStep(s, e);
    assert Leads(Next(s, e), [], Next(s, e));
    LeadsFirst(s, e, [], Next(s, e));
    assert [e] + [] == [e];
  }

  // ---------------------------------------------------------------- every job can be finished

  /** Each running job is where it can be. */
  ghost predicate PcsFit(s: State)
    requires Shaped(s)
  {
    forall w | w in s.running :: PcFits(s.accepted[s.running[w].job], s.running[w].pc)
  }

  lemma PcsFitStep(s: State, e: Event)
    requires Shaped(s) && PcsFit(s) && Enabled(s, e) && Shaped(Next(s, e))
    ensures PcsFit(Next(s, e))
  {
    AcceptedGrows(s, e);
    match e
    case Step(w) =>
      if s.running[w].pc != End {
        RestStep(s.table, s.accepted[s.running[w].job], s.running[w].pc);
      }
    case Start(w) =>
    case _ => OnlyWorkersWork(s, e);
  }

  lemma {:induction false} RunPcsFit(tr: seq<State>, es: seq<Event>, k: nat)
    requires IsRun(tr, es) && k <= |es|
    ensures Shaped(tr[k]) && PcsFit(tr[k])
  {
    if k == 0 {
      InitShaped();
    } else {
      RunPcsFit(tr, es, k - 1);
      RunStep(tr, es, k - 1);
      var s, e := tr[k - 1], es[k - 1];
      ShapedStep(s, e);
      PcsFitStep(s, e);
    }
  }

  lemma {:induction false} StepsLead(s: State, w: nat, n: nat) returns (es: seq<Event>)
    requires Shaped(s)
    ensures Leads(s, es, Stepped(s, w, n)) && Shaped(Stepped(s, w, n))
    decreases n
  {
    if n == 0 || !Enabled(s, Step(w)) || s.running[w].pc == End {
      es := [];
    } else {
      ShapedStep(s, Step(w));
      var rest := StepsLead(Next(s, Step(w)), w, n - 1);
      LeadsFirst(s, Step(w), rest, Stepped(s, w, n));
      es := [Step(w)] + rest;
    }
  }

  /** A worker by itself finishes its job: it sends what is left to send. */
  lemma FinishesJob(s: State, w: nat) returns (es: seq<Event>, t: State)
    requires Shaped(s) && w in s.running && PcFits(s.accepted[s.running[w].job], s.running[w].pc)
    ensures Leads(s, es, t) && Shaped(t)
    ensures var run := s.running[w];
      t == s.(running := s.running - {w}, finished := s.finished + [run.job],
              sent := s.sent + Labelled(run.job, Rest(s.table, s.accepted[run.job], run.pc)))
  {
    var run := s.running[w];
    var n := RunsToEnd(s, w, StepsLeft(s.accepted[run.job], run.pc));
    var u := Stepped(s, w, n);
    var a := StepsLead(s, w, n);
    OneEvent(u, Step(w));
    t := Next(u, Step(w));
    LeadsOn(s, a, u, [Step(w)], t);
    es := a + [Step(w)];
    assert u.running - {w} == s.running - {w};
  }

  /** All workers finish what they have begun. */
  lemma {:induction false} FinishesRunning(s: State) returns (es: seq<Event>, t: State)
    requires Shaped(s) && PcsFit(s)
    ensures Leads(s, es, t) && Shaped(t) && s.sent <= t.sent
    ensures t == s.(running := map[], finished := t.finished, sent := t.sent)
    decreases |s.running|
  {
    if s.running == map[] {
      es, t := [], s;
    } else {
      var w: nat :| w in s.running;
      var a, u := FinishesJob(s, w);
      assert u.running.Keys == s.running.Keys - {w};
      assert |u.running| < |s.running|;
      var b;
      b, t := FinishesRunning(u);
      LeadsOn(s, a, u, b, t);
      es := a + b;
    }
  }

  ghost predicate AreJobs(accepted: seq<Msg>, jobs: seq<nat>) {
    forall k | 0 <= k < |jobs| :: jobs[k] < |accepted| && ValidMsg(accepted[jobs[k]])
  }

  /** What the waiting jobs send, in their order, when the table stays as it is. */
  ghost function AllSends(t: Table, accepted: seq<Msg>, jobs: seq<nat>): seq<Sent>
    requires Sized(t) && AreJobs(accepted, jobs)
  {
    if jobs == [] then []
    else Labelled(jobs[0], Targets(t, accepted[jobs[0]])) + AllSends(t, accepted, jobs[1..])
  }

  lemma PendingAreJobs(s: State)
    requires Shaped(s)
    ensures AreJobs(s.accepted, s.pending)
  {
    forall k | 0 <= k < |s.pending| ensures s.pending[k] < |s.accepted| && ValidMsg(s.accepted[s.pending[k]]) {
      assert s.accepted[s.pending[k]] in s.accepted;
    }
  }

  /** A free worker takes the oldest job and does it. */
  lemma DoesNext(s: State) returns (es: seq<Event>, t: State)
    requires Shaped(s) && s.running == map[] && s.pending != []
    ensures Leads(s, es, t) && Shaped(t)
    ensures s.pending[0] < |s.accepted| && ValidMsg(s.accepted[s.pending[0]])
    ensures var job := s.pending[0];
      t == s.(pending := s.pending[1..], finished := s.finished + [job],
              sent := s.sent + Labelled(job, Targets(s.table, s.accepted[job])))
  {
    PendingAreJobs(s);
    OneEvent(s, Start(0));
    var u := Next(s, Start(0));
    var a;
    a, t := FinishesJob(u, 0);
    LeadsFirst(s, Start(0), a, t);
    es := [Start(0)] + a;
    assert u.running - {0} == map[];
  }

  lemma {:induction false} DoesPending(s: State) returns (es: seq<Event>, t: State)
    requires Shaped(s) && s.running == map[]
    ensures Leads(s, es, t) && Shaped(t)
    ensures AreJobs(s.accepted, s.pending)
    ensures t == s.(pending := [], finished := s.finished + s.pending,
                    sent := s.sent + AllSends(s.table, s.accepted, s.pending))
    decreases |s.pending|
  {
    PendingAreJobs(s);
    if s.pending == [] {
      es, t := [], s;
      assert s.sent + [] == s.sent && s.finished + [] == s.finished;
    } else {
      var a, u := DoesNext(s);
      var b;
      b, t := DoesPending(u);
      LeadsOn(s, a, u, b, t);
      es := a + b;
      var first := Labelled(s.pending[0], Targets(s.table, s.accepted[s.pending[0]]));
      RouterJob.Regroup(s.sent, first, AllSends(s.table, s.accepted, s.pending[1..]));
      FirstAndRest(s.finished, s.pending);
    }
  }

  lemma FirstAndRest(a: seq<nat>, b: seq<nat>)
    requires b != []
    ensures (a + [b[0]]) + b[1..] == a + b
  {
  }

  lemma {:induction false} LastSends(t: Table, accepted: seq<Msg>, jobs: seq<nat>)
    requires Sized(t) && AreJobs(accepted, jobs) && jobs != []
    ensures var last := jobs[|jobs| - 1];
      AllSends(t, accepted, jobs) ==
        AllSends(t, accepted, jobs[..|jobs| - 1]) + Labelled(last, Targets(t, accepted[last]))
  {
    var n := |jobs| - 1;
    if n == 0 {
      assert jobs[..0] == [] && jobs[1..] == [];
    } else {
      var rest := jobs[1..];
      LastSends(t, accepted, rest);
      assert rest[..n - 1] == jobs[..n][1..] && rest[n - 1] == jobs[n];
      RouterJob.Regroup(Labelled(jobs[0], Targets(t, accepted[jobs[0]])), AllSends(t, accepted, rest[..n - 1]),
              Labelled(jobs[n], Targets(t, accepted[jobs[n]])));
    }
  }

  ghost predicate EndsIn(sent: seq<Sent>, tail: seq<Sent>) {
    exists before :: sent == before + tail
  }

  lemma EndsWithLast(sent: seq<Sent>, t: Table, accepted: seq<Msg>, jobs: seq<nat>)
    requires Sized(t) && AreJobs(accepted, jobs) && jobs != []
    ensures var last := jobs[|jobs| - 1];
      EndsIn(sent + AllSends(t, accepted, jobs), Labelled(last, Targets(t, accepted[last])))
  {
    var n := |jobs| - 1;
    var last := Labelled(jobs[n], Targets(t, accepted[jobs[n]]));
    LastSends(t, accepted, jobs);
    RouterJob.Regroup(sent, AllSends(t, accepted, jobs[..n]), last);
    assert sent + AllSends(t, accepted, jobs) == (sent + AllSends(t, accepted, jobs[..n])) + last;
  }

  /** From every moment the jobs can all be finished, without the table changing; a job that was waiting
      then sends what its message is meant to lead to by that table. */
  lemma EveryJobCanFinish(s: State) returns (es: seq<Event>, t: State)
    requires Shaped(s) && PcsFit(s)
    ensures Leads(s, es, t) && Shaped(t) && t.pending == [] && t.running == map[]
    ensures t == s.(pending := [], running := map[], finished := t.finished, sent := t.sent)
    ensures forall j | j in s.pending :: j in t.finished
    ensures s.pending != [] ==> var last := s.pending[|s.pending| - 1];
      && last < |s.accepted| && ValidMsg(s.accepted[last])
      && EndsIn(t.sent, Labelled(last, Targets(s.table, s.accepted[last])))
  {
    PendingAreJobs(s);
    var a, u := FinishesRunning(s);
    var b;
    b, t := DoesPending(u);
    LeadsOn(s, a, u, b, t);
    es := a + b;
    if s.pending != [] {
      EndsWithLast(u.sent, s.table, s.accepted, s.pending);
    }
  }

  // ---------------------------------------------------------------- every message can get through

  lemma PutTwice(conns: map<int, Conn>, fd: int, c: Conn, d: Conn)
    ensures conns[fd := c][fd := d] == conns[fd := d]
  {
  }

  lemma ReceivesOne(s: State, fd: int) returns (t: State)
    requires Shaped(s) && PcsFit(s) && s.epoll == Idle && fd in s.conns && s.conns[fd].polled
    requires s.conns[fd].channel != []
    ensures Leads(s, [Receive(fd)], t) && Shaped(t) && PcsFit(t) && t.epoll == Idle
    ensures t.conns == s.conns[fd := s.conns[fd].(channel := s.conns[fd].channel[1..])]
    ensures Qualifies(s.conns[fd].channel[0]) ==>
      && t.accepted != [] && t.accepted[|t.accepted| - 1] == AcceptedAs(fd, s.conns[fd].channel[0])
      && t.pending != [] && t.pending[|t.pending| - 1] == |t.accepted| - 1
  {
    ReceiveAcceptsIff(s, fd);
    OneEvent(s, Receive(fd));
    PcsFitStep(s, Receive(fd));
    t := Next(s, Receive(fd));
    assert ConnShaped(fd, s.conns[fd]);
  }

  /** The epoll thread receives all that is in flight on a connection. */
  lemma {:induction false} ReceivesAll(s: State, fd: int, left: nat) returns (es: seq<Event>, t: State)
    requires Shaped(s) && PcsFit(s) && s.epoll == Idle && fd in s.conns && s.conns[fd].polled
    requires left == |s.conns[fd].channel|
    ensures Leads(s, es, t) && Shaped(t) && PcsFit(t) && t.epoll == Idle && (left == 0 ==> t == s)
    ensures t.conns == s.conns[fd := s.conns[fd].(channel := [])]
    ensures left > 0 && Qualifies(s.conns[fd].channel[left - 1]) ==>
      && t.accepted != [] && t.accepted[|t.accepted| - 1] == AcceptedAs(fd, s.conns[fd].channel[left - 1])
      && t.pending != [] && t.pending[|t.pending| - 1] == |t.accepted| - 1
    decreases left
  {
    if left == 0 {
      es, t := [], s;
      assert s.conns[fd := s.conns[fd].(channel := [])] == s.conns;
    } else {
      var u := ReceivesOne(s, fd);
      var rest;
      rest, t := ReceivesAll(u, fd, left - 1);
      LeadsOn(s, [Receive(fd)], u, rest, t);
      es := [Receive(fd)] + rest;
      PutTwice(s.conns, fd, u.conns[fd], s.conns[fd].(channel := []));
      if left > 1 {
        assert u.conns[fd].channel[left - 2] == s.conns[fd].channel[left - 1];
      }
    }
  }

  /** A client on an open connection that epoll took can send any message that qualifies, and the router
      can take it in, start it and send it as it is meant to be sent. */
  lemma MessageGetsThrough(s: State, fd: int, p: Packet) returns (es: seq<Event>, t: State, job: nat)
    requires Shaped(s) && PcsFit(s) && s.epoll == Idle && Qualifies(p)
    requires fd in s.conns && s.conns[fd].polled && s.conns[fd].isOpen
    ensures Leads(s, es, t) && Shaped(t) && t.running == map[] && t.pending == [] && job in t.finished
    ensures job < |t.accepted| && t.accepted[job] == AcceptedAs(fd, p) && ValidMsg(t.accepted[job])
    ensures EndsIn(t.sent, Labelled(job, Targets(t.table, t.accepted[job])))
    ensures Delivers(t.table, t.accepted[job], Targets(t.table, t.accepted[job]))
  {
    HandedOnIff(fd, p);
    assert PacketInRange(fd, p);
    var e := ClientSend(fd, p);
    OneEvent(s, e);
    PcsFitStep(s, e);
    var u := Next(s, e);
    var left := |s.conns[fd].channel|;
    assert u.conns[fd].channel[left] == p;
    var a, v := ReceivesAll(u, fd, left + 1);
    job := |v.accepted| - 1;
    assert v.pending[|v.pending| - 1] in v.pending;
    var b;
    b, t := EveryJobCanFinish(v);
    LeadsOn(u, a, v, b, t);
    LeadsFirst(s, e, a + b, t);
    es := [e] + (a + b);
    DeliversIff(t.table, t.accepted[job], Targets(t.table, t.accepted[job]));
  }

  /** And any process can connect, under any fd that is free, and get its message through. */
  lemma NewClientGetsThrough(s: State, fd: int, appId: nat, local: Local, p: Packet)
    returns (es: seq<Event>, t: State, job: nat)
    requires Shaped(s) && PcsFit(s) && s.epoll == Idle && Qualifies(p)
    requires fd >= 0 && fd !in s.conns && 1 <= appId <= 2 && LocalValid(local)
    ensures Leads(s, es, t) && Shaped(t) && job in t.finished
    ensures job < |t.accepted| && t.accepted[job] == AcceptedAs(fd, p) && ValidMsg(t.accepted[job])
    ensures EndsIn(t.sent, Labelled(job, Targets(t.table, t.accepted[job])))
  {
    var e := Connect(fd, appId, local, true);
    OneEvent(s, e);
    PcsFitStep(s, e);
    var rest;
    rest, t, job := MessageGetsThrough(Next(s, e), fd, p);
    LeadsFirst(s, e, rest, t);
    es := [e] + rest;
  }

  /** A subscribe or unsubscribe call on a connection where nothing is under way can be made, and takes
      effect: the client's entry is the new one, nothing is under way again, and the server has noted it
      unless the slot is another connection's. */
  lemma CallTakesEffect(s: State, fd: int, u: Update) returns (es: seq<Event>, t: State)
    requires Shaped(s) && s.epoll == Idle && u.msgType < MSG_ROUTE_MAX_MSG
    requires fd in s.conns && s.conns[fd].polled && s.conns[fd].isOpen
    requires s.conns[fd].channel == [] && s.conns[fd].pending == None
    ensures Leads(s, es, t) && Shaped(t) && fd in t.conns
    ensures var c, d := s.conns[fd], t.conns[fd];
      && d.channel == [] && d.pending == None && d.appId == c.appId && d.id == c.id
      && |d.local| == |c.local| && d.local[u.msgType].rxFunc == u.rxFunc && d.stale == c.stale - {u.msgType}
      && (forall k | 0 <= k < |c.local| && k != u.msgType :: d.local[k] == c.local[k])
      && t.table[c.appId].fd == (if s.table[c.appId].fd == -1 then fd else s.table[c.appId].fd)
      && t.table[c.appId].msgFlag[u.msgType] == u.rxFunc.Some?
  {
    var c := s.conns[fd];
    var p := ChangePacket(0, c.appId, u.msgType, u.rxFunc.Some?);
    assert ConnShaped(fd, c);
    var e, f := ClientChange(fd, u), ClientCommit(fd);
    OneEvent(s, e);
    var s1 := Next(s, e);
    assert s1.conns[fd].channel == [p];
    OneEvent(s1, f);
    var s2 := Next(s1, f);
    TakesEffect(s2, fd, p);
    OneEvent(s2, Receive(fd));
    t := Next(s2, Receive(fd));
    LeadsFirst(s1, f, [Receive(fd)], t);
    LeadsFirst(s, e, [f] + [Receive(fd)], t);
    es := [e] + ([f] + [Receive(fd)]);
  }

  /** The server handles the only packet in flight, a change. */
  lemma TakesEffect(s: State, fd: int, p: Packet)
    requires Shaped(s) && s.epoll == Idle && fd in s.conns && s.conns[fd].polled
    requires s.conns[fd].channel == [p] && Changes(p) && p.msg.appId == s.conns[fd].appId
    ensures Enabled(s, Receive(fd))
    ensures var t, i, k: nat := Next(s, Receive(fd)), s.conns[fd].appId, p.msg.data[0];
      && t.conns == s.conns[fd := s.conns[fd].(channel := [])]
      && t.table[i].fd == (if s.table[i].fd == -1 then fd else s.table[i].fd)
      && t.table[i].msgFlag[k] == (p.msg.msgType == 1)
  {
    assert ConnShaped(fd, s.conns[fd]) && PacketInRange(fd, p) && [p][1..] == [];
    ReceiveAcceptsIff(s, fd);
    TableChangesIff(s.table, fd, p);
  }
}
