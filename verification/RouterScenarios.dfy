/** Runs of the router in which the live table makes a difference, and when it makes none. */
module RouterScenarios {
  import opened Wrappers
  import opened RouteTable
  import opened RouteServer
  import opened RouteClient
  import opened Router
  import opened RouterInvariants
  import opened RouterDelivery
  import opened RouterAgreement

  /** From `from` to `until`, slot `i` keeps its fd and its flag for one message type. */
  ghost predicate Unchanged(tr: seq<State>, from: nat, until: nat, i: nat, msgType: nat)
    requires from <= until < |tr| && i < MAX_APP_ID && msgType < MSG_ROUTE_MAX_MSG
  {
    && Sized(tr[from].table)
    && forall k {:trigger tr[k]} | from <= k <= until ::
      && Sized(tr[k].table) && tr[k].table[i].fd == tr[from].table[i].fd
      && tr[k].table[i].msgFlag[msgType] == tr[from].table[i].msgFlag[msgType]
  }

  /** When a slot's fd and its flag for the message are the same from the start of a job to its end,
      the job does for the slot exactly what the snapshot taken at the start says. */
  lemma UnchangedSlotMatchesSnapshot(tr: seq<State>, es: seq<Event>, from: nat, until: nat, job: nat, i: nat)
    requires IsRun(tr, es) && from <= until <= |es| && i < MAX_APP_ID
    requires Started(tr[from]) <= job && job in tr[until].finished
    ensures job < |tr[until].accepted| && ValidMsg(tr[until].accepted[job])
    ensures var m := tr[until].accepted[job];
      Unchanged(tr, from, until, i, m.msgType) ==>
        FdsSent(tr[until].sent, job, i) ==
          (if Addressed(m, i) && Subscribed(tr[from].table, i, m.msgType) then [tr[from].table[i].fd] else [])
  {
    Delivery(tr, es, from, until, job, i);
    var m := tr[until].accepted[job];
    if Unchanged(tr, from, until, i, m.msgType) {
      if Subscribed(tr[from].table, i, m.msgType) {
        assert Steady(tr, from, until, i, m.msgType, tr[from].table[i].fd);
      } else {
        assert Never(tr, from, until, i, m.msgType);
      }
    }
  }

  /** `s` is the last state of some run, or of some calm one. */
  ghost predicate Reachable(s: State, calm: bool) {
    exists tr, es :: IsRun(tr, es) && (calm ==> CalmRun(tr, es, |es|)) && tr[|es|] == s
  }

  lemma InitReachable(calm: bool) returns (s: State)
    ensures s == Init() && Reachable(s, calm) && Inv(s)
  {
    s := Init();
    InitInv();
    assert IsRun([s], []) && CalmRun([s], [], 0) && [s][0] == s;
  }

  lemma RunOneMore(tr: seq<State>, es: seq<Event>, e: Event)
    requires IsRun(tr, es) && Shaped(tr[|es|]) && Enabled(tr[|es|], e)
    ensures IsRun(tr + [Next(tr[|es|], e)], es + [e])
    ensures CalmRun(tr, es, |es|) && Calm(tr[|es|], e) ==> CalmRun(tr + [Next(tr[|es|], e)], es + [e], |es| + 1)
  {
    var tr', es' := tr + [Next(tr[|es|], e)], es + [e];
    forall k | 0 <= k < |es'| ensures StepsTo(tr'[k], es'[k], tr'[k + 1]) {
      if k < |es| {
        RunStep(tr, es, k);
      }
    }
    if CalmRun(tr, es, |es|) && Calm(tr[|es|], e) {
      forall k {:trigger es'[k]} | 0 <= k < |es'| ensures Calm(tr'[k], es'[k]) {
        assert k < |es| ==> es'[k] == es[k] && tr'[k] == tr[k];
      }
    }
  }

  lemma Go(s: State, e: Event, calm: bool) returns (t: State)
    requires Inv(s) && Reachable(s, calm) && Enabled(s, e) && (calm ==> Calm(s, e))
    ensures t == Next(s, e) && Reachable(t, calm) && Inv(t)
  {
    t := Next(s, e);
    InvStep(s, e);
    var tr, es :| IsRun(tr, es) && (calm ==> CalmRun(tr, es, |es|)) && tr[|es|] == s;
    RunOneMore(tr, es, e);
    assert (tr + [t])[|es + [e]|] == t;
  }

  /** A client of appId 1 has subscribed to a message type, and the server knows. */
  lemma OneSubscriber(fd: int, msgType: nat, rxFunc: int, calm: bool) returns (s: State)
    requires fd >= 0 && msgType < MSG_ROUTE_MAX_MSG
    ensures Inv(s) && Reachable(s, calm)
    ensures s == Init().(table := s.table, history := s.history, conns := s.conns, connected := 1)
    ensures s.table == EmptyTable()[1 := Slot(fd, NoFlags()[msgType := true])]
    ensures s.conns ==
      map[fd := NewConn(0, 1, NoEntries(), true).(local := NoEntries()[msgType := Entry(msgType, Some(rxFunc))])]
  {
    s := InitReachable(calm);
    s := Go(s, Connect(fd, 1, NoEntries(), true), calm);
    var c := NewConn(0, 1, NoEntries(), true);
    assert s.conns == map[fd := c] && c.stale == {};
    s := Subscribes(s, fd, msgType, rxFunc, calm);
    assert c.stale - {msgType} == {};
  }

  /** The only client subscribes, and the server handles that. */
  lemma Subscribes(s: State, fd: int, msgType: nat, rxFunc: int, calm: bool) returns (t: State)
    requires Inv(s) && Reachable(s, calm) && msgType < MSG_ROUTE_MAX_MSG && s.epoll == Idle
    requires s.table == EmptyTable() && fd in s.conns && s.conns[fd].appId == 1 && s.conns[fd].isOpen
    requires s.conns[fd].polled && s.conns[fd].channel == [] && s.conns[fd].pending == None
    ensures Inv(t) && Reachable(t, calm)
    ensures var c := s.conns[fd];
      t == s.(table := EmptyTable()[1 := Slot(fd, NoFlags()[msgType := true])], history := t.history,
              conns := s.conns[fd := c.(local := c.local[msgType := Entry(msgType, Some(rxFunc))],
                                        stale := c.stale - {msgType})])
  {
    assert ConnShaped(fd, s.conns[fd]);
    t := Go(s, ClientChange(fd, Update(msgType, Some(rxFunc))), calm);
    assert t.conns[fd].channel == [ChangePacket(0, 1, msgType, true)];
    t := Go(t, ClientCommit(fd), calm);
    t := SubscribeArrives(t, fd, msgType, calm);
  }

  lemma SubscribeArrives(s: State, fd: int, msgType: nat, calm: bool) returns (t: State)
    requires Inv(s) && Reachable(s, calm) && msgType < MSG_ROUTE_MAX_MSG && s.epoll == Idle
    requires s.table == EmptyTable() && fd in s.conns && s.conns[fd].appId == 1 && s.conns[fd].polled
    requires s.conns[fd].channel == [ChangePacket(0, 1, msgType, true)]
    ensures Inv(t) && Reachable(t, calm)
    ensures t == s.(table := EmptyTable()[1 := Slot(fd, NoFlags()[msgType := true])], history := t.history,
                    conns := s.conns[fd := s.conns[fd].(channel := [])])
  {
    var p := ChangePacket(0, 1, msgType, true);
    assert ConnShaped(fd, s.conns[fd]) && [p][1..] == [];
    var m := p.msg.(src := fd);
    assert Frame(fd, p) == Some(m) && IsChange(m);
    t := Go(s, Receive(fd), calm);
  }

  /** And a second connection has had a message for appId 1 accepted, which a worker has started. */
  lemma OneJob(fd: int, other: int, m: Msg) returns (s: State)
    requires fd >= 0 && other >= 0 && fd != other
    requires ValidMsg(m) && !IsChange(m) && m.dataType == 0 && m.appId == 1 && m.data == [0] && m.len == 1
    ensures Inv(s) && Reachable(s, false) && s.epoll == Idle && fd in s.conns
    ensures s.conns[fd].channel == [] && s.conns[fd].polled && s.conns[fd].id < s.connected
    ensures s.table == EmptyTable()[1 := Slot(fd, NoFlags()[m.msgType := true])]
    ensures s.accepted == [m.(src := other)] && s.running == map[0 := Run(0, Begin)] && s.sent == []
  {
    s := OneSubscriber(fd, m.msgType, 1, false);
    s := Go(s, Connect(other, 2, NoEntries(), true), false);
    assert Frame(other, Packet(m)) == Some(m.(src := other));
    s := Go(s, ClientSend(other, Packet(m)), false);
    assert s.conns[other].channel == [Packet(m)];
    s := Go(s, Receive(other), false);
    s := Go(s, Start(0), false);
  }

  /** The job has found the slot subscribed and is about to load its fd. */
  lemma FoundSubscribed(before: State, m: Msg) returns (s: State)
    requires Inv(before) && Reachable(before, false) && ValidMsg(m) && m.dataType == 0 && m.appId == 1
    requires before.accepted == [m] && before.running == map[0 := Run(0, Begin)]
    requires Subscribed(before.table, 1, m.msgType)
    ensures Inv(s) && Reachable(s, false) && s == before.(running := map[0 := Run(0, LoadFd(1))])
  {
    s := Go(before, Step(0), false);
    s := Go(s, Step(0), false);
    s := Go(s, Step(0), false);
    assert before.sent + [] + [] + [] == before.sent;
  }

  /** A client closes, and the server erases it. */
  lemma ClientLeaves(s: State, fd: int, calm: bool) returns (t: State)
    requires Inv(s) && Reachable(s, calm) && s.epoll == Idle
    requires fd in s.conns && s.conns[fd].channel == [] && s.conns[fd].polled
    ensures Inv(t) && Reachable(t, calm)
    ensures t == s.(conns := s.conns[fd := s.conns[fd].(isOpen := false)], table := Erase(s.table, fd),
                    history := t.history, epoll := Closing(fd))
  {
    t := Go(s, Hangup(fd), calm);
    t := Go(t, EndOfFile(fd), calm);
  }

  /** And its fd becomes the next connection. */
  lemma FdIsReused(s: State, fd: int, appId: nat, local: Local, calm: bool) returns (t: State)
    requires Inv(s) && Reachable(s, calm) && s.epoll == Idle && 0 < appId < MAX_APP_ID && LocalValid(local)
    requires fd in s.conns && s.conns[fd].channel == [] && s.conns[fd].polled
    ensures Inv(t) && Reachable(t, calm)
    ensures t == s.(conns := s.conns[fd := NewConn(s.connected, appId, local, true)], connected := s.connected + 1,
                    table := Erase(s.table, fd), history := t.history)
  {
    t := ClientLeaves(s, fd, calm);
    t := Go(t, Close, calm);
    t := Go(t, Connect(fd, appId, local, true), calm);
    assert t.conns == s.conns[fd := NewConn(s.connected, appId, local, true)];
  }

  /** The job takes a snapshot that names the subscriber, but reads the live table: when the
      subscriber leaves between the last look and the send, the send goes to fd -1. */
  lemma StaleSend(fd: int, other: int, m: Msg) returns (before: State, after: State)
    requires fd >= 0 && other >= 0 && fd != other
    requires ValidMsg(m) && !IsChange(m) && m.dataType == 0 && m.appId == 1 && m.data == [0] && m.len == 1
    ensures Inv(before) && Reachable(before, false) && before.running == map[0 := Run(0, Begin)]
    ensures Targets(before.table, m) == [ToSlot(1, fd)]
    ensures Inv(after) && Reachable(after, false) && after.sent == [Sent(0, ToSlot(1, -1))]
  {
    before := OneJob(fd, other, m);
    var s := FoundSubscribed(before, m.(src := other));
    s := ClientLeaves(s, fd, false);
    assert FirstOf(before.table, fd, 0) == 1;
    s := Go(s, Step(0), false);
    assert s.running[0] == Run(0, SendSlot(1, -1));
    after := Go(s, Step(0), false);
  }

  /** A job has loaded the fd of the only addressed slot, the client leaves, and its fd becomes the
      connection of a client with another appId before the job sends: that client gets the message. */
  lemma MisdirectedSend(fd: int, other: int, m: Msg) returns (before: State, after: State)
    requires fd >= 0 && other >= 0 && fd != other
    requires ValidMsg(m) && !IsChange(m) && m.dataType == 0 && m.appId == 1 && m.data == [0] && m.len == 1
    ensures Inv(before) && Reachable(before, false) && before.running == map[0 := Run(0, Begin)]
    ensures Targets(before.table, m) == [ToSlot(1, fd)]
    ensures Inv(after) && Reachable(after, false) && after.sent == [Sent(0, ToSlot(1, fd))]
    ensures fd in after.conns && after.conns[fd].appId == 2
    ensures forall i | 0 <= i < |after.table| :: after.table[i].fd == -1
  {
    before := OneJob(fd, other, m);
    var s := FoundSubscribed(before, m.(src := other));
    s := Go(s, Step(0), false);
    assert s.running[0] == Run(0, SendSlot(1, fd));
    s := FdIsReused(s, fd, 2, NoEntries(), false);
    assert FirstOf(before.table, fd, 0) == 1;
    after := Go(s, Step(0), false);
  }

  lemma TwoSlots(fd: int, msgType: nat) returns (s: State)
    requires fd >= 0 && msgType < MSG_ROUTE_MAX_MSG
    ensures Inv(s) && Reachable(s, false) && s.epoll == Idle && s.conns.Keys == {fd} && s.connected == 1
    ensures s.conns[fd].channel == [] && s.conns[fd].polled
    ensures s.table[0].fd == -1 && s.table[1].fd == fd && s.table[2].fd == fd && Subscribed(s.table, 2, msgType)
  {
    s := OneSubscriber(fd, msgType, 1, false);
    var p := ChangePacket(0, 2, msgType, true);
    s := Go(s, ClientSend(fd, p), false);
    assert s.conns[fd].channel == [p];
    var m := p.msg.(src := fd);
    assert Frame(fd, p) == Some(m) && IsChange(m);
    s := Go(s, Receive(fd), false);
    assert s.table == Change(EmptyTable()[1 := Slot(fd, NoFlags()[msgType := true])], fd, 2, msgType, true);
  }

  /** A client that sends a change with an appId not its own leaves its fd in two slots; when it
      goes, only the first is cleared, and the next connection with that fd number is subscribed
      to something it never asked for. */
  lemma InheritedSubscription(fd: int, msgType: nat) returns (s: State)
    requires fd >= 0 && msgType < MSG_ROUTE_MAX_MSG
    ensures Inv(s) && Reachable(s, false)
    ensures s.conns == map[fd := NewConn(1, 1, NoEntries(), true)]
    ensures s.table[2].fd == fd && Subscribed(s.table, 2, msgType)
  {
    s := TwoSlots(fd, msgType);
    assert FirstOf(s.table, fd, 0) == 1;
    s := FdIsReused(s, fd, 1, NoEntries(), false);
  }

  /** A process subscribes, closes its connection and makes another: its table still has the callback,
      nothing is under way, and the server will send it nothing. */
  lemma LostSubscription(fd: int, msgType: nat, rxFunc: int) returns (before: State, after: State)
    requires fd >= 0 && msgType < MSG_ROUTE_MAX_MSG
    ensures Inv(before) && Reachable(before, true) && Settled(before, fd, 1)
    ensures HasCallback(before, fd, msgType) && SubscribedAs(before, fd, 1, msgType)
    ensures Inv(after) && Reachable(after, true) && Settled(after, fd, 1)
    ensures after.conns[fd].local == before.conns[fd].local && after.conns[fd].id != before.conns[fd].id
    ensures HasCallback(after, fd, msgType) && after.table == EmptyTable()
  {
    before := OneSubscriber(fd, msgType, rxFunc, true);
    assert FirstOf(before.table, fd, 0) == 1;
    after := FdIsReused(before, fd, 1, before.conns[fd].local, true);
  }
}
