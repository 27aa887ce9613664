/** What the table has to do with the clients: who may own a slot, and when the server's flags are
    the client's callbacks. */
module RouterAgreement {
  import opened Wrappers
  import opened RouteTable
  import opened RouteServer
  import opened RouteClient
  import opened Router
  import opened RouterInvariants
  import opened RouterDelivery

  // ---------------------------------------------------------------- one appId per connection

  /** The change that the server will see in a packet of connection `fd`. */
  function ChangeIn(fd: int, p: Packet): Option<Msg> {
    var m := Frame(fd, p);
    if m.Some? && IsChange(m.value) then m else None
  }

  predicate OwnChange(fd: int, appId: nat, p: Packet) {
    var m := ChangeIn(fd, p);
    m.Some? ==> m.value.appId == appId
  }

  /** Whatever a client sends, its changes carry its own appId. */
  ghost predicate KeepsAppId(s: State, e: Event) {
    e.ClientSend? && e.fd in s.conns ==> OwnChange(e.fd, s.conns[e.fd].appId, e.p)
  }

  /** No client has sent a change with another appId in the first `k` events. */
  ghost predicate AppIdsKept(tr: seq<State>, es: seq<Event>, k: nat)
    requires k <= |es| && |tr| == |es| + 1
  {
    forall n {:trigger es[n]} | 0 <= n < k :: KeepsAppId(tr[n], es[n])
  }

  ghost predicate Owned(s: State) {
    && (forall f | f in s.conns :: forall p | p in s.conns[f].channel :: OwnChange(f, s.conns[f].appId, p))
    && (forall i | 0 <= i < |s.table| && s.table[i].fd != -1 :: OwnerIs(s, i, s.table[i].fd))
    && (s.epoll.Closing? ==> s.epoll.fd in s.conns)
  }

  /** Connection `f` is open, is not being closed, and speaks for appId `i`. */
  ghost predicate OwnerIs(s: State, i: int, f: int) {
    f in s.conns && s.conns[f].appId == i && s.epoll != Closing(f)
  }

  lemma ChangePacketFrames(fd: int, appId: nat, msgType: nat, isAdd: bool)
    requires 0 < appId < MAX_APP_ID && msgType < MSG_ROUTE_MAX_MSG
    ensures var m := ChangeIn(fd, ChangePacket(0, appId, msgType, isAdd));
      m.Some? && m.value.appId == appId && m.value.src == fd && m.value.data == [msgType] &&
      (m.value.msgType == MSG_ROUTE_SUBSCRIBE_MSG <==> isAdd)
  {
  }

  lemma OwnedChannel(s: State, fd: int, c: Conn)
    requires Shaped(s) && Owned(s) && (fd in s.conns ==> s.conns[fd].appId == c.appId)
    requires forall p | p in c.channel :: OwnChange(fd, c.appId, p)
    ensures Owned(Put(s, fd, c))
  {
    var t := Put(s, fd, c);
    forall i | 0 <= i < |t.table| && t.table[i].fd != -1 ensures OwnerIs(t, i, t.table[i].fd) {
      assert OwnerIs(s, i, s.table[i].fd);
    }
  }

  lemma OwnedTable(s: State, t: State)
    requires Owned(s) && t.conns == s.conns && t.epoll == s.epoll
    requires forall i | 0 <= i < |t.table| && t.table[i].fd != -1 :: OwnerIs(s, i, t.table[i].fd)
    ensures Owned(t)
  {
    forall i | 0 <= i < |t.table| && t.table[i].fd != -1 ensures OwnerIs(t, i, t.table[i].fd) {
      assert OwnerIs(s, i, t.table[i].fd);
    }
  }

  lemma OwnedReceive(s: State, fd: int)
    requires Shaped(s) && Owned(s) && Enabled(s, Receive(fd))
    ensures Owned(Next(s, Receive(fd)))
  {
    var c := s.conns[fd];
    var p := c.channel[0];
    assert ConnShaped(fd, c) && PacketInRange(fd, p) && OwnChange(fd, c.appId, p);
    var s1 := Put(s, fd, c.(channel := c.channel[1..]));
    OwnedChannel(s, fd, c.(channel := c.channel[1..]));
    var m := Frame(fd, p);
    if m.Some? {
      OwnedTable(s1, Next(s, Receive(fd)));
    }
  }

  lemma OwnedEndOfFile(s: State, fd: int)
    requires Shaped(s) && Owned(s) && Enabled(s, EndOfFile(fd))
    ensures Owned(Next(s, EndOfFile(fd)))
  {
    var t := Next(s, EndOfFile(fd));
    var k := FirstOf(s.table, fd, 0);
    forall i | 0 <= i < |s.table| && s.table[i].fd == fd ensures i == k {
      assert OwnerIs(s, i, fd) && OwnerIs(s, k, s.table[k].fd);
    }
    forall i | 0 <= i < |t.table| && t.table[i].fd != -1 ensures OwnerIs(t, i, t.table[i].fd) {
      assert OwnerIs(s, i, s.table[i].fd);
    }
  }

  lemma OwnedStep(s: State, e: Event)
    requires Shaped(s) && Owned(s) && Enabled(s, e) && KeepsAppId(s, e)
    ensures Owned(Next(s, e))
  {
    match e
    case Connect(fd, appId, local, polled) =>
      var c := NewConn(s.connected, appId, local, polled);
      OwnedChannel(s, fd, c);
      OwnedTable(Put(s, fd, c), Next(s, e));
    case ClientSend(fd, p) => OwnedChannel(s, fd, SendOn(s.conns[fd], p));
    case ClientChange(fd, u) =>
      assert ConnShaped(fd, s.conns[fd]);
      ChangePacketFrames(fd, s.conns[fd].appId, u.msgType, u.rxFunc.Some?);
      OwnedChannel(s, fd, Next(s, e).conns[fd]);
    case ClientCommit(fd) => OwnedChannel(s, fd, Next(s, e).conns[fd]);
    case Hangup(fd) => OwnedChannel(s, fd, Next(s, e).conns[fd]);
    case Receive(fd) => OwnedReceive(s, fd);
    case EndOfFile(fd) => OwnedEndOfFile(s, fd);
    case Close =>
      var t := Next(s, e);
      forall i | 0 <= i < |t.table| && t.table[i].fd != -1 ensures OwnerIs(t, i, t.table[i].fd) {
        assert OwnerIs(s, i, s.table[i].fd);
      }
    case Start(w) => OwnedTable(s, Next(s, e));
    case Step(w) => OwnedTable(s, Next(s, e));
    case Elsewhere =>
  }

  lemma {:induction false} RunOwned(tr: seq<State>, es: seq<Event>, k: nat)
    requires IsRun(tr, es) && k <= |es| && AppIdsKept(tr, es, k)
    ensures Owned(tr[k])
  {
    if k > 0 {
      RunOwned(tr, es, k - 1);
      RunStep(tr, es, k - 1);
      OwnedStep(tr[k - 1], es[k - 1]);
    }
  }

  /** No inherited subscriptions: as long as every client keeps to its own appId, each fd in the
      table is an open connection in one slot, so a connection that gets a closed fd's number is
      nowhere in the table. */
  lemma NoInheritedSubscriptions(tr: seq<State>, es: seq<Event>, k: nat, fd: int)
    requires IsRun(tr, es) && k <= |es| && AppIdsKept(tr, es, k)
    ensures fd != -1 && fd !in tr[k].conns ==> forall i | 0 <= i < |tr[k].table| :: tr[k].table[i].fd != fd
    ensures forall i, j | 0 <= i < j < |tr[k].table| && tr[k].table[i].fd != -1 ::
      tr[k].table[i].fd != tr[k].table[j].fd
  {
    var s := tr[k];
    RunOwned(tr, es, k);
    forall i | 0 <= i < |s.table| && s.table[i].fd != -1
      ensures s.table[i].fd in s.conns && s.conns[s.table[i].fd].appId == i
    {
      assert OwnerIs(s, i, s.table[i].fd);
    }
  }

  // ---------------------------------------------------------------- the server's flags and the callbacks

  /** Changes are only sent by the subscribe and unsubscribe calls, and none is handled while its slot
      belongs to another connection. */
  ghost predicate Calm(s: State, e: Event) {
    && (e.ClientSend? ==> ChangeIn(e.fd, e.p) == None)
    && (e.Receive? && e.fd in s.conns && s.conns[e.fd].channel != [] && s.conns[e.fd].appId < |s.table| &&
        ChangeIn(e.fd, s.conns[e.fd].channel[0]).Some? ==>
          s.table[s.conns[e.fd].appId].fd == -1 || s.table[s.conns[e.fd].appId].fd == e.fd)
  }

  /** Where each appId has one connection, no change is handled in another connection's slot. */
  lemma OneConnectionIsCalm(s: State, e: Event)
    requires Shaped(s) && Owned(s) && Enabled(s, e) && e.Receive?
    requires forall f, g | f in s.conns && g in s.conns && f != g :: s.conns[f].appId != s.conns[g].appId
    ensures Calm(s, e)
  {
    var i := s.conns[e.fd].appId;
    assert ConnShaped(e.fd, s.conns[e.fd]);
    if s.table[i].fd != -1 {
      assert OwnerIs(s, i, s.table[i].fd);
    }
  }

  function ApplyPacket(flags: seq<bool>, fd: int, p: Packet): (after: seq<bool>)
    requires |flags| == MSG_ROUTE_MAX_MSG && PacketInRange(fd, p)
    ensures |after| == MSG_ROUTE_MAX_MSG
  {
    var m := ChangeIn(fd, p);
    if m.None? then flags else flags[m.value.data[0] := m.value.msgType == MSG_ROUTE_SUBSCRIBE_MSG]
  }

  /** The server's flags once everything in flight has arrived. */
  ghost function Replay(flags: seq<bool>, fd: int, channel: seq<Packet>): (after: seq<bool>)
    requires |flags| == MSG_ROUTE_MAX_MSG && forall p | p in channel :: PacketInRange(fd, p)
    ensures |after| == MSG_ROUTE_MAX_MSG
    decreases |channel|
  {
    if channel == [] then flags else Replay(ApplyPacket(flags, fd, channel[0]), fd, channel[1..])
  }

  lemma {:induction false} ReplayAppend(flags: seq<bool>, fd: int, channel: seq<Packet>, p: Packet)
    requires |flags| == MSG_ROUTE_MAX_MSG && PacketInRange(fd, p) && forall q | q in channel :: PacketInRange(fd, q)
    ensures forall q | q in channel + [p] :: PacketInRange(fd, q)
    ensures Replay(flags, fd, channel + [p]) == ApplyPacket(Replay(flags, fd, channel), fd, p)
    decreases |channel|
  {
    if channel == [] {
      assert channel + [p] == [p] && [p][1..] == [];
    } else {
      assert (channel + [p])[1..] == channel[1..] + [p];
      ReplayAppend(ApplyPacket(flags, fd, channel[0]), fd, channel[1..], p);
    }
  }

  /** The message types for which the client has a callback, counting an update that is under way. */
  function LocalFlags(c: Conn): seq<bool>
    requires LocalValid(c.local) && (c.pending.Some? ==> c.pending.value.msgType < MSG_ROUTE_MAX_MSG)
  {
    var flags := seq(MSG_ROUTE_MAX_MSG, k requires 0 <= k < MSG_ROUTE_MAX_MSG => c.local[k].rxFunc.Some?);
    if c.pending.Some? then flags[c.pending.value.msgType := c.pending.value.rxFunc.Some?] else flags
  }

  /** Those of them that the client has told the server on this connection. */
  function ToldFlags(c: Conn): seq<bool>
    requires LocalValid(c.local) && (c.pending.Some? ==> c.pending.value.msgType < MSG_ROUTE_MAX_MSG)
  {
    seq(MSG_ROUTE_MAX_MSG, k requires 0 <= k < MSG_ROUTE_MAX_MSG => LocalFlags(c)[k] && k !in c.stale)
  }

  /** A stale callback is there, and is not being changed. */
  ghost predicate StaleFits(c: Conn)
    requires LocalValid(c.local)
  {
    forall k | k in c.stale ::
      k < MSG_ROUTE_MAX_MSG && c.local[k].rxFunc.Some? && (c.pending.Some? ==> c.pending.value.msgType != k)
  }

  /** What the server has noted in a slot for connection `fd`. */
  function Noted(slot: Slot, fd: int): seq<bool> {
    if slot.fd == fd then slot.msgFlag else NoFlags()
  }

  ghost predicate AgreesWith(slot: Slot, fd: int, c: Conn)
    requires |slot.msgFlag| == MSG_ROUTE_MAX_MSG && LocalValid(c.local) && ConnShaped(fd, c)
  {
    StaleFits(c) && Replay(Noted(slot, fd), fd, c.channel) == ToldFlags(c)
  }

  ghost predicate Agreement(s: State)
    requires Shaped(s)
  {
    forall f | f in s.conns && s.epoll != Closing(f) :: AgreesWith(s.table[s.conns[f].appId], f, s.conns[f])
  }

  lemma AgreementConn(s: State, fd: int, c: Conn)
    requires Shaped(s) && Agreement(s) && Shaped(Put(s, fd, c)) && LocalValid(c.local) && ConnShaped(fd, c)
    requires s.epoll != Closing(fd) ==> AgreesWith(s.table[c.appId], fd, c)
    ensures Agreement(Put(s, fd, c))
  {
  }

  /** A connection's agreement after it has sent one more packet. */
  lemma AgreesAfterSend(slot: Slot, fd: int, c: Conn, p: Packet, d: Conn)
    requires |slot.msgFlag| == MSG_ROUTE_MAX_MSG && LocalValid(c.local) && ConnShaped(fd, c) && AgreesWith(slot, fd, c)
    requires LocalValid(d.local) && ConnShaped(fd, d) && d.channel == c.channel + [p] && PacketInRange(fd, p)
    requires StaleFits(d) && ToldFlags(d) == ApplyPacket(ToldFlags(c), fd, p)
    ensures AgreesWith(slot, fd, d)
  {
    ReplayAppend(Noted(slot, fd), fd, c.channel, p);
  }

  /** The send of a subscribe or unsubscribe call: what it tells the server is no longer stale. */
  lemma ToldAfterChange(fd: int, c: Conn, u: Update, d: Conn)
    requires LocalValid(c.local) && ConnShaped(fd, c) && StaleFits(c) && c.pending == None
    requires u.msgType < MSG_ROUTE_MAX_MSG && d.local == c.local && d.pending == Some(u)
    requires d.stale == c.stale - {u.msgType}
    ensures var p := ChangePacket(0, c.appId, u.msgType, u.rxFunc.Some?);
      PacketInRange(fd, p) && StaleFits(d) && ToldFlags(d) == ApplyPacket(ToldFlags(c), fd, p)
  {
    ChangePacketFrames(fd, c.appId, u.msgType, u.rxFunc.Some?);
  }

  /** Its local update changes nothing about what has been told. */
  lemma ToldAfterCommit(fd: int, c: Conn, d: Conn)
    requires LocalValid(c.local) && ConnShaped(fd, c) && StaleFits(c) && c.pending.Some?
    requires var u := c.pending.value;
      d.local == c.local[u.msgType := NewEntry(u.msgType, u.rxFunc)] && d.pending == None && d.stale == c.stale
    ensures LocalValid(d.local) && StaleFits(d) && ToldFlags(d) == ToldFlags(c)
  {
    assert LocalFlags(d) == LocalFlags(c);
  }

  /** What receiving one packet does to the table: at most the slot of the connection's own appId. */
  lemma ReceiveTable(s: State, fd: int)
    requires Shaped(s) && Owned(s) && Enabled(s, Receive(fd)) && Calm(s, Receive(fd))
    ensures var c, t := s.conns[fd], Next(s, Receive(fd));
      && ConnShaped(fd, c) && PacketInRange(fd, c.channel[0])
      && t.conns == s.conns[fd := c.(channel := c.channel[1..])] && t.epoll == s.epoll
      && |t.table| == |s.table| && (forall i | 0 <= i < |s.table| && i != c.appId :: t.table[i] == s.table[i])
      && Noted(t.table[c.appId], fd) == ApplyPacket(Noted(s.table[c.appId], fd), fd, c.channel[0])
      && (forall f | f != fd && f in s.conns :: Noted(t.table[c.appId], f) == Noted(s.table[c.appId], f))
  {
    var c := s.conns[fd];
    assert ConnShaped(fd, c) && PacketInRange(fd, c.channel[0]) && OwnChange(fd, c.appId, c.channel[0]);
  }

  lemma AgreementReceive(s: State, fd: int)
    requires Shaped(s) && Owned(s) && Agreement(s) && Enabled(s, Receive(fd)) && Shaped(Next(s, Receive(fd)))
    requires Calm(s, Receive(fd))
    ensures Agreement(Next(s, Receive(fd)))
  {
    var t := Next(s, Receive(fd));
    ReceiveTable(s, fd);
    forall f | f in t.conns && t.epoll != Closing(f) ensures AgreesWith(t.table[t.conns[f].appId], f, t.conns[f]) {
      assert AgreesWith(s.table[s.conns[f].appId], f, s.conns[f]);
    }
  }

  lemma AgreementEndOfFile(s: State, fd: int)
    requires Shaped(s) && Owned(s) && Agreement(s) && Enabled(s, EndOfFile(fd)) && Shaped(Next(s, EndOfFile(fd)))
    ensures Agreement(Next(s, EndOfFile(fd)))
  {
    var t := Next(s, EndOfFile(fd));
    forall f | f in t.conns && t.epoll != Closing(f) ensures AgreesWith(t.table[t.conns[f].appId], f, t.conns[f]) {
      assert AgreesWith(s.table[s.conns[f].appId], f, s.conns[f]);
      assert Noted(t.table[t.conns[f].appId], f) == Noted(s.table[s.conns[f].appId], f);
    }
  }

  lemma AgreementConnect(s: State, e: Event)
    requires Shaped(s) && Owned(s) && Agreement(s) && e.Connect? && Enabled(s, e)
    requires Shaped(Next(s, e))
    ensures Agreement(Next(s, e))
  {
    var fd, appId := e.fd, e.appId;
    var c := NewConn(s.connected, appId, e.local, e.polled);
    assert s.table[appId].fd == -1 || OwnerIs(s, appId, s.table[appId].fd);
    assert Noted(s.table[appId], fd) == NoFlags();
    assert ToldFlags(c) == NoFlags();
    AgreementConn(s, fd, c);
  }

  lemma AgreementClient(s: State, e: Event)
    requires Shaped(s) && Agreement(s) && Enabled(s, e) && Calm(s, e) && Shaped(Next(s, e))
    requires e.ClientSend? || e.ClientChange? || e.ClientCommit? || e.Hangup?
    ensures Agreement(Next(s, e))
  {
    var fd := e.fd;
    var c, d := s.conns[fd], Next(s, e).conns[fd];
    assert ConnShaped(fd, c) && ConnShaped(fd, d);
    if s.epoll != Closing(fd) {
      var slot := s.table[c.appId];
      assert AgreesWith(slot, fd, c);
      match e
      case ClientSend(_, p) =>
        assert ToldFlags(d) == ToldFlags(c);
        AgreesAfterSend(slot, fd, c, p, d);
      case ClientChange(_, u) =>
        ToldAfterChange(fd, c, u, d);
        AgreesAfterSend(slot, fd, c, ChangePacket(0, c.appId, u.msgType, u.rxFunc.Some?), d);
      case ClientCommit(_) => ToldAfterCommit(fd, c, d);
      case Hangup(_) => assert ToldFlags(d) == ToldFlags(c);
    }
    AgreementConn(s, fd, d);
  }

  lemma AgreementStep(s: State, e: Event)
    requires Shaped(s) && Owned(s) && Agreement(s) && Enabled(s, e) && Calm(s, e) && Shaped(Next(s, e))
    ensures Agreement(Next(s, e))
  {
    match e
    case Connect(_, _, _, _) => AgreementConnect(s, e);
    case Receive(fd) => AgreementReceive(s, fd);
    case EndOfFile(fd) => AgreementEndOfFile(s, fd);
    case Close =>
    case Start(_) =>
    case Step(_) =>
    case Elsewhere =>
    case _ => AgreementClient(s, e);
  }

  /** Nothing is under way on connection `fd`, which has appId `i`. */
  ghost predicate Settled(s: State, fd: int, i: nat) {
    && fd in s.conns && s.conns[fd].appId == i && s.epoll != Closing(fd)
    && s.conns[fd].channel == [] && s.conns[fd].pending == None
  }

  ghost predicate CalmRun(tr: seq<State>, es: seq<Event>, k: nat)
    requires IsRun(tr, es) && k <= |es|
  {
    forall n {:trigger es[n]} | 0 <= n < k :: Calm(tr[n], es[n])
  }

  lemma CalmKeepsAppId(s: State, e: Event)
    requires Calm(s, e)
    ensures KeepsAppId(s, e)
  {
  }

  lemma {:induction false} RunAgreement(tr: seq<State>, es: seq<Event>, k: nat)
    requires IsRun(tr, es) && k <= |es| && CalmRun(tr, es, k)
    ensures Shaped(tr[k]) && Owned(tr[k]) && Agreement(tr[k])
  {
    if k == 0 {
      InitShaped();
    } else {
      RunAgreement(tr, es, k - 1);
      RunStep(tr, es, k - 1);
      var s, e := tr[k - 1], es[k - 1];
      ShapedStep(s, e);
      CalmKeepsAppId(s, e);
      OwnedStep(s, e);
      AgreementStep(s, e);
    }
  }

  /** The server has the connection down for a message type. */
  predicate SubscribedAs(s: State, fd: int, i: nat, msgType: nat)
    requires Sized(s.table) && i < MAX_APP_ID && msgType < MSG_ROUTE_MAX_MSG
  {
    s.table[i].fd == fd && s.table[i].msgFlag[msgType]
  }

  /** The client has a callback for a message type. */
  predicate HasCallback(s: State, fd: int, msgType: int) {
    fd in s.conns && 0 <= msgType < |s.conns[fd].local| && s.conns[fd].local[msgType].rxFunc.Some?
  }

  /** And has set it on this connection. */
  predicate Listens(s: State, fd: int, msgType: int) {
    HasCallback(s, fd, msgType) && msgType !in s.conns[fd].stale
  }

  /** Subscription agreement: at any moment, replaying what is in flight on a connection gives the
      callbacks that its client has set on it; so with nothing in flight the server has it down for a
      type if and only if there is a callback that is not stale.  The server's flags are the client's
      callbacks if and only if none is stale. */
  lemma SubscriptionAgreement(tr: seq<State>, es: seq<Event>, n: nat, fd: int)
    requires IsRun(tr, es) && n <= |es| && CalmRun(tr, es, n)
    requires fd in tr[n].conns && tr[n].epoll != Closing(fd)
    ensures Shaped(tr[n]) && AgreesWith(tr[n].table[tr[n].conns[fd].appId], fd, tr[n].conns[fd])
    ensures Settled(tr[n], fd, tr[n].conns[fd].appId) ==>
      forall k: nat | k < MSG_ROUTE_MAX_MSG ::
        SubscribedAs(tr[n], fd, tr[n].conns[fd].appId, k) <==> Listens(tr[n], fd, k)
    ensures Settled(tr[n], fd, tr[n].conns[fd].appId) ==>
      ((forall k: nat | k < MSG_ROUTE_MAX_MSG ::
          SubscribedAs(tr[n], fd, tr[n].conns[fd].appId, k) <==> HasCallback(tr[n], fd, k))
        <==> tr[n].conns[fd].stale == {})
  {
    RunAgreement(tr, es, n);
    var s, c := tr[n], tr[n].conns[fd];
    var slot := s.table[c.appId];
    assert AgreesWith(slot, fd, c);
    if Settled(s, fd, c.appId) {
      assert Replay(Noted(slot, fd), fd, []) == Noted(slot, fd);
      forall k: nat | k < MSG_ROUTE_MAX_MSG ensures SubscribedAs(s, fd, c.appId, k) <==> Listens(s, fd, k) {
        assert Noted(slot, fd)[k] == ToldFlags(c)[k];
      }
      if c.stale != {} {
        var k :| k in c.stale;
        assert HasCallback(s, fd, k) && !SubscribedAs(s, fd, c.appId, k);
      }
    }
  }

  // ---------------------------------------------------------------- end to end

  /** How often `job` has sent to `fd`, for whatever slot or as an answer. */
  function SendsTo(sent: seq<Sent>, job: nat, fd: int): nat {
    if sent == [] then 0
    else
      var x := sent[|sent| - 1];
      SendsTo(sent[..|sent| - 1], job, fd) + (if x.job == job && x.target.fd == fd then 1 else 0)
  }

  /** When every send to `fd` is for slot `i`, the sends for the slot show how many there are. */
  lemma {:induction false} SendsToSlot(sent: seq<Sent>, job: nat, i: nat, fd: int)
    requires forall x | x in sent && x.job == job && x.target.fd == fd :: x.target.ToSlot? && x.target.slot == i
    ensures FdsSent(sent, job, i) == [] ==> SendsTo(sent, job, fd) == 0
    ensures FdsSent(sent, job, i) == [fd] ==> SendsTo(sent, job, fd) == 1
  {
    if sent != [] {
      var rest, x := sent[..|sent| - 1], sent[|sent| - 1];
      SendsToSlot(rest, job, i, fd);
      if x.job == job && x.target.ToSlot? && x.target.slot == i {
        assert FdsSent(sent, job, i) == FdsSent(rest, job, i) + [x.target.fd];
        assert FdsSent(sent, job, i)[|FdsSent(rest, job, i)|] == x.target.fd;
      } else {
        assert FdsSent(sent, job, i) == FdsSent(rest, job, i);
      }
    }
  }

  lemma {:induction false} NeverSentTo(sent: seq<Sent>, job: nat, fd: int)
    requires forall x | x in sent && x.job == job :: x.target.fd != fd
    ensures SendsTo(sent, job, fd) == 0
  {
    if sent != [] {
      NeverSentTo(sent[..|sent| - 1], job, fd);
    }
  }

  /** The job has sent to `fd`, or loaded that fd, for no slot outside `slots`. */
  ghost predicate SendsOnlyFor(s: State, job: nat, slots: set<nat>, fd: int) {
    && (forall x | x in s.sent && x.job == job && x.target.ToSlot? && x.target.fd == fd :: x.target.slot in slots)
    && (forall w | w in s.running && s.running[w].job == job && s.running[w].pc.SendSlot? &&
                   s.running[w].pc.fd == fd :: s.running[w].pc.slot in slots)
  }

  lemma SendsOnlyForStep(s: State, e: Event, job: nat, slots: set<nat>, fd: int)
    requires Shaped(s) && Owned(s) && Enabled(s, e) && fd in s.conns && SendsOnlyFor(s, job, slots, fd)
    requires s.table[s.conns[fd].appId].fd == fd ==> s.conns[fd].appId in slots
    ensures SendsOnlyFor(Next(s, e), job, slots, fd)
  {
    if e.Step? {
      var run := s.running[e.worker];
      if run.pc.LoadFd? && s.table[run.pc.slot].fd == fd {
        assert OwnerIs(s, run.pc.slot, fd);
      }
    } else if !e.Start? {
      OnlyWorkersWork(s, e);
    }
  }

  /** A settled connection has its slot or not, and does not get or lose it while it is settled. */
  lemma SlotStays(s: State, e: Event, fd: int, i: nat)
    requires Shaped(s) && Owned(s) && Enabled(s, e) && i < MAX_APP_ID
    requires Settled(s, fd, i) && Settled(Next(s, e), fd, i)
    ensures Next(s, e).table[i].fd == fd <==> s.table[i].fd == fd
  {
    if e.Receive? {
      assert ConnShaped(e.fd, s.conns[e.fd]) && PacketInRange(e.fd, s.conns[e.fd].channel[0]);
    }
  }

  ghost predicate SettledFor(tr: seq<State>, from: nat, until: nat, fd: int, i: nat)
    requires until < |tr|
  {
    forall n {:trigger Settled(tr[n], fd, i)} | from <= n <= until :: Settled(tr[n], fd, i)
  }

  lemma {:induction false} WhileSettled(tr: seq<State>, es: seq<Event>, from: nat, until: nat, job: nat, i: nat,
                                        fd: int, slots: set<nat>)
    requires IsRun(tr, es) && from <= until <= |es| && CalmRun(tr, es, until) && Started(tr[from]) <= job
    requires i < MAX_APP_ID && SettledFor(tr, from, until, fd, i) && Sized(tr[from].table)
    requires slots == if tr[from].table[i].fd == fd then {i} else {}
    ensures Sized(tr[until].table) && (tr[until].table[i].fd == fd <==> tr[from].table[i].fd == fd)
    ensures SendsOnlyFor(tr[until], job, slots, fd)
    decreases until
  {
    assert Settled(tr[until], fd, i);
    if from == until {
      RunInv(tr, es, from);
    } else {
      var k := until - 1;
      assert Settled(tr[k], fd, i);
      WhileSettled(tr, es, from, k, job, i, fd, slots);
      RunAgreement(tr, es, k);
      RunStep(tr, es, k);
      ShapedStep(tr[k], es[k]);
      SlotStays(tr[k], es[k], fd, i);
      SendsOnlyForStep(tr[k], es[k], job, slots, fd);
    }
  }

  lemma SettledServes(tr: seq<State>, es: seq<Event>, n: nat, fd: int, i: nat, m: Msg)
    requires IsRun(tr, es) && n <= |es| && CalmRun(tr, es, n) && i < MAX_APP_ID
    requires Settled(tr[n], fd, i) && ValidMsg(m) && m.data != []
    ensures Shaped(tr[n]) && (SubscribedAs(tr[n], fd, i, m.msgType) <==> Listens(tr[n], fd, m.msgType))
    ensures LocalValid(tr[n].conns[fd].local)
    ensures CalledBy(tr[n].conns[fd].local, Packet(m)) == tr[n].conns[fd].local[m.msgType].rxFunc
  {
    SubscriptionAgreement(tr, es, n, fd);
  }

  /** The client listens to a message type throughout, or at no moment. */
  ghost predicate ListensFor(tr: seq<State>, from: nat, until: nat, fd: int, msgType: int)
    requires until < |tr|
  {
    forall n {:trigger Listens(tr[n], fd, msgType)} | from <= n <= until :: Listens(tr[n], fd, msgType)
  }

  ghost predicate DeafFor(tr: seq<State>, from: nat, until: nat, fd: int, msgType: int)
    requires until < |tr|
  {
    forall n {:trigger Listens(tr[n], fd, msgType)} | from <= n <= until :: !Listens(tr[n], fd, msgType)
  }

  lemma ListeningIsSteady(tr: seq<State>, es: seq<Event>, from: nat, until: nat, fd: int, i: nat, m: Msg)
    requires IsRun(tr, es) && from <= until <= |es| && CalmRun(tr, es, until) && i < MAX_APP_ID
    requires SettledFor(tr, from, until, fd, i) && ValidMsg(m) && m.data != []
    requires ListensFor(tr, from, until, fd, m.msgType)
    ensures Steady(tr, from, until, i, m.msgType, fd)
  {
    forall n {:trigger tr[n]} | from <= n <= until
      ensures Sized(tr[n].table) && tr[n].table[i].fd == fd && Subscribed(tr[n].table, i, m.msgType)
    {
      assert Settled(tr[n], fd, i) && Listens(tr[n], fd, m.msgType);
      SettledServes(tr, es, n, fd, i, m);
    }
  }

  lemma DeafIsNever(tr: seq<State>, es: seq<Event>, from: nat, until: nat, job: nat, fd: int, i: nat, m: Msg)
    requires IsRun(tr, es) && from <= until <= |es| && CalmRun(tr, es, until) && i < MAX_APP_ID
    requires SettledFor(tr, from, until, fd, i) && ValidMsg(m) && m.data != [] && Started(tr[from]) <= job
    requires DeafFor(tr, from, until, fd, m.msgType)
    requires Sized(tr[from].table) && tr[from].table[i].fd == fd
    ensures Never(tr, from, until, i, m.msgType)
  {
    forall n {:trigger tr[n]} | from <= n <= until
      ensures Sized(tr[n].table) && !Subscribed(tr[n].table, i, m.msgType)
    {
      assert Settled(tr[n], fd, i) && !Listens(tr[n], fd, m.msgType);
      SettledServes(tr, es, n, fd, i, m);
      WhileSettled(tr, es, from, n, job, i, fd, {i});
    }
  }

  /** From a client's callback to a delivery and back: if a connection stays settled while a job that
      is not an answer runs, the job sends to its fd exactly once when it addresses the client's appId
      and the client listens throughout, and not at all when it does not address it, or the client has
      no callback or a stale one throughout.  And at each of these moments the client would hand the
      message to the callback that it has, stale or not. */
  lemma EndToEnd(tr: seq<State>, es: seq<Event>, from: nat, until: nat, job: nat, fd: int, i: nat)
    requires IsRun(tr, es) && from <= until <= |es| && CalmRun(tr, es, until) && i < MAX_APP_ID
    requires Started(tr[from]) <= job && job in tr[until].finished && SettledFor(tr, from, until, fd, i)
    ensures job < |tr[until].accepted| && ValidMsg(tr[until].accepted[job])
    ensures var m := tr[until].accepted[job]; m.dataType != MSG_ROUTE_DATA_ANSWER_TYPE ==>
      && (Addressed(m, i) && ListensFor(tr, from, until, fd, m.msgType) ==> SendsTo(tr[until].sent, job, fd) == 1)
      && (!Addressed(m, i) || DeafFor(tr, from, until, fd, m.msgType) ==> SendsTo(tr[until].sent, job, fd) == 0)
    ensures forall n | from <= n <= until ::
      && Settled(tr[n], fd, i) && LocalValid(tr[n].conns[fd].local)
      && CalledBy(tr[n].conns[fd].local, Packet(tr[until].accepted[job])) ==
           tr[n].conns[fd].local[tr[until].accepted[job].msgType].rxFunc
  {
    Delivery(tr, es, from, until, job, i);
    var m := tr[until].accepted[job];
    RunInv(tr, es, from);
    RunInv(tr, es, until);
    assert m in tr[until].accepted;
    forall n | from <= n <= until
      ensures Settled(tr[n], fd, i) && LocalValid(tr[n].conns[fd].local)
      ensures CalledBy(tr[n].conns[fd].local, Packet(m)) == tr[n].conns[fd].local[m.msgType].rxFunc
    {
      assert Settled(tr[n], fd, i);
      SettledServes(tr, es, n, fd, i, m);
    }
    AnswersGoBackToTheirSender(tr, es, until);
    if m.dataType != MSG_ROUTE_DATA_ANSWER_TYPE {
      EndToEndSends(tr, es, from, until, job, fd, i);
    }
  }

  lemma EndToEndSends(tr: seq<State>, es: seq<Event>, from: nat, until: nat, job: nat, fd: int, i: nat)
    requires IsRun(tr, es) && from <= until <= |es| && CalmRun(tr, es, until) && i < MAX_APP_ID
    requires Started(tr[from]) <= job && SettledFor(tr, from, until, fd, i)
    requires job < |tr[until].accepted|
    requires var m := tr[until].accepted[job];
      && ValidMsg(m) && m.data != [] && m.dataType != MSG_ROUTE_DATA_ANSWER_TYPE
      && Outcome(tr, from, until, job, m, i)
    requires Sized(tr[from].table) && Shaped(tr[until]) && AnswersEcho(tr[until])
    ensures var m := tr[until].accepted[job];
      && (Addressed(m, i) && ListensFor(tr, from, until, fd, m.msgType) ==> SendsTo(tr[until].sent, job, fd) == 1)
      && (!Addressed(m, i) || DeafFor(tr, from, until, fd, m.msgType) ==> SendsTo(tr[until].sent, job, fd) == 0)
  {
    var m := tr[until].accepted[job];
    var slots: set<nat> := if tr[from].table[i].fd == fd then {i} else {};
    WhileSettled(tr, es, from, until, job, i, fd, slots);
    if ListensFor(tr, from, until, fd, m.msgType) {
      ListeningIsSteady(tr, es, from, until, fd, i, m);
      assert Steady(tr, from, until, i, m.msgType, fd);
    }
    if tr[from].table[i].fd == fd {
      SendsToSlot(tr[until].sent, job, i, fd);
      if DeafFor(tr, from, until, fd, m.msgType) {
        DeafIsNever(tr, es, from, until, job, fd, i, m);
      }
    } else {
      NeverSentTo(tr[until].sent, job, fd);
    }
  }
}
