/** From a client's send to a job: which packets become jobs, and that none is lost or made up. */
module RouterAcceptance {
  import opened RouteTable
  import opened RouteServer
  import opened RouteClient
  import opened Router
  import opened RouterInvariants

  /** Receiving a packet makes it a job, under the next number and with the connection as its sender and
      origin, if and only if it qualifies. */
  lemma ReceiveAcceptsIff(s: State, fd: int)
    requires Shaped(s) && s.epoll == Idle && fd in s.conns && s.conns[fd].polled && s.conns[fd].channel != []
    ensures Enabled(s, Receive(fd))
    ensures var t, p := Next(s, Receive(fd)), s.conns[fd].channel[0];
      && (if Qualifies(p) then
            && t.accepted == s.accepted + [AcceptedAs(fd, p)] && t.origin == s.origin + [fd]
            && t.pending == s.pending + [|s.accepted|]
          else t.accepted == s.accepted && t.origin == s.origin && t.pending == s.pending)
      && t.conns == s.conns[fd := s.conns[fd].(channel := s.conns[fd].channel[1..])]
  {
    assert ConnShaped(fd, s.conns[fd]);
    HandedOnIff(fd, s.conns[fd].channel[0]);
  }

  /** Nothing else makes a job. */
  lemma OnlyReceiveAccepts(s: State, e: Event)
    requires Shaped(s) && Enabled(s, e) && !e.Receive?
    ensures Next(s, e).accepted == s.accepted && Next(s, e).origin == s.origin
  {
  }

  // ---------------------------------------------------------------- what was sent, and where it is

  /** The accepted messages that came from `fd`, in order. */
  function AcceptedFrom(accepted: seq<Msg>, origin: seq<int>, fd: int): seq<Msg>
    requires |accepted| == |origin|
  {
    if accepted == [] then []
    else
      var last := |accepted| - 1;
      AcceptedFrom(accepted[..last], origin[..last], fd) + (if origin[last] == fd then [accepted[last]] else [])
  }

  /** What qualifies among packets sent by `fd`, in order, as it will be accepted. */
  function Qualifying(fd: int, packets: seq<Packet>): seq<Msg> {
    if packets == [] then []
    else
      var last := |packets| - 1;
      Qualifying(fd, packets[..last]) + (if Qualifies(packets[last]) then [AcceptedAs(fd, packets[last])] else [])
  }

  function InFlight(s: State, fd: int): seq<Packet> {
    if fd in s.conns then s.conns[fd].channel else []
  }

  /** The messages that were sent and qualify, as far as they are still somewhere: accepted, or in flight. */
  function Sound(s: State, fd: int): seq<Msg>
    requires |s.origin| == |s.accepted|
  {
    AcceptedFrom(s.accepted, s.origin, fd) + Qualifying(fd, InFlight(s, fd))
  }

  /** What MsgRouteClientSendMsg sends on `fd` in the events from `from` up to `until`. */
  function SendsOn(es: seq<Event>, from: nat, until: nat, fd: int): seq<Packet>
    requires from <= until <= |es|
    decreases until
  {
    if from == until then []
    else
      var e := es[until - 1];
      SendsOn(es, from, until - 1, fd) + (if e.ClientSend? && e.fd == fd then [e.p] else [])
  }

  lemma QualifyingAppend(fd: int, packets: seq<Packet>, p: Packet)
    ensures Qualifying(fd, packets + [p]) ==
      Qualifying(fd, packets) + (if Qualifies(p) then [AcceptedAs(fd, p)] else [])
  {
    assert (packets + [p])[..|packets|] == packets;
  }

  lemma {:induction false} QualifyingFront(fd: int, packets: seq<Packet>)
    requires packets != []
    ensures Qualifying(fd, packets) ==
      (if Qualifies(packets[0]) then [AcceptedAs(fd, packets[0])] else []) + Qualifying(fd, packets[1..])
  {
    var last := |packets| - 1;
    if last == 0 {
      assert packets[..0] == [] && packets[1..] == [];
    } else {
      QualifyingFront(fd, packets[..last]);
      assert packets[..last][1..] == packets[1..][..last - 1];
    }
  }

  lemma AcceptedAppend(accepted: seq<Msg>, origin: seq<int>, m: Msg, f: int, fd: int)
    requires |accepted| == |origin|
    ensures AcceptedFrom(accepted + [m], origin + [f], fd) ==
      AcceptedFrom(accepted, origin, fd) + (if f == fd then [m] else [])
  {
    assert (accepted + [m])[..|accepted|] == accepted && (origin + [f])[..|origin|] == origin;
  }

  /** A connection that is being closed has nothing in flight any more. */
  ghost predicate ClosedIsEmpty(s: State) {
    && |s.origin| == |s.accepted|
    && (s.epoll.Closing? ==>
          s.epoll.fd in s.conns && s.conns[s.epoll.fd].channel == [] && !s.conns[s.epoll.fd].isOpen)
  }

  lemma ClosedIsEmptyStep(s: State, e: Event)
    requires Shaped(s) && ClosedIsEmpty(s) && Enabled(s, e)
    ensures ClosedIsEmpty(Next(s, e))
  {
    if e.Receive? {
      ReceiveAcceptsIff(s, e.fd);
      assert ConnShaped(e.fd, s.conns[e.fd]);
    }
  }

  // ---------------------------------------------------------------- one step

  lemma Regroup(a: seq<Msg>, b: seq<Msg>, c: seq<Msg>)
    ensures (a + b) + c == a + (b + c) && a + [] == a
  {
  }

  /** What is received moves from the channel to the accepted messages. */
  lemma SoundAfterReceive(s: State, f: int, fd: int)
    requires Shaped(s) && ClosedIsEmpty(s) && Enabled(s, Receive(f)) && ClosedIsEmpty(Next(s, Receive(f)))
    ensures Sound(Next(s, Receive(f)), fd) == Sound(s, fd)
  {
    var t, p := Next(s, Receive(f)), s.conns[f].channel[0];
    var now := AcceptedFrom(s.accepted, s.origin, fd);
    var more := if Qualifies(p) && f == fd then [AcceptedAs(f, p)] else [];
    ReceiveAcceptsIff(s, f);
    assert AcceptedFrom(t.accepted, t.origin, fd) == now + more by {
      if Qualifies(p) {
        AcceptedAppend(s.accepted, s.origin, AcceptedAs(f, p), f, fd);
      }
      assert now + [] == now;
    }
    Regroup(now, more, Qualifying(fd, InFlight(t, fd)));
    assert Qualifying(fd, InFlight(s, fd)) == more + Qualifying(fd, InFlight(t, fd)) by {
      if f == fd {
        QualifyingFront(fd, s.conns[f].channel);
      } else {
        assert InFlight(t, fd) == InFlight(s, fd);
        assert [] + Qualifying(fd, InFlight(s, fd)) == Qualifying(fd, InFlight(s, fd));
      }
    }
  }

  lemma SoundAfterSend(s: State, e: Event, fd: int, p: Packet)
    requires Shaped(s) && ClosedIsEmpty(s) && Enabled(s, e) && fd in s.conns
    requires e == ClientSend(fd, p) ||
      (e.ClientChange? && e.fd == fd &&
       p == ChangePacket(0, s.conns[fd].appId, e.update.msgType, e.update.rxFunc.Some?))
    ensures |Next(s, e).origin| == |Next(s, e).accepted|
    ensures Sound(Next(s, e), fd) == Sound(s, fd) + (if Qualifies(p) then [AcceptedAs(fd, p)] else [])
  {
    QualifyingAppend(fd, s.conns[fd].channel, p);
    var a, b, c := AcceptedFrom(s.accepted, s.origin, fd), Qualifying(fd, s.conns[fd].channel),
                   if Qualifies(p) then [AcceptedAs(fd, p)] else [];
    assert a + (b + c) == (a + b) + c;
  }

  /** What one event adds: a message that is sent and qualifies. */
  function Adds(e: Event, fd: int): seq<Msg> {
    if e.ClientSend? && e.fd == fd && Qualifies(e.p) then [AcceptedAs(fd, e.p)] else []
  }

  lemma SoundStep(s: State, e: Event, fd: int)
    requires Shaped(s) && ClosedIsEmpty(s) && Enabled(s, e) && ClosedIsEmpty(Next(s, e))
    ensures Sound(Next(s, e), fd) == Sound(s, fd) + Adds(e, fd)
  {
    var t := Next(s, e);
    assert Sound(s, fd) + [] == Sound(s, fd);
    match e
    case Receive(f) => SoundAfterReceive(s, f, fd);
    case ClientSend(f, p) =>
      if f == fd {
        SoundAfterSend(s, e, fd, p);
      }
    case ClientChange(f, u) =>
      if f == fd {
        SoundAfterSend(s, e, fd, ChangePacket(0, s.conns[f].appId, u.msgType, u.rxFunc.Some?));
      }
    case _ =>
      OnlyReceiveAccepts(s, e);
      assert InFlight(t, fd) == InFlight(s, fd);
  }

  // ---------------------------------------------------------------- whole runs

  lemma SendsAppend(es: seq<Event>, from: nat, n: nat, fd: int)
    requires from <= n < |es|
    ensures Qualifying(fd, SendsOn(es, from, n + 1, fd)) == Qualifying(fd, SendsOn(es, from, n, fd)) + Adds(es[n], fd)
  {
    var sends, e := SendsOn(es, from, n, fd), es[n];
    if e.ClientSend? && e.fd == fd {
      QualifyingAppend(fd, sends, e.p);
    } else {
      assert sends + [] == sends && Qualifying(fd, sends) + [] == Qualifying(fd, sends);
    }
  }

  lemma {:induction false} RunClosedIsEmpty(tr: seq<State>, es: seq<Event>, k: nat)
    requires IsRun(tr, es) && k <= |es|
    ensures ClosedIsEmpty(tr[k])
  {
    if k > 0 {
      RunClosedIsEmpty(tr, es, k - 1);
      RunStep(tr, es, k - 1);
      ClosedIsEmptyStep(tr[k - 1], es[k - 1]);
    }
  }

  lemma SoundInRun(tr: seq<State>, es: seq<Event>, n: nat, fd: int)
    requires IsRun(tr, es) && n < |es|
    ensures |tr[n].origin| == |tr[n].accepted| && |tr[n + 1].origin| == |tr[n + 1].accepted|
    ensures Sound(tr[n + 1], fd) == Sound(tr[n], fd) + Adds(es[n], fd)
  {
    RunClosedIsEmpty(tr, es, n);
    RunClosedIsEmpty(tr, es, n + 1);
    RunStep(tr, es, n);
    SoundStep(tr[n], es[n], fd);
  }

  /** `sounds[n + 1]` is `sounds[n]` and what event `n` adds. */
  ghost predicate Grows(sounds: seq<seq<Msg>>, es: seq<Event>, n: nat, fd: int)
    requires n < |es| && |sounds| == |es| + 1
  {
    sounds[n + 1] == sounds[n] + Adds(es[n], fd)
  }

  lemma OneMore(a: seq<Msg>, sent: seq<Msg>, more: seq<Msg>, before: seq<Msg>, after: seq<Msg>)
    requires before == a + sent && after == before + more
    ensures after == a + (sent + more)
  {
  }

  lemma {:induction false} AddsUp(sounds: seq<seq<Msg>>, es: seq<Event>, from: nat, k: nat, fd: int)
    requires |sounds| == |es| + 1 && from <= k <= |es|
    requires forall n | 0 <= n < |es| :: Grows(sounds, es, n, fd)
    ensures sounds[k] == sounds[from] + Qualifying(fd, SendsOn(es, from, k, fd))
    decreases k
  {
    if k == from {
      Regroup(sounds[from], [], []);
    } else {
      var n := k - 1;
      AddsUp(sounds, es, from, n, fd);
      assert Grows(sounds, es, n, fd);
      SendsAppend(es, from, n, fd);
      OneMore(sounds[from], Qualifying(fd, SendsOn(es, from, n, fd)), Adds(es[n], fd), sounds[n], sounds[k]);
    }
  }

  function SoundOrNone(s: State, fd: int): seq<Msg> {
    if |s.origin| == |s.accepted| then Sound(s, fd) else []
  }

  function Sounds(tr: seq<State>, fd: int): seq<seq<Msg>> {
    seq(|tr|, n requires 0 <= n < |tr| => SoundOrNone(tr[n], fd))
  }

  lemma SoundsGrow(tr: seq<State>, es: seq<Event>, fd: int)
    requires IsRun(tr, es)
    ensures forall n | 0 <= n < |es| :: Grows(Sounds(tr, fd), es, n, fd)
  {
    forall n | 0 <= n < |es| ensures Grows(Sounds(tr, fd), es, n, fd) {
      SoundInRun(tr, es, n, fd);
    }
  }

  lemma SoundAddsUp(tr: seq<State>, es: seq<Event>, from: nat, k: nat, fd: int)
    requires |tr| == |es| + 1 && from <= k <= |es|
    requires |tr[from].origin| == |tr[from].accepted| && |tr[k].origin| == |tr[k].accepted|
    requires forall n | 0 <= n < |es| :: Grows(Sounds(tr, fd), es, n, fd)
    ensures Sound(tr[k], fd) == Sound(tr[from], fd) + Qualifying(fd, SendsOn(es, from, k, fd))
  {
    AddsUp(Sounds(tr, fd), es, from, k, fd);
    assert Sounds(tr, fd)[k] == SoundOrNone(tr[k], fd) && Sounds(tr, fd)[from] == SoundOrNone(tr[from], fd);
  }

  lemma RunSound(tr: seq<State>, es: seq<Event>, from: nat, k: nat, fd: int)
    requires IsRun(tr, es) && from <= k <= |es|
    ensures |tr[from].origin| == |tr[from].accepted| && |tr[k].origin| == |tr[k].accepted|
    ensures Sound(tr[k], fd) == Sound(tr[from], fd) + Qualifying(fd, SendsOn(es, from, k, fd))
  {
    SoundsGrow(tr, es, fd);
    RunClosedIsEmpty(tr, es, from);
    RunClosedIsEmpty(tr, es, k);
    SoundAddsUp(tr, es, from, k, fd);
  }

  /** No message is lost on the way to the pool, and none is made up or overtakes another: between any two
      moments of any run, what was accepted from an fd, followed by the qualifying packets in its channel,
      has grown by the qualifying packets that were sent on it, in order. */
  lemma NothingLostBeforeThePool(tr: seq<State>, es: seq<Event>, from: nat, k: nat, fd: int)
    requires IsRun(tr, es) && from <= k <= |es|
    ensures |tr[from].origin| == |tr[from].accepted| && |tr[k].origin| == |tr[k].accepted|
    ensures
      AcceptedFrom(tr[k].accepted, tr[k].origin, fd) + Qualifying(fd, InFlight(tr[k], fd)) ==
      AcceptedFrom(tr[from].accepted, tr[from].origin, fd) + Qualifying(fd, InFlight(tr[from], fd)) +
        Qualifying(fd, SendsOn(es, from, k, fd))
  {
    RunSound(tr, es, from, k, fd);
  }

  /** In particular from the start. */
  lemma AcceptedIsWhatWasSent(tr: seq<State>, es: seq<Event>, k: nat, fd: int)
    requires IsRun(tr, es) && k <= |es|
    ensures |tr[k].origin| == |tr[k].accepted|
    ensures AcceptedFrom(tr[k].accepted, tr[k].origin, fd) + Qualifying(fd, InFlight(tr[k], fd)) ==
      Qualifying(fd, SendsOn(es, 0, k, fd))
  {
    RunSound(tr, es, 0, k, fd);
    assert Sound(tr[0], fd) == [];
    assert [] + Qualifying(fd, SendsOn(es, 0, k, fd)) == Qualifying(fd, SendsOn(es, 0, k, fd));
  }
}
