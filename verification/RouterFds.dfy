/** Fds over time: when the fd of a slot is gone by the time a job loads it, when the fd that a job
    has loaded has become another connection, and what becomes of a connection that epoll refused. */
module RouterFds {
  import opened RouteTable
  import opened RouteServer
  import opened RouteClient
  import opened Router
  import opened RouterInvariants
  import opened RouterAgreement

  // ---------------------------------------------------------------- when a slot has no client

  /** A disconnect that clears slot `i`. */
  ghost predicate Leaves(s: State, e: Event, i: nat) {
    e.EndOfFile? && FirstOf(s.table, e.fd, 0) == i
  }

  /** A subscribe or unsubscribe message for slot `i` is handled. */
  ghost predicate Takes(s: State, e: Event, i: nat) {
    && e.Receive? && e.fd in s.conns && s.conns[e.fd].channel != []
    && var m := ChangeIn(e.fd, s.conns[e.fd].channel[0]); m.Some? && m.value.appId == i
  }

  lemma SlotEmptyStep(s: State, e: Event, i: nat)
    requires Shaped(s) && Enabled(s, e) && i < MAX_APP_ID
    ensures Next(s, e).table[i].fd == -1 <==> Leaves(s, e, i) || (s.table[i].fd == -1 && !Takes(s, e, i))
  {
    if e.Receive? {
      assert ConnShaped(e.fd, s.conns[e.fd]) && PacketInRange(e.fd, s.conns[e.fd].channel[0]);
    }
  }

  /** At some moment the slot was cleared, and nobody took it afterwards. */
  ghost predicate GoneMeanwhile(tr: seq<State>, es: seq<Event>, from: nat, until: nat, i: nat)
    requires until <= |es| && |tr| == |es| + 1
  {
    exists k {:trigger es[k]} | from <= k < until :: Leaves(tr[k], es[k], i) && NotTaken(tr, es, k + 1, until, i)
  }

  ghost predicate NotTaken(tr: seq<State>, es: seq<Event>, from: nat, until: nat, i: nat)
    requires until <= |es| && |tr| == |es| + 1
  {
    forall k {:trigger es[k]} | from <= k < until :: !Takes(tr[k], es[k], i)
  }

  /** A slot that had a client has none later if and only if it was cleared and not taken again. */
  lemma {:induction false} SlotEmptyIff(tr: seq<State>, es: seq<Event>, from: nat, until: nat, i: nat)
    requires IsRun(tr, es) && from <= until <= |es| && i < MAX_APP_ID
    requires Sized(tr[from].table) && tr[from].table[i].fd != -1
    ensures Sized(tr[until].table)
    ensures tr[until].table[i].fd == -1 <==> GoneMeanwhile(tr, es, from, until, i)
    decreases until
  {
    RunInv(tr, es, until);
    if from < until {
      var k := until - 1;
      SlotEmptyIff(tr, es, from, k, i);
      RunStep(tr, es, k);
      SlotEmptyStep(tr[k], es[k], i);
      GoneStep(tr, es, from, k, i);
    }
  }

  lemma GoneStep(tr: seq<State>, es: seq<Event>, from: nat, k: nat, i: nat)
    requires from <= k < |es| && |tr| == |es| + 1
    ensures GoneMeanwhile(tr, es, from, k + 1, i) <==>
      Leaves(tr[k], es[k], i) || (GoneMeanwhile(tr, es, from, k, i) && !Takes(tr[k], es[k], i))
  {
    if Leaves(tr[k], es[k], i) {
      assert NotTaken(tr, es, k + 1, k + 1, i);
    } else {
      if GoneMeanwhile(tr, es, from, k, i) && !Takes(tr[k], es[k], i) {
        var n :| from <= n < k && Leaves(tr[n], es[n], i) && NotTaken(tr, es, n + 1, k, i);
        assert Leaves(tr[n], es[n], i) && NotTaken(tr, es, n + 1, k + 1, i);
      }
      if GoneMeanwhile(tr, es, from, k + 1, i) {
        var n :| from <= n < k + 1 && Leaves(tr[n], es[n], i) && NotTaken(tr, es, n + 1, k + 1, i);
        assert n < k && NotTaken(tr, es, n + 1, k, i) && !Takes(tr[k], es[k], i);
      }
    }
  }

  // ---------------------------------------------------------------- a worker between its steps

  ghost predicate Rests(es: seq<Event>, w: nat, from: nat, until: nat)
    requires until <= |es|
  {
    forall k | from <= k < until :: es[k] != Step(w)
  }

  lemma {:induction false} JobWaits(tr: seq<State>, es: seq<Event>, w: nat, from: nat, until: nat)
    requires IsRun(tr, es) && from <= until <= |es| && w in tr[from].running && Rests(es, w, from, until)
    ensures w in tr[until].running && tr[until].running[w] == tr[from].running[w]
    decreases until
  {
    if from < until {
      var k := until - 1;
      JobWaits(tr, es, w, from, k);
      RunStep(tr, es, k);
      if es[k].Receive? {
        assert ConnShaped(es[k].fd, tr[k].conns[es[k].fd]);
      }
    }
  }

  /** Worker `w` steps at `from` and next at `until`. */
  ghost predicate NextStep(es: seq<Event>, w: nat, from: nat, until: nat) {
    from < until < |es| && es[from] == Step(w) && es[until] == Step(w) && Rests(es, w, from + 1, until)
  }

  /** The load of the fd at `load` and the send at `at`: what is sent goes to the fd of the load. */
  lemma SendsWhatItLoaded(tr: seq<State>, es: seq<Event>, w: nat, i: nat, load: nat, at: nat)
    requires IsRun(tr, es) && NextStep(es, w, load, at) && i < MAX_APP_ID
    requires w in tr[load].running && tr[load].running[w].pc == LoadFd(i)
    ensures Sized(tr[load].table)
    ensures tr[at + 1].sent == tr[at].sent + [Sent(tr[load].running[w].job, ToSlot(i, tr[load].table[i].fd))]
  {
    RunStep(tr, es, load);
    JobWaits(tr, es, w, load + 1, at);
    RunStep(tr, es, at);
  }

  /** A job that has found slot `i` subscribed sends to nobody, to fd -1, if and only if between that
      look and its load of the fd the client left and nobody has taken the slot since. */
  lemma SendsToNobodyIff(tr: seq<State>, es: seq<Event>, w: nat, i: nat, look: nat, load: nat, at: nat)
    requires IsRun(tr, es) && NextStep(es, w, look, load) && NextStep(es, w, load, at) && i < MAX_APP_ID
    requires w in tr[look].running && tr[look].running[w].pc == LookFlag(i)
    requires w in tr[look + 1].running && tr[look + 1].running[w].pc == LoadFd(i)
    ensures tr[at + 1].sent == tr[at].sent + [Sent(tr[look].running[w].job, ToSlot(i, -1))] <==>
      GoneMeanwhile(tr, es, look, load, i)
  {
    RunStep(tr, es, look);
    assert tr[look].table[i].fd != -1;
    SlotEmptyIff(tr, es, look, load, i);
    JobWaits(tr, es, w, look + 1, load);
    SendsWhatItLoaded(tr, es, w, i, load, at);
    var job, fd := tr[look].running[w].job, tr[load].table[i].fd;
    assert (tr[at].sent + [Sent(job, ToSlot(i, fd))])[|tr[at].sent|] == Sent(job, ToSlot(i, fd));
    assert (tr[at].sent + [Sent(job, ToSlot(i, -1))])[|tr[at].sent|] == Sent(job, ToSlot(i, -1));
  }

  // ---------------------------------------------------------------- when an fd is another connection

  ghost predicate Numbered(s: State) {
    && (forall f | f in s.conns :: s.conns[f].id < s.connected)
    && (s.epoll.Closing? ==> s.epoll.fd in s.conns && s.conns[s.epoll.fd].polled)
  }

  lemma NumberedStep(s: State, e: Event)
    requires Shaped(s) && Numbered(s) && Enabled(s, e)
    ensures Numbered(Next(s, e)) && s.connected <= Next(s, e).connected
  {
    if e.Receive? {
      assert ConnShaped(e.fd, s.conns[e.fd]);
    }
  }

  lemma {:induction false} RunNumbered(tr: seq<State>, es: seq<Event>, k: nat)
    requires IsRun(tr, es) && k <= |es|
    ensures Numbered(tr[k])
  {
    if k > 0 {
      RunNumbered(tr, es, k - 1);
      RunStep(tr, es, k - 1);
      NumberedStep(tr[k - 1], es[k - 1]);
    }
  }

  ghost predicate Closes(s: State, e: Event, fd: int) {
    e == Close && s.epoll == Closing(fd)
  }

  ghost predicate ClosedMeanwhile(tr: seq<State>, es: seq<Event>, from: nat, until: nat, fd: int)
    requires until <= |es| && |tr| == |es| + 1
  {
    exists k {:trigger es[k]} | from <= k < until :: Closes(tr[k], es[k], fd)
  }

  /** `fd` is connection number `id`. */
  ghost predicate IsConn(s: State, fd: int, id: nat) {
    fd in s.conns && s.conns[fd].id == id
  }

  lemma IsConnStep(s: State, e: Event, fd: int, id: nat)
    requires Shaped(s) && Enabled(s, e) && id < s.connected
    ensures IsConn(Next(s, e), fd, id) <==> IsConn(s, fd, id) && !Closes(s, e, fd)
    ensures IsConn(s, fd, id) && !Closes(s, e, fd) ==> Next(s, e).conns[fd].appId == s.conns[fd].appId
    ensures id < Next(s, e).connected
  {
    if e.Receive? {
      assert ConnShaped(e.fd, s.conns[e.fd]);
    }
  }

  /** An fd is still the same connection if and only if it has not been closed. */
  lemma {:induction false} SameConnectionIff(tr: seq<State>, es: seq<Event>, from: nat, until: nat, fd: int)
    requires IsRun(tr, es) && from <= until <= |es| && fd in tr[from].conns
    ensures IsConn(tr[until], fd, tr[from].conns[fd].id) <==> !ClosedMeanwhile(tr, es, from, until, fd)
    ensures IsConn(tr[until], fd, tr[from].conns[fd].id) ==>
      tr[until].conns[fd].appId == tr[from].conns[fd].appId
    ensures tr[from].conns[fd].id < tr[until].connected
    decreases until
  {
    RunNumbered(tr, es, from);
    if from < until {
      var k := until - 1;
      SameConnectionIff(tr, es, from, k, fd);
      RunStep(tr, es, k);
      IsConnStep(tr[k], es[k], fd, tr[from].conns[fd].id);
    }
  }

  /** `fd` has been accepted again and not closed since. */
  ghost predicate TakenMeanwhile(tr: seq<State>, es: seq<Event>, from: nat, until: nat, fd: int)
    requires until <= |es| && |tr| == |es| + 1
  {
    exists k {:trigger es[k]} | from <= k < until ::
      es[k].Connect? && es[k].fd == fd && !ClosedMeanwhile(tr, es, k + 1, until, fd)
  }

  /** `fd` is a connection, and not number `id`. */
  ghost predicate IsOtherConn(s: State, fd: int, id: nat) {
    fd in s.conns && s.conns[fd].id != id
  }

  lemma IsOtherConnStep(s: State, e: Event, fd: int, id: nat)
    requires Shaped(s) && Enabled(s, e) && id < s.connected
    ensures IsOtherConn(Next(s, e), fd, id) <==>
      (e.Connect? && e.fd == fd) || (IsOtherConn(s, fd, id) && !Closes(s, e, fd))
  {
    if e.Receive? {
      assert ConnShaped(e.fd, s.conns[e.fd]);
    }
  }

  lemma TakenStep(tr: seq<State>, es: seq<Event>, from: nat, k: nat, fd: int)
    requires from <= k < |es| && |tr| == |es| + 1
    ensures TakenMeanwhile(tr, es, from, k + 1, fd) <==>
      (es[k].Connect? && es[k].fd == fd) ||
      (TakenMeanwhile(tr, es, from, k, fd) && !Closes(tr[k], es[k], fd))
  {
    if es[k].Connect? && es[k].fd == fd {
      assert !ClosedMeanwhile(tr, es, k + 1, k + 1, fd);
    } else {
      if TakenMeanwhile(tr, es, from, k, fd) && !Closes(tr[k], es[k], fd) {
        var n :| from <= n < k && es[n].Connect? && es[n].fd == fd && !ClosedMeanwhile(tr, es, n + 1, k, fd);
        assert es[n].Connect? && !ClosedMeanwhile(tr, es, n + 1, k + 1, fd);
      }
      if TakenMeanwhile(tr, es, from, k + 1, fd) {
        var n :| from <= n < k + 1 && es[n].Connect? && es[n].fd == fd && !ClosedMeanwhile(tr, es, n + 1, k + 1, fd);
        assert n < k && !ClosedMeanwhile(tr, es, n + 1, k, fd) && !Closes(tr[k], es[k], fd);
      }
    }
  }

  /** An fd that was a connection is another one later if and only if it was accepted again since, and
      not closed after that. */
  lemma {:induction false} OtherConnectionIff(tr: seq<State>, es: seq<Event>, from: nat, until: nat, fd: int)
    requires IsRun(tr, es) && from <= until <= |es| && fd in tr[from].conns
    ensures IsOtherConn(tr[until], fd, tr[from].conns[fd].id) <==> TakenMeanwhile(tr, es, from, until, fd)
    decreases until
  {
    if from < until {
      var k := until - 1;
      OtherConnectionIff(tr, es, from, k, fd);
      SameConnectionIff(tr, es, from, k, fd);
      RunStep(tr, es, k);
      IsOtherConnStep(tr[k], es[k], fd, tr[from].conns[fd].id);
      TakenStep(tr, es, from, k, fd);
    }
  }

  /** As long as clients keep to their appId, the fd that a job loads for slot `i` is a connection with
      that appId; when the job sends, the fd is still that connection if and only if it has not been
      closed since the load, and another one if and only if it was accepted again since. */
  lemma SendReachesClientIff(tr: seq<State>, es: seq<Event>, w: nat, i: nat, load: nat, at: nat)
    requires IsRun(tr, es) && NextStep(es, w, load, at) && i < MAX_APP_ID
    requires AppIdsKept(tr, es, load)
    requires w in tr[load].running && tr[load].running[w].pc == LoadFd(i)
    requires Sized(tr[load].table) && tr[load].table[i].fd != -1
    ensures var fd := tr[load].table[i].fd;
      && fd in tr[load].conns && tr[load].conns[fd].appId == i
      && tr[at + 1].sent == tr[at].sent + [Sent(tr[load].running[w].job, ToSlot(i, fd))]
      && (IsConn(tr[at], fd, tr[load].conns[fd].id) <==> !ClosedMeanwhile(tr, es, load, at, fd))
      && (IsConn(tr[at], fd, tr[load].conns[fd].id) ==> tr[at].conns[fd].appId == i)
      && (IsOtherConn(tr[at], fd, tr[load].conns[fd].id) <==> TakenMeanwhile(tr, es, load, at, fd))
  {
    var fd := tr[load].table[i].fd;
    RunOwned(tr, es, load);
    assert OwnerIs(tr[load], i, fd);
    SameConnectionIff(tr, es, load, at, fd);
    OtherConnectionIff(tr, es, load, at, fd);
    SendsWhatItLoaded(tr, es, w, i, load, at);
  }

  // ---------------------------------------------------------------- a connection that epoll refused

  /** The server does something with connection `fd`. */
  predicate Serves(s: State, e: Event, fd: int) {
    e == Receive(fd) || e == EndOfFile(fd) || (e == Close && s.epoll == Closing(fd))
  }

  ghost predicate InNoSlot(s: State, fd: int) {
    forall i | 0 <= i < |s.table| :: s.table[i].fd != fd
  }

  lemma StrandedStep(s: State, e: Event, fd: int)
    requires Shaped(s) && Numbered(s) && Enabled(s, e) && fd in s.conns && !s.conns[fd].polled
    ensures !Serves(s, e, fd) && IsConn(Next(s, e), fd, s.conns[fd].id) && !Next(s, e).conns[fd].polled
    ensures s.conns[fd].channel <= Next(s, e).conns[fd].channel
    ensures InNoSlot(s, fd) ==> InNoSlot(Next(s, e), fd)
  {
    if e.Receive? {
      assert ConnShaped(e.fd, s.conns[e.fd]);
    }
  }

  lemma {:induction false} StrandedAlways(tr: seq<State>, es: seq<Event>, from: nat, until: nat, fd: int)
    requires IsRun(tr, es) && from <= until <= |es| && fd in tr[from].conns && !tr[from].conns[fd].polled
    requires InNoSlot(tr[from], fd)
    ensures IsConn(tr[until], fd, tr[from].conns[fd].id) && !tr[until].conns[fd].polled
    ensures tr[from].conns[fd].channel <= tr[until].conns[fd].channel
    ensures InNoSlot(tr[until], fd)
    ensures forall k {:trigger es[k]} | from <= k < until :: !Serves(tr[k], es[k], fd)
    decreases until
  {
    if from < until {
      var k := until - 1;
      StrandedAlways(tr, es, from, k, fd);
      RunNumbered(tr, es, k);
      RunStep(tr, es, k);
      StrandedStep(tr[k], es[k], fd);
    }
  }

  /** What a stranded connection's client sends stays unread. */
  lemma StaysUnread(tr: seq<State>, es: seq<Event>, k: nat, until: nat, fd: int)
    requires IsRun(tr, es) && k < until <= |es| && es[k].ClientSend? && es[k].fd == fd
    requires fd in tr[k].conns && !tr[k].conns[fd].polled
    requires InNoSlot(tr[k], fd)
    ensures fd in tr[until].conns && es[k].p in tr[until].conns[fd].channel
  {
    RunStep(tr, es, k);
    StrandedAlways(tr, es, k, k + 1, fd);
    StrandedAlways(tr, es, k + 1, until, fd);
    var c := tr[k + 1].conns[fd].channel;
    assert c[|c| - 1] == es[k].p && tr[until].conns[fd].channel[|c| - 1] == c[|c| - 1];
  }

  /** An accepted connection that epoll refused is open, and nowhere in the table. */
  lemma RefusedAtFirst(tr: seq<State>, es: seq<Event>, at: nat, fd: int, appId: nat, local: Local)
    requires IsRun(tr, es) && at < |es| && es[at] == Connect(fd, appId, local, false)
    requires AppIdsKept(tr, es, at)
    ensures fd in tr[at + 1].conns && !tr[at + 1].conns[fd].polled
    ensures InNoSlot(tr[at + 1], fd)
  {
    RunStep(tr, es, at);
    NoInheritedSubscriptions(tr, es, at, fd);
  }

  /** When epoll refuses an accepted connection, its fd stays open for good: the server never receives
      from it, whatever the client sends stays unread, it is in no slot, and even when the client has
      left it is neither erased nor closed. */
  lemma RefusedConnectionIsStranded(tr: seq<State>, es: seq<Event>, from: nat, until: nat, fd: int, appId: nat,
                                    local: Local)
    requires IsRun(tr, es) && from < until <= |es| && es[from] == Connect(fd, appId, local, false)
    requires AppIdsKept(tr, es, from)
    ensures fd in tr[until].conns && !tr[until].conns[fd].polled
    ensures InNoSlot(tr[until], fd)
    ensures forall k {:trigger es[k]} | from < k < until :: !Serves(tr[k], es[k], fd)
    ensures forall k {:trigger es[k]} | from < k < until && es[k].ClientSend? && es[k].fd == fd ::
      es[k].p in tr[until].conns[fd].channel
  {
    RefusedAtFirst(tr, es, from, fd, appId, local);
    StrandedAlways(tr, es, from + 1, until, fd);
    forall k {:trigger es[k]} | from < k < until && es[k].ClientSend? && es[k].fd == fd
      ensures es[k].p in tr[until].conns[fd].channel
    {
      StrandedAlways(tr, es, from + 1, k, fd);
      StaysUnread(tr, es, k, until, fd);
    }
  }

  // ---------------------------------------------------------------- and one that epoll took

  /** The events `es` can happen in this order from `s` and lead to `t`. */
  ghost predicate Leads(s: State, es: seq<Event>, t: State)
    decreases |es|
  {
    if es == [] then s == t
    else Shaped(s) && Enabled(s, es[0]) && Leads(Next(s, es[0]), es[1..], t)
  }

  lemma LeadsFirst(s: State, e: Event, es: seq<Event>, t: State)
    requires Shaped(s) && Enabled(s, e) && Leads(Next(s, e), es, t)
    ensures Leads(s, [e] + es, t)
  {
    assert ([e] + es)[1..] == es;
  }

  /** A client that has hung up: the server reads what is left, erases it and closes its fd. */
  lemma {:induction false} DrainsAndCloses(s: State, fd: int, left: nat) returns (es: seq<Event>, t: State)
    requires Shaped(s) && s.epoll == Idle && fd in s.conns && s.conns[fd].polled && !s.conns[fd].isOpen
    requires left == |s.conns[fd].channel|
    ensures Leads(s, es, t) && fd !in t.conns
    decreases left
  {
    if left == 0 {
      var u := Next(s, EndOfFile(fd));
      ShapedStep(s, EndOfFile(fd));
      t := Next(u, Close);
      assert Leads(t, [], t);
      LeadsFirst(u, Close, [], t);
      LeadsFirst(s, EndOfFile(fd), [Close] + [], t);
      es := [EndOfFile(fd)] + ([Close] + []);
    } else {
      var e := Receive(fd);
      assert ConnShaped(fd, s.conns[fd]);
      ShapedStep(s, e);
      var rest;
      rest, t := DrainsAndCloses(Next(s, e), fd, left - 1);
      LeadsFirst(s, e, rest, t);
      es := [e] + rest;
    }
  }

  lemma CanBeClosed(s: State, fd: int) returns (es: seq<Event>, t: State)
    requires Shaped(s) && Numbered(s) && fd in s.conns && s.conns[fd].polled
    ensures Leads(s, es, t) && fd !in t.conns
  {
    if s.epoll.Closing? {
      var u := Next(s, Close);
      ShapedStep(s, Close);
      NumberedStep(s, Close);
      if s.epoll.fd == fd {
        es, t := [], u;
        assert Leads(u, [], u);
      } else {
        es, t := HangsUpAndCloses(u, fd);
      }
      LeadsFirst(s, Close, es, t);
      es := [Close] + es;
    } else {
      es, t := HangsUpAndCloses(s, fd);
    }
  }

  lemma HangsUpAndCloses(s: State, fd: int) returns (es: seq<Event>, t: State)
    requires Shaped(s) && s.epoll == Idle && fd in s.conns && s.conns[fd].polled
    ensures Leads(s, es, t) && fd !in t.conns
  {
    var u := Next(s, Hangup(fd));
    ShapedStep(s, Hangup(fd));
    es, t := DrainsAndCloses(u, fd, |u.conns[fd].channel|);
    LeadsFirst(s, Hangup(fd), es, t);
    es := [Hangup(fd)] + es;
  }

  lemma {:induction false} RefusedStays(s: State, es: seq<Event>, t: State, fd: int)
    requires Leads(s, es, t) && Shaped(s) && Numbered(s) && fd in s.conns && !s.conns[fd].polled
    ensures fd in t.conns
    decreases |es|
  {
    if es != [] {
      ShapedStep(s, es[0]);
      NumberedStep(s, es[0]);
      StrandedStep(s, es[0], fd);
      RefusedStays(Next(s, es[0]), es[1..], t, fd);
    }
  }

  /** Some continuation closes `fd`. */
  ghost predicate Closable(s: State, fd: int) {
    exists es, t :: Leads(s, es, t) && fd !in t.conns
  }

  lemma PolledIsClosable(s: State, fd: int)
    requires Shaped(s) && Numbered(s) && fd in s.conns && s.conns[fd].polled
    ensures Closable(s, fd)
  {
    var es, t := CanBeClosed(s, fd);
  }

  lemma ClosableIsPolled(s: State, fd: int)
    requires Shaped(s) && Numbered(s) && fd in s.conns && Closable(s, fd)
    ensures s.conns[fd].polled
  {
    var es, t :| Leads(s, es, t) && fd !in t.conns;
    if !s.conns[fd].polled {
      RefusedStays(s, es, t, fd);
    }
  }

  /** A connection that the server holds can ever be closed if and only if epoll took it. */
  lemma ClosableIff(s: State, fd: int)
    requires Shaped(s) && Numbered(s) && fd in s.conns
    ensures Closable(s, fd) <==> s.conns[fd].polled
  {
    if s.conns[fd].polled {
      PolledIsClosable(s, fd);
    } else if Closable(s, fd) {
      ClosableIsPolled(s, fd);
    }
  }

  /** And so in every run: at any moment, whether a connection that is there then can still be closed is
      whether epoll took it when it was accepted. */
  lemma ClosableInRunIff(tr: seq<State>, es: seq<Event>, at: nat, now: nat, fd: int, appId: nat, local: Local,
                         polled: bool)
    requires IsRun(tr, es) && at < now <= |es| && es[at] == Connect(fd, appId, local, polled)
    requires IsConn(tr[now], fd, tr[at].connected)
    ensures Closable(tr[now], fd) <==> polled
  {
    RunStep(tr, es, at);
    PolledStays(tr, es, at + 1, now, fd);
    RunInv(tr, es, now);
    RunNumbered(tr, es, now);
    ClosableIff(tr[now], fd);
  }

  lemma PolledStep(s: State, e: Event, fd: int)
    requires Shaped(s) && Enabled(s, e) && fd in s.conns && s.conns[fd].id < s.connected
    requires IsConn(Next(s, e), fd, s.conns[fd].id)
    ensures Next(s, e).conns[fd].polled == s.conns[fd].polled
  {
    if e.Receive? {
      assert ConnShaped(e.fd, s.conns[e.fd]);
    }
  }

  lemma {:induction false} PolledStays(tr: seq<State>, es: seq<Event>, from: nat, until: nat, fd: int)
    requires IsRun(tr, es) && from <= until <= |es| && fd in tr[from].conns
    requires IsConn(tr[until], fd, tr[from].conns[fd].id)
    ensures tr[until].conns[fd].polled == tr[from].conns[fd].polled
    decreases until
  {
    if from < until {
      var k := until - 1;
      RunNumbered(tr, es, k);
      RunStep(tr, es, k);
      SameConnectionIff(tr, es, from, k, fd);
      IsConnStep(tr[k], es[k], fd, tr[from].conns[fd].id);
      PolledStays(tr, es, from, k, fd);
      PolledStep(tr[k], es[k], fd);
    }
  }
}
