/** The routing table against its history: who owns a slot and what it is subscribed to, read off
    the accepted messages and disconnects without a table. */
module RouteHistory {
  import opened RouteTable

  datatype Event =
    | Changed(fd: int, appId: nat, msgType: nat, isAdd: bool)   // an accepted subscribe or unsubscribe
    | Gone(fd: int)                                              // MsgRouteCoreEraseClientInfo(fd)

  predicate ValidEvent(e: Event) {
    e.Changed? ==> e.fd >= 0 && e.appId < MAX_APP_ID && e.msgType < MSG_ROUTE_MAX_MSG
  }

  ghost predicate ValidHistory(h: seq<Event>) {
    forall k | 0 <= k < |h| :: ValidEvent(h[k])
  }

  function Apply(t: Table, e: Event): Table
    requires Sized(t) && ValidEvent(e)
  {
    match e
    case Changed(fd, appId, msgType, isAdd) => Change(t, fd, appId, msgType, isAdd)
    case Gone(fd) => Erase(t, fd)
  }

  ghost function Fold(h: seq<Event>): (t: Table)
    requires ValidHistory(h)
    ensures Tidy(t)
  {
    if h == [] then EmptyTable()
    else (assert ValidEvent(h[|h| - 1]); Apply(Fold(h[..|h| - 1]), h[|h| - 1]))
  }

  lemma FoldAppend(h: seq<Event>, e: Event)
    requires ValidHistory(h) && ValidEvent(e)
    ensures ValidHistory(h + [e]) && Fold(h + [e]) == Apply(Fold(h), e)
  {
    assert (h + [e])[..|h|] == h;
  }

  // ---------------------------------------------------------------- the reference reading

  /** The first sender for slot `i` in `h[from..]`, or -1. */
  ghost function FirstSender(h: seq<Event>, from: nat, i: nat): int
    decreases |h| - from
  {
    if from >= |h| then -1
    else if h[from].Changed? && h[from].appId == i then h[from].fd
    else FirstSender(h, from + 1, i)
  }

  /** The last change of flag `m` of slot `i` in `h[from..]`, or no subscription. */
  ghost function LastChange(h: seq<Event>, from: nat, i: nat, m: nat): bool {
    if |h| <= from then false
    else
      var e := h[|h| - 1];
      if e.Changed? && e.appId == i && e.msgType == m then e.isAdd else LastChange(h[..|h| - 1], from, i, m)
  }

  /** After history `h`, event `e` resets slot `i`: its owner is gone, and owns no earlier slot. */
  ghost predicate Resets(h: seq<Event>, e: Event, i: nat)
    decreases |h|, 2
  {
    e.Gone? && e.fd != -1 && Owner(h, i) == e.fd && forall j: nat | j < i :: Owner(h, j) != e.fd
  }

  /** How much of the history is up to the last reset of slot `i`. */
  ghost function LastReset(h: seq<Event>, i: nat): (n: nat)
    ensures n <= |h|
    decreases |h|, 0
  {
    if h == [] then 0
    else if Resets(h[..|h| - 1], h[|h| - 1], i) then |h|
    else LastReset(h[..|h| - 1], i)
  }

  /** The first sender since the last reset. */
  ghost function Owner(h: seq<Event>, i: nat): int
    decreases |h|, 1
  {
    FirstSender(h, LastReset(h, i), i)
  }

  /** The last change since the last reset. */
  ghost function Flag(h: seq<Event>, i: nat, m: nat): bool {
    LastChange(h, LastReset(h, i), i, m)
  }

  // ---------------------------------------------------------------- they agree

  lemma {:induction false} FirstSenderAppend(h: seq<Event>, e: Event, from: nat, i: nat)
    requires from <= |h| && ValidHistory(h)
    ensures FirstSender(h + [e], from, i) ==
      (if FirstSender(h, from, i) != -1 then FirstSender(h, from, i)
       else if e.Changed? && e.appId == i then e.fd else -1)
    decreases |h| - from
  {
    if from < |h| {
      assert ValidEvent(h[from]);
      FirstSenderAppend(h, e, from + 1, i);
    } else {
      assert FirstSender(h + [e], from + 1, i) == -1;
    }
  }

  ghost predicate Agrees(h: seq<Event>, i: nat)
    requires ValidHistory(h) && i < MAX_APP_ID
  {
    && Fold(h)[i].fd == Owner(h, i)
    && forall m: nat | m < MSG_ROUTE_MAX_MSG :: Fold(h)[i].msgFlag[m] == Flag(h, i, m)
  }

  /** Which slot a disconnect resets, in terms of the table. */
  lemma ResetsIsErase(h: seq<Event>, e: Event, i: nat)
    requires ValidHistory(h) && i < MAX_APP_ID && forall j: nat | j < MAX_APP_ID :: Agrees(h, j)
    requires e.Gone?
    ensures Resets(h, e, i) <==> e.fd != -1 && FirstOf(Fold(h), e.fd, 0) == i
  {
    var t := Fold(h);
    assert forall j: nat | j < MAX_APP_ID :: Agrees(h, j) ==> t[j].fd == Owner(h, j);
  }

  lemma ReadAfterGone(h: seq<Event>, e: Event, i: nat)
    requires ValidHistory(h) && e.Gone?
    ensures Owner(h + [e], i) == if Resets(h, e, i) then -1 else Owner(h, i)
    ensures forall m: nat :: Flag(h + [e], i, m) == (!Resets(h, e, i) && Flag(h, i, m))
  {
    var g := h + [e];
    assert g[..|h|] == h;
    assert LastReset(g, i) == if Resets(h, e, i) then |g| else LastReset(h, i);
    if Resets(h, e, i) {
      assert FirstSender(g, |g|, i) == -1;
    } else {
      FirstSenderAppend(h, e, LastReset(h, i), i);
    }
  }

  lemma ReadAfterChange(h: seq<Event>, e: Event, i: nat)
    requires ValidHistory(h) && e.Changed?
    ensures Owner(h + [e], i) == if Owner(h, i) == -1 && e.appId == i then e.fd else Owner(h, i)
    ensures forall m: nat :: Flag(h + [e], i, m) == if e.appId == i && e.msgType == m then e.isAdd else Flag(h, i, m)
  {
    var g := h + [e];
    assert g[..|h|] == h;
    assert LastReset(g, i) == LastReset(h, i);
    FirstSenderAppend(h, e, LastReset(h, i), i);
  }

  lemma AgreesAfter(h: seq<Event>, e: Event, i: nat)
    requires ValidHistory(h) && ValidEvent(e) && ValidHistory(h + [e]) && i < MAX_APP_ID
    requires forall j: nat | j < MAX_APP_ID :: Agrees(h, j)
    ensures Agrees(h + [e], i)
  {
    FoldAppend(h, e);
    assert Agrees(h, i);
    if e.Gone? {
      ResetsIsErase(h, e, i);
      ReadAfterGone(h, e, i);
      assert Fold(h + [e])[i] == if Resets(h, e, i) then NoClient() else Fold(h)[i];
    } else {
      ReadAfterChange(h, e, i);
    }
  }

  /** The table always shows, for each slot, the first sender since its last reset and, for each
      message type, the last change since then. */
  lemma {:induction false} TableIsHistory(h: seq<Event>)
    requires ValidHistory(h)
    ensures forall i: nat | i < MAX_APP_ID :: Agrees(h, i)
  {
    if h != [] {
      var rest, e := h[..|h| - 1], h[|h| - 1];
      assert h == rest + [e] && ValidEvent(e);
      TableIsHistory(rest);
      forall i: nat | i < MAX_APP_ID ensures Agrees(h, i) {
        AgreesAfter(rest, e, i);
      }
    }
  }

  // ---------------------------------------------------------------- disconnects

  ghost predicate InOneSlot(t: Table, fd: int) {
    forall i, j | 0 <= i < j < |t| && t[i].fd == fd :: t[j].fd != fd
  }

  /** A disconnect removes the fd from the table exactly when it had at most one slot: the loop
      stops at the first match. */
  lemma EraseForgetsIff(t: Table, fd: int)
    requires Sized(t) && fd != -1
    ensures (forall i | 0 <= i < |t| :: Erase(t, fd)[i].fd != fd) <==> InOneSlot(t, fd)
  {
    var k, u := FirstOf(t, fd, 0), Erase(t, fd);
    if InOneSlot(t, fd) {
      forall i | 0 <= i < |t| ensures u[i].fd != fd {
      }
    } else {
      var i, j :| 0 <= i < j < |t| && t[i].fd == fd && t[j].fd == fd;
      assert u[j].fd == fd;
    }
  }

  /** For every history: the disconnect of `fd` ends a subscription of slot `i`, whoever made it, if and
      only if `fd` is the slot's first sender since its last reset and owns no earlier slot. */
  lemma DisconnectClearsIff(h: seq<Event>, fd: int, i: nat, m: nat)
    requires ValidHistory(h) && fd != -1 && i < MAX_APP_ID && m < MSG_ROUTE_MAX_MSG && Subscribed(Fold(h), i, m)
    ensures ValidHistory(h + [Gone(fd)])
    ensures !Subscribed(Fold(h + [Gone(fd)]), i, m) <==>
      (Owner(h, i) == fd && forall j: nat | j < i :: Owner(h, j) != fd)
  {
    var t := Fold(h);
    TableIsHistory(h);
    FoldAppend(h, Gone(fd));
    forall j: nat | j < MAX_APP_ID ensures t[j].fd == Owner(h, j) {
      assert Agrees(h, j);
    }
    var k := FirstOf(t, fd, 0);
    assert !Subscribed(Erase(t, fd), i, m) <==> k == i;
    if k < i {
      assert Owner(h, k) == fd;
    } else {
      forall j: nat | j < i ensures Owner(h, j) != fd {
        assert t[j].fd == Owner(h, j);
      }
    }
  }

  /** So whenever two connections share an appId, the subscriptions of the second are in the slot of the
      first, and go with the first one's disconnect and not with the second one's. */
  lemma SecondConnectionLosesOut(h: seq<Event>, first: int, second: int, i: nat, m: nat)
    requires ValidHistory(h) && i < MAX_APP_ID && m < MSG_ROUTE_MAX_MSG
    requires first >= 0 && second >= 0 && first != second
    requires Owner(h, i) == first && forall j: nat | j < i :: Owner(h, j) != first
    ensures var g := h + [Changed(second, i, m, true)];
      && ValidHistory(g) && ValidHistory(g + [Gone(first)]) && ValidHistory(g + [Gone(second)])
      && Subscribed(Fold(g), i, m) && Fold(g)[i].fd == first
      && !Subscribed(Fold(g + [Gone(first)]), i, m) && Subscribed(Fold(g + [Gone(second)]), i, m)
  {
    var e := Changed(second, i, m, true);
    var g := h + [e];
    TableIsHistory(h);
    FoldAppend(h, e);
    assert Agrees(h, i);
    forall j: nat | j <= i ensures Owner(g, j) == Owner(h, j) {
      ReadAfterChange(h, e, j);
    }
    DisconnectClearsIff(g, first, i, m);
    DisconnectClearsIff(g, second, i, m);
  }
}
