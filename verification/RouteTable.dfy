/** The subscription table of the message router
    (framework/msg_route/msg_route_server/msg_route_core.c). */
module RouteTable {
  import opened Wrappers

  const ALL_APP_ID := 0
  const MAX_APP_ID := 3

  const MSG_ROUTE_BASE_MSG := 0
  const MSG_ROUTE_SUBSCRIBE_MSG := 1
  const MSG_ROUTE_UNSUBSCRIBE_MSG := 2
  const MSG_ROUTE_MAX_MSG := 7

  const MSG_ROUTE_DATA_ANSWER_TYPE := 2

  type Byte = b: int | 0 <= b < 256

  /** MsgRouteDataInfo; `len` is the header field, `data` the bytes that follow the header. */
  datatype Msg = Msg(dataType: int, msgType: int, src: int, appId: int, timestamp: nat, seqNo: int, len: nat,
                     data: seq<Byte>)

  /** MsgRouteClientInfo; `fd` is -1 for a slot without a client. */
  datatype Slot = Slot(fd: int, msgFlag: seq<bool>)

  type Table = seq<Slot>

  function NoFlags(): seq<bool> {
    seq(MSG_ROUTE_MAX_MSG, _ => false)
  }

  function NoClient(): Slot {
    Slot(-1, NoFlags())
  }

  predicate Sized(t: Table) {
    |t| == MAX_APP_ID && forall i | 0 <= i < |t| :: |t[i].msgFlag| == MSG_ROUTE_MAX_MSG
  }

  /** A slot without a client has no flag set. */
  predicate Tidy(t: Table) {
    Sized(t) && forall i | 0 <= i < |t| && t[i].fd == -1 :: t[i] == NoClient()
  }

  function EmptyTable(): (t: Table)
    ensures Tidy(t)
  {
    seq(MAX_APP_ID, _ => NoClient())
  }

  predicate Subscribed(t: Table, i: nat, msgType: nat)
    requires Sized(t) && i < MAX_APP_ID && msgType < MSG_ROUTE_MAX_MSG
  {
    t[i].fd != -1 && t[i].msgFlag[msgType]
  }

  /** How many of the first `n` slots belong to `fd`. */
  function SlotsOf(t: Table, fd: int, n: nat): nat
    requires n <= |t|
  {
    if n == 0 then 0 else SlotsOf(t, fd, n - 1) + (if t[n - 1].fd == fd then 1 else 0)
  }

  // ---------------------------------------------------------------- what the operations compute

  function Change(t: Table, fd: int, appId: nat, msgType: nat, isAdd: bool): (u: Table)
    requires Sized(t) && appId < MAX_APP_ID && msgType < MSG_ROUTE_MAX_MSG
    ensures Sized(u) && (Tidy(t) && fd != -1 ==> Tidy(u))
  {
    var slot := t[appId];
    t[appId := Slot(if slot.fd == -1 then fd else slot.fd, slot.msgFlag[msgType := isAdd])]
  }

  /** The first slot from `i` on that belongs to `fd`; |t| when there is none. */
  function FirstOf(t: Table, fd: int, i: nat): (k: nat)
    requires i <= |t|
    ensures i <= k <= |t| && (k < |t| ==> t[k].fd == fd)
    ensures forall j | i <= j < k :: t[j].fd != fd
    decreases |t| - i
  {
    if i == |t| || t[i].fd == fd then i else FirstOf(t, fd, i + 1)
  }

  function Erase(t: Table, fd: int): (u: Table)
    requires Sized(t)
    ensures Sized(u) && (Tidy(t) ==> Tidy(u))
  {
    var k := FirstOf(t, fd, 0);
    if fd == -1 || k == |t| then t else t[k := NoClient()]
  }

  /** One send() of a job: to the slot's fd, or back to the sender of an answer. */
  datatype Target = ToSlot(slot: nat, fd: int) | ToSender(fd: int)

  predicate ValidMsg(m: Msg) {
    ALL_APP_ID <= m.appId < MAX_APP_ID && MSG_ROUTE_BASE_MSG <= m.msgType < MSG_ROUTE_MAX_MSG
  }

  function TargetIn(t: Table, i: nat, msgType: nat): seq<Target>
    requires Sized(t) && i < MAX_APP_ID && msgType < MSG_ROUTE_MAX_MSG
  {
    if Subscribed(t, i, msgType) then [ToSlot(i, t[i].fd)] else []
  }

  function TargetsFrom(t: Table, i: nat, msgType: nat): seq<Target>
    requires Sized(t) && i <= MAX_APP_ID && msgType < MSG_ROUTE_MAX_MSG
    decreases MAX_APP_ID - i
  {
    if i == MAX_APP_ID then [] else TargetIn(t, i, msgType) + TargetsFrom(t, i + 1, msgType)
  }

  /** To whom `m` goes when the table stays as it is. */
  function Targets(t: Table, m: Msg): seq<Target>
    requires Sized(t) && ValidMsg(m)
  {
    if m.dataType == MSG_ROUTE_DATA_ANSWER_TYPE then [ToSender(m.src)]
    else if m.appId != ALL_APP_ID then TargetIn(t, m.appId, m.msgType)
    else TargetsFrom(t, 0, m.msgType)
  }

  // ---------------------------------------------------------------- and what that means

  /** The job sends to slots, and slot `i` is one of them. */
  predicate Addressed(m: Msg, i: nat) {
    m.dataType != MSG_ROUTE_DATA_ANSWER_TYPE && i < MAX_APP_ID && (m.appId == ALL_APP_ID || m.appId == i)
  }

  predicate Wants(t: Table, m: Msg, i: nat)
    requires Sized(t) && ValidMsg(m)
  {
    Addressed(m, i) && Subscribed(t, i, m.msgType)
  }

  /** `sent` goes once to each slot from `from` on that is addressed and subscribed, to its fd, in the
      order of the slots, and to nobody else. */
  ghost predicate DeliversFrom(t: Table, m: Msg, from: nat, sent: seq<Target>)
    requires Sized(t) && ValidMsg(m)
  {
    && (forall k | 0 <= k < |sent| ::
          sent[k].ToSlot? && from <= sent[k].slot && Wants(t, m, sent[k].slot) && sent[k].fd == t[sent[k].slot].fd)
    && (forall j, k | 0 <= j < k < |sent| :: sent[j].slot < sent[k].slot)
    && (forall i | from <= i < MAX_APP_ID :: Covered(t, m, i, sent))
  }

  predicate Covered(t: Table, m: Msg, i: nat, sent: seq<Target>)
    requires Sized(t) && ValidMsg(m)
  {
    Wants(t, m, i) ==> ToSlot(i, t[i].fd) in sent
  }

  /** What a message is meant to lead to: an answer goes back, and anything else goes once to each
      slot that is addressed and subscribed. */
  ghost predicate Delivers(t: Table, m: Msg, sent: seq<Target>)
    requires Sized(t) && ValidMsg(m)
  {
    if m.dataType == MSG_ROUTE_DATA_ANSWER_TYPE then sent == [ToSender(m.src)] else DeliversFrom(t, m, 0, sent)
  }

  lemma OneMoreSlot(t: Table, m: Msg, i: nat, rest: seq<Target>)
    requires Sized(t) && ValidMsg(m) && i < MAX_APP_ID && DeliversFrom(t, m, i + 1, rest)
    ensures Wants(t, m, i) ==> DeliversFrom(t, m, i, [ToSlot(i, t[i].fd)] + rest)
    ensures !Wants(t, m, i) ==> DeliversFrom(t, m, i, rest)
  {
    var sent := [ToSlot(i, t[i].fd)] + rest;
    forall k | i <= k < MAX_APP_ID ensures Covered(t, m, k, sent) {
      assert k > i ==> Covered(t, m, k, rest);
    }
  }

  lemma {:induction false} TargetsFromDeliver(t: Table, m: Msg, i: nat)
    requires Sized(t) && ValidMsg(m) && i <= MAX_APP_ID
    requires m.dataType != MSG_ROUTE_DATA_ANSWER_TYPE && m.appId == ALL_APP_ID
    ensures DeliversFrom(t, m, i, TargetsFrom(t, i, m.msgType))
    decreases MAX_APP_ID - i
  {
    if i < MAX_APP_ID {
      TargetsFromDeliver(t, m, i + 1);
      var rest := TargetsFrom(t, i + 1, m.msgType);
      OneMoreSlot(t, m, i, rest);
      assert [] + rest == rest;
    }
  }

  /** Targets does what the message is meant to do. */
  lemma TargetsDeliver(t: Table, m: Msg)
    requires Sized(t) && ValidMsg(m)
    ensures Delivers(t, m, Targets(t, m))
  {
    if m.dataType != MSG_ROUTE_DATA_ANSWER_TYPE && m.appId == ALL_APP_ID {
      TargetsFromDeliver(t, m, 0);
    }
  }

  lemma FirstDelivered(t: Table, m: Msg, i: nat, sent: seq<Target>)
    requires Sized(t) && ValidMsg(m) && i < MAX_APP_ID && DeliversFrom(t, m, i, sent)
    ensures Wants(t, m, i) ==>
      sent != [] && sent[0] == ToSlot(i, t[i].fd) && DeliversFrom(t, m, i + 1, sent[1..])
    ensures !Wants(t, m, i) ==> DeliversFrom(t, m, i + 1, sent)
  {
    assert Covered(t, m, i, sent);
    if Wants(t, m, i) {
      var k :| 0 <= k < |sent| && sent[k] == ToSlot(i, t[i].fd);
      forall j | 0 < j < |sent| ensures i < sent[j].slot {
        assert sent[0].slot < sent[j].slot;
      }
      assert k == 0;
      var rest := sent[1..];
      forall j | i + 1 <= j < MAX_APP_ID ensures Covered(t, m, j, rest) {
        assert Covered(t, m, j, sent) && sent == [sent[0]] + rest;
      }
    }
  }

  lemma NothingDelivered(t: Table, m: Msg, sent: seq<Target>)
    requires Sized(t) && ValidMsg(m) && DeliversFrom(t, m, MAX_APP_ID, sent)
    ensures sent == []
  {
    assert sent != [] ==> Addressed(m, sent[0].slot);
  }

  /** And is the only way to do it. */
  lemma {:induction false} DeliveryIsUnique(t: Table, m: Msg, i: nat, a: seq<Target>, b: seq<Target>)
    requires Sized(t) && ValidMsg(m) && i <= MAX_APP_ID
    requires DeliversFrom(t, m, i, a) && DeliversFrom(t, m, i, b)
    ensures a == b
    decreases MAX_APP_ID - i
  {
    if i < MAX_APP_ID {
      FirstDelivered(t, m, i, a);
      FirstDelivered(t, m, i, b);
      if Wants(t, m, i) {
        DeliveryIsUnique(t, m, i + 1, a[1..], b[1..]);
        assert a == [a[0]] + a[1..] && b == [b[0]] + b[1..];
      } else {
        DeliveryIsUnique(t, m, i + 1, a, b);
      }
    } else {
      NothingDelivered(t, m, a);
      NothingDelivered(t, m, b);
    }
  }

  /** So a sequence of sends does what the message is meant to do if and only if it is Targets. */
  lemma DeliversIff(t: Table, m: Msg, sent: seq<Target>)
    requires Sized(t) && ValidMsg(m)
    ensures Delivers(t, m, sent) <==> sent == Targets(t, m)
  {
    TargetsDeliver(t, m);
    if Delivers(t, m, sent) && m.dataType != MSG_ROUTE_DATA_ANSWER_TYPE {
      DeliveryIsUnique(t, m, 0, sent, Targets(t, m));
    }
  }

  /** A broadcast has dealt with the slots before `i`. */
  ghost predicate SentSoFar(t: Table, m: Msg, i: nat, sent: seq<Target>)
    requires Sized(t) && ValidMsg(m) && i <= MAX_APP_ID
  {
    sent + TargetsFrom(t, i, m.msgType) == Targets(t, m)
  }

  lemma OneMoreTarget(t: Table, m: Msg, i: nat, sent: seq<Target>)
    requires Sized(t) && ValidMsg(m) && i < MAX_APP_ID && SentSoFar(t, m, i, sent)
    ensures SentSoFar(t, m, i + 1,
      if Subscribed(t, i, m.msgType) then sent + [ToSlot(i, t[i].fd)] else sent)
  {
    assert sent + TargetsFrom(t, i, m.msgType) ==
           (sent + TargetIn(t, i, m.msgType)) + TargetsFrom(t, i + 1, m.msgType);
    assert sent + [] == sent;
  }

  // ---------------------------------------------------------------- the table in place

  class ClientTable {
    const clientInfo: array<Slot>

    ghost predicate Valid()
      reads this, clientInfo
    {
      Sized(clientInfo[..])
    }

    /** MsgRouteClientInfoInit. */
    constructor ()
      ensures Valid() && fresh(clientInfo) && clientInfo[..] == EmptyTable()
    {
      clientInfo := new Slot[MAX_APP_ID](_ => Slot(0, []));
      new;
      var i := 0;
      while i < MAX_APP_ID
        invariant 0 <= i <= MAX_APP_ID
        invariant forall k | 0 <= k < i :: clientInfo[k] == NoClient()
      {
        clientInfo[i] := NoClient();
        i := i + 1;
      }
    }

    /** MsgRouteClientInfoDeinit; `closed` are the fds it closes, once for each of their slots. */
    method Deinit() returns (closed: seq<int>)
      requires Valid()
      modifies clientInfo
      ensures Valid() && clientInfo[..] == EmptyTable()
      ensures forall fd :: multiset(closed)[fd] == if fd == -1 then 0 else SlotsOf(old(clientInfo[..]), fd, MAX_APP_ID)
    {
      closed := [];
      var i := 0;
      while i < MAX_APP_ID
        invariant 0 <= i <= MAX_APP_ID
        invariant forall k | 0 <= k < i :: clientInfo[k] == NoClient()
        invariant forall k | i <= k < MAX_APP_ID :: clientInfo[k] == old(clientInfo[k])
        invariant forall fd :: multiset(closed)[fd] == if fd == -1 then 0 else SlotsOf(old(clientInfo[..]), fd, i)
      {
        if clientInfo[i].fd != -1 {
          closed := closed + [clientInfo[i].fd];
        }
        clientInfo[i] := NoClient();
        i := i + 1;
      }
    }

    /** MsgRouteCoreUpdateClientSubscribeInfo.  `inRange` is whether the flag is one of the slot's:
        line 84 takes any byte as the index, and a store outside the flags has no meaning in C. */
    method UpdateClientSubscribeInfo(m: Msg, isAdd: bool) returns (inRange: bool)
      requires Valid() && 0 <= m.appId < MAX_APP_ID && m.data != []
      modifies clientInfo
      ensures Valid() && (inRange <==> m.data[0] < MSG_ROUTE_MAX_MSG)
      ensures inRange ==> clientInfo[..] == Change(old(clientInfo[..]), m.src, m.appId, m.data[0], isAdd)
    {
      var slot := clientInfo[m.appId];
      if slot.fd == -1 {
        slot := slot.(fd := m.src);
      }
      inRange := m.data[0] < MSG_ROUTE_MAX_MSG;
      if inRange {
        slot := slot.(msgFlag := slot.msgFlag[m.data[0] := isAdd]);
      }
      clientInfo[m.appId] := slot;
    }

    /** MsgRouteCoreEraseClientInfo. */
    method EraseClientInfo(fd: int)
      requires Valid()
      modifies clientInfo
      ensures Valid() && clientInfo[..] == Erase(old(clientInfo[..]), fd)
    {
      if fd == -1 {
        return;
      }
      var i := 0;
      while i < MAX_APP_ID
        invariant 0 <= i <= MAX_APP_ID && clientInfo[..] == old(clientInfo[..])
        invariant FirstOf(clientInfo[..], fd, 0) == FirstOf(clientInfo[..], fd, i)
      {
        if clientInfo[i].fd == fd {
          clientInfo[i] := NoClient();
          break;
        }
        i := i + 1;
      }
    }

    /** MsgRouteCoreJobFunc when nothing else touches the table; `sent` are its sends in order. */
    method JobFunc(m: Msg) returns (sent: seq<Target>)
      requires Valid() && ValidMsg(m)
      ensures sent == Targets(clientInfo[..], m) && Delivers(clientInfo[..], m, sent)
    {
      ghost var t := clientInfo[..];
      sent := [];
      if m.dataType == MSG_ROUTE_DATA_ANSWER_TYPE {
        sent := [ToSender(m.src)];
      } else if m.appId != ALL_APP_ID {
        if clientInfo[m.appId].fd != -1 && clientInfo[m.appId].msgFlag[m.msgType] {
          sent := [ToSlot(m.appId, clientInfo[m.appId].fd)];
        }
      } else {
        var i := 0;
        assert [] + Targets(t, m) == Targets(t, m);
        while i < MAX_APP_ID
          invariant 0 <= i <= MAX_APP_ID
          invariant SentSoFar(t, m, i, sent)
        {
          OneMoreTarget(t, m, i, sent);
          assert clientInfo[i] == t[i];
          if clientInfo[i].fd != -1 && clientInfo[i].msgFlag[m.msgType] {
            sent := sent + [ToSlot(i, clientInfo[i].fd)];
          }
          i := i + 1;
        }
        assert sent + [] == sent;
      }
      assert t == clientInfo[..];
      DeliversIff(t, m, sent);
    }

    /** MsgRouteCoreHandleMsg; `job` is what it hands to the thread pool. */
    method HandleMsg(m: Msg) returns (job: Option<Msg>, inRange: bool)
      requires Valid() && m.data != []
      modifies clientInfo
      ensures Valid() && (inRange <==> ChangeInRange(m))
      ensures inRange ==> clientInfo[..] == HandledTable(old(clientInfo[..]), m)
      ensures job == HandledJob(m)
      ensures job == if 0 <= m.appId < 3 && 0 <= m.msgType < 7 && m.msgType != 1 && m.msgType != 2 then Some(m)
                     else None
    {
      job, inRange := None, true;
      if !ValidMsg(m) {
        return;
      }
      if m.msgType == MSG_ROUTE_SUBSCRIBE_MSG {
        inRange := UpdateClientSubscribeInfo(m, true);
      } else if m.msgType == MSG_ROUTE_UNSUBSCRIBE_MSG {
        inRange := UpdateClientSubscribeInfo(m, false);
      } else {
        job := Some(m);
      }
    }
  }

  predicate IsChange(m: Msg) {
    ValidMsg(m) && (m.msgType == MSG_ROUTE_SUBSCRIBE_MSG || m.msgType == MSG_ROUTE_UNSUBSCRIBE_MSG)
  }

  /** The server stores `data[0]` as an index without looking at it.  The subscribe and unsubscribe calls
      of the client library only send such values; MsgRouteClientSendMsg sends what it is given. */
  predicate ChangeInRange(m: Msg) {
    IsChange(m) ==> m.data != [] && m.data[0] < MSG_ROUTE_MAX_MSG
  }

  function HandledTable(t: Table, m: Msg): (u: Table)
    requires Sized(t) && ChangeInRange(m)
    ensures Sized(u)
  {
    if IsChange(m) then Change(t, m.src, m.appId, m.data[0], m.msgType == MSG_ROUTE_SUBSCRIBE_MSG) else t
  }

  function HandledJob(m: Msg): Option<Msg> {
    if ValidMsg(m) && !IsChange(m) then Some(m) else None
  }
}
