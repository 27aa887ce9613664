/** The client library of the message router
    (framework/msg_route/msg_route_client/msg_route_client.c). */
module RouteClient {
  import opened Wrappers
  import opened RouteTable
  import opened RouteServer

  /** MsgRouteClientSubscribeInfo; callbacks are numbers, None is NULL. */
  datatype Entry = Entry(msgType: int, rxFunc: Option<int>)

  type Local = seq<Entry>

  /** The zero-initialised g_subscribeInfo. */
  function NoEntries(): Local {
    seq(MSG_ROUTE_MAX_MSG, _ => Entry(MSG_ROUTE_BASE_MSG, None))
  }

  /** A callback is stored at its own message type. */
  predicate LocalValid(local: Local) {
    |local| == MSG_ROUTE_MAX_MSG && forall k | 0 <= k < |local| && local[k].rxFunc.Some? :: local[k].msgType == k
  }

  /** The packet of a subscribe or unsubscribe call. */
  function ChangePacket(src: int, appId: int, msgType: nat, isAdd: bool): Packet
    requires msgType < MSG_ROUTE_MAX_MSG
  {
    Packet(Msg(0, if isAdd then MSG_ROUTE_SUBSCRIBE_MSG else MSG_ROUTE_UNSUBSCRIBE_MSG, src, appId, 0, 0, 1, [msgType]))
  }

  /** What the entry for a message type becomes. */
  function NewEntry(msgType: nat, rxFunc: Option<int>): Entry {
    if rxFunc.Some? then Entry(msgType, rxFunc) else Entry(MSG_ROUTE_BASE_MSG, None)
  }

  /** The callback that a received message leads to. */
  function Dispatched(local: Local, m: Msg): Option<int>
    requires |local| == MSG_ROUTE_MAX_MSG
  {
    if MSG_ROUTE_BASE_MSG <= m.msgType < MSG_ROUTE_MAX_MSG && local[m.msgType].msgType == m.msgType
    then local[m.msgType].rxFunc else None
  }

  /** The callback that receiving a packet leads to: there must be data behind the header. */
  function CalledBy(local: Local, p: Packet): Option<int>
    requires |local| == MSG_ROUTE_MAX_MSG
  {
    if p.Runt? || p.msg.data == [] then None else Dispatched(local, p.msg)
  }

  class Client {
    const subscribeInfo: array<Entry>
    var fd: int
    var curAppId: int
    var isInit: bool
    var isRunning: bool

    ghost predicate Valid()
      reads this, subscribeInfo
    {
      LocalValid(subscribeInfo[..])
    }

    /** The library's variables at the start of the process. */
    constructor ()
      ensures Valid() && subscribeInfo[..] == NoEntries() && fresh(subscribeInfo)
      ensures fd == -1 && curAppId == ALL_APP_ID && !isInit && !isRunning
    {
      subscribeInfo := new Entry[MSG_ROUTE_MAX_MSG](_ => Entry(MSG_ROUTE_BASE_MSG, None));
      fd, curAppId, isInit, isRunning := -1, ALL_APP_ID, false, false;
    }

    /** MsgRouteClientInit; `newFd` is the connected socket or -1, `threadResult` what pthread_create
        returns.  The table of callbacks is not touched; and since `isInit` is never set, a further call
        makes a further connection. */
    method Init(appId: int, newFd: int, threadResult: int) returns (ret: int)
      requires Valid()
      modifies this`fd, this`curAppId, this`isRunning
      ensures Valid() && subscribeInfo[..] == old(subscribeInfo[..])
      ensures ret == 0 <==> ALL_APP_ID < appId < MAX_APP_ID && (isInit || (newFd != -1 && threadResult == 0))
      ensures ret == 0 && !isInit ==> fd == newFd && curAppId == appId && isRunning
      ensures ret != 0 || isInit ==> curAppId == old(curAppId)
      ensures fd == if ALL_APP_ID < appId < MAX_APP_ID && !isInit && newFd != -1 then newFd else old(fd)
    {
      if appId <= ALL_APP_ID || appId >= MAX_APP_ID {
        return -1;
      }
      if isInit {
        return 0;
      }
      if newFd == -1 {
        return -1;
      }
      fd := newFd;
      isRunning := true;
      ret := threadResult;
      if ret == 0 {
        curAppId := appId;
      }
    }

    /** MsgRouteClientDeinit: the connection is closed, and the table of callbacks stays. */
    method Deinit()
      requires Valid()
      modifies this`fd, this`curAppId, this`isInit, this`isRunning
      ensures Valid() && subscribeInfo[..] == old(subscribeInfo[..])
      ensures fd == -1 && curAppId == ALL_APP_ID && !isInit && !isRunning
    {
      isRunning := false;
      fd := -1;
      isInit := false;
      curAppId := ALL_APP_ID;
    }

    /** MsgRouteClientSendMsg: any message goes out, whatever its type and data; its `data` are the `len`
        bytes behind the header. */
    method SendMsg(sendData: Option<Msg>, isBroadcast: bool, sendOk: bool) returns (ret: int, sent: Option<Packet>)
      requires Valid() && (sendData.Some? ==> |sendData.value.data| == sendData.value.len)
      ensures ret == if sendData.Some? && sendOk then 0 else -1
      ensures sent.Some? <==> ret == 0
      ensures sent.Some? ==> var m := sendData.value; sent.value == Packet(m.(src := fd, timestamp := 0, seqNo := 0,
                                                             appId := if isBroadcast then ALL_APP_ID else m.appId))
      ensures sent.Some? && sent.value.msg.data != [] && |sent.value.msg.data| <= MSG_ROUTE_DATA_SIZE ==>
        forall clientFd :: Frame(clientFd, sent.value) == Some(sent.value.msg.(src := clientFd))
    {
      if sendData.None? {
        return -1, None;
      }
      var m := sendData.value;
      if isBroadcast {
        m := m.(appId := ALL_APP_ID);
      }
      if !sendOk {
        return -1, None;
      }
      return 0, Some(Packet(m.(src := fd, timestamp := 0, seqNo := 0)));
    }

    /** MsgRouteClientSubscribeMsg; `sendOk` is whether send succeeds, `sent` what it sent. */
    method SubscribeMsg(info: Option<Entry>, sendOk: bool) returns (ret: int, sent: Option<Packet>)
      requires Valid()
      modifies subscribeInfo
      ensures Valid()
      ensures ret == 0 <==> info.Some? && MSG_ROUTE_BASE_MSG <= info.value.msgType < MSG_ROUTE_MAX_MSG
                            && info.value.rxFunc.Some? && sendOk
      ensures ret != 0 ==> ret == -1 && sent == None && subscribeInfo[..] == old(subscribeInfo[..])
      ensures ret == 0 ==> sent == Some(ChangePacket(fd, curAppId, info.value.msgType, true))
      ensures ret == 0 ==> var k: nat := info.value.msgType;
        && subscribeInfo[..] == old(subscribeInfo[..])[k := NewEntry(k, info.value.rxFunc)]
        && subscribeInfo[k] == Entry(k, info.value.rxFunc)
    {
      if info.None? {
        return -1, None;
      }
      var msgType := info.value.msgType;
      if msgType < MSG_ROUTE_BASE_MSG || msgType >= MSG_ROUTE_MAX_MSG {
        return -1, None;
      }
      if info.value.rxFunc.None? {
        return -1, None;
      }
      if !sendOk {
        return -1, None;
      }
      sent := Some(ChangePacket(fd, curAppId, msgType, true));
      subscribeInfo[msgType] := Entry(msgType, info.value.rxFunc);
      ret := 0;
    }

    /** MsgRouteClientUnsubscribeMsg. */
    method UnsubscribeMsg(info: Option<Entry>, sendOk: bool) returns (ret: int, sent: Option<Packet>)
      requires Valid()
      modifies subscribeInfo
      ensures Valid()
      ensures ret == 0 <==> info.Some? && MSG_ROUTE_BASE_MSG <= info.value.msgType < MSG_ROUTE_MAX_MSG && sendOk
      ensures ret != 0 ==> ret == -1 && sent == None && subscribeInfo[..] == old(subscribeInfo[..])
      ensures ret == 0 ==> sent == Some(ChangePacket(fd, curAppId, info.value.msgType, false))
      ensures ret == 0 ==> var k: nat := info.value.msgType;
        && subscribeInfo[..] == old(subscribeInfo[..])[k := NewEntry(k, None)]
        && subscribeInfo[k] == Entry(MSG_ROUTE_BASE_MSG, None)
    {
      if info.None? {
        return -1, None;
      }
      var msgType := info.value.msgType;
      if msgType < MSG_ROUTE_BASE_MSG || msgType >= MSG_ROUTE_MAX_MSG {
        return -1, None;
      }
      if !sendOk {
        return -1, None;
      }
      sent := Some(ChangePacket(fd, curAppId, msgType, false));
      subscribeInfo[msgType] := Entry(MSG_ROUTE_BASE_MSG, None);
      ret := 0;
    }

    /** One round of MsgRouteClientRxThread with a packet: the callback it calls, if any. */
    method Dispatch(p: Packet) returns (called: Option<int>)
      requires Valid()
      ensures called == CalledBy(subscribeInfo[..], p)
      ensures called.Some? <==> p.Packet? && p.msg.data != [] && 0 <= p.msg.msgType < MSG_ROUTE_MAX_MSG
                                && subscribeInfo[p.msg.msgType].rxFunc.Some?
    {
      called := None;
      if p.Runt? || p.msg.data == [] {
        return;
      }
      var msgType := p.msg.msgType;
      if msgType < MSG_ROUTE_BASE_MSG || msgType >= MSG_ROUTE_MAX_MSG {
        return;
      }
      var entry := subscribeInfo[msgType];
      if entry.rxFunc.Some? && entry.msgType == msgType {
        called := entry.rxFunc;
      }
    }
  }
}
