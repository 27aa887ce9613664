/** What the router's epoll thread does with a connection
    (framework/msg_route/msg_route_server/msg_route_server.c). */
module RouteServer {
  import opened Wrappers
  import opened RouteTable

  const MSG_ROUTE_HEAD_SIZE := 32
  const MSG_ROUTE_DATA_SIZE := 4096

  type RuntSize = n: nat | 0 < n < MSG_ROUTE_HEAD_SIZE witness 1

  /** One packet as sent: too short for a header, or a header and the data bytes behind it.  There are no
      packets without any byte: recv reports such a packet as the end of the connection. */
  datatype Packet = Runt(size: RuntSize) | Packet(msg: Msg)

  /** The result of recv on a connection. */
  datatype Recv = Failed | Closed | Bytes(packet: Packet)

  /** What the receive buffer holds of the data: a longer packet is cut off. */
  function Received(data: seq<Byte>): seq<Byte> {
    if |data| <= MSG_ROUTE_DATA_SIZE then data else data[..MSG_ROUTE_DATA_SIZE]
  }

  /** The message the server goes on with: there must be data, the header's length must match what
      arrived, and the sender is the connection, whatever the packet says. */
  function Frame(clientFd: int, p: Packet): (m: Option<Msg>)
    ensures m.Some? ==> m.value.src == clientFd && m.value.data != [] && |m.value.data| == m.value.len
  {
    if p.Runt? || p.msg.data == [] || |Received(p.msg.data)| != p.msg.len then None
    else Some(p.msg.(src := clientFd, data := Received(p.msg.data)))
  }

  predicate PacketInRange(clientFd: int, p: Packet) {
    var m := Frame(clientFd, p);
    m.Some? ==> ChangeInRange(m.value)
  }

  /** The packet of a subscribe or unsubscribe message whose data is one byte: a client can send any. */
  function ChangeOf(appId: int, b: Byte, isAdd: bool): Packet {
    Packet(Msg(0, if isAdd then MSG_ROUTE_SUBSCRIBE_MSG else MSG_ROUTE_UNSUBSCRIBE_MSG, 0, appId, 0, 0, 1, [b]))
  }

  /** The server is meant to see it if and only if there is such a flag. */
  lemma ChangeInRangeIff(clientFd: int, appId: int, b: Byte, isAdd: bool)
    requires ALL_APP_ID <= appId < MAX_APP_ID
    ensures PacketInRange(clientFd, ChangeOf(appId, b, isAdd)) <==> b < MSG_ROUTE_MAX_MSG
  {
    var m := ChangeOf(appId, b, isAdd).msg.(src := clientFd);
    assert Frame(clientFd, ChangeOf(appId, b, isAdd)) == Some(m);
  }

  /** What recv leaves of a packet's data: at most the 4096 bytes of the buffer. */
  function Kept(data: seq<Byte>): nat {
    if |data| <= 4096 then |data| else 4096
  }

  /** The packets that are meant to be handed to the pool: there is data, as much as the header says,
      from an existing appId (0 to 2), of an existing type (0 to 6) other than subscribe and unsubscribe. */
  predicate Qualifies(p: Packet) {
    && p.Packet? && p.msg.data != [] && p.msg.len == Kept(p.msg.data)
    && 0 <= p.msg.appId < 3 && 0 <= p.msg.msgType < 7 && p.msg.msgType != 1 && p.msg.msgType != 2
  }

  /** As what: with the connection as the sender. */
  function AcceptedAs(clientFd: int, p: Packet): Msg
    requires p.Packet?
  {
    p.msg.(src := clientFd, data := p.msg.data[..Kept(p.msg.data)])
  }

  /** The packets that are meant to change the table: the data starts with a type (0 to 6). */
  predicate Changes(p: Packet) {
    && p.Packet? && p.msg.data != [] && p.msg.len == Kept(p.msg.data)
    && 0 <= p.msg.appId < 3 && (p.msg.msgType == 1 || p.msg.msgType == 2) && p.msg.data[0] < 7
  }

  /** The server hands on just the messages that qualify. */
  lemma HandedOnIff(clientFd: int, p: Packet)
    ensures var m := Frame(clientFd, p);
      (if m.Some? then HandledJob(m.value) else None) == (if Qualifies(p) then Some(AcceptedAs(clientFd, p)) else None)
  {
    if p.Packet? {
      assert Received(p.msg.data) == p.msg.data[..Kept(p.msg.data)];
    }
  }

  /** A subscribe or unsubscribe changes the one flag that it names, and gives the slot to its sender when
      nobody has it; no other packet changes the table. */
  lemma TableChangesIff(t: Table, clientFd: int, p: Packet)
    requires Sized(t) && PacketInRange(clientFd, p)
    ensures var m := Frame(clientFd, p);
      var u := if m.Some? then HandledTable(t, m.value) else t;
      if Changes(p) then
        var i: nat, k: nat := p.msg.appId, p.msg.data[0];
        && u[i].fd == (if t[i].fd == -1 then clientFd else t[i].fd)
        && u[i].msgFlag[k] == (p.msg.msgType == 1)
        && (forall l | 0 <= l < 7 && l != k :: u[i].msgFlag[l] == t[i].msgFlag[l])
        && (forall j | 0 <= j < 3 && j != i :: u[j] == t[j])
      else u == t
  {
    if p.Packet? {
      assert Received(p.msg.data) == p.msg.data[..Kept(p.msg.data)];
    }
  }

  class Server {
    const table: ClientTable
    var jobs: seq<Msg>          // handed to the thread pool, oldest first
    var open: set<int>          // connections the server holds
    var polled: set<int>        // those registered with epoll

    ghost predicate Valid()
      reads this, table, table.clientInfo
    {
      table.Valid() && polled <= open
    }

    constructor ()
      ensures Valid() && table.clientInfo[..] == EmptyTable() && jobs == [] && open == {} && polled == {}
      ensures fresh(table) && fresh(table.clientInfo)
    {
      table := new ClientTable();
      jobs, open, polled := [], {}, {};
    }

    /** MsgRouteServerAccept; `clientFd` is what accept returns, `added` whether epoll_ctl succeeds. */
    method Accept(clientFd: int, added: bool)
      requires Valid()
      modifies this`open, this`polled
      ensures Valid()
      ensures open == if clientFd == -1 then old(open) else old(open) + {clientFd}
      ensures polled == if clientFd == -1 || !added then old(polled) else old(polled) + {clientFd}
    {
      if clientFd == -1 {
        return;
      }
      open := open + {clientFd};
      if !added {
        return;
      }
      polled := polled + {clientFd};
    }

    /** MsgRouteServerHandleMsg; `r` is what recv returns.  Only connections in the epoll set get here.
        `inRange` is whether the message is anything but a change of a flag that does not exist. */
    method HandleMsg(clientFd: int, r: Recv) returns (inRange: bool)
      requires Valid() && clientFd in polled
      modifies this, table.clientInfo
      ensures Valid() && (inRange <==> (r.Bytes? ==> PacketInRange(clientFd, r.packet)))
      ensures r.Failed? ==> open == old(open) && polled == old(polled) && jobs == old(jobs)
      ensures r.Failed? ==> table.clientInfo[..] == old(table.clientInfo[..])
      ensures r.Closed? ==> open == old(open) - {clientFd} && polled == old(polled) - {clientFd} && jobs == old(jobs)
      ensures r.Closed? ==> table.clientInfo[..] == Erase(old(table.clientInfo[..]), clientFd)
      ensures r.Bytes? ==> open == old(open) && polled == old(polled)
      ensures r.Bytes? && inRange ==> var m := Frame(clientFd, r.packet);
        && table.clientInfo[..] == (if m.None? then old(table.clientInfo[..])
                                    else HandledTable(old(table.clientInfo[..]), m.value))
        && jobs == (if m.Some? && HandledJob(m.value).Some? then old(jobs) + [m.value] else old(jobs))
      ensures r.Bytes? ==>
        jobs == (if Qualifies(r.packet) then old(jobs) + [AcceptedAs(clientFd, r.packet)] else old(jobs))
    {
      inRange := true;
      match r
      case Failed =>
      case Closed =>
        polled := polled - {clientFd};
        table.EraseClientInfo(clientFd);
        open := open - {clientFd};
      case Bytes(p) =>
        HandedOnIff(clientFd, p);
        if p.Runt? || p.msg.data == [] {
          return;
        }
        var msgData := p.msg.(data := Received(p.msg.data));
        if |msgData.data| != msgData.len {
          return;
        }
        msgData := msgData.(src := clientFd);
        var job;
        job, inRange := table.HandleMsg(msgData);
        if job.Some? {
          jobs := jobs + [job.value];
        }
    }
  }
}
