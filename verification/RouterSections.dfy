/** The epoll thread over the real table and fds: handling one ready event is the step of the router
    that this event stands for. */
module RouterSections {
  import opened RouteServer
  import opened RouteClient
  import opened Router
  import opened RouterInvariants

  /** What epoll reports: a connection to accept, or something to receive. */
  datatype Ready = Listening(clientFd: int, added: bool) | Readable(fd: int, result: Recv)

  function Polled(conns: map<int, Conn>): set<int> {
    set f | f in conns && conns[f].polled
  }

  /** The server's variables have the values that state `s` gives them. */
  ghost predicate Shows(server: Server, s: State)
    reads server, server.table, server.table.clientInfo
  {
    && server.Valid() && s.epoll == Idle
    && server.table.clientInfo[..] == s.table && server.jobs == s.accepted
    && server.open == s.conns.Keys && server.polled == Polled(s.conns)
  }

  /** The kernel reports `ready` only when it can: an accepted fd is new, what is received is the oldest
      packet of a registered connection, and the end comes when there is none left.  `appId` and `local` are
      those of the process behind a new connection. */
  ghost predicate CanHappen(s: State, ready: Ready, appId: nat, local: Local) {
    match ready
    case Listening(fd, added) => fd == -1 || Enabled(s, Connect(fd, appId, local, added))
    case Readable(fd, Failed) => fd in s.conns && s.conns[fd].polled
    case Readable(fd, Closed) => Enabled(s, EndOfFile(fd))
    case Readable(fd, Bytes(p)) => Enabled(s, Receive(fd)) && p == s.conns[fd].channel[0]
  }

  /** The router's state afterwards. */
  ghost function After(s: State, ready: Ready, appId: nat, local: Local): State
    requires Shaped(s) && CanHappen(s, ready, appId, local)
  {
    match ready
    case Listening(fd, added) => if fd == -1 then s else Next(s, Connect(fd, appId, local, added))
    case Readable(fd, Failed) => s
    case Readable(fd, Closed) =>
      ShapedStep(s, EndOfFile(fd));
      Next(Next(s, EndOfFile(fd)), Close)
    case Readable(fd, Bytes(_)) => Next(s, Receive(fd))
  }

  /** The loop body of MsgRouteServerHandleEvent. */
  method HandleEvent(server: Server, ready: Ready, ghost s: State, ghost appId: nat, ghost local: Local)
    requires Shaped(s) && Shows(server, s) && CanHappen(s, ready, appId, local)
    modifies server, server.table.clientInfo
    ensures Shows(server, After(s, ready, appId, local))
  {
    match ready
    case Listening(clientFd, added) => server.Accept(clientFd, added);
    case Readable(fd, result) =>
      ghost var c := s.conns[fd];
      assert ConnShaped(fd, c);
      assert result.Bytes? ==> PacketInRange(fd, c.channel[0]);
      var inRange := server.HandleMsg(fd, result);
  }
}
