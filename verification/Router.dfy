/** The message router as a whole: clients, ordered connections, the epoll thread, and the jobs
    that pool workers run against the live table, one load or send per step. */
module Router {
  import opened Wrappers
  import opened RouteTable
  import opened RouteServer
  import opened RouteClient
  import RouteHistory

  const POOL_THREADS := 3

  /** The local half of a subscribe or unsubscribe call, still to be done after the send. */
  datatype Update = Update(msgType: nat, rxFunc: Option<int>)

  /** A connection with the client process behind it; `channel` is in flight to the server, and `polled`
      is whether the epoll thread managed to register it.  `id` numbers the connections, since fds are
      used again.  `stale` records the message types whose callback is older than the connection and has
      not been changed on it; no step reads `id` or `stale`. */
  datatype Conn = Conn(id: nat, appId: nat, polled: bool, channel: seq<Packet>, local: Local,
                       pending: Option<Update>, isOpen: bool, stale: set<nat>)

  function Callbacks(local: Local): set<nat> {
    set k: nat | k < |local| && local[k].rxFunc.Some?
  }

  /** A new connection of a process whose table of callbacks is `local`. */
  function NewConn(id: nat, appId: nat, local: Local, polled: bool): Conn {
    Conn(id, appId, polled, [], local, None, true, Callbacks(local))
  }

  /** The epoll thread is between two events, or between erasing a client and closing its fd. */
  datatype Epoll = Idle | Closing(fd: int)

  /** Where MsgRouteCoreJobFunc is: the next load of the live table, or the send. */
  datatype JobPc =
    | Begin                  // lines 111-126
    | LookFd(slot: nat)      // first load of lines 127 and 139
    | LookFlag(slot: nat)    // second load of lines 127 and 139
    | LoadFd(slot: nat)      // lines 128 and 140: the fd is loaded again
    | SendSlot(slot: nat, fd: int)   // and the message is sent to it
    | SendBack               // line 122
    | End                    // line 150

  datatype Run = Run(job: nat, pc: JobPc)

  datatype Sent = Sent(job: nat, target: Target)

  /** Jobs are named by their place in `accepted`; `origin` are the fds on which they were received,
      and `connected` is how many connections there have been. */
  datatype State = State(
    table: Table,
    history: seq<RouteHistory.Event>,
    conns: map<int, Conn>,
    connected: nat,
    epoll: Epoll,
    accepted: seq<Msg>,
    origin: seq<int>,
    pending: seq<nat>,
    running: map<nat, Run>,
    finished: seq<nat>,
    sent: seq<Sent>)

  function Init(): State {
    State(EmptyTable(), [], map[], 0, Idle, [], [], [], map[], [], [])
  }

  datatype Event =
    | Connect(fd: int, appId: nat, local: Local, polled: bool)   // a process connects and is accepted as `fd`
    | ClientSend(fd: int, p: Packet)                    // MsgRouteClientSendMsg
    | ClientChange(fd: int, update: Update)             // the send of a subscribe or unsubscribe call
    | ClientCommit(fd: int)                             // and its local update
    | Hangup(fd: int)                                   // the client closes
    | Receive(fd: int)                                  // the epoll thread receives a packet
    | EndOfFile(fd: int)                                // it sees the end and erases the client
    | Close                                             // it closes the fd
    | Start(worker: nat)                                // a worker takes the oldest job
    | Step(worker: nat)                                 // a worker takes its job's next step
    | Elsewhere                                         // a step of another thread that changes nothing here

  // ---------------------------------------------------------------- a job's steps

  function NextSlot(m: Msg, slot: nat): JobPc {
    if m.appId == ALL_APP_ID && slot + 1 < MAX_APP_ID then LookFd(slot + 1) else End
  }

  predicate PcInRange(pc: JobPc) {
    pc.LookFd? || pc.LookFlag? || pc.LoadFd? || pc.SendSlot? ==> pc.slot < MAX_APP_ID
  }

  function NextPc(t: Table, m: Msg, pc: JobPc): (next: JobPc)
    requires Sized(t) && ValidMsg(m) && PcInRange(pc)
    ensures PcInRange(next)
  {
    match pc
    case Begin => if m.dataType == MSG_ROUTE_DATA_ANSWER_TYPE then SendBack else LookFd(m.appId)
    case LookFd(i) => if t[i].fd != -1 then LookFlag(i) else NextSlot(m, i)
    case LookFlag(i) => if t[i].msgFlag[m.msgType] then LoadFd(i) else NextSlot(m, i)
    case LoadFd(i) => SendSlot(i, t[i].fd)
    case SendSlot(i, _) => NextSlot(m, i)
    case SendBack => End
    case End => End
  }

  function SendsAt(m: Msg, job: nat, pc: JobPc): seq<Sent> {
    match pc
    case SendSlot(i, fd) => [Sent(job, ToSlot(i, fd))]
    case SendBack => [Sent(job, ToSender(m.src))]
    case _ => []
  }

  // ---------------------------------------------------------------- steps of the system

  /** How many jobs have been taken by workers; they are taken in the order of acceptance. */
  function Started(s: State): int {
    |s.accepted| - |s.pending|
  }

  /** Types of things that steps rely on and keep; proved for every run in RouterInvariants. */
  ghost predicate Shaped(s: State) {
    && Tidy(s.table)
    && |s.pending| <= |s.accepted|
    && (forall k | 0 <= k < |s.pending| :: s.pending[k] == Started(s) + k)
    && (forall w | w in s.running :: s.running[w].job < Started(s) && PcInRange(s.running[w].pc))
    && (forall m | m in s.accepted :: ValidMsg(m) && !IsChange(m) && m.data != [])
    && (forall f | f in s.conns :: f >= 0 && LocalValid(s.conns[f].local) && ConnShaped(f, s.conns[f]))
  }

  ghost predicate ConnShaped(fd: int, c: Conn) {
    && 0 < c.appId < MAX_APP_ID
    && (c.pending.Some? ==> c.pending.value.msgType < MSG_ROUTE_MAX_MSG)
    && (forall p | p in c.channel :: PacketInRange(fd, p))
  }

  ghost predicate Enabled(s: State, e: Event) {
    match e
    case Connect(fd, appId, local, _) =>
      s.epoll == Idle && fd >= 0 && fd !in s.conns && 0 < appId < MAX_APP_ID && LocalValid(local)
    case ClientSend(fd, p) => fd in s.conns && s.conns[fd].isOpen && PacketInRange(fd, p)
    case ClientChange(fd, u) =>
      fd in s.conns && s.conns[fd].isOpen && s.conns[fd].pending == None && u.msgType < MSG_ROUTE_MAX_MSG
    case ClientCommit(fd) => fd in s.conns && s.conns[fd].pending.Some?
    case Hangup(fd) => fd in s.conns
    case Receive(fd) => s.epoll == Idle && fd in s.conns && s.conns[fd].polled && s.conns[fd].channel != []
    case EndOfFile(fd) =>
      s.epoll == Idle && fd in s.conns && s.conns[fd].polled && s.conns[fd].channel == [] && !s.conns[fd].isOpen
    case Close => s.epoll.Closing?
    case Start(w) => s.pending != [] && w < POOL_THREADS && w !in s.running
    case Step(w) => w in s.running
    case Elsewhere => true
  }

  function Put(s: State, fd: int, c: Conn): State {
    s.(conns := s.conns[fd := c])
  }

  function SendOn(c: Conn, p: Packet): Conn {
    c.(channel := c.channel + [p])
  }

  /** The server handles a message that it has framed, from connection `fd`. */
  function Handle(s: State, fd: int, m: Msg): State
    requires Sized(s.table) && ChangeInRange(m)
  {
    var t := s.(table := HandledTable(s.table, m));
    if IsChange(m) then
      t.(history := s.history +
           [RouteHistory.Changed(m.src, m.appId, m.data[0], m.msgType == MSG_ROUTE_SUBSCRIBE_MSG)])
    else if HandledJob(m).Some? then
      t.(accepted := s.accepted + [m], origin := s.origin + [fd], pending := s.pending + [|s.accepted|])
    else t
  }

  function StepJob(s: State, w: nat): State
    requires Sized(s.table) && w in s.running && s.running[w].job < |s.accepted|
    requires ValidMsg(s.accepted[s.running[w].job]) && PcInRange(s.running[w].pc)
  {
    var run := s.running[w];
    var m := s.accepted[run.job];
    if run.pc == End then
      s.(running := s.running - {w}, finished := s.finished + [run.job])
    else
      s.(running := s.running[w := run.(pc := NextPc(s.table, m, run.pc))],
         sent := s.sent + SendsAt(m, run.job, run.pc))
  }

  ghost function Next(s: State, e: Event): State
    requires Shaped(s) && Enabled(s, e)
  {
    match e
    case Connect(fd, appId, local, polled) =>
      Put(s, fd, NewConn(s.connected, appId, local, polled)).(connected := s.connected + 1)
    case ClientSend(fd, p) => Put(s, fd, SendOn(s.conns[fd], p))
    case ClientChange(fd, u) =>
      var c := s.conns[fd];
      Put(s, fd, SendOn(c, ChangePacket(0, c.appId, u.msgType, u.rxFunc.Some?))
                 .(pending := Some(u), stale := c.stale - {u.msgType}))
    case ClientCommit(fd) =>
      var c := s.conns[fd];
      var u := c.pending.value;
      assert ConnShaped(fd, c);
      Put(s, fd, c.(local := c.local[u.msgType := NewEntry(u.msgType, u.rxFunc)], pending := None))
    case Hangup(fd) => Put(s, fd, s.conns[fd].(isOpen := false))
    case Receive(fd) =>
      var c := s.conns[fd];
      assert ConnShaped(fd, c) && PacketInRange(fd, c.channel[0]);
      var t := Put(s, fd, c.(channel := c.channel[1..]));
      var m := Frame(fd, c.channel[0]);
      if m.None? then t else Handle(t, fd, m.value)
    case EndOfFile(fd) =>
      s.(table := Erase(s.table, fd), history := s.history + [RouteHistory.Gone(fd)], epoll := Closing(fd))
    case Close => s.(conns := s.conns - {s.epoll.fd}, epoll := Idle)
    case Start(w) => s.(pending := s.pending[1..], running := s.running[w := Run(s.pending[0], Begin)])
    case Step(w) => StepJob(s, w)
    case Elsewhere => s
  }
}
