/** The timer slot table of framework/timer/timer_event_manage.c: g_eventInfo, the timer fds the
    module has open and the epoll set that has to agree with it. */
module TimerTable {
  import opened Wrappers

  const TIMER_EVENT_NUM_MAX := 10
  const SLOTS := TIMER_EVENT_NUM_MAX + 1

  /** A callback: the module's own heartbeat or a user's function. */
  datatype Callback = Heartbeat | User(id: int)

  /** TimerEventManageInfo; a free slot has fd -1 and no callback. */
  datatype Slot = Slot(timerFd: int, cb: Option<Callback>)

  datatype Timers = Timers(isInit: bool, isRunning: bool, slots: seq<Slot>, maxEventNum: int, epollFd: int,
                           open: set<int>, polled: set<int>)

  function FreeSlot(): Slot {
    Slot(-1, None)
  }

  function NoSlots(): seq<Slot> {
    seq(SLOTS, _ => FreeSlot())
  }

  /** What the kernel's timerfd_create may return: -1, or an fd that is not in use. */
  predicate FromKernel(open: set<int>, fd: int) {
    fd == -1 || (fd >= 0 && fd !in open)
  }

  /** The first slot in `i..n` with this fd; n when there is none. */
  function FirstWith(slots: seq<Slot>, fd: int, i: nat, n: nat): (k: nat)
    requires i <= n <= |slots|
    ensures i <= k <= n && (k < n ==> slots[k].timerFd == fd) && forall j | i <= j < k :: slots[j].timerFd != fd
    decreases n - i
  {
    if i == n || slots[i].timerFd == fd then i else FirstWith(slots, fd, i + 1, n)
  }

  // ---------------------------------------------------------------- agreement

  /** Slots, open timer fds and epoll set are one duplicate-free set. */
  ghost predicate Agree(t: Timers) {
    && |t.slots| == SLOTS
    && (forall i | 0 <= i < SLOTS :: t.slots[i].timerFd >= -1)
    && (forall i, j | 0 <= i < j < SLOTS && t.slots[i].timerFd != -1 :: t.slots[i].timerFd != t.slots[j].timerFd)
    && t.open == (set i | 0 <= i < SLOTS && t.slots[i].timerFd != -1 :: t.slots[i].timerFd)
    && t.polled == t.open
    && (if t.isInit then
          && 2 <= t.maxEventNum <= SLOTS
          && (forall i | 0 <= i < SLOTS :: t.slots[i].timerFd == -1 <==> t.slots[i].cb == None)
          && (forall i | t.maxEventNum <= i < SLOTS :: t.slots[i] == FreeSlot())
          && (forall i | 1 <= i < SLOTS :: t.slots[i].cb != Some(Heartbeat))
        else t.maxEventNum == 0 && t.epollFd == -1 && t.open == {})
  }

  function NotStarted(): Timers {
    Timers(false, false, NoSlots(), 0, -1, {}, {})
  }

  lemma NotStartedAgrees()
    ensures Agree(NotStarted())
  {
  }

  // ---------------------------------------------------------------- what the operations do

  /** Everything Init asks of the system: epoll_create, timerfd_create, epoll_ctl, pthread_create. */
  datatype InitEnv = InitEnv(epollFd: int, timerFd: int, ctlResult: int, threadResult: int)

  predicate InitWorks(maxEventNum: int, env: InitEnv) {
    && 0 < maxEventNum <= TIMER_EVENT_NUM_MAX
    && env.epollFd >= 0 && env.timerFd != -1 && env.ctlResult == 0 && env.threadResult == 0
  }

  /** After a failed Init only the heartbeat's callback may stay behind, in a slot without a timer. */
  function Init(t: Timers, maxEventNum: int, env: InitEnv): Timers {
    if t.isInit then t
    else if InitWorks(maxEventNum, env) then
      Timers(true, true, NoSlots()[0 := Slot(env.timerFd, Some(Heartbeat))], maxEventNum + 1, env.epollFd,
             {env.timerFd}, {env.timerFd})
    else
      var stale := 0 < maxEventNum <= TIMER_EVENT_NUM_MAX && env.epollFd >= 0 && env.timerFd == -1;
      Timers(false, true, if stale then NoSlots()[0 := Slot(-1, Some(Heartbeat))] else NoSlots(), 0, -1, {}, {})
  }

  predicate CanAdd(t: Timers, cb: Option<Callback>, fd: int) {
    t.isInit && cb.Some? && fd != -1
  }

  function Add(t: Timers, cb: Option<Callback>, fd: int): Timers
    requires |t.slots| == SLOTS && (t.isInit ==> 0 <= t.maxEventNum <= SLOTS)
  {
    if !CanAdd(t, cb, fd) then t
    else
      var k := FirstWith(t.slots, -1, 0, t.maxEventNum);
      if k == t.maxEventNum then t
      else t.(slots := t.slots[k := Slot(fd, cb)], open := t.open + {fd}, polled := t.polled + {fd})
  }

  function Delete(t: Timers, fd: int): Timers
    requires |t.slots| == SLOTS && (t.isInit ==> 0 <= t.maxEventNum <= SLOTS)
  {
    if fd < 0 || !t.isInit then t
    else
      var k := FirstWith(t.slots, fd, 0, t.maxEventNum);
      if k == t.maxEventNum then t
      else t.(slots := t.slots[k := FreeSlot()], open := t.open - {fd}, polled := t.polled - {fd})
  }

  function Deinit(t: Timers): Timers {
    if t.isInit then Timers(false, false, NoSlots(), 0, -1, {}, {}) else t
  }

  // ---------------------------------------------------------------- dispatch

  /** One callback call: which, with which fd, and the expiry count it is given. */
  datatype Called = Called(cb: Callback, fd: int, count: nat)

  /** The table of the first `n` slots as a map from fd to callback. */
  ghost function Callbacks(slots: seq<Slot>, n: nat): map<int, Callback>
    requires n <= |slots|
  {
    if n == 0 then map[]
    else if slots[n - 1].timerFd != -1 && slots[n - 1].cb.Some? then
      Callbacks(slots, n - 1)[slots[n - 1].timerFd := slots[n - 1].cb.value]
    else Callbacks(slots, n - 1)
  }

  /** The count after reading the fds of the first `n` events; a failed read leaves the last one. */
  ghost function CountAfter(counts: seq<Option<nat>>, n: nat): nat
    requires n <= |counts|
  {
    if n == 0 then 0 else if counts[n - 1].Some? then counts[n - 1].value else CountAfter(counts, n - 1)
  }

  /** The calls that the first `n` ready events lead to by the map. */
  ghost function Expected(callbacks: map<int, Callback>, events: seq<int>, counts: seq<Option<nat>>, n: nat)
    : seq<Called>
    requires n <= |events| == |counts|
  {
    if n == 0 then []
    else
      var fd := events[n - 1];
      Expected(callbacks, events, counts, n - 1) +
        (if fd in callbacks then [Called(callbacks[fd], fd, CountAfter(counts, n))] else [])
  }

  lemma {:induction false} CallbacksLookup(slots: seq<Slot>, n: nat, fd: int)
    requires n <= |slots| && fd != -1
    requires forall i, j | 0 <= i < j < n && slots[i].timerFd != -1 :: slots[i].timerFd != slots[j].timerFd
    ensures var k := FirstWith(slots, fd, 0, n);
      if k < n && slots[k].cb.Some? then fd in Callbacks(slots, n) && Callbacks(slots, n)[fd] == slots[k].cb.value
      else fd !in Callbacks(slots, n)
  {
    if n > 0 {
      CallbacksLookup(slots, n - 1, fd);
    }
  }

  lemma {:induction false} NoCallbackForNoFd(slots: seq<Slot>, n: nat)
    requires n <= |slots|
    ensures -1 !in Callbacks(slots, n)
  {
    if n > 0 {
      NoCallbackForNoFd(slots, n - 1);
    }
  }

  // ---------------------------------------------------------------- what dispatch means

  /** One of the first `n` slots has this fd and this callback. */
  ghost predicate HasTimer(slots: seq<Slot>, n: nat, fd: int, cb: Callback)
    requires n <= |slots|
  {
    exists i :: 0 <= i < n && slots[i] == Slot(fd, Some(cb))
  }

  ghost predicate Fires(slots: seq<Slot>, n: nat, fd: int)
    requires n <= |slots|
  {
    exists cb :: HasTimer(slots, n, fd, cb)
  }

  /** `c` is the last count read from an fd in the first `k` events, or 0 when no read has succeeded. */
  ghost predicate LastRead(counts: seq<Option<nat>>, k: nat, c: nat)
    requires k <= |counts|
  {
    || (c == 0 && forall j | 0 <= j < k :: counts[j] == None)
    || (exists j :: 0 <= j < k && counts[j] == Some(c) && forall l | j < l < k :: counts[l] == None)
  }

  /** The events at `ks`, in order, are those among the first `m` whose fd is that of a timer with a
      callback, and `calls` are the calls of those callbacks. */
  ghost predicate DispatchesAt(slots: seq<Slot>, n: nat, events: seq<int>, counts: seq<Option<nat>>, m: nat,
                               calls: seq<Called>, ks: seq<nat>)
    requires n <= |slots| && m <= |events| == |counts|
  {
    && (forall j | 0 <= j < |ks| :: ks[j] < m && Fires(slots, n, events[ks[j]]))
    && (forall j, l | 0 <= j < l < |ks| :: ks[j] < ks[l])
    && (forall k: nat | k < m :: Listed(slots, n, events, k, ks))
    && |calls| == |ks|
    && (forall j | 0 <= j < |ks| :: CallAt(slots, n, events, counts, ks[j], calls[j]))
  }

  ghost predicate Listed(slots: seq<Slot>, n: nat, events: seq<int>, k: nat, ks: seq<nat>)
    requires n <= |slots| && k < |events|
  {
    Fires(slots, n, events[k]) ==> k in ks
  }

  ghost predicate CallAt(slots: seq<Slot>, n: nat, events: seq<int>, counts: seq<Option<nat>>, k: nat, call: Called)
    requires n <= |slots| && k < |events| == |counts|
  {
    call.fd == events[k] && HasTimer(slots, n, call.fd, call.cb) && LastRead(counts, k + 1, call.count)
  }

  /** Each ready event of a timer leads to one call of its callback, in the order of the events, and
      nothing else is called. */
  ghost predicate Dispatches(slots: seq<Slot>, n: nat, events: seq<int>, counts: seq<Option<nat>>, m: nat,
                             calls: seq<Called>)
    requires n <= |slots| && m <= |events| == |counts|
  {
    exists ks: seq<nat> :: DispatchesAt(slots, n, events, counts, m, calls, ks)
  }

  ghost predicate DistinctFds(slots: seq<Slot>, n: nat)
    requires n <= |slots|
  {
    && (forall i, j | 0 <= i < j < n && slots[i].timerFd != -1 :: slots[i].timerFd != slots[j].timerFd)
    && (forall i | 0 <= i < n && slots[i].timerFd == -1 :: slots[i].cb == None)
  }

  lemma LastReadIsUnique(counts: seq<Option<nat>>, k: nat, c: nat, d: nat)
    requires k <= |counts| && LastRead(counts, k, c) && LastRead(counts, k, d)
    ensures c == d
  {
  }

  lemma {:induction false} CountAfterIsLastRead(counts: seq<Option<nat>>, k: nat)
    requires k <= |counts|
    ensures LastRead(counts, k, CountAfter(counts, k))
  {
    if k > 0 {
      CountAfterIsLastRead(counts, k - 1);
    }
  }

  /** A timer is found in the map exactly when it has a slot. */
  lemma TimerInMap(slots: seq<Slot>, n: nat, fd: int)
    requires n <= |slots| && DistinctFds(slots, n)
    ensures Fires(slots, n, fd) <==> fd in Callbacks(slots, n)
    ensures forall cb :: HasTimer(slots, n, fd, cb) <==> fd in Callbacks(slots, n) && Callbacks(slots, n)[fd] == cb
  {
    NoCallbackForNoFd(slots, n);
    if fd != -1 {
      CallbacksLookup(slots, n, fd);
      var k := FirstWith(slots, fd, 0, n);
      if k < n && slots[k].cb.Some? {
        assert HasTimer(slots, n, fd, slots[k].cb.value);
      }
    }
  }

  lemma CallIsDetermined(slots: seq<Slot>, n: nat, events: seq<int>, counts: seq<Option<nat>>, k: nat, call: Called)
    requires n <= |slots| && k < |events| == |counts| && DistinctFds(slots, n)
    ensures CallAt(slots, n, events, counts, k, call) <==>
      (events[k] in Callbacks(slots, n) &&
       call == Called(Callbacks(slots, n)[events[k]], events[k], CountAfter(counts, k + 1)))
  {
    TimerInMap(slots, n, events[k]);
    CountAfterIsLastRead(counts, k + 1);
    if CallAt(slots, n, events, counts, k, call) {
      LastReadIsUnique(counts, k + 1, call.count, CountAfter(counts, k + 1));
    }
  }

  lemma OneMoreEvent(slots: seq<Slot>, n: nat, events: seq<int>, counts: seq<Option<nat>>, m: nat,
                     calls: seq<Called>, call: Called)
    requires n <= |slots| && m < |events| == |counts|
    requires Dispatches(slots, n, events, counts, m, calls) && CallAt(slots, n, events, counts, m, call)
    ensures Dispatches(slots, n, events, counts, m + 1, calls + [call])
  {
    var ks: seq<nat> :| DispatchesAt(slots, n, events, counts, m, calls, ks);
    var more := ks + [m];
    assert Fires(slots, n, events[m]) && more[|ks|] == m;
    forall k: nat | k < m + 1 ensures Listed(slots, n, events, k, more) {
      if k < m && Fires(slots, n, events[k]) {
        assert Listed(slots, n, events, k, ks);
        var j :| 0 <= j < |ks| && ks[j] == k;
        assert more[j] == k;
      }
    }
    assert DispatchesAt(slots, n, events, counts, m + 1, calls + [call], more);
  }

  lemma OneQuietEvent(slots: seq<Slot>, n: nat, events: seq<int>, counts: seq<Option<nat>>, m: nat,
                      calls: seq<Called>)
    requires n <= |slots| && m < |events| == |counts| && !Fires(slots, n, events[m])
    ensures Dispatches(slots, n, events, counts, m + 1, calls) <==> Dispatches(slots, n, events, counts, m, calls)
  {
    if Dispatches(slots, n, events, counts, m, calls) {
      var ks: seq<nat> :| DispatchesAt(slots, n, events, counts, m, calls, ks);
      forall k: nat | k < m + 1 ensures Listed(slots, n, events, k, ks) {
        assert k < m ==> Listed(slots, n, events, k, ks);
      }
      assert DispatchesAt(slots, n, events, counts, m + 1, calls, ks);
    }
    if Dispatches(slots, n, events, counts, m + 1, calls) {
      var ks: seq<nat> :| DispatchesAt(slots, n, events, counts, m + 1, calls, ks);
      forall j | 0 <= j < |ks| ensures ks[j] < m {
        assert Fires(slots, n, events[ks[j]]);
      }
      forall k: nat | k < m ensures Listed(slots, n, events, k, ks) {
        assert k < m + 1;
      }
      assert DispatchesAt(slots, n, events, counts, m, calls, ks);
    }
  }

  lemma WithoutLast(slots: seq<Slot>, n: nat, events: seq<int>, m: nat, ks: seq<nat>, less: seq<nat>)
    requires n <= |slots| && m < |events| && ks != [] && less == ks[..|ks| - 1] && ks[|ks| - 1] == m
    requires forall j, l | 0 <= j < l < |ks| :: ks[j] < ks[l]
    requires forall k: nat | k < m + 1 :: Listed(slots, n, events, k, ks)
    ensures forall l | 0 <= l < |less| :: less[l] < m
    ensures forall k: nat | k < m :: Listed(slots, n, events, k, less)
  {
    forall l | 0 <= l < |less| ensures less[l] < m {
      assert ks[l] < ks[|ks| - 1];
    }
    forall k: nat | k < m ensures Listed(slots, n, events, k, less) {
      if Fires(slots, n, events[k]) {
        assert Listed(slots, n, events, k, ks);
        var l :| 0 <= l < |ks| && ks[l] == k;
        assert less[l] == k;
      }
    }
  }

  lemma FewerDispatched(slots: seq<Slot>, n: nat, events: seq<int>, counts: seq<Option<nat>>, m: nat,
                        calls: seq<Called>, ks: seq<nat>, rest: seq<Called>, less: seq<nat>)
    requires n <= |slots| && m < |events| == |counts| && DispatchesAt(slots, n, events, counts, m + 1, calls, ks)
    requires |less| <= |ks| && less == ks[..|less|] && rest == calls[..|less|]
    requires (forall j | 0 <= j < |less| :: less[j] < m) && forall k: nat | k < m :: Listed(slots, n, events, k, less)
    ensures DispatchesAt(slots, n, events, counts, m, rest, less)
  {
    forall j | 0 <= j < |less|
      ensures Fires(slots, n, events[less[j]]) && CallAt(slots, n, events, counts, less[j], rest[j])
    {
      assert less[j] == ks[j] && rest[j] == calls[j];
    }
    forall j, l | 0 <= j < l < |less| ensures less[j] < less[l] {
      assert ks[j] < ks[l];
    }
  }

  lemma OneEventLess(slots: seq<Slot>, n: nat, events: seq<int>, counts: seq<Option<nat>>, m: nat,
                     calls: seq<Called>)
    requires n <= |slots| && m < |events| == |counts| && Fires(slots, n, events[m])
    requires Dispatches(slots, n, events, counts, m + 1, calls)
    ensures calls != [] && CallAt(slots, n, events, counts, m, calls[|calls| - 1])
    ensures Dispatches(slots, n, events, counts, m, calls[..|calls| - 1])
  {
    var ks: seq<nat> :| DispatchesAt(slots, n, events, counts, m + 1, calls, ks);
    assert Listed(slots, n, events, m, ks);
    LastIsLast(ks, m);
    EndsWith(slots, n, events, counts, m, calls, ks);
  }

  lemma EndsWith(slots: seq<Slot>, n: nat, events: seq<int>, counts: seq<Option<nat>>, m: nat,
                 calls: seq<Called>, ks: seq<nat>)
    requires n <= |slots| && m < |events| == |counts| && DispatchesAt(slots, n, events, counts, m + 1, calls, ks)
    requires ks != [] && ks[|ks| - 1] == m
    ensures calls != [] && CallAt(slots, n, events, counts, m, calls[|calls| - 1])
    ensures Dispatches(slots, n, events, counts, m, calls[..|calls| - 1])
  {
    var last := |ks| - 1;
    assert CallAt(slots, n, events, counts, ks[last], calls[last]);
    WithoutLast(slots, n, events, m, ks, ks[..last]);
    FewerDispatched(slots, n, events, counts, m, calls, ks, calls[..last], ks[..last]);
  }

  lemma LastIsLast(ks: seq<nat>, m: nat)
    requires m in ks && (forall j | 0 <= j < |ks| :: ks[j] <= m) && forall j, l | 0 <= j < l < |ks| :: ks[j] < ks[l]
    ensures ks[|ks| - 1] == m
  {
    var j :| 0 <= j < |ks| && ks[j] == m;
    if j < |ks| - 1 {
      assert ks[j] < ks[|ks| - 1];
    }
  }

  lemma NoneBelowZero(ks: seq<nat>, m: nat)
    requires forall j | 0 <= j < |ks| :: ks[j] < m
    ensures m == 0 ==> ks == []
  {
    if ks != [] {
      assert ks[0] < m;
    }
  }

  lemma NoEvents(slots: seq<Slot>, n: nat, events: seq<int>, counts: seq<Option<nat>>, calls: seq<Called>)
    requires n <= |slots| && |events| == |counts|
    ensures Dispatches(slots, n, events, counts, 0, calls) <==> calls == []
  {
    if Dispatches(slots, n, events, counts, 0, calls) {
      var ks: seq<nat> :| DispatchesAt(slots, n, events, counts, 0, calls, ks);
      NoneBelowZero(ks, 0);
    }
    assert DispatchesAt(slots, n, events, counts, 0, [], []);
  }

  /** When event `k` fires, the dispatch ends with its call. */
  lemma OneFiringEvent(slots: seq<Slot>, n: nat, events: seq<int>, counts: seq<Option<nat>>, k: nat,
                       calls: seq<Called>, rest: seq<Called>)
    requires n <= |slots| && k < |events| == |counts| && DistinctFds(slots, n) && events[k] in Callbacks(slots, n)
    requires Dispatches(slots, n, events, counts, k, rest)
    requires calls != [] && Dispatches(slots, n, events, counts, k, calls[..|calls| - 1]) ==>
      calls[..|calls| - 1] == rest
    ensures Dispatches(slots, n, events, counts, k + 1, calls) <==>
      calls == rest + [Called(Callbacks(slots, n)[events[k]], events[k], CountAfter(counts, k + 1))]
  {
    var call := Called(Callbacks(slots, n)[events[k]], events[k], CountAfter(counts, k + 1));
    TimerInMap(slots, n, events[k]);
    CallIsDetermined(slots, n, events, counts, k, call);
    OneMoreEvent(slots, n, events, counts, k, rest, call);
    if Dispatches(slots, n, events, counts, k + 1, calls) {
      OneEventLess(slots, n, events, counts, k, calls);
      CallIsDetermined(slots, n, events, counts, k, calls[|calls| - 1]);
      assert calls == calls[..|calls| - 1] + [calls[|calls| - 1]];
    }
  }

  lemma OneMoreIff(slots: seq<Slot>, n: nat, events: seq<int>, counts: seq<Option<nat>>, k: nat,
                   calls: seq<Called>, rest: seq<Called>)
    requires n <= |slots| && k < |events| == |counts| && DistinctFds(slots, n)
    requires rest == Expected(Callbacks(slots, n), events, counts, k)
    requires forall c :: Dispatches(slots, n, events, counts, k, c) <==> c == rest
    ensures Dispatches(slots, n, events, counts, k + 1, calls) <==>
      calls == Expected(Callbacks(slots, n), events, counts, k + 1)
  {
    if events[k] in Callbacks(slots, n) {
      OneFiringEvent(slots, n, events, counts, k, calls, rest);
    } else {
      TimerInMap(slots, n, events[k]);
      OneQuietEvent(slots, n, events, counts, k, calls);
      assert rest + [] == rest;
    }
  }

  /** The calls by the map are the one way to dispatch. */
  lemma {:induction false} DispatchIff(slots: seq<Slot>, n: nat, events: seq<int>, counts: seq<Option<nat>>, m: nat,
                                       calls: seq<Called>)
    requires n <= |slots| && m <= |events| == |counts| && DistinctFds(slots, n)
    ensures Dispatches(slots, n, events, counts, m, calls) <==>
      calls == Expected(Callbacks(slots, n), events, counts, m)
    decreases m
  {
    if m == 0 {
      NoEvents(slots, n, events, counts, calls);
    } else {
      var k: nat := m - 1;
      var rest := Expected(Callbacks(slots, n), events, counts, k);
      forall c ensures Dispatches(slots, n, events, counts, k, c) <==> c == rest {
        DispatchIff(slots, n, events, counts, k, c);
      }
      OneMoreIff(slots, n, events, counts, k, calls, rest);
    }
  }

  // ---------------------------------------------------------------- the table in place

  class Manager {
    var isInit: bool
    var isRunning: bool
    const eventInfo: array<Slot>
    var maxEventNum: int
    var epollFd: int
    var open: set<int>
    var polled: set<int>

    ghost function Shown(): Timers
      reads this, eventInfo
    {
      Timers(isInit, isRunning, eventInfo[..], maxEventNum, epollFd, open, polled)
    }

    constructor ()
      ensures Shown() == NotStarted() && fresh(eventInfo)
    {
      isInit, isRunning, maxEventNum, epollFd, open, polled := false, false, 0, -1, {}, {};
      eventInfo := new Slot[SLOTS](_ => FreeSlot());
      new;
      assert eventInfo[..] == NoSlots();
    }

    /** InitTimerEventManageData. */
    method InitData()
      requires eventInfo.Length == SLOTS
      modifies this`isRunning, this`maxEventNum, eventInfo
      ensures eventInfo[..] == NoSlots() && isRunning && maxEventNum == 0
    {
      var i := 0;
      while i < SLOTS
        invariant 0 <= i <= SLOTS
        invariant forall k | 0 <= k < i :: eventInfo[k] == FreeSlot()
      {
        eventInfo[i] := FreeSlot();
        i := i + 1;
      }
      isRunning := true;
      maxEventNum := 0;
    }

    /** DeinitTimerEventManageCore. */
    method DeinitCore()
      requires eventInfo.Length == SLOTS
      modifies this, eventInfo
      ensures isRunning == old(isRunning) && !isInit && maxEventNum == 0 && epollFd == -1 && polled == {}
      ensures eventInfo[..] ==
        (if old(eventInfo[0].timerFd) != -1 then old(eventInfo[..])[0 := FreeSlot()] else old(eventInfo[..]))
      ensures open == old(open) - (if old(eventInfo[0].timerFd) != -1 then {old(eventInfo[0].timerFd)} else {})
    {
      if eventInfo[0].timerFd != -1 {
        polled := polled - {eventInfo[0].timerFd};
        open := open - {eventInfo[0].timerFd};
        eventInfo[0] := FreeSlot();
      }
      if epollFd != -1 {
        epollFd := -1;
      }
      polled := {};
      maxEventNum := 0;
      isInit := false;
    }

    method InitTimerEventManage(maxNum: int, env: InitEnv) returns (ret: int)
      requires Agree(Shown()) && FromKernel(open, env.timerFd)
      modifies this, eventInfo
      ensures Shown() == Init(old(Shown()), maxNum, env)
      ensures ret == 0 <==> isInit
      ensures isInit <==> old(isInit) || (1 <= maxNum <= 10 && env.epollFd >= 0 && env.timerFd >= 0 &&
                                          env.ctlResult == 0 && env.threadResult == 0)
    {
      if isInit {
        return 0;
      }
      ret := -1;
      InitData();
      if 0 < maxNum <= TIMER_EVENT_NUM_MAX {
        maxEventNum := maxNum + 1;
        epollFd := if env.epollFd < 0 then -1 else env.epollFd;
        if epollFd >= 0 {
          eventInfo[0] := Slot(env.timerFd, Some(Heartbeat));
          if env.timerFd != -1 {
            open := open + {env.timerFd};
            ret := env.ctlResult;
            if ret == 0 {
              polled := polled + {env.timerFd};
              ret := env.threadResult;
            }
          }
        }
      }
      if ret != 0 {
        DeinitCore();
      } else {
        isInit := true;
      }
    }

    method AddTimerEvent(cb: Option<Callback>, timerFd: int) returns (ret: int)
      requires Agree(Shown()) && FromKernel(open, timerFd)
      modifies this`open, this`polled, eventInfo
      ensures Shown() == Add(old(Shown()), cb, timerFd)
      ensures ret == if Shown() == old(Shown()) then -1 else timerFd
      ensures ret != -1 ==> exists k ::
        && 0 <= k < maxEventNum && old(eventInfo[k].timerFd) == -1 && eventInfo[k] == Slot(timerFd, cb)
        && (forall j | 0 <= j < k :: old(eventInfo[j].timerFd) != -1)
        && (forall j | 0 <= j < SLOTS && j != k :: eventInfo[j] == old(eventInfo[j]))
    {
      if cb.None? || !isInit || timerFd == -1 {
        return -1;
      }
      open := open + {timerFd};
      var i := 0;
      while i < maxEventNum
        invariant 0 <= i <= maxEventNum && eventInfo[..] == old(eventInfo[..])
        invariant FirstWith(eventInfo[..], -1, 0, maxEventNum) == FirstWith(eventInfo[..], -1, i, maxEventNum)
      {
        if eventInfo[i].timerFd == -1 {
          polled := polled + {timerFd};
          eventInfo[i] := Slot(timerFd, cb);
          return timerFd;
        }
        i := i + 1;
      }
      open := open - {timerFd};
      return -1;
    }

    method DeleteTimerEvent(timerFd: int) returns (ret: int)
      requires Agree(Shown())
      modifies this`open, this`polled, eventInfo
      ensures Shown() == Delete(old(Shown()), timerFd)
      ensures ret == if timerFd < 0 || !isInit then -1 else 0
    {
      if timerFd < 0 || !isInit {
        return -1;
      }
      var i := 0;
      while i < maxEventNum
        invariant 0 <= i <= maxEventNum && eventInfo[..] == old(eventInfo[..])
        invariant FirstWith(eventInfo[..], timerFd, 0, maxEventNum) == FirstWith(eventInfo[..], timerFd, i, maxEventNum)
        invariant open == old(open) && polled == old(polled)
      {
        if eventInfo[i].timerFd == timerFd {
          polled := polled - {timerFd};
          open := open - {timerFd};
          eventInfo[i] := FreeSlot();
          break;
        }
        i := i + 1;
      }
      return 0;
    }

    method DeinitTimerEventManage()
      requires Agree(Shown())
      modifies this, eventInfo
      ensures Shown() == Deinit(old(Shown()))
      ensures !isInit && open == {} && polled == {} && maxEventNum == 0 && epollFd == -1
      ensures old(isInit) ==> !isRunning && forall k | 0 <= k < SLOTS :: eventInfo[k] == Slot(-1, None)
    {
      if !isInit {
        return;
      }
      isRunning := false;
      var i := 0;
      while i < maxEventNum
        invariant 0 <= i <= maxEventNum == old(maxEventNum) && !isRunning
        invariant forall k | 0 <= k < i :: eventInfo[k] == FreeSlot()
        invariant forall k | i <= k < SLOTS :: eventInfo[k] == old(eventInfo[k])
        invariant forall fd :: fd in open <==> exists k :: i <= k < SLOTS && fd == eventInfo[k].timerFd != -1
      {
        var fd := eventInfo[i].timerFd;
        if fd != -1 {
          polled := polled - {fd};
          open := open - {fd};
        }
        eventInfo[i] := FreeSlot();
        i := i + 1;
      }
      assert forall k | maxEventNum <= k < SLOTS :: eventInfo[k] == FreeSlot() by {
        assert forall k | maxEventNum <= k < SLOTS :: old(Shown()).slots[k] == FreeSlot();
      }
      assert open == {} by {
        assert forall fd :: fd !in open;
      }
      DeinitCore();
      assert eventInfo[..] == NoSlots();
    }

    /** TimerEventManageHandleEvent; `counts` are the counts read from the ready fds.  The nested
        first-match loop over the snapshot looks each fd up in the map. */
    method HandleEvent(events: seq<int>, counts: seq<Option<nat>>) returns (calls: seq<Called>)
      requires Agree(Shown()) && isInit && |counts| == |events|
      ensures Dispatches(eventInfo[..], maxEventNum, events, counts, |events|, calls)
      ensures calls == Expected(Callbacks(eventInfo[..], maxEventNum), events, counts, |events|)
    {
      var snapshot := eventInfo[..];
      calls := [];
      var count := 0;
      var i := 0;
      while i < |events|
        invariant 0 <= i <= |events| && count == CountAfter(counts, i)
        invariant calls == Expected(Callbacks(snapshot, maxEventNum), events, counts, i)
      {
        var fd := events[i];
        if counts[i].Some? {
          count := counts[i].value;
        }
        NoCallbackForNoFd(snapshot, maxEventNum);
        if fd != -1 {
          CallbacksLookup(snapshot, maxEventNum, fd);
        }
        var j := 0;
        ghost var before := calls;
        while j < maxEventNum
          invariant 0 <= j <= maxEventNum && calls == before
          invariant FirstWith(snapshot, fd, 0, maxEventNum) == FirstWith(snapshot, fd, j, maxEventNum)
        {
          if fd == snapshot[j].timerFd {
            if snapshot[j].cb.Some? {
              calls := calls + [Called(snapshot[j].cb.value, fd, count)];
            }
            break;
          }
          j := j + 1;
        }
        i := i + 1;
      }
      DispatchIff(snapshot, maxEventNum, events, counts, |events|, calls);
    }
  }
}
