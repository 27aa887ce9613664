/** The timer table over all sequences of init, add, delete and deinit calls. */
module TimerRuns {
  import opened Wrappers
  import opened TimerTable

  datatype Event =
    | DoInit(maxNum: int, env: InitEnv)
    | DoAdd(cb: Option<int>, fd: int)    // `fd` is what timerfd_create returns; None is a NULL callback
    | DoDelete(fd: int)
    | DoDeinit

  /** The kernel only hands out fds that are not in use. */
  predicate Enabled(t: Timers, e: Event) {
    match e
    case DoInit(_, env) => FromKernel(t.open, env.timerFd)
    case DoAdd(_, fd) => FromKernel(t.open, fd)
    case _ => true
  }

  function UserCallback(cb: Option<int>): Option<Callback> {
    if cb.Some? then Some(User(cb.value)) else None
  }

  function Next(t: Timers, e: Event): Timers
    requires |t.slots| == SLOTS && (t.isInit ==> 0 <= t.maxEventNum <= SLOTS)
  {
    match e
    case DoInit(maxNum, env) => Init(t, maxNum, env)
    case DoAdd(cb, fd) => Add(t, UserCallback(cb), fd)
    case DoDelete(fd) => Delete(t, fd)
    case DoDeinit => Deinit(t)
  }

  ghost predicate Leads(t: Timers, es: seq<Event>, u: Timers)
    decreases |es|
  {
    if es == [] then t == u
    else
      && |t.slots| == SLOTS && (t.isInit ==> 0 <= t.maxEventNum <= SLOTS)
      && Enabled(t, es[0]) && Leads(Next(t, es[0]), es[1..], u)
  }

  // ---------------------------------------------------------------- agreement

  /** Taking a free slot adds its fd to those in the slots. */
  lemma OneMoreFd(slots: seq<Slot>, k: nat, slot: Slot, more: seq<Slot>)
    requires |slots| == SLOTS && k < SLOTS && slots[k].timerFd == -1 && slot.timerFd != -1
    requires more == slots[k := slot]
    ensures (set i | 0 <= i < SLOTS && more[i].timerFd != -1 :: more[i].timerFd)
         == (set i | 0 <= i < SLOTS && slots[i].timerFd != -1 :: slots[i].timerFd) + {slot.timerFd}
  {
    assert more[k].timerFd == slot.timerFd;
    forall i | 0 <= i < SLOTS && i != k ensures more[i] == slots[i] {
    }
  }

  lemma AgreeAdd(t: Timers, cb: int, fd: int)
    requires Agree(t) && FromKernel(t.open, fd)
    ensures Agree(Add(t, Some(User(cb)), fd))
  {
    var u := Add(t, Some(User(cb)), fd);
    if u != t {
      var k := FirstWith(t.slots, -1, 0, t.maxEventNum);
      OneMoreFd(t.slots, k, Slot(fd, Some(User(cb))), u.slots);
      forall i | 0 <= i < SLOTS && t.slots[i].timerFd != -1 ensures t.slots[i].timerFd in t.open {
      }
    }
  }

  lemma AgreeDelete(t: Timers, fd: int)
    requires Agree(t)
    ensures Agree(Delete(t, fd))
  {
    var u := Delete(t, fd);
    if u != t {
      var k := FirstWith(t.slots, fd, 0, t.maxEventNum);
      forall f
        ensures f in u.open <==> f in (set i | 0 <= i < SLOTS && u.slots[i].timerFd != -1 :: u.slots[i].timerFd)
      {
        if f in t.open && f != fd {
          var i :| 0 <= i < SLOTS && t.slots[i].timerFd == f != -1;
          assert u.slots[i].timerFd == f;
        }
      }
    }
  }

  lemma AgreeInit(t: Timers, maxNum: int, env: InitEnv)
    requires Agree(t) && FromKernel(t.open, env.timerFd)
    ensures Agree(Init(t, maxNum, env))
  {
    var u := Init(t, maxNum, env);
    if !t.isInit && InitWorks(maxNum, env) {
      assert u.slots[0].timerFd == env.timerFd;
    }
  }

  lemma AgreeStep(t: Timers, e: Event)
    requires Agree(t) && Enabled(t, e)
    ensures Agree(Next(t, e))
  {
    match e
    case DoInit(maxNum, env) => AgreeInit(t, maxNum, env);
    case DoAdd(cb, fd) =>
      if cb.Some? {
        AgreeAdd(t, cb.value, fd);
      }
    case DoDelete(fd) => AgreeDelete(t, fd);
    case DoDeinit =>
  }

  /** In every run the open timer fds, the epoll set and the used slots are the same set, without
      duplicates. */
  lemma {:induction false} AgreeAlways(t: Timers, es: seq<Event>, u: Timers)
    requires Agree(t) && Leads(t, es, u)
    ensures Agree(u)
    decreases |es|
  {
    if es != [] {
      AgreeStep(t, es[0]);
      AgreeAlways(Next(t, es[0]), es[1..], u);
    }
  }

  /** In particular from the start of the process. */
  lemma AgreeFromStart(es: seq<Event>, u: Timers)
    requires Leads(NotStarted(), es, u)
    ensures Agree(u)
  {
    NotStartedAgrees();
    AgreeAlways(NotStarted(), es, u);
  }

  /** Given a callback and a new fd, adding fails exactly when every slot is in use; otherwise the
      fd gets that callback and every other fd keeps its own. */
  lemma AddFailsIff(t: Timers, cb: int, fd: int)
    requires Agree(t) && t.isInit && FromKernel(t.open, fd) && fd != -1
    ensures Add(t, Some(User(cb)), fd) == t <==> forall i | 0 <= i < t.maxEventNum :: t.slots[i].timerFd != -1
    ensures var u := Add(t, Some(User(cb)), fd);
      u != t ==>
        && u.open == t.open + {fd}
        && Callbacks(u.slots, u.maxEventNum) == Callbacks(t.slots, t.maxEventNum)[fd := User(cb)]
  {
    var k := FirstWith(t.slots, -1, 0, t.maxEventNum);
    var u := Add(t, Some(User(cb)), fd);
    AgreeAdd(t, cb, fd);
    if k < t.maxEventNum {
      assert u.open != t.open;
      SameMap(t, u, fd, User(cb), k);
    }
  }

  /** Adding a timer and deleting it again gives back the same timers, slot by slot. */
  lemma DeleteUndoesAdd(t: Timers, cb: int, fd: int)
    requires Agree(t) && t.isInit && FromKernel(t.open, fd) && fd != -1
    ensures Delete(Add(t, Some(User(cb)), fd), fd) == t
  {
    var u := Add(t, Some(User(cb)), fd);
    forall i | 0 <= i < SLOTS ensures t.slots[i].timerFd != fd {
      assert t.slots[i].timerFd != -1 ==> t.slots[i].timerFd in t.open;
    }
    if u != t {
      var k := FirstWith(t.slots, -1, 0, t.maxEventNum);
      assert u.slots[k].timerFd == fd && forall i | 0 <= i < SLOTS && i != k :: u.slots[i].timerFd != fd;
      assert FirstWith(u.slots, fd, 0, t.maxEventNum) == k;
      assert t.slots[k] == FreeSlot();
      assert u.slots[k := FreeSlot()] == t.slots;
      assert t.open + {fd} - {fd} == t.open;
    } else {
      assert FirstWith(t.slots, fd, 0, t.maxEventNum) == t.maxEventNum;
    }
  }

  /** Two tables that differ in one fd only have maps that differ there only. */
  lemma SameLookup(t: Timers, u: Timers, fd: int, cb: Callback, k: nat, f: int)
    requires Agree(t) && Agree(u) && t.isInit && u.isInit && t.maxEventNum == u.maxEventNum && fd != -1 && f != -1
    requires k < t.maxEventNum && t.slots[k] == FreeSlot() && u.slots == t.slots[k := Slot(fd, Some(cb))]
    ensures var a, b := Callbacks(t.slots, t.maxEventNum)[fd := cb], Callbacks(u.slots, t.maxEventNum);
      (f in b <==> f in a) && (f in b ==> b[f] == a[f])
  {
    var n := t.maxEventNum;
    CallbacksLookup(t.slots, n, f);
    CallbacksLookup(u.slots, n, f);
    var i, j := FirstWith(t.slots, f, 0, n), FirstWith(u.slots, f, 0, n);
    assert u.slots[k].timerFd == fd;
    if f == fd {
      assert j == k;
    } else {
      assert i < n ==> u.slots[i] == t.slots[i];
      assert j < n ==> t.slots[j] == u.slots[j];
      assert i == j;
    }
  }

  lemma SameMap(t: Timers, u: Timers, fd: int, cb: Callback, k: nat)
    requires Agree(t) && Agree(u) && t.isInit && u.isInit && t.maxEventNum == u.maxEventNum && fd != -1
    requires k < t.maxEventNum && t.slots[k] == FreeSlot() && u.slots == t.slots[k := Slot(fd, Some(cb))]
    ensures Callbacks(u.slots, u.maxEventNum) == Callbacks(t.slots, t.maxEventNum)[fd := cb]
  {
    var a, b := Callbacks(t.slots, t.maxEventNum)[fd := cb], Callbacks(u.slots, t.maxEventNum);
    NoCallbackForNoFd(t.slots, t.maxEventNum);
    NoCallbackForNoFd(u.slots, t.maxEventNum);
    forall f | f != -1 ensures (f in b <==> f in a) && (f in b ==> b[f] == a[f]) {
      SameLookup(t, u, fd, cb, k, f);
    }
    assert b == a;
  }

  lemma DeleteInMap(t: Timers, fd: int, k: nat)
    requires Agree(t) && t.isInit && fd >= 0 && k == FirstWith(t.slots, fd, 0, t.maxEventNum) && k < t.maxEventNum
    ensures var u := Delete(t, fd);
      Callbacks(u.slots, u.maxEventNum) == Callbacks(t.slots, t.maxEventNum) - {fd}
  {
    var n, u := t.maxEventNum, Delete(t, fd);
    AgreeDelete(t, fd);
    CallbacksLookup(u.slots, n, fd);
    assert u.slots[k] == FreeSlot() && t.slots == u.slots[k := Slot(fd, t.slots[k].cb)];
    SameMap(u, t, fd, t.slots[k].cb.value, k);
    assert forall i | 0 <= i < n && i != k :: u.slots[i] == t.slots[i];
  }

  /** Deleting an fd closes it and forgets its callback, and every other fd keeps its own; an fd
      that is not in the table is left alone. */
  lemma DeleteForgets(t: Timers, fd: int)
    requires Agree(t) && t.isInit && fd >= 0
    ensures var u := Delete(t, fd);
      u.open == t.open - {fd} && Callbacks(u.slots, u.maxEventNum) == Callbacks(t.slots, t.maxEventNum) - {fd}
  {
    var n := t.maxEventNum;
    var k := FirstWith(t.slots, fd, 0, n);
    if k == n {
      CallbacksLookup(t.slots, n, fd);
      assert forall i | n <= i < SLOTS :: t.slots[i] == FreeSlot();
      assert fd !in t.open;
    } else {
      DeleteInMap(t, fd, k);
    }
  }

  // ---------------------------------------------------------------- init and deinit

  /** Init succeeds exactly for 1 to 10 timers and when epoll_create, timerfd_create, epoll_ctl and
      pthread_create all do; then the heartbeat is the only timer. */
  lemma InitIff(t: Timers, maxNum: int, env: InitEnv)
    requires Agree(t) && Enabled(t, DoInit(maxNum, env))
    ensures var u := Next(t, DoInit(maxNum, env));
      && (u.isInit <==> t.isInit || (1 <= maxNum <= 10 && env.epollFd >= 0 && env.timerFd >= 0 &&
                                     env.ctlResult == 0 && env.threadResult == 0))
      && (t.isInit ==> u == t)
      && (!t.isInit && u.isInit ==>
            && u.isRunning && u.maxEventNum == maxNum + 1 && u.epollFd == env.epollFd
            && u.open == {env.timerFd} && u.polled == {env.timerFd}
            && Callbacks(u.slots, u.maxEventNum) == map[env.timerFd := Heartbeat])
      && (!u.isInit ==> u.open == {} && u.polled == {} && u.maxEventNum == 0 && u.epollFd == -1)
  {
    var u := Next(t, DoInit(maxNum, env));
    if !t.isInit && u.isInit {
      OnlyHeartbeat(u.slots, u.maxEventNum, env.timerFd);
    }
  }

  lemma {:induction false} OnlyHeartbeat(slots: seq<Slot>, n: nat, fd: int)
    requires 0 < n <= |slots| && slots[0] == Slot(fd, Some(Heartbeat)) && fd != -1
    requires forall i | 1 <= i < n :: slots[i] == FreeSlot()
    ensures Callbacks(slots, n) == map[fd := Heartbeat]
  {
    if n > 1 {
      OnlyHeartbeat(slots, n - 1, fd);
    } else {
      assert Callbacks(slots, 0) == map[];
    }
  }

  /** Deinit closes every timer and frees every slot. */
  lemma DeinitClosesAll(t: Timers)
    requires Agree(t)
    ensures var u := Next(t, DoDeinit);
      && !u.isInit && u.open == {} && u.polled == {} && u.maxEventNum == 0 && u.epollFd == -1
      && (t.isInit ==> !u.isRunning && u.slots == seq(11, _ => Slot(-1, None)))
      && (!t.isInit ==> u == t)
  {
  }

  /** After a deinit, init gives what it gives at the start of the process, from every table. */
  lemma InitAfterDeinit(t: Timers, maxNum: int, env: InitEnv)
    requires Agree(t) && Enabled(NotStarted(), DoInit(maxNum, env))
    ensures Enabled(Next(t, DoDeinit), DoInit(maxNum, env))
    ensures Next(Next(t, DoDeinit), DoInit(maxNum, env)) == Next(NotStarted(), DoInit(maxNum, env))
  {
  }

  // ---------------------------------------------------------------- how many user timers

  function Users(slots: seq<Slot>, n: nat): nat
    requires n <= |slots|
  {
    if n == 0 then 0 else Users(slots, n - 1) + (if slots[n - 1].cb.Some? && slots[n - 1].cb.value.User? then 1 else 0)
  }

  lemma {:induction false} UsersBound(slots: seq<Slot>, n: nat)
    requires n <= |slots|
    ensures Users(slots, n) <= n
    ensures n > 0 && !(slots[0].cb.Some? && slots[0].cb.value.User?) ==> Users(slots, n) < n
  {
    if n > 0 {
      UsersBound(slots, n - 1);
    }
  }

  /** The call is not DeleteTimerEvent with the heartbeat's own fd. */
  predicate SparesHeartbeat(t: Timers, e: Event) {
    e.DoDelete? && t.isInit && |t.slots| > 0 && t.slots[0].cb == Some(Heartbeat) ==> e.fd != t.slots[0].timerFd
  }

  ghost predicate RunSparesHeartbeat(t: Timers, es: seq<Event>)
    decreases |es|
  {
    es != [] && |t.slots| == SLOTS && (t.isInit ==> 0 <= t.maxEventNum <= SLOTS) ==>
      SparesHeartbeat(t, es[0]) && RunSparesHeartbeat(Next(t, es[0]), es[1..])
  }

  ghost predicate HeartbeatKept(t: Timers) {
    t.isInit ==> |t.slots| == SLOTS && t.slots[0].cb == Some(Heartbeat)
  }

  lemma HeartbeatStep(t: Timers, e: Event)
    requires Agree(t) && HeartbeatKept(t) && Enabled(t, e)
    ensures HeartbeatKept(Next(t, e)) <==> SparesHeartbeat(t, e)
  {
  }

  /** As long as nobody deletes the heartbeat's fd there are at most as many user timers as Init was
      asked for. */
  lemma {:induction false} AtMostMaxUserTimers(t: Timers, es: seq<Event>, u: Timers)
    requires Agree(t) && HeartbeatKept(t) && Leads(t, es, u) && RunSparesHeartbeat(t, es)
    ensures u.isInit ==>
      |u.slots| == SLOTS && 2 <= u.maxEventNum <= SLOTS && Users(u.slots, u.maxEventNum) <= u.maxEventNum - 1
    decreases |es|
  {
    if es == [] {
      if u.isInit {
        UsersBound(u.slots, u.maxEventNum);
      }
    } else {
      AgreeStep(t, es[0]);
      HeartbeatStep(t, es[0]);
      AtMostMaxUserTimers(Next(t, es[0]), es[1..], u);
    }
  }

  /** The slots when the first `k` of `fds` have been added to an empty table. */
  function Filled(fds: seq<int>, k: nat): seq<Slot>
    requires k <= |fds|
  {
    seq(SLOTS, i requires 0 <= i < SLOTS => if i < k then Slot(fds[i], Some(User(i))) else FreeSlot())
  }

  ghost predicate UnusedFds(fds: seq<int>) {
    (forall i | 0 <= i < |fds| :: fds[i] >= 0) && forall i, j | 0 <= i < j < |fds| :: fds[i] != fds[j]
  }

  lemma {:induction false} AddsAll(t: Timers, fds: seq<int>, k: nat) returns (es: seq<Event>, u: Timers)
    requires k <= |fds| <= SLOTS && UnusedFds(fds)
    requires t.isInit && t.maxEventNum == |fds| && t.slots == Filled(fds, k)
    requires forall f :: f in t.open <==> exists i :: 0 <= i < k && fds[i] == f
    ensures Leads(t, es, u) && u.isInit && u.maxEventNum == |fds| && u.slots == Filled(fds, |fds|)
    decreases |fds| - k
  {
    if k == |fds| {
      es, u := [], t;
    } else {
      var e := DoAdd(Some(k), fds[k]);
      assert FirstWith(t.slots, -1, 0, t.maxEventNum) == k by {
        assert Filled(fds, k)[k] == FreeSlot();
        assert forall i | 0 <= i < k :: t.slots[i].timerFd == fds[i];
      }
      var v := Next(t, e);
      assert v.slots == Filled(fds, k + 1);
      assert v.open == t.open + {fds[k]};
      var rest;
      rest, u := AddsAll(v, fds, k + 1);
      es := [e] + rest;
      assert es[1..] == rest;
    }
  }

  lemma {:induction false} AllUsers(fds: seq<int>, n: nat)
    requires n <= |fds| <= SLOTS
    ensures Users(Filled(fds, |fds|), n) == n
  {
    if n > 0 {
      AllUsers(fds, n - 1);
    }
  }

  /** Deleting the heartbeat's fd is accepted, and makes room for one user timer too many, whatever
      the number that Init was asked for. */
  lemma OneTooMany(maxNum: int, env: InitEnv, fds: seq<int>) returns (es: seq<Event>, u: Timers)
    requires InitWorks(maxNum, env) && env.timerFd >= 0 && UnusedFds(fds) && |fds| == maxNum + 1
    ensures Leads(NotStarted(), es, u) && u.isInit && u.maxEventNum == maxNum + 1 && |u.slots| == SLOTS
    ensures Users(u.slots, u.maxEventNum) == maxNum + 1
  {
    var a, b := DoInit(maxNum, env), DoDelete(env.timerFd);
    var t1 := Next(NotStarted(), a);
    var t2 := Next(t1, b);
    assert t2.slots == Filled(fds, 0);
    var rest;
    rest, u := AddsAll(t2, fds, 0);
    AllUsers(fds, |fds|);
    es := [a] + ([b] + rest);
    assert es[1..] == [b] + rest && ([b] + rest)[1..] == rest;
    assert Leads(t1, [b] + rest, u);
  }
}
