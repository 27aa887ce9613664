/** Who gets a message: over any run, whatever the epoll thread and the other workers do while the
    job reads the live table. */
module RouterDelivery {
  import opened RouteTable
  import opened Router
  import opened RouterInvariants

  /** The fds to which `job` has sent for slot `i`, in order. */
  function FdsSent(sent: seq<Sent>, job: nat, i: nat): seq<int> {
    if sent == [] then []
    else
      var x := sent[|sent| - 1];
      FdsSent(sent[..|sent| - 1], job, i) +
        (if x.job == job && x.target.ToSlot? && x.target.slot == i then [x.target.fd] else [])
  }

  lemma OneSend(sent: seq<Sent>, x: Sent, job: nat, i: nat)
    ensures FdsSent(sent + [x], job, i) ==
      FdsSent(sent, job, i) + (if x.job == job && x.target.ToSlot? && x.target.slot == i then [x.target.fd] else [])
  {
    assert (sent + [x])[..|sent|] == sent;
  }

  lemma {:induction false} NothingSent(sent: seq<Sent>, job: nat, i: nat)
    requires forall x | x in sent :: x.job != job
    ensures FdsSent(sent, job, i) == []
  {
    if sent != [] {
      NothingSent(sent[..|sent| - 1], job, i);
    }
  }

  // ---------------------------------------------------------------- what the table was over a time

  /** From `from` to `until`, slot `i` belonged to `fd` and was subscribed to `msgType`. */
  ghost predicate Steady(tr: seq<State>, from: nat, until: nat, i: nat, msgType: nat, fd: int)
    requires until < |tr| && i < MAX_APP_ID && msgType < MSG_ROUTE_MAX_MSG
  {
    forall k {:trigger tr[k]} | from <= k <= until ::
      Sized(tr[k].table) && tr[k].table[i].fd == fd && Subscribed(tr[k].table, i, msgType)
  }

  /** From `from` to `until`, slot `i` was never subscribed to `msgType`. */
  ghost predicate Never(tr: seq<State>, from: nat, until: nat, i: nat, msgType: nat)
    requires until < |tr| && i < MAX_APP_ID && msgType < MSG_ROUTE_MAX_MSG
  {
    forall k {:trigger tr[k]} | from <= k <= until :: Sized(tr[k].table) && !Subscribed(tr[k].table, i, msgType)
  }

  /** What a job must have done for slot `i`, by what the slot was from `from` to `until`. */
  ghost predicate Outcome(tr: seq<State>, from: nat, until: nat, job: nat, m: Msg, i: nat)
    requires until < |tr| && i < MAX_APP_ID && ValidMsg(m)
  {
    var fds := FdsSent(tr[until].sent, job, i);
    && |fds| <= 1
    && (!Addressed(m, i) ==> fds == [])
    && (Never(tr, from, until, i, m.msgType) ==> fds == [])
    && (Addressed(m, i) ==> forall fd {:trigger Steady(tr, from, until, i, m.msgType, fd)} ::
          Steady(tr, from, until, i, m.msgType, fd) ==> fds == [fd])
  }

  // ---------------------------------------------------------------- the invariant

  /** The job at `pc` is through with slot `i`, or never gets to it. */
  predicate Passed(m: Msg, pc: JobPc, i: nat) {
    match pc
    case Begin => false
    case LookFd(k) => !Addressed(m, i) || i < k
    case LookFlag(k) => !Addressed(m, i) || i < k
    case LoadFd(k) => !Addressed(m, i) || i < k
    case SendSlot(k, _) => !Addressed(m, i) || i < k
    case SendBack => true
    case End => true
  }

  /** Where a job at `pc` can be. */
  predicate PcFits(m: Msg, pc: JobPc) {
    match pc
    case Begin => true
    case LookFd(k) => Addressed(m, k)
    case LookFlag(k) => Addressed(m, k)
    case LoadFd(k) => Addressed(m, k)
    case SendSlot(k, _) => Addressed(m, k)
    case SendBack => m.dataType == MSG_ROUTE_DATA_ANSWER_TYPE
    case End => true
  }

  /** A job that is about to send for slot `i` has seen it subscribed, and has the fd of a steady owner. */
  ghost predicate FdFits(tr: seq<State>, from: nat, until: nat, m: Msg, i: nat, pc: JobPc)
    requires until < |tr| && i < MAX_APP_ID && ValidMsg(m)
  {
    && (pc == LoadFd(i) || (pc.SendSlot? && pc.slot == i) ==> !Never(tr, from, until, i, m.msgType))
    && (pc.SendSlot? && pc.slot == i ==>
          forall fd {:trigger Steady(tr, from, until, i, m.msgType, fd)} ::
            Steady(tr, from, until, i, m.msgType, fd) ==> pc.fd == fd)
  }

  ghost predicate SoFar(tr: seq<State>, from: nat, until: nat, job: nat, m: Msg, i: nat, pc: JobPc)
    requires until < |tr| && i < MAX_APP_ID && ValidMsg(m)
  {
    && PcFits(m, pc)
    && (if Passed(m, pc, i) then Outcome(tr, from, until, job, m, i) else FdsSent(tr[until].sent, job, i) == [])
    && FdFits(tr, from, until, m, i, pc)
  }

  ghost predicate JobInv(tr: seq<State>, from: nat, until: nat, job: nat, m: Msg, i: nat)
    requires until < |tr| && i < MAX_APP_ID && ValidMsg(m)
  {
    var s := tr[until];
    && (job < |s.accepted| ==> s.accepted[job] == m)
    && (Started(s) <= job ==> FdsSent(s.sent, job, i) == [])
    && (forall w | w in s.running && s.running[w].job == job :: SoFar(tr, from, until, job, m, i, s.running[w].pc))
    && (job in s.finished ==> SoFar(tr, from, until, job, m, i, End))
  }

  /** What one step of a worker adds to what its job has sent for slot `i`. */
  lemma WorkSent(s: State, w: nat, job: nat, i: nat)
    requires Shaped(s) && w in s.running && s.running[w].pc != End
    ensures var run := s.running[w];
      FdsSent(StepJob(s, w).sent, job, i) == FdsSent(s.sent, job, i) +
        (if run.job == job && run.pc.SendSlot? && run.pc.slot == i then [run.pc.fd] else [])
  {
    var run := s.running[w];
    var m := s.accepted[run.job];
    assert StepJob(s, w).sent == s.sent + SendsAt(m, run.job, run.pc) && s.sent + [] == s.sent;
    match run.pc
    case SendSlot(k, fd) => OneSend(s.sent, Sent(run.job, ToSlot(k, fd)), job, i);
    case SendBack => OneSend(s.sent, Sent(run.job, ToSender(m.src)), job, i);
    case _ =>
  }

  lemma StepSent(s: State, e: Event, job: nat, i: nat)
    requires Shaped(s) && Enabled(s, e)
    requires e.Step? ==> s.running[e.worker].job != job
    ensures FdsSent(Next(s, e).sent, job, i) == FdsSent(s.sent, job, i)
  {
    if !e.Step? {
      if !e.Start? {
        OnlyWorkersWork(s, e);
      }
    } else if s.running[e.worker].pc != End {
      WorkSent(s, e.worker, job, i);
    }
  }

  /** What held up to a moment held up to the moment before. */
  lemma HeldBefore(tr: seq<State>, from: nat, until: nat, i: nat, msgType: nat)
    requires from <= until && until + 1 < |tr| && i < MAX_APP_ID && msgType < MSG_ROUTE_MAX_MSG
    ensures Never(tr, from, until + 1, i, msgType) ==>
      Never(tr, from, until, i, msgType) && Sized(tr[until].table) && !Subscribed(tr[until].table, i, msgType)
    ensures forall fd {:trigger Steady(tr, from, until + 1, i, msgType, fd)} ::
      Steady(tr, from, until + 1, i, msgType, fd) ==>
        && Steady(tr, from, until, i, msgType, fd)
        && Sized(tr[until].table) && Subscribed(tr[until].table, i, msgType) && tr[until].table[i].fd == fd
  {
  }

  /** Time passing does not change what the job has done. */
  lemma SoFarLater(tr: seq<State>, from: nat, until: nat, job: nat, m: Msg, i: nat, pc: JobPc)
    requires from <= until && until + 1 < |tr| && i < MAX_APP_ID && ValidMsg(m)
    requires SoFar(tr, from, until, job, m, i, pc)
    requires FdsSent(tr[until + 1].sent, job, i) == FdsSent(tr[until].sent, job, i)
    ensures SoFar(tr, from, until + 1, job, m, i, pc)
  {
    HeldBefore(tr, from, until, i, m.msgType);
  }

  /** The job, at `pc`, is the one whose worker steps at `until`. */
  ghost predicate OwnStep(tr: seq<State>, from: nat, until: nat, job: nat, m: Msg, i: nat, pc: JobPc) {
    && from <= until && until + 1 < |tr| && i < MAX_APP_ID && ValidMsg(m) && PcInRange(pc)
    && Tidy(tr[until].table) && SoFar(tr, from, until, job, m, i, pc)
    && FdsSent(tr[until + 1].sent, job, i) ==
         FdsSent(tr[until].sent, job, i) + (if pc.SendSlot? && pc.slot == i then [pc.fd] else [])
  }

  lemma SoFarLook(tr: seq<State>, from: nat, until: nat, job: nat, m: Msg, i: nat, pc: JobPc)
    requires OwnStep(tr, from, until, job, m, i, pc) && (pc.LookFd? || pc.LookFlag?)
    ensures SoFar(tr, from, until + 1, job, m, i, NextPc(tr[until].table, m, pc))
  {
    HeldBefore(tr, from, until, i, m.msgType);
  }

  lemma SoFarLoad(tr: seq<State>, from: nat, until: nat, job: nat, m: Msg, i: nat, pc: JobPc)
    requires OwnStep(tr, from, until, job, m, i, pc) && pc.LoadFd?
    ensures SoFar(tr, from, until + 1, job, m, i, NextPc(tr[until].table, m, pc))
  {
    HeldBefore(tr, from, until, i, m.msgType);
  }

  lemma SoFarSend(tr: seq<State>, from: nat, until: nat, job: nat, m: Msg, i: nat, pc: JobPc)
    requires OwnStep(tr, from, until, job, m, i, pc) && pc.SendSlot?
    ensures SoFar(tr, from, until + 1, job, m, i, NextPc(tr[until].table, m, pc))
  {
    HeldBefore(tr, from, until, i, m.msgType);
  }

  lemma SoFarEnds(tr: seq<State>, from: nat, until: nat, job: nat, m: Msg, i: nat, pc: JobPc)
    requires OwnStep(tr, from, until, job, m, i, pc) && (pc == Begin || pc == SendBack)
    ensures SoFar(tr, from, until + 1, job, m, i, NextPc(tr[until].table, m, pc))
  {
    HeldBefore(tr, from, until, i, m.msgType);
  }

  /** The job's own step. */
  lemma SoFarStep(tr: seq<State>, from: nat, until: nat, job: nat, m: Msg, i: nat, pc: JobPc)
    requires OwnStep(tr, from, until, job, m, i, pc) && pc != End
    ensures SoFar(tr, from, until + 1, job, m, i, NextPc(tr[until].table, m, pc))
  {
    match pc
    case LookFd(_) => SoFarLook(tr, from, until, job, m, i, pc);
    case LookFlag(_) => SoFarLook(tr, from, until, job, m, i, pc);
    case LoadFd(_) => SoFarLoad(tr, from, until, job, m, i, pc);
    case SendSlot(_, _) => SoFarSend(tr, from, until, job, m, i, pc);
    case _ => SoFarEnds(tr, from, until, job, m, i, pc);
  }

  lemma JobInvOwnStep(tr: seq<State>, from: nat, until: nat, job: nat, m: Msg, i: nat, w: nat)
    requires from <= until && until + 1 < |tr| && i < MAX_APP_ID && ValidMsg(m)
    requires Inv(tr[until]) && w in tr[until].running && tr[until].running[w].job == job
    requires tr[until + 1] == StepJob(tr[until], w) && JobInv(tr, from, until, job, m, i)
    ensures JobInv(tr, from, until + 1, job, m, i)
  {
    var s, pc := tr[until], tr[until].running[w].pc;
    assert SoFar(tr, from, until, job, m, i, pc);
    if pc == End {
      SoFarLater(tr, from, until, job, m, i, End);
    } else {
      WorkSent(s, w, job, i);
      SoFarStep(tr, from, until, job, m, i, pc);
      assert tr[until + 1].running[w] == Run(job, NextPc(s.table, m, pc));
    }
  }

  lemma JobInvOtherStep(tr: seq<State>, es: seq<Event>, from: nat, until: nat, job: nat, m: Msg, i: nat)
    requires from <= until && until < |es| && |tr| == |es| + 1 && i < MAX_APP_ID && ValidMsg(m)
    requires Inv(tr[until]) && Enabled(tr[until], es[until]) && tr[until + 1] == Next(tr[until], es[until])
    requires es[until].Step? ==> tr[until].running[es[until].worker].job != job
    requires JobInv(tr, from, until, job, m, i) && (job < |tr[until + 1].accepted| ==> tr[until + 1].accepted[job] == m)
    ensures JobInv(tr, from, until + 1, job, m, i)
  {
    var s, t, e := tr[until], tr[until + 1], es[until];
    StepSent(s, e, job, i);
    AcceptedGrows(s, e);
    forall w | w in t.running && t.running[w].job == job
      ensures SoFar(tr, from, until + 1, job, m, i, t.running[w].pc)
    {
      RunningBefore(s, e, w);
      if !(e.Start? && e.worker == w) {
        SoFarLater(tr, from, until, job, m, i, t.running[w].pc);
      }
    }
    FinishedBefore(s, e, job);
    if job in t.finished {
      SoFarLater(tr, from, until, job, m, i, End);
    }
  }

  /** A job runs after a step where it ran before, unless a worker has just taken it or moved it. */
  lemma RunningBefore(s: State, e: Event, w: nat)
    requires Shaped(s) && Enabled(s, e) && w in Next(s, e).running
    ensures e.Start? && e.worker == w ==> Next(s, e).running[w] == Run(Started(s), Begin)
    ensures !(e.Start? && e.worker == w) && !(e.Step? && e.worker == w) ==>
      w in s.running && s.running[w] == Next(s, e).running[w]
    ensures e.Step? && e.worker == w ==> w in s.running && s.running[w].job == Next(s, e).running[w].job
  {
    if !e.Start? && !e.Step? {
      OnlyWorkersWork(s, e);
    }
  }

  lemma FinishedBefore(s: State, e: Event, job: nat)
    requires Shaped(s) && Enabled(s, e)
    requires e.Step? ==> s.running[e.worker].job != job
    ensures job in Next(s, e).finished <==> job in s.finished
  {
    if !e.Start? && !e.Step? {
      OnlyWorkersWork(s, e);
    }
  }

  lemma {:induction false} AcceptedKept(tr: seq<State>, es: seq<Event>, k: nat, n: nat)
    requires IsRun(tr, es) && k <= n <= |es|
    ensures tr[k].accepted <= tr[n].accepted
    decreases n
  {
    if k < n {
      AcceptedKept(tr, es, k, n - 1);
      RunStep(tr, es, n - 1);
      AcceptedGrows(tr[n - 1], es[n - 1]);
    }
  }

  lemma JobInvStep(tr: seq<State>, es: seq<Event>, from: nat, until: nat, job: nat, m: Msg, i: nat)
    requires IsRun(tr, es) && from <= until < |es| && i < MAX_APP_ID && ValidMsg(m)
    requires JobInv(tr, from, until, job, m, i) && (job < |tr[until + 1].accepted| ==> tr[until + 1].accepted[job] == m)
    ensures JobInv(tr, from, until + 1, job, m, i)
  {
    RunInv(tr, es, until);
    RunStep(tr, es, until);
    var s, e := tr[until], es[until];
    if e.Step? && s.running[e.worker].job == job {
      JobInvOwnStep(tr, from, until, job, m, i, e.worker);
    } else {
      JobInvOtherStep(tr, es, from, until, job, m, i);
    }
  }

  lemma JobInvStart(tr: seq<State>, es: seq<Event>, from: nat, job: nat, m: Msg, i: nat)
    requires IsRun(tr, es) && from <= |es| && i < MAX_APP_ID && ValidMsg(m) && Started(tr[from]) <= job
    requires job < |tr[from].accepted| ==> tr[from].accepted[job] == m
    ensures JobInv(tr, from, from, job, m, i)
  {
    RunInv(tr, es, from);
    NothingSent(tr[from].sent, job, i);
  }

  /** From `from` to `until`, the job is `m` as soon as it is accepted. */
  ghost predicate IsJob(tr: seq<State>, from: nat, until: nat, job: nat, m: Msg)
    requires until < |tr|
  {
    forall k {:trigger JobIs(tr[k], job, m)} | from <= k <= until :: JobIs(tr[k], job, m)
  }

  predicate JobIs(s: State, job: nat, m: Msg) {
    job < |s.accepted| ==> s.accepted[job] == m
  }

  lemma {:induction false} JobInvHolds(tr: seq<State>, es: seq<Event>, from: nat, until: nat, job: nat, m: Msg,
                                       i: nat)
    requires IsRun(tr, es) && from <= until <= |es| && i < MAX_APP_ID && ValidMsg(m) && Started(tr[from]) <= job
    requires IsJob(tr, from, until, job, m)
    ensures JobInv(tr, from, until, job, m, i)
    decreases until
  {
    assert JobIs(tr[from], job, m) && JobIs(tr[until], job, m);
    if from == until {
      JobInvStart(tr, es, from, job, m, i);
    } else {
      JobInvHolds(tr, es, from, until - 1, job, m, i);
      JobInvStep(tr, es, from, until - 1, job, m, i);
    }
  }

  /** Delivery: take any moment `from` at which the job had not been started (in particular the
      moment it was accepted) and any moment `until` at which it is finished.  A slot that is not
      addressed, or was unsubscribed throughout, is sent nothing; an addressed slot that stayed
      subscribed with one fd is sent the message exactly once, to that fd; and no slot is ever
      sent it twice. */
  lemma Delivery(tr: seq<State>, es: seq<Event>, from: nat, until: nat, job: nat, i: nat)
    requires IsRun(tr, es) && from <= until <= |es| && i < MAX_APP_ID
    requires Started(tr[from]) <= job && job in tr[until].finished
    ensures job < |tr[until].accepted| && ValidMsg(tr[until].accepted[job])
    ensures Outcome(tr, from, until, job, tr[until].accepted[job], i)
  {
    RunInv(tr, es, until);
    var m := tr[until].accepted[job];
    assert m in tr[until].accepted;
    forall k | from <= k <= until ensures JobIs(tr[k], job, m) {
      AcceptedKept(tr, es, k, until);
    }
    JobInvHolds(tr, es, from, until, job, m, i);
  }

  // ---------------------------------------------------------------- answers

  /** Only answers are sent back, and to the connection on which they were received. */
  ghost predicate AnswersEcho(s: State)
    requires Shaped(s)
  {
    && |s.origin| == |s.accepted| && (forall j | 0 <= j < |s.accepted| :: s.accepted[j].src == s.origin[j])
    && (forall w | w in s.running && s.running[w].pc == SendBack :: IsAnswer(s, s.running[w].job))
    && (forall x | x in s.sent && x.target.ToSender? ::
          x.job < |s.accepted| && IsAnswer(s, x.job) && x.target.fd == s.origin[x.job])
  }

  ghost predicate IsAnswer(s: State, job: nat)
    requires job < |s.accepted|
  {
    s.accepted[job].dataType == MSG_ROUTE_DATA_ANSWER_TYPE
  }

  lemma AnswersEchoReceive(s: State, fd: int)
    requires Shaped(s) && Enabled(s, Receive(fd)) && Shaped(Next(s, Receive(fd))) && AnswersEcho(s)
    ensures AnswersEcho(Next(s, Receive(fd)))
  {
    OnlyWorkersWork(s, Receive(fd));
    AcceptedGrows(s, Receive(fd));
    assert ConnShaped(fd, s.conns[fd]);
  }

  lemma AnswersEchoWork(s: State, w: nat)
    requires Shaped(s) && Enabled(s, Step(w)) && Shaped(Next(s, Step(w))) && AnswersEcho(s)
    ensures AnswersEcho(Next(s, Step(w)))
  {
  }

  lemma AnswersEchoStep(s: State, e: Event)
    requires Shaped(s) && Enabled(s, e) && Shaped(Next(s, e)) && AnswersEcho(s)
    ensures AnswersEcho(Next(s, e))
  {
    match e
    case Receive(fd) => AnswersEchoReceive(s, fd);
    case Step(w) => AnswersEchoWork(s, w);
    case _ =>
  }

  /** An answer is never routed to who asked: the server has put the fd it received the answer on in
      `src` when it framed the message, and that is where the job sends it. */
  lemma {:induction false} AnswersGoBackToTheirSender(tr: seq<State>, es: seq<Event>, k: nat)
    requires IsRun(tr, es) && k <= |es|
    ensures Shaped(tr[k]) && AnswersEcho(tr[k])
  {
    if k == 0 {
      InitShaped();
    } else {
      AnswersGoBackToTheirSender(tr, es, k - 1);
      RunStep(tr, es, k - 1);
      var s, e := tr[k - 1], es[k - 1];
      ShapedStep(s, e);
      AnswersEchoStep(s, e);
    }
  }
}
