/** A job that nothing interferes with: the steps of the router's job and the method that runs the
    same C function on the table in place send the same. */
module RouterJob {
  import opened RouteTable
  import opened Router
  import opened RouterInvariants
  import opened RouterDelivery

  function FromSlot(t: Table, m: Msg, i: nat): seq<Target>
    requires Sized(t) && ValidMsg(m) && i < MAX_APP_ID
  {
    if m.appId == ALL_APP_ID then TargetsFrom(t, i, m.msgType) else TargetIn(t, i, m.msgType)
  }

  function AfterSlot(t: Table, m: Msg, i: nat): seq<Target>
    requires Sized(t) && ValidMsg(m) && i < MAX_APP_ID
  {
    if m.appId == ALL_APP_ID then TargetsFrom(t, i + 1, m.msgType) else []
  }

  /** What a job at `pc` still sends when the table stays as it is. */
  function Rest(t: Table, m: Msg, pc: JobPc): seq<Target>
    requires Sized(t) && ValidMsg(m) && PcInRange(pc)
  {
    match pc
    case Begin => Targets(t, m)
    case LookFd(i) => FromSlot(t, m, i)
    case LookFlag(i) => FromSlot(t, m, i)
    case LoadFd(i) => [ToSlot(i, t[i].fd)] + AfterSlot(t, m, i)
    case SendSlot(i, fd) => [ToSlot(i, fd)] + AfterSlot(t, m, i)
    case SendBack => [ToSender(m.src)]
    case End => []
  }

  function Labelled(job: nat, targets: seq<Target>): seq<Sent> {
    seq(|targets|, k requires 0 <= k < |targets| => Sent(job, targets[k]))
  }

  function StepsLeft(m: Msg, pc: JobPc): int {
    match pc
    case Begin => 4 * MAX_APP_ID + 1
    case LookFd(i) => 4 * (MAX_APP_ID - i)
    case LookFlag(i) => 4 * (MAX_APP_ID - i) - 1
    case LoadFd(i) => 4 * (MAX_APP_ID - i) - 2
    case SendSlot(i, _) => 4 * (MAX_APP_ID - i) - 3
    case SendBack => 1
    case End => 0
  }

  /** `n` steps of worker `w`, as far as the job goes. */
  ghost function Stepped(s: State, w: nat, n: nat): State
    requires Shaped(s)
    decreases n
  {
    if n == 0 || !Enabled(s, Step(w)) || s.running[w].pc == End then s
    else
      ShapedStep(s, Step(w));
      Stepped(Next(s, Step(w)), w, n - 1)
  }

  function TargetsAt(m: Msg, pc: JobPc): seq<Target> {
    match pc
    case SendSlot(i, fd) => [ToSlot(i, fd)]
    case SendBack => [ToSender(m.src)]
    case _ => []
  }

  lemma LabelledSends(m: Msg, job: nat, pc: JobPc, more: seq<Target>)
    ensures Labelled(job, TargetsAt(m, pc) + more) == SendsAt(m, job, pc) + Labelled(job, more)
  {
  }

  lemma RestStep(t: Table, m: Msg, pc: JobPc)
    requires Tidy(t) && ValidMsg(m) && PcInRange(pc) && pc != End && PcFits(m, pc)
    ensures Rest(t, m, pc) == TargetsAt(m, pc) + Rest(t, m, NextPc(t, m, pc))
    ensures PcFits(m, NextPc(t, m, pc)) && 0 <= StepsLeft(m, NextPc(t, m, pc)) < StepsLeft(m, pc)
  {
    var rest := Rest(t, m, NextPc(t, m, pc));
    assert [] + rest == rest;
    match pc
    case LookFd(i) => SkippedSlot(t, m, i);
    case LookFlag(i) => SkippedSlot(t, m, i);
    case SendSlot(i, _) => assert rest == AfterSlot(t, m, i);
    case SendBack => assert rest == [];
    case _ =>
  }

  /** A slot that is not subscribed adds nothing, and a subscribed one its fd. */
  lemma SkippedSlot(t: Table, m: Msg, i: nat)
    requires Tidy(t) && ValidMsg(m) && i < MAX_APP_ID
    ensures FromSlot(t, m, i) ==
      (if t[i].msgFlag[m.msgType] then [ToSlot(i, t[i].fd)] + AfterSlot(t, m, i) else AfterSlot(t, m, i))
    ensures t[i].fd == -1 ==> !t[i].msgFlag[m.msgType]
  {
    var rest := AfterSlot(t, m, i);
    assert [] + rest == rest && [ToSlot(i, t[i].fd)] + [] == [ToSlot(i, t[i].fd)];
  }

  /** What is sent and what is left to send, before and after a step that is not the job's last. */
  lemma OneStepSends(sent: seq<Sent>, t: Table, m: Msg, job: nat, pc: JobPc)
    requires Tidy(t) && ValidMsg(m) && PcInRange(pc) && pc != End && PcFits(m, pc)
    ensures (sent + SendsAt(m, job, pc)) + Labelled(job, Rest(t, m, NextPc(t, m, pc))) ==
            sent + Labelled(job, Rest(t, m, pc))
  {
    var rest := Rest(t, m, NextPc(t, m, pc));
    RestStep(t, m, pc);
    LabelledSends(m, job, pc, rest);
    Regroup(sent, SendsAt(m, job, pc), Labelled(job, rest));
  }

  lemma Regroup(a: seq<Sent>, b: seq<Sent>, c: seq<Sent>)
    ensures (a + b) + c == a + (b + c)
  {
  }

  lemma OneStep(s: State, w: nat)
    requires Shaped(s) && w in s.running && s.running[w].pc != End
    requires PcFits(s.accepted[s.running[w].job], s.running[w].pc)
    ensures var run, t := s.running[w], Next(s, Step(w));
      var m := s.accepted[run.job];
      var next := NextPc(s.table, m, run.pc);
      && Shaped(t) && t == s.(running := s.running[w := run.(pc := next)], sent := t.sent)
      && t.sent + Labelled(run.job, Rest(s.table, m, next)) == s.sent + Labelled(run.job, Rest(s.table, m, run.pc))
  {
    ShapedStep(s, Step(w));
    OneStepSends(s.sent, s.table, s.accepted[s.running[w].job], s.running[w].job, s.running[w].pc);
  }

  /** From wherever a job is, its worker alone takes it to its end, and it sends what is left. */
  lemma {:induction false} RunsToEnd(s: State, w: nat, left: nat) returns (n: nat)
    requires Shaped(s) && w in s.running && PcFits(s.accepted[s.running[w].job], s.running[w].pc)
    requires left == StepsLeft(s.accepted[s.running[w].job], s.running[w].pc)
    ensures var run := s.running[w]; var m := s.accepted[run.job];
      Stepped(s, w, n) == s.(running := s.running[w := run.(pc := End)],
                             sent := s.sent + Labelled(run.job, Rest(s.table, m, run.pc)))
    decreases left
  {
    var run := s.running[w];
    if run.pc == End {
      n := 0;
      assert s.running[w := run.(pc := End)] == s.running && s.sent + [] == s.sent;
    } else {
      var m, t := s.accepted[run.job], Next(s, Step(w));
      OneStep(s, w);
      RestStep(s.table, m, run.pc);
      var k := RunsToEnd(t, w, StepsLeft(m, t.running[w].pc));
      n := k + 1;
      assert t.running[w := run.(pc := End)] == s.running[w := run.(pc := End)];
    }
  }

  /** The steps of a job by themselves send exactly what ClientTable.JobFunc sends, in its order, and
      so what the message is meant to lead to. */
  lemma JobAlone(s: State, w: nat) returns (n: nat)
    requires Shaped(s) && w in s.running && s.running[w].pc == Begin
    ensures var job := s.running[w].job; var m := s.accepted[job];
      && Stepped(s, w, n) == s.(running := s.running[w := Run(job, End)],
                                sent := s.sent + Labelled(job, Targets(s.table, m)))
      && Delivers(s.table, m, Targets(s.table, m))
  {
    n := RunsToEnd(s, w, StepsLeft(s.accepted[s.running[w].job], Begin));
    DeliversIff(s.table, s.accepted[s.running[w].job], Targets(s.table, s.accepted[s.running[w].job]));
  }
}
