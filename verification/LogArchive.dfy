/** Logging, rotation and the archive thread together: any interleaving of WriteLogToCache calls
    with the steps of MyLogCycleThread (framework/log/my_log.c). */
module LogArchive {
  import opened Wrappers
  import opened LogCache

  /** The archive thread waits for a token, has one, or has renamed the rotated file and holds it. */
  datatype Phase = Waiting | Took | Holding(held: Option<Text>)

  /** `archives` are the compressed files by their two-digit number; `packed` records what was
      compressed, in order. */
  datatype Archiver = Archiver(phase: Phase, index: nat, archives: map<nat, Text>, packed: seq<Text>)

  datatype State = State(size: nat, maxFileNum: nat, log: Log, archiver: Archiver)

  datatype Event =
    | Logs(call: Call, env: Env)   // WriteLogToCache, from any thread; with a NULL line on a timeout
    | TakeToken                    // line 451: sem_timedwait succeeds
    | Rename                       // line 429
    | Pack                         // lines 437-438 and 456, or line 456 alone when the rename failed
    | Removed                      // another process removes the live file

  ghost predicate Enabled(s: State, e: Event) {
    match e
    case Logs(call, env) =>
      CallReadable(call) && Fits(s.log, call) && env.written <= |s.log.text| + |Logged(call)|
    case TakeToken => s.archiver.phase == Waiting && s.log.files.tokens > 0
    case Rename => s.archiver.phase == Took
    case Pack => s.archiver.phase.Holding?
    case Removed => s.log.files.live.Some?
  }

  function PackStep(a: Archiver, maxFileNum: nat): Archiver
    requires a.phase.Holding? && maxFileNum > 0
  {
    var b := a.(phase := Waiting, index := (a.index + 1) % maxFileNum);
    if a.phase.held.None? then b
    else b.(archives := a.archives[a.index := a.phase.held.value], packed := a.packed + [a.phase.held.value])
  }

  ghost function Next(s: State, e: Event): State
    requires Enabled(s, e) && s.maxFileNum > 0
  {
    var f := s.log.files;
    match e
    case Logs(call, env) => s.(log := Write(s.log, s.size, call, env))
    case TakeToken => s.(log := s.log.(files := f.(tokens := f.tokens - 1)), archiver := s.archiver.(phase := Took))
    case Rename => s.(log := s.log.(files := f.(bak := None)), archiver := s.archiver.(phase := Holding(f.bak)))
    case Pack => s.(archiver := PackStep(s.archiver, s.maxFileNum))
    case Removed => s.(log := s.log.(files := f.(live := None)))
  }

  ghost predicate Leads(s: State, es: seq<Event>, t: State)
    requires s.maxFileNum > 0
    decreases |es|
  {
    if es == [] then s == t else Enabled(s, es[0]) && Leads(Next(s, es[0]), es[1..], t)
  }

  // ---------------------------------------------------------------- bounds

  /** Between calls at most 7168 bytes are waiting; the live file is never left above `size`; and
      every generation rotated out is above it, by no more than one cache. */
  ghost predicate Bounded(s: State) {
    var f := s.log.files;
    && |s.log.text| <= LOG_FLUSH_SIZE_MAX
    && |Contents(f.live)| <= s.size
    && forall g | 0 <= g < |f.rotated| :: s.size < |f.rotated[g]| <= s.size + LOG_CACHE_SIZE
  }

  lemma BoundedStep(s: State, e: Event)
    requires s.maxFileNum > 0 && Bounded(s) && Enabled(s, e)
    ensures Bounded(Next(s, e))
  {
  }

  lemma {:induction false} BoundedAlways(s: State, es: seq<Event>, t: State)
    requires s.maxFileNum > 0 && Bounded(s) && Leads(s, es, t)
    ensures Bounded(t)
    decreases |es|
  {
    if es != [] {
      BoundedStep(s, es[0]);
      BoundedAlways(Next(s, es[0]), es[1..], t);
    }
  }

  // ---------------------------------------------------------------- how long a line may be

  ghost predicate ShortLines(es: seq<Event>) {
    forall e | e in es && e.Logs? :: e.call.n <= LOG_LINE_MAX
  }

  /** `k` lines of 1024 bytes without a flush. */
  lemma {:induction false} FillsUp(s: State, k: nat) returns (es: seq<Event>, t: State)
    requires s.maxFileNum > 0 && |s.log.text| + k * LOG_LINE_MAX <= LOG_FLUSH_SIZE_MAX
    ensures Leads(s, es, t) && ShortLines(es) && |t.log.text| == |s.log.text| + k * LOG_LINE_MAX
    decreases k
  {
    if k == 0 {
      es, t := [], s;
    } else {
      var line: Text := seq(LOG_LINE_MAX, _ => 1);
      var e := Logs(Call(Some(line), LOG_LINE_MAX, s.log.lastTime), Env(true, 0));
      var rest;
      rest, t := FillsUp(Next(s, e), k - 1);
      es := [e] + rest;
      assert es[1..] == rest;
    }
  }

  /** After every run of lines of at most 1024 bytes there is room for `n` bytes more. */
  ghost predicate AlwaysFits(s: State, n: nat)
    requires s.maxFileNum > 0
  {
    forall es, t | Leads(s, es, t) && ShortLines(es) :: |t.log.text| + n <= LOG_CACHE_SIZE
  }

  lemma ShortFits(s: State, n: nat)
    requires s.maxFileNum > 0 && Bounded(s) && n <= LOG_LINE_MAX
    ensures AlwaysFits(s, n)
  {
    forall es, t | Leads(s, es, t) && ShortLines(es) ensures |t.log.text| + n <= LOG_CACHE_SIZE {
      BoundedAlways(s, es, t);
    }
  }

  /** Seven lines of the longest kind leave 7168 bytes waiting, so that a longer line does not fit:
      a line of `n` bytes is safe after every run of lines of at most 1024 bytes if and only if it is
      no longer than that. */
  lemma LineFitsIff(size: nat, maxFileNum: nat, now: nat, n: nat)
    requires maxFileNum > 0
    ensures AlwaysFits(Fresh(size, maxFileNum, now), n) <==> n <= LOG_LINE_MAX
  {
    var s := Fresh(size, maxFileNum, now);
    if n <= LOG_LINE_MAX {
      ShortFits(s, n);
    } else {
      var es, t := FillsUp(s, 7);
      assert |t.log.text| + n > LOG_CACHE_SIZE;
    }
  }

  // ---------------------------------------------------------------- conservation

  /** If this step flushes anything, the flush can do its work; and nobody removes filed text. */
  ghost predicate StepWorks(s: State, e: Event)
    requires Enabled(s, e)
  {
    && (e.Removed? ==> Contents(s.log.files.live) == [])
    && (e.Logs? && Flushes(s.log, e.call) && s.log.text + Logged(e.call) != [] ==>
      FlushWorks(s.log.files, s.log.text + Logged(e.call), e.env))
  }

  ghost predicate RunWorks(s: State, es: seq<Event>)
    requires s.maxFileNum > 0
    decreases |es|
  {
    es != [] && Enabled(s, es[0]) ==> StepWorks(s, es[0]) && RunWorks(Next(s, es[0]), es[1..])
  }

  ghost function LoggedBy(e: Event): Text {
    if e.Logs? && CallReadable(e.call) then Logged(e.call) else []
  }

  ghost function AllLogged(es: seq<Event>): Text {
    if es == [] then [] else LoggedBy(es[0]) + AllLogged(es[1..])
  }

  /** One step keeps the stream exactly when its flush, if it makes one, can do its work. */
  lemma StepConservesIff(s: State, e: Event)
    requires s.maxFileNum > 0 && Enabled(s, e)
    ensures Stream(Next(s, e).log) == Stream(s.log) + LoggedBy(e) <==> StepWorks(s, e)
  {
    if e.Logs? {
      var text := s.log.text + Logged(e.call);
      assert Stream(s.log) + LoggedBy(e) == Filed(s.log.files) + text;
      if Flushes(s.log, e.call) {
        assert Stream(Next(s, e).log) == Filed(Flush(s.log.files, s.size, text, e.env));
        if text != [] {
          FlushConservesIff(s.log.files, s.size, text, e.env);
        } else {
          EmptyFlushConserves(s.log.files, s.size, e.env);
        }
      }
    } else {
      var f := s.log.files;
      assert Stream(s.log) + [] == Stream(s.log);
      if e.Removed? && Contents(f.live) != [] {
        assert |Stream(Next(s, e).log)| < |Stream(s.log)|;
      }
    }
  }

  lemma EmptyFlushConserves(f: Files, size: nat, env: Env)
    requires env.written == 0
    ensures Filed(Flush(f, size, [], env)) == Filed(f)
  {
    var live := Contents(f.live) + [];
    assert live == Contents(f.live);
    ConcatAppend(f.rotated, live);
  }

  lemma Assoc(a: Text, b: Text, c: Text)
    ensures (a + b) + c == a + (b + c)
  {
  }

  lemma {:induction false} StreamAfter(s: State, es: seq<Event>, t: State)
    requires s.maxFileNum > 0 && Leads(s, es, t) && RunWorks(s, es)
    ensures Stream(t.log) == Stream(s.log) + AllLogged(es)
    decreases |es|
  {
    if es != [] {
      var u := Next(s, es[0]);
      StepConservesIff(s, es[0]);
      StreamAfter(u, es[1..], t);
      Assoc(Stream(s.log), LoggedBy(es[0]), AllLogged(es[1..]));
    }
  }

  /** A call whose text fits can be made, and adds just that text to the stream when its flush, if it
      makes one, can do its work. */
  lemma LineIsLogged(s: State, call: Call, env: Env, text: Text)
    requires s.maxFileNum > 0 && Contributes(call, text)
    requires |s.log.text| + |text| <= LOG_CACHE_SIZE && env.written <= |s.log.text| + |text|
    ensures Enabled(s, Logs(call, env))
    ensures StepWorks(s, Logs(call, env)) ==> Stream(Next(s, Logs(call, env)).log) == Stream(s.log) + text
  {
    ContributesIff(call, text);
    StepConservesIff(s, Logs(call, env));
  }

  /** What an event adds to the log. */
  ghost predicate AddsText(e: Event, text: Text) {
    if e.Logs? then Contributes(e.call, text) else text == []
  }

  lemma {:induction false} ConcatFront(first: Text, rest: seq<Text>)
    ensures Concat([first] + rest) == first + Concat(rest)
  {
    if rest == [] {
      assert [first] + rest == [first] && [first][..0] == [];
    } else {
      var last := |rest| - 1;
      assert ([first] + rest)[..last + 1] == [first] + rest[..last];
      ConcatFront(first, rest[..last]);
      Assoc(first, Concat(rest[..last]), rest[last]);
    }
  }

  ghost predicate AddTexts(es: seq<Event>, texts: seq<Text>) {
    |texts| == |es| && (es != [] ==> AddsText(es[0], texts[0]) && AddTexts(es[1..], texts[1..]))
  }

  lemma {:induction false} AllLoggedIsTexts(es: seq<Event>, texts: seq<Text>)
    requires AddTexts(es, texts)
    ensures AllLogged(es) == Concat(texts)
  {
    if es != [] {
      if es[0].Logs? {
        ContributesIff(es[0].call, texts[0]);
      }
      AllLoggedIsTexts(es[1..], texts[1..]);
      ConcatFront(texts[0], texts[1..]);
      assert texts == [texts[0]] + texts[1..];
    }
  }

  /** Along a run whose flushes work, the rotated generations, the live file and the cache together
      are the texts of all calls in order. */
  lemma StreamConserved(s: State, es: seq<Event>, t: State, texts: seq<Text>)
    requires s.maxFileNum > 0 && Leads(s, es, t) && RunWorks(s, es) && AddTexts(es, texts)
    ensures Concat(t.log.files.rotated) + Contents(t.log.files.live) + t.log.text == Stream(s.log) + Concat(texts)
  {
    StreamAfter(s, es, t);
    AllLoggedIsTexts(es, texts);
  }

  // ---------------------------------------------------------------- the archive ring

  /** Generations rotated out and not compressed yet: held by the thread, and waiting as .bak. */
  function InTransit(s: State): seq<Text> {
    (if s.archiver.phase.Holding? && s.archiver.phase.held.Some? then [s.archiver.phase.held.value] else []) +
    (if s.log.files.bak.Some? then [s.log.files.bak.value] else [])
  }

  /** No generation has been lost on the way to the archives. */
  ghost predicate NoneLost(s: State) {
    s.log.files.rotated == s.archiver.packed + InTransit(s)
  }

  /** The tokens and the rotated files match. */
  ghost predicate TokensMatch(s: State) {
    && s.log.files.tokens + (if s.archiver.phase == Took then 1 else 0) == (if s.log.files.bak.Some? then 1 else 0)
    && (s.archiver.phase.Holding? ==> s.archiver.phase.held.Some?)
  }

  /** The archives are the last `maxFileNum` packed generations, generation g under g % maxFileNum. */
  ghost predicate Window(a: Archiver, maxFileNum: nat)
    requires maxFileNum > 0
  {
    var k := |a.packed|;
    && a.index == k % maxFileNum
    && (forall g: nat {:trigger a.packed[g]} | g < k <= g + maxFileNum ::
          g % maxFileNum in a.archives && a.archives[g % maxFileNum] == a.packed[g])
    && (forall i | i in a.archives :: InWindow(i, k, maxFileNum))
  }

  ghost predicate InWindow(i: nat, k: nat, maxFileNum: nat)
    requires maxFileNum > 0
  {
    exists g: nat :: g < k <= g + maxFileNum && g % maxFileNum == i
  }

  lemma MulGrows(n: int, d: int)
    requires n > 0
    ensures (d >= 1 ==> n * d >= n) && (d <= -1 ==> n * d <= -n)
  {
  }

  lemma ModUnique(x: int, n: int, q: int, r: int)
    requires 0 <= r < n && x == n * q + r
    ensures x % n == r
  {
    MulGrows(n, x / n - q);
    assert n * (x / n - q) == r - x % n;
  }

  lemma ModApart(g: nat, k: nat, n: nat)
    requires g < k < g + n
    ensures g % n != k % n
  {
    var q, r := g / n, g % n + (k - g);
    if r < n {
      ModUnique(k, n, q, r);
    } else {
      ModUnique(k, n, q + 1, r - n);
    }
  }

  lemma ModNext(k: nat, n: nat)
    requires n > 0
    ensures (k % n + 1) % n == (k + 1) % n && (k + n) % n == k % n && k % n < n
  {
    var q, r := k / n, k % n;
    ModUnique(k + n, n, q + 1, r);
    if r + 1 < n {
      ModUnique(k + 1, n, q, r + 1);
      ModUnique(r + 1, n, 0, r + 1);
    } else {
      ModUnique(k + 1, n, q + 1, 0);
      ModUnique(r + 1, n, 1, 0);
    }
  }

  /** The window does not depend on what the thread is doing. */
  lemma WindowSame(a: Archiver, b: Archiver, maxFileNum: nat)
    requires maxFileNum > 0 && Window(a, maxFileNum) && b == a.(phase := b.phase)
    ensures Window(b, maxFileNum)
  {
    forall g: nat | g < |b.packed| <= g + maxFileNum
      ensures g % maxFileNum in b.archives && b.archives[g % maxFileNum] == b.packed[g]
    {
      assert a.packed[g] == b.packed[g];
    }
  }

  lemma WindowPack(a: Archiver, maxFileNum: nat)
    requires maxFileNum > 0 && a.phase.Holding? && a.phase.held.Some? && Window(a, maxFileNum)
    ensures Window(PackStep(a, maxFileNum), maxFileNum)
  {
    var b, k := PackStep(a, maxFileNum), |a.packed|;
    ModNext(k, maxFileNum);
    forall g: nat | g < k + 1 <= g + maxFileNum
      ensures g % maxFileNum in b.archives && b.archives[g % maxFileNum] == b.packed[g]
    {
      if g < k {
        ModApart(g, k, maxFileNum);
        assert a.packed[g] == b.packed[g];
      }
    }
    forall i | i in b.archives ensures InWindow(i, k + 1, maxFileNum) {
      if i == a.index {
        assert k < k + 1 <= k + maxFileNum && k % maxFileNum == i;
      } else {
        assert InWindow(i, k, maxFileNum);
        var g: nat :| g < k <= g + maxFileNum && g % maxFileNum == i;
        if k == g + maxFileNum {
          ModNext(g, maxFileNum);
        }
        assert g < k + 1 <= g + maxFileNum;
      }
    }
  }

  /** This step does not rotate while a rotated file is still waiting. */
  ghost predicate Prompt(s: State, e: Event)
    requires s.maxFileNum > 0 && Enabled(s, e)
  {
    |Next(s, e).log.files.rotated| > |s.log.files.rotated| ==> s.log.files.bak == None
  }

  /** A step loses a generation exactly when it rotates over one that is still waiting. */
  lemma NoneLostIff(s: State, e: Event)
    requires s.maxFileNum > 0 && Enabled(s, e) && NoneLost(s)
    ensures NoneLost(Next(s, e)) <==> Prompt(s, e)
  {
    var t := Next(s, e);
    match e
    case Logs(call, env) =>
      if |t.log.files.rotated| > |s.log.files.rotated| {
        var live := t.log.files.rotated[|s.log.files.rotated|];
        assert t.log.files.rotated == s.log.files.rotated + [live] && t.log.files.bak == Some(live);
        if s.log.files.bak == None {
          assert InTransit(t) == InTransit(s) + [live];
          assert s.archiver.packed + (InTransit(s) + [live]) == (s.archiver.packed + InTransit(s)) + [live];
        } else {
          assert |InTransit(t)| == |InTransit(s)|;
        }
      } else {
        assert t.log.files.rotated == s.log.files.rotated && t.log.files.bak == s.log.files.bak;
      }
    case TakeToken =>
    case Removed => assert InTransit(t) == InTransit(s);
    case Rename => assert InTransit(t) == InTransit(s);
    case Pack =>
      if s.archiver.phase.held.Some? {
        var x := s.archiver.phase.held.value;
        assert (s.archiver.packed + [x]) + InTransit(t) == s.archiver.packed + InTransit(s);
      }
  }

  lemma TokensMatchStep(s: State, e: Event)
    requires s.maxFileNum > 0 && Enabled(s, e) && TokensMatch(s) && Prompt(s, e)
    ensures TokensMatch(Next(s, e))
  {
  }

  ghost predicate PromptRun(s: State, es: seq<Event>)
    requires s.maxFileNum > 0
    decreases |es|
  {
    es != [] && Enabled(s, es[0]) ==> Prompt(s, es[0]) && PromptRun(Next(s, es[0]), es[1..])
  }

  ghost predicate ArchiveInv(s: State)
    requires s.maxFileNum > 0
  {
    NoneLost(s) && TokensMatch(s) && Window(s.archiver, s.maxFileNum)
  }

  lemma {:induction false} ArchiveInvAlways(s: State, es: seq<Event>, t: State)
    requires s.maxFileNum > 0 && ArchiveInv(s) && Leads(s, es, t) && PromptRun(s, es)
    ensures t.maxFileNum == s.maxFileNum && ArchiveInv(t)
    decreases |es|
  {
    if es != [] {
      var u := Next(s, es[0]);
      NoneLostIff(s, es[0]);
      TokensMatchStep(s, es[0]);
      if es[0] == Pack {
        WindowPack(s.archiver, s.maxFileNum);
      } else {
        WindowSame(s.archiver, u.archiver, s.maxFileNum);
      }
      ArchiveInvAlways(u, es[1..], t);
    }
  }

  function Fresh(size: nat, maxFileNum: nat, now: nat): State {
    State(size, maxFileNum, Logging([], now, Files(false, None, None, 0, [])), Archiver(Waiting, 0, map[], []))
  }

  /** If each rotation finds the previous one picked up, then once the thread has caught up the
      archives are exactly the last min(k, maxFileNum) of the k generations rotated out. */
  lemma ArchivesAreTheLast(size: nat, maxFileNum: nat, now: nat, es: seq<Event>, t: State)
    requires maxFileNum > 0 && Leads(Fresh(size, maxFileNum, now), es, t) && PromptRun(Fresh(size, maxFileNum, now), es)
    requires t.log.files.tokens == 0 && t.archiver.phase == Waiting
    ensures var k := |t.log.files.rotated|;
      && (forall g: nat | g < k <= g + maxFileNum ::
            g % maxFileNum in t.archiver.archives && t.archiver.archives[g % maxFileNum] == t.log.files.rotated[g])
      && (forall i | i in t.archiver.archives :: i < maxFileNum && InWindow(i, k, maxFileNum))
  {
    ArchiveInvAlways(Fresh(size, maxFileNum, now), es, t);
    assert InTransit(t) == [];
    assert t.archiver.packed == t.log.files.rotated;
    forall g: nat | g < |t.log.files.rotated| <= g + maxFileNum
      ensures g % maxFileNum in t.archiver.archives && t.archiver.archives[g % maxFileNum] == t.log.files.rotated[g]
    {
      assert t.archiver.packed[g] == t.log.files.rotated[g];
    }
    forall i | i in t.archiver.archives ensures i < maxFileNum && InWindow(i, |t.log.files.rotated|, maxFileNum) {
      assert InWindow(i, |t.archiver.packed|, maxFileNum);
      var g: nat :| g % maxFileNum == i;
      ModNext(g, maxFileNum);
    }
  }

  // ---------------------------------------------------------------- generations that are lost

  /** How many generations have been rotated out and are neither packed nor on the way. */
  function Missing(s: State): int {
    |s.log.files.rotated| - |s.archiver.packed| - |InTransit(s)|
  }

  lemma MissingStep(s: State, e: Event)
    requires s.maxFileNum > 0 && Enabled(s, e)
    ensures Missing(Next(s, e)) == Missing(s) + (if Prompt(s, e) then 0 else 1)
  {
  }

  lemma {:induction false} MissingAlways(s: State, es: seq<Event>, t: State)
    requires s.maxFileNum > 0 && Leads(s, es, t)
    ensures Missing(t) >= Missing(s) && (PromptRun(s, es) <==> Missing(t) == Missing(s))
    decreases |es|
  {
    if es != [] {
      MissingStep(s, es[0]);
      MissingAlways(Next(s, es[0]), es[1..], t);
    }
  }

  /** At the end of a run every generation is in the record of what was packed, or on the way there, if
      and only if no rotation of the run found the previous one still waiting. */
  lemma GenerationsKeptIff(size: nat, maxFileNum: nat, now: nat, es: seq<Event>, t: State)
    requires maxFileNum > 0 && Leads(Fresh(size, maxFileNum, now), es, t)
    ensures NoneLost(t) <==> PromptRun(Fresh(size, maxFileNum, now), es)
  {
    var s := Fresh(size, maxFileNum, now);
    MissingAlways(s, es, t);
    if PromptRun(s, es) {
      ArchiveInvAlways(s, es, t);
    }
  }

  lemma LeadsFirst(s: State, e: Event, es: seq<Event>, t: State)
    requires s.maxFileNum > 0 && Enabled(s, e) && Leads(Next(s, e), es, t)
    ensures Leads(s, [e] + es, t)
  {
    assert ([e] + es)[1..] == es;
  }

  lemma {:induction false} LeadsOn(s: State, es: seq<Event>, t: State, more: seq<Event>, u: State)
    requires s.maxFileNum > 0 && t.maxFileNum > 0 && Leads(s, es, t) && Leads(t, more, u)
    ensures Leads(s, es + more, u)
    decreases |es|
  {
    if es == [] {
      assert es + more == more;
    } else {
      LeadsOn(Next(s, es[0]), es[1..], t, more, u);
      LeadsFirst(s, es[0], es[1..] + more, u);
      assert [es[0]] + (es[1..] + more) == es + more;
    }
  }

  lemma LoggedWhole(line: Text, now: nat)
    requires |line| == LOG_LINE_MAX && 0 !in line
    ensures Logged(Call(Some(line), LOG_LINE_MAX, now)) == line
  {
    assert line[..LOG_LINE_MAX] == line;
  }

  lemma WritesAtOnce(log: Log, size: nat, line: Text, call: Call, env: Env)
    requires log.text == [] && CallReadable(call) && Logged(call) == line && env.written == |line|
    requires call.now == log.lastTime + LOG_TIME_OUT + 1
    ensures Write(log, size, call, env) == Logging([], call.now, Flush(log.files, size, line, env))
  {
    assert log.text + Logged(call) == line;
  }

  lemma FlushesWhole(f: Files, size: nat, data: Text) returns (live: Text)
    requires f.isOpen ==> f.live.Some?
    ensures |live| == |Contents(f.live)| + |data|
    ensures Flush(f, size, data, Env(true, |data|)) ==
      (if size < |live| then Files(false, None, Some(live), f.tokens + 1, f.rotated + [live])
       else f.(isOpen := true, live := Some(live)))
  {
    live := Contents(f.live) + data;
    assert data[..|data|] == data;
  }

  /** A line of 1024 bytes more than three seconds after the last flush is filed at once. */
  lemma FilesALine(s: State) returns (e: Event, t: State, live: Text)
    requires s.maxFileNum > 0 && s.log.text == [] && (s.log.files.isOpen ==> s.log.files.live.Some?)
    ensures Enabled(s, e) && t == Next(s, e) && t.log.text == [] && t == s.(log := t.log)
    ensures |live| == |Contents(s.log.files.live)| + LOG_LINE_MAX
    ensures var f := s.log.files;
      t.log.files == (if s.size < |live| then Files(false, None, Some(live), f.tokens + 1, f.rotated + [live])
                      else f.(isOpen := true, live := Some(live)))
  {
    var line: Text := seq(LOG_LINE_MAX, _ => 1);
    var call := Call(Some(line), LOG_LINE_MAX, s.log.lastTime + LOG_TIME_OUT + 1);
    e := Logs(call, Env(true, LOG_LINE_MAX));
    LoggedWhole(line, call.now);
    WritesAtOnce(s.log, s.size, line, call, e.env);
    live := FlushesWhole(s.log.files, s.size, line);
    t := Next(s, e);
  }

  /** Such lines until the live file is rotated out. */
  lemma {:induction false} RotatesOnce(s: State, left: nat) returns (es: seq<Event>, t: State)
    requires s.maxFileNum > 0 && s.log.text == [] && |Contents(s.log.files.live)| + left == s.size + 1
    requires s.log.files.isOpen ==> s.log.files.live.Some?
    ensures Leads(s, es, t) && t.log.text == [] && t == s.(log := t.log) && t.log.files.bak.Some?
    ensures t.log.files == Files(false, None, t.log.files.bak, s.log.files.tokens + 1,
                                 s.log.files.rotated + [t.log.files.bak.value])
    decreases left
  {
    var e, u, _ := FilesALine(s);
    var rest;
    if left <= LOG_LINE_MAX {
      rest, t := [], u;
    } else {
      rest, t := RotatesOnce(u, left - LOG_LINE_MAX);
    }
    LeadsFirst(s, e, rest, t);
    es := [e] + rest;
  }

  /** A second rotation before the archive thread has picked up the first: the first generation is lost,
      and the token that is left over advances the index past a number that was not used. */
  lemma LostGeneration(size: nat, maxFileNum: nat, now: nat) returns (es: seq<Event>, t: State)
    requires maxFileNum > 0
    ensures Leads(Fresh(size, maxFileNum, now), es, t) && !NoneLost(t)
    ensures t.log.files.tokens == 0 && t.archiver.phase == Waiting && InTransit(t) == []
    ensures |t.log.files.rotated| == 2 && t.archiver.packed == [t.log.files.rotated[1]]
    ensures t.archiver.index == 2 % maxFileNum && t.archiver.archives.Keys == {0}
  {
    var s := Fresh(size, maxFileNum, now);
    var a, s1 := RotatesOnce(s, size + 1);
    var b, s2 := RotatesOnce(s1, size + 1);
    LeadsOn(s, a, s1, b, s2);
    var c;
    c, t := PacksTwice(s2);
    LeadsOn(s, a + b, s2, c, t);
    es := (a + b) + c;
  }

  lemma PacksTwice(s: State) returns (es: seq<Event>, t: State)
    requires s.maxFileNum > 0 && s.archiver == Archiver(Waiting, 0, map[], [])
    requires s.log.files.tokens == 2 && s.log.files.bak.Some?
    ensures Leads(s, es, t) && t.archiver.phase == Waiting && t.log.files.tokens == 0 && InTransit(t) == []
    ensures t.log.files.rotated == s.log.files.rotated && t.archiver.packed == [s.log.files.bak.value]
    ensures t.archiver.index == 2 % s.maxFileNum && t.archiver.archives.Keys == {0}
  {
    var n := s.maxFileNum;
    ModNext(1, n);
    var s1 := Next(Next(Next(s, TakeToken), Rename), Pack);
    assert s1.archiver == Archiver(Waiting, 1 % n, map[0 := s.log.files.bak.value], [s.log.files.bak.value]);
    t := Next(Next(Next(s1, TakeToken), Rename), Pack);
    var round := [TakeToken, Rename, Pack];
    OneRound(s, s1);
    OneRound(s1, t);
    LeadsOn(s, round, s1, round, t);
    es := round + round;
  }

  lemma OneRound(s: State, t: State)
    requires s.maxFileNum > 0 && s.archiver.phase == Waiting && s.log.files.tokens > 0
    requires t == Next(Next(Next(s, TakeToken), Rename), Pack)
    ensures Leads(s, [TakeToken, Rename, Pack], t)
  {
    var u := Next(s, TakeToken);
    var v := Next(u, Rename);
    assert Leads(t, [], t);
    LeadsFirst(v, Pack, [], t);
    LeadsFirst(u, Rename, [Pack] + [], t);
    LeadsFirst(s, TakeToken, [Rename] + ([Pack] + []), t);
    assert [TakeToken] + ([Rename] + ([Pack] + [])) == [TakeToken, Rename, Pack];
  }

  // ---------------------------------------------------------------- survival

  /** How many tokens the thread is done with in the run. */
  ghost function Packs(es: seq<Event>): nat {
    if es == [] then 0 else (if es[0] == Pack then 1 else 0) + Packs(es[1..])
  }

  /** Whatever else happens, an archive is not overwritten while the thread gets through fewer than
      maxFileNum tokens after it was written. */
  lemma {:induction false} ArchiveSurvives(s: State, es: seq<Event>, t: State, at: nat)
    requires s.maxFileNum > 0 && s.archiver.index < s.maxFileNum && Leads(s, es, t)
    requires at < s.maxFileNum && at in s.archiver.archives
    requires Packs(es) <= (at - s.archiver.index) % s.maxFileNum
    ensures at in t.archiver.archives && t.archiver.archives[at] == s.archiver.archives[at]
    decreases |es|
  {
    if es != [] {
      var n := s.maxFileNum;
      if es[0] == Pack {
        ModStepTowards(at, s.archiver.index, n);
      }
      ArchiveSurvives(Next(s, es[0]), es[1..], t, at);
    }
  }

  /** The distance from the index to `at` around the ring goes down by one. */
  lemma ModStepTowards(at: nat, index: nat, n: nat)
    requires at < n && index < n && (at - index) % n > 0
    ensures at != index && (index + 1) % n < n
    ensures (at - (index + 1) % n) % n == (at - index) % n - 1
  {
    if at >= index {
      ModUnique(at - index, n, 0, at - index);
    } else {
      ModUnique(at - index, n, -1, at - index + n);
    }
    if index + 1 < n {
      ModUnique(index + 1, n, 0, index + 1);
    } else {
      ModUnique(index + 1, n, 1, 0);
    }
    var i := (index + 1) % n;
    if at >= i {
      ModUnique(at - i, n, 0, at - i);
    } else {
      ModUnique(at - i, n, -1, at - i + n);
    }
  }

  lemma ModAdd(a: nat, b: nat, n: nat)
    requires n > 0
    ensures (a % n + b) % n == (a + b) % n
  {
    var x := a % n + b;
    ModUnique(a + b, n, a / n + x / n, x % n);
  }

  lemma IndexStep(index: nat, next: nat, packs: nat, n: nat)
    requires n > 0 && next == (index + 1) % n
    ensures next < n && (next + packs) % n == (index + (1 + packs)) % n
  {
    ModNext(index + 1, n);
    ModAdd(index + 1, packs, n);
  }

  /** In every run the index stays below maxFileNum: it counts the tokens that the thread is done with. */
  lemma {:induction false} IndexCountsTokens(s: State, es: seq<Event>, t: State)
    requires s.maxFileNum > 0 && s.archiver.index < s.maxFileNum && Leads(s, es, t)
    ensures t.archiver.index < s.maxFileNum
    ensures t.archiver.index == (s.archiver.index + Packs(es)) % s.maxFileNum
    decreases |es|
  {
    var n, i := s.maxFileNum, s.archiver.index;
    if es == [] {
      ModUnique(i, n, 0, i);
    } else {
      var u := Next(s, es[0]);
      if es[0] == Pack {
        IndexStep(i, u.archiver.index, Packs(es[1..]), n);
        assert Packs(es) == 1 + Packs(es[1..]);
      } else {
        assert u.archiver.index == i && Packs(es) == Packs(es[1..]);
      }
      IndexCountsTokens(u, es[1..], t);
    }
  }
}
