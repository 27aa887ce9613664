/** The log cache and the rotation of the live file (framework/log/my_log.c). */
module LogCache {
  import opened Wrappers

  const LOG_CACHE_SIZE := 8 * 1024
  const LOG_LINE_MAX := 1024
  const LOG_FLUSH_SIZE_MAX := LOG_CACHE_SIZE - LOG_LINE_MAX
  const LOG_TIME_OUT := 3

  type Byte = b: int | 0 <= b < 256
  type Text = seq<Byte>

  // ---------------------------------------------------------------- strncpy

  /** strncpy, having copied `i` bytes, can go on to `n`: `src` is long enough or has a NUL ahead. */
  ghost predicate ReadableFrom(src: Text, i: nat, n: nat) {
    n <= |src| || exists z :: i <= z < |src| && src[z] == 0
  }

  /** The first NUL of `src` in `src[i..n]`; n when there is none. */
  ghost function NulBefore(src: Text, i: nat, n: nat): (k: nat)
    requires i <= n && ReadableFrom(src, i, n)
    ensures i <= k <= n && (forall j | i <= j < k :: j < |src| && src[j] != 0) && (k < n ==> k < |src| && src[k] == 0)
    decreases n - i
  {
    if i == n || src[i] == 0 then i else NulBefore(src, i + 1, n)
  }

  /** `src` holds a string for strncpy to read `n` bytes of: it is long enough or ends in NUL. */
  predicate Readable(src: Text, n: nat) {
    n <= |src| || 0 in src
  }

  /** What strncpy(dst, src, n) stores: the string up to its NUL, then zeros. */
  ghost function Copied(src: Text, n: nat): (t: Text)
    requires Readable(src, n)
    ensures |t| == n
    ensures n <= |src| && 0 !in src[..n] ==> t == src[..n]
  {
    var k := NulBefore(src, 0, n);
    src[..k] + seq(n - k, _ => 0)
  }

  /** The first half of strncpy: the string up to its NUL. */
  method CopyString(dst: array<Byte>, at: nat, src: Text, n: nat) returns (z: nat)
    requires at + n <= dst.Length && Readable(src, n)
    modifies dst
    ensures z == NulBefore(src, 0, n) && z <= |src|
    ensures dst[..] == old(dst[..at]) + src[..z] + old(dst[at + z..])
  {
    z := 0;
    while z < n && src[z] != 0
      invariant 0 <= z <= n && z <= |src| && ReadableFrom(src, z, n)
      invariant NulBefore(src, 0, n) == NulBefore(src, z, n)
      invariant forall k | 0 <= k < dst.Length :: dst[k] == (if at <= k < at + z then src[k - at] else old(dst[k]))
    {
      dst[at + z] := src[z];
      z := z + 1;
    }
  }

  /** The second half: zeros from `at` up to `end`. */
  method PadZeros(dst: array<Byte>, at: nat, end: nat)
    requires at <= end <= dst.Length
    modifies dst
    ensures dst[..] == old(dst[..at]) + seq(end - at, _ => 0) + old(dst[end..])
  {
    var i := at;
    while i < end
      invariant at <= i <= end
      invariant dst[..] == old(dst[..at]) + seq(i - at, _ => 0) + old(dst[i..])
    {
      dst[i] := 0;
      i := i + 1;
    }
  }

  /** strncpy into `dst` from position `at` on. */
  method StrNCpy(dst: array<Byte>, at: nat, src: Text, n: nat)
    requires at + n <= dst.Length && Readable(src, n)
    modifies dst
    ensures dst[..] == old(dst[..at]) + Copied(src, n) + old(dst[at + n..])
  {
    var z := CopyString(dst, at, src, n);
    PadZeros(dst, at + z, at + n);
  }

  // ---------------------------------------------------------------- the files

  /** `live` is the log file, `bak` the rotated one waiting to be archived, `tokens` the value of
      g_timedSem; `rotated` records every generation that was rotated out. */
  datatype Files = Files(isOpen: bool, live: Option<Text>, bak: Option<Text>, tokens: nat, rotated: seq<Text>)

  /** What the system calls of a flush answer: whether open succeeds and how much write takes. */
  datatype Env = Env(openOk: bool, written: nat)

  function Contents(f: Option<Text>): Text {
    if f.Some? then f.value else []
  }

  /** WriteLogToFile. */
  function Flush(f: Files, size: nat, data: Text, env: Env): Files
    requires env.written <= |data|
  {
    if f.isOpen && f.live.None? then f.(isOpen := false)
    else if !f.isOpen && !env.openOk then f
    else
      var live := Contents(f.live) + data[..env.written];
      if size < |live| then Files(false, None, Some(live), f.tokens + 1, f.rotated + [live])
      else f.(isOpen := true, live := Some(live))
  }

  function Concat(parts: seq<Text>): Text {
    if parts == [] then [] else Concat(parts[..|parts| - 1]) + parts[|parts| - 1]
  }

  /** Everything that was ever written to the log file, in order. */
  function Filed(f: Files): Text {
    Concat(f.rotated) + Contents(f.live)
  }

  /** The flush can do its work: an open log file still exists, a closed one can be opened, and the
      whole of the data is taken. */
  predicate FlushWorks(f: Files, data: Text, env: Env) {
    (if f.isOpen then f.live.Some? else env.openOk) && env.written == |data|
  }

  lemma ConcatAppend(parts: seq<Text>, last: Text)
    ensures Concat(parts + [last]) == Concat(parts) + last
  {
    assert (parts + [last])[..|parts|] == parts;
  }

  /** A flush adds its data to what is filed, and nothing else, exactly when it can do its work. */
  lemma FlushConservesIff(f: Files, size: nat, data: Text, env: Env)
    requires env.written <= |data| && data != []
    ensures Filed(Flush(f, size, data, env)) == Filed(f) + data <==> FlushWorks(f, data, env)
  {
    var g := Flush(f, size, data, env);
    var live := Contents(f.live) + data[..env.written];
    ConcatAppend(f.rotated, live);
    if (f.isOpen && f.live.None?) || (!f.isOpen && !env.openOk) {
      assert |Filed(g)| < |Filed(f) + data|;
    } else {
      assert Filed(g) == Filed(f) + data[..env.written] by {
        assert Concat(f.rotated) + live == Filed(f) + data[..env.written];
      }
      assert data[..|data|] == data;
      assert |Filed(g)| == |Filed(f)| + env.written;
    }
  }

  /** Whatever a flush has met, the next one files its data if open and write do their part: a flush that
      finds the log file removed closes it, and the next one makes a new file. */
  lemma NextFlushFiles(f: Files, size: nat, data: Text, env: Env, more: Text)
    requires env.written <= |data|
    ensures var g := Flush(f, size, data, env);
      && (g.isOpen ==> g.live.Some?)
      && (f.isOpen && f.live.None? ==> g == f.(isOpen := false))
      && Filed(Flush(g, size, more, Env(true, |more|))) == Filed(g) + more
  {
    var g := Flush(f, size, data, env);
    var live := Contents(g.live) + more;
    assert more[..|more|] == more;
    ConcatAppend(g.rotated, live);
    assert Concat(g.rotated) + live == Filed(g) + more;
  }

  // ---------------------------------------------------------------- the cache

  /** `text` is the first `offset` bytes of g_logCache. */
  datatype Log = Logging(text: Text, lastTime: nat, files: Files)

  /** One WriteLogToCache call: a line (None is NULL) of which `n` bytes are logged, and the clock. */
  datatype Call = Call(line: Option<Text>, n: nat, now: nat)

  predicate CallReadable(call: Call) {
    call.line.Some? ==> Readable(call.line.value, call.n)
  }

  ghost function Logged(call: Call): (t: Text)
    requires CallReadable(call)
    ensures |t| <= call.n
  {
    if call.line.Some? then Copied(call.line.value, call.n) else []
  }

  /** `line` as a string of at most `n` bytes ends at `z`. */
  predicate StringEnds(line: Text, z: nat, n: nat) {
    && z <= n && z <= |line| && (forall j | 0 <= j < z :: line[j] != 0)
    && (z < n ==> z < |line| && line[z] == 0)
  }

  /** What a call is meant to log: the string, with zeros for what `n` counts beyond it; NULL is nothing. */
  ghost predicate Contributes(call: Call, text: Text) {
    match call.line
    case None => text == []
    case Some(line) =>
      exists z: nat :: StringEnds(line, z, call.n) && text == line[..z] + seq(call.n - z, _ => 0)
  }

  lemma StringEndsOnce(line: Text, z: nat, y: nat, n: nat)
    requires StringEnds(line, z, n) && StringEnds(line, y, n)
    ensures z == y
  {
  }

  lemma StringIsReadable(line: Text, z: nat, n: nat)
    requires StringEnds(line, z, n)
    ensures Readable(line, n)
  {
    if z < n {
      assert line[z] == 0;
    }
  }

  /** A call logs what it is meant to, and nothing else. */
  lemma ContributesIff(call: Call, text: Text)
    ensures Contributes(call, text) ==> CallReadable(call)
    ensures CallReadable(call) ==> (Contributes(call, text) <==> text == Logged(call))
  {
    if call.line.Some? {
      var line, n := call.line.value, call.n;
      if Contributes(call, text) {
        var z: nat :| StringEnds(line, z, n) && text == line[..z] + seq(n - z, _ => 0);
        StringIsReadable(line, z, n);
        StringEndsOnce(line, z, NulBefore(line, 0, n), n);
      }
      if Readable(line, n) {
        assert StringEnds(line, NulBefore(line, 0, n), n);
      }
    }
  }

  /** A line without NUL is logged as it is. */
  lemma PlainLine(line: Text, n: nat, now: nat)
    requires n <= |line| && 0 !in line[..n]
    ensures Contributes(Call(Some(line), n, now), line[..n])
  {
    forall j | 0 <= j < n ensures line[j] != 0 {
      assert line[j] == line[..n][j];
    }
    assert StringEnds(line, n, n) && line[..n] + seq(n - n, _ => 0) == line[..n];
  }

  /** The copy of the line stays inside g_logCache. */
  ghost predicate Fits(log: Log, call: Call)
    requires CallReadable(call)
  {
    |log.text| + |Logged(call)| <= LOG_CACHE_SIZE
  }

  ghost predicate Flushes(log: Log, call: Call)
    requires CallReadable(call)
  {
    var last := if call.now < log.lastTime then call.now else log.lastTime;
    |log.text| + |Logged(call)| > LOG_FLUSH_SIZE_MAX || call.now - last > LOG_TIME_OUT
  }

  ghost function Write(log: Log, size: nat, call: Call, env: Env): Log
    requires CallReadable(call) && env.written <= |log.text| + |Logged(call)|
  {
    var last := if call.now < log.lastTime then call.now else log.lastTime;
    var text := log.text + Logged(call);
    if Flushes(log, call) then Logging([], call.now, Flush(log.files, size, text, env))
    else Logging(text, last, log.files)
  }

  /** A call, also one with NULL, that leaves more than 7168 bytes waiting or comes more than 3 seconds
      after the last flush empties the cache; any other call leaves the files alone. */
  lemma WriteFlushesIff(log: Log, size: nat, call: Call, env: Env)
    requires CallReadable(call) && env.written <= |log.text| + |Logged(call)|
    ensures var more := if call.line.Some? then call.n else 0;
      var last := if call.now < log.lastTime then call.now else log.lastTime;
      var after := Write(log, size, call, env);
      if |log.text| + more > 7168 || call.now - last > 3
      then after.text == [] && after.lastTime == call.now
      else after.files == log.files && after.lastTime == last && |after.text| == |log.text| + more
           && log.text <= after.text
  {
  }

  /** All that was logged so far: the filed text and the cache. */
  function Stream(log: Log): Text {
    Filed(log.files) + log.text
  }

  class Logger {
    const cache: array<Byte>
    const size: nat
    var offset: nat
    var lastTime: nat
    var files: Files

    ghost predicate Valid()
      reads this
    {
      cache.Length == LOG_CACHE_SIZE && offset <= LOG_FLUSH_SIZE_MAX
    }

    ghost function Shown(): Log
      requires Valid()
      reads this, cache
    {
      Logging(cache[..offset], lastTime, files)
    }

    constructor (size: nat, files: Files)
      ensures Valid() && fresh(cache) && this.size == size && Shown() == Logging([], 0, files)
    {
      cache := new Byte[LOG_CACHE_SIZE](_ => 0);
      this.size, this.files := size, files;
      offset, lastTime := 0, 0;
    }

    method WriteLogToFile(writeLen: nat, env: Env)
      requires writeLen <= cache.Length && env.written <= writeLen
      modifies this`files
      ensures files == Flush(old(files), size, cache[..writeLen], env)
    {
      if files.isOpen && files.live.None? {
        files := files.(isOpen := false);
        return;
      }
      if !files.isOpen {
        if !env.openOk {
          return;
        }
        files := files.(isOpen := true, live := Some(Contents(files.live)));
      }
      assert cache[..writeLen][..env.written] == cache[..env.written];
      files := files.(live := Some(Contents(files.live) + cache[..env.written]));
      if size < |files.live.value| {
        files := Files(false, None, files.live, files.tokens + 1, files.rotated + [files.live.value]);
      }
    }

    /** WriteLogToCache.  `fits` is whether the copy stays inside the cache, which the source does not
        look at; a line of at most 1024 bytes always fits, because at most 7168 are waiting between calls. */
    method WriteLogToCache(call: Call, env: Env) returns (fits: bool)
      requires Valid() && CallReadable(call)
      requires env.written <= offset + |Logged(call)|
      modifies this, cache
      ensures Valid() && (fits <==> Fits(old(Shown()), call))
      ensures fits <==> old(offset) + (if call.line.Some? then call.n else 0) <= 8192
      ensures call.n <= 1024 ==> fits
      ensures fits ==> var more := if call.line.Some? then call.n else 0;
        var last := if call.now < old(lastTime) then call.now else old(lastTime);
        if old(offset) + more > 7168 || call.now - last > 3 then offset == 0 && lastTime == call.now
        else
          && files == old(files) && lastTime == last && offset == old(offset) + more
          && cache[..old(offset)] == old(cache[..offset]) && Contributes(call, cache[old(offset)..offset])
      ensures fits ==> Shown() == Write(old(Shown()), size, call, env)
    {
      if call.now < lastTime {
        lastTime := call.now;
      }
      ghost var text := cache[..offset];
      fits := call.line.Some? ==> offset + call.n <= LOG_CACHE_SIZE;
      if !fits {
        return;
      }
      if call.line.Some? && call.n != 0 {
        StrNCpy(cache, offset, call.line.value, call.n);
        offset := offset + call.n;
      }
      assert cache[..offset] == text + Logged(call);
      assert cache[..|text|] == text && cache[|text|..offset] == Logged(call);
      ContributesIff(call, Logged(call));
      if offset > LOG_FLUSH_SIZE_MAX || call.now - lastTime > LOG_TIME_OUT {
        WriteLogToFile(offset, env);
        offset := 0;
        lastTime := call.now;
      }
    }
  }
}
