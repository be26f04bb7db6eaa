/**
 * `chokidar`: resolve the working directory, register a recursive watch for
 * every path the glob walk yields, optionally run the command once, report
 * how many paths are watched, then forward every notification event to the
 * debounced command. The glob walk, the OS watcher's verdicts and the
 * notification stream are inputs; the debouncer's timing is not modelled.
 */
module Chokidar {
  import opened Wrappers
  import opened Shells
  import opened Exec

  type Path = string

  const U32_LIMIT: int := 0x1_0000_0000

  /** Rust's `u32`, the type of `file_count`. */
  type u32 = x: int | 0 <= x < U32_LIMIT

  /** `file_count += 1` as a release build runs it: wrapping at 2^32. */
  function WrappingInc(c: u32): (r: u32) {
    if c + 1 == U32_LIMIT then 0 else c + 1
  }

  /** A counter kept by `WrappingInc` holds its true count modulo 2^32. */
  lemma WrappingIncCounts(c: u32, n: nat)
    requires c == n % U32_LIMIT
    ensures WrappingInc(c) == (n + 1) % U32_LIMIT
  {
  }

  // ---------------------------------------------------------------------------
  // Streams of Ok/Err items: the glob walk and the notification events.

  /** The payloads of the `Ok` items, in order (`filter_map(|i| i.ok())`). */
  function Oks<T, E>(s: seq<Result<T, E>>): (r: seq<T>)
    ensures |r| <= |s|
  {
    if s == [] then []
    else Oks(s[..|s| - 1]) + (if s[|s| - 1].Ok? then [s[|s| - 1].value] else [])
  }

  /** The payloads of the `Err` items, in order. */
  function Errs<T, E>(s: seq<Result<T, E>>): (r: seq<E>)
    ensures |r| <= |s|
  {
    if s == [] then []
    else Errs(s[..|s| - 1]) + (if s[|s| - 1].Err? then [s[|s| - 1].error] else [])
  }

  /** Filtering a concatenation filters each part. */
  lemma {:induction false} OksAppend<T, E>(a: seq<Result<T, E>>, b: seq<Result<T, E>>)
    ensures Oks(a + b) == Oks(a) + Oks(b)
    decreases |b|
  {
    if b == [] {
      assert a + b == a;
    } else {
      var b' := b[..|b| - 1];
      assert (a + b)[..|a + b| - 1] == a + b';
      OksAppend(a, b');
    }
  }

  lemma {:induction false} ErrsAppend<T, E>(a: seq<Result<T, E>>, b: seq<Result<T, E>>)
    ensures Errs(a + b) == Errs(a) + Errs(b)
    decreases |b|
  {
    if b == [] {
      assert a + b == a;
    } else {
      var b' := b[..|b| - 1];
      assert (a + b)[..|a + b| - 1] == a + b';
      ErrsAppend(a, b');
    }
  }

  /** Every item is either kept as an Ok payload or set aside as an error. */
  lemma {:induction false} OksErrsPartition<T, E>(s: seq<Result<T, E>>)
    ensures |Oks(s)| + |Errs(s)| == |s|
    decreases |s|
  {
    if s != [] {
      OksErrsPartition(s[..|s| - 1]);
    }
  }

  /** A payload is kept exactly when it occurs as an `Ok` item. */
  lemma {:induction false} OksMembers<T, E>(s: seq<Result<T, E>>, x: T)
    ensures x in Oks(s) <==> Ok(x) in s
    decreases |s|
  {
    if s != [] {
      var s' := s[..|s| - 1];
      OksMembers(s', x);
      assert s == s' + [s[|s| - 1]];
    }
  }

  // ---------------------------------------------------------------------------
  // Watch registration (the `for entry in glob.walk(..)` loop).

  /** The OS watcher, of which the model keeps the paths it watches. */
  class Watcher {
    /** The paths its `watch` call refuses (the verdict of the OS). */
    const refused: set<Path>
    /** The paths registered recursively so far, in registration order. */
    var watched: seq<Path>

    constructor (refused: set<Path>)
      ensures this.refused == refused && watched == []
    {
      this.refused := refused;
      watched := [];
    }

    /** `watch(path, RecursiveMode::Recursive)`. */
    method Watch(path: Path) returns (ok: bool)
      modifies this
      ensures ok <==> path !in refused
      ensures watched == if ok then old(watched) + [path] else old(watched)
    {
      ok := path !in refused;
      if ok {
        watched := watched + [path];
      }
    }
  }

  predicate NoneRefused(paths: seq<Path>, refused: set<Path>) {
    forall i :: 0 <= i < |paths| ==> paths[i] !in refused
  }

  /**
   * Entry i of the walk is where registration panics: the first `Ok` entry
   * whose path the watcher refuses.
   */
  predicate PanicsAt<E>(walk: seq<Result<Path, E>>, refused: set<Path>, i: int) {
    && 0 <= i < |walk|
    && walk[i].Ok? && walk[i].value in refused
    && NoneRefused(Oks(walk[..i]), refused)
  }

  /**
   * Registers a watch for each `Ok` entry of the walk, skipping `Err`
   * entries, and counts the registrations in a `u32`. A refused watch
   * panics (`Err` with the path); the watches made before it remain.
   */
  method RegisterWatches<E>(walk: seq<Result<Path, E>>, w: Watcher) returns (r: Result<u32, Path>)
    modifies w
    ensures r.Ok? <==> NoneRefused(Oks(walk), w.refused)
    ensures r.Ok? ==> r.value == |Oks(walk)| % U32_LIMIT && w.watched == old(w.watched) + Oks(walk)
    ensures r.Err? ==> exists i :: PanicsAt(walk, w.refused, i) && r.error == walk[i].value
                                   && w.watched == old(w.watched) + Oks(walk[..i])
  {
    var fileCount: u32 := 0;
    var i := 0;
    while i < |walk|
      invariant 0 <= i <= |walk|
      invariant w.watched == old(w.watched) + Oks(walk[..i])
      invariant NoneRefused(Oks(walk[..i]), w.refused)
      invariant fileCount == |Oks(walk[..i])| % U32_LIMIT
    {
      OksStep(walk, i);
      if walk[i].Ok? {
        var path := walk[i].value;
        var ok := w.Watch(path);
        if !ok {
          PanicOutcome(walk, w.refused, i);
          return Err(path);
        }
        WrappingIncCounts(fileCount, |Oks(walk[..i])|);
        fileCount := WrappingInc(fileCount);
      }
      i := i + 1;
    }
    assert walk[..i] == walk;
    return Ok(fileCount);
  }

  lemma OksStep<T, E>(s: seq<Result<T, E>>, i: int)
    requires 0 <= i < |s|
    ensures Oks(s[..i + 1]) == Oks(s[..i]) + (if s[i].Ok? then [s[i].value] else [])
    ensures Errs(s[..i + 1]) == Errs(s[..i]) + (if s[i].Err? then [s[i].error] else [])
  {
    assert s[..i + 1][..i] == s[..i];
  }

  /** A refused path ends registration, and the walk as a whole then has a refused path. */
  lemma PanicOutcome<E>(walk: seq<Result<Path, E>>, refused: set<Path>, i: int)
    requires 0 <= i < |walk| && walk[i].Ok? && walk[i].value in refused
    requires NoneRefused(Oks(walk[..i]), refused)
    ensures PanicsAt(walk, refused, i)
    ensures !NoneRefused(Oks(walk), refused)
  {
    PanicBeforeLater(walk, refused, i, |walk|);
    assert walk[..|walk|] == walk;
  }

  /** At most one entry is the panicking one: it is the first refused path. */
  lemma PanicPointUnique<E>(walk: seq<Result<Path, E>>, refused: set<Path>, i: int, j: int)
    requires PanicsAt(walk, refused, i) && PanicsAt(walk, refused, j)
    ensures i == j
  {
    if i < j {
      PanicBeforeLater(walk, refused, i, j);
    } else if j < i {
      PanicBeforeLater(walk, refused, j, i);
    }
  }

  lemma PanicBeforeLater<E>(walk: seq<Result<Path, E>>, refused: set<Path>, i: int, j: int)
    requires 0 <= i < j <= |walk| && walk[i].Ok? && walk[i].value in refused
    ensures !NoneRefused(Oks(walk[..j]), refused)
  {
    var pre := walk[..j];
    OksAppend(pre[..i + 1], pre[i + 1..]);
    assert pre[..i + 1] + pre[i + 1..] == pre;
    assert pre[..i + 1][..i] == pre[..i];
    assert Oks(pre)[|Oks(pre[..i])|] == walk[i].value;
  }

  /** The registration count is the number of `Ok` entries, while it fits a `u32`. */
  lemma CountFits<E>(walk: seq<Result<Path, E>>)
    requires |walk| < U32_LIMIT
    ensures |Oks(walk)| % U32_LIMIT == |Oks(walk)| == |walk| - |Errs(walk)|
  {
    OksErrsPartition(walk);
  }

  // ---------------------------------------------------------------------------
  // The status colour of the watched-path count.

  datatype Colour = Green | Yellow | Red

  /** `match file_count { 0..=999 => green, 1000..=4999 => yellow, _ => red }`. */
  function CountColour(count: u32): (r: Colour) {
    if count <= 999 then Green else if count <= 4999 then Yellow else Red
  }

  function Severity(c: Colour): (r: nat) {
    match c
    case Green => 0
    case Yellow => 1
    case Red => 2
  }

  /** Each count is in exactly one of the three ranges, and gets that range's colour. */
  lemma ColourRanges(count: u32)
    ensures CountColour(count) == Green <==> count <= 999
    ensures CountColour(count) == Yellow <==> 1000 <= count <= 4999
    ensures CountColour(count) == Red <==> count >= 5000
  {
  }

  /** More watched paths never give a milder colour. */
  lemma ColourMonotone(a: u32, b: u32)
    requires a <= b
    ensures Severity(CountColour(a)) <= Severity(CountColour(b))
  {
  }

  // ---------------------------------------------------------------------------
  // The event loop (`for result in rx`).

  /** The debounced command, of which the model keeps the number of calls. */
  class Debouncer {
    /** The quiet period, in milliseconds. */
    const window: nat
    /** How many times `call(())` has been invoked. */
    var calls: nat

    constructor (window: nat)
      ensures this.window == window && calls == 0
    {
      this.window := window;
      calls := 0;
    }

    /** `debounce_fn.call(())`. */
    method Call()
      modifies this
      ensures calls == old(calls) + 1
    {
      calls := calls + 1;
    }
  }

  /**
   * Consumes every event: an `Ok` event notifies the debouncer once, an
   * `Err` event is logged and the loop goes on. Returns the logged errors.
   */
  method DispatchEvents<Ev, E>(events: seq<Result<Ev, E>>, d: Debouncer) returns (logged: seq<E>)
    modifies d
    ensures d.calls == old(d.calls) + |Oks(events)|
    ensures logged == Errs(events)
  {
    logged := [];
    var i := 0;
    while i < |events|
      invariant 0 <= i <= |events|
      invariant d.calls == old(d.calls) + |Oks(events[..i])|
      invariant logged == Errs(events[..i])
    {
      OksStep(events, i);
      match events[i] {
        case Ok(_) =>
          d.Call();
        case Err(error) =>
          logged := logged + [error];
      }
      i := i + 1;
    }
    assert events[..i] == events;
  }

  /**
   * The notifications for a stream are those of its parts: an error event
   * never stops the loop or changes what later events do.
   */
  lemma NotificationsCompose<Ev, E>(a: seq<Result<Ev, E>>, b: seq<Result<Ev, E>>)
    ensures |Oks(a + b)| == |Oks(a)| + |Oks(b)|
    ensures Errs(a + b) == Errs(a) + Errs(b)
  {
    OksAppend(a, b);
    ErrsAppend(a, b);
  }

  // ---------------------------------------------------------------------------
  // The whole pipeline.

  /** The parsed command line (`Args`). */
  datatype Args = Args(debounce: nat, initial: bool, cwd: Option<string>, shell: Shell, cmd: string, pattern: string)

  /** Why glob resolution fails: `Glob::new(..).unwrap()` or `dunce::canonicalize(..).unwrap()`. */
  datatype ResolveError = InvalidPattern | PathResolution

  /** The panics that end `chokidar` before it starts watching. */
  datatype StartupError = NoCurrentDir | ResolveFailed(reason: ResolveError) | WatchFailed(path: Path) | SpawnFailed(program: string)

  /** What a session has done once the events given to it are consumed. */
  datatype Session<E> = Session(
    cwd: string,
    fileCount: u32,
    colour: Colour,
    watched: seq<Path>,
    initialRuns: seq<Invocation>,
    debounceWindow: nat,
    notifications: nat,
    logged: seq<E>)

  /**
   * `args.cwd.unwrap_or(current_dir().expect(..))`: the default is computed
   * before `unwrap_or` runs, so an unreadable current directory panics even
   * when a directory was given.
   */
  function ResolveCwd(given: Option<string>, currentDir: Option<string>): (r: Result<string, StartupError>)
    ensures r.Err? <==> currentDir.None?
    ensures r.Err? ==> r.error == NoCurrentDir
    ensures r.Ok? ==> r.value == (if given.Some? then given.value else currentDir.value)
  {
    match currentDir
    case None => Err(NoCurrentDir)
    case Some(dir) => Ok(if given.Some? then given.value else dir)
  }

  /**
   * The default directory is computed whether or not one is given: a given
   * directory never rescues an unreadable current directory, and once the
   * current directory is readable a given one always wins.
   */
  lemma EagerDefault(given: string, currentDir: Option<string>)
    ensures ResolveCwd(Some(given), currentDir).Err? <==> ResolveCwd(None, currentDir).Err?
    ensures currentDir.Some? ==> ResolveCwd(Some(given), currentDir) == Ok(given)
    ensures currentDir.Some? ==> ResolveCwd(None, currentDir) == Ok(currentDir.value)
  {
  }

  /**
   * `chokidar(args)`, given the process's current directory, the result of
   * resolving the glob into its walk, the paths the OS watcher refuses,
   * whether the shell can be spawned, and the events delivered so far.
   */
  method Run<WE, Ev, E>(
    args: Args,
    currentDir: Option<string>,
    resolved: Result<seq<Result<Path, WE>>, ResolveError>,
    refused: set<Path>,
    spawnable: bool,
    events: seq<Result<Ev, E>>)
    returns (r: Result<Session<E>, StartupError>)
    ensures currentDir.None? ==> r == Err(NoCurrentDir)
    ensures currentDir.Some? && resolved.Err? ==> r == Err(ResolveFailed(resolved.error))
    ensures currentDir.Some? && resolved.Ok? && !NoneRefused(Oks(resolved.value), refused) ==>
              r.Err? && r.error.WatchFailed? &&
              exists i :: PanicsAt(resolved.value, refused, i) && r.error.path == resolved.value[i].value
    ensures currentDir.Some? && resolved.Ok? && NoneRefused(Oks(resolved.value), refused) && args.initial && !spawnable ==>
              r == Err(SpawnFailed(Name(args.shell)))
    ensures r.Ok? <==> currentDir.Some? && resolved.Ok? && NoneRefused(Oks(resolved.value), refused) && (args.initial ==> spawnable)
    ensures r.Ok? ==>
              var cwd := ResolveCwd(args.cwd, currentDir).value;
              var count := |Oks(resolved.value)| % U32_LIMIT;
              r.value == Session(
                cwd, count, CountColour(count), Oks(resolved.value),
                if args.initial then [Command(args.shell, args.cmd, cwd)] else [],
                args.debounce, |Oks(events)|, Errs(events))
  {
    var watcher := new Watcher(refused);
    var cwdResult := ResolveCwd(args.cwd, currentDir);
    if cwdResult.Err? {
      return Err(cwdResult.error);
    }
    var cwd := cwdResult.value;
    if resolved.Err? {
      return Err(ResolveFailed(resolved.error));
    }
    var registered := RegisterWatches(resolved.value, watcher);
    if registered.Err? {
      return Err(WatchFailed(registered.error));
    }
    var fileCount := registered.value;
    var initialRuns := [];
    if args.initial {
      var inv := Command(args.shell, args.cmd, cwd);
      if !spawnable {
        return Err(SpawnFailed(inv.program));
      }
      initialRuns := [inv];
    }
    var debouncer := new Debouncer(args.debounce);
    var colour := CountColour(fileCount);
    var logged := DispatchEvents(events, debouncer);
    return Ok(Session(cwd, fileCount, colour, watcher.watched, initialRuns,
                      debouncer.window, debouncer.calls, logged));
  }
}
