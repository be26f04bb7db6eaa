# chokidar — a Dafny model of its decision logic

`chokidar` is a command-line file watcher: it expands a glob pattern into
paths, registers a recursive watch on each of them, and re-runs a shell
command (debounced) whenever the filesystem reports a change. This project
models the deterministic core of `src/lib.rs` and proves properties of it:

- **Shells** — the seven-variant `Shell` enum, its `Display` name and its
  `From<&str>` parse with the Bash fallback.
- **Decimal** — integer rendering as `format!("{n}")` writes it, with its
  inverse (used by the duration wording).
- **Elapsed** — `time_to_str`, the wording of a command's run time
  ("immediately", "in Ns", "in Mm", "in Mm Ns"), with a reader that
  recovers the seconds from the wording.
- **Exec** — the process `exec` asks for: program = the shell's name,
  arguments = `[flag, cmd]` with `/c` for `cmd` and `-c` otherwise, run in
  the resolved working directory.
- **Chokidar** — the `chokidar` function: resolution of the working
  directory, the registration loop over the glob walk (a `Watcher` class
  whose `watched` list grows, a `u32` counter), the colour of the count,
  the event loop that calls the debouncer (a `Debouncer` class counting its
  calls) once per `Ok` event and logs each `Err` event, and `Run`, which
  strings these together with every startup panic as an `Err` outcome.

Inputs that come from the outside world are parameters: the process's
current directory (`None` when it cannot be read), the outcome of glob
resolution (`Err` for an invalid pattern or a missing prefix, otherwise the
walk as a sequence of `Ok(path)` / `Err(e)` entries), the set of paths the
OS watcher refuses, whether the shell can be spawned, and a finite prefix of
the notification event stream.

Behaviour modelled as the code has it:

- `file_count` is a `u32`; `+= 1` is modelled wrapping at 2^32, as a release
  build (overflow checks off) runs it. A debug build would panic instead.
- `args.cwd.unwrap_or(current_dir().expect(..))` evaluates the default
  eagerly, so an unreadable current directory panics even when `--cwd` is
  given (`ResolveCwd`).
- A refused watch panics (`unwrap_or_else(|_| panic!(..))`): the outcome is
  `WatchFailed(path)` for the first refused `Ok` path, and the watches made
  before it remain registered.
- A spawn failure of the initial run is fatal: its `.output().expect(..)`
  panics on the main thread (`SpawnFailed`), ending the process before the
  event loop starts.
- PowerShell and pwsh get `-c` like the POSIX shells; only `cmd` gets `/c`.

## Model

| member | source | states |
|---|---|---|
| `Decimal.Digits` | src/lib.rs:64 | the rendering of a number is a non-empty digit string with no leading zero except for 0 itself, one digit exactly below ten |
| `Decimal.ValueOfDigits` | src/lib.rs:64 | reading a rendered number back gives the number |
| `Decimal.DigitsInjective` | src/lib.rs:64 | distinct numbers render differently |
| `Shells.Name` | src/lib.rs:47-59 | every shell's display name is one of the seven known names |
| `Shells.Parse` | src/lib.rs:32-45 | a string outside the seven names parses to Bash; a parse to any other shell happened only on that shell's exact name |
| `Shells.ParseName` | src/lib.rs:32-59 | parsing a shell's display name gives that shell back |
| `Shells.NameParse` | src/lib.rs:32-59 | every known name is the display name of the shell it parses to |
| `Shells.NameInjective` | src/lib.rs:47-59 | distinct shells have distinct names |
| `Shells.ParseFallback` | src/lib.rs:19-22 | a string parses to the default shell Bash exactly when it is "bash" or none of the known names |
| `Elapsed.ElapsedRoundTrip` | src/lib.rs:61-75 | reading the wording of s seconds back yields s, for every u64 s |
| `Elapsed.TimeToStrInjective` | src/lib.rs:61-75 | two different durations never get the same wording |
| `Elapsed.ImmediatelyOnlyForZero` | src/lib.rs:62-63 | the wording is "immediately" if and only if the duration is zero |
| `Elapsed.SecondsOnly` | src/lib.rs:64 | from 1 to 59 s the wording is "in {s}s" |
| `Elapsed.MinuteFields` | src/lib.rs:65-73 | from 60 s on the wording is "in {m}m" or "in {m}m {r}s" with m at least 1, r below 60, m*60 + r = s, and the seconds part present exactly when r is not zero |
| `Elapsed.TimeToStrExamples` | src/lib.rs:61-75 | 0, 45, 125 and 180 seconds read "immediately", "in 45s", "in 2m 5s", "in 3m" |
| `Exec.Command` | src/lib.rs:126-134 | the program name parses back to the requested shell, the arguments are two with the command unchanged as the last, the flag is "/c" exactly for Cmd, and the child runs in the given directory |
| `Exec.FlagChoice` | src/lib.rs:126-129 | the flag is "/c" if and only if the shell is Cmd, "-c" for all six others |
| `Exec.CommandLine` | src/lib.rs:131-134 | the spawned argv is [shell name, flag, cmd] with cmd unchanged as the last argument, and the child's directory is the resolved cwd |
| `Chokidar.OksAppend` | src/lib.rs:182 | filtering the Ok entries of a concatenated stream is filtering each part |
| `Chokidar.ErrsAppend` | src/lib.rs:217 | the errors of a concatenated stream are those of each part, in order |
| `Chokidar.OksErrsPartition` | src/lib.rs:182 | every item of a stream is either an Ok payload kept or an error set aside |
| `Chokidar.OksMembers` | src/lib.rs:182 | a payload is kept exactly when it occurs as an Ok entry |
| `Chokidar.Watcher.Watch` | src/lib.rs:184-186 | a watch succeeds exactly when the OS accepts the path, and only then is the path added to the watched list |
| `Chokidar.RegisterWatches` | src/lib.rs:178-188 | registration succeeds iff no Ok path is refused; then the count is the number of Ok entries modulo 2^32 and exactly the Ok paths are watched, in walk order; otherwise it panics on the first refused path with the earlier Ok paths watched |
| `Chokidar.PanicPointUnique` | src/lib.rs:184-186 | the entry registration panics at is unique |
| `Chokidar.CountFits` | src/lib.rs:178-187 | for walks shorter than 2^32 entries the count is exactly the number of Ok entries, i.e. walk length minus errors |
| `Chokidar.ColourRanges` | src/lib.rs:201-205 | green exactly for 0-999, yellow exactly for 1000-4999, red exactly from 5000 |
| `Chokidar.ColourMonotone` | src/lib.rs:201-205 | a larger count never gets a milder colour |
| `Chokidar.Debouncer.Call` | src/lib.rs:215 | each call to the debounced function is one more notification |
| `Chokidar.DispatchEvents` | src/lib.rs:212-219 | every event is consumed: one debouncer notification per Ok event, none per Err event, and each Err logged in order |
| `Chokidar.NotificationsCompose` | src/lib.rs:212-219 | notifications and logged errors of a stream add up over its parts, so an error never stops or alters the loop |
| `Chokidar.EagerDefault` | src/lib.rs:169-174 | a given `--cwd` never rescues an unreadable current directory (the default is computed eagerly); once the current directory is readable, a given directory wins and otherwise the current one is used |
| `Chokidar.Run` | src/lib.rs:164-220 | the session fails with the first startup panic (current directory, glob resolution, refused watch, unspawnable initial run) and otherwise reports the cwd, the count and its colour, exactly the Ok paths watched, one initial invocation iff requested, the debounce window, one notification per Ok event and the logged errors |

## Left out

- The debouncer's timing (`fns::debounce`, src/lib.rs:196-199): it is an external crate driven by timers and threads; the model counts calls to it and does not model which calls coalesce into a run, nor the runs it later starts.
- The OS notification source, the `mpsc` channel and the blocking receive (src/lib.rs:165-166, 212): the event stream is a finite input sequence, and the endless loop is modelled over any finite prefix of it.
- `RecommendedWatcher::new(..).unwrap()` (src/lib.rs:166): creating the watcher is assumed to succeed.
- Glob parsing, partitioning, walking and path canonicalisation (`wax`, `dunce`, `clean_path`, src/lib.rs:175-182): the walk and the two resolution failures are inputs.
- Process spawning, inherited streams, exit status and elapsed-time measurement (src/lib.rs:123, 131-140): only the requested invocation and whether it can be spawned are modelled; the seconds enter only through `time_to_str`.
- Console output and colouring (`println!`, `colored`) and the banners' text other than `time_to_str`; the colour of the count is modelled as a value.
- Command-line parsing with `clap` and its defaults (src/lib.rs:77-120, 144-162): `Args` is a plain record.
- The conversion `args.debounce.try_into().unwrap()` (src/lib.rs:198) from `usize` to `u64`, which cannot fail on 32- and 64-bit targets; the window is a natural number.
- `src/main.rs`, a wrapper around `Args::parse()` and `chokidar`, is not part of this model.
