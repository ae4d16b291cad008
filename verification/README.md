# caps-auto-trigger, modelled in Dafny

caps-auto-trigger is a small Go program that double-presses Caps Lock on
a timer, but only during configured time-of-day windows. It hot-reloads
its YAML configuration when the file changes, and it stops on SIGINT or
SIGTERM. This project models the sequential core of that program and
proves properties about it:

- the active-window predicate (`inActiveTime`) over the configured
  `TimeRange` list, with `now` as nanoseconds since local midnight;
- the double-press gesture (`simulateDoubleCapsLock`) against an opaque
  keyboard whose press or release may fail;
- the watcher's event filter and the load-and-replace reload step
  (`watchConfig`, `loadConfig`);
- the defaulting part of `initLogger`;
- startup and the `select` loop of `main`, sequentialised into a list
  of events `Tick | FileChanged | Signal` processed in order.

Modules: `Wrappers` (Option/Result), `Model` (the records of model.go),
`Clock` (the "15:04" layout and range bounds), `ActiveWindow`,
`Trigger`, `Logging`, `Watcher` and `Scheduler`.

Modelling choices:

- A bound that fails to parse is midnight, because a failed `time.Parse`
  yields the zero time, whose hour and minute are 0. The range is kept.
  A range with an unparsable start is therefore active from 00:00 to its
  end, and one with an unparsable end is never active.
- A failed reload does not keep the old configuration. The code calls
  `logger.Fatalf`, which ends the process, so the model moves to a
  terminal `Exited(LoadAborted(...))` state and never assigns the
  configuration.
- The loader reads the literal path "config.yaml" (`Watcher.ReadPath`),
  not the tracked path (`Watcher.ConfigPath`). The two happen to be equal.
- The timer period is `time.Duration(Ticker) * time.Second`, a 64-bit
  product that wraps around. `time.NewTicker` panics on a non-positive
  period. `Scheduler.TickPeriod` writes out the wrap-around, and
  `Scheduler.Startup` models the panic as the `TickerPanic` exit.
- The time of day, the keyboard's behaviour, the file snapshot and the
  YAML decoder are inputs. A tick carries `now` and a `Keyboard` oracle,
  which gives the outcome of the k-th key operation of that gesture. A
  file event carries the readable files. The decoder is an uninterpreted
  function `seq<bv8> -> Option<Config>`.
- A gesture's trace includes the key operation that failed, because it
  was attempted. Nothing comes after it.

## Model

| member | source | states |
|---|---|---|
| Clock.ParseHourMinute | main.go:163-164 | a string accepted by the "15:04" layout yields an hour below 24 and a minute below 60 |
| Clock.ParseFormat | main.go:163-164 | every valid hour and minute written as "HH:MM" parses back to exactly that hour and minute |
| Clock.ParseShortHour | main.go:163-164 | a one-digit hour such as "9:30" is accepted and means 09:30 |
| Clock.ParsedIsFormatted | main.go:163-164 | the layout accepts nothing but "HH:MM", or "H:MM" for hours below ten: no trailing text, no one-digit minute |
| Clock.BoundNanos | main.go:163-167 | a bound is a whole minute of today (zero seconds and nanoseconds) before midnight; it is the parsed hour and minute, or 00:00 when parsing fails |
| ActiveWindow.InActiveTimeIsUnion | main.go:162-173 | `ActiveWindow.InActiveTime`, the early-returning loop over the ranges, is true iff some listed range is active in the sense of `ActiveWindow.RangeActive` (start < now < end) |
| ActiveWindow.NoRangesNeverActive | main.go:162-173 | an empty range list is never active |
| ActiveWindow.AppendIsOr | main.go:162-173 | the answer for a concatenation of range lists is the OR of the answers for the parts |
| ActiveWindow.AppendKeepsActive | main.go:162-173 | adding a range at either end never turns true into false |
| ActiveWindow.MemberActiveMakesActive | main.go:162-173 | any one matching range makes the predicate true, wherever it is listed |
| ActiveWindow.ReorderInvariant | main.go:162-173 | reordering the ranges (any permutation) does not change the answer |
| ActiveWindow.FormattedRangeActive | main.go:166-169 | `ActiveWindow.RangeActive`, the check of one range: for "HH:MM" bounds the range is active exactly when now lies strictly between the two instants of today |
| ActiveWindow.BoundsAreExclusive | main.go:169 | at the exact instant of either bound the range is inactive |
| ActiveWindow.EmptyRangeNeverActive | main.go:166-169 | a range whose end is not after its start is never active |
| ActiveWindow.UnparsedEndNeverActive | main.go:164-169 | an end that fails to parse becomes 00:00, so the range is never active |
| ActiveWindow.UnparsedStartIsMidnight | main.go:163-169 | a start that fails to parse becomes 00:00: the range is active iff 0 < now < end |
| ActiveWindow.MidnightCrossingNeverActive | main.go:163-169 | the range 22:00-02:00 is never active |
| ActiveWindow.OfficeHours | main.go:157-174 | 09:00-17:00 is active at noon and one nanosecond after 09:00, and inactive at 20:00 and at 09:00:00.000 |
| Trigger.SimulateDoubleCapsLock | main.go:96-110 | with every key operation succeeding the trace is the full press/10ms/release/10ms/press/100ms/release gesture with no error; if the k-th operation is the first to fail, the trace stops right after it and the error returned is that operation's error |
| Trigger.DoublePressShape | main.go:96-110 | the full gesture sleeps 120ms in total, and its key operations are press, release, press, release |
| Trigger.FailedGestureShape | main.go:97-109 | a gesture that fails at its k-th key operation ends with that operation, has performed only the first k+1 key operations, and has slept only the waits before it |
| Logging.EffectiveLog | main.go:178-193 | an empty name becomes "keysimulator.log" and a non-empty name is kept; an empty or unrecognised level becomes Info, and a recognised one is used |
| Logging.ParseLevelName | main.go:189-193 | every level's name is recognised by the level parser as that level |
| Logging.EffectiveLogIdempotent | main.go:182-193 | defaulting twice gives the same settings as defaulting once |
| Watcher.Base | main.go:143 | the base name of a path is non-empty, and it has no slash unless it is "/"; the empty path has base "." |
| Watcher.BaseOfName | main.go:143 | a name with no slash is its own base name |
| Watcher.BaseOfJoin | main.go:137-143 | an event on dir/name has base name `name`, whatever the directory |
| Watcher.StripAppendedSlashes | main.go:143 | dropping trailing slashes ignores any run of slashes appended to a path |
| Watcher.BaseOfSlashes | main.go:143 | a non-empty path of slashes only has base name "/" |
| Watcher.BaseOfJoinWithSlashes | main.go:137-143 | trailing slashes do not change the base name: dir/name/// has base name `name` |
| Watcher.SiblingIgnored | main.go:137-144 | an event on any other file of the watched directory never triggers a reload |
| Watcher.MetadataOnlyIgnored | main.go:144 | Remove, Rename or Chmod alone never triggers a reload |
| Watcher.TrackedFileReloads | main.go:143-144 | `Watcher.ShouldReload`, the event filter: an event on the tracked file triggers a reload iff its operation bits include Write or Create |
| Watcher.LoadConfig | main.go:113-122 | the load gives a configuration iff "config.yaml" can be read and decodes; that configuration is the decoded value and nothing else; a missing file is a read failure and a bad text a parse failure |
| Watcher.OnEvent | main.go:142-149 | a filtered-out event is ignored; a matching one loads, and on success replaces the configuration, rebuilds the logger from the new log settings and then notifies, in that order; on failure it aborts |
| Scheduler.WrapInt64 | main.go:48 | the 64-bit product is congruent to the exact one modulo 2^64, and equal to it when it fits |
| Scheduler.TickPeriod | main.go:48 | the period is the ticker in seconds times 10^9 ns modulo 2^64; it is exact and positive for positive tickers whose product stays below 2^63 (up to 9223372036 s), and not positive for tickers from -9223372036 to 0; more negative tickers wrap, and `Scheduler.TickPeriodWraps` shows one that gives a positive period, so the process runs |
| Scheduler.TickPeriodWraps | main.go:48 | a ticker of 18446744074 s wraps to a period of 290448384 ns; one of 9223372037 s wraps to a negative period; one of -9223372037 s wraps to the positive period 9223372036709551616 ns; 9223372036 s, the largest ticker that does not overflow, keeps its exact period |
| Scheduler.Startup | main.go:27-48 | startup aborts on a failed load or keyboard initialisation; otherwise a non-positive timer period ends it with the `TickerPanic` exit and a positive one starts it running, with the loaded configuration, the defaulted logger and that period |
| Scheduler.StepFacts | main.go:54-67 | `Scheduler.Step`, the effect of one event on the process: one event never changes the timer period; a tick, even one whose gesture failed, leaves the state unchanged; a signal stops a running process without touching its configuration; a stopped process ignores every event |
| Scheduler.ReloadStep | main.go:113-148 | `Scheduler.Step` on a file event: on a running process, an ignored event changes nothing; a failed load stops the process and leaves the configuration as it was; a successful load replaces the configuration as a whole, whatever it was before, and rebuilds the logger from it |
| Scheduler.ExitedIsTerminal | main.go:63-65 | once the process has exited, no further event changes it |
| Scheduler.NothingAfterSignal | main.go:54-67 | after a signal, the process is stopped at every later point whatever events follow, and if it was running when the signal arrived its exit is the signalled one |
| Scheduler.CoherentPreserved | main.go:142-149 | every event keeps a process's logger equal to the one built from its configuration, and its period positive: a reload rebuilds the logger from the new configuration |
| Scheduler.StartupCoherent | main.go:27-48 | after any events, a process that started has the logger built from its current configuration and the positive period startup chose |
| Scheduler.StateIgnoresTickerAndDaemon | main.go:31-48 | the timer period never changes after startup, and the ticker and daemon values that a reload stores are never consulted |
| Scheduler.HandleEvent | main.go:56-65 | a tick fires the gesture iff the current ranges hold an active window, and a fired gesture either completes or stops at its failing key operation; a file event records the watcher's handling; a signal records the stop |
| Scheduler.Run | main.go:54-67 | the loop handles events in order until the first signal or aborted reload, and handles all of them otherwise; each tick fires iff the predicate holds under the configuration current at that tick, and a fired gesture either completes or stops right after its first failing key operation with that operation's error; a failed gesture does not stop the loop; the period is never changed |

## Left out

- Goroutines, the `sync.RWMutex` and the fsnotify watcher setup (main.go:130-141). The configuration is one value swapped atomically, and the three concurrent loops are merged into one ordered list of events.
- The watcher's error channel (main.go:150-152). It only logs.
- YAML decoding (main.go:120). It is an uninterpreted `Decoder` parameter.
- The zap encoder and core and the `lumberjackLogger` file writer (main.go:195-219). These are I/O plumbing; the model keeps only the effective name and level.
- Log messages. The model records effects and outcomes instead.
- `daemonize` and the `Daemon` check (main.go:31-33, 70-93). These re-execute the process. `Scheduler.Startup` models the process that runs the loop.
- `keybd_event` (main.go:42-46). Creating the injector is a boolean input, and each press or release is an outcome given by a `Keyboard` oracle.
- Real sleeping, the wall clock, time zones and DST normalisation in `time.Date`. Sleeps are recorded as milliseconds in the trace, and `now` is a time of day in nanoseconds.
- Logging.EffectiveLog: the level table holds each zap level name in lower and in upper case, plus the empty text. Recent zap versions also retry a lower-cased copy of the text, so they accept mixed case such as "Debug"; this model maps mixed-case names to Info.
- Clock.ParseHourMinute: covers only the part of Go's layout grammar that the "15:04" layout uses.
- Watcher.Base: models `filepath.Base` with '/' as the only separator and with no volume names.
- At startup `loadConfig` runs before `initLogger`, so a failed load calls `Fatalf` on a nil logger and panics instead of logging. Both end the process. The model treats them as the same `LoadAborted` exit.
- Nil entries in `timeRanges` (a YAML `- ~` item). `inActiveTime` dereferences every entry (main.go:163) and panics on a nil one. `Model.Config` holds ranges as values, so it cannot represent a nil entry.
- SIGINT and SIGTERM are the same `Signal` event. Go's `int` is taken to be 64 bits wide.
