/**
  Startup and the main loop, sequentialised: the timer, the watcher and
  the signal listener become one ordered list of events processed with
  no threads. The configuration is one value that a reload swaps as a
  whole; ticks read it, and only reloads, aborts and signals change the
  process state.
 */
module Scheduler {
  import opened Wrappers
  import opened Model
  import opened Clock
  import opened ActiveWindow
  import opened Trigger
  import opened Logging
  import opened Watcher

  const Two63: int := 0x8000_0000_0000_0000
  const Two64: int := 0x1_0000_0000_0000_0000

  /** Why the process ended. */
  datatype Exit =
    | LoadAborted(error: LoadError)   // a failed read or decode, at startup or on reload
    | KeyboardUnavailable             // the key injector could not be created
    | TickerPanic                     // the timer was asked for a non-positive period
    | Signalled                       // an interrupt or terminate signal arrived

  datatype Status = Running | Exited(reason: Exit)

  /**
    The process state the loop carries: the stored configuration, the
    logger's effective settings, the timer period fixed at startup in
    nanoseconds, and whether the process is still running.
   */
  datatype Process = Process(config: Config, logger: LogSettings, periodNanos: int, status: Status)

  /** One input to the loop. A tick carries the time of day and the keyboard's behaviour for its gesture. */
  datatype Event =
    | Tick(now: TimeOfDay, kb: Keyboard)
    | FileChanged(ev: FsEvent, files: Files)
    | Signal

  /** What the loop did with one event. */
  datatype Outcome =
    | Ticked(fired: bool, trace: seq<Action>, err: Option<KeyError>)
    | Watched(reload: ReloadOutcome)
    | Stopped

  /** Two's-complement wrap-around of a 64-bit signed product. */
  function WrapInt64(x: int): (r: Int64)
    ensures (r - x) % Two64 == 0
    ensures -Two63 <= x < Two63 ==> r == x
  {
    (x + Two63) % Two64 - Two63
  }

  /** The timer period: the ticker's seconds times one second, as a 64-bit duration product. */
  function TickPeriod(ticker: Int64): (d: Int64)
    ensures (d - ticker * NanosPerSecond) % Two64 == 0
    ensures 0 < ticker && ticker * NanosPerSecond < Two63 ==> d == ticker * NanosPerSecond && d > 0
    ensures ticker <= 0 && ticker * NanosPerSecond >= -Two63 ==> d <= 0
  {
    WrapInt64(ticker * NanosPerSecond)
  }

  /**
    A ticker of about 584 years wraps to a period under a third of a
    second, one just past the signed range wraps to a negative period, and
    one just past it on the negative side wraps to a positive period. The
    largest ticker that does not overflow keeps its exact period.
   */
  lemma TickPeriodWraps()
    ensures TickPeriod(18_446_744_074) == 290_448_384
    ensures TickPeriod(9_223_372_037) < 0
    ensures TickPeriod(-9_223_372_037) == 9_223_372_036_709_551_616
    ensures TickPeriod(9_223_372_036) == 9_223_372_036_000_000_000
  {
  }

  /**
    Startup: load (abort on failure), build the logger, create the key
    injector (abort on failure), and start the timer, which panics on a
    non-positive period. Daemonising is not part of this model.
   */
  function Startup(files: Files, decode: Decoder, keyboardReady: bool): (r: Result<Process, Exit>)
    ensures LoadConfig(files, decode).Failure? ==> r == Failure(LoadAborted(LoadConfig(files, decode).error))
    ensures LoadConfig(files, decode).Success? && !keyboardReady ==> r == Failure(KeyboardUnavailable)
    ensures r.Success? ==>
              && LoadConfig(files, decode) == Success(r.value.config)
              && r.value.status == Running
              && r.value.logger == EffectiveLog(r.value.config.log)
              && r.value.periodNanos > 0
              && r.value.periodNanos == TickPeriod(r.value.config.ticker)
    ensures LoadConfig(files, decode).Success? && keyboardReady ==>
              (r.Success? <==> TickPeriod(LoadConfig(files, decode).value.ticker) > 0)
    ensures (LoadConfig(files, decode).Success? && keyboardReady &&
             TickPeriod(LoadConfig(files, decode).value.ticker) <= 0) ==> r == Failure(TickerPanic)
  {
    match LoadConfig(files, decode)
    case Failure(e) => Failure(LoadAborted(e))
    case Success(config) =>
      if !keyboardReady then Failure(KeyboardUnavailable)
      else
        var period := TickPeriod(config.ticker);
        if period <= 0 then Failure(TickerPanic)
        else Success(Process(config, EffectiveLog(config.log), period, Running))
  }

  /**
    The effect of one event on the process state. Ticks change nothing;
    a reload replaces the configuration and rebuilds the logger, or aborts
    the process; a signal stops it. A stopped process ignores everything.
   */
  function Step(p: Process, e: Event, decode: Decoder): Process
  {
    if !p.status.Running? then p
    else
      match e
      case Tick(_, _) => p
      case Signal => p.(status := Exited(Signalled))
      case FileChanged(ev, files) =>
        match OnEvent(ev, files, decode)
        case Ignored => p
        case Aborted(err) => p.(status := Exited(LoadAborted(err)))
        case Reloaded(config, _) => p.(config := config, logger := EffectiveLog(config.log))
  }

  /**
    What one event can do: it never changes the timer period; a tick, and
    so a tick whose gesture failed, changes nothing; a signal stops a
    running process and leaves its configuration alone; a stopped process
    ignores every event.
   */
  lemma StepFacts(p: Process, e: Event, decode: Decoder)
    ensures Step(p, e, decode).periodNanos == p.periodNanos
    ensures !p.status.Running? ==> Step(p, e, decode) == p
    ensures e.Tick? ==> Step(p, e, decode) == p
    ensures p.status.Running? && e.Signal? ==>
              Step(p, e, decode).status == Exited(Signalled) && Step(p, e, decode).config == p.config
  {
  }

  /** The process state after the first `n` events. */
  function StateAt(p0: Process, events: seq<Event>, n: nat, decode: Decoder): Process
    requires n <= |events|
    decreases n
  {
    if n == 0 then p0
    else Step(StateAt(p0, events, n - 1, decode), events[n - 1], decode)
  }

  /**
    The reload step on a running process: an ignored event changes
    nothing; a failed load stops the process without assigning the
    configuration; a successful load replaces it wholesale, whatever it
    was before, and the logger is rebuilt from the new value.
   */
  lemma ReloadStep(p: Process, ev: FsEvent, files: Files, decode: Decoder)
    requires p.status.Running?
    ensures var q := Step(p, FileChanged(ev, files), decode);
      && (!ShouldReload(ev, ConfigPath) ==> q == p)
      && (ShouldReload(ev, ConfigPath) && LoadConfig(files, decode).Failure? ==>
            q == p.(status := Exited(LoadAborted(LoadConfig(files, decode).error))))
      && (ShouldReload(ev, ConfigPath) && LoadConfig(files, decode).Success? ==>
            && q.status == Running
            && q.config == LoadConfig(files, decode).value
            && q.logger == EffectiveLog(q.config.log))
  {
  }

  /** An exited process stays exited, whatever follows. */
  lemma {:induction false} ExitedIsTerminal(p: Process, events: seq<Event>, n: nat, decode: Decoder)
    requires n <= |events|
    requires !p.status.Running?
    ensures StateAt(p, events, n, decode) == p
    decreases n
  {
    if n > 0 {
      ExitedIsTerminal(p, events, n - 1, decode);
      StepFacts(p, events[n - 1], decode);
    }
  }

  /**
    A signal fixes the process state for good: every later state has the
    status reached just after the signal, which is the signalled exit if
    the process was still running when the signal arrived.
   */
  lemma {:induction false} NothingAfterSignal(p: Process, events: seq<Event>, k: nat, n: nat, decode: Decoder)
    requires k < n <= |events| && events[k].Signal?
    ensures !StateAt(p, events, n, decode).status.Running?
    ensures StateAt(p, events, k, decode).status.Running? ==>
              StateAt(p, events, n, decode).status == Exited(Signalled)
    decreases n
  {
    var before := StateAt(p, events, n - 1, decode);
    StepFacts(before, events[n - 1], decode);
    if n > k + 1 {
      NothingAfterSignal(p, events, k, n - 1, decode);
    }
  }

  /**
    The part of the state that decides the loop's behaviour: status,
    timer period, time ranges and logger settings. The stored ticker and
    daemon flag are not part of it.
   */
  predicate SameBehaviour(p: Process, q: Process) {
    && p.status == q.status
    && p.periodNanos == q.periodNanos
    && p.config.timeRanges == q.config.timeRanges
    && p.logger == q.logger
  }

  /**
    What startup establishes about a running process: its logger is the
    one built from its configuration, and its timer period is positive.
   */
  predicate Coherent(p: Process) {
    p.logger == EffectiveLog(p.config.log) && p.periodNanos > 0
  }

  /** Every event keeps a coherent process coherent: a reload rebuilds the logger from the new configuration. */
  lemma {:induction false} CoherentPreserved(p: Process, events: seq<Event>, n: nat, decode: Decoder)
    requires n <= |events| && Coherent(p)
    ensures Coherent(StateAt(p, events, n, decode))
    decreases n
  {
    if n > 0 {
      CoherentPreserved(p, events, n - 1, decode);
      StepFacts(StateAt(p, events, n - 1, decode), events[n - 1], decode);
    }
  }

  /**
    A process that started has, after any events, the logger built from
    its current configuration and the positive period startup chose.
   */
  lemma StartupCoherent(files: Files, decode: Decoder, keyboardReady: bool, events: seq<Event>, n: nat)
    requires n <= |events| && Startup(files, decode, keyboardReady).Success?
    ensures var p := StateAt(Startup(files, decode, keyboardReady).value, events, n, decode);
      && p.logger == EffectiveLog(p.config.log)
      && p.periodNanos == Startup(files, decode, keyboardReady).value.periodNanos > 0
  {
    var p0 := Startup(files, decode, keyboardReady).value;
    CoherentPreserved(p0, events, n, decode);
    StateIgnoresTickerAndDaemon(p0, p0, events, n, decode);
  }

  /**
    The period never changes after startup, and the ticker and daemon
    values a reload stores are never consulted: two processes that agree
    on everything else keep agreeing over any events.
   */
  lemma {:induction false} StateIgnoresTickerAndDaemon(p: Process, q: Process, events: seq<Event>, n: nat, decode: Decoder)
    requires n <= |events|
    requires SameBehaviour(p, q)
    ensures SameBehaviour(StateAt(p, events, n, decode), StateAt(q, events, n, decode))
    ensures StateAt(p, events, n, decode).periodNanos == p.periodNanos
    decreases n
  {
    if n > 0 {
      StateIgnoresTickerAndDaemon(p, q, events, n - 1, decode);
      StepFacts(StateAt(p, events, n - 1, decode), events[n - 1], decode);
    }
  }

  /**
    What the loop must record for event `e` when the process is in state
    `p`: a tick fires iff the current ranges hold an active window, and a
    fired gesture either completes or stops at a failing key operation;
    a file event records the watcher's handling; a signal records the stop.
   */
  predicate OutcomeFits(p: Process, e: Event, o: Outcome, decode: Decoder) {
    match e
    case Tick(now, kb) =>
      && o.Ticked?
      && (o.fired <==> InActiveTime(now, p.config.timeRanges))
      && (!o.fired ==> o.trace == [] && o.err == None)
      && (o.fired ==> GestureOutcome(kb, o.trace, o.err))
    case FileChanged(ev, files) => o == Watched(OnEvent(ev, files, decode))
    case Signal => o == Stopped
  }

  /**
    What Run has recorded after handling the first |log| events: each of
    them was handled while the process ran, each entry fits its event, and
    a signal can only be the last entry.
   */
  predicate Recorded(p0: Process, events: seq<Event>, log: seq<Outcome>, decode: Decoder)
    requires |log| <= |events|
  {
    && (forall j :: 0 <= j < |log| ==> StateAt(p0, events, j, decode).status.Running?)
    && (forall j :: 0 <= j < |log| ==> OutcomeFits(StateAt(p0, events, j, decode), events[j], log[j], decode))
    && (forall j :: 0 <= j < |log| && events[j].Signal? ==>
          j == |log| - 1 && StateAt(p0, events, |log|, decode).status == Exited(Signalled))
  }

  /** Appending the outcome of the next event keeps every entry fitting its event. */
  lemma FitsExtend(p0: Process, events: seq<Event>, log: seq<Outcome>, o: Outcome, decode: Decoder)
    requires |log| < |events|
    requires forall j :: 0 <= j < |log| ==> OutcomeFits(StateAt(p0, events, j, decode), events[j], log[j], decode)
    requires OutcomeFits(StateAt(p0, events, |log|, decode), events[|log|], o, decode)
    ensures forall j :: 0 <= j < |log| + 1 ==>
              OutcomeFits(StateAt(p0, events, j, decode), events[j], (log + [o])[j], decode)
  {
    forall j | 0 <= j < |log| + 1
      ensures OutcomeFits(StateAt(p0, events, j, decode), events[j], (log + [o])[j], decode)
    {
      if j < |log| { assert (log + [o])[j] == log[j]; }
    }
  }

  /** Handling one more event of a running process keeps the record. */
  lemma RecordedExtends(p0: Process, events: seq<Event>, log: seq<Outcome>, o: Outcome, decode: Decoder)
    requires |log| < |events| && Recorded(p0, events, log, decode)
    requires StateAt(p0, events, |log|, decode).status.Running?
    requires OutcomeFits(StateAt(p0, events, |log|, decode), events[|log|], o, decode)
    ensures Recorded(p0, events, log + [o], decode)
  {
    FitsExtend(p0, events, log, o, decode);
    StepFacts(StateAt(p0, events, |log|, decode), events[|log|], decode);
  }

  /** One pass of the select loop's body. */
  method HandleEvent(p: Process, e: Event, decode: Decoder) returns (o: Outcome)
    ensures OutcomeFits(p, e, o, decode)
  {
    match e {
      case Tick(now, kb) =>
        if InActiveTime(now, p.config.timeRanges) {
          var trace, err := SimulateDoubleCapsLock(kb);
          o := Ticked(true, trace, err);
        } else {
          o := Ticked(false, [], None);
        }
      case FileChanged(ev, files) =>
        o := Watched(OnEvent(ev, files, decode));
      case Signal =>
        o := Stopped;
    }
  }

  /**
    The main loop: processes events in order while the process runs. A
    tick fires the gesture iff the configuration current at that tick has
    an active window; a failed gesture is only recorded and the loop goes
    on. A reload is handled by the watcher step; a signal ends the loop.
   */
  method Run(p0: Process, events: seq<Event>, decode: Decoder) returns (p: Process, log: seq<Outcome>)
    ensures |log| <= |events| && p == StateAt(p0, events, |log|, decode)
    ensures p.periodNanos == p0.periodNanos
    ensures p.status.Running? ==> |log| == |events|
    ensures |log| <= |events| && Recorded(p0, events, log, decode)
  {
    p := p0;
    log := [];
    var i := 0;
    while i < |events| && p.status.Running?
      invariant 0 <= i <= |events| && |log| == i
      invariant p == StateAt(p0, events, i, decode)
      invariant p.periodNanos == p0.periodNanos
      invariant Recorded(p0, events, log, decode)
    {
      var o := HandleEvent(p, events[i], decode);
      StepFacts(p, events[i], decode);
      RecordedExtends(p0, events, log, o, decode);
      p := Step(p, events[i], decode);
      log := log + [o];
      i := i + 1;
    }
  }
}
