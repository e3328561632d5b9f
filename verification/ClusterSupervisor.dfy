/**
 server-lib/cluster-supervisor.js: the primary that forks one worker per slot, bounds how long a
 failing worker may linger, restarts crashed slots with back-off, and shuts the group down.

 The step functions specify the event handlers. Timers are armed flags, `kill` and `fork` are
 recorded in `trace`, and the clock is read once per event.
 */
module ClusterSupervisor {
  import opened Wrappers
  import opened Integers

  type Slot = nat

  /** Which worker object a record belongs to; late events of older workers carry older ids. */
  type WorkerId = nat

  datatype Settings = Settings(
    restartWindowMs: int,
    maxRestartsPerWindow: int,
    restartBaseDelayMs: int,
    restartMaxDelayMs: int)
  {
    predicate Valid() {
      0 < restartWindowMs && 0 < maxRestartsPerWindow && 0 < restartBaseDelayMs && 0 < restartMaxDelayMs
    }
  }

  datatype Reason = NoReason | WorkerError | ReadyTimeout

  datatype Record = Record(
    id: WorkerId,
    ready: bool,
    startupTimedOut: bool,
    reason: Reason,
    readyTimer: bool,
    terminationTimer: bool,
    exitFallbackTimer: bool)

  datatype Signal = SIGTERM | SIGKILL

  /** Calls to the outside, requests to shut down, and the log lines that matter, in order. */
  datatype Effect =
    | Forked(slot: Slot, id: WorkerId)
    | ForkFailed(slot: Slot)
    | BecameReady(slot: Slot)
    | Killed(slot: Slot, signal: Signal)
    | KilledAll(signal: Signal)
    | Crashed(slot: Slot, at: int)
    | CrashLoop(slot: Slot)
    | RestartScheduled(slot: Slot, delayMs: int)
    | ShutdownRequested(code: int)
    | ShutdownStarted
    | ShutdownTimedOut
    | FailedExit(slot: Slot)
    | PrimaryExit(code: int)

  datatype Supervisor = Supervisor(
    settings: Settings,
    workerCount: nat,
    started: bool,
    shuttingDown: bool,
    secondaryStarted: bool,
    exitCode: int,  // requestedExitCode
    shutdownTimer: bool,
    forceExitTimer: bool,
    exited: bool,
    workers: map<Slot, Record>,
    restarts: set<Slot>,  // slots with an armed restart timer
    crashTimes: map<Slot, seq<int>>,
    nextWorker: WorkerId,
    clock: int,
    trace: seq<Effect>)
  {
    predicate Live(slot: Slot, id: WorkerId) {
      slot in workers && workers[slot].id == id
    }
  }

  function Init(settings: Settings, workerCount: nat, clock: int): Supervisor {
    Supervisor(settings, workerCount, false, false, false, 0, false, false, false, map[], {}, map[], 0, clock, [])
  }

  function Emit(s: Supervisor, e: Effect): Supervisor {
    s.(trace := s.trace + [e])
  }

  function Disarm(r: Record): Record {
    r.(readyTimer := false, terminationTimer := false, exitFallbackTimer := false)
  }

  // ---------------------------------------------------------------------------------------
  // Shutdown
  // ---------------------------------------------------------------------------------------

  function FinishPrimary(s: Supervisor, code: int): Supervisor {
    if s.exited then s
    else Emit(s.(exited := true, shutdownTimer := false, forceExitTimer := false), PrimaryExit(code))
  }

  function MaybeFinishShutdown(s: Supervisor): Supervisor {
    if !s.shuttingDown || s.workers != map[] || s.restarts != {} then s else FinishPrimary(s, s.exitCode)
  }

  function DisarmAll(workers: map<Slot, Record>): map<Slot, Record> {
    map slot | slot in workers :: Disarm(workers[slot])
  }

  function StopAll(s: Supervisor, code: int): Supervisor {
    Emit(Emit(s.(shuttingDown := true, exitCode := code, restarts := {}, workers := DisarmAll(s.workers)),
              ShutdownStarted), KilledAll(SIGTERM))
  }

  function BeginShutdown(s: Supervisor, code: int): Supervisor {
    if s.shuttingDown then Emit(s.(exitCode := Max(s.exitCode, code)), ShutdownRequested(code))
    else
      var t := StopAll(Emit(s, ShutdownRequested(code)), code);
      if t.workers == map[] then MaybeFinishShutdown(t) else t.(shutdownTimer := true)
  }

  function ShutdownTimerFires(s: Supervisor): Supervisor {
    if !s.shutdownTimer then s
    else
      var t := Emit(Emit(s.(shutdownTimer := false, exitCode := 1), ShutdownTimedOut), KilledAll(SIGKILL));
      if t.workers == map[] then MaybeFinishShutdown(t) else t.(forceExitTimer := true)
  }

  function ForceExitTimerFires(s: Supervisor): Supervisor {
    if !s.forceExitTimer then s else FinishPrimary(s.(forceExitTimer := false), 1)
  }

  // ---------------------------------------------------------------------------------------
  // Crashes and restarts
  // ---------------------------------------------------------------------------------------

  function Recent(times: seq<int>, cutoff: int): seq<int> {
    if times == [] then []
    else if times[0] >= cutoff then [times[0]] + Recent(times[1..], cutoff)
    else Recent(times[1..], cutoff)
  }

  function CrashList(s: Supervisor, slot: Slot): seq<int> {
    if slot in s.crashTimes then s.crashTimes[slot] else []
  }

  function RecordCrash(s: Supervisor, slot: Slot): (Supervisor, Option<nat>) {
    var recent := Recent(CrashList(s, slot), s.clock - s.settings.restartWindowMs) + [s.clock];
    var t := Emit(s.(crashTimes := s.crashTimes[slot := recent]), Crashed(slot, s.clock));
    if |recent| >= s.settings.maxRestartsPerWindow then (BeginShutdown(Emit(t, CrashLoop(slot)), 1), None)
    else (t, Some(|recent|))
  }

  function Pow2(n: nat): int {
    if n == 0 then 1 else 2 * Pow2(n - 1)
  }

  function RestartDelay(settings: Settings, failures: nat): int {
    Min(settings.restartBaseDelayMs * Pow2(Max(0, failures - 1)), settings.restartMaxDelayMs)
  }

  function ScheduleRestart(s: Supervisor, slot: Slot, failures: nat): Supervisor {
    if s.shuttingDown || slot in s.restarts then s
    else Emit(s.(restarts := s.restarts + {slot}), RestartScheduled(slot, RestartDelay(s.settings, failures)))
  }

  function CrashAndRestart(s: Supervisor, slot: Slot): Supervisor {
    var (t, failures) := RecordCrash(s, slot);
    if failures.Some? then ScheduleRestart(t, slot, failures.value) else t
  }

  // ---------------------------------------------------------------------------------------
  // Workers
  // ---------------------------------------------------------------------------------------

  /** forkSlot; `fails` says whether cluster.fork throws. */
  function ForkSlot(s: Supervisor, slot: Slot, fails: bool): Supervisor {
    if s.shuttingDown || slot in s.workers then s
    else if fails then CrashAndRestart(Emit(s, ForkFailed(slot)), slot)
    else
      var r := Record(s.nextWorker, false, false, NoReason, true, false, false);
      Emit(s.(workers := s.workers[slot := r], nextWorker := s.nextWorker + 1), Forked(slot, s.nextWorker))
  }

  /** Forks the slots from `slot` up to, but not including, `end`. */
  function ForkRange(s: Supervisor, slot: Slot, end: Slot, failing: set<Slot>): Supervisor
    decreases end - slot
  {
    if slot >= end then s else ForkRange(ForkSlot(s, slot, slot in failing), slot + 1, end, failing)
  }

  function HandleExit(s: Supervisor, slot: Slot, id: WorkerId, code: Option<int>): Supervisor {
    if !s.Live(slot, id) then s
    else
      var t := s.(workers := s.workers - {slot});
      if t.shuttingDown then
        var failed := code.Some? && code.value != 0;
        MaybeFinishShutdown(if failed then Emit(t.(exitCode := 1), FailedExit(slot)) else t)
      else CrashAndRestart(t, slot)
  }

  function WithRecord(s: Supervisor, slot: Slot, r: Record): Supervisor {
    s.(workers := s.workers[slot := r])
  }

  function HandleError(s: Supervisor, slot: Slot, id: WorkerId): Supervisor {
    if !s.Live(slot, id) || s.shuttingDown || s.workers[slot].reason != NoReason then s
    else WithRecord(s, slot, s.workers[slot].(reason := WorkerError, readyTimer := false, terminationTimer := true))
  }

  function HandleReady(s: Supervisor, slot: Slot, id: WorkerId, failing: set<Slot>): Supervisor {
    if !s.Live(slot, id) || s.workers[slot].ready || s.shuttingDown
       || s.workers[slot].startupTimedOut || s.workers[slot].reason != NoReason then s
    else
      var t := Emit(WithRecord(s, slot, Disarm(s.workers[slot].(ready := true))), BecameReady(slot));
      if slot == 0 && !t.secondaryStarted then ForkRange(t.(secondaryStarted := true), 1, s.workerCount, failing) else t
  }

  function ReadyTimerFires(s: Supervisor, slot: Slot): Supervisor {
    if slot !in s.workers || !s.workers[slot].readyTimer then s
    else
      var r := s.workers[slot].(readyTimer := false);
      if r.ready || s.shuttingDown then WithRecord(s, slot, r)
      else
        Emit(WithRecord(s, slot, r.(startupTimedOut := true, reason := ReadyTimeout, terminationTimer := true)),
             Killed(slot, SIGTERM))
  }

  /** forceKillWorkerAndBoundExit, from the termination timer. */
  function TerminationTimerFires(s: Supervisor, slot: Slot): Supervisor {
    if slot !in s.workers || !s.workers[slot].terminationTimer then s
    else
      var r := s.workers[slot].(terminationTimer := false);
      if s.shuttingDown then WithRecord(s, slot, r)
      else Emit(WithRecord(s, slot, r.(exitFallbackTimer := true)), Killed(slot, SIGKILL))
  }

  /** The synthetic exit. */
  function FallbackTimerFires(s: Supervisor, slot: Slot): Supervisor {
    if slot !in s.workers || !s.workers[slot].exitFallbackTimer then s
    else
      var t := WithRecord(s, slot, s.workers[slot].(exitFallbackTimer := false));
      if t.shuttingDown then t else HandleExit(t, slot, t.workers[slot].id, None)
  }

  function RestartTimerFires(s: Supervisor, slot: Slot, fails: bool): Supervisor {
    if slot !in s.restarts then s else ForkSlot(s.(restarts := s.restarts - {slot}), slot, fails)
  }

  function Start(s: Supervisor, fails: bool): Supervisor {
    if s.started then s else ForkSlot(s.(started := true), 0, fails)
  }

  // ---------------------------------------------------------------------------------------
  // Runs
  // ---------------------------------------------------------------------------------------

  datatype Event =
    | StartCall(fails: bool)
    | ShutdownCall(requestedCode: int)
    | ReadyMessage(slot: Slot, id: WorkerId, failing: set<Slot>)
    | ErrorEvent(slot: Slot, id: WorkerId)
    | ExitEvent(slot: Slot, id: WorkerId, code: Option<int>)
    | ReadyTimer(slot: Slot)
    | TerminationTimer(slot: Slot)
    | FallbackTimer(slot: Slot)
    | RestartTimer(slot: Slot, fails: bool)
    | ShutdownTimer
    | ForceExitTimer

  function Apply(s: Supervisor, e: Event): Supervisor {
    match e
    case StartCall(fails) => Start(s, fails)
    case ShutdownCall(code) => BeginShutdown(s, code)
    case ReadyMessage(slot, id, failing) => HandleReady(s, slot, id, failing)
    case ErrorEvent(slot, id) => HandleError(s, slot, id)
    case ExitEvent(slot, id, code) => HandleExit(s, slot, id, code)
    case ReadyTimer(slot) => ReadyTimerFires(s, slot)
    case TerminationTimer(slot) => TerminationTimerFires(s, slot)
    case FallbackTimer(slot) => FallbackTimerFires(s, slot)
    case RestartTimer(slot, fails) => RestartTimerFires(s, slot, fails)
    case ShutdownTimer => ShutdownTimerFires(s)
    case ForceExitTimer => ForceExitTimerFires(s)
  }

  /** An event `after` milliseconds later. */
  datatype Timed = Timed(after: nat, event: Event)

  function Next(s: Supervisor, e: Timed): Supervisor {
    Apply(s.(clock := s.clock + e.after), e.event)
  }

  function Run(s: Supervisor, events: seq<Timed>): Supervisor
    decreases |events|
  {
    if events == [] then s else Run(Next(s, events[0]), events[1..])
  }
}
