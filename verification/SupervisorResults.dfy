/** The main results about the cluster supervisor, over every reachable state and every run. */
module SupervisorResults {
  import opened Wrappers
  import opened Integers
  import opened ClusterSupervisor
  import opened SupervisorProofs

  // ---------------------------------------------------------------------------------------
  // Slots
  // ---------------------------------------------------------------------------------------

  /**
   Before shutdown a started slot is live or waiting for its restart, never both, and every
   call of cluster.fork for it is accounted for: each recorded crash and the live worker had one.
   */
  lemma SlotsAreConserved(s: Supervisor, slot: Slot)
    requires Reachable(s) && !s.shuttingDown
    ensures StartedSlot(s, slot) <==> slot in s.workers || slot in s.restarts
    ensures !(slot in s.workers && slot in s.restarts)
    ensures Attempts(s.trace, slot) == |Crashes(s.trace, slot)| + (if slot in s.workers then 1 else 0)
  {
    hide WorkersInv, CrashInv, ShutdownInv, TraceInv, CodeInv;
    ReachableHasInv(s);
  }

  /** Slots above 0 are forked only after slot 0 was ready, and nothing is forked in a shutdown. */
  lemma ForksAreInOrder(s: Supervisor, i: nat)
    requires Reachable(s) && i < |s.trace| && IsFork(s.trace[i])
    ensures IsSecondaryFork(s.trace[i]) ==> Shows(s.trace[..i], BecameReady(0))
    ensures !Shows(s.trace[..i], ShutdownStarted)
  {
    hide WorkersInv, SlotsInv, AttemptsInv, CrashInv, ShutdownInv, CodeInv;
    ReachableHasInv(s);
    assert InOrder(s.trace, i);
  }

  // ---------------------------------------------------------------------------------------
  // Crash loops and back-off
  // ---------------------------------------------------------------------------------------

  /** The list the source prunes at every crash is the full history inside the current window. */
  lemma CrashListIsTheRecentHistory(s: Supervisor, slot: Slot)
    requires Reachable(s)
    ensures
      var history := Crashes(s.trace, slot);
      CrashList(s, slot) ==
        if history == [] then [] else Recent(history, history[|history| - 1] - s.settings.restartWindowMs)
  {
    hide WorkersInv, SlotsInv, AttemptsInv, ShutdownInv, TraceInv, CodeInv, Sorted, Sparse;
    ReachableHasInv(s);
    assert Pruned(Crashes(s.trace, slot), CrashList(s, slot), s.settings.restartWindowMs);
  }

  /** Before shutdown no closed window holds as many crashes of one slot as the limit allows restarts. */
  lemma NoWindowIsCrowded(s: Supervisor, slot: Slot, i: nat, j: nat)
    requires Reachable(s) && !s.shuttingDown
    requires i <= j < |Crashes(s.trace, slot)|
    requires Crashes(s.trace, slot)[j] - Crashes(s.trace, slot)[i] <= s.settings.restartWindowMs
    ensures j - i + 1 <= s.settings.maxRestartsPerWindow - 1
  {
    hide WorkersInv, SlotsInv, AttemptsInv, ShutdownInv, TraceInv, CodeInv;
    ReachableHasInv(s);
    var times := Crashes(s.trace, slot);
    var limit := s.settings.maxRestartsPerWindow;
    assert Pruned(times, CrashList(s, slot), s.settings.restartWindowMs);
    FullWindowIsWide(times, CrashList(s, slot), s.settings.restartWindowMs, limit, i, j);
  }

  /** As many crashes as the limit allows span more than the window. */
  lemma FullWindowIsWide(times: seq<int>, recent: seq<int>, window: int, limit: int, i: nat, j: nat)
    requires limit > 0 && Pruned(times, recent, window) && Sparse(times, window, limit)
    requires i <= j < |times|
    ensures i + limit - 1 <= j ==> times[j] - times[i] > window
  {
    if i + limit - 1 <= j {
      assert times[i + limit - 1] - times[i] > window;
      assert times[i + limit - 1] <= times[j];
    }
  }

  lemma {:induction false} Pow2Grows(m: nat, n: nat)
    requires m <= n
    ensures 1 <= Pow2(m) <= Pow2(n)
    decreases n
  {
    if m < n {
      Pow2Grows(m, n - 1);
    } else if n > 0 {
      Pow2Grows(n - 1, n - 1);
    }
  }

  lemma ScaledPowersGrow(base: int, m: nat, n: nat)
    requires 0 < base && m <= n
    ensures 0 < base * Pow2(m) <= base * Pow2(n)
    ensures m < n ==> base * Pow2(n) >= 2 * (base * Pow2(m))
  {
    Pow2Grows(m, n);
    ProductGrows(base, Pow2(m), Pow2(n));
    if m < n {
      Pow2Grows(m, n - 1);
      ProductGrows(base, Pow2(m), Pow2(n - 1));
      assert Pow2(n) == 2 * Pow2(n - 1);
      hide Pow2;
      TwiceTheProduct(base, Pow2(n - 1));
    }
  }

  lemma TwiceTheProduct(a: int, b: int)
    ensures a * (2 * b) == 2 * (a * b)
  {
  }

  lemma ProductGrows(base: int, a: int, b: int)
    requires 0 < base && 1 <= a <= b
    ensures 0 < base * a <= base * b
  {
  }

  /**
   Restart delays are positive, grow with the number of recent failures, at least double until
   they reach the maximum, and never exceed it.
   */
  lemma RestartDelayGrows(settings: Settings, few: nat, many: nat)
    requires settings.Valid() && few <= many
    ensures 0 < RestartDelay(settings, few) <= RestartDelay(settings, many) <= settings.restartMaxDelayMs
    ensures 1 <= few && few < many && RestartDelay(settings, many) < settings.restartMaxDelayMs ==>
              RestartDelay(settings, many) >= 2 * RestartDelay(settings, few)
  {
    hide Pow2;
    ScaledPowersGrow(settings.restartBaseDelayMs, Max(0, few - 1), Max(0, many - 1));
  }

  // ---------------------------------------------------------------------------------------
  // No stuck worker
  // ---------------------------------------------------------------------------------------

  /** Outside shutdown a record is healthy with no timer, or exactly one fitting timer is armed. */
  lemma EveryRecordIsHealthyOrTimed(s: Supervisor, slot: Slot)
    requires Reachable(s) && !s.shuttingDown && slot in s.workers
    ensures Healthy(s.workers[slot]) || OneTimer(s.workers[slot])
    ensures Healthy(s.workers[slot]) <==> NoTimer(s.workers[slot])
  {
    hide SlotsInv, AttemptsInv, CrashInv, ShutdownInv, TraceInv, CodeInv;
    ReachableHasInv(s);
  }

  /** How many more timers can fire for a record; an error puts a healthy one back to two. */
  function Rank(r: Record): nat {
    if r.readyTimer then 3
    else if r.terminationTimer then 2
    else if r.exitFallbackTimer then 1
    else 0
  }

  function Potential(s: Supervisor, slot: Slot, id: WorkerId): nat {
    if !s.Live(slot, id) || s.shuttingDown then 0
    else if Healthy(s.workers[slot]) then 2
    else Rank(s.workers[slot])
  }

  predicate FiresFor(s: Supervisor, e: Event, slot: Slot, id: WorkerId) {
    && s.Live(slot, id)
    && ((e == ReadyTimer(slot) && s.workers[slot].readyTimer)
        || (e == TerminationTimer(slot) && s.workers[slot].terminationTimer)
        || (e == FallbackTimer(slot) && s.workers[slot].exitFallbackTimer))
  }

  /** How many timers of one worker fire in a run. */
  function Firings(s: Supervisor, events: seq<Timed>, slot: Slot, id: WorkerId): nat
    decreases |events|
  {
    if events == [] then 0
    else (if FiresFor(s, events[0].event, slot, id) then 1 else 0) + Firings(Next(s, events[0]), events[1..], slot, id)
  }

  /** The step kept the records of `s`, up to shutdown, and forked only fresh worker ids. */
  ghost predicate Extends(s: Supervisor, t: Supervisor) {
    && s.nextWorker <= t.nextWorker
    && (s.shuttingDown ==> t.shuttingDown)
    && forall slot :: slot in t.workers ==>
         || s.nextWorker <= t.workers[slot].id
         || (slot in s.workers && t.workers[slot].id == s.workers[slot].id
             && (t.shuttingDown || t.workers[slot] == s.workers[slot]))
  }

  lemma ExtensionKeepsPotentialLow(s: Supervisor, t: Supervisor, slot: Slot, id: WorkerId)
    requires Extends(s, t) && id < s.nextWorker
    ensures Potential(t, slot, id) <= Potential(s, slot, id)
  {
  }

  lemma BeginShutdownExtends(s: Supervisor, code: int)
    ensures Extends(s, BeginShutdown(s, code))
    ensures BeginShutdown(s, code).workers.Keys == s.workers.Keys
    ensures BeginShutdown(s, code).shuttingDown
  {
    hide MaybeFinishShutdown, DisarmAll, Max;
    DisarmingKeepsIds(s.workers);
    FinishKeepsRecords(StopAll(Emit(s, ShutdownRequested(code)), code));
  }

  lemma DisarmingKeepsIds(workers: map<Slot, Record>)
    ensures DisarmAll(workers).Keys == workers.Keys
    ensures forall slot :: slot in workers ==> DisarmAll(workers)[slot].id == workers[slot].id
  {
  }

  lemma CrashAndRestartExtends(s: Supervisor, slot: Slot)
    ensures Extends(s, CrashAndRestart(s, slot))
    ensures CrashAndRestart(s, slot).workers.Keys == s.workers.Keys
  {
    hide Recent, RestartDelay, CrashList, BeginShutdown;
    BeginShutdownExtends(Emit(WithCrash(s, slot), CrashLoop(slot)), 1);
  }

  lemma ForkSlotExtends(s: Supervisor, slot: Slot, fails: bool)
    ensures Extends(s, ForkSlot(s, slot, fails))
  {
    hide CrashAndRestart;
    if fails {
      CrashAndRestartExtends(Emit(s, ForkFailed(slot)), slot);
    }
  }

  lemma {:induction false} ForkRangeExtends(s: Supervisor, slot: Slot, end: Slot, failing: set<Slot>)
    ensures Extends(s, ForkRange(s, slot, end, failing))
    decreases end - slot
  {
    hide ForkSlot;
    if slot < end {
      ForkSlotExtends(s, slot, slot in failing);
      ForkRangeExtends(ForkSlot(s, slot, slot in failing), slot + 1, end, failing);
    }
  }

  lemma ExitExtends(s: Supervisor, slot: Slot, id: WorkerId, code: Option<int>)
    ensures Extends(s, HandleExit(s, slot, id, code))
    ensures !HandleExit(s, slot, id, code).Live(slot, id)
  {
    hide CrashAndRestart, MaybeFinishShutdown;
    if s.Live(slot, id) {
      var t := s.(workers := s.workers - {slot});
      CrashAndRestartExtends(t, slot);
      FinishKeepsRecords(t);
      FinishKeepsRecords(Emit(t.(exitCode := 1), FailedExit(slot)));
    }
  }

  lemma FinishKeepsRecords(s: Supervisor)
    ensures
      var t := MaybeFinishShutdown(s);
      t.workers == s.workers && t.nextWorker == s.nextWorker && t.shuttingDown == s.shuttingDown
  {
  }

  lemma ReadyLowersPotential(s: Supervisor, k: Slot, kid: WorkerId, failing: set<Slot>, slot: Slot, id: WorkerId)
    requires Inv(s, {}, {}) && id < s.nextWorker
    ensures Potential(HandleReady(s, k, kid, failing), slot, id) <= Potential(s, slot, id)
    ensures s.nextWorker <= HandleReady(s, k, kid, failing).nextWorker
  {
    hide ForkRange, SlotsInv, AttemptsInv, CrashInv, ShutdownInv, TraceInv, CodeInv;
    if s.Live(k, kid) && !s.workers[k].ready && !s.shuttingDown
       && !s.workers[k].startupTimedOut && s.workers[k].reason == NoReason {
      var t := Emit(WithRecord(s, k, Disarm(s.workers[k].(ready := true))), BecameReady(k));
      ForkRangeExtends(t.(secondaryStarted := true), 1, s.workerCount, failing);
    }
  }

  lemma FallbackLowersPotential(s: Supervisor, k: Slot, slot: Slot, id: WorkerId)
    requires Inv(s, {}, {}) && id < s.nextWorker
    ensures Potential(FallbackTimerFires(s, k), slot, id)
          + (if FiresFor(s, FallbackTimer(k), slot, id) then 1 else 0) <= Potential(s, slot, id)
    ensures s.nextWorker <= FallbackTimerFires(s, k).nextWorker
  {
    hide HandleExit, SlotsInv, AttemptsInv, CrashInv, ShutdownInv, TraceInv, CodeInv;
    if k in s.workers && s.workers[k].exitFallbackTimer {
      var fired := WithRecord(s, k, s.workers[k].(exitFallbackTimer := false));
      ExitExtends(fired, k, s.workers[k].id, None);
    }
  }

  lemma ReadyTimerLowersPotential(s: Supervisor, k: Slot, slot: Slot, id: WorkerId)
    requires Inv(s, {}, {}) && id < s.nextWorker
    ensures Potential(ReadyTimerFires(s, k), slot, id)
          + (if FiresFor(s, ReadyTimer(k), slot, id) then 1 else 0) <= Potential(s, slot, id)
    ensures ReadyTimerFires(s, k).nextWorker == s.nextWorker
  {
    hide SlotsInv, AttemptsInv, CrashInv, ShutdownInv, TraceInv, CodeInv;
  }

  lemma TerminationTimerLowersPotential(s: Supervisor, k: Slot, slot: Slot, id: WorkerId)
    requires Inv(s, {}, {}) && id < s.nextWorker
    ensures Potential(TerminationTimerFires(s, k), slot, id)
          + (if FiresFor(s, TerminationTimer(k), slot, id) then 1 else 0) <= Potential(s, slot, id)
    ensures TerminationTimerFires(s, k).nextWorker == s.nextWorker
  {
    hide SlotsInv, AttemptsInv, CrashInv, ShutdownInv, TraceInv, CodeInv;
  }

  lemma ErrorLowersPotential(s: Supervisor, k: Slot, kid: WorkerId, slot: Slot, id: WorkerId)
    requires Inv(s, {}, {})
    ensures Potential(HandleError(s, k, kid), slot, id) <= Potential(s, slot, id)
    ensures HandleError(s, k, kid).nextWorker == s.nextWorker
  {
    hide SlotsInv, AttemptsInv, CrashInv, ShutdownInv, TraceInv, CodeInv;
  }

  lemma ShutdownLowersPotential(s: Supervisor, e: Event, slot: Slot, id: WorkerId)
    requires Inv(s, {}, {}) && (e.ShutdownCall? || e.ShutdownTimer? || e.ForceExitTimer?)
    ensures Potential(Apply(s, e), slot, id) <= Potential(s, slot, id)
    ensures Apply(s, e).nextWorker == s.nextWorker
  {
    hide WorkersInv, SlotsInv, AttemptsInv, CrashInv, TraceInv, CodeInv;
  }

  /** No event raises the potential of a worker, and a timer of that worker lowers it. */
  lemma ApplyLowersPotential(s: Supervisor, e: Event, slot: Slot, id: WorkerId)
    requires Inv(s, {}, {}) && id < s.nextWorker
    ensures Potential(Apply(s, e), slot, id) + (if FiresFor(s, e, slot, id) then 1 else 0) <= Potential(s, slot, id)
    ensures s.nextWorker <= Apply(s, e).nextWorker
  {
    hide SlotsInv, AttemptsInv, CrashInv, ShutdownInv, TraceInv, CodeInv, CrashAndRestart, ForkRange, HandleReady,
      HandleExit, ForkSlot, FallbackTimerFires, ReadyTimerFires, TerminationTimerFires, BeginShutdown, HandleError;
    match e
    case StartCall(fails) =>
      ForkSlotExtends(s.(started := true), 0, fails);
      ExtensionKeepsPotentialLow(s.(started := true), ForkSlot(s.(started := true), 0, fails), slot, id);
    case ReadyMessage(k, kid, failing) => ReadyLowersPotential(s, k, kid, failing, slot, id);
    case ErrorEvent(k, kid) => ErrorLowersPotential(s, k, kid, slot, id);
    case ExitEvent(k, kid, code) =>
      ExitExtends(s, k, kid, code);
      ExtensionKeepsPotentialLow(s, HandleExit(s, k, kid, code), slot, id);
    case RestartTimer(k, fails) =>
      var t := s.(restarts := s.restarts - {k});
      ForkSlotExtends(t, k, fails);
      ExtensionKeepsPotentialLow(t, ForkSlot(t, k, fails), slot, id);
    case ReadyTimer(k) => ReadyTimerLowersPotential(s, k, slot, id);
    case TerminationTimer(k) => TerminationTimerLowersPotential(s, k, slot, id);
    case FallbackTimer(k) => FallbackLowersPotential(s, k, slot, id);
    case _ => ShutdownLowersPotential(s, e, slot, id);
  }

  /**
   Over every run, however errors, ready messages, exits and other workers interleave, at most
   three timers of one worker ever fire, and each leaves fewer to come.
   */
  lemma {:induction false} AtMostThreeTimersPerWorker(s: Supervisor, events: seq<Timed>, slot: Slot, id: WorkerId)
    requires Inv(s, {}, {}) && id < s.nextWorker
    ensures Firings(s, events, slot, id) + Potential(Run(s, events), slot, id) <= Potential(s, slot, id) <= 3
    decreases |events|
  {
    hide Inv, Apply;
    if events != [] {
      var later := s.(clock := s.clock + events[0].after);
      TickKeepsInv(s, events[0].after);
      ApplyLowersPotential(later, events[0].event, slot, id);
      NextKeepsInv(s, events[0]);
      AtMostThreeTimersPerWorker(Next(s, events[0]), events[1..], slot, id);
    }
  }

  /** The timer that is armed for an unready or errored record. */
  function ArmedTimer(s: Supervisor, slot: Slot): Event
    requires slot in s.workers
  {
    if s.workers[slot].readyTimer then ReadyTimer(slot)
    else if s.workers[slot].terminationTimer then TerminationTimer(slot)
    else FallbackTimer(slot)
  }

  /** The state after the armed timers of a slot fired `n` times, and nothing else happened. */
  function AfterTimers(s: Supervisor, slot: Slot, n: nat): Supervisor
    decreases n
  {
    if n == 0 || slot !in s.workers then s else AfterTimers(Apply(s, ArmedTimer(s, slot)), slot, n - 1)
  }

  /**
   Even if the worker never answers and `exit` is never emitted, its timers alone remove it:
   one that is starting in three firings, one that failed in at most two.
   */
  lemma {:induction false} TimersAloneRemoveAFailedWorker(s: Supervisor, slot: Slot)
    requires Inv(s, {}, {}) && !s.shuttingDown && slot in s.workers && !Healthy(s.workers[slot])
    ensures 1 <= Rank(s.workers[slot]) <= 3
    ensures !AfterTimers(s, slot, Rank(s.workers[slot])).Live(slot, s.workers[slot].id)
    decreases Rank(s.workers[slot])
  {
    hide SlotsInv, AttemptsInv, CrashInv, ShutdownInv, TraceInv, CodeInv, HandleExit;
    var t := Apply(s, ArmedTimer(s, slot));
    ApplyKeepsInv(s, ArmedTimer(s, slot));
    if Rank(s.workers[slot]) == 1 {
      var fired := WithRecord(s, slot, s.workers[slot].(exitFallbackTimer := false));
      ExitExtends(fired, slot, s.workers[slot].id, None);
      assert AfterTimers(t, slot, 0) == t;
    } else {
      TimersAloneRemoveAFailedWorker(t, slot);
    }
  }

  // ---------------------------------------------------------------------------------------
  // Shutdown
  // ---------------------------------------------------------------------------------------

  /** A shutdown under way has a worker to wait for and exactly one timer; two firings end it. */
  lemma TwoTimersEndAShutdown(s: Supervisor)
    requires Reachable(s) && s.shuttingDown && !s.exited
    ensures s.workers != map[] && s.restarts == {} && s.shutdownTimer != s.forceExitTimer
    ensures s.forceExitTimer ==> Apply(s, ForceExitTimer).exited
    ensures s.shutdownTimer ==>
              Apply(s, ShutdownTimer).forceExitTimer && Apply(Apply(s, ShutdownTimer), ForceExitTimer).exited
  {
    hide WorkersInv, AttemptsInv, CrashInv, TraceInv, CodeInv;
    ReachableHasInv(s);
  }

  /** The process exits at most once, and with code 0 only after an orderly shutdown. */
  lemma ExitsOnceAndZeroMeansOrderly(s: Supervisor, i: nat)
    requires Reachable(s) && i < |s.trace| && s.trace[i].PrimaryExit?
    ensures s.exited && s.shuttingDown
    ensures forall j :: 0 <= j < |s.trace| && s.trace[j].PrimaryExit? ==> j == i
    ensures s.trace[i] == PrimaryExit(0) ==> forall j :: 0 <= j < i ==> !IsBad(s.trace[j])
  {
    hide WorkersInv, SlotsInv, AttemptsInv, CrashInv, CodeInv;
    ReachableHasInv(s);
    assert InOrder(s.trace, i);
    forall j | 0 <= j < |s.trace| && s.trace[j].PrimaryExit? ensures j == i {
      assert InOrder(s.trace, j);
      InPrefix(s.trace, i, j);
      InPrefix(s.trace, j, i);
    }
    if s.trace[i] == PrimaryExit(0) {
      forall j | 0 <= j < i ensures !IsBad(s.trace[j]) {
        assert s.trace[..i][j] == s.trace[j];
      }
    }
  }

  lemma InPrefix(trace: seq<Effect>, i: nat, j: nat)
    requires j <= |trace|
    ensures i < j ==> trace[..j][i] == trace[i]
  {
  }

  /** The process exits when every worker is gone and none is pending, or by force with code 1. */
  lemma ExitWaitsForEveryWorker(s: Supervisor, e: Event)
    requires Inv(s, {}, {}) && !s.exited && Apply(s, e).exited
    ensures
      var t := Apply(s, e);
      || (t.workers == map[] && t.restarts == {})
      || (e == ForceExitTimer && t.trace == s.trace + [PrimaryExit(1)])
  {
    hide WorkersInv, AttemptsInv, CrashInv, TraceInv, CodeInv, ForkRange, ForkSlot, HandleExit;
    match e
    case StartCall(fails) => ForkExit(s.(started := true), 0, fails);
    case RestartTimer(k, fails) => ForkExit(s.(restarts := s.restarts - {k}), k, fails);
    case ExitEvent(k, id, code) => HandleExitExit(s, k, id, code);
    case FallbackTimer(k) =>
      if k in s.workers {
        HandleExitExit(WithRecord(s, k, s.workers[k].(exitFallbackTimer := false)), k, s.workers[k].id, None);
      }
    case ReadyMessage(k, id, failing) =>
      if s.Live(k, id) {
        var t := Emit(WithRecord(s, k, Disarm(s.workers[k].(ready := true))), BecameReady(k));
        assert k in t.workers;
        RangeExit(t.(secondaryStarted := true), 1, s.workerCount, failing);
      }
    case _ =>
  }

  lemma ForkExit(s: Supervisor, slot: Slot, fails: bool)
    requires !s.exited
    ensures var t := ForkSlot(s, slot, fails); t.exited ==> t.workers == map[] && t.restarts == {}
  {
    hide CrashAndRestart;
    CrashExit(Emit(s, ForkFailed(slot)), slot);
  }

  lemma HandleExitExit(s: Supervisor, slot: Slot, id: WorkerId, code: Option<int>)
    requires !s.exited
    ensures var t := HandleExit(s, slot, id, code); t.exited ==> t.workers == map[] && t.restarts == {}
  {
    hide CrashAndRestart;
    CrashExit(s.(workers := s.workers - {slot}), slot);
  }

  lemma CrashExit(s: Supervisor, slot: Slot)
    requires !s.exited
    ensures CrashAndRestart(s, slot).exited ==>
              CrashAndRestart(s, slot).workers == map[] && CrashAndRestart(s, slot).restarts == {}
  {
    hide Recent, RestartDelay, CrashList, BeginShutdown;
    var recent := Recent(CrashList(s, slot), s.clock - s.settings.restartWindowMs) + [s.clock];
    var t := Emit(s.(crashTimes := s.crashTimes[slot := recent]), Crashed(slot, s.clock));
    ShutdownExit(Emit(t, CrashLoop(slot)), 1);
  }

  lemma ShutdownExit(s: Supervisor, code: int)
    requires !s.exited
    ensures var t := BeginShutdown(s, code); t.exited ==> t.workers == map[] && t.restarts == {}
  {
    hide DisarmAll, Max;
  }

  lemma {:induction false} RangeExit(s: Supervisor, slot: Slot, end: Slot, failing: set<Slot>)
    requires !s.exited && s.workers != map[]
    ensures !ForkRange(s, slot, end, failing).exited
    decreases end - slot
  {
    if slot < end {
      var t := ForkSlot(s, slot, slot in failing);
      ForkKeepsWorkers(s, slot, slot in failing);
      RangeExit(t, slot + 1, end, failing);
    }
  }

  lemma ForkKeepsWorkers(s: Supervisor, slot: Slot, fails: bool)
    requires !s.exited && s.workers != map[]
    ensures !ForkSlot(s, slot, fails).exited && ForkSlot(s, slot, fails).workers != map[]
  {
    hide CrashAndRestart;
    var k :| k in s.workers;
    CrashExit(Emit(s, ForkFailed(slot)), slot);
    CrashAndRestartExtends(Emit(s, ForkFailed(slot)), slot);
    assert k in CrashAndRestart(Emit(s, ForkFailed(slot)), slot).workers.Keys;
  }
}
