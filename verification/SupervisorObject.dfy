/**
 The object of server-lib/cluster-supervisor.js: the variables createClusterSupervisor closes
 over and the handlers that update them, each proved to take exactly the specified step.
 */
module SupervisorObject {
  import opened Wrappers
  import opened Integers
  import CS = ClusterSupervisor
  import SP = SupervisorProofs

  class PrimarySupervisor {
    const settings: CS.Settings
    const workerCount: nat
    var started: bool
    var shuttingDown: bool
    var secondaryStarted: bool
    var requestedExitCode: int
    var shutdownTimer: bool
    var forceExitTimer: bool
    var exited: bool
    var workersBySlot: map<CS.Slot, CS.Record>
    var restartTimers: set<CS.Slot>
    var crashTimesBySlot: map<CS.Slot, seq<int>>
    var nextWorker: CS.WorkerId
    var clock: int
    var trace: seq<CS.Effect>  // calls to fork, kill and exit, and the log lines that matter

    function View(): CS.Supervisor
      reads this
    {
      CS.Supervisor(settings, workerCount, started, shuttingDown, secondaryStarted, requestedExitCode,
                    shutdownTimer, forceExitTimer, exited, workersBySlot, restartTimers, crashTimesBySlot,
                    nextWorker, clock, trace)
    }

    ghost predicate Valid()
      reads this
    {
      SP.Reachable(View())
    }

    constructor (settings: CS.Settings, workerCount: nat, now: int)
      requires settings.Valid() && workerCount >= 2
      ensures View() == CS.Init(settings, workerCount, now) && Valid()
    {
      this.settings, this.workerCount, clock := settings, workerCount, now;
      started, shuttingDown, secondaryStarted, exited := false, false, false, false;
      shutdownTimer, forceExitTimer := false, false;
      requestedExitCode, nextWorker := 0, 0;
      workersBySlot, restartTimers, crashTimesBySlot, trace := map[], {}, map[], [];
      new;
      SP.InitIsReachable(settings, workerCount, now);
    }

    /** The one reading of the clock in an event; what the event leads to is reachable. */
    method TimePasses(now: int, ghost e: CS.Event)
      requires Valid() && clock <= now
      modifies this`clock
      ensures View() == old(View()).(clock := now) && workerCount >= 1
      ensures SP.Reachable(CS.Next(old(View()), CS.Timed(now - old(clock), e)))
      ensures SP.Consistent(CS.Next(old(View()), CS.Timed(now - old(clock), e)))
    {
      hide SP.Reachable, SP.Consistent, CS.Next;
      var elapsed := now - clock;
      SP.NextIsReachable(View(), CS.Timed(elapsed, e));
      SP.ReachableIsConsistent(CS.Next(View(), CS.Timed(elapsed, e)));
      SP.ReachableIsConsistent(View());
      clock := now;
    }

    method FinishPrimary(code: int)
      modifies this
      ensures View() == CS.FinishPrimary(old(View()), code)
    {
      if exited {
        return;
      }
      exited := true;
      shutdownTimer := false;
      forceExitTimer := false;
      trace := trace + [CS.PrimaryExit(code)];
    }

    method MaybeFinishShutdown()
      modifies this
      ensures View() == CS.MaybeFinishShutdown(old(View()))
    {
      if !shuttingDown || workersBySlot != map[] || restartTimers != {} {
        return;
      }
      FinishPrimary(requestedExitCode);
    }

    method StopWorkers(exitCode: int)
      modifies this
      ensures View() == CS.StopAll(old(View()), exitCode)
    {
      hide CS.DisarmAll;
      shuttingDown := true;
      requestedExitCode := exitCode;
      trace := trace + [CS.ShutdownStarted];
      restartTimers := {};
      ClearAllWorkerTimers();
      trace := trace + [CS.KilledAll(CS.SIGTERM)];
    }

    method BeginShutdown(exitCode: int)
      modifies this
      ensures View() == CS.BeginShutdown(old(View()), exitCode)
    {
      hide CS.DisarmAll, CS.StopAll, Max, CS.MaybeFinishShutdown;
      trace := trace + [CS.ShutdownRequested(exitCode)];
      if shuttingDown {
        requestedExitCode := Max(requestedExitCode, exitCode);
        return;
      }
      StopWorkers(exitCode);
      if workersBySlot == map[] {
        MaybeFinishShutdown();
        return;
      }
      shutdownTimer := true;
    }

    method ClearAllWorkerTimers()
      modifies this`workersBySlot
      ensures workersBySlot == CS.DisarmAll(old(workersBySlot))
    {
      var remaining := workersBySlot.Keys;
      while remaining != {}
        invariant workersBySlot.Keys == old(workersBySlot).Keys && remaining <= workersBySlot.Keys
        invariant forall slot :: slot in workersBySlot ==>
          workersBySlot[slot] ==
            if slot in remaining then old(workersBySlot)[slot] else CS.Disarm(old(workersBySlot)[slot])
        decreases remaining
      {
        var slot :| slot in remaining;
        workersBySlot := workersBySlot[slot := CS.Disarm(workersBySlot[slot])];
        remaining := remaining - {slot};
      }
    }

    method RecordCrash(slot: CS.Slot) returns (failures: Option<nat>)
      modifies this
      ensures (View(), failures) == CS.RecordCrash(old(View()), slot)
    {
      var cutoff := clock - settings.restartWindowMs;
      var crashTimes := CS.Recent(if slot in crashTimesBySlot then crashTimesBySlot[slot] else [], cutoff);
      crashTimes := crashTimes + [clock];
      crashTimesBySlot := crashTimesBySlot[slot := crashTimes];
      trace := trace + [CS.Crashed(slot, clock)];
      if |crashTimes| >= settings.maxRestartsPerWindow {
        trace := trace + [CS.CrashLoop(slot)];
        BeginShutdown(1);
        return None;
      }
      return Some(|crashTimes|);
    }

    method ScheduleRestart(slot: CS.Slot, failures: nat)
      modifies this
      ensures View() == CS.ScheduleRestart(old(View()), slot, failures)
    {
      if shuttingDown || slot in restartTimers {
        return;
      }
      restartTimers := restartTimers + {slot};
      trace := trace + [CS.RestartScheduled(slot, CS.RestartDelay(settings, failures))];
    }

    method ForkSlot(slot: CS.Slot, fails: bool)
      modifies this
      ensures View() == CS.ForkSlot(old(View()), slot, fails)
    {
      if shuttingDown || slot in workersBySlot {
        return;
      }
      if fails {
        trace := trace + [CS.ForkFailed(slot)];
        var failures := RecordCrash(slot);
        if failures.Some? {
          ScheduleRestart(slot, failures.value);
        }
        return;
      }
      workersBySlot := workersBySlot[slot := CS.Record(nextWorker, false, false, CS.NoReason, true, false, false)];
      trace := trace + [CS.Forked(slot, nextWorker)];
      nextWorker := nextWorker + 1;
    }

    /** handleWorkerExit, for a real exit and for a synthetic one. */
    method HandleWorkerExit(slot: CS.Slot, id: CS.WorkerId, code: Option<int>)
      modifies this
      ensures View() == CS.HandleExit(old(View()), slot, id, code)
    {
      if slot !in workersBySlot || workersBySlot[slot].id != id {
        return;
      }
      workersBySlot := workersBySlot - {slot};
      if shuttingDown {
        if code.Some? && code.value != 0 {
          requestedExitCode := 1;
          trace := trace + [CS.FailedExit(slot)];
        }
        MaybeFinishShutdown();
        return;
      }
      var failures := RecordCrash(slot);
      if failures.Some? {
        ScheduleRestart(slot, failures.value);
      }
    }

    // -------------------------------------------------------------------------------------
    // Event handlers: each reads the clock once and takes one timed step of the specification
    // -------------------------------------------------------------------------------------

    method MarkReady(slot: CS.Slot)
      requires slot in workersBySlot
      modifies this`workersBySlot, this`trace
      ensures View() == CS.Emit(CS.WithRecord(old(View()), slot, CS.Disarm(old(workersBySlot[slot]).(ready := true))),
                                CS.BecameReady(slot))
    {
      workersBySlot := workersBySlot[slot := CS.Disarm(workersBySlot[slot].(ready := true))];
      trace := trace + [CS.BecameReady(slot)];
    }

    /** start; a second call is an error, and changes nothing but the clock. */
    method OnStart(now: int, fails: bool) returns (ok: bool)
      requires Valid() && clock <= now
      modifies this
      ensures View() == CS.Next(old(View()), CS.Timed(now - old(clock), CS.StartCall(fails)))
      ensures ok == !old(started)
      ensures Valid() && SP.Consistent(View())
    {
      hide CS.ForkSlot, SP.Reachable, SP.Consistent;
      TimePasses(now, CS.StartCall(fails));
      if started {
        return false;
      }
      started := true;
      ForkSlot(0, fails);
      return true;
    }

    method OnShutdownRequest(now: int, exitCode: int)
      requires Valid() && clock <= now
      modifies this
      ensures View() == CS.Next(old(View()), CS.Timed(now - old(clock), CS.ShutdownCall(exitCode)))
      ensures Valid() && SP.Consistent(View())
    {
      hide SP.Reachable, SP.Consistent;
      TimePasses(now, CS.ShutdownCall(exitCode));
      BeginShutdown(exitCode);
    }

    method OnReadyMessage(now: int, slot: CS.Slot, id: CS.WorkerId, failing: set<CS.Slot>)
      requires Valid() && clock <= now
      modifies this
      ensures View() == CS.Next(old(View()), CS.Timed(now - old(clock), CS.ReadyMessage(slot, id, failing)))
      ensures Valid() && SP.Consistent(View())
    {
      hide CS.HandleReady, SP.Reachable, SP.Consistent;
      TimePasses(now, CS.ReadyMessage(slot, id, failing));
      AcceptReady(slot, id, failing);
    }

    method AcceptReady(slot: CS.Slot, id: CS.WorkerId, failing: set<CS.Slot>)
      requires 1 <= workerCount
      modifies this
      ensures View() == CS.HandleReady(old(View()), slot, id, failing)
    {
      hide CS.ForkRange, CS.Disarm, CS.Emit, CS.WithRecord;
      if slot !in workersBySlot || workersBySlot[slot].id != id || workersBySlot[slot].ready || shuttingDown {
        return;
      }
      if workersBySlot[slot].startupTimedOut {
        return;
      }
      if workersBySlot[slot].reason != CS.NoReason {
        return;
      }
      MarkReady(slot);
      if slot == 0 && !secondaryStarted {
        secondaryStarted := true;
        ForkSecondaryWorkers(failing);
      }
    }

    method ForkSecondaryWorkers(failing: set<CS.Slot>)
      requires 1 <= workerCount
      modifies this
      ensures View() == CS.ForkRange(old(View()), 1, workerCount, failing)
    {
      hide CS.ForkSlot;
      for slot := 1 to workerCount
        invariant CS.ForkRange(View(), slot, workerCount, failing) == CS.ForkRange(old(View()), 1, workerCount, failing)
      {
        ForkSlot(slot, slot in failing);
      }
    }

    method OnWorkerError(now: int, slot: CS.Slot, id: CS.WorkerId)
      requires Valid() && clock <= now
      modifies this
      ensures View() == CS.Next(old(View()), CS.Timed(now - old(clock), CS.ErrorEvent(slot, id)))
      ensures Valid() && SP.Consistent(View())
    {
      hide SP.Reachable, SP.Consistent, CS.HandleError;
      TimePasses(now, CS.ErrorEvent(slot, id));
      GiveGrace(slot, id);
    }

    method GiveGrace(slot: CS.Slot, id: CS.WorkerId)
      modifies this`workersBySlot
      ensures View() == CS.HandleError(old(View()), slot, id)
    {
      if slot !in workersBySlot || workersBySlot[slot].id != id {
        return;
      }
      var record := workersBySlot[slot];
      if shuttingDown || record.reason != CS.NoReason {
        return;
      }
      record := record.(reason := CS.WorkerError);
      record := record.(readyTimer := false);
      record := record.(terminationTimer := true);
      workersBySlot := workersBySlot[slot := record];
    }

    method OnWorkerExit(now: int, slot: CS.Slot, id: CS.WorkerId, code: Option<int>)
      requires Valid() && clock <= now
      modifies this
      ensures View() == CS.Next(old(View()), CS.Timed(now - old(clock), CS.ExitEvent(slot, id, code)))
      ensures Valid() && SP.Consistent(View())
    {
      hide SP.Reachable, SP.Consistent;
      TimePasses(now, CS.ExitEvent(slot, id, code));
      HandleWorkerExit(slot, id, code);
    }

    method OnReadyTimer(now: int, slot: CS.Slot)
      requires Valid() && clock <= now && slot in workersBySlot && workersBySlot[slot].readyTimer
      modifies this
      ensures View() == CS.Next(old(View()), CS.Timed(now - old(clock), CS.ReadyTimer(slot)))
      ensures Valid() && SP.Consistent(View())
    {
      hide SP.Reachable, SP.Consistent, CS.ReadyTimerFires;
      TimePasses(now, CS.ReadyTimer(slot));
      ExpireStart(slot);
    }

    method ExpireStart(slot: CS.Slot)
      requires slot in workersBySlot && workersBySlot[slot].readyTimer
      modifies this`workersBySlot, this`trace
      ensures View() == CS.ReadyTimerFires(old(View()), slot)
    {
      var record := workersBySlot[slot].(readyTimer := false);
      if record.ready || shuttingDown {
        workersBySlot := workersBySlot[slot := record];
        return;
      }
      record := record.(startupTimedOut := true, reason := CS.ReadyTimeout);
      trace := trace + [CS.Killed(slot, CS.SIGTERM)];
      workersBySlot := workersBySlot[slot := record.(terminationTimer := true)];
    }

    method OnTerminationTimer(now: int, slot: CS.Slot)
      requires Valid() && clock <= now && slot in workersBySlot && workersBySlot[slot].terminationTimer
      modifies this
      ensures View() == CS.Next(old(View()), CS.Timed(now - old(clock), CS.TerminationTimer(slot)))
      ensures Valid() && SP.Consistent(View())
    {
      hide SP.Reachable, SP.Consistent;
      TimePasses(now, CS.TerminationTimer(slot));
      var record := workersBySlot[slot].(terminationTimer := false);
      if shuttingDown {
        workersBySlot := workersBySlot[slot := record];
        return;
      }
      trace := trace + [CS.Killed(slot, CS.SIGKILL)];
      workersBySlot := workersBySlot[slot := record.(exitFallbackTimer := true)];
    }

    method OnFallbackTimer(now: int, slot: CS.Slot)
      requires Valid() && clock <= now && slot in workersBySlot && workersBySlot[slot].exitFallbackTimer
      modifies this
      ensures View() == CS.Next(old(View()), CS.Timed(now - old(clock), CS.FallbackTimer(slot)))
      ensures Valid() && SP.Consistent(View())
    {
      hide CS.HandleExit, SP.Reachable, SP.Consistent;
      TimePasses(now, CS.FallbackTimer(slot));
      var record := workersBySlot[slot].(exitFallbackTimer := false);
      workersBySlot := workersBySlot[slot := record];
      if shuttingDown {
        return;
      }
      HandleWorkerExit(slot, record.id, None);
    }

    method OnRestartTimer(now: int, slot: CS.Slot, fails: bool)
      requires Valid() && clock <= now && slot in restartTimers
      modifies this
      ensures View() == CS.Next(old(View()), CS.Timed(now - old(clock), CS.RestartTimer(slot, fails)))
      ensures Valid() && SP.Consistent(View())
    {
      hide CS.ForkSlot, SP.Reachable, SP.Consistent;
      TimePasses(now, CS.RestartTimer(slot, fails));
      restartTimers := restartTimers - {slot};
      ForkSlot(slot, fails);
    }

    method KillWorkers()
      modifies this
      ensures View() ==
              CS.Emit(CS.Emit(old(View()).(shutdownTimer := false, exitCode := 1), CS.ShutdownTimedOut),
                      CS.KilledAll(CS.SIGKILL))
    {
      shutdownTimer := false;
      requestedExitCode := 1;
      trace := trace + [CS.ShutdownTimedOut];
      trace := trace + [CS.KilledAll(CS.SIGKILL)];
    }

    method OnShutdownTimer(now: int)
      requires Valid() && clock <= now && shutdownTimer
      modifies this
      ensures View() == CS.Next(old(View()), CS.Timed(now - old(clock), CS.ShutdownTimer))
      ensures Valid() && SP.Consistent(View())
    {
      hide SP.Reachable, SP.Consistent, CS.MaybeFinishShutdown;
      TimePasses(now, CS.ShutdownTimer);
      KillWorkers();
      if workersBySlot == map[] {
        MaybeFinishShutdown();
        return;
      }
      forceExitTimer := true;
    }

    method OnForceExitTimer(now: int)
      requires Valid() && clock <= now && forceExitTimer
      modifies this
      ensures View() == CS.Next(old(View()), CS.Timed(now - old(clock), CS.ForceExitTimer))
      ensures Valid() && SP.Consistent(View())
    {
      hide CS.FinishPrimary, SP.Reachable, SP.Consistent;
      TimePasses(now, CS.ForceExitTimer);
      forceExitTimer := false;
      FinishPrimary(1);
    }
  }
}
