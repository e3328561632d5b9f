/** The exit code of the cluster supervisor, and what every event does, exactly. */
module SupervisorOutcomes {
  import opened Wrappers
  import opened Integers
  import opened ClusterSupervisor
  import opened SupervisorProofs
  import opened SupervisorResults

  // ---------------------------------------------------------------------------------------
  // The exit code
  // ---------------------------------------------------------------------------------------

  /** The code a shutdown has earned so far: requests raise it, a failed exit or a time-out makes it 1. */
  function Verdict(trace: seq<Effect>): Option<int> {
    if trace == [] then None
    else
      var before := Verdict(trace[..|trace| - 1]);
      match trace[|trace| - 1]
      case ShutdownRequested(code) => Some(if before.Some? && before.value > code then before.value else code)
      case FailedExit(_) => Some(1)
      case ShutdownTimedOut => Some(1)
      case _ => before
  }

  predicate IsFailure(e: Effect) {
    e.FailedExit? || e.ShutdownTimedOut?
  }

  /** The i-th effect, if it is the exit, has the code earned before it; after a time-out it may be the forced 1. */
  ghost predicate ExitFits(trace: seq<Effect>, i: nat)
    requires i < |trace|
  {
    trace[i].PrimaryExit? ==>
      || Verdict(trace[..i]) == Some(trace[i].code)
      || (trace[i].code == 1 && Shows(trace[..i], ShutdownTimedOut))
  }

  ghost predicate VerdictInv(s: Supervisor) {
    && (!s.exited ==> Verdict(s.trace) == if s.shuttingDown then Some(s.exitCode) else None)
    && (s.forceExitTimer ==> Shows(s.trace, ShutdownTimedOut))
    && (forall i :: 0 <= i < |s.trace| ==> ExitFits(s.trace, i))
  }

  lemma VerdictGrows(trace: seq<Effect>, e: Effect)
    ensures Verdict(trace + [e]) ==
            match e
            case ShutdownRequested(code) =>
              Some(if Verdict(trace).Some? && Verdict(trace).value > code then Verdict(trace).value else code)
            case FailedExit(_) => Some(1)
            case ShutdownTimedOut => Some(1)
            case _ => Verdict(trace)
  {
    assert (trace + [e])[..|trace|] == trace;
  }

  /** One more effect, with flags that fit it. */
  lemma EmitKeepsVerdict(s: Supervisor, e: Effect, t: Supervisor)
    requires VerdictInv(s) && t.trace == s.trace + [e]
    requires !t.exited ==> Verdict(t.trace) == if t.shuttingDown then Some(t.exitCode) else None
    requires t.forceExitTimer ==> s.forceExitTimer || Shows(t.trace, ShutdownTimedOut)
    requires e.PrimaryExit? ==> Verdict(s.trace) == Some(e.code) || (e.code == 1 && Shows(s.trace, ShutdownTimedOut))
    ensures VerdictInv(t)
  {
    ShowsGrows(s.trace, e);
    forall i | 0 <= i < |t.trace| ensures ExitFits(t.trace, i) {
      if i < |s.trace| {
        assert ExitFits(s.trace, i);
        assert t.trace[..i] == s.trace[..i];
      } else {
        assert t.trace[..i] == s.trace;
      }
    }
  }

  /** An effect that says nothing about the exit code. */
  lemma NoteKeepsVerdict(s: Supervisor, e: Effect)
    requires VerdictInv(s)
    requires !e.ShutdownRequested? && !IsFailure(e) && !e.PrimaryExit?
    ensures VerdictInv(Emit(s, e))
  {
    hide Verdict, Shows, ExitFits;
    VerdictGrows(s.trace, e);
    EmitKeepsVerdict(s, e, Emit(s, e));
  }

  lemma SameVerdict(s: Supervisor, t: Supervisor)
    requires VerdictInv(s) && t.trace == s.trace && t.exited == s.exited && t.shuttingDown == s.shuttingDown
    requires t.exitCode == s.exitCode && (t.forceExitTimer ==> s.forceExitTimer)
    ensures VerdictInv(t)
  {
    hide Verdict, Shows, ExitFits;
  }

  lemma FinishKeepsVerdict(s: Supervisor)
    requires VerdictInv(s)
    ensures VerdictInv(MaybeFinishShutdown(s))
  {
    hide Verdict, Shows, ExitFits;
    var t := MaybeFinishShutdown(s);
    if t != s {
      EmitKeepsVerdict(s, PrimaryExit(s.exitCode), t);
    }
  }

  lemma BeginShutdownKeepsVerdict(s: Supervisor, code: int)
    requires VerdictInv(s)
    ensures VerdictInv(BeginShutdown(s, code))
  {
    hide Verdict, Shows, ExitFits, MaybeFinishShutdown, DisarmAll;
    VerdictGrows(s.trace, ShutdownRequested(code));
    if s.shuttingDown {
      EmitKeepsVerdict(s, ShutdownRequested(code), BeginShutdown(s, code));
    } else {
      var quiet := s.(shuttingDown := true, exitCode := code, restarts := {}, workers := DisarmAll(s.workers));
      var asked := Emit(quiet, ShutdownRequested(code));
      EmitKeepsVerdict(s, ShutdownRequested(code), asked);
      NoteKeepsVerdict(asked, ShutdownStarted);
      NoteKeepsVerdict(Emit(asked, ShutdownStarted), KilledAll(SIGTERM));
      var t := StopAll(Emit(s, ShutdownRequested(code)), code);
      assert t == Emit(Emit(asked, ShutdownStarted), KilledAll(SIGTERM));
      FinishKeepsVerdict(t);
      SameVerdict(t, t.(shutdownTimer := true));
    }
  }

  lemma CrashKeepsVerdict(s: Supervisor, slot: Slot)
    requires VerdictInv(s)
    ensures VerdictInv(CrashAndRestart(s, slot))
  {
    hide VerdictInv, BeginShutdown, Recent, CrashList, RestartDelay;
    var recent := Recent(CrashList(s, slot), s.clock - s.settings.restartWindowMs) + [s.clock];
    SameVerdict(s, s.(crashTimes := s.crashTimes[slot := recent]));
    var t := WithCrash(s, slot);
    NoteKeepsVerdict(s.(crashTimes := s.crashTimes[slot := recent]), Crashed(slot, s.clock));
    NoteKeepsVerdict(t, CrashLoop(slot));
    BeginShutdownKeepsVerdict(Emit(t, CrashLoop(slot)), 1);
    var waiting := t.(restarts := t.restarts + {slot});
    SameVerdict(t, waiting);
    NoteKeepsVerdict(waiting, RestartScheduled(slot, RestartDelay(t.settings, |recent|)));
  }

  lemma ForkKeepsVerdict(s: Supervisor, slot: Slot, fails: bool)
    requires VerdictInv(s)
    ensures VerdictInv(ForkSlot(s, slot, fails))
  {
    hide VerdictInv, CrashAndRestart;
    NoteKeepsVerdict(s, ForkFailed(slot));
    CrashKeepsVerdict(Emit(s, ForkFailed(slot)), slot);
    var r := Record(s.nextWorker, false, false, NoReason, true, false, false);
    var t := s.(workers := s.workers[slot := r], nextWorker := s.nextWorker + 1);
    SameVerdict(s, t);
    NoteKeepsVerdict(t, Forked(slot, s.nextWorker));
  }

  lemma {:induction false} ForkRangeKeepsVerdict(s: Supervisor, slot: Slot, end: Slot, failing: set<Slot>)
    requires VerdictInv(s)
    ensures VerdictInv(ForkRange(s, slot, end, failing))
    decreases end - slot
  {
    hide VerdictInv, ForkSlot;
    if slot < end {
      ForkKeepsVerdict(s, slot, slot in failing);
      ForkRangeKeepsVerdict(ForkSlot(s, slot, slot in failing), slot + 1, end, failing);
    }
  }

  lemma ExitKeepsVerdict(s: Supervisor, slot: Slot, id: WorkerId, code: Option<int>)
    requires VerdictInv(s)
    ensures VerdictInv(HandleExit(s, slot, id, code))
  {
    hide Verdict, Shows, ExitFits, CrashAndRestart, MaybeFinishShutdown;
    var t := s.(workers := s.workers - {slot});
    SameVerdict(s, t);
    CrashKeepsVerdict(t, slot);
    FinishKeepsVerdict(t);
    if t.shuttingDown {
      VerdictGrows(t.trace, FailedExit(slot));
      var failed := Emit(t.(exitCode := 1), FailedExit(slot));
      EmitKeepsVerdict(t, FailedExit(slot), failed);
      FinishKeepsVerdict(failed);
    }
  }

  lemma ShutdownTimersKeepVerdict(s: Supervisor)
    requires VerdictInv(s) && ShutdownInv(s)
    ensures VerdictInv(ShutdownTimerFires(s)) && VerdictInv(ForceExitTimerFires(s))
  {
    hide Verdict, Shows, ExitFits, MaybeFinishShutdown;
    if s.shutdownTimer {
      var late := Emit(s.(shutdownTimer := false, exitCode := 1), ShutdownTimedOut);
      VerdictGrows(s.trace, ShutdownTimedOut);
      ShowsGrows(s.trace, ShutdownTimedOut);
      EmitKeepsVerdict(s, ShutdownTimedOut, late);
      NoteKeepsVerdict(late, KilledAll(SIGKILL));
      ShowsGrows(late.trace, KilledAll(SIGKILL));
      var t := Emit(late, KilledAll(SIGKILL));
      FinishKeepsVerdict(t);
    }
    if s.forceExitTimer && !s.exited {
      EmitKeepsVerdict(s, PrimaryExit(1), ForceExitTimerFires(s));
    }
  }

  lemma WorkerEventsKeepVerdict(s: Supervisor, slot: Slot, id: WorkerId)
    requires VerdictInv(s)
    ensures VerdictInv(HandleError(s, slot, id)) && VerdictInv(ReadyTimerFires(s, slot))
    ensures VerdictInv(TerminationTimerFires(s, slot)) && VerdictInv(FallbackTimerFires(s, slot))
  {
    hide VerdictInv, HandleExit;
    forall r { SameVerdict(s, WithRecord(s, slot, r)); }
    forall r, signal { NoteKeepsVerdict(WithRecord(s, slot, r), Killed(slot, signal)); }
    if slot in s.workers {
      var t := WithRecord(s, slot, s.workers[slot].(exitFallbackTimer := false));
      ExitKeepsVerdict(t, slot, t.workers[slot].id, None);
    }
  }

  lemma ReadyKeepsVerdict(s: Supervisor, slot: Slot, id: WorkerId, failing: set<Slot>)
    requires VerdictInv(s)
    ensures VerdictInv(HandleReady(s, slot, id, failing))
  {
    hide VerdictInv, ForkRange;
    if s.Live(slot, id) {
      var r := Disarm(s.workers[slot].(ready := true));
      SameVerdict(s, WithRecord(s, slot, r));
      NoteKeepsVerdict(WithRecord(s, slot, r), BecameReady(slot));
      var t := Emit(WithRecord(s, slot, r), BecameReady(slot));
      SameVerdict(t, t.(secondaryStarted := true));
      ForkRangeKeepsVerdict(t.(secondaryStarted := true), 1, s.workerCount, failing);
    }
  }

  lemma ApplyKeepsVerdict(s: Supervisor, e: Event)
    requires VerdictInv(s) && ShutdownInv(s)
    ensures VerdictInv(Apply(s, e))
  {
    hide VerdictInv, HandleReady, HandleError, HandleExit, ReadyTimerFires, TerminationTimerFires, FallbackTimerFires,
      ShutdownTimerFires, ForceExitTimerFires, BeginShutdown, ForkSlot;
    match e
    case StartCall(fails) =>
      SameVerdict(s, s.(started := true));
      ForkKeepsVerdict(s.(started := true), 0, fails);
    case ShutdownCall(code) => BeginShutdownKeepsVerdict(s, code);
    case ReadyMessage(slot, id, failing) => ReadyKeepsVerdict(s, slot, id, failing);
    case ErrorEvent(slot, id) => WorkerEventsKeepVerdict(s, slot, id);
    case ExitEvent(slot, id, code) => ExitKeepsVerdict(s, slot, id, code);
    case ReadyTimer(slot) => WorkerEventsKeepVerdict(s, slot, 0);
    case TerminationTimer(slot) => WorkerEventsKeepVerdict(s, slot, 0);
    case FallbackTimer(slot) => WorkerEventsKeepVerdict(s, slot, 0);
    case RestartTimer(slot, fails) =>
      SameVerdict(s, s.(restarts := s.restarts - {slot}));
      ForkKeepsVerdict(s.(restarts := s.restarts - {slot}), slot, fails);
    case ShutdownTimer => ShutdownTimersKeepVerdict(s);
    case ForceExitTimer => ShutdownTimersKeepVerdict(s);
  }

  lemma {:induction false} RunKeepsVerdict(s: Supervisor, events: seq<Timed>)
    requires Inv(s, {}, {}) && VerdictInv(s)
    ensures VerdictInv(Run(s, events))
    decreases |events|
  {
    hide Inv, VerdictInv, Apply;
    if events != [] {
      var later := s.(clock := s.clock + events[0].after);
      TickKeepsInv(s, events[0].after);
      SameVerdict(s, later);
      ShutdownBooks(later);
      ApplyKeepsVerdict(later, events[0].event);
      NextKeepsInv(s, events[0]);
      RunKeepsVerdict(Next(s, events[0]), events[1..]);
    }
  }

  lemma ShutdownBooks(s: Supervisor)
    requires Inv(s, {}, {})
    ensures ShutdownInv(s)
  {
  }

  lemma ReachableHasVerdict(s: Supervisor)
    requires Reachable(s)
    ensures VerdictInv(s)
  {
    var settings: Settings, workerCount: nat, clock: int, events: seq<Timed> :|
      settings.Valid() && workerCount >= 2 && s == Run(Init(settings, workerCount, clock), events);
    InitIsReachable(settings, workerCount, clock);
    ReachableHasInv(Init(settings, workerCount, clock));
    RunKeepsVerdict(Init(settings, workerCount, clock), events);
  }

  ghost predicate Fails(trace: seq<Effect>) {
    exists i :: 0 <= i < |trace| && IsFailure(trace[i])
  }

  /** The code is the largest of 1 and the codes requested after the last failure, which is the k-th effect. */
  ghost predicate RaisedSince(trace: seq<Effect>, k: nat, code: int)
    requires k < |trace|
  {
    var later := trace[k + 1..];
    && IsFailure(trace[k]) && !Fails(later)
    && code >= 1 && (code == 1 || Shows(later, ShutdownRequested(code)))
    && forall c :: Shows(later, ShutdownRequested(c)) ==> c <= code
  }

  ghost predicate FailedWith(trace: seq<Effect>, code: int) {
    exists k :: 0 <= k < |trace| && RaisedSince(trace, k, code)
  }

  /** One more effect after a failure: another failure, or perhaps a larger request. */
  lemma FailedWithGrows(trace: seq<Effect>, e: Effect, code: int)
    ensures IsFailure(e) ==> FailedWith(trace + [e], 1)
    ensures FailedWith(trace, code) && !IsFailure(e) ==>
              FailedWith(trace + [e], if e.ShutdownRequested? && e.code > code then e.code else code)
  {
    var n := |trace|;
    var grown := trace + [e];
    if IsFailure(e) {
      assert grown[n + 1..] == [];
      assert RaisedSince(grown, n, 1);
    } else if FailedWith(trace, code) {
      var k :| 0 <= k < n && RaisedSince(trace, k, code);
      assert grown[k + 1..] == trace[k + 1..] + [e];
      ShowsGrows(trace[k + 1..], e);
      FailsGrows(trace[k + 1..], e);
      hide Shows, Fails;
      assert RaisedSince(grown, k, if e.ShutdownRequested? && e.code > code then e.code else code);
    }
  }

  /** Without a failure the verdict is the largest requested code; with one only later requests raise it above 1. */
  lemma {:induction false} VerdictIsTheLargest(trace: seq<Effect>)
    ensures Verdict(trace).None? ==> !Fails(trace) && forall c :: !Shows(trace, ShutdownRequested(c))
    ensures Verdict(trace).Some? ==>
              var code := Verdict(trace).value;
              if Fails(trace) then FailedWith(trace, code)
              else Shows(trace, ShutdownRequested(code)) && forall c :: Shows(trace, ShutdownRequested(c)) ==> c <= code
  {
    if trace != [] {
      var n := |trace| - 1;
      var (before, e) := (trace[..n], trace[n]);
      assert trace == before + [e];
      VerdictIsTheLargest(before);
      ShowsGrows(before, e);
      FailsGrows(before, e);
      VerdictGrows(before, e);
      if Verdict(before).Some? {
        FailedWithGrows(before, e, Verdict(before).value);
      } else {
        FailedWithGrows(before, e, 1);
      }
      hide Verdict, Shows, Fails, FailedWith;
    }
  }

  lemma FailsGrows(trace: seq<Effect>, e: Effect)
    ensures Fails(trace + [e]) <==> Fails(trace) || IsFailure(e)
  {
    assert (trace + [e])[|trace|] == e;
    if Fails(trace) {
      var i :| 0 <= i < |trace| && IsFailure(trace[i]);
      assert (trace + [e])[i] == trace[i];
    }
  }

  /** The process exits with 0 exactly after an orderly shutdown that nobody asked to end otherwise. Without a failed
      exit or a time-out the code is the largest one requested, a crash loop requesting 1; otherwise it is the largest
      of 1 and what was requested after the last of them, or the 1 of the forced exit after a time-out. */
  lemma ExitCodeIsExact(s: Supervisor, i: nat)
    requires Reachable(s) && i < |s.trace| && s.trace[i].PrimaryExit?
    ensures
      var (before, code) := (s.trace[..i], s.trace[i].code);
      && (code == 0 <==>
            && (forall j :: 0 <= j < i ==> !IsBad(s.trace[j]))
            && Shows(before, ShutdownRequested(0)) && forall c :: Shows(before, ShutdownRequested(c)) ==> c <= 0)
      && (if Fails(before) then FailedWith(before, code) || (code == 1 && Shows(before, ShutdownTimedOut))
          else Shows(before, ShutdownRequested(code)) && forall c :: Shows(before, ShutdownRequested(c)) ==> c <= code)
  {
    hide Inv, Verdict;
    var (before, code) := (s.trace[..i], s.trace[i].code);
    ReachableHasVerdict(s);
    assert ExitFits(s.trace, i);
    VerdictIsTheLargest(before);
    ExitsOnceAndZeroMeansOrderly(s, i);
    assert forall j :: 0 <= j < i ==> before[j] == s.trace[j];
  }

  // ---------------------------------------------------------------------------------------
  // Crashes
  // ---------------------------------------------------------------------------------------

  /** The last `count` times are all at or after the cutoff. */
  predicate EndsRecent(times: seq<int>, count: nat, cutoff: int) {
    count <= |times| && (count > 0 ==> times[|times| - count] >= cutoff)
  }

  lemma {:induction false} OldTimesArePruned(times: seq<int>, cutoff: int)
    requires forall i :: 0 <= i < |times| ==> times[i] < cutoff
    ensures Recent(times, cutoff) == []
    decreases |times|
  {
    if times != [] {
      OldTimesArePruned(times[1..], cutoff);
    }
  }

  lemma {:induction false} PruningShortens(times: seq<int>, cutoff: int)
    ensures |Recent(times, cutoff)| <= |times|
    decreases |times|
  {
    if times != [] {
      PruningShortens(times[1..], cutoff);
    }
  }

  /** Counting what pruning leaves of a sorted history is looking at its end. */
  lemma PrunedCount(times: seq<int>, count: nat, cutoff: int)
    requires Sorted(times)
    ensures |Recent(times, cutoff)| >= count <==> EndsRecent(times, count, cutoff)
  {
    PruningShortens(times, cutoff);
    if 0 < count <= |times| {
      var k := |times| - count;
      if times[k] >= cutoff {
        TailIsRecent(times, k, cutoff);
      } else {
        assert times == times[..k + 1] + times[k + 1..];
        RecentAppend(times[..k + 1], times[k + 1..], cutoff);
        OldTimesArePruned(times[..k + 1], cutoff);
        PruningShortens(times[k + 1..], cutoff);
      }
    }
  }

  /** One crash too many: with this one, as many crashes as the limit lie in the window that ends now. */
  ghost predicate TooMany(s: Supervisor, slot: Slot) {
    s.settings.maxRestartsPerWindow >= 1
    && EndsRecent(Crashes(s.trace, slot), s.settings.maxRestartsPerWindow - 1, s.clock - s.settings.restartWindowMs)
  }

  /** The crashes of the window that ends now, this one included. */
  ghost function InWindow(s: Supervisor, slot: Slot): nat {
    |Recent(Crashes(s.trace, slot), s.clock - s.settings.restartWindowMs)| + 1
  }

  lemma CrashesAreCounted(s: Supervisor, slot: Slot)
    requires s.settings.Valid() && CrashInv(s, false)
    ensures |WithCrash(s, slot).crashTimes[slot]| == InWindow(s, slot)
    ensures TooMany(s, slot) <==> InWindow(s, slot) >= s.settings.maxRestartsPerWindow
  {
    CrashListCounts(s, slot);
    hide CrashInv, Crashes, CrashList, Recent, Sorted, EndsRecent;
    PrunedCount(Crashes(s.trace, slot), s.settings.maxRestartsPerWindow - 1, s.clock - s.settings.restartWindowMs);
  }

  /** The list pruned at every crash still holds all that matter now. */
  lemma CrashListCounts(s: Supervisor, slot: Slot)
    requires s.settings.Valid() && CrashInv(s, false)
    ensures Sorted(Crashes(s.trace, slot))
    ensures Recent(CrashList(s, slot), s.clock - s.settings.restartWindowMs)
         == Recent(Crashes(s.trace, slot), s.clock - s.settings.restartWindowMs)
  {
    var (history, window) := (Crashes(s.trace, slot), s.settings.restartWindowMs);
    assert Pruned(history, CrashList(s, slot), window) && NotAfter(history, s.clock);
    hide CrashInv, Crashes, CrashList, Sorted;
    if history != [] {
      RecentTwice(history, history[|history| - 1] - window, s.clock - window);
    }
  }

  /** What a crash leads to: a restart, later the more crashes the window holds, or the end of the whole group. */
  ghost predicate CrashedFrom(s: Supervisor, slot: Slot, t: Supervisor) {
    if TooMany(s, slot) then LoopedFrom(s, slot, t)
    else
      && t.trace ==
         s.trace + [Crashed(slot, s.clock), RestartScheduled(slot, RestartDelay(s.settings, InWindow(s, slot)))]
      && t.workers == s.workers - {slot} && t.restarts == s.restarts + {slot} && !t.shuttingDown
  }

  ghost predicate LoopedFrom(s: Supervisor, slot: Slot, t: Supervisor) {
    && t.shuttingDown && t.workers.Keys == s.workers.Keys - {slot} && t.restarts == {}
    && s.trace + [Crashed(slot, s.clock), CrashLoop(slot), ShutdownRequested(1), ShutdownStarted,
                  KilledAll(SIGTERM)] <= t.trace
  }

  lemma CrashSplits(s: Supervisor, slot: Slot)
    requires !s.shuttingDown && slot !in s.restarts
    ensures
      var (t, n) := (WithCrash(s, slot), |WithCrash(s, slot).crashTimes[slot]|);
      CrashAndRestart(s, slot) ==
        if n >= s.settings.maxRestartsPerWindow then BeginShutdown(Emit(t, CrashLoop(slot)), 1)
        else Emit(t.(restarts := s.restarts + {slot}), RestartScheduled(slot, RestartDelay(s.settings, n)))
  {
    hide BeginShutdown, Recent, CrashList, RestartDelay;
  }

  lemma LoopOutcome(s: Supervisor, slot: Slot)
    requires !s.shuttingDown && slot !in s.workers
    ensures LoopedFrom(s, slot, BeginShutdown(Emit(WithCrash(s, slot), CrashLoop(slot)), 1))
  {
    hide BeginShutdown, Recent, CrashList;
    var looped := Emit(WithCrash(s, slot), CrashLoop(slot));
    ShutdownOutcome(looped, 1);
    assert looped.trace + [ShutdownRequested(1), ShutdownStarted, KilledAll(SIGTERM)] ==
           s.trace + [Crashed(slot, s.clock), CrashLoop(slot), ShutdownRequested(1), ShutdownStarted,
                      KilledAll(SIGTERM)];
    assert s.workers.Keys - {slot} == s.workers.Keys;
  }

  lemma CrashOutcome(s: Supervisor, slot: Slot)
    requires s.settings.Valid() && CrashInv(s, false) && !s.shuttingDown && slot !in s.workers && slot !in s.restarts
    ensures CrashedFrom(s, slot, CrashAndRestart(s, slot))
  {
    CrashesAreCounted(s, slot);
    CrashSplits(s, slot);
    hide CrashAndRestart, CrashInv, TooMany, InWindow, Recent, CrashList, RestartDelay, BeginShutdown, LoopedFrom;
    if TooMany(s, slot) {
      LoopOutcome(s, slot);
    } else {
      assert s.workers - {slot} == s.workers;
      var scheduled := RestartScheduled(slot, RestartDelay(s.settings, InWindow(s, slot)));
      assert s.trace + [Crashed(slot, s.clock)] + [scheduled] == s.trace + [Crashed(slot, s.clock), scheduled];
    }
  }

  /** Before shutdown a worker that exits, or whose missing exit is synthesised, has crashed. */
  lemma ExitsAreCrashes(s: Supervisor, slot: Slot, id: WorkerId, code: Option<int>)
    requires Reachable(s) && s.Live(slot, id) && !s.shuttingDown
    ensures CrashedFrom(s.(workers := s.workers - {slot}), slot, Apply(s, ExitEvent(slot, id, code)))
    ensures s.workers[slot].exitFallbackTimer ==>
              CrashedFrom(s.(workers := s.workers - {slot}), slot, Apply(s, FallbackTimer(slot)))
  {
    hide WorkersInv, AttemptsInv, TraceInv, CodeInv, CrashAndRestart, CrashedFrom;
    ReachableHasInv(s);
    var t := s.(workers := s.workers - {slot});
    hide CrashInv;
    CrashFrame(s, t, true);
    NotStrict(t);
    CrashOutcome(t, slot);
    var fired := WithRecord(s, slot, s.workers[slot].(exitFallbackTimer := false));
    assert fired.workers - {slot} == s.workers - {slot};
  }

  lemma NotStrict(s: Supervisor)
    requires CrashInv(s, true)
    ensures CrashInv(s, false)
  {
  }

  /** In a shutdown an exit is only counted out: a failed one is noted, and the last one ends the process. */
  lemma ShutdownWaitsForExits(s: Supervisor, slot: Slot, id: WorkerId, code: Option<int>)
    requires Reachable(s) && s.Live(slot, id) && s.shuttingDown
    ensures
      var t := Apply(s, ExitEvent(slot, id, code));
      var noted := if code.Some? && code.value != 0 then s.trace + [FailedExit(slot)] else s.trace;
      && t.workers == s.workers - {slot} && t.restarts == {}
      && (if s.workers.Keys == {slot} then t.exited && (s.exited || (|t.trace| == |noted| + 1 && noted <= t.trace))
          else t.trace == noted && t.exited == s.exited)
  {
    hide WorkersInv, AttemptsInv, TraceInv, CodeInv, CrashInv, CrashAndRestart;
    ReachableHasInv(s);
    var t := s.(workers := s.workers - {slot});
    assert t.workers.Keys == s.workers.Keys - {slot};
    assert t.workers == map[] <==> t.workers.Keys == {};
    assert s.workers.Keys - {slot} == {} ==> s.workers.Keys == {slot};
  }

  /** Events of workers that are gone, or of workers already given up, change nothing. */
  lemma LateWorkerEventsChangeNothing(s: Supervisor, slot: Slot, id: WorkerId, code: Option<int>, failing: set<Slot>)
    requires !s.Live(slot, id)
    ensures Apply(s, ExitEvent(slot, id, code)) == s && Apply(s, ErrorEvent(slot, id)) == s
    ensures Apply(s, ReadyMessage(slot, id, failing)) == s
  {
  }

  // ---------------------------------------------------------------------------------------
  // Back-off
  // ---------------------------------------------------------------------------------------

  /** The first restart waits the base delay, and every further one in the window twice as long, up to the maximum. */
  lemma BackOffIsExact(settings: Settings, failures: nat)
    requires settings.Valid() && failures >= 1
    ensures RestartDelay(settings, 1) == Min(settings.restartBaseDelayMs, settings.restartMaxDelayMs)
    ensures RestartDelay(settings, failures + 1) ==
            Min(2 * RestartDelay(settings, failures), settings.restartMaxDelayMs)
  {
    assert Pow2(0) == 1 && Pow2(failures) == 2 * Pow2(failures - 1);
    ScaledPowersGrow(settings.restartBaseDelayMs, failures - 1, failures);
    TwiceTheProduct(settings.restartBaseDelayMs, Pow2(failures - 1));
    hide Pow2;
  }

  // ---------------------------------------------------------------------------------------
  // Starting
  // ---------------------------------------------------------------------------------------

  /** A fork that succeeds is a new worker with its ready timer armed; one that fails is a crash. */
  ghost predicate ForkedFrom(s: Supervisor, slot: Slot, fails: bool, t: Supervisor) {
    if fails then CrashedFrom(Emit(s, ForkFailed(slot)), slot, t)
    else
      && t.trace == s.trace + [Forked(slot, s.nextWorker)] && t.nextWorker == s.nextWorker + 1
      && t.workers == s.workers[slot := Record(s.nextWorker, false, false, NoReason, true, false, false)]
      && t.restarts == s.restarts && !t.shuttingDown
  }

  lemma ForkOutcome(s: Supervisor, slot: Slot, fails: bool)
    requires s.settings.Valid() && CrashInv(s, false)
    requires !s.shuttingDown && slot !in s.workers && slot !in s.restarts
    ensures ForkedFrom(s, slot, fails, ForkSlot(s, slot, fails))
  {
    hide CrashAndRestart, CrashInv, CrashedFrom;
    if fails {
      var t := Emit(s, ForkFailed(slot));
      EmitCounts(s.trace, ForkFailed(slot));
      CrashFrame(s, t, false);
      CrashOutcome(t, slot);
    }
  }

  /** The first start forks slot 0, a restart timer forks its slot again; a second start does nothing. */
  lemma ForksHappenExactly(s: Supervisor, slot: Slot, fails: bool)
    requires Reachable(s)
    ensures
      if s.started then Apply(s, StartCall(fails)) == s
      else if s.shuttingDown then Apply(s, StartCall(fails)) == s.(started := true)
      else ForkedFrom(s.(started := true), 0, fails, Apply(s, StartCall(fails)))
    ensures
      if slot in s.restarts then
        ForkedFrom(s.(restarts := s.restarts - {slot}), slot, fails, Apply(s, RestartTimer(slot, fails)))
      else Apply(s, RestartTimer(slot, fails)) == s
  {
    hide WorkersInv, AttemptsInv, TraceInv, CodeInv, ForkSlot, ForkedFrom;
    ReachableHasInv(s);
    if !s.started {
      assert !StartedSlot(s, 0);
      CrashFrame(s, s.(started := true), false);
      if s.shuttingDown {
        ForkSlotInShutdown(s.(started := true), 0, fails);
      } else {
        ForkOutcome(s.(started := true), 0, fails);
      }
    }
    if slot in s.restarts {
      var t := s.(restarts := s.restarts - {slot});
      CrashFrame(s, t, false);
      ForkOutcome(t, slot, fails);
    }
  }

  /** A ready message is accepted exactly from a live worker that is starting and in time; the worker is healthy then,
      and the first one of slot 0 starts every other slot. */
  lemma ReadyIsAcceptedExactly(s: Supervisor, slot: Slot, id: WorkerId, failing: set<Slot>)
    requires Reachable(s)
    ensures
      var t := Apply(s, ReadyMessage(slot, id, failing));
      if s.Live(slot, id) && s.workers[slot].readyTimer && !s.shuttingDown then
        && s.trace + [BecameReady(slot)] <= t.trace
        && (t.shuttingDown || (t.Live(slot, id) && Healthy(t.workers[slot])))
        && (if slot == 0 then t.secondaryStarted
            else t == s.(workers := s.workers[slot := t.workers[slot]], trace := s.trace + [BecameReady(slot)]))
      else
        t == s
  {
    hide SlotsInv, AttemptsInv, TraceInv, CodeInv, CrashInv, ShutdownInv, ForkRange;
    ReachableHasInv(s);
    if s.Live(slot, id) && s.workers[slot].readyTimer && !s.shuttingDown {
      var t := Emit(WithRecord(s, slot, Disarm(s.workers[slot].(ready := true))), BecameReady(slot));
      var u := t.(secondaryStarted := true);
      ForkRangeExtends(u, 1, s.workerCount, failing);
      RangeKeepsRecords(u, 1, s.workerCount, failing, slot);
    }
  }

  /** Forking other slots keeps the flags, the history, and the record of a slot that is live. */
  lemma {:induction false} RangeKeepsRecords(s: Supervisor, slot: Slot, end: Slot, failing: set<Slot>, k: Slot)
    requires k in s.workers
    ensures
      var t := ForkRange(s, slot, end, failing);
      && s.trace <= t.trace && t.secondaryStarted == s.secondaryStarted && (s.shuttingDown ==> t.shuttingDown)
      && k in t.workers && (t.shuttingDown || t.workers[k] == s.workers[k])
    decreases end - slot
  {
    hide ForkSlot;
    if slot < end {
      var t := ForkSlot(s, slot, slot in failing);
      ForkKeepsRecords(s, slot, slot in failing, k);
      RangeKeepsRecords(t, slot + 1, end, failing, k);
    }
  }

  lemma ForkKeepsRecords(s: Supervisor, slot: Slot, fails: bool, k: Slot)
    requires k in s.workers
    ensures
      var t := ForkSlot(s, slot, fails);
      && s.trace <= t.trace && t.secondaryStarted == s.secondaryStarted && (s.shuttingDown ==> t.shuttingDown)
      && k in t.workers && (t.shuttingDown || t.workers[k] == s.workers[k])
  {
    hide BeginShutdown, Recent, CrashList, RestartDelay;
    var looped := Emit(WithCrash(Emit(s, ForkFailed(slot)), slot), CrashLoop(slot));
    if !s.shuttingDown {
      ShutdownOutcome(looped, 1);
    }
  }

  // ---------------------------------------------------------------------------------------
  // Timers of a worker
  // ---------------------------------------------------------------------------------------

  /** An error gives a worker its grace, once, and none in a shutdown. */
  lemma ErrorsGiveGrace(s: Supervisor, slot: Slot)
    requires slot in s.workers
    ensures
      var r := s.workers[slot];
      Apply(s, ErrorEvent(slot, r.id)) ==
        if s.shuttingDown || r.reason != NoReason then s
        else s.(workers := s.workers[slot := r.(reason := WorkerError, readyTimer := false, terminationTimer := true)])
  {
  }

  /** The timers of a record that is as the invariant says. */
  ghost predicate Stage(s: Supervisor, slot: Slot) {
    && slot in s.workers
    && (if s.shuttingDown then NoTimer(s.workers[slot]) else Healthy(s.workers[slot]) || OneTimer(s.workers[slot]))
  }

  /** A worker that is not ready in time is asked to stop. */
  lemma LateStartersAreStopped(s: Supervisor, slot: Slot)
    requires Stage(s, slot)
    ensures
      var r := s.workers[slot];
      Apply(s, ReadyTimer(slot)) ==
        if !r.readyTimer then s
        else s.(workers := s.workers[slot := r.(readyTimer := false, startupTimedOut := true, reason := ReadyTimeout,
                                                terminationTimer := true)],
                trace := s.trace + [Killed(slot, SIGTERM)])
  {
  }

  /** A grace that ran out kills. */
  lemma GraceEndsInAKill(s: Supervisor, slot: Slot)
    requires Stage(s, slot)
    ensures
      var r := s.workers[slot];
      Apply(s, TerminationTimer(slot)) ==
        if !r.terminationTimer then s
        else s.(workers := s.workers[slot := r.(terminationTimer := false, exitFallbackTimer := true)],
                trace := s.trace + [Killed(slot, SIGKILL)])
  {
  }

  /** A failing worker is stopped in these steps; in a shutdown its timers are all off. */
  lemma FailingWorkersAreStoppedInSteps(s: Supervisor, slot: Slot)
    requires Reachable(s) && slot in s.workers
    ensures
      var r := s.workers[slot];
      && (Apply(s, ErrorEvent(slot, r.id)) ==
          if s.shuttingDown || r.reason != NoReason then s
          else s.(workers := s.workers[slot := r.(reason := WorkerError, readyTimer := false,
                                                  terminationTimer := true)]))
      && (Apply(s, ReadyTimer(slot)) ==
          if !r.readyTimer then s
          else s.(workers := s.workers[slot := r.(readyTimer := false, startupTimedOut := true, reason := ReadyTimeout,
                                                  terminationTimer := true)],
                  trace := s.trace + [Killed(slot, SIGTERM)]))
      && (Apply(s, TerminationTimer(slot)) ==
          if !r.terminationTimer then s
          else s.(workers := s.workers[slot := r.(terminationTimer := false, exitFallbackTimer := true)],
                  trace := s.trace + [Killed(slot, SIGKILL)]))
      && (!r.exitFallbackTimer ==> Apply(s, FallbackTimer(slot)) == s)
      && (s.shuttingDown ==> NoTimer(r))
  {
    hide SlotsInv, AttemptsInv, TraceInv, CodeInv, CrashInv, ShutdownInv, HandleError, ReadyTimerFires,
      TerminationTimerFires;
    ReachableHasInv(s);
    ErrorsGiveGrace(s, slot);
    LateStartersAreStopped(s, slot);
    GraceEndsInAKill(s, slot);
  }

  // ---------------------------------------------------------------------------------------
  // Shutdown
  // ---------------------------------------------------------------------------------------

  /** Beginning a shutdown asks every worker to stop, calls off every timer, and waits for them, if there are any. */
  lemma ShutdownOutcome(s: Supervisor, code: int)
    requires !s.shuttingDown
    ensures
      var t := BeginShutdown(s, code);
      var asked := s.trace + [ShutdownRequested(code), ShutdownStarted, KilledAll(SIGTERM)];
      && t.shuttingDown && t.restarts == {} && t.workers.Keys == s.workers.Keys
      && (forall slot :: slot in t.workers ==>
            NoTimer(t.workers[slot]) && t.workers[slot].id == s.workers[slot].id)
      && t.secondaryStarted == s.secondaryStarted
      && (if s.workers == map[] then t.exited && asked <= t.trace else t.trace == asked && t.shutdownTimer)
  {
    var t := StopAll(Emit(s, ShutdownRequested(code)), code);
    assert t.trace == s.trace + [ShutdownRequested(code), ShutdownStarted, KilledAll(SIGTERM)];
    assert t.workers.Keys == s.workers.Keys;
    if s.workers != map[] {
      var slot :| slot in s.workers;
      assert slot in t.workers;
    }
  }

  /** A shutdown begins once; its time-out kills what is left and arms the forced exit, which exits with 1. */
  lemma ShutdownsEndExactly(s: Supervisor, code: int)
    requires Reachable(s)
    ensures
      var t := Apply(s, ShutdownCall(code));
      if s.shuttingDown then
        t == s.(exitCode := if s.exitCode < code then code else s.exitCode,
                trace := s.trace + [ShutdownRequested(code)])
      else
        && t.shuttingDown && t.restarts == {} && t.workers.Keys == s.workers.Keys
        && s.trace + [ShutdownRequested(code), ShutdownStarted, KilledAll(SIGTERM)] <= t.trace
        && (if s.workers == map[] then t.exited else t.shutdownTimer && !t.exited)
    ensures
      var t := Apply(s, ShutdownTimer);
      if s.shutdownTimer then
        && t.trace == s.trace + [ShutdownTimedOut, KilledAll(SIGKILL)] && t.forceExitTimer && !t.shutdownTimer
        && t.workers == s.workers && !t.exited
      else t == s
    ensures
      var t := Apply(s, ForceExitTimer);
      if s.forceExitTimer then t.exited && t.trace == s.trace + [PrimaryExit(1)] else t == s
  {
    hide WorkersInv, SlotsInv, AttemptsInv, TraceInv, CodeInv, CrashInv;
    ReachableHasInv(s);
    if !s.shuttingDown {
      ShutdownOutcome(s, code);
    }
  }
}
