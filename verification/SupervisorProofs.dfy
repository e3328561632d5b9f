/** What the cluster supervisor keeps over every run of its events. */
module SupervisorProofs {
  import opened Wrappers
  import opened ClusterSupervisor

  // ---------------------------------------------------------------------------------------
  // Reading the trace
  // ---------------------------------------------------------------------------------------

  predicate IsAttempt(e: Effect, slot: Slot) {
    (e.Forked? && e.slot == slot) || (e.ForkFailed? && e.slot == slot)
  }

  /** How often the trace shows cluster.fork being called for a slot. */
  ghost function Attempts(trace: seq<Effect>, slot: Slot): nat {
    if trace == [] then 0
    else Attempts(trace[..|trace| - 1], slot) + (if IsAttempt(trace[|trace| - 1], slot) then 1 else 0)
  }

  /** The full crash history of a slot. */
  ghost function Crashes(trace: seq<Effect>, slot: Slot): seq<int> {
    if trace == [] then []
    else
      var e := trace[|trace| - 1];
      Crashes(trace[..|trace| - 1], slot) + (if e.Crashed? && e.slot == slot then [e.at] else [])
  }

  lemma EmitCounts(trace: seq<Effect>, e: Effect)
    ensures forall slot :: Attempts(trace + [e], slot) == Attempts(trace, slot) + (if IsAttempt(e, slot) then 1 else 0)
    ensures forall slot :: Crashes(trace + [e], slot)
                        == Crashes(trace, slot) + (if e.Crashed? && e.slot == slot then [e.at] else [])
  {
    assert (trace + [e])[..|trace|] == trace;
  }

  predicate IsFork(e: Effect) {
    e.Forked? || e.ForkFailed?
  }

  predicate IsSecondaryFork(e: Effect) {
    (e.Forked? && e.slot > 0) || (e.ForkFailed? && e.slot > 0)
  }

  /** What an orderly shutdown never shows. */
  predicate IsBad(e: Effect) {
    e.FailedExit? || e.ShutdownTimedOut? || e.CrashLoop?
  }

  ghost predicate Spotless(trace: seq<Effect>) {
    forall i :: 0 <= i < |trace| ==> !IsBad(trace[i])
  }

  ghost predicate Shows(trace: seq<Effect>, e: Effect) {
    exists i :: 0 <= i < |trace| && trace[i] == e
  }

  ghost predicate ShowsExit(trace: seq<Effect>) {
    exists i :: 0 <= i < |trace| && trace[i].PrimaryExit?
  }

  // ---------------------------------------------------------------------------------------
  // The invariant
  // ---------------------------------------------------------------------------------------

  predicate NoTimer(r: Record) {
    !r.readyTimer && !r.terminationTimer && !r.exitFallbackTimer
  }

  predicate Healthy(r: Record) {
    r.ready && !r.startupTimedOut && r.reason == NoReason && NoTimer(r)
  }

  /** Exactly one armed timer, the one that fits the record's stage. */
  predicate OneTimer(r: Record) {
    || (r.readyTimer && !r.terminationTimer && !r.exitFallbackTimer
        && !r.ready && !r.startupTimedOut && r.reason == NoReason)
    || (!r.readyTimer && r.terminationTimer && !r.exitFallbackTimer && r.reason != NoReason)
    || (!r.readyTimer && !r.terminationTimer && r.exitFallbackTimer && r.reason != NoReason)
  }

  ghost predicate WorkersInv(s: Supervisor) {
    forall slot :: slot in s.workers ==>
      && s.workers[slot].id < s.nextWorker
      && (if s.shuttingDown then NoTimer(s.workers[slot]) else Healthy(s.workers[slot]) || OneTimer(s.workers[slot]))
  }

  ghost predicate StartedSlot(s: Supervisor, slot: Slot) {
    s.started && (slot == 0 || (s.secondaryStarted && slot < s.workerCount))
  }

  /** `gap`: started slots that are, in the middle of a step, neither live nor pending. */
  ghost predicate SlotsInv(s: Supervisor, gap: set<Slot>) {
    if s.shuttingDown then s.restarts == {}
    else
      && s.workers.Keys !! s.restarts !! gap
      && forall slot :: StartedSlot(s, slot) <==> slot in s.workers || slot in s.restarts || slot in gap
  }

  /** `debt`: slots whose last fork attempt has, in the middle of a step, no outcome yet. */
  ghost predicate AttemptsInv(s: Supervisor, debt: set<Slot>) {
    !s.shuttingDown ==>
      forall slot :: Attempts(s.trace, slot)
                  == |Crashes(s.trace, slot)| + (if slot in s.workers || slot in debt then 1 else 0)
  }

  predicate Sorted(times: seq<int>) {
    forall i, j :: 0 <= i < j < |times| ==> times[i] <= times[j]
  }

  /** No closed window contains `limit` of the times: any `limit` in a row span more than it. */
  ghost predicate Sparse(times: seq<int>, window: int, limit: int) {
    forall i :: 0 <= i <= i + limit - 1 < |times| ==> times[i + limit - 1] - times[i] > window
  }

  /** The pruned list is the full history restricted to the window that ends at its last crash. */
  ghost predicate Pruned(history: seq<int>, list: seq<int>, window: int) {
    && Sorted(history)
    && list == if history == [] then [] else Recent(history, history[|history| - 1] - window)
  }

  predicate NotAfter(history: seq<int>, clock: int) {
    history != [] ==> history[|history| - 1] <= clock
  }

  ghost predicate CrashInv(s: Supervisor, strict: bool) {
    && (forall slot :: Pruned(Crashes(s.trace, slot), CrashList(s, slot), s.settings.restartWindowMs))
    && (forall slot :: NotAfter(Crashes(s.trace, slot), s.clock))
    && (strict ==>
          forall slot :: Sparse(Crashes(s.trace, slot), s.settings.restartWindowMs, s.settings.maxRestartsPerWindow))
  }

  ghost predicate ShutdownInv(s: Supervisor) {
    && (!s.shuttingDown ==> !s.exited && !s.shutdownTimer && !s.forceExitTimer)
    && (s.shuttingDown && !s.exited ==> s.workers != map[] && s.shutdownTimer != s.forceExitTimer)
    && (s.exited ==> !s.shutdownTimer && !s.forceExitTimer)
  }

  /** What must have come before, and what must not, when the i-th effect happened. */
  ghost predicate InOrder(trace: seq<Effect>, i: nat)
    requires i < |trace|
  {
    && (IsSecondaryFork(trace[i]) ==> Shows(trace[..i], BecameReady(0)))
    && (IsFork(trace[i]) ==> !Shows(trace[..i], ShutdownStarted))
    && (trace[i].PrimaryExit? ==> !ShowsExit(trace[..i]))
    && (trace[i] == PrimaryExit(0) ==> Spotless(trace[..i]))
  }

  ghost predicate TraceInv(s: Supervisor) {
    && (s.secondaryStarted ==> Shows(s.trace, BecameReady(0)))
    && (s.shuttingDown <==> Shows(s.trace, ShutdownStarted))
    && (s.exited <==> ShowsExit(s.trace))
    && (forall i :: 0 <= i < |s.trace| ==> InOrder(s.trace, i))
  }

  ghost predicate CodeInv(s: Supervisor) {
    s.exited || Spotless(s.trace) || (s.shuttingDown && s.exitCode >= 1)
  }

  ghost predicate Inv(s: Supervisor, gap: set<Slot>, debt: set<Slot>) {
    && s.settings.Valid() && s.workerCount >= 2 && (s.secondaryStarted ==> s.started)
    && WorkersInv(s) && SlotsInv(s, gap) && AttemptsInv(s, debt) && CrashInv(s, !s.shuttingDown)
    && ShutdownInv(s) && TraceInv(s) && CodeInv(s)
  }

  // ---------------------------------------------------------------------------------------
  // The trace, one effect at a time
  // ---------------------------------------------------------------------------------------

  lemma ShowsGrows(trace: seq<Effect>, e: Effect)
    ensures forall x :: Shows(trace + [e], x) <==> Shows(trace, x) || x == e
    ensures ShowsExit(trace + [e]) <==> ShowsExit(trace) || e.PrimaryExit?
    ensures Spotless(trace + [e]) <==> Spotless(trace) && !IsBad(e)
  {
    forall x ensures Shows(trace + [e], x) <==> Shows(trace, x) || x == e {
      if Shows(trace, x) {
        var i :| 0 <= i < |trace| && trace[i] == x;
        assert (trace + [e])[i] == x;
      }
      assert (trace + [e])[|trace|] == e;
    }
    if ShowsExit(trace) {
      var i :| 0 <= i < |trace| && trace[i].PrimaryExit?;
      assert (trace + [e])[i].PrimaryExit?;
    }
    assert (trace + [e])[|trace|] == e;
    if Spotless(trace + [e]) {
      forall i | 0 <= i < |trace| ensures !IsBad(trace[i]) {
        assert (trace + [e])[i] == trace[i];
      }
    }
  }

  /** Appending an effect that the flags of the new state allow. */
  lemma EmitKeepsTrace(s: Supervisor, e: Effect, t: Supervisor)
    requires TraceInv(s) && t.trace == s.trace + [e]
    requires t.secondaryStarted ==> s.secondaryStarted || e == BecameReady(0)
    requires t.shuttingDown <==> s.shuttingDown || e == ShutdownStarted
    requires t.exited <==> s.exited || e.PrimaryExit?
    requires IsSecondaryFork(e) ==> s.secondaryStarted
    requires IsFork(e) ==> !s.shuttingDown
    requires e.PrimaryExit? ==> !s.exited
    requires e == PrimaryExit(0) ==> Spotless(s.trace)
    ensures TraceInv(t)
    ensures Spotless(t.trace) <==> Spotless(s.trace) && !IsBad(e)
    ensures forall slot :: Attempts(t.trace, slot) == Attempts(s.trace, slot) + (if IsAttempt(e, slot) then 1 else 0)
    ensures forall slot :: Crashes(t.trace, slot)
                        == Crashes(s.trace, slot) + (if e.Crashed? && e.slot == slot then [e.at] else [])
  {
    ShowsGrows(s.trace, e);
    EmitCounts(s.trace, e);
    forall i | 0 <= i < |t.trace| ensures InOrder(t.trace, i) {
      if i < |s.trace| {
        assert InOrder(s.trace, i);
        assert t.trace[..i] == s.trace[..i];
      } else {
        assert t.trace[..i] == s.trace;
      }
    }
  }

  /** A step that leaves the crash book and the crash effects alone. */
  lemma CrashFrame(s: Supervisor, t: Supervisor, strict: bool)
    requires CrashInv(s, strict)
    requires t.crashTimes == s.crashTimes && t.settings == s.settings && s.clock <= t.clock
    requires forall slot :: Crashes(t.trace, slot) == Crashes(s.trace, slot)
    ensures CrashInv(t, strict)
  {
    forall slot
      ensures Pruned(Crashes(t.trace, slot), CrashList(t, slot), t.settings.restartWindowMs)
      ensures NotAfter(Crashes(t.trace, slot), t.clock)
    {
      assert CrashList(t, slot) == CrashList(s, slot);
      assert Pruned(Crashes(s.trace, slot), CrashList(s, slot), s.settings.restartWindowMs);
      assert NotAfter(Crashes(s.trace, slot), s.clock);
    }
  }

  /** Appending an effect other than a crash: trace and crash book survive. */
  lemma EmitKeepsBooks(s: Supervisor, e: Effect, t: Supervisor, strict: bool)
    requires TraceInv(s) && CrashInv(s, strict) && t.trace == s.trace + [e] && !e.Crashed?
    requires t.crashTimes == s.crashTimes && t.settings == s.settings && s.clock == t.clock
    requires t.secondaryStarted ==> s.secondaryStarted || e == BecameReady(0)
    requires t.shuttingDown <==> s.shuttingDown || e == ShutdownStarted
    requires t.exited <==> s.exited || e.PrimaryExit?
    requires IsSecondaryFork(e) ==> s.secondaryStarted
    requires IsFork(e) ==> !s.shuttingDown
    requires e.PrimaryExit? ==> !s.exited
    requires e == PrimaryExit(0) ==> Spotless(s.trace)
    ensures TraceInv(t) && CrashInv(t, strict)
    ensures Spotless(t.trace) <==> Spotless(s.trace) && !IsBad(e)
    ensures forall slot :: Attempts(t.trace, slot) == Attempts(s.trace, slot) + (if IsAttempt(e, slot) then 1 else 0)
    ensures forall slot :: Crashes(t.trace, slot) == Crashes(s.trace, slot)
  {
    EmitKeepsTrace(s, e, t);
    forall slot ensures Crashes(t.trace, slot) == Crashes(s.trace, slot) {
    }
    CrashFrame(s, t, strict);
  }

  // ---------------------------------------------------------------------------------------
  // Crash windows
  // ---------------------------------------------------------------------------------------

  lemma {:induction false} RecentAppend(a: seq<int>, b: seq<int>, cutoff: int)
    ensures Recent(a + b, cutoff) == Recent(a, cutoff) + Recent(b, cutoff)
    decreases |a|
  {
    if a == [] {
      assert a + b == b;
    } else {
      assert (a + b)[1..] == a[1..] + b;
      RecentAppend(a[1..], b, cutoff);
    }
  }

  /** Pruning with an older cutoff first loses nothing. */
  lemma {:induction false} RecentTwice(times: seq<int>, early: int, late: int)
    requires early <= late
    ensures Recent(Recent(times, early), late) == Recent(times, late)
    decreases |times|
  {
    if times != [] {
      RecentTwice(times[1..], early, late);
      if times[0] >= early {
        assert ([times[0]] + Recent(times[1..], early))[1..] == Recent(times[1..], early);
      }
    }
  }

  lemma {:induction false} RecentKeepsAll(times: seq<int>, cutoff: int)
    requires forall i :: 0 <= i < |times| ==> times[i] >= cutoff
    ensures Recent(times, cutoff) == times
    decreases |times|
  {
    if times != [] {
      RecentKeepsAll(times[1..], cutoff);
    }
  }

  lemma TailIsRecent(times: seq<int>, i: nat, cutoff: int)
    requires i < |times| && Sorted(times) && times[i] >= cutoff
    ensures |Recent(times, cutoff)| >= |times| - i
  {
    assert times == times[..i] + times[i..];
    RecentAppend(times[..i], times[i..], cutoff);
    RecentKeepsAll(times[i..], cutoff);
  }

  /** A history whose recent part stays below the limit gained no crowded window. */
  lemma StaysSparse(times: seq<int>, now: int, window: int, limit: int)
    requires 0 < window && 0 < limit
    requires Sorted(times + [now]) && Sparse(times, window, limit)
    requires |Recent(times + [now], now - window)| < limit
    ensures Sparse(times + [now], window, limit)
  {
    var all := times + [now];
    forall k | 0 <= k <= k + limit - 1 < |all| ensures all[k + limit - 1] - all[k] > window {
      if k + limit - 1 < |times| {
        assert times[k + limit - 1] - times[k] > window;
      } else if all[k] >= now - window {
        TailIsRecent(all, k, now - window);
        assert false;
      }
    }
  }

  // ---------------------------------------------------------------------------------------
  // One function at a time
  // ---------------------------------------------------------------------------------------

  lemma FinishKeepsInv(s: Supervisor, code: int)
    requires s.settings.Valid() && s.workerCount >= 2 && (s.secondaryStarted ==> s.started)
    requires s.shuttingDown && s.restarts == {}
    requires WorkersInv(s) && CrashInv(s, false) && TraceInv(s)
    requires s.exited ==> ShutdownInv(s)
    requires !s.exited && code == 0 ==> Spotless(s.trace)
    ensures Inv(FinishPrimary(s, code), {}, {})
  {
    if !s.exited {
      EmitKeepsBooks(s, PrimaryExit(code), FinishPrimary(s, code), false);
    }
  }

  lemma MaybeFinishKeepsInv(s: Supervisor)
    requires s.settings.Valid() && s.workerCount >= 2 && (s.secondaryStarted ==> s.started)
    requires s.shuttingDown && s.restarts == {}
    requires WorkersInv(s) && CrashInv(s, false) && TraceInv(s) && CodeInv(s)
    requires s.exited || s.workers != map[] ==> ShutdownInv(s)
    ensures Inv(MaybeFinishShutdown(s), {}, {})
    ensures s.workers == map[] ==> MaybeFinishShutdown(s).exited
  {
    if s.workers == map[] {
      FinishKeepsInv(s, s.exitCode);
    }
  }

  lemma BeginShutdownKeepsInv(s: Supervisor, code: int)
    requires !s.shuttingDown && s.settings.Valid() && s.workerCount >= 2 && (s.secondaryStarted ==> s.started)
    requires WorkersInv(s) && TraceInv(s) && ShutdownInv(s) && CrashInv(s, false)
    requires Spotless(s.trace) || code >= 1
    ensures Inv(BeginShutdown(s, code), {}, {})
    ensures BeginShutdown(s, code).shuttingDown
  {
    var asked := Emit(s, ShutdownRequested(code));
    var quiet := asked.(shuttingDown := true, exitCode := code, restarts := {}, workers := DisarmAll(s.workers));
    var told := Emit(quiet, ShutdownStarted);
    var killed := Emit(told, KilledAll(SIGTERM));
    EmitKeepsBooks(s, ShutdownRequested(code), asked, false);
    EmitKeepsBooks(asked, ShutdownStarted, told, false);
    EmitKeepsBooks(told, KilledAll(SIGTERM), killed, false);
    if killed.workers == map[] {
      MaybeFinishKeepsInv(killed);
    } else {
      CrashFrame(killed, killed.(shutdownTimer := true), false);
    }
  }

  /** The crash book after one more crash, whether or not it turns out to be one too many. */
  lemma CrashIsBooked(s: Supervisor, slot: Slot, t: Supervisor)
    requires s.settings.Valid() && CrashInv(s, true) && TraceInv(s)
    requires
      var recent := Recent(CrashList(s, slot), s.clock - s.settings.restartWindowMs) + [s.clock];
      t == Emit(s.(crashTimes := s.crashTimes[slot := recent]), Crashed(slot, s.clock))
    ensures TraceInv(t) && CrashInv(t, false)
    ensures Spotless(t.trace) <==> Spotless(s.trace)
    ensures |t.crashTimes[slot]| < s.settings.maxRestartsPerWindow ==> CrashInv(t, true)
    ensures forall other :: |Crashes(t.trace, other)| == |Crashes(s.trace, other)| + (if other == slot then 1 else 0)
    ensures forall other :: Attempts(t.trace, other) == Attempts(s.trace, other)
  {
    hide Pruned, NotAfter, Sparse, TraceInv, Recent, Crashes, Attempts, Spotless;
    EmitKeepsTrace(s, Crashed(slot, s.clock), t);
    assert Pruned(Crashes(s.trace, slot), CrashList(s, slot), s.settings.restartWindowMs);
    assert NotAfter(Crashes(s.trace, slot), s.clock);
    assert Sparse(Crashes(s.trace, slot), s.settings.restartWindowMs, s.settings.maxRestartsPerWindow);
    HistoryGrows(Crashes(s.trace, slot), CrashList(s, slot), s.clock,
                 s.settings.restartWindowMs, s.settings.maxRestartsPerWindow);
    forall other
      ensures Pruned(Crashes(t.trace, other), CrashList(t, other), t.settings.restartWindowMs)
      ensures NotAfter(Crashes(t.trace, other), t.clock)
    {
      if other != slot {
        assert Crashes(t.trace, other) == Crashes(s.trace, other) && CrashList(t, other) == CrashList(s, other);
        assert Pruned(Crashes(s.trace, other), CrashList(s, other), s.settings.restartWindowMs);
        assert NotAfter(Crashes(s.trace, other), s.clock);
      }
    }
    if |t.crashTimes[slot]| < s.settings.maxRestartsPerWindow {
      OthersStaySparse(s, t, slot);
    }
  }

  lemma OthersStaySparse(s: Supervisor, t: Supervisor, slot: Slot)
    requires CrashInv(s, true) && t.settings == s.settings
    requires forall other :: other != slot ==> Crashes(t.trace, other) == Crashes(s.trace, other)
    requires Sparse(Crashes(t.trace, slot), t.settings.restartWindowMs, t.settings.maxRestartsPerWindow)
    ensures forall other ::
              Sparse(Crashes(t.trace, other), t.settings.restartWindowMs, t.settings.maxRestartsPerWindow)
  {
    hide Sparse, Pruned, NotAfter, Crashes;
    forall other
      ensures Sparse(Crashes(t.trace, other), t.settings.restartWindowMs, t.settings.maxRestartsPerWindow)
    {
      assert Sparse(Crashes(s.trace, other), s.settings.restartWindowMs, s.settings.maxRestartsPerWindow);
    }
  }

  /** The same for the history of one slot. */
  lemma HistoryGrows(history: seq<int>, list: seq<int>, now: int, window: int, limit: int)
    requires 0 < window && 0 < limit
    requires Pruned(history, list, window) && NotAfter(history, now) && Sparse(history, window, limit)
    ensures
      var recent := Recent(list, now - window) + [now];
      && Pruned(history + [now], recent, window)
      && NotAfter(history + [now], now)
      && (|recent| < limit ==> Sparse(history + [now], window, limit))
  {
    SortedGrows(history, now);
    PruningGrows(history, list, now, window);
    hide Sorted, Recent, Sparse;
    if |Recent(history + [now], now - window)| < limit {
      StaysSparse(history, now, window, limit);
    }
  }

  lemma SortedGrows(history: seq<int>, now: int)
    requires Sorted(history) && NotAfter(history, now)
    ensures Sorted(history + [now])
  {
    var n := |history|;
    forall i | 0 <= i < n ensures history[i] <= now {
      assert i < n - 1 ==> history[i] <= history[n - 1];
    }
  }

  /** Pruning the pruned list again prunes the full history. */
  lemma PruningGrows(history: seq<int>, list: seq<int>, now: int, window: int)
    requires 0 < window && Pruned(history, list, window) && NotAfter(history, now)
    ensures Recent(list, now - window) + [now] == Recent(history + [now], now - window)
  {
    hide Sorted;
    if history != [] {
      RecentTwice(history, history[|history| - 1] - window, now - window);
    }
    RecentAppend(history, [now], now - window);
    RecentKeepsAll([now], now - window);
  }

  function WithCrash(s: Supervisor, slot: Slot): Supervisor {
    var recent := Recent(CrashList(s, slot), s.clock - s.settings.restartWindowMs) + [s.clock];
    Emit(s.(crashTimes := s.crashTimes[slot := recent]), Crashed(slot, s.clock))
  }

  lemma CrashLoopKeepsInv(s: Supervisor, slot: Slot, gap: set<Slot>)
    requires Inv(s, gap, {slot}) && !s.shuttingDown
    ensures Inv(BeginShutdown(Emit(WithCrash(s, slot), CrashLoop(slot)), 1), {}, {})
    ensures BeginShutdown(Emit(WithCrash(s, slot), CrashLoop(slot)), 1).shuttingDown
  {
    var t := WithCrash(s, slot);
    CrashIsBooked(s, slot, t);
    var looped := Emit(t, CrashLoop(slot));
    EmitKeepsBooks(t, CrashLoop(slot), looped, false);
    BeginShutdownKeepsInv(looped, 1);
  }

  /** A slot of the gap is covered again. */
  lemma GapCloses(s: Supervisor, t: Supervisor, slot: Slot, gap: set<Slot>)
    requires SlotsInv(s, gap) && slot in gap && !s.shuttingDown && !t.shuttingDown
    requires t.started == s.started && t.secondaryStarted == s.secondaryStarted && t.workerCount == s.workerCount
    requires
      || (t.workers.Keys == s.workers.Keys && t.restarts == s.restarts + {slot})
      || (t.workers.Keys == s.workers.Keys + {slot} && t.restarts == s.restarts)
    ensures SlotsInv(t, gap - {slot})
  {
    forall k: Slot
      ensures StartedSlot(t, k) <==> k in t.workers || k in t.restarts || k in gap - {slot}
    {
      assert StartedSlot(t, k) <==> StartedSlot(s, k);
      assert k in t.workers <==> k in t.workers.Keys;
      assert k in s.workers <==> k in s.workers.Keys;
    }
  }

  lemma ScheduleKeepsInv(s: Supervisor, slot: Slot, gap: set<Slot>)
    requires Inv(s, gap, {slot}) && !s.shuttingDown && slot in gap
    requires |WithCrash(s, slot).crashTimes[slot]| < s.settings.maxRestartsPerWindow
    ensures
      var t := WithCrash(s, slot);
      var u := ScheduleRestart(t, slot, |t.crashTimes[slot]|);
      Inv(u, gap - {slot}, {}) && !u.shuttingDown
  {
    hide CrashInv, TraceInv, Recent, RestartDelay, StartedSlot, Attempts, Crashes;
    var t := WithCrash(s, slot);
    CrashIsBooked(s, slot, t);
    var delay := RestartDelay(s.settings, |t.crashTimes[slot]|);
    var u := Emit(t.(restarts := s.restarts + {slot}), RestartScheduled(slot, delay));
    EmitKeepsBooks(t, RestartScheduled(slot, delay), u, true);
    GapCloses(s, u, slot, gap);
    assert slot !in s.workers && slot !in s.restarts;
    CrashPaysTheDebt(s, u, slot);
  }

  /** A recorded crash is the outcome of the attempt that was open. */
  lemma CrashPaysTheDebt(s: Supervisor, u: Supervisor, slot: Slot)
    requires AttemptsInv(s, {slot}) && !s.shuttingDown && u.workers == s.workers && slot !in s.workers
    requires forall k :: |Crashes(u.trace, k)| == |Crashes(s.trace, k)| + (if k == slot then 1 else 0)
    requires forall k :: Attempts(u.trace, k) == Attempts(s.trace, k)
    ensures AttemptsInv(u, {})
  {
    forall k ensures Attempts(u.trace, k) == |Crashes(u.trace, k)| + (if k in u.workers then 1 else 0) {
      assert Attempts(s.trace, k) == |Crashes(s.trace, k)| + (if k in s.workers || k == slot then 1 else 0);
    }
  }

  /** A crash of a slot that is in the gap closes the gap: restart pending, or shutting down. */
  lemma CrashAndRestartKeepsInv(s: Supervisor, slot: Slot, gap: set<Slot>)
    requires Inv(s, gap, {slot}) && !s.shuttingDown && slot in gap
    ensures
      var t := CrashAndRestart(s, slot);
      Inv(t, if t.shuttingDown then {} else gap - {slot}, {})
  {
    hide BeginShutdown, ScheduleRestart, Inv;
    if |WithCrash(s, slot).crashTimes[slot]| >= s.settings.maxRestartsPerWindow {
      CrashLoopKeepsInv(s, slot, gap);
    } else {
      ScheduleKeepsInv(s, slot, gap);
    }
  }

  lemma FailedForkKeepsInv(s: Supervisor, slot: Slot, gap: set<Slot>)
    requires Inv(s, gap, {}) && !s.shuttingDown && slot in gap
    ensures
      var t := CrashAndRestart(Emit(s, ForkFailed(slot)), slot);
      Inv(t, if t.shuttingDown then {} else gap - {slot}, {})
  {
    hide CrashInv, TraceInv, CrashAndRestart;
    var t := Emit(s, ForkFailed(slot));
    assert StartedSlot(s, slot);
    EmitKeepsBooks(s, ForkFailed(slot), t, true);
    assert AttemptsInv(t, {slot});
    CrashAndRestartKeepsInv(t, slot, gap);
  }

  lemma ForkKeepsInv(s: Supervisor, slot: Slot, gap: set<Slot>)
    requires Inv(s, gap, {}) && !s.shuttingDown && slot in gap
    ensures Inv(ForkSlot(s, slot, false), gap - {slot}, {})
  {
    hide CrashInv, TraceInv, CrashAndRestart;
    var t := ForkSlot(s, slot, false);
    assert StartedSlot(s, slot) && slot !in s.workers;
    EmitKeepsBooks(s, Forked(slot, s.nextWorker), t, true);
    assert t.workers.Keys == s.workers.Keys + {slot};
    GapCloses(s, t, slot, gap);
    assert AttemptsInv(t, {}) by {
      forall other
        ensures Attempts(t.trace, other) == |Crashes(t.trace, other)| + (if other in t.workers then 1 else 0)
      {
        assert Attempts(s.trace, other) == |Crashes(s.trace, other)| + (if other in s.workers then 1 else 0);
      }
    }
  }

  lemma ForkSlotKeepsInv(s: Supervisor, slot: Slot, fails: bool, gap: set<Slot>)
    requires Inv(s, gap, {}) && !s.shuttingDown && slot in gap
    ensures
      var t := ForkSlot(s, slot, fails);
      Inv(t, if t.shuttingDown then {} else gap - {slot}, {})
  {
    assert slot !in s.workers;
    if fails {
      FailedForkKeepsInv(s, slot, gap);
    } else {
      ForkKeepsInv(s, slot, gap);
    }
  }

  function SlotsFrom(slot: Slot, end: Slot): (r: set<Slot>)
    ensures forall k: Slot :: k in r <==> slot <= k < end
    decreases end - slot
  {
    if slot >= end then {} else {slot} + SlotsFrom(slot + 1, end)
  }

  lemma SlotsFromPeel(slot: Slot, end: Slot)
    requires slot < end
    ensures slot in SlotsFrom(slot, end) && SlotsFrom(slot, end) - {slot} == SlotsFrom(slot + 1, end)
  {
  }

  lemma ForkSlotInShutdown(s: Supervisor, slot: Slot, fails: bool)
    requires s.shuttingDown
    ensures ForkSlot(s, slot, fails) == s
  {
  }

  lemma {:induction false} ForkRangeKeepsInv(s: Supervisor, slot: Slot, end: Slot, failing: set<Slot>)
    requires slot <= end && Inv(s, if s.shuttingDown then {} else SlotsFrom(slot, end), {})
    ensures Inv(ForkRange(s, slot, end, failing), {}, {})
    decreases end - slot
  {
    hide ForkSlot, Inv;
    if slot < end {
      if s.shuttingDown {
        ForkSlotInShutdown(s, slot, slot in failing);
      } else {
        SlotsFromPeel(slot, end);
        ForkSlotKeepsInv(s, slot, slot in failing, SlotsFrom(slot, end));
      }
      ForkRangeKeepsInv(ForkSlot(s, slot, slot in failing), slot + 1, end, failing);
    }
  }

  lemma ExitKeepsInv(s: Supervisor, slot: Slot, id: WorkerId, code: Option<int>)
    requires Inv(s, {}, {})
    ensures Inv(HandleExit(s, slot, id, code), {}, {})
  {
    if s.Live(slot, id) {
      var t := s.(workers := s.workers - {slot});
      CrashFrame(s, t, !s.shuttingDown);
      if s.shuttingDown {
        ShutdownExitKeepsInv(s, slot, code);
      } else {
        assert Inv(t, {slot}, {slot});
        CrashAndRestartKeepsInv(t, slot, {slot});
      }
    }
  }

  lemma ShutdownExitKeepsInv(s: Supervisor, slot: Slot, code: Option<int>)
    requires Inv(s, {}, {}) && s.shuttingDown && slot in s.workers
    ensures Inv(HandleExit(s, slot, s.workers[slot].id, code), {}, {})
  {
    var t := s.(workers := s.workers - {slot});
    var failed := Emit(t.(exitCode := 1), FailedExit(slot));
    CrashFrame(s, t, false);
    EmitKeepsBooks(t, FailedExit(slot), failed, false);
    if code.Some? && code.value != 0 {
      MaybeFinishKeepsInv(failed);
    } else {
      MaybeFinishKeepsInv(t);
    }
  }

  lemma RecordUpdateKeepsInv(s: Supervisor, slot: Slot, r: Record)
    requires Inv(s, {}, {}) && slot in s.workers && r.id == s.workers[slot].id
    requires if s.shuttingDown then NoTimer(r) else Healthy(r) || OneTimer(r)
    ensures Inv(WithRecord(s, slot, r), {}, {})
  {
    var t := WithRecord(s, slot, r);
    assert t.workers.Keys == s.workers.Keys;
    hide WorkersInv, SlotsInv, AttemptsInv, CrashInv, TraceInv, CodeInv, NoTimer, Healthy, OneTimer;
    RecordUpdateKeepsWorkers(s, slot, r);
    RecordUpdateKeepsSlots(s, t);
    RecordUpdateKeepsTrace(s, t);
  }

  lemma RecordUpdateKeepsWorkers(s: Supervisor, slot: Slot, r: Record)
    requires WorkersInv(s) && slot in s.workers && r.id == s.workers[slot].id
    requires if s.shuttingDown then NoTimer(r) else Healthy(r) || OneTimer(r)
    ensures WorkersInv(WithRecord(s, slot, r)) && WithRecord(s, slot, r).workers != map[]
  {
    hide NoTimer, Healthy, OneTimer;
    assert slot in WithRecord(s, slot, r).workers;
  }

  lemma RecordUpdateKeepsTrace(s: Supervisor, t: Supervisor)
    requires TraceInv(s) && CodeInv(s) && t == s.(workers := t.workers)
    ensures TraceInv(t) && CodeInv(t)
  {
    hide InOrder, Shows, ShowsExit, Spotless;
  }

  /** Only the contents of records, not which slots are live, changed. */
  lemma RecordUpdateKeepsSlots(s: Supervisor, t: Supervisor)
    requires SlotsInv(s, {}) && AttemptsInv(s, {}) && CrashInv(s, !s.shuttingDown)
    requires t == s.(workers := t.workers) && t.workers.Keys == s.workers.Keys
    ensures SlotsInv(t, {}) && AttemptsInv(t, {}) && CrashInv(t, !s.shuttingDown)
  {
    hide Attempts, Crashes;
    assert forall k :: k in t.workers <==> k in s.workers.Keys;
    assert forall k :: StartedSlot(t, k) <==> StartedSlot(s, k);
    CrashFrame(s, t, !s.shuttingDown);
  }

  /** An effect that is only a note: no fork, no crash, nothing bad, no exit. */
  lemma NoteKeepsInv(s: Supervisor, e: Effect)
    requires Inv(s, {}, {})
    requires e.BecameReady? || e.Killed? || e.KilledAll?
    ensures Inv(Emit(s, e), {}, {})
    ensures Shows(Emit(s, e).trace, e)
  {
    EmitKeepsBooks(s, e, Emit(s, e), !s.shuttingDown);
    ShowsGrows(s.trace, e);
  }

  lemma ReadyKeepsInv(s: Supervisor, slot: Slot, id: WorkerId, failing: set<Slot>)
    requires Inv(s, {}, {})
    ensures Inv(HandleReady(s, slot, id, failing), {}, {})
  {
    if s.Live(slot, id) && !s.workers[slot].ready && !s.shuttingDown
       && !s.workers[slot].startupTimedOut && s.workers[slot].reason == NoReason {
      var r := Disarm(s.workers[slot].(ready := true));
      RecordUpdateKeepsInv(s, slot, r);
      var t := Emit(WithRecord(s, slot, r), BecameReady(slot));
      NoteKeepsInv(WithRecord(s, slot, r), BecameReady(slot));
      if slot == 0 && !t.secondaryStarted {
        SecondaryStartKeepsInv(t, failing);
      }
    }
  }

  lemma SecondaryStartKeepsInv(s: Supervisor, failing: set<Slot>)
    requires Inv(s, {}, {}) && !s.shuttingDown && !s.secondaryStarted && 0 in s.workers
    requires Shows(s.trace, BecameReady(0))
    ensures Inv(ForkRange(s.(secondaryStarted := true), 1, s.workerCount, failing), {}, {})
  {
    var t := s.(secondaryStarted := true);
    assert StartedSlot(s, 0);
    CrashFrame(s, t, true);
    assert SlotsInv(t, SlotsFrom(1, s.workerCount));
    ForkRangeKeepsInv(t, 1, s.workerCount, failing);
  }

  lemma WorkerTimersKeepInv(s: Supervisor, slot: Slot)
    requires Inv(s, {}, {})
    ensures Inv(ReadyTimerFires(s, slot), {}, {})
    ensures Inv(TerminationTimerFires(s, slot), {}, {})
  {
    if slot in s.workers && !s.shuttingDown {
      var r := s.workers[slot];
      if r.readyTimer {
        var timedOut :=
          r.(readyTimer := false, startupTimedOut := true, reason := ReadyTimeout, terminationTimer := true);
        RecordUpdateKeepsInv(s, slot, timedOut);
        NoteKeepsInv(WithRecord(s, slot, timedOut), Killed(slot, SIGTERM));
      }
      if r.terminationTimer {
        var bounded := r.(terminationTimer := false, exitFallbackTimer := true);
        RecordUpdateKeepsInv(s, slot, bounded);
        NoteKeepsInv(WithRecord(s, slot, bounded), Killed(slot, SIGKILL));
      }
    }
  }

  lemma FallbackKeepsInv(s: Supervisor, slot: Slot)
    requires Inv(s, {}, {})
    ensures Inv(FallbackTimerFires(s, slot), {}, {})
  {
    if slot in s.workers && s.workers[slot].exitFallbackTimer {
      var fired := WithRecord(s, slot, s.workers[slot].(exitFallbackTimer := false));
      assert fired.workers - {slot} == s.workers - {slot};
      assert FallbackTimerFires(s, slot) == HandleExit(s, slot, s.workers[slot].id, None);
      ExitKeepsInv(s, slot, s.workers[slot].id, None);
    }
  }

  lemma RestartKeepsInv(s: Supervisor, slot: Slot, fails: bool)
    requires Inv(s, {}, {})
    ensures Inv(RestartTimerFires(s, slot, fails), {}, {})
  {
    if slot in s.restarts {
      var t := s.(restarts := s.restarts - {slot});
      CrashFrame(s, t, true);
      assert Inv(t, {slot}, {});
      ForkSlotKeepsInv(t, slot, fails, {slot});
    }
  }

  lemma ShutdownTimersKeepInv(s: Supervisor)
    requires Inv(s, {}, {})
    ensures Inv(ShutdownTimerFires(s), {}, {})
    ensures Inv(ForceExitTimerFires(s), {}, {})
  {
    if s.shutdownTimer {
      var quiet := s.(shutdownTimer := false, exitCode := 1);
      var late := Emit(quiet, ShutdownTimedOut);
      var t := Emit(late, KilledAll(SIGKILL));
      EmitKeepsBooks(s, ShutdownTimedOut, late, false);
      EmitKeepsBooks(late, KilledAll(SIGKILL), t, false);
      CrashFrame(t, t.(forceExitTimer := true), false);
    }
    if s.forceExitTimer {
      var t := s.(forceExitTimer := false);
      CrashFrame(s, t, false);
      FinishKeepsInv(t, 1);
    }
  }

  lemma StartKeepsInv(s: Supervisor, fails: bool)
    requires Inv(s, {}, {})
    ensures Inv(Start(s, fails), {}, {})
  {
    if !s.started {
      var t := s.(started := true);
      CrashFrame(s, t, !s.shuttingDown);
      if !s.shuttingDown {
        assert SlotsInv(t, {0}) by {
          assert forall slot :: !StartedSlot(s, slot);
          assert s.workers.Keys == {} && s.restarts == {};
        }
        ForkSlotKeepsInv(t, 0, fails, {0});
      }
    }
  }

  lemma ShutdownCallKeepsInv(s: Supervisor, code: int)
    requires Inv(s, {}, {})
    ensures Inv(BeginShutdown(s, code), {}, {})
  {
    if s.shuttingDown {
      EmitKeepsBooks(s, ShutdownRequested(code), BeginShutdown(s, code), false);
    } else {
      BeginShutdownKeepsInv(s, code);
    }
  }

  lemma ApplyKeepsInv(s: Supervisor, e: Event)
    requires Inv(s, {}, {})
    ensures Inv(Apply(s, e), {}, {})
  {
    match e
    case StartCall(fails) => StartKeepsInv(s, fails);
    case ShutdownCall(code) => ShutdownCallKeepsInv(s, code);
    case ReadyMessage(slot, id, failing) => ReadyKeepsInv(s, slot, id, failing);
    case ErrorEvent(slot, id) => ErrorKeepsInv(s, slot, id);
    case ExitEvent(slot, id, code) => ExitKeepsInv(s, slot, id, code);
    case ReadyTimer(slot) => WorkerTimersKeepInv(s, slot);
    case TerminationTimer(slot) => WorkerTimersKeepInv(s, slot);
    case FallbackTimer(slot) => FallbackKeepsInv(s, slot);
    case RestartTimer(slot, fails) => RestartKeepsInv(s, slot, fails);
    case ShutdownTimer => ShutdownTimersKeepInv(s);
    case ForceExitTimer => ShutdownTimersKeepInv(s);
  }

  lemma ErrorKeepsInv(s: Supervisor, slot: Slot, id: WorkerId)
    requires Inv(s, {}, {})
    ensures Inv(HandleError(s, slot, id), {}, {})
  {
    if s.Live(slot, id) && !s.shuttingDown && s.workers[slot].reason == NoReason {
      RecordUpdateKeepsInv(
        s, slot, s.workers[slot].(reason := WorkerError, readyTimer := false, terminationTimer := true));
    }
  }

  lemma TickKeepsInv(s: Supervisor, after: nat)
    requires Inv(s, {}, {})
    ensures Inv(s.(clock := s.clock + after), {}, {})
  {
    CrashFrame(s, s.(clock := s.clock + after), !s.shuttingDown);
  }

  lemma NextKeepsInv(s: Supervisor, e: Timed)
    requires Inv(s, {}, {})
    ensures Inv(Next(s, e), {}, {})
  {
    hide Apply, Inv;
    var later := s.(clock := s.clock + e.after);
    TickKeepsInv(s, e.after);
    ApplyKeepsInv(later, e.event);
  }

  lemma {:induction false} RunKeepsInv(s: Supervisor, events: seq<Timed>)
    requires Inv(s, {}, {})
    ensures Inv(Run(s, events), {}, {})
    decreases |events|
  {
    if events != [] {
      NextKeepsInv(s, events[0]);
      RunKeepsInv(Next(s, events[0]), events[1..]);
    }
  }

  ghost predicate Reachable(s: Supervisor) {
    exists settings: Settings, workerCount: nat, clock: int, events: seq<Timed> ::
      settings.Valid() && workerCount >= 2 && s == Run(Init(settings, workerCount, clock), events)
  }

  lemma ReachableHasInv(s: Supervisor)
    requires Reachable(s)
    ensures Inv(s, {}, {})
  {
    var settings: Settings, workerCount: nat, clock: int, events: seq<Timed> :|
      settings.Valid() && workerCount >= 2 && s == Run(Init(settings, workerCount, clock), events);
    assert Inv(Init(settings, workerCount, clock), {}, {});
    RunKeepsInv(Init(settings, workerCount, clock), events);
  }

  lemma InitIsReachable(settings: Settings, workerCount: nat, clock: int)
    requires settings.Valid() && workerCount >= 2
    ensures Reachable(Init(settings, workerCount, clock))
  {
    assert Run(Init(settings, workerCount, clock), []) == Init(settings, workerCount, clock);
  }

  lemma {:induction false} RunOneMore(s: Supervisor, events: seq<Timed>, e: Timed)
    ensures Run(s, events + [e]) == Next(Run(s, events), e)
    decreases |events|
  {
    hide Next;
    if events == [] {
      assert [] + [e] == [e] && [e][1..] == [];
      assert Run(Next(s, e), []) == Next(s, e);
    } else {
      assert (events + [e])[0] == events[0] && (events + [e])[1..] == events[1..] + [e];
      RunOneMore(Next(s, events[0]), events[1..], e);
    }
  }

  lemma NextIsReachable(s: Supervisor, e: Timed)
    requires Reachable(s)
    ensures Reachable(Next(s, e))
  {
    hide Next;
    var settings: Settings, workerCount: nat, clock: int, events: seq<Timed> :|
      settings.Valid() && workerCount >= 2 && s == Run(Init(settings, workerCount, clock), events);
    RunOneMore(Init(settings, workerCount, clock), events, e);
  }

  /** What a caller of the supervisor may rely on between two events. */
  predicate Consistent(s: Supervisor) {
    && (if s.shuttingDown then s.restarts == {} else s.workers.Keys !! s.restarts)
    && (s.exited ==> s.shuttingDown && !s.shutdownTimer && !s.forceExitTimer)
    && !(s.shutdownTimer && s.forceExitTimer)
  }

  lemma ReachableIsConsistent(s: Supervisor)
    requires Reachable(s)
    ensures Consistent(s) && s.workerCount >= 1
  {
    ReachableHasInv(s);
  }
}
