/**
 The multicore planner of server-lib/multicore.js: how many gateway workers to start, and which integer
 share of every aggregate budget each of them gets.
 */
module Multicore {
  import opened Wrappers
  import opened Integers
  import opened Strings

  const MAX_WORKERS: nat := 32
  const AUTO_MIN_DB_POOL_PER_WORKER: nat := 4

  /** The aggregate budgets, in the order they are resolved and allocated. */
  datatype Budget =
    | DbPool
    | MessagePending
    | DetachedConcurrency
    | DetachedBytes
    | DetachedReserve
    | StreamGate
    | ReplaySpools

  const BUDGETS: seq<Budget> :=
    [DbPool, MessagePending, DetachedConcurrency, DetachedBytes, DetachedReserve, StreamGate, ReplaySpools]

  function Name(b: Budget): string {
    match b
    case DbPool => "DB_POOL_MAX"
    case MessagePending => "MESSAGE_REQUEST_ASYNC_MAX_PENDING"
    case DetachedConcurrency => "DETACHED_STREAM_MAX_CONCURRENCY"
    case DetachedBytes => "DETACHED_STREAM_BUDGET_BYTES"
    case DetachedReserve => "DETACHED_STREAM_METERING_RESERVE_BYTES"
    case StreamGate => "STREAM_GATE_GLOBAL_PREBUFFER_BYTE_CAP"
    case ReplaySpools => "REPLAY_MAX_CONCURRENT_SPOOLS"
  }

  function DefaultTotal(b: Budget, production: bool): nat {
    match b
    case DbPool => if production then 20 else 10
    case MessagePending => 5000
    case DetachedConcurrency => 64
    case DetachedBytes => 64 * MIB
    case DetachedReserve => 16 * MIB
    case StreamGate => 256 * MIB
    case ReplaySpools => 64
  }

  function MinPerWorker(b: Budget): (n: nat)
    ensures n > 0
  {
    match b
    case DbPool => 1
    case MessagePending => 100
    case DetachedConcurrency => 1
    case DetachedBytes => 3 * MIB + 64 * 1024
    case DetachedReserve => 64 * 1024
    case StreamGate => 128 * 1024
    case ReplaySpools => 1
  }

  function MaxTotal(b: Budget): nat {
    match b
    case DbPool => 200
    case MessagePending => 200000
    case DetachedConcurrency => 4096
    case DetachedBytes => 1024 * MIB
    case DetachedReserve => 1024 * MIB
    case StreamGate => 2 * 1024 * MIB
    case ReplaySpools => 1024
  }

  type Env = map<string, string>

  datatype ConfigError =
    | NotAnInteger(name: string)
    | UnsafeInteger(name: string)
    | BelowMinimum(name: string, min: nat)
    | AboveMaximum(name: string, max: nat)
    | UnknownMode
    | NeedsProduction
    | NeedsInvalidation
    | ReserveExceedsBudget
    | ExceedsCapacity(workers: nat, capacity: nat)
    | NoCapacityForTwo
    | ShareBelowMinimum(budget: Budget)
    | ReserveShareExceedsBudgetShare(index: nat)

  // ---------------------------------------------------------------------------------------
  // Integer shares
  // ---------------------------------------------------------------------------------------

  function Share(total: nat, workers: nat, index: nat): nat
    requires workers > 0
  {
    total / workers + (if index < total % workers then 1 else 0)
  }

  /** allocateIntegerBudget. */
  function Shares(total: nat, workers: nat): (shares: seq<nat>)
    requires workers > 0
  {
    seq(workers, index requires 0 <= index < workers => Share(total, workers, index))
  }

  function SumOf(s: seq<nat>): nat {
    if s == [] then 0 else SumOf(s[..|s| - 1]) + s[|s| - 1]
  }

  lemma OneMoreTimes(a: nat, k: nat)
    requires k > 0
    ensures a * k == a * (k - 1) + a
  {
  }

  lemma {:induction false} SumOfFirstShares(total: nat, workers: nat, k: nat)
    requires workers > 0 && k <= workers
    ensures SumOf(Shares(total, workers)[..k]) ==
            total / workers * k + (if k < total % workers then k else total % workers)
  {
    if k > 0 {
      var shares := Shares(total, workers);
      SumOfFirstShares(total, workers, k - 1);
      assert shares[..k][..k - 1] == shares[..k - 1];
      OneMoreTimes(total / workers, k);
    }
  }

  /** Nothing is lost or invented, shares differ by at most one, and earlier workers get the larger ones. */
  lemma SharesAreFair(total: nat, workers: nat)
    requires workers > 0
    ensures |Shares(total, workers)| == workers && SumOf(Shares(total, workers)) == total
    ensures forall i, j :: 0 <= i < j < workers ==>
              Shares(total, workers)[j] <= Shares(total, workers)[i] <= Shares(total, workers)[j] + 1
  {
    var shares := Shares(total, workers);
    SumOfFirstShares(total, workers, workers);
    assert shares[..workers] == shares;
  }

  lemma TimesIsMonotone(a: nat, b: nat, c: nat)
    requires a <= b
    ensures a * c <= b * c
  {
    assert b * c == a * c + (b - a) * c;
  }

  lemma AtMostQuotient(a: nat, b: nat, total: nat)
    requires b > 0
    ensures a <= total / b <==> a * b <= total
  {
    var (q, r) := (total / b, total % b);
    assert total == q * b + r;
    if a <= q {
      TimesIsMonotone(a, q, b);
    } else {
      TimesIsMonotone(q + 1, a, b);
      assert (q + 1) * b == q * b + b;
    }
  }

  /** A larger total gives no worker less. */
  lemma SharesAreMonotone(total: nat, more: nat, workers: nat, index: nat)
    requires workers > 0 && total <= more && index < workers
    ensures Share(total, workers, index) <= Share(more, workers, index)
  {
    var (q, p) := (total / workers, more / workers);
    AtMostQuotient(q, workers, total);
    AtMostQuotient(q, workers, more);
    assert total == q * workers + total % workers && more == p * workers + more % workers;
  }

  /** Every share meets a minimum exactly if the total covers that minimum for all workers. */
  lemma SharesMeetMinimum(total: nat, workers: nat, min: nat)
    requires workers > 0 && min > 0
    ensures (forall i :: 0 <= i < workers ==> Share(total, workers, i) >= min) <==> workers <= total / min
  {
    AtMostQuotient(min, workers, total);
    AtMostQuotient(workers, min, total);
    assert min * workers == workers * min;
    assert Share(total, workers, workers - 1) == total / workers;
  }

  // ---------------------------------------------------------------------------------------
  // Environment variables
  // ---------------------------------------------------------------------------------------

  function ParseOptionalInteger(env: Env, name: string, min: nat, max: nat): Result<Option<nat>, ConfigError> {
    if name !in env || Trim(env[name]) == "" then Success(None)
    else
      var normalized := Trim(env[name]);
      if !Digits(normalized) then Failure(NotAnInteger(name))
      else
        var value := Value(normalized);
        if value > MAX_SAFE_INTEGER then Failure(UnsafeInteger(name))
        else if value < min then Failure(BelowMinimum(name, min))
        else if value > max then Failure(AboveMaximum(name, max))
        else Success(Some(value))
  }

  function ParseInteger(env: Env, name: string, default: nat, min: nat, max: nat): Result<nat, ConfigError> {
    var parsed :- ParseOptionalInteger(env, name, min, max);
    Success(if parsed.Some? then parsed.value else default)
  }

  function LowerChar(c: char): char {
    if 'A' <= c <= 'Z' then ((c as int) + 32) as char else c
  }

  /** toLowerCase, as far as comparing with an ASCII word can tell. */
  function Lower(s: string): string {
    if s == "" then "" else [LowerChar(s[0])] + Lower(s[1..])
  }

  function Lookup(env: Env, name: string, default: string): string {
    if name in env then env[name] else default
  }

  datatype Mode = Auto | On | Off

  function ParseMode(env: Env): Result<Mode, ConfigError> {
    var normalized := Lower(Trim(Lookup(env, "CCH_MULTICORE_MODE", "auto")));
    if normalized == "auto" then Success(Auto)
    else if normalized == "on" || normalized == "true" || normalized == "enabled" then Success(On)
    else if normalized == "off" || normalized == "false" || normalized == "disabled" then Success(Off)
    else Failure(UnknownMode)
  }

  predicate HasInvalidation(env: Env) {
    && Trim(Lookup(env, "REDIS_URL", "")) != ""
    && var rateLimit := Lower(Trim(Lookup(env, "ENABLE_RATE_LIMIT", "true")));
       rateLimit != "false" && rateLimit != "0"
  }

  predicate Production(env: Env) {
    Lookup(env, "NODE_ENV", "") == "production"
  }

  // ---------------------------------------------------------------------------------------
  // Aggregate budgets
  // ---------------------------------------------------------------------------------------

  type Totals = map<Budget, nat>

  /** The totals of the first n budgets. */
  function ResolveFirst(env: Env, n: nat): Result<Totals, ConfigError>
    requires n <= |BUDGETS|
  {
    if n == 0 then Success(map[])
    else
      var totals :- ResolveFirst(env, n - 1);
      var b := BUDGETS[n - 1];
      var total :- ParseInteger(env, Name(b), DefaultTotal(b, Production(env)), MinPerWorker(b), MaxTotal(b));
      Success(totals[b := total])
  }

  ghost predicate Complete(totals: Totals) {
    forall b: Budget :: b in totals
  }

  function ResolveTotals(env: Env): Result<Totals, ConfigError> {
    var _ :- ParseInteger(env, "STREAM_GATE_PREBUFFER_BYTE_CAP", 10 * MIB, 1024, 64 * MIB);
    var totals :- ResolveFirst(env, |BUDGETS|);
    if DetachedReserve in totals && DetachedBytes in totals && totals[DetachedReserve] > totals[DetachedBytes] then
      Failure(ReserveExceedsBudget)
    else Success(totals)
  }

  function Position(b: Budget): (k: nat)
    ensures k < |BUDGETS| && BUDGETS[k] == b
  {
    match b
    case DbPool => 0
    case MessagePending => 1
    case DetachedConcurrency => 2
    case DetachedBytes => 3
    case DetachedReserve => 4
    case StreamGate => 5
    case ReplaySpools => 6
  }

  lemma ParsedIsInRange(env: Env, name: string, default: nat, min: nat, max: nat)
    requires min <= default <= max
    ensures ParseInteger(env, name, default, min, max).Success? ==>
              min <= ParseInteger(env, name, default, min, max).value <= max
  {
  }

  lemma DefaultIsInRange(b: Budget, production: bool)
    ensures MinPerWorker(b) <= DefaultTotal(b, production) <= MaxTotal(b)
  {
  }

  lemma {:induction false} ResolvedFirst(env: Env, n: nat)
    requires n <= |BUDGETS| && ResolveFirst(env, n).Success?
    ensures
      var totals := ResolveFirst(env, n).value;
      forall k :: 0 <= k < n ==> BUDGETS[k] in totals && totals[BUDGETS[k]] <= MaxTotal(BUDGETS[k])
  {
    hide Name, DefaultTotal, MinPerWorker, MaxTotal, ParseInteger, Production;
    if n > 0 {
      var b := BUDGETS[n - 1];
      ResolvedFirst(env, n - 1);
      DefaultIsInRange(b, Production(env));
      ParsedIsInRange(env, Name(b), DefaultTotal(b, Production(env)), MinPerWorker(b), MaxTotal(b));
    }
  }

  lemma ResolvedTotals(env: Env)
    requires ResolveTotals(env).Success?
    ensures
      var totals := ResolveTotals(env).value;
      && Complete(totals)
      && (forall b :: totals[b] <= MaxTotal(b))
      && totals[DetachedReserve] <= totals[DetachedBytes]
  {
    hide Name, DefaultTotal, MinPerWorker, MaxTotal, ParseInteger, Production;
    var totals := ResolveTotals(env).value;
    ResolvedFirst(env, |BUDGETS|);
    forall b ensures b in totals && totals[b] <= MaxTotal(b) {
      assert BUDGETS[Position(b)] == b;
    }
  }

  /** resolveAggregateBudgets. */
  method ResolveAggregateBudgets(env: Env) returns (r: Result<Totals, ConfigError>)
    ensures r == ResolveTotals(env)
  {
    hide Name, DefaultTotal, MinPerWorker, MaxTotal, ParseInteger, Production;
    var _ :- ParseInteger(env, "STREAM_GATE_PREBUFFER_BYTE_CAP", 10 * MIB, 1024, 64 * MIB);
    var totals: Totals := map[];
    var n := 0;
    while n < |BUDGETS|
      invariant 0 <= n <= |BUDGETS|
      invariant ResolveFirst(env, n) == Success(totals)
    {
      var b := BUDGETS[n];
      var total := ParseInteger(env, Name(b), DefaultTotal(b, Production(env)), MinPerWorker(b), MaxTotal(b));
      if total.Failure? {
        ResolveFails(env, n + 1);
        return Failure(total.error);
      }
      totals := totals[b := total.value];
      n := n + 1;
    }
    if DetachedReserve in totals && DetachedBytes in totals && totals[DetachedReserve] > totals[DetachedBytes] {
      return Failure(ReserveExceedsBudget);
    }
    return Success(totals);
  }

  lemma {:induction false} ResolveFails(env: Env, n: nat)
    requires n <= |BUDGETS| && ResolveFirst(env, n).Failure?
    ensures ResolveFirst(env, |BUDGETS|) == ResolveFirst(env, n)
    decreases |BUDGETS| - n
  {
    if n < |BUDGETS| {
      ResolveFails(env, n + 1);
    }
  }

  // ---------------------------------------------------------------------------------------
  // Capacity and allocation
  // ---------------------------------------------------------------------------------------

  /** The smallest number of workers any of the first n budgets supports. */
  function CapacityOfFirst(totals: Totals, n: nat): nat
    requires Complete(totals) && 0 < n <= |BUDGETS|
  {
    var b := BUDGETS[n - 1];
    var capacity := totals[b] / MinPerWorker(b);
    if n == 1 then capacity else Min(CapacityOfFirst(totals, n - 1), capacity)
  }

  /** calculateBudgetCapacity. */
  function BudgetCapacity(totals: Totals): nat
    requires Complete(totals)
  {
    CapacityOfFirst(totals, |BUDGETS|)
  }

  type Allocations = map<Budget, seq<nat>>

  function AllocateFirst(totals: Totals, workers: nat, n: nat): Result<Allocations, ConfigError>
    requires Complete(totals) && workers > 0 && n <= |BUDGETS|
  {
    if n == 0 then Success(map[])
    else
      var allocations :- AllocateFirst(totals, workers, n - 1);
      var b := BUDGETS[n - 1];
      var shares := Shares(totals[b], workers);
      if exists i :: 0 <= i < |shares| && shares[i] < MinPerWorker(b) then Failure(ShareBelowMinimum(b))
      else Success(allocations[b := shares])
  }

  /** The first worker, from i on, whose reserve share exceeds its budget share. */
  function FirstExcess(reserves: seq<nat>, budgets: seq<nat>, i: nat): Option<nat>
    requires i <= |reserves| == |budgets|
    decreases |reserves| - i
  {
    if i == |reserves| then None
    else if reserves[i] > budgets[i] then Some(i)
    else FirstExcess(reserves, budgets, i + 1)
  }

  function Allocate(totals: Totals, workers: nat): Result<Allocations, ConfigError>
    requires Complete(totals) && workers > 0
  {
    var allocations :- AllocateFirst(totals, workers, |BUDGETS|);
    var excess := FirstExcess(Shares(totals[DetachedReserve], workers), Shares(totals[DetachedBytes], workers), 0);
    if excess.Some? then Failure(ReserveShareExceedsBudgetShare(excess.value)) else Success(allocations)
  }

  lemma {:induction false} AllocatedFirst(totals: Totals, workers: nat, n: nat)
    requires Complete(totals) && workers > 0 && n <= |BUDGETS|
    ensures
      var r := AllocateFirst(totals, workers, n);
      && (r.Success? <==> forall k :: 0 <= k < n ==> workers <= totals[BUDGETS[k]] / MinPerWorker(BUDGETS[k]))
      && (r.Success? ==> forall k :: 0 <= k < n ==>
            BUDGETS[k] in r.value && r.value[BUDGETS[k]] == Shares(totals[BUDGETS[k]], workers))
  {
    if n > 0 {
      AllocatedFirst(totals, workers, n - 1);
      var b := BUDGETS[n - 1];
      var shares := Shares(totals[b], workers);
      SharesMeetMinimum(totals[b], workers, MinPerWorker(b));
      assert forall i :: 0 <= i < workers ==> shares[i] == Share(totals[b], workers, i);
    }
  }

  lemma {:induction false} CapacityIsTheMinimum(totals: Totals, workers: nat, n: nat)
    requires Complete(totals) && 0 < n <= |BUDGETS|
    ensures workers <= CapacityOfFirst(totals, n) <==>
            forall k :: 0 <= k < n ==> workers <= totals[BUDGETS[k]] / MinPerWorker(BUDGETS[k])
  {
    if n > 1 {
      CapacityIsTheMinimum(totals, workers, n - 1);
    }
  }

  lemma {:induction false} NoExcess(reserve: nat, budget: nat, workers: nat, i: nat)
    requires workers > 0 && reserve <= budget && i <= workers
    ensures FirstExcess(Shares(reserve, workers), Shares(budget, workers), i).None?
    decreases workers - i
  {
    if i < workers {
      SharesAreMonotone(reserve, budget, workers, i);
      NoExcess(reserve, budget, workers, i + 1);
    }
  }

  /** The capacity is exactly the largest number of workers for which every budget can be allocated, and a
      reserve that is at most its budget in total is so for every worker. */
  lemma CapacityIsExact(totals: Totals, workers: nat)
    requires Complete(totals) && workers > 0 && totals[DetachedReserve] <= totals[DetachedBytes]
    ensures Allocate(totals, workers).Success? <==> workers <= BudgetCapacity(totals)
    ensures Allocate(totals, workers).Success? ==> forall b ::
              b in Allocate(totals, workers).value && Allocate(totals, workers).value[b] == Shares(totals[b], workers)
  {
    AllocatedFirst(totals, workers, |BUDGETS|);
    CapacityIsTheMinimum(totals, workers, |BUDGETS|);
    NoExcess(totals[DetachedReserve], totals[DetachedBytes], workers, 0);
    if Allocate(totals, workers).Success? {
      var allocations := Allocate(totals, workers).value;
      forall b ensures b in allocations && allocations[b] == Shares(totals[b], workers) {
        assert BUDGETS[Position(b)] == b;
      }
    }
  }

  /** buildBudgetAllocations. */
  method BuildBudgetAllocations(totals: Totals, workers: nat) returns (r: Result<Allocations, ConfigError>)
    requires Complete(totals) && workers > 0
    ensures r == Allocate(totals, workers)
  {
    var allocations: Allocations := map[];
    var n := 0;
    while n < |BUDGETS|
      invariant 0 <= n <= |BUDGETS|
      invariant AllocateFirst(totals, workers, n) == Success(allocations)
    {
      var b := BUDGETS[n];
      var shares := Shares(totals[b], workers);
      if exists i :: 0 <= i < |shares| && shares[i] < MinPerWorker(b) {
        AllocateFails(totals, workers, n + 1);
        return Failure(ShareBelowMinimum(b));
      }
      allocations := allocations[b := shares];
      n := n + 1;
    }
    AllocatedFirst(totals, workers, |BUDGETS|);
    assert BUDGETS[Position(DetachedReserve)] == DetachedReserve && BUDGETS[Position(DetachedBytes)] == DetachedBytes;
    var (reserves, budgets) := (allocations[DetachedReserve], allocations[DetachedBytes]);
    var index := 0;
    while index < workers
      invariant 0 <= index <= workers
      invariant FirstExcess(reserves, budgets, 0) == FirstExcess(reserves, budgets, index)
    {
      if reserves[index] > budgets[index] {
        return Failure(ReserveShareExceedsBudgetShare(index));
      }
      index := index + 1;
    }
    return Success(allocations);
  }

  lemma {:induction false} AllocateFails(totals: Totals, workers: nat, n: nat)
    requires Complete(totals) && workers > 0 && n <= |BUDGETS| && AllocateFirst(totals, workers, n).Failure?
    ensures AllocateFirst(totals, workers, |BUDGETS|) == AllocateFirst(totals, workers, n)
    decreases |BUDGETS| - n
  {
    if n < |BUDGETS| {
      AllocateFails(totals, workers, n + 1);
    }
  }

  // ---------------------------------------------------------------------------------------
  // The plan
  // ---------------------------------------------------------------------------------------

  datatype Resources = Resources(effectiveCpu: nat, effectiveMemoryBytes: nat)

  datatype Reason =
    | ModeOff
    | ExplicitSingleWorker
    | NonProduction
    | Ci
    | CpuBelowFour
    | InvalidationUnavailable
    | InsufficientMemory
    | InsufficientSharedBudget
    | ExplicitWorkerCount
    | ModeOn
    | AutoEligible

  datatype Plan =
    | Disabled(mode: Mode, reason: Reason, explicitWorkers: Option<nat>)
    | Enabled(
        mode: Mode,
        reason: Reason,
        explicitWorkers: Option<nat>,
        workers: nat,
        resources: Resources,
        memoryPerWorker: nat,
        primaryReserve: nat,
        totals: Totals,
        allocations: Allocations,
        explicitStreamGate: bool)

  function MemoryCapacity(resources: Resources, reserve: nat, perWorker: nat): nat
    requires perWorker > 0
  {
    if resources.effectiveMemoryBytes < reserve then 0 else (resources.effectiveMemoryBytes - reserve) / perWorker
  }

  datatype Choice = Workers(count: nat, reason: Reason) | Single(reason: Reason)

  /** How many workers, once the capacity is known. */
  function Choose(env: Env, mode: Mode, explicit: Option<nat>, cpu: nat,
                  memoryCapacity: nat, capacity: nat, dbPool: nat)
    : Result<Choice, ConfigError>
  {
    if explicit.Some? then
      if !HasInvalidation(env) then Failure(NeedsInvalidation)
      else if explicit.value > capacity then Failure(ExceedsCapacity(explicit.value, capacity))
      else Success(Workers(explicit.value, ExplicitWorkerCount))
    else if mode.On? then
      if !HasInvalidation(env) then Failure(NeedsInvalidation)
      else
        var count := Min(Min(if cpu / 2 < 2 then 2 else cpu / 2, MAX_WORKERS), capacity);
        if count < 2 then Failure(NoCapacityForTwo) else Success(Workers(count, ModeOn))
    else if !Production(env) then Success(Single(NonProduction))
    else if Lower(Lookup(env, "CI", "")) == "true" then Success(Single(Ci))
    else if cpu < 4 then Success(Single(CpuBelowFour))
    else if !HasInvalidation(env) then Success(Single(InvalidationUnavailable))
    else
      var count := Min(Min(Min(cpu / 2, MAX_WORKERS), capacity), dbPool / AUTO_MIN_DB_POOL_PER_WORKER);
      if count < 2 then Success(Single(if memoryCapacity < 2 then InsufficientMemory else InsufficientSharedBudget))
      else Success(Workers(count, AutoEligible))
  }

  /** The choice, and everything it was made from. */
  datatype Sizing = Sizing(choice: Choice, perWorker: nat, reserve: nat, totals: Totals)

  function Size(env: Env, mode: Mode, explicit: Option<nat>, resources: Resources): Result<Sizing, ConfigError> {
    var perWorkerMb :- ParseInteger(env, "CCH_MULTICORE_MEMORY_PER_WORKER_MB", 1024, 256, 65536);
    var reserveMb :- ParseInteger(env, "CCH_MULTICORE_PRIMARY_MEMORY_RESERVE_MB", 256, 64, 16384);
    var totals :- ResolveTotals(env);
    ResolvedTotals(env);
    ParsedIsInRange(env, "CCH_MULTICORE_MEMORY_PER_WORKER_MB", 1024, 256, 65536);
    var memoryCapacity := MemoryCapacity(resources, reserveMb * MIB, perWorkerMb * MIB);
    var capacity := Min(Min(memoryCapacity, BudgetCapacity(totals)), MAX_WORKERS);
    var choice :- Choose(env, mode, explicit, resources.effectiveCpu, memoryCapacity, capacity, totals[DbPool]);
    Success(Sizing(choice, perWorkerMb * MIB, reserveMb * MIB, totals))
  }

  function PlanFor(env: Env, mode: Mode, explicit: Option<nat>, resources: Resources): Result<Plan, ConfigError>
    requires explicit.Some? ==> 2 <= explicit.value <= MAX_WORKERS
  {
    var sizing :- Size(env, mode, explicit, resources);
    SizingIsSafe(env, mode, explicit, resources);
    match sizing.choice
    case Single(reason) => Success(Disabled(mode, reason, explicit))
    case Workers(count, reason) =>
      var allocations :- Allocate(sizing.totals, count);
      Success(Enabled(mode, reason, explicit, count, resources, sizing.perWorker, sizing.reserve, sizing.totals,
                      allocations, Name(StreamGate) in env))
  }

  function ExplicitWorkers(env: Env): (r: Result<Option<nat>, ConfigError>)
    ensures r.Success? && r.value.Some? ==> 1 <= r.value.value <= MAX_WORKERS
  {
    ParseOptionalInteger(env, "CCH_MULTICORE_WORKERS", 1, MAX_WORKERS)
  }

  /** createMulticorePlan. */
  function CreatePlan(env: Env, resources: Resources): Result<Plan, ConfigError> {
    var mode :- ParseMode(env);
    if mode.Off? then Success(Disabled(Off, ModeOff, None))
    else
      var explicit :- ExplicitWorkers(env);
      if explicit.Some? && explicit.value == 1 then Success(Disabled(mode, ExplicitSingleWorker, explicit))
      else if !Production(env) && (mode.On? || explicit.Some?) then Failure(NeedsProduction)
      else PlanFor(env, mode, explicit, resources)
  }

  lemma SizingIsSafe(env: Env, mode: Mode, explicit: Option<nat>, resources: Resources)
    requires explicit.Some? ==> 2 <= explicit.value <= MAX_WORKERS
    requires Size(env, mode, explicit, resources).Success?
    ensures
      var s := Size(env, mode, explicit, resources).value;
      && Complete(s.totals) && s.totals[DetachedReserve] <= s.totals[DetachedBytes] && s.perWorker > 0
      && (forall b :: s.totals[b] <= MaxTotal(b))
      && (s.choice.Workers? ==>
            && 2 <= s.choice.count <= MAX_WORKERS
            && s.choice.count <= BudgetCapacity(s.totals)
            && s.reserve + s.choice.count * s.perWorker <= resources.effectiveMemoryBytes)
  {
    hide ParseInteger, ResolveTotals, Name, MaxTotal, HasInvalidation, Production, Lower, Lookup;
    ResolvedTotals(env);
    ParsedIsInRange(env, "CCH_MULTICORE_MEMORY_PER_WORKER_MB", 1024, 256, 65536);
    var s := Size(env, mode, explicit, resources).value;
    if s.choice.Workers? && resources.effectiveMemoryBytes >= s.reserve {
      AtMostQuotient(s.choice.count, s.perWorker, resources.effectiveMemoryBytes - s.reserve);
    }
  }

  /** The throws of buildBudgetAllocations. */
  predicate FromAllocation(e: ConfigError) {
    e.ShareBelowMinimum? || e.ReserveShareExceedsBudgetShare?
  }

  lemma {:induction false} ParsingErrors(env: Env, n: nat)
    requires n <= |BUDGETS|
    ensures ResolveFirst(env, n).Failure? ==> !FromAllocation(ResolveFirst(env, n).error)
  {
    hide Name, DefaultTotal, MinPerWorker, MaxTotal, Production;
    if n > 0 {
      ParsingErrors(env, n - 1);
    }
  }

  lemma SizingErrors(env: Env, mode: Mode, explicit: Option<nat>, resources: Resources)
    ensures Size(env, mode, explicit, resources).Failure? ==>
              !FromAllocation(Size(env, mode, explicit, resources).error)
  {
    hide ResolveFirst, BudgetCapacity, HasInvalidation, Production, Lower, Lookup;
    ParsingErrors(env, |BUDGETS|);
    assert ResolveTotals(env).Failure? ==> !FromAllocation(ResolveTotals(env).error);
    hide ResolveTotals;
  }

  /** A number of workers within the capacity can be given shares that keep every rule. */
  lemma AllocationIsSafe(totals: Totals, workers: nat)
    requires Complete(totals) && totals[DetachedReserve] <= totals[DetachedBytes]
    requires 0 < workers <= BudgetCapacity(totals)
    ensures Allocate(totals, workers).Success?
    ensures
      var allocations := Allocate(totals, workers).value;
      && (forall b: Budget :: b in allocations && |allocations[b]| == workers && SumOf(allocations[b]) == totals[b])
      && (forall b: Budget, i: nat :: i < workers ==> allocations[b][i] >= MinPerWorker(b))
      && (forall i: nat :: i < workers ==> allocations[DetachedReserve][i] <= allocations[DetachedBytes][i])
  {
    hide Allocate, MinPerWorker, BudgetCapacity;
    CapacityIsExact(totals, workers);
    AllocatedFirst(totals, workers, |BUDGETS|);
    CapacityOfEach(totals, workers);
    forall b: Budget ensures |Shares(totals[b], workers)| == workers && SumOf(Shares(totals[b], workers)) == totals[b] {
      SharesAreFair(totals[b], workers);
    }
    forall b: Budget, i: nat | i < workers ensures Shares(totals[b], workers)[i] >= MinPerWorker(b) {
      SharesMeetMinimum(totals[b], workers, MinPerWorker(b));
      assert Shares(totals[b], workers)[i] == Share(totals[b], workers, i);
    }
    forall i: nat | i < workers
      ensures Shares(totals[DetachedReserve], workers)[i] <= Shares(totals[DetachedBytes], workers)[i]
    {
      SharesAreMonotone(totals[DetachedReserve], totals[DetachedBytes], workers, i);
    }
  }

  lemma CapacityOfEach(totals: Totals, workers: nat)
    requires Complete(totals) && workers <= BudgetCapacity(totals)
    ensures forall b: Budget :: workers <= totals[b] / MinPerWorker(b)
  {
    hide MinPerWorker;
    CapacityIsTheMinimum(totals, workers, |BUDGETS|);
    forall b: Budget ensures workers <= totals[b] / MinPerWorker(b) {
      assert BUDGETS[Position(b)] == b;
    }
  }

  /** 2 to 32 workers whose memory fits beside the reserve of the primary, and shares of every budget that
      sum to it, meet the minimum, and keep the reserve within the budget for every worker. */
  ghost predicate Safe(plan: Plan, resources: Resources)
    requires plan.Enabled?
  {
    && 2 <= plan.workers <= 32
    && plan.primaryReserve + plan.workers * plan.memoryPerWorker <= resources.effectiveMemoryBytes
    && Complete(plan.totals)
    && (forall b: Budget :: b in plan.allocations && |plan.allocations[b]| == plan.workers
                            && SumOf(plan.allocations[b]) == plan.totals[b] <= MaxTotal(b))
    && (forall b: Budget, i: nat :: i < plan.workers ==> plan.allocations[b][i] >= MinPerWorker(b))
    && (forall i: nat :: i < plan.workers ==>
          plan.allocations[DetachedReserve][i] <= plan.allocations[DetachedBytes][i])
  }

  lemma PlanForIsSafe(env: Env, mode: Mode, explicit: Option<nat>, resources: Resources)
    requires explicit.Some? ==> 2 <= explicit.value <= MAX_WORKERS
    ensures
      match PlanFor(env, mode, explicit, resources)
      case Failure(e) => !FromAllocation(e)
      case Success(plan) => plan.Enabled? ==> Safe(plan, resources)
  {
    hide Size, Allocate, Name, BudgetCapacity, MinPerWorker, MaxTotal, SumOf;
    SizingErrors(env, mode, explicit, resources);
    if Size(env, mode, explicit, resources).Success? {
      SizingIsSafe(env, mode, explicit, resources);
      var sizing := Size(env, mode, explicit, resources).value;
      if sizing.choice.Workers? {
        AllocationIsSafe(sizing.totals, sizing.choice.count);
      }
    }
  }

  /** Every enabled plan is safe, and the throws of the allocation step are unreachable. */
  lemma PlansAreSafe(env: Env, resources: Resources)
    ensures
      match CreatePlan(env, resources)
      case Failure(e) => !FromAllocation(e)
      case Success(plan) => plan.Enabled? ==> Safe(plan, resources)
  {
    hide ParseMode, Production, PlanFor, Safe;
    ModeErrors(env);
    if ExplicitWorkers(env).Success? && ExplicitWorkers(env).value != Some(1) && ParseMode(env).Success? {
      PlanForIsSafe(env, ParseMode(env).value, ExplicitWorkers(env).value, resources);
    }
  }

  lemma ModeErrors(env: Env)
    ensures ParseMode(env).Failure? ==> ParseMode(env).error == UnknownMode
  {
    hide Lower, Trim, Lookup;
  }

  // ---------------------------------------------------------------------------------------
  // What an operator can rely on
  // ---------------------------------------------------------------------------------------

  /** A worker count left over that cannot be read stops the launcher in every mode but `off`. */
  lemma OnlyOffIgnoresABadWorkerCount(env: Env, resources: Resources)
    requires ParseMode(env).Success? && ExplicitWorkers(env).Failure?
    ensures CreatePlan(env, resources).Success? <==> ParseMode(env).value.Off?
    ensures CreatePlan(env, resources).Failure? ==> CreatePlan(env, resources).error == ExplicitWorkers(env).error
  {
    hide ParseMode, ExplicitWorkers, PlanFor;
  }

  /** Mode `off` is the way back: whatever else is changed in the environment, the plan stays the same. */
  lemma OffIgnoresEveryOtherVariable(env: Env, name: string, value: string, resources: Resources)
    requires ParseMode(env) == Success(Off) && name != "CCH_MULTICORE_MODE"
    ensures CreatePlan(env[name := value], resources) == CreatePlan(env, resources)
  {
    hide PlanFor, ExplicitWorkers, Lower, Trim;
    assert Lookup(env[name := value], "CCH_MULTICORE_MODE", "auto") == Lookup(env, "CCH_MULTICORE_MODE", "auto");
  }

  /** Every variable the sizing reads can be read. */
  predicate Readable(env: Env) {
    && ParseInteger(env, "CCH_MULTICORE_MEMORY_PER_WORKER_MB", 1024, 256, 65536).Success?
    && ParseInteger(env, "CCH_MULTICORE_PRIMARY_MEMORY_RESERVE_MB", 256, 64, 16384).Success?
    && ResolveTotals(env).Success?
  }

  /** Memory and every budget can carry n workers. */
  ghost predicate Carries(env: Env, resources: Resources, n: nat)
    requires Readable(env)
  {
    var perWorker := ParseInteger(env, "CCH_MULTICORE_MEMORY_PER_WORKER_MB", 1024, 256, 65536).value * MIB;
    var reserve := ParseInteger(env, "CCH_MULTICORE_PRIMARY_MEMORY_RESERVE_MB", 256, 64, 16384).value * MIB;
    var totals := ResolveTotals(env).value;
    && reserve + n * perWorker <= resources.effectiveMemoryBytes
    && forall b :: b in totals ==> n * MinPerWorker(b) <= totals[b]
  }

  /** The largest number of workers within a limit that memory and every budget can carry. */
  ghost predicate LargestCarried(env: Env, resources: Resources, n: nat, limit: nat)
    requires Readable(env)
  {
    n <= limit && Carries(env, resources, n) && forall m :: n < m <= limit ==> !Carries(env, resources, m)
  }

  function MemoryLimit(env: Env, resources: Resources): nat
    requires Readable(env)
  {
    var perWorker := ParseInteger(env, "CCH_MULTICORE_MEMORY_PER_WORKER_MB", 1024, 256, 65536).value * MIB;
    var reserve := ParseInteger(env, "CCH_MULTICORE_PRIMARY_MEMORY_RESERVE_MB", 256, 64, 16384).value * MIB;
    ParsedIsInRange(env, "CCH_MULTICORE_MEMORY_PER_WORKER_MB", 1024, 256, 65536);
    MemoryCapacity(resources, reserve, perWorker)
  }

  /** What memory and every budget can carry is what the two capacities allow. */
  lemma CarriesExactly(env: Env, resources: Resources, n: nat)
    requires Readable(env) && n > 0
    ensures Complete(ResolveTotals(env).value)
    ensures Carries(env, resources, n) <==>
            n <= MemoryLimit(env, resources) && n <= BudgetCapacity(ResolveTotals(env).value)
  {
    hide ParseInteger, ResolveTotals, MinPerWorker, BudgetCapacity;
    var perWorker := ParseInteger(env, "CCH_MULTICORE_MEMORY_PER_WORKER_MB", 1024, 256, 65536).value * MIB;
    var reserve := ParseInteger(env, "CCH_MULTICORE_PRIMARY_MEMORY_RESERVE_MB", 256, 64, 16384).value * MIB;
    ResolvedTotals(env);
    ParsedIsInRange(env, "CCH_MULTICORE_MEMORY_PER_WORKER_MB", 1024, 256, 65536);
    CapacityInTotals(ResolveTotals(env).value, n);
    if resources.effectiveMemoryBytes >= reserve {
      AtMostQuotient(n, perWorker, resources.effectiveMemoryBytes - reserve);
    }
  }

  /** With readable variables only the choice can fail, and the choice is what becomes of the plan. */
  lemma PlanIsTheChoice(env: Env, mode: Mode, explicit: Option<nat>, resources: Resources)
    requires Readable(env) && (explicit.Some? ==> 2 <= explicit.value <= MAX_WORKERS)
    ensures Complete(ResolveTotals(env).value)
    ensures
      var memory := MemoryLimit(env, resources);
      var totals := ResolveTotals(env).value;
      var capacity := Min(Min(memory, BudgetCapacity(totals)), MAX_WORKERS);
      var choice := Choose(env, mode, explicit, resources.effectiveCpu, memory, capacity, totals[DbPool]);
      var plan := PlanFor(env, mode, explicit, resources);
      && (plan.Success? <==> choice.Success?)
      && (plan.Success? ==>
            && (plan.value.Enabled? <==> choice.value.Workers?)
            && plan.value.mode == mode && plan.value.reason == choice.value.reason
            && plan.value.explicitWorkers == explicit
            && (plan.value.Enabled? ==>
                  && plan.value.workers == choice.value.count > 0
                  && plan.value.explicitStreamGate == (Name(StreamGate) in env)
                  && plan.value.totals == totals && Safe(plan.value, resources)))
  {
    hide ParseInteger, ResolveTotals, MinPerWorker, BudgetCapacity, Name, Choose, Allocate, Safe;
    ResolvedTotals(env);
    ParsedIsInRange(env, "CCH_MULTICORE_MEMORY_PER_WORKER_MB", 1024, 256, 65536);
    PlanForIsSafe(env, mode, explicit, resources);
    if Size(env, mode, explicit, resources).Success? {
      SizingIsSafe(env, mode, explicit, resources);
      var sizing := Size(env, mode, explicit, resources).value;
      if sizing.choice.Workers? {
        AllocationIsSafe(sizing.totals, sizing.choice.count);
      }
    }
  }

  /** An explicit number of workers is honoured exactly, or refused; and it is refused, when all variables
      are readable, exactly if invalidation is missing or memory or a budget cannot carry it. */
  lemma ExplicitCountIsExact(env: Env, resources: Resources, n: nat)
    requires ParseMode(env).Success? && !ParseMode(env).value.Off?
    requires ExplicitWorkers(env) == Success(Some(n)) && n >= 2
    requires Production(env) && Readable(env)
    ensures
      var plan := CreatePlan(env, resources);
      && (plan.Success? <==> HasInvalidation(env) && Carries(env, resources, n))
      && (plan.Success? ==> plan.value.Enabled? && plan.value.workers == n)
  {
    hide ParseMode, ParseInteger, ExplicitWorkers, ResolveTotals, Production, HasInvalidation;
    hide Carries, MemoryLimit, BudgetCapacity, PlanFor, Safe;
    PlanIsTheChoice(env, ParseMode(env).value, Some(n), resources);
    CarriesExactly(env, resources, n);
  }

  /** The most workers that mode `on` asks for. */
  function OnLimit(resources: Resources): nat {
    Min(Max(2, resources.effectiveCpu / 2), MAX_WORKERS)
  }

  /** Mode `on` starts several workers, or refuses exactly if invalidation is missing or memory or a budget
      cannot carry two; and it starts as many, up to half of the CPUs, as they carry. */
  lemma OnIsExact(env: Env, resources: Resources)
    requires ParseMode(env) == Success(On) && ExplicitWorkers(env) == Success(None)
    requires Production(env) && Readable(env)
    ensures
      var plan := CreatePlan(env, resources);
      && (plan.Success? <==> HasInvalidation(env) && Carries(env, resources, 2))
      && (plan.Success? ==>
            plan.value.Enabled? && LargestCarried(env, resources, plan.value.workers, OnLimit(resources)))
  {
    hide ParseMode, ParseInteger, ExplicitWorkers, ResolveTotals, Production, HasInvalidation;
    hide Carries, MemoryLimit, BudgetCapacity, PlanFor, Safe;
    PlanIsTheChoice(env, On, None, resources);
    forall n: nat | n > 0
      ensures Carries(env, resources, n) <==>
              n <= MemoryLimit(env, resources) && n <= BudgetCapacity(ResolveTotals(env).value)
    {
      CarriesExactly(env, resources, n);
    }
  }

  lemma CapacityInTotals(totals: Totals, n: nat)
    requires Complete(totals)
    ensures n <= BudgetCapacity(totals) <==> forall b :: b in totals ==> n * MinPerWorker(b) <= totals[b]
  {
    hide MinPerWorker, BudgetCapacity;
    forall b: Budget ensures n <= totals[b] / MinPerWorker(b) <==> n * MinPerWorker(b) <= totals[b] {
      AtMostQuotient(n, MinPerWorker(b), totals[b]);
    }
    if n <= BudgetCapacity(totals) {
      CapacityOfEach(totals, n);
    } else {
      var b := TightBudget(totals, n);
      assert b in totals && !(n <= totals[b] / MinPerWorker(b));
    }
  }

  lemma TightBudget(totals: Totals, n: nat) returns (b: Budget)
    requires Complete(totals) && n > BudgetCapacity(totals)
    ensures n > totals[b] / MinPerWorker(b)
  {
    hide MinPerWorker;
    CapacityIsTheMinimum(totals, n, |BUDGETS|);
    var k :| 0 <= k < |BUDGETS| && n > totals[BUDGETS[k]] / MinPerWorker(BUDGETS[k]);
    b := BUDGETS[k];
  }

  /** The most workers that automatic mode starts: half of the CPUs, and one for every four connections. */
  function AutoLimit(resources: Resources, dbPool: nat): nat {
    Min(Min(resources.effectiveCpu / 2, MAX_WORKERS), dbPool / AUTO_MIN_DB_POOL_PER_WORKER)
  }

  /** Automatic mode never refuses to start for lack of capacity, and starts several workers exactly if the
      machine, the budgets and four database connections per worker allow two; it then starts as many, up to
      half of the CPUs, as memory, the budgets and those connections carry. */
  lemma AutoIsConservative(env: Env, resources: Resources)
    requires ParseMode(env) == Success(Auto) && ExplicitWorkers(env) == Success(None) && Readable(env)
    ensures
      var plan := CreatePlan(env, resources);
      var totals := ResolveTotals(env).value;
      && plan.Success? && Complete(totals)
      && (plan.value.Enabled? <==>
            && Production(env) && Lower(Lookup(env, "CI", "")) != "true" && HasInvalidation(env)
            && resources.effectiveCpu >= 4 && Carries(env, resources, 2)
            && totals[DbPool] >= 2 * AUTO_MIN_DB_POOL_PER_WORKER)
      && (plan.value.Enabled? ==>
            && LargestCarried(env, resources, plan.value.workers, AutoLimit(resources, totals[DbPool]))
            && plan.value.workers > 0
            && forall i: nat :: i < plan.value.workers ==>
                 Shares(totals[DbPool], plan.value.workers)[i] >= AUTO_MIN_DB_POOL_PER_WORKER)
  {
    hide ParseMode, ParseInteger, ExplicitWorkers, ResolveTotals, Production, HasInvalidation;
    hide Carries, MemoryLimit, BudgetCapacity, PlanFor, Safe, Lower, Lookup;
    PlanIsTheChoice(env, Auto, None, resources);
    forall n: nat | n > 0
      ensures Carries(env, resources, n) <==>
              n <= MemoryLimit(env, resources) && n <= BudgetCapacity(ResolveTotals(env).value)
    {
      CarriesExactly(env, resources, n);
    }
    var plan := CreatePlan(env, resources).value;
    if plan.Enabled? {
      SharesMeetMinimum(ResolveTotals(env).value[DbPool], plan.workers, AUTO_MIN_DB_POOL_PER_WORKER);
    }
  }

  /** When automatic mode stays with one worker it says the first thing that is missing. */
  lemma AutoSaysWhyNot(env: Env, resources: Resources)
    requires ParseMode(env) == Success(Auto) && ExplicitWorkers(env) == Success(None) && Readable(env)
    ensures
      var plan := CreatePlan(env, resources);
      && plan.Success?
      && plan.value.reason ==
         if !Production(env) then NonProduction
         else if Lower(Lookup(env, "CI", "")) == "true" then Ci
         else if resources.effectiveCpu < 4 then CpuBelowFour
         else if !HasInvalidation(env) then InvalidationUnavailable
         else if plan.value.Enabled? then AutoEligible
         else if MemoryLimit(env, resources) < 2 then InsufficientMemory
         else InsufficientSharedBudget
  {
    hide ParseMode, ParseInteger, ExplicitWorkers, ResolveTotals, Production, HasInvalidation;
    hide Carries, MemoryLimit, BudgetCapacity, PlanFor, Safe, Lower, Lookup, Name;
    PlanIsTheChoice(env, Auto, None, resources);
  }

  /** One worker by request is no plan at all, and several workers are refused outside production. */
  lemma OneWorkerOrProduction(env: Env, resources: Resources)
    requires ParseMode(env).Success? && ExplicitWorkers(env).Success?
    ensures
      var (mode, explicit, plan) := (ParseMode(env).value, ExplicitWorkers(env).value, CreatePlan(env, resources));
      && (mode.Off? || explicit == Some(1) ==> plan.Success? && plan.value.Disabled?)
      && (!mode.Off? && explicit != Some(1) && !Production(env) && (mode.On? || explicit.Some?) ==>
            plan == Failure(NeedsProduction))
  {
    hide ParseMode, ExplicitWorkers, Production, PlanFor;
  }

  // ---------------------------------------------------------------------------------------
  // How variables are spelled
  // ---------------------------------------------------------------------------------------

  predicate Zeros(s: string) {
    forall i :: 0 <= i < |s| ==> s[i] == '0'
  }

  /** A setting that is unset or blank has its default; a numeral, with white space around it and zeros before it or
      not, is its value if that is in range, and refused otherwise; so is a sign. */
  lemma SettingsAreReadExactly(env: Env, name: string, default: nat, min: nat, max: nat,
                               left: string, zeros: string, n: nat, right: string)
    requires Blank(left) && Blank(right) && Zeros(zeros) && max <= MAX_SAFE_INTEGER
    ensures name !in env || Blank(env[name]) ==> ParseInteger(env, name, default, min, max) == Success(default)
    ensures name in env && env[name] == left + (zeros + Decimal(n)) + right ==>
              var r := ParseInteger(env, name, default, min, max);
              if min <= n <= max then r == Success(n) else r.Failure?
    ensures name in env && (exists s :: env[name] == left + ("-" + s)) ==>
              ParseInteger(env, name, default, min, max).Failure?
  {
    if name in env {
      if Blank(env[name]) {
        BlankIsTrimmed(env[name]);
      }
      NumeralIsTrimmed(left, zeros, n, right);
      forall s | env[name] == left + ("-" + s) ensures ParseInteger(env, name, default, min, max).Failure? {
        SignedIsNoNumeral(left, s);
        hide Trim, Digits, Value;
      }
      hide Trim, Digits, Value, Decimal, Blank, Zeros;
    }
  }

  lemma NumeralIsTrimmed(left: string, zeros: string, n: nat, right: string)
    requires Blank(left) && Blank(right) && Zeros(zeros)
    ensures
      var digits := Trim(left + (zeros + Decimal(n)) + right);
      digits != "" && Digits(digits) && Value(digits) == n
  {
    var digits := zeros + Decimal(n);
    ValueOfPadded(zeros, Decimal(n));
    ValueOfDecimal(n);
    hide Value, Decimal;
    assert IsDigit(digits[0]) && IsDigit(digits[|digits| - 1]);
    TrimPadded(left, digits, right);
  }

  lemma SignedIsNoNumeral(left: string, s: string)
    requires Blank(left)
    ensures Trim(left + ("-" + s)) != "" && !Digits(Trim(left + ("-" + s)))
  {
    TrimLeftPadding(left, "-" + s);
    TrimEndKeepsFirst("-" + s);
  }

  /** The words of a setting may be written in any case. */
  predicate SameLetters(s: string, word: string) {
    |s| == |word| && forall i :: 0 <= i < |s| ==>
      !('A' <= word[i] <= 'Z')
      && (s[i] == word[i] || ('a' <= word[i] <= 'z' && s[i] as int == word[i] as int - 32))
  }

  lemma {:induction false} LettersAreLowered(s: string, word: string)
    requires SameLetters(s, word)
    ensures Lower(s) == word
    decreases |s|
  {
    if s != "" {
      LettersAreLowered(s[1..], word[1..]);
    }
  }

  lemma WordIsRead(left: string, s: string, word: string, right: string)
    requires Blank(left) && Blank(right) && SameLetters(s, word) && word != ""
    requires forall i :: 0 <= i < |word| ==> 'a' <= word[i] <= 'z' || IsDigit(word[i])
    ensures Lower(Trim(left + s + right)) == word
  {
    LettersAreLowered(s, word);
    assert forall i :: 0 <= i < |s| ==> 'A' <= s[i] <= 'z' || IsDigit(s[i]);
    TrimPadded(left, s, right);
  }

  /** The mode is what is written, in any case and with white space around it; automatic if nothing is. */
  lemma ModesAreReadExactly(env: Env, left: string, s: string, right: string, word: string)
    requires Blank(left) && Blank(right) && SameLetters(s, word) && word != ""
    requires forall i :: 0 <= i < |word| ==> 'a' <= word[i] <= 'z' || IsDigit(word[i])
    ensures "CCH_MULTICORE_MODE" !in env ==> ParseMode(env) == Success(Auto)
    ensures "CCH_MULTICORE_MODE" in env && env["CCH_MULTICORE_MODE"] == left + s + right ==>
              ParseMode(env) ==
                if word == "auto" then Success(Auto)
                else if word in ["on", "true", "enabled"] then Success(On)
                else if word in ["off", "false", "disabled"] then Success(Off)
                else Failure(UnknownMode)
  {
    hide Lower, Trim, Blank, SameLetters, ParseMode;
    WordIsRead(left, s, word, right);
    ModeOfWord(env, left + s + right, word);
    DefaultMode(env);
  }

  lemma DefaultMode(env: Env)
    ensures "CCH_MULTICORE_MODE" !in env ==> ParseMode(env) == Success(Auto)
  {
    WordIsRead("", "auto", "auto", "");
    assert "" + "auto" + "" == "auto";
    hide Lower, Trim;
  }

  lemma ModeOfWord(env: Env, raw: string, word: string)
    requires Lower(Trim(raw)) == word
    ensures "CCH_MULTICORE_MODE" in env && env["CCH_MULTICORE_MODE"] == raw ==>
              ParseMode(env) ==
                if word == "auto" then Success(Auto)
                else if word in ["on", "true", "enabled"] then Success(On)
                else if word in ["off", "false", "disabled"] then Success(Off)
                else Failure(UnknownMode)
  {
    hide Lower, Trim;
  }

  /** Workers can only invalidate each other's caches through Redis, and not with the rate limit switched off. */
  lemma InvalidationNeedsRedis(env: Env, left: string, s: string, right: string, word: string)
    requires Blank(left) && Blank(right) && SameLetters(s, word) && word != ""
    requires forall i :: 0 <= i < |word| ==> 'a' <= word[i] <= 'z' || IsDigit(word[i])
    ensures "REDIS_URL" !in env || Trim(env["REDIS_URL"]) == "" ==> !HasInvalidation(env)
    ensures "REDIS_URL" in env && Trim(env["REDIS_URL"]) != "" && "ENABLE_RATE_LIMIT" !in env ==> HasInvalidation(env)
    ensures "REDIS_URL" in env && Trim(env["REDIS_URL"]) != ""
            && "ENABLE_RATE_LIMIT" in env && env["ENABLE_RATE_LIMIT"] == left + s + right ==>
              (HasInvalidation(env) <==> word != "false" && word != "0")
  {
    WordIsRead(left, s, word, right);
    WordIsRead("", "true", "true", "");
    assert "" + "true" + "" == "true";
    TrimKeeps("");
  }

  /** Every total is its own setting, and all of them must be readable, with the reserve within its budget. */
  lemma TotalsAreTheSettings(env: Env)
    ensures
      var r := ResolveTotals(env);
      && (r.Success? <==>
            && ParseInteger(env, "STREAM_GATE_PREBUFFER_BYTE_CAP", 10 * MIB, 1024, 64 * MIB).Success?
            && (forall b :: Setting(env, b).Success?)
            && Setting(env, DetachedReserve).value <= Setting(env, DetachedBytes).value)
      && (r.Success? ==> forall b :: b in r.value && Success(r.value[b]) == Setting(env, b))
  {
    hide Name, DefaultTotal, MinPerWorker, MaxTotal, ParseInteger, Production, Setting;
    FirstTotalsAreTheSettings(env, |BUDGETS|);
    var first := ResolveFirst(env, |BUDGETS|);
    if forall k :: 0 <= k < |BUDGETS| ==> Setting(env, BUDGETS[k]).Success? {
      forall b ensures Setting(env, b).Success? && b in first.value && Success(first.value[b]) == Setting(env, b) {
        assert BUDGETS[Position(b)] == b;
      }
    }
  }

  function Setting(env: Env, b: Budget): Result<nat, ConfigError> {
    ParseInteger(env, Name(b), DefaultTotal(b, Production(env)), MinPerWorker(b), MaxTotal(b))
  }

  lemma {:induction false} FirstTotalsAreTheSettings(env: Env, n: nat)
    requires n <= |BUDGETS|
    ensures ResolveFirst(env, n).Success? <==> forall k :: 0 <= k < n ==> Setting(env, BUDGETS[k]).Success?
    ensures ResolveFirst(env, n).Success? ==>
              forall k :: 0 <= k < n ==>
                BUDGETS[k] in ResolveFirst(env, n).value
                && Success(ResolveFirst(env, n).value[BUDGETS[k]]) == Setting(env, BUDGETS[k])
  {
    hide Name, DefaultTotal, MinPerWorker, MaxTotal, ParseInteger, Production;
    if n > 0 {
      FirstTotalsAreTheSettings(env, n - 1);
    }
  }

  // ---------------------------------------------------------------------------------------
  // The environment of a worker
  // ---------------------------------------------------------------------------------------

  datatype WorkerEnvError = PlanNotEnabled | IndexOutsidePlan

  /** The variables that say who the worker is. */
  function Identity(plan: Plan, index: nat): Env
    requires plan.Enabled?
  {
    map[
      "CCH_MULTICORE_ACTIVE" := "1",
      "CCH_MULTICORE_WORKER_INDEX" := Decimal(index),
      "CCH_MULTICORE_WORKER_COUNT" := Decimal(plan.workers),
      "CCH_MULTICORE_BACKGROUND_OWNER" := if index == 0 then "1" else "0",
      "CCH_PROCESS_ROLE" := if index == 0 then "gateway-control" else "gateway",
      "CCH_MULTICORE_EFFECTIVE_VCPUS" := Decimal(plan.resources.effectiveCpu),
      "CCH_MULTICORE_EFFECTIVE_MEMORY_BYTES" := Decimal(plan.resources.effectiveMemoryBytes)
    ]
  }

  predicate Exported(plan: Plan, b: Budget)
    requires plan.Enabled?
  {
    b != StreamGate || plan.explicitStreamGate
  }

  ghost predicate HasShares(plan: Plan, index: nat)
    requires plan.Enabled?
  {
    forall b: Budget :: b in plan.allocations && index < |plan.allocations[b]|
  }

  /** The identity and the shares of the first n budgets. */
  function EnvOfFirst(plan: Plan, index: nat, n: nat): Env
    requires plan.Enabled? && HasShares(plan, index) && n <= |BUDGETS|
  {
    if n == 0 then Identity(plan, index)
    else
      var env := EnvOfFirst(plan, index, n - 1);
      var b := BUDGETS[n - 1];
      if Exported(plan, b) then env[Name(b) := Decimal(plan.allocations[b][index])] else env
  }

  /** buildWorkerEnvironment. */
  method BuildWorkerEnvironment(plan: Plan, index: int) returns (r: Result<Env, WorkerEnvError>)
    requires plan.Enabled? ==> forall i: nat :: i < plan.workers ==> HasShares(plan, i)
    ensures r.Failure? <==> plan.Disabled? || !(0 <= index < plan.workers)
    ensures r.Success? ==> r.value == EnvOfFirst(plan, index, |BUDGETS|)
  {
    if plan.Disabled? {
      return Failure(PlanNotEnabled);
    }
    if index < 0 || index >= plan.workers {
      return Failure(IndexOutsidePlan);
    }
    assert HasShares(plan, index);
    var env := Identity(plan, index);
    var n := 0;
    while n < |BUDGETS|
      invariant 0 <= n <= |BUDGETS|
      invariant env == EnvOfFirst(plan, index, n)
    {
      var b := BUDGETS[n];
      if b != StreamGate || plan.explicitStreamGate {
        env := env[Name(b) := Decimal(plan.allocations[b][index])];
      }
      n := n + 1;
    }
    return Success(env);
  }

  /** The length and the first letter of a name tell the budgets apart. */
  function Mark(b: Budget): (int, char) {
    (|Name(b)|, if Name(b) == "" then ' ' else Name(b)[0])
  }

  lemma NameHasMark(b: Budget)
    ensures Mark(b) == match b
                       case DbPool => (11, 'D')
                       case MessagePending => (33, 'M')
                       case DetachedConcurrency => (31, 'D')
                       case DetachedBytes => (28, 'D')
                       case DetachedReserve => (38, 'D')
                       case StreamGate => (37, 'S')
                       case ReplaySpools => (28, 'R')
  {
  }

  lemma NamesAreDistinct(b: Budget, c: Budget)
    requires b != c
    ensures Name(b) != Name(c)
  {
    hide Name;
    NameHasMark(b);
    NameHasMark(c);
  }

  lemma NamesAreNotIdentity(b: Budget)
    ensures Name(b)[..4] != "CCH_" && |Name(b)| > 4
  {
    assert Name(b)[0] != 'C';
  }

  lemma {:induction false} EnvHasShare(plan: Plan, index: nat, b: Budget, n: nat)
    requires plan.Enabled? && HasShares(plan, index) && Position(b) < n <= |BUDGETS| && Exported(plan, b)
    ensures
      var env := EnvOfFirst(plan, index, n);
      Name(b) in env && env[Name(b)] == Decimal(plan.allocations[b][index])
  {
    hide Name, Identity;
    if n - 1 > Position(b) {
      EnvHasShare(plan, index, b, n - 1);
      assert BUDGETS[n - 1] != b by {
        assert Position(BUDGETS[n - 1]) == n - 1 || BUDGETS[n - 1] != b;
      }
      NamesAreDistinct(b, BUDGETS[n - 1]);
    }
  }

  lemma {:induction false} EnvKeepsOwner(plan: Plan, index: nat, n: nat)
    requires plan.Enabled? && HasShares(plan, index) && n <= |BUDGETS|
    ensures
      var env := EnvOfFirst(plan, index, n);
      && "CCH_MULTICORE_BACKGROUND_OWNER" in env
      && (env["CCH_MULTICORE_BACKGROUND_OWNER"] == "1" <==> index == 0)
  {
    hide Name;
    if n == 0 {
      assert "0" != "1";
    } else {
      EnvKeepsOwner(plan, index, n - 1);
      NamesAreNotIdentity(BUDGETS[n - 1]);
      assert "CCH_MULTICORE_BACKGROUND_OWNER"[..4] == "CCH_";
    }
  }

  /** Under a plan, a worker that resolves a budget from its environment gets its share, which is always in
      range; so the workers together get exactly the total. */
  lemma WorkersRecoverTheirShares(plan: Plan, resources: Resources, index: nat, b: Budget, default: nat)
    requires plan.Enabled? && Safe(plan, resources) && index < plan.workers && Exported(plan, b)
    ensures HasShares(plan, index) && SumOf(plan.allocations[b]) == plan.totals[b]
    ensures ParseInteger(EnvOfFirst(plan, index, |BUDGETS|), Name(b), default, MinPerWorker(b), MaxTotal(b))
            == Success(plan.allocations[b][index])
  {
    hide EnvOfFirst, Name, Decimal, Value, Trim, MinPerWorker;
    var share := plan.allocations[b][index];
    EnvHasShare(plan, index, b, |BUDGETS|);
    DigitsAreTrimmed(Decimal(share));
    ValueOfDecimal(share);
    AtMostTheSum(plan.allocations[b], index);
    TotalsAreSmall(b);
  }

  /** Exactly one worker, the first, owns the background work. */
  lemma OneBackgroundOwner(plan: Plan, resources: Resources, index: nat)
    requires plan.Enabled? && Safe(plan, resources) && index < plan.workers
    ensures HasShares(plan, index)
    ensures
      var env := EnvOfFirst(plan, index, |BUDGETS|);
      && "CCH_MULTICORE_BACKGROUND_OWNER" in env
      && (env["CCH_MULTICORE_BACKGROUND_OWNER"] == "1" <==> index == 0)
  {
    EnvKeepsOwner(plan, index, |BUDGETS|);
  }

  lemma {:induction false} EnvKeepsIdentity(plan: Plan, index: nat, n: nat, key: string)
    requires plan.Enabled? && HasShares(plan, index) && n <= |BUDGETS|
    requires key in Identity(plan, index) && |key| >= 4 && key[..4] == "CCH_"
    ensures key in EnvOfFirst(plan, index, n) && EnvOfFirst(plan, index, n)[key] == Identity(plan, index)[key]
  {
    hide Name, Identity;
    if n > 0 {
      EnvKeepsIdentity(plan, index, n - 1, key);
      NamesAreNotIdentity(BUDGETS[n - 1]);
    }
  }

  /** A worker reads back who it is, how many there are, and what the machine has. */
  lemma WorkersKnowThemselves(plan: Plan, resources: Resources, index: nat, default: nat)
    requires plan.Enabled? && Safe(plan, resources) && index < plan.workers
    requires plan.resources.effectiveCpu <= MAX_SAFE_INTEGER && plan.resources.effectiveMemoryBytes <= MAX_SAFE_INTEGER
    ensures HasShares(plan, index)
    ensures
      var env := EnvOfFirst(plan, index, |BUDGETS|);
      && ParseInteger(env, "CCH_MULTICORE_WORKER_INDEX", default, 0, 31) == Success(index)
      && ParseInteger(env, "CCH_MULTICORE_WORKER_COUNT", default, 1, 32) == Success(plan.workers)
      && ParseInteger(env, "CCH_MULTICORE_EFFECTIVE_VCPUS", default, 0, MAX_SAFE_INTEGER)
         == Success(plan.resources.effectiveCpu)
      && ParseInteger(env, "CCH_MULTICORE_EFFECTIVE_MEMORY_BYTES", default, 0, MAX_SAFE_INTEGER)
         == Success(plan.resources.effectiveMemoryBytes)
      && "CCH_PROCESS_ROLE" in env && (env["CCH_PROCESS_ROLE"] == "gateway-control" <==> index == 0)
      && (index > 0 ==> env["CCH_PROCESS_ROLE"] == "gateway")
  {
    hide EnvOfFirst, ParseInteger, Decimal;
    var env := EnvOfFirst(plan, index, |BUDGETS|);
    EnvKeepsIdentity(plan, index, |BUDGETS|, "CCH_MULTICORE_WORKER_INDEX");
    EnvKeepsIdentity(plan, index, |BUDGETS|, "CCH_MULTICORE_WORKER_COUNT");
    EnvKeepsIdentity(plan, index, |BUDGETS|, "CCH_MULTICORE_EFFECTIVE_VCPUS");
    EnvKeepsIdentity(plan, index, |BUDGETS|, "CCH_MULTICORE_EFFECTIVE_MEMORY_BYTES");
    EnvKeepsIdentity(plan, index, |BUDGETS|, "CCH_PROCESS_ROLE");
    DecimalIsRead(env, "CCH_MULTICORE_WORKER_INDEX", default, 0, 31, index);
    DecimalIsRead(env, "CCH_MULTICORE_WORKER_COUNT", default, 1, 32, plan.workers);
    DecimalIsRead(env, "CCH_MULTICORE_EFFECTIVE_VCPUS", default, 0, MAX_SAFE_INTEGER, plan.resources.effectiveCpu);
    DecimalIsRead(env, "CCH_MULTICORE_EFFECTIVE_MEMORY_BYTES", default, 0, MAX_SAFE_INTEGER,
                  plan.resources.effectiveMemoryBytes);
    hide Identity;
    assert "gateway" != "gateway-control" by {
      assert |"gateway"| != |"gateway-control"|;
    }
  }

  lemma DecimalIsRead(env: Env, name: string, default: nat, min: nat, max: nat, n: nat)
    requires name in env && env[name] == Decimal(n) && min <= n <= max <= MAX_SAFE_INTEGER
    ensures ParseInteger(env, name, default, min, max) == Success(n)
  {
    SettingsAreReadExactly(env, name, default, min, max, "", "", n, "");
    assert "" + ("" + Decimal(n)) + "" == Decimal(n);
  }

  /** The share of the stream gate is handed on exactly if its total was set. */
  lemma StreamGateIsHandedOnDemand(plan: Plan, index: nat)
    requires plan.Enabled? && HasShares(plan, index)
    ensures Name(StreamGate) in EnvOfFirst(plan, index, |BUDGETS|) <==> plan.explicitStreamGate
  {
    StreamGateInFirst(plan, index, |BUDGETS|);
  }

  lemma {:induction false} StreamGateInFirst(plan: Plan, index: nat, n: nat)
    requires plan.Enabled? && HasShares(plan, index) && n <= |BUDGETS|
    ensures Name(StreamGate) in EnvOfFirst(plan, index, n) <==> plan.explicitStreamGate && n > Position(StreamGate)
  {
    hide Name, Identity;
    if n == 0 {
      NoBudgetIsIdentity(plan, index, StreamGate);
    } else {
      StreamGateInFirst(plan, index, n - 1);
      if BUDGETS[n - 1] != StreamGate {
        NamesAreDistinct(StreamGate, BUDGETS[n - 1]);
      }
    }
  }

  lemma NoBudgetIsIdentity(plan: Plan, index: nat, b: Budget)
    requires plan.Enabled?
    ensures Name(b) !in Identity(plan, index)
  {
    NameHasMark(b);
    hide Name, Decimal;
    assert forall key :: key in Identity(plan, index) ==> |key| > 0 && key[0] == 'C';
  }

  lemma TotalsAreSmall(b: Budget)
    ensures MaxTotal(b) <= MAX_SAFE_INTEGER
  {
  }

  lemma {:induction false} AtMostTheSum(s: seq<nat>, i: nat)
    requires i < |s|
    ensures s[i] <= SumOf(s)
  {
    if i < |s| - 1 {
      AtMostTheSum(s[..|s| - 1], i);
    }
  }
}
