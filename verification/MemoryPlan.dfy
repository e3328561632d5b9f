/** server-lib/memory-plan.js: how many bytes of request bodies the process group may hold. */
module MemoryPlan {
  import opened Wrappers
  import opened Integers
  import opened Strings
  import opened NumberText

  /** What the operating system reports; the two optional readings are absent on some platforms. */
  datatype ResourceSnapshot = ResourceSnapshot(
    availableRamBytes: int,
    availableSwapBytes: int,
    memoryPressure: Option<real>,
    swapIO: Option<nat>)
  {
    function SwapIO(): nat {
      if swapIO.Some? then swapIO.value else 0
    }

    predicate UnderPressure() {
      memoryPressure.Some? && memoryPressure.value >= 1.0
    }
  }

  /** CCH_MEMORY_BUDGET_BYTES once accepted: an explicit budget is a positive integer. */
  datatype Budget = Auto | Explicit(bytes: int)
  {
    predicate Valid() {
      Explicit? ==> bytes > 0
    }
  }

  datatype Plan = Plan(explicit: bool, budgetBytes: int, hotBudgetBytes: int, headroomBytes: int, swapIO: nat)

  /** The variable is missing, blank, or `auto`. */
  predicate IsAuto(raw: Option<string>) {
    raw.None? || Trim(raw.value) == "" || Trim(raw.value) == "auto"
  }

  /** The budget a spelling of CCH_MEMORY_BUDGET_BYTES stands for. */
  function ResolveBudget(raw: Option<string>): (r: Result<Budget, string>)
    ensures r.Success? <==>
            IsAuto(raw) || (SafeIntegerOf(raw.value).Some? && SafeIntegerOf(raw.value).value > 0)
    ensures r.Success? ==> r.value.Valid() && (r.value.Auto? <==> IsAuto(raw))
    ensures r.Success? && r.value.Explicit? ==> SafeIntegerOf(raw.value) == Some(r.value.bytes)
  {
    if IsAuto(raw) then Success(Auto)
    else
      var bytes := SafeIntegerOf(raw.value);
      if bytes.None? || bytes.value <= 0 then Failure("CCH_MEMORY_BUDGET_BYTES must be auto or a positive integer")
      else Success(Explicit(bytes.value))
  }

  /** A decimal numeral, with white space around it or not, is accepted exactly if it is positive and at most
      2^53 - 1, and then it is the budget; a negative one is refused. */
  lemma NumeralsAreBudgets(left: string, n: nat, right: string)
    requires Blank(left) && Blank(right)
    ensures ResolveBudget(Some(left + Decimal(n) + right)).Success? <==> 0 < n <= MAX_SAFE_INTEGER
    ensures 0 < n <= MAX_SAFE_INTEGER ==> ResolveBudget(Some(left + Decimal(n) + right)) == Success(Explicit(n))
    ensures ResolveBudget(Some(left + ("-" + Decimal(n)) + right)).Failure?
  {
    hide NumberOf, ResolveBudget, Decimal;
    NumeralsAreRead(left, n, right);
    var d := Decimal(n);
    assert IsDigit(d[0]) && IsDigit(d[|d| - 1]);
    TrimPadded(left, d, right);
    TrimPadded(left, "-" + d, right);
    assert (n as real).Floor == n && (-(n as real)).Floor == -(n as int);
    NumbersAreBudgets(left + d + right);
    NumbersAreBudgets(left + ("-" + d) + right);
  }

  lemma NumbersAreBudgets(text: string)
    requires Trim(text) != "" && Trim(text)[0] != 'a'
    ensures
      var bytes := SafeIntegerOf(text);
      if bytes.Some? && bytes.value > 0 then ResolveBudget(Some(text)) == Success(Explicit(bytes.value))
      else ResolveBudget(Some(text)).Failure?
  {
    hide SafeIntegerOf, Trim;
    assert Trim(text) != "auto";
  }

  function RealMax(a: real, b: real): real {
    if a < b then b else a
  }

  function Ram(s: ResourceSnapshot): real {
    RealMax(0.0, s.availableRamBytes as real)
  }

  function Reserve(budget: Budget, s: ResourceSnapshot): real {
    if budget.Explicit? then Ram(s) * 0.1 else RealMax((256 * MIB) as real, Ram(s) * 0.1)
  }

  /** The physical room above the reserve; the only reading that is taken again at run time. */
  function Headroom(budget: Budget, s: ResourceSnapshot): int {
    RealMax(0.0, Ram(s) - Reserve(budget, s)).Floor
  }

  function AutoBudget(budget: Budget, s: ResourceSnapshot): int {
    var weighted := Ram(s) + RealMax(0.0, s.availableSwapBytes as real) * 0.5;
    (0.6 * RealMax(0.0, weighted - Reserve(budget, s))).Floor
  }

  /** Every plan is non-negative and its hot budget is covered by physical memory alone. */
  function CreateMemoryPlan(budget: Budget, s: ResourceSnapshot): (p: Plan)
    requires budget.Valid()
    ensures 0 <= p.hotBudgetBytes <= p.headroomBytes
    ensures p.hotBudgetBytes <= p.budgetBytes
    ensures p.headroomBytes as real <= Ram(s)
    ensures budget.Explicit? ==> p.budgetBytes == budget.bytes
    ensures p.swapIO == s.SwapIO()
  {
    var budgetBytes := if budget.Explicit? then budget.bytes else AutoBudget(budget, s);
    var headroomBytes := Headroom(budget, s);
    Plan(budget.Explicit?, budgetBytes, Min(budgetBytes, headroomBytes), headroomBytes, s.SwapIO())
  }

  predicate NoRoomier(a: ResourceSnapshot, b: ResourceSnapshot) {
    a.availableRamBytes <= b.availableRamBytes && a.availableSwapBytes <= b.availableSwapBytes
  }

  /** More free memory never shrinks a plan, although the reserve grows with it. */
  lemma MoreMemoryNeverShrinksThePlan(budget: Budget, a: ResourceSnapshot, b: ResourceSnapshot)
    requires budget.Valid() && NoRoomier(a, b)
    ensures CreateMemoryPlan(budget, a).headroomBytes <= CreateMemoryPlan(budget, b).headroomBytes
    ensures CreateMemoryPlan(budget, a).hotBudgetBytes <= CreateMemoryPlan(budget, b).hotBudgetBytes
  {
    assert Ram(a) <= Ram(b);
    assert Ram(a) - Reserve(budget, a) <= Ram(b) - Reserve(budget, b);
    FloorMonotone(RealMax(0.0, Ram(a) - Reserve(budget, a)), RealMax(0.0, Ram(b) - Reserve(budget, b)));
    var wa := Ram(a) + RealMax(0.0, a.availableSwapBytes as real) * 0.5;
    var wb := Ram(b) + RealMax(0.0, b.availableSwapBytes as real) * 0.5;
    FloorMonotone(0.6 * RealMax(0.0, wa - Reserve(budget, a)), 0.6 * RealMax(0.0, wb - Reserve(budget, b)));
  }

  lemma FloorMonotone(x: real, y: real)
    requires x <= y
    ensures x.Floor <= y.Floor
  {
  }

  /** The automatic plan in whole numbers: a reserve of a tenth of the free memory, at least 256 MiB, is kept, and the
      budget is six tenths of the rest, counting half of the free swap. */
  lemma AutomaticPlanIsExact(s: ResourceSnapshot)
    ensures
      var (ram, swap) := (Max(0, s.availableRamBytes), Max(0, s.availableSwapBytes));
      var reserve := Max(2560 * MIB, ram);  // ten times the reserve
      var plan := CreateMemoryPlan(Auto, s);
      && plan.headroomBytes == Max(0, 10 * ram - reserve) / 10
      && plan.budgetBytes == 6 * Max(0, 10 * ram + 5 * swap - reserve) / 100
      && plan.hotBudgetBytes == Min(plan.budgetBytes, plan.headroomBytes)
  {
    var (ram, swap) := (Max(0, s.availableRamBytes), Max(0, s.availableSwapBytes));
    var reserve := Max(2560 * MIB, ram);
    assert Reserve(Auto, s) * 10.0 == reserve as real;
    FloorOfTenths(Max(0, 10 * ram - reserve), 10, RealMax(0.0, Ram(s) - Reserve(Auto, s)));
    var rest := RealMax(0.0, Ram(s) + RealMax(0.0, s.availableSwapBytes as real) * 0.5 - Reserve(Auto, s));
    FloorOfTenths(6 * Max(0, 10 * ram + 5 * swap - reserve), 100, 0.6 * rest);
  }

  lemma FloorOfTenths(a: int, n: int, x: real)
    requires n > 0 && x * n as real == a as real
    ensures x.Floor == a / n
  {
    var q := a / n;
    assert n * q <= a < n * q + n;
    assert q as real * n as real == (n * q) as real;
    assert (q as real + 1.0) * n as real == (n * q) as real + n as real;
    if x < q as real {
      Scaled(x, q as real, n as real);
    } else if q as real + 1.0 <= x {
      ScaledUp(q as real + 1.0, x, n as real);
    }
  }

  lemma Scaled(x: real, y: real, n: real)
    requires x < y && n > 0.0
    ensures x * n < y * n
  {
    assert (y - x) * n > 0.0;
  }

  lemma ScaledUp(x: real, y: real, n: real)
    requires x <= y && n > 0.0
    ensures x * n <= y * n
  {
    if x < y {
      Scaled(x, y, n);
    }
  }

  /** An explicit budget leaves exactly a tenth of the free memory alone. */
  lemma ExplicitHeadroomIsNineTenths(budget: Budget, s: ResourceSnapshot)
    requires budget.Explicit? && s.availableRamBytes >= 0
    ensures Headroom(budget, s) == 9 * s.availableRamBytes / 10
  {
    var ram := s.availableRamBytes;
    var q := 9 * ram / 10;
    assert 10 * q <= 9 * ram < 10 * q + 10;
    assert Ram(s) - Reserve(budget, s) == (9 * ram) as real * 0.1;
    assert q as real <= (9 * ram) as real * 0.1 < (q + 1) as real;
  }
}
