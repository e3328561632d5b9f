/**
 server-lib/memory-coordinator.js: the primary hands byte credits to the workers.

 `State` and the step functions below it specify the handlers; the class at the end is the
 object those handlers live in, and every method is proved to take exactly the specified step.
 */
module MemoryCoordinator {
  import opened Wrappers
  import opened Integers
  import opened MapSums
  import opened MemoryPlan
  import opened TargetController

  /** A worker object of the cluster. A worker that exited is never attached again. */
  type WorkerId = nat

  /** One field of an IPC message, which may be missing or not an integer at all. */
  datatype Field = Absent | Integer(n: int) | Malformed

  datatype Op = Acquire | Release | OtherOp

  /** Anything a worker process may send; `isCredit` says whether its type is the credit type. */
  datatype Message = Message(isCredit: bool, op: Op, id: Field, bytes: Field, releasedTotal: Field)

  datatype Reply = Reply(id: int, bytes: int)

  datatype Client = Client(bytes: int, requestId: int, replyBytes: int, releasedTotal: int)

  datatype State = State(
    budget: Budget,
    control: Controller,  // ceiling is plan.hotBudgetBytes, level is `target`
    granted: int,
    baselineReset: bool,
    clients: map<WorkerId, Client>)

  const FRESH_CLIENT := Client(0, 0, 0, 0)

  function Init(budget: Budget, snapshot: ResourceSnapshot): State
    requires budget.Valid()
  {
    var plan := CreateMemoryPlan(budget, snapshot);
    State(budget, Controller(plan.hotBudgetBytes, 0, 0, plan.swapIO), 0, false, map[])
  }

  function Attach(s: State, w: WorkerId): State {
    s.(clients := s.clients[w := FRESH_CLIENT])
  }

  function Exit(s: State, w: WorkerId): State {
    if w !in s.clients then s
    else s.(clients := s.clients - {w}, granted := s.granted - s.clients[w].bytes)
  }

  function SampleStep(s: State, snapshot: ResourceSnapshot): State
    requires s.budget.Valid()
  {
    if !s.baselineReset then s
    else s.(control := Adjust(s.control, s.granted, CreateMemoryPlan(s.budget, snapshot).headroomBytes, snapshot))
  }

  function ResetBaseline(s: State, snapshot: ResourceSnapshot): State
    requires s.budget.Valid()
  {
    if s.baselineReset then s
    else
      var plan := CreateMemoryPlan(s.budget, snapshot);
      s.(baselineReset := true,
         control := Controller(plan.hotBudgetBytes, plan.hotBudgetBytes, s.control.healthy, plan.swapIO))
  }

  /** The cumulative release a message claims; a missing one repeats what is already known. */
  function ClaimedRelease(c: Client, m: Message): Field {
    if m.releasedTotal.Absent? then Integer(c.releasedTotal) else m.releasedTotal
  }

  /** The guards of the message handler, up to and including the over-release guard. */
  predicate Admissible(s: State, w: WorkerId, m: Message) {
    && m.isCredit && w in s.clients
    && m.bytes.Integer? && 0 <= m.bytes.n
    && ClaimedRelease(s.clients[w], m).Integer?
    && var claimed := ClaimedRelease(s.clients[w], m).n;
      0 <= claimed - s.clients[w].releasedTotal <= s.clients[w].bytes
  }

  function Settle(s: State, w: WorkerId, m: Message): State
    requires Admissible(s, w, m)
  {
    var c := s.clients[w];
    var released := ClaimedRelease(c, m).n - c.releasedTotal;
    s.(granted := s.granted - released,
       clients := s.clients[w := c.(bytes := c.bytes - released, releasedTotal := c.releasedTotal + released)])
  }

  function Grant(s: State, w: WorkerId, id: int, bytes: int): State
    requires w in s.clients
  {
    var c := s.clients[w];
    var granted := Min(bytes, Max(0, s.control.level - s.granted));
    s.(granted := s.granted + granted,
       clients := s.clients[w := c.(requestId := id, replyBytes := granted, bytes := c.bytes + granted)])
  }

  predicate IsAcquire(m: Message) {
    m.op.Acquire? && m.id.Integer? && m.id.n > 0
  }

  /** The message handler: settle the release first, then answer an acquire that is not stale. */
  function Receive(s: State, w: WorkerId, m: Message): (State, Option<Reply>)
  {
    if !Admissible(s, w, m) then (s, None)
    else
      var settled := Settle(s, w, m);
      if !IsAcquire(m) || m.id.n < settled.clients[w].requestId then (settled, None)
      else
        var answered :=
          if m.id.n > settled.clients[w].requestId then Grant(settled, w, m.id.n, m.bytes.n) else settled;
        (answered, Some(Reply(m.id.n, answered.clients[w].replyBytes)))
  }

  // ---------------------------------------------------------------------------------------
  // The ledger, under arbitrary messages
  // ---------------------------------------------------------------------------------------

  ghost function CreditOf(clients: map<WorkerId, Client>): map<WorkerId, int> {
    map w | w in clients :: clients[w].bytes
  }

  ghost function TotalBytes(s: State): int {
    Sum(CreditOf(s.clients))
  }

  /** The books of the primary balance, fit the hot budget, and are closed before the baseline. */
  ghost predicate LedgerInv(s: State) {
    && s.budget.Valid()
    && s.control.Valid()
    && s.granted == TotalBytes(s)
    && 0 <= s.granted <= s.control.ceiling
    && (forall w :: w in s.clients ==> 0 <= s.clients[w].bytes && 0 <= s.clients[w].replyBytes)
    && (!s.baselineReset ==> s.control.level == 0 && s.granted == 0)
  }

  datatype Event =
    | AttachEvent(w: WorkerId)
    | ReceiveEvent(w: WorkerId, m: Message)
    | ExitEvent(w: WorkerId)
    | SampleEvent(snapshot: ResourceSnapshot)
    | ResetEvent(snapshot: ResourceSnapshot)

  function Apply(s: State, e: Event): State
    requires s.budget.Valid()
  {
    match e
    case AttachEvent(w) => if w in s.clients then s else Attach(s, w)
    case ReceiveEvent(w, m) => Receive(s, w, m).0
    case ExitEvent(w) => Exit(s, w)
    case SampleEvent(snapshot) => SampleStep(s, snapshot)
    case ResetEvent(snapshot) => ResetBaseline(s, snapshot)
  }

  function Run(s: State, events: seq<Event>): (r: State)
    requires s.budget.Valid()
    ensures r.budget == s.budget
    decreases |events|
  {
    if events == [] then s else Run(Apply(s, events[0]), events[1..])
  }

  lemma TotalAfterUpdate(s: State, w: WorkerId, c: Client)
    ensures TotalBytes(s.(clients := s.clients[w := c]))
         == TotalBytes(s) - (if w in s.clients then s.clients[w].bytes else 0) + c.bytes
  {
    SumUpdate(CreditOf(s.clients), w, c.bytes);
    assert CreditOf(s.clients[w := c]) == CreditOf(s.clients)[w := c.bytes];
  }

  lemma SettleKeepsLedger(s: State, w: WorkerId, m: Message)
    requires LedgerInv(s) && Admissible(s, w, m)
    ensures LedgerInv(Settle(s, w, m))
    ensures Settle(s, w, m).granted <= s.granted
  {
    TotalAfterUpdate(s, w, Settle(s, w, m).clients[w]);
    NoClientExceedsGranted(Settle(s, w, m));
  }

  lemma GrantKeepsLedger(s: State, w: WorkerId, id: int, bytes: int)
    requires LedgerInv(s) && w in s.clients && 0 <= bytes
    ensures LedgerInv(Grant(s, w, id, bytes))
    ensures s.granted <= Grant(s, w, id, bytes).granted <= Max(s.granted, s.control.level)
  {
    TotalAfterUpdate(s, w, Grant(s, w, id, bytes).clients[w]);
  }

  lemma NoClientExceedsGranted(s: State)
    requires s.granted == TotalBytes(s)
    requires forall w :: w in s.clients ==> 0 <= s.clients[w].bytes
    ensures forall w :: w in s.clients ==> s.clients[w].bytes <= s.granted
    ensures 0 <= s.granted
  {
    SumNonNegative(CreditOf(s.clients));
    assert forall w :: w in s.clients ==> CreditOf(s.clients)[w] == s.clients[w].bytes;
  }

  /** One message, however garbled: the ledger stays balanced and no grant passes the target. */
  lemma ReceiveKeepsLedger(s: State, w: WorkerId, m: Message)
    requires LedgerInv(s)
    ensures LedgerInv(Receive(s, w, m).0)
    ensures Receive(s, w, m).0.granted <= Max(s.granted, s.control.level)
    ensures Receive(s, w, m).0.control == s.control
    ensures Receive(s, w, m).0.clients.Keys == s.clients.Keys
  {
    if Admissible(s, w, m) {
      SettleKeepsLedger(s, w, m);
      var settled := Settle(s, w, m);
      if IsAcquire(m) && m.id.n > settled.clients[w].requestId {
        GrantKeepsLedger(settled, w, m.id.n, m.bytes.n);
      }
    }
  }

  lemma ExitKeepsLedger(s: State, w: WorkerId)
    requires LedgerInv(s)
    ensures LedgerInv(Exit(s, w))
    ensures Exit(s, w).granted <= s.granted
  {
    if w in s.clients {
      var credit := CreditOf(s.clients);
      SumRemove(credit, w);
      assert CreditOf(s.clients - {w}) == credit - {w};
      NoClientExceedsGranted(Exit(s, w));
    }
  }

  lemma ApplyKeepsLedger(s: State, e: Event)
    requires LedgerInv(s)
    ensures LedgerInv(Apply(s, e))
  {
    match e
    case AttachEvent(w) => if w !in s.clients { TotalAfterUpdate(s, w, FRESH_CLIENT); }
    case ReceiveEvent(w, m) => ReceiveKeepsLedger(s, w, m);
    case ExitEvent(w) => ExitKeepsLedger(s, w);
    case SampleEvent(snapshot) =>
      if s.baselineReset {
        AdjustStaysSafe(s.control, s.granted, CreateMemoryPlan(s.budget, snapshot).headroomBytes, snapshot);
      }
    case ResetEvent(_) =>
  }

  /**
   Over every run of the primary, whatever the workers send: `granted` is the sum of the
   per-worker bytes, each of them is non-negative, and together they fit the hot budget.
   */
  lemma {:induction false} LedgerAlwaysBalances(s: State, events: seq<Event>)
    requires LedgerInv(s)
    ensures LedgerInv(Run(s, events))
    decreases |events|
  {
    if events != [] {
      ApplyKeepsLedger(s, events[0]);
      LedgerAlwaysBalances(Apply(s, events[0]), events[1..]);
    }
  }

  lemma InitHasBalancedLedger(budget: Budget, snapshot: ResourceSnapshot)
    requires budget.Valid()
    ensures LedgerInv(Init(budget, snapshot))
  {
  }

  ghost predicate NoSampleNorReset(events: seq<Event>) {
    forall i :: 0 <= i < |events| ==> !events[i].SampleEvent? && !events[i].ResetEvent?
  }

  /** Between two samples the grants never pass what the last sample left room for. */
  lemma {:induction false} GrantsBoundedUntilNextSample(s: State, events: seq<Event>)
    requires LedgerInv(s) && NoSampleNorReset(events)
    ensures Run(s, events).granted <= Max(s.granted, s.control.level)
    ensures Run(s, events).control == s.control
    decreases |events|
  {
    if events != [] {
      var next := Apply(s, events[0]);
      ApplyKeepsLedger(s, events[0]);
      match events[0] {
        case ReceiveEvent(w, m) => ReceiveKeepsLedger(s, w, m);
        case ExitEvent(w) => ExitKeepsLedger(s, w);
        case _ =>
      }
      assert next.granted <= Max(s.granted, s.control.level) && next.control == s.control;
      GrantsBoundedUntilNextSample(next, events[1..]);
    }
  }

  /**
   A sample followed by any messages: the bytes granted stay within what was granted at the
   sample plus the headroom the sample measured, and within the hot budget fixed at start.
   */
  lemma GrantsCoveredByMeasuredHeadroom(s: State, snapshot: ResourceSnapshot, events: seq<Event>)
    requires LedgerInv(s) && s.baselineReset && NoSampleNorReset(events)
    ensures
      var later := Run(SampleStep(s, snapshot), events);
      && later.granted <= s.granted + CreateMemoryPlan(s.budget, snapshot).headroomBytes
      && later.granted <= s.control.ceiling
  {
    var headroom := CreateMemoryPlan(s.budget, snapshot).headroomBytes;
    AdjustStaysSafe(s.control, s.granted, headroom, snapshot);
    ApplyKeepsLedger(s, SampleEvent(snapshot));
    GrantsBoundedUntilNextSample(SampleStep(s, snapshot), events);
    LedgerAlwaysBalances(SampleStep(s, snapshot), events);
  }

  /** Before the baseline reset no run grants or answers a single byte. */
  lemma NothingGrantedBeforeBaseline(budget: Budget, snapshot: ResourceSnapshot, events: seq<Event>, w: WorkerId)
    requires budget.Valid()
    requires !Run(Init(budget, snapshot), events).baselineReset
    ensures
      var s := Run(Init(budget, snapshot), events);
      s.granted == 0 && (w in s.clients ==> s.clients[w].bytes == 0)
  {
    InitHasBalancedLedger(budget, snapshot);
    LedgerAlwaysBalances(Init(budget, snapshot), events);
    NoClientExceedsGranted(Run(Init(budget, snapshot), events));
  }

  /** The baseline is set once: a second reset, at any later time, changes nothing. */
  lemma {:induction false} BaselineIsResetOnce(s: State, events: seq<Event>, snapshot: ResourceSnapshot)
    requires LedgerInv(s) && s.baselineReset
    ensures
      var later := Run(s, events);
      && ResetBaseline(later, snapshot) == later
      && later.control.ceiling == s.control.ceiling
    decreases |events|
  {
    if events != [] {
      ApplyKeepsLedger(s, events[0]);
      match events[0] {
        case ReceiveEvent(w, m) => ReceiveKeepsLedger(s, w, m);
        case _ =>
      }
      BaselineIsResetOnce(Apply(s, events[0]), events[1..], snapshot);
    }
  }

  /** What a message claims to have returned since the last one, if its claim can be true. */
  function Returned(c: Client, m: Message): Option<int> {
    if m.releasedTotal.Absent? then Some(0)
    else if m.releasedTotal.Integer? && 0 <= m.releasedTotal.n - c.releasedTotal <= c.bytes then
      Some(m.releasedTotal.n - c.releasedTotal)
    else None
  }

  /** A message counts exactly if it is a credit message of an attached worker with a size and a claim that can
      be true; then it returns what it claims, and is answered exactly if it is an acquire that is not stale. */
  lemma MessagesCountExactly(s: State, w: WorkerId, m: Message)
    requires LedgerInv(s)
    ensures
      var (t, reply) := Receive(s, w, m);
      if m.isCredit && w in s.clients && m.bytes.Integer? && m.bytes.n >= 0 && Returned(s.clients[w], m).Some? then
        var (c, r) := (s.clients[w], Returned(s.clients[w], m).value);
        && w in t.clients && t == s.(granted := t.granted, clients := s.clients[w := t.clients[w]])
        && t.clients[w].releasedTotal == c.releasedTotal + r
        && t.granted - s.granted == t.clients[w].bytes - c.bytes
        && (reply.Some? <==> m.op.Acquire? && m.id.Integer? && m.id.n > 0 && m.id.n >= c.requestId)
        && (reply.None? || m.id.n == c.requestId ==> t.granted == s.granted - r)
      else
        t == s && reply.None?
  {
    CountingIsAdmissible(s, w, m);
    hide LedgerInv, Admissible, Returned;
    if Admissible(s, w, m) {
      ReturnedIsSettled(s, w, m);
      hide Settle;
      var settled := Settle(s, w, m);
      assert settled.clients[w := settled.clients[w]] == settled.clients;
      if IsAcquire(m) && m.id.n > settled.clients[w].requestId {
        assert s.clients[w := settled.clients[w]][w := Grant(settled, w, m.id.n, m.bytes.n).clients[w]]
            == s.clients[w := Grant(settled, w, m.id.n, m.bytes.n).clients[w]];
      }
    }
  }

  lemma CountingIsAdmissible(s: State, w: WorkerId, m: Message)
    requires LedgerInv(s)
    ensures Admissible(s, w, m) <==>
            m.isCredit && w in s.clients && m.bytes.Integer? && m.bytes.n >= 0 && Returned(s.clients[w], m).Some?
  {
  }

  lemma ReturnedIsSettled(s: State, w: WorkerId, m: Message)
    requires Admissible(s, w, m) && Returned(s.clients[w], m).Some?
    ensures
      var (c, r) := (s.clients[w], Returned(s.clients[w], m).value);
      Settle(s, w, m) == s.(granted := s.granted - r,
                            clients := s.clients[w := c.(bytes := c.bytes - r, releasedTotal := c.releasedTotal + r)])
  {
  }

  /** A new acquire that counts is answered with all it asks for, or with whatever the target had left. */
  lemma NewAcquiresAreGrantedInFull(s: State, w: WorkerId, m: Message)
    requires LedgerInv(s) && m.isCredit && w in s.clients && Returned(s.clients[w], m).Some?
    requires m.op.Acquire? && m.id.Integer? && m.id.n > 0 && m.id.n > s.clients[w].requestId
    requires m.bytes.Integer? && m.bytes.n >= 0
    ensures
      var (t, reply) := Receive(s, w, m);
      var (c, returned) := (s.clients[w], Returned(s.clients[w], m).value);
      && reply.Some? && reply.value.id == m.id.n && 0 <= reply.value.bytes <= m.bytes.n
      && t.granted == s.granted - returned + reply.value.bytes
      && t.clients == s.clients[w := Client(c.bytes - returned + reply.value.bytes, m.id.n, reply.value.bytes,
                                            c.releasedTotal + returned)]
      && (reply.value.bytes == m.bytes.n || t.granted >= s.control.level)
      && (reply.value.bytes > 0 ==> t.granted <= s.control.level)
  {
    CountingIsAdmissible(s, w, m);
    ReturnedIsSettled(s, w, m);
    hide LedgerInv, Admissible, Returned, Settle;
  }

  /** An attached worker starts with nothing, so its first acquire is a new one. */
  lemma AttachedWorkersStartFresh(s: State, w: WorkerId)
    requires w !in s.clients
    ensures
      var t := Apply(s.(budget := Auto), AttachEvent(w));
      t.clients == s.clients[w := Client(0, 0, 0, 0)] && t.granted == s.granted && t.control == s.control
  {
  }

  /** The baseline opens admission: the whole hot budget of the plan then made becomes the target. */
  lemma TheBaselineOpensTheHotBudget(s: State, snapshot: ResourceSnapshot)
    requires LedgerInv(s) && !s.baselineReset
    ensures
      var t := Apply(s, ResetEvent(snapshot));
      var hot := CreateMemoryPlan(s.budget, snapshot).hotBudgetBytes;
      && t.baselineReset && t.control.ceiling == t.control.level == hot
      && t.control.lastSwapIO == snapshot.SwapIO()
      && t.clients == s.clients && t.granted == 0
  {
  }

  /** An exit removes the worker and returns its bytes; nothing else changes. */
  lemma ExitReturnsEverything(s: State, w: WorkerId)
    requires LedgerInv(s)
    ensures
      var t := Apply(s, ExitEvent(w));
      && t == s.(granted := t.granted, clients := s.clients - {w})
      && t.granted == s.granted - (if w in s.clients then s.clients[w].bytes else 0)
  {
    hide LedgerInv;
    if w !in s.clients {
      assert s.clients - {w} == s.clients;
    }
  }

  /**
   A message delivered twice in a row changes the books once, and an acquire gets the same
   answer twice.
   */
  lemma RepeatedMessageIsHarmless(s: State, w: WorkerId, m: Message)
    requires LedgerInv(s)
    ensures
      var (once, reply) := Receive(s, w, m);
      var (twice, again) := Receive(once, w, m);
      twice == once && again == reply
  {
    ReceiveKeepsLedger(s, w, m);
    if Admissible(s, w, m) {
      var once := Receive(s, w, m).0;
      assert Admissible(once, w, m);
      assert Settle(once, w, m) == once;
    }
  }

  /**
   A retry whose cumulative release is no longer current is dropped whole, and one that is
   current gets exactly the bytes of the first answer: a grant is never repeated.
   */
  lemma RetriedAcquireGetsTheFirstAnswer(s: State, w: WorkerId, m: Message)
    requires LedgerInv(s) && w in s.clients && IsAcquire(m) && m.id.n == s.clients[w].requestId
    ensures
      var (t, reply) := Receive(s, w, m);
      && t.clients[w].replyBytes == s.clients[w].replyBytes
      && t.clients[w].bytes + t.clients[w].releasedTotal == s.clients[w].bytes + s.clients[w].releasedTotal
      && (reply.Some? <==> Admissible(s, w, m))
      && (reply.Some? ==> reply.value == Reply(m.id.n, s.clients[w].replyBytes))
  {
  }

  /** A late acquire with an older id is not answered and grants nothing; at most its release counts. */
  lemma StaleAcquireIsNotAnswered(s: State, w: WorkerId, m: Message)
    requires LedgerInv(s) && w in s.clients && IsAcquire(m) && m.id.n < s.clients[w].requestId
    ensures
      var (t, reply) := Receive(s, w, m);
      && reply.None?
      && t.clients.Keys == s.clients.Keys
      && t.clients[w].bytes + t.clients[w].releasedTotal == s.clients[w].bytes + s.clients[w].releasedTotal
      && t.clients[w].requestId == s.clients[w].requestId && t.clients[w].replyBytes == s.clients[w].replyBytes
      && t.granted <= s.granted
  {
    ReceiveKeepsLedger(s, w, m);
    if Admissible(s, w, m) {
      SettleKeepsLedger(s, w, m);
    }
  }

  // ---------------------------------------------------------------------------------------
  // Recovery
  // ---------------------------------------------------------------------------------------

  /** What the samples of a run measured: what was granted by then, and the headroom. */
  function Samples(s: State, events: seq<Event>): seq<Sample>
    requires s.budget.Valid()
    decreases |events|
  {
    if events == [] then []
    else
      (match events[0]
       case SampleEvent(snapshot) =>
         [Sample(s.granted, CreateMemoryPlan(s.budget, snapshot).headroomBytes, snapshot)]
       case _ => [])
      + Samples(Apply(s, events[0]), events[1..])
  }

  /** Messages, exits and attachments between the samples leave the target alone. */
  lemma {:induction false} OnlySamplesMoveTheTarget(s: State, events: seq<Event>)
    requires LedgerInv(s) && s.baselineReset
    ensures Run(s, events).control == AdjustAll(s.control, Samples(s, events))
    decreases |events|
  {
    if events != [] {
      var t := Apply(s, events[0]);
      ApplyKeepsLedger(s, events[0]);
      StepKeepsControl(s, events[0]);
      OnlySamplesMoveTheTarget(t, events[1..]);
      if events[0].SampleEvent? {
        var rest := Samples(t, events[1..]);
        var first := Samples(s, events)[0];
        assert Samples(s, events)[1..] == rest;
        assert t.control == Adjust(s.control, first.inUse, first.headroom, first.snapshot);
      } else {
        assert Samples(s, events) == Samples(t, events[1..]);
      }
    }
  }

  lemma StepKeepsControl(s: State, e: Event)
    requires LedgerInv(s) && s.baselineReset
    ensures Apply(s, e).baselineReset
    ensures !e.SampleEvent? ==> Apply(s, e).control == s.control
  {
    match e
    case ReceiveEvent(w, m) => ReceiveKeepsLedger(s, w, m);
    case _ =>
  }

  /** In any run with 1010 samples, none of them under pressure and each leaving room for `floor` bytes beside
      what was granted at that moment, the target is back at `floor`, whatever messages came in between. */
  lemma TargetRecovers(s: State, events: seq<Event>, floor: int)
    requires LedgerInv(s) && s.baselineReset
    requires |Samples(s, events)| >= 1010 && Calm(s.control, Samples(s, events), floor)
    ensures Run(s, events).control.level >= floor
  {
    OnlySamplesMoveTheTarget(s, events);
    RecoversWithin1010Samples(s.control, Samples(s, events), floor);
  }

  // ---------------------------------------------------------------------------------------
  // The object
  // ---------------------------------------------------------------------------------------

  /** createMemoryCoordinator: the variables its handlers close over. */
  class Coordinator {
    const budget: Budget
    var hotBudgetBytes: int
    var target: int
    var granted: int
    var healthy: int
    var lastSwapIO: nat
    var baselineReset: bool
    var clients: map<WorkerId, Client>

    function View(): State
      reads this
    {
      State(budget, Controller(hotBudgetBytes, target, healthy, lastSwapIO), granted, baselineReset, clients)
    }

    ghost predicate Valid()
      reads this
    {
      LedgerInv(View())
    }

    constructor (budget: Budget, snapshot: ResourceSnapshot)
      requires budget.Valid()
      ensures View() == Init(budget, snapshot) && Valid()
    {
      var plan := CreateMemoryPlan(budget, snapshot);
      this.budget := budget;
      hotBudgetBytes, lastSwapIO := plan.hotBudgetBytes, plan.swapIO;
      target, granted, healthy, baselineReset := 0, 0, 0, false;
      clients := map[];
      new;
      InitHasBalancedLedger(budget, snapshot);
    }

    method Sample(resource: ResourceSnapshot)
      requires Valid()
      modifies this
      ensures View() == SampleStep(old(View()), resource) && Valid()
      ensures baselineReset ==> target <= Min(hotBudgetBytes, granted + Headroom(budget, resource))
    {
      ApplyKeepsLedger(View(), SampleEvent(resource));
      if !baselineReset {
        return;
      }
      AdjustStaysSafe(View().control, granted, Headroom(budget, resource), resource);
      var current := CreateMemoryPlan(budget, resource);
      var pressure := resource.UnderPressure() || resource.SwapIO() > lastSwapIO;
      lastSwapIO := resource.SwapIO();
      var safe := Min(hotBudgetBytes, granted + current.headroomBytes);
      if pressure || safe < target {
        target := if pressure then Min(safe, target * 4 / 5) else safe;
        healthy := 0;
      } else {
        healthy := healthy + 1;
        if healthy >= HEALTHY_SAMPLES {
          target := Min(safe, target + Max(MIB, hotBudgetBytes / 100));
          healthy := 0;
        }
      }
    }

    method AttachWorker(worker: WorkerId)
      requires Valid() && worker !in clients
      modifies this`clients
      ensures View() == Attach(old(View()), worker) && Valid()
    {
      ApplyKeepsLedger(View(), AttachEvent(worker));
      clients := clients[worker := Client(0, 0, 0, 0)];
    }

    /** Books the bytes a worker returned. */
    method TakeBack(worker: WorkerId, released: int) returns (state: Client)
      requires worker in clients
      modifies this`clients, this`granted
      ensures state == old(clients[worker]).(bytes := old(clients[worker]).bytes - released,
                                             releasedTotal := old(clients[worker]).releasedTotal + released)
      ensures granted == old(granted) - released && clients == old(clients)[worker := state]
    {
      state := clients[worker];
      granted := granted - released;
      state := state.(bytes := state.bytes - released, releasedTotal := state.releasedTotal + released);
      clients := clients[worker := state];
    }

    /** Answers a new request with what the target leaves. */
    method GrantTo(worker: WorkerId, id: int, bytes: int) returns (state: Client)
      requires worker in clients
      modifies this`clients, this`granted
      ensures View() == Grant(old(View()), worker, id, bytes) && worker in clients && state == clients[worker]
    {
      state := clients[worker];
      var replyBytes := Min(bytes, Max(0, target - granted));
      state := Client(state.bytes + replyBytes, id, replyBytes, state.releasedTotal);
      granted := granted + replyBytes;
      clients := clients[worker := state];
    }

    /** The message handler. The reply is what worker.send is called with, if it is called. */
    method OnMessage(worker: WorkerId, message: Message) returns (reply: Option<Reply>)
      requires Valid()
      modifies this`clients, this`granted
      ensures (View(), reply) == Receive(old(View()), worker, message) && Valid()
    {
      hide Grant, LedgerInv;
      ReceiveKeepsLedger(View(), worker, message);
      if !message.isCredit || worker !in clients {
        return None;
      }
      if !message.bytes.Integer? || message.bytes.n < 0 {
        return None;
      }
      var state := clients[worker];
      var releasedTotal :=
        if message.releasedTotal.Absent? then Integer(state.releasedTotal) else message.releasedTotal;
      if !releasedTotal.Integer? || releasedTotal.n < state.releasedTotal
         || releasedTotal.n - state.releasedTotal > state.bytes {
        return None;
      }
      state := TakeBack(worker, releasedTotal.n - state.releasedTotal);
      assert View() == Settle(old(View()), worker, message);
      hide Admissible, Settle;
      if !message.op.Acquire? || !message.id.Integer? || message.id.n <= 0 {
        return None;
      }
      if message.id.n < state.requestId {
        return None;
      }
      if message.id.n > state.requestId {
        state := GrantTo(worker, message.id.n, message.bytes.n);
      }
      return Some(Reply(message.id.n, state.replyBytes));
    }

    method OnExit(worker: WorkerId)
      requires Valid()
      modifies this`clients, this`granted
      ensures View() == Exit(old(View()), worker) && Valid()
    {
      ExitKeepsLedger(View(), worker);
      if worker !in clients {
        return;
      }
      granted := granted - clients[worker].bytes;
      clients := clients - {worker};
    }

    method Reset(resource: ResourceSnapshot)
      requires Valid()
      modifies this
      ensures View() == ResetBaseline(old(View()), resource) && Valid()
    {
      ApplyKeepsLedger(View(), ResetEvent(resource));
      if baselineReset {
        return;
      }
      baselineReset := true;
      var plan := CreateMemoryPlan(budget, resource);
      hotBudgetBytes := plan.hotBudgetBytes;
      lastSwapIO := resource.SwapIO();
      target := plan.hotBudgetBytes;
    }
  }
}
