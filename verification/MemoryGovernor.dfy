/**
 server-lib/memory-governor.js: the worker end of the credit protocol and the byte leases it
 admits against those credits.

 A lease is an entry of `leases`, keyed by the order in which leases were handed out; the
 closures the source returns are the operations that take such a key.
 */
module MemoryGovernor {
  import opened Wrappers
  import opened Integers
  import opened MapSums
  import opened MemoryPlan
  import opened TargetController
  import opened MemoryCoordinator

  type LeaseId = nat

  /** The one outstanding acquire; `sending` while the IPC write has not been confirmed. */
  datatype Pending = Pending(id: nat, requested: int, sending: bool)

  datatype Governor = Governor(
    remote: bool,
    enabled: bool,
    connected: bool,
    control: Controller,  // ceiling and `limit`, used only without a coordinator
    used: int,
    peak: int,
    credits: int,
    nextId: nat,
    releasedTotal: int,
    pending: Option<Pending>,
    leases: map<LeaseId, int>,
    nextLease: LeaseId)
  {
    function Limit(): int {
      if remote then credits else control.level
    }
  }

  datatype LeaseOutcome = Leased(id: LeaseId) | Denied | InvalidSize

  datatype GrowOutcome = Grown | Gone | Short(missing: int) | BadTarget

  function Fresh(remote: bool, enabled: bool, limit: nat, swapIO: nat): Governor {
    Governor(remote, enabled, true, Controller(limit, limit, 0, swapIO), 0, 0, 0, 0, 0, None, map[], 0)
  }

  function RoundUp(bytes: int): int {
    (Max(bytes, MIB) + MIB - 1) / MIB * MIB
  }

  function AcquireMessage(g: Governor, p: Pending): Message {
    Message(true, Acquire, Integer(p.id), Integer(p.requested), Integer(g.releasedTotal))
  }

  /** requestCredits: at most one request is outstanding, and later callers share it. */
  function RequestCredits(g: Governor, bytes: int): (Governor, Option<Message>)
  {
    if !g.remote || !g.connected || g.pending.Some? then (g, None)
    else
      var p := Pending(g.nextId + 1, RoundUp(bytes), true);
      (g.(nextId := g.nextId + 1, pending := Some(p)), Some(AcquireMessage(g, p)))
  }

  /** The one-second retry of the outstanding request: same id, current release total. */
  function Retry(g: Governor): (Governor, Option<Message>)
  {
    if g.pending.None? then (g, None)
    else if !g.connected then (g.(pending := None), None)
    else if g.pending.value.sending then (g, None)
    else
      var p := g.pending.value.(sending := true);
      (g.(pending := Some(p)), Some(AcquireMessage(g, p)))
  }

  /** The IPC write finished or failed. */
  function SendFinished(g: Governor): Governor {
    if g.pending.None? then g else g.(pending := Some(g.pending.value.(sending := false)))
  }

  /** The reply handler: only the outstanding id is credited, once. */
  function OnReply(g: Governor, r: Reply): Governor {
    if g.pending.None? || r.id != g.pending.value.id || r.bytes < 0 then g
    else g.(credits := g.credits + r.bytes, pending := None)
  }

  function LoseConnection(g: Governor): Governor {
    g.(connected := false)
  }

  function OnDisconnect(g: Governor): Governor {
    g.(connected := false, pending := None)
  }

  /** Whole mebibytes above what is in use; negative when a disabled governor overdrew. */
  function Excess(g: Governor): int {
    if g.used == 0 then g.credits else (g.credits - g.used) / MIB * MIB
  }

  function Heartbeat(g: Governor, excess: int): Message {
    Message(true, Release, Absent, Integer(excess), Integer(g.releasedTotal))
  }

  /** sample of a coordinated worker: return the excess and repeat the release total. */
  function RemoteSample(g: Governor): (Governor, Option<Message>)
  {
    if !g.connected then (g, None)
    else
      var excess := Excess(g);
      var h := if excess > 0 then g.(credits := g.credits - excess, releasedTotal := g.releasedTotal + excess) else g;
      (h, if h.releasedTotal > 0 then Some(Heartbeat(h, excess)) else None)
  }

  /** sample of an uncoordinated worker. */
  function LocalSample(g: Governor, headroom: int, s: ResourceSnapshot): Governor {
    g.(control := Adjust(g.control, g.used, headroom, s))
  }

  function SetEnabled(g: Governor, enabled: bool): Governor {
    g.(enabled := enabled)
  }

  function TryLease(g: Governor, bytes: int): (Governor, LeaseOutcome)
  {
    if bytes < 0 then (g, InvalidSize)
    else if g.enabled && bytes > g.Limit() - g.used then (g, Denied)
    else
      (g.(used := g.used + bytes,
          peak := Max(g.peak, g.used + bytes),
          leases := g.leases[g.nextLease := bytes],
          nextLease := g.nextLease + 1),
       Leased(g.nextLease))
  }

  function Grow(g: Governor, id: LeaseId, target: int): (Governor, GrowOutcome)
  {
    if target < 0 then (g, BadTarget)
    else if id !in g.leases then (g, Gone)
    else if target <= g.leases[id] then (g, Grown)
    else
      var delta := target - g.leases[id];
      if g.enabled && delta > g.Limit() - g.used then (g, Short(delta))
      else
        (g.(used := g.used + delta,
            peak := Max(g.peak, g.used + delta),
            leases := g.leases[id := target]),
         Grown)
  }

  /** tryGrow: a refusal for lack of credit also asks the primary for the missing bytes. */
  function TryGrow(g: Governor, id: LeaseId, target: int): (Governor, bool, Option<Message>)
  {
    match Grow(g, id, target)
    case (h, Grown) => (h, true, None)
    case (h, Short(missing)) =>
      var (k, message) := RequestCredits(h, missing);
      (k, false, message)
    case (h, _) => (h, false, None)
  }

  function Shrink(g: Governor, id: LeaseId, target: int): Governor
  {
    if target < 0 || id !in g.leases || target >= g.leases[id] then g
    else g.(used := g.used - (g.leases[id] - target), leases := g.leases[id := target])
  }

  function ReleaseLease(g: Governor, id: LeaseId): Governor
  {
    if id !in g.leases then g
    else g.(used := g.used - g.leases[id], leases := g.leases - {id})
  }

  // ---------------------------------------------------------------------------------------
  // What every operation keeps
  // ---------------------------------------------------------------------------------------

  /** `used` is the sum of the live leases; the outstanding request is the newest one. */
  ghost predicate Accounts(g: Governor) {
    && g.used == Sum(g.leases)
    && g.used <= g.peak
    && (forall id :: id in g.leases ==> 0 <= g.leases[id] && id < g.nextLease)
    && g.control.Valid()
    && 0 <= g.credits && 0 <= g.releasedTotal
    && (g.pending.Some? ==> g.pending.value.id == g.nextId && 0 < g.nextId && 0 < g.pending.value.requested)
  }

  /** Admission holds: the leases fit the credits, or the fixed start limit without a coordinator. */
  ghost predicate Admitted(g: Governor) {
    g.enabled && g.used <= (if g.remote then g.credits else g.control.ceiling)
  }

  datatype Operation =
    | LeaseOp(bytes: int)
    | GrowOp(id: LeaseId, target: int)
    | ShrinkOp(id: LeaseId, target: int)
    | ReleaseOp(id: LeaseId)
    | RequestOp(bytes: int)
    | RetryOp
    | SendFinishedOp
    | ReplyOp(reply: Reply)
    | LoseConnectionOp
    | DisconnectOp
    | SampleOp(headroom: nat, snapshot: ResourceSnapshot)
    | SetEnabledOp(enabled: bool)

  /** One handler or lease call of the worker, with the message it sends, if any. */
  function Perform(g: Governor, op: Operation): (Governor, Option<Message>)
  {
    match op
    case LeaseOp(bytes) => (TryLease(g, bytes).0, None)
    case GrowOp(id, target) => var (h, _, message) := TryGrow(g, id, target); (h, message)
    case ShrinkOp(id, target) => (Shrink(g, id, target), None)
    case ReleaseOp(id) => (ReleaseLease(g, id), None)
    case RequestOp(bytes) => RequestCredits(g, bytes)
    case RetryOp => Retry(g)
    case SendFinishedOp => (SendFinished(g), None)
    case ReplyOp(reply) => (OnReply(g, reply), None)
    case LoseConnectionOp => (LoseConnection(g), None)
    case DisconnectOp => (OnDisconnect(g), None)
    case SampleOp(headroom, snapshot) =>
      if g.remote then RemoteSample(g) else (LocalSample(g, headroom, snapshot), None)
    case SetEnabledOp(enabled) => (SetEnabled(g, enabled), None)
  }

  lemma FreshIsAdmitted(remote: bool, limit: nat, swapIO: nat)
    ensures Accounts(Fresh(remote, true, limit, swapIO)) && Admitted(Fresh(remote, true, limit, swapIO))
    ensures Accounts(Fresh(remote, false, limit, swapIO))
  {
  }

  lemma RequestKeepsAccounts(g: Governor, bytes: int)
    requires Accounts(g)
    ensures Accounts(RequestCredits(g, bytes).0) && RequestCredits(g, bytes).0.remote == g.remote
  {
    RequestCoversTheNeed(bytes);
  }

  lemma GrowKeepsAccounts(g: Governor, id: LeaseId, target: int)
    requires Accounts(g)
    ensures Accounts(Grow(g, id, target).0) && Grow(g, id, target).0.remote == g.remote
  {
    if id in g.leases {
      SumUpdate(g.leases, id, target);
    }
  }

  lemma SampleKeepsAccounts(g: Governor, headroom: nat, snapshot: ResourceSnapshot)
    requires Accounts(g)
    ensures Accounts(RemoteSample(g).0) && RemoteSample(g).0.remote == g.remote
    ensures Accounts(LocalSample(g, headroom, snapshot)) && LocalSample(g, headroom, snapshot).remote == g.remote
  {
    LeasesAreCovered(g);
    ExcessIsTheWholeSurplus(g);
    AdjustStaysSafe(g.control, g.used, headroom, snapshot);
  }

  lemma LeaseOpsKeepAccounts(g: Governor, id: LeaseId, bytes: int)
    requires Accounts(g)
    ensures Accounts(TryLease(g, bytes).0) && TryLease(g, bytes).0.remote == g.remote
    ensures Accounts(Shrink(g, id, bytes)) && Shrink(g, id, bytes).remote == g.remote
    ensures Accounts(ReleaseLease(g, id)) && ReleaseLease(g, id).remote == g.remote
  {
    if bytes >= 0 {
      SumUpdate(g.leases, g.nextLease, bytes);
    }
    if id in g.leases {
      SumUpdate(g.leases, id, bytes);
      SumRemove(g.leases, id);
    }
  }

  /** The books of the worker after one operation, enabled or not. */
  lemma PerformKeepsAccounts(g: Governor, op: Operation)
    requires Accounts(g)
    ensures Accounts(Perform(g, op).0)
    ensures Perform(g, op).0.remote == g.remote
  {
    hide TryLease, Shrink, ReleaseLease, RequestCredits, RemoteSample, LocalSample;
    match op
    case LeaseOp(bytes) => LeaseOpsKeepAccounts(g, 0, bytes);
    case GrowOp(id, target) =>
      GrowKeepsAccounts(g, id, target);
      match Grow(g, id, target) {
        case (_, Short(missing)) => RequestKeepsAccounts(g, missing);
        case _ =>
      }
    case ShrinkOp(id, target) => LeaseOpsKeepAccounts(g, id, target);
    case ReleaseOp(id) => LeaseOpsKeepAccounts(g, id, 0);
    case RequestOp(bytes) => RequestKeepsAccounts(g, bytes);
    case SampleOp(headroom, snapshot) => SampleKeepsAccounts(g, headroom, snapshot);
    case _ =>
  }

  lemma LeasesAreCovered(g: Governor)
    requires Accounts(g)
    ensures 0 <= g.used
    ensures forall id :: id in g.leases ==> g.leases[id] <= g.used
  {
    SumNonNegative(g.leases);
  }

  /** The surplus: all of it when idle, else the largest whole number of mebibytes. */
  lemma ExcessIsTheWholeSurplus(g: Governor)
    requires Accounts(g)
    ensures Excess(g) <= g.credits
    ensures 0 <= Excess(g) <==> g.used <= g.credits
    ensures g.used == 0 ==> g.credits - Excess(g) == 0
    ensures g.used <= g.credits - Excess(g)
    ensures g.used > 0 ==> g.credits - Excess(g) < g.used + MIB
  {
    LeasesAreCovered(g);
    var units := (g.credits - g.used) / MIB;
    assert units * MIB <= g.credits - g.used < units * MIB + MIB;
  }

  /** Only switching admission off can let the leases outgrow the credits. */
  lemma PerformKeepsAdmission(g: Governor, op: Operation)
    requires Accounts(g) && Admitted(g)
    requires op != SetEnabledOp(false)
    ensures Admitted(Perform(g, op).0)
  {
    LeasesAreCovered(g);
    match op
    case SampleOp(headroom, snapshot) =>
      if g.remote {
        ExcessIsTheWholeSurplus(g);
      } else {
        AdjustStaysSafe(g.control, g.used, headroom, snapshot);
      }
    case _ =>
  }

  function PerformAll(g: Governor, ops: seq<Operation>): Governor
    decreases |ops|
  {
    if ops == [] then g else PerformAll(Perform(g, ops[0]).0, ops[1..])
  }

  /** A worker without a coordinator never holds more than the limit it started with. */
  lemma {:induction false} LocalLeasesFitTheStartLimit(g: Governor, ops: seq<Operation>)
    requires Accounts(g) && Admitted(g) && !g.remote
    requires forall i :: 0 <= i < |ops| ==> ops[i] != SetEnabledOp(false)
    ensures PerformAll(g, ops).used == Sum(PerformAll(g, ops).leases) <= g.control.ceiling
    decreases |ops|
  {
    if ops != [] {
      var next := Perform(g, ops[0]).0;
      PerformKeepsAccounts(g, ops[0]);
      PerformKeepsAdmission(g, ops[0]);
      match ops[0] {
        case SampleOp(headroom, snapshot) =>
          LeasesAreCovered(g);
          AdjustStaysSafe(g.control, g.used, headroom, snapshot);
        case _ =>
      }
      assert next.control.ceiling == g.control.ceiling;
      LocalLeasesFitTheStartLimit(next, ops[1..]);
    }
  }

  /** Releasing a lease gives back exactly its size, and only the first time. */
  lemma ReleaseIsIdempotent(g: Governor, id: LeaseId, ops: seq<Operation>)
    requires Accounts(g) && id < g.nextLease
    ensures
      var released := ReleaseLease(g, id);
      && released.used == g.used - (if id in g.leases then g.leases[id] else 0)
      && ReleaseLease(PerformAll(released, ops), id) == PerformAll(released, ops)
      && (forall target :: Grow(PerformAll(released, ops), id, target).0 == PerformAll(released, ops))
      && (forall target :: Shrink(PerformAll(released, ops), id, target) == PerformAll(released, ops))
  {
    ReleasedStaysReleased(ReleaseLease(g, id), id, ops);
  }

  lemma {:induction false} ReleasedStaysReleased(g: Governor, id: LeaseId, ops: seq<Operation>)
    requires id !in g.leases && id < g.nextLease
    ensures id !in PerformAll(g, ops).leases
    decreases |ops|
  {
    if ops != [] {
      ReleasedStaysReleased(Perform(g, ops[0]).0, id, ops[1..]);
    }
  }

  /** A lease that is granted and then released leaves every byte count where it was. */
  lemma LeaseThenReleaseRestores(g: Governor, bytes: int)
    requires Accounts(g)
    ensures
      var (h, outcome) := TryLease(g, bytes);
      outcome.Leased? ==>
        var back := ReleaseLease(h, outcome.id);
        back.used == g.used && back.leases == g.leases && back.credits == g.credits
  {
    if TryLease(g, bytes).1.Leased? {
      assert g.leases[g.nextLease := bytes] - {g.nextLease} == g.leases;
    }
  }

  /** A request asks for the fewest whole mebibytes that cover the need, and at least one. */
  lemma RequestCoversTheNeed(bytes: int)
    ensures RoundUp(bytes) >= Max(bytes, MIB)
    ensures RoundUp(bytes) % MIB == 0
    ensures RoundUp(bytes) - MIB < Max(bytes, MIB)
  {
    var units := (Max(bytes, MIB) + MIB - 1) / MIB;
    assert RoundUp(bytes) == units * MIB;
  }

  // ---------------------------------------------------------------------------------------
  // What every operation does, exactly
  // ---------------------------------------------------------------------------------------

  /** A lease is admitted exactly if admission is off or the lease fits beside those that are out. */
  lemma LeasesAreAdmittedExactly(g: Governor, bytes: int)
    requires Accounts(g)
    ensures
      var (h, outcome) := TryLease(g, bytes);
      if bytes < 0 then
        outcome == InvalidSize && h == g
      else if !g.enabled || g.used + bytes <= (if g.remote then g.credits else g.control.level) then
        && outcome.Leased? && outcome.id !in g.leases
        && h == g.(used := g.used + bytes, peak := if g.peak < h.used then h.used else g.peak,
                   leases := g.leases[outcome.id := bytes], nextLease := h.nextLease)
      else
        outcome == Denied && h == g
  {
  }

  /** A lease grows exactly if it is out and admission is off or the growth fits; one that does not fit changes
      nothing here, but asks the primary for what is missing. */
  lemma GrowthIsAdmittedExactly(g: Governor, id: LeaseId, target: int)
    requires Accounts(g)
    ensures
      var (h, ok, message) := TryGrow(g, id, target);
      var more := if id in g.leases && target > g.leases[id] then target - g.leases[id] else 0;
      var fits := !g.enabled || g.used + more <= (if g.remote then g.credits else g.control.level);
      && (ok <==> target >= 0 && id in g.leases && (more == 0 || fits))
      && (ok && more == 0 ==> h == g && message.None?)
      && (ok && more > 0 ==>
            && h == g.(used := g.used + more, peak := if g.peak < h.used then h.used else g.peak,
                       leases := g.leases[id := target])
            && message.None?)
      && (!ok ==> (h, message) == if id in g.leases && target >= 0 then RequestCredits(g, more) else (g, None))
  {
    hide RequestCredits;
  }

  lemma ShrinkingReturnsTheDifference(g: Governor, id: LeaseId, target: int)
    requires Accounts(g)
    ensures
      var h := Shrink(g, id, target);
      if id in g.leases && 0 <= target < g.leases[id] then
        h == g.(used := g.used + target - g.leases[id], leases := g.leases[id := target])
      else
        h == g
  {
  }

  /** Credit is requested exactly if there is a primary to ask and no request is out: under a new id, for the
      fewest whole mebibytes that cover the need, with the current release total. */
  lemma RequestsAskForTheNeed(g: Governor, bytes: int)
    requires Accounts(g)
    ensures
      var (h, sent) := RequestCredits(g, bytes);
      if g.remote && g.connected && g.pending.None? then
        && h.pending.Some? && h.pending.value.sending && h.pending.value.id == h.nextId == g.nextId + 1
        && h == g.(nextId := h.nextId, pending := h.pending)
        && h.pending.value.requested % MIB == 0
        && Max(bytes, MIB) <= h.pending.value.requested < Max(bytes, MIB) + MIB
        && sent == Some(Message(true, Acquire, Integer(h.nextId), Integer(h.pending.value.requested),
                                Integer(g.releasedTotal)))
      else
        h == g && sent.None?
  {
    hide RoundUp;
    RequestCoversTheNeed(bytes);
  }

  /** The timer repeats the request as it was, once the last write is confirmed; a request that cannot be sent any
      more is given up. Only a reply to the outstanding request is credited, and it ends the wait. */
  lemma RequestsEndExactly(g: Governor, r: Reply)
    ensures
      var (h, sent) := Retry(g);
      && (sent.Some? <==> g.pending.Some? && g.connected && !g.pending.value.sending)
      && (sent.Some? ==>
            && sent.value == Message(true, Acquire, Integer(g.pending.value.id), Integer(g.pending.value.requested),
                                     Integer(g.releasedTotal))
            && h == g.(pending := Some(g.pending.value.(sending := true))))
      && (sent.None? ==> h == if g.connected then g else g.(pending := None))
    ensures SendFinished(g) == g.(pending := if g.pending.Some? then Some(g.pending.value.(sending := false)) else None)
    ensures OnReply(g, r) ==
            if g.pending.Some? && g.pending.value.id == r.id && r.bytes >= 0 then
              g.(credits := g.credits + r.bytes, pending := None)
            else g
    ensures OnDisconnect(g) == g.(connected := false, pending := None) && LoseConnection(g) == g.(connected := false)
  {
  }

  /** A sample of a connected worker returns its surplus, and says so whenever it ever returned anything; one that is
      overdrawn returns nothing. */
  lemma SamplesReturnTheSurplus(g: Governor)
    requires Accounts(g)
    ensures
      var (h, sent) := RemoteSample(g);
      var returned := g.credits - h.credits;
      && h == g.(credits := h.credits, releasedTotal := g.releasedTotal + returned)
      && (!g.connected || g.used > g.credits ==> returned == 0)
      && (g.connected && g.used <= g.credits ==>
            && g.used <= h.credits && returned >= 0 && (g.used == 0 ==> h.credits == 0)
            && (g.used > 0 ==> returned % MIB == 0 && h.credits < g.used + MIB))
      && (sent.Some? <==> g.connected && h.releasedTotal > 0)
      && (sent.Some? ==> sent.value.isCredit && sent.value.op == Release
                         && sent.value.bytes.Integer? && (sent.value.bytes.n >= 0 <==> g.used <= g.credits)
                         && sent.value.releasedTotal == Integer(h.releasedTotal))
  {
    LeasesAreCovered(g);
    ExcessIsTheWholeSurplus(g);
    if g.used != 0 {
      ExcessIsWhole(g);
    }
    hide Excess;
  }

  /** A worker without a coordinator moves its limit by one controller step, beside what it uses; and the switch
      changes nothing but admission. */
  lemma LocalSamplesMoveTheLimit(g: Governor, headroom: nat, s: ResourceSnapshot, enabled: bool)
    requires Accounts(g)
    ensures !g.remote ==>
              && Perform(g, SampleOp(headroom, s)) == (g.(control := Adjust(g.control, g.used, headroom, s)), None)
              && Adjust(g.control, g.used, headroom, s).level <= g.used + headroom
    ensures Perform(g, SetEnabledOp(enabled)) == (g.(enabled := enabled), None)
  {
    LeasesAreCovered(g);
    AdjustStaysSafe(g.control, g.used, headroom, s);
  }

  lemma ExcessIsWhole(g: Governor)
    requires g.used != 0
    ensures Excess(g) % MIB == 0
  {
    var units := (g.credits - g.used) / MIB;
    assert Excess(g) == units * MIB;
  }

  // ---------------------------------------------------------------------------------------
  // The object
  // ---------------------------------------------------------------------------------------

  /** MemoryGovernor: the fields its methods, handlers and lease closures update. */
  class WorkerGovernor {
    const remote: bool
    const ceiling: int
    var enabled: bool
    var connected: bool
    var limit: int
    var healthy: int
    var lastSwapIO: nat
    var used: int
    var peak: int
    var credits: int
    var nextId: nat
    var releasedTotal: int
    var pending: Option<Pending>
    var leases: map<LeaseId, int>
    var nextLease: LeaseId

    function View(): Governor
      reads this
    {
      Governor(remote, enabled, connected, Controller(ceiling, limit, healthy, lastSwapIO),
               used, peak, credits, nextId, releasedTotal, pending, leases, nextLease)
    }

    ghost predicate Valid()
      reads this
    {
      Accounts(View())
    }

    constructor (remote: bool, enabled: bool, limit: nat, swapIO: nat)
      ensures View() == Fresh(remote, enabled, limit, swapIO) && Valid()
    {
      this.remote, this.ceiling, this.enabled, this.limit := remote, limit, enabled, limit;
      connected, healthy, lastSwapIO := true, 0, swapIO;
      used, peak, credits, nextId, releasedTotal, nextLease := 0, 0, 0, 0, 0, 0;
      pending, leases := None, map[];
    }

    method SendCreditRequest(bytes: int) returns (sent: Option<Message>)
      requires Valid()
      modifies this`nextId, this`pending
      ensures (View(), sent) == RequestCredits(old(View()), bytes) && Valid()
    {
      if !remote || !connected {
        return None;
      }
      if pending.Some? {
        return None;
      }
      nextId := nextId + 1;
      var requested := (Max(bytes, MIB) + MIB - 1) / MIB * MIB;
      RequestCoversTheNeed(bytes);
      pending := Some(Pending(nextId, requested, true));
      return Some(Message(true, Acquire, Integer(nextId), Integer(requested), Integer(releasedTotal)));
    }

    method RetryTimer() returns (sent: Option<Message>)
      requires Valid()
      modifies this`pending
      ensures (View(), sent) == Retry(old(View())) && Valid()
    {
      if pending.None? {
        return None;
      }
      if !connected {
        pending := None;
        return None;
      }
      if pending.value.sending {
        return None;
      }
      pending := Some(pending.value.(sending := true));
      var p := pending.value;
      return Some(Message(true, Acquire, Integer(p.id), Integer(p.requested), Integer(releasedTotal)));
    }

    method OnSendCallback()
      requires Valid()
      modifies this`pending
      ensures View() == SendFinished(old(View())) && Valid()
    {
      if pending.Some? {
        pending := Some(pending.value.(sending := false));
      }
    }

    method OnReplyMessage(reply: Reply)
      requires Valid()
      modifies this`credits, this`pending
      ensures View() == OnReply(old(View()), reply) && Valid()
    {
      if pending.None? || reply.id != pending.value.id {
        return;
      }
      if reply.bytes < 0 {
        return;
      }
      credits := credits + reply.bytes;
      pending := None;
    }

    method OnDisconnected()
      requires Valid()
      modifies this`connected, this`pending
      ensures View() == OnDisconnect(old(View())) && Valid()
    {
      connected := false;
      pending := None;
    }

    method Sample(headroom: nat, resource: ResourceSnapshot) returns (sent: Option<Message>)
      requires Valid()
      modifies this
      ensures (View(), sent) == Perform(old(View()), SampleOp(headroom, resource)) && Valid()
    {
      if remote {
        sent := ReturnExcess();
      } else {
        AdjustLimit(headroom, resource);
        sent := None;
      }
    }

    /** The coordinated half of sample. */
    method ReturnExcess() returns (sent: Option<Message>)
      requires Valid()
      modifies this`credits, this`releasedTotal
      ensures (View(), sent) == RemoteSample(old(View())) && Valid()
    {
      ExcessIsTheWholeSurplus(View());
      var excess := if used == 0 then credits else (credits - used) / MIB * MIB;
      if connected {
        if excess > 0 {
          credits := credits - excess;
          releasedTotal := releasedTotal + excess;
        }
        if releasedTotal > 0 {
          return Some(Message(true, Release, Absent, Integer(excess), Integer(releasedTotal)));
        }
      }
      return None;
    }

    /** The uncoordinated half of sample. */
    method AdjustLimit(headroom: nat, resource: ResourceSnapshot)
      requires Valid()
      modifies this`limit, this`healthy, this`lastSwapIO
      ensures View() == LocalSample(old(View()), headroom, resource) && Valid()
    {
      hide Accounts;
      SampleKeepsAccounts(View(), headroom, resource);
      var safe := Min(ceiling, used + headroom);
      var pressure := resource.UnderPressure() || resource.SwapIO() > lastSwapIO;
      lastSwapIO := resource.SwapIO();
      if pressure || safe < limit {
        limit := if pressure then Min(safe, limit * 4 / 5) else safe;
        healthy := 0;
      } else {
        healthy := healthy + 1;
        if healthy >= HEALTHY_SAMPLES {
          limit := Min(safe, limit + Max(MIB, ceiling / 100));
          healthy := 0;
        }
      }
    }

    method Toggle(enable: bool)
      requires Valid()
      modifies this`enabled
      ensures View() == SetEnabled(old(View()), enable) && Valid()
    {
      enabled := enable;
    }

    method NewLease(bytes: int) returns (outcome: LeaseOutcome)
      requires Valid()
      modifies this`used, this`peak, this`leases, this`nextLease
      ensures (View(), outcome) == TryLease(old(View()), bytes) && Valid()
    {
      PerformKeepsAccounts(View(), LeaseOp(bytes));
      if bytes < 0 {
        return InvalidSize;
      }
      var capacity := if remote then credits else limit;
      if enabled && bytes > capacity - used {
        return Denied;
      }
      used := used + bytes;
      peak := Max(peak, used);
      leases := leases[nextLease := bytes];
      nextLease := nextLease + 1;
      return Leased(nextLease - 1);
    }

    method GrowLease(id: LeaseId, target: int) returns (grown: bool, sent: Option<Message>)
      requires Valid()
      modifies this`used, this`peak, this`leases, this`nextId, this`pending
      ensures (View(), grown, sent) == TryGrow(old(View()), id, target) && Valid()
    {
      PerformKeepsAccounts(View(), GrowOp(id, target));
      if target < 0 || id !in leases {
        return false, None;
      }
      if target <= leases[id] {
        return true, None;
      }
      var delta := target - leases[id];
      if enabled && delta > (if remote then credits else limit) - used {
        sent := SendCreditRequest(delta);
        return false, sent;
      }
      used := used + delta;
      leases := leases[id := target];
      peak := Max(peak, used);
      return true, None;
    }

    method ShrinkLease(id: LeaseId, target: int)
      requires Valid()
      modifies this`used, this`leases
      ensures View() == Shrink(old(View()), id, target) && Valid()
    {
      PerformKeepsAccounts(View(), ShrinkOp(id, target));
      if target < 0 || id !in leases || target >= leases[id] {
        return;
      }
      used := used - (leases[id] - target);
      leases := leases[id := target];
    }

    method FreeLease(id: LeaseId)
      requires Valid()
      modifies this`used, this`leases
      ensures View() == ReleaseLease(old(View()), id) && Valid()
    {
      PerformKeepsAccounts(View(), ReleaseOp(id));
      if id !in leases {
        return;
      }
      used := used - leases[id];
      leases := leases - {id};
    }
  }
}
