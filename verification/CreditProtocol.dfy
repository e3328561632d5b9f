/**
 The credit protocol as a whole: the primary (server-lib/memory-coordinator.js), any number of
 coordinated workers (server-lib/memory-governor.js), the wiring of cluster.js that opens
 admission, and an IPC network that may deliver a message late, twice, out of order or never.

 A run is any sequence of actions. An action that is not possible in a state leaves the state
 alone, so a statement about `Run(s, actions)` for every `actions` covers every interleaving.
 */
module CreditProtocol {
  import opened Wrappers
  import opened Integers
  import opened MapSums
  import opened MemoryPlan
  import MC = MemoryCoordinator
  import opened MemoryGovernor

  type WorkerId = MC.WorkerId

  datatype System = System(
    primary: MC.State,
    workers: map<WorkerId, Governor>,
    toPrimary: set<(WorkerId, MC.Message)>,  // every message ever sent
    toWorker: set<(WorkerId, MC.Reply)>,     // every reply ever sent
    credited: map<WorkerId, int>,            // history: the last request id whose reply was accepted
    ready: set<WorkerId>,
    workerCount: nat)

  datatype Action =
    | ForkWorker(w: WorkerId, enabled: bool)
    | WorkerReady(w: WorkerId, snapshot: ResourceSnapshot)
    | WorkerStep(w: WorkerId, op: Operation)
    | DeliverToPrimary(w: WorkerId, m: MC.Message)
    | DeliverToWorker(w: WorkerId, r: MC.Reply)
    | PrimarySample(snapshot: ResourceSnapshot)
    | WorkerExit(w: WorkerId)

  function Start(budget: Budget, snapshot: ResourceSnapshot, workerCount: nat): System
    requires budget.Valid()
  {
    System(MC.Init(budget, snapshot), map[], {}, {}, map[], {}, workerCount)
  }

  predicate Possible(s: System, a: Action) {
    match a
    case ForkWorker(w, _) => w !in s.workers && w !in s.primary.clients
    case WorkerReady(w, _) => w in s.workers
    case WorkerStep(w, op) => w in s.workers && !op.ReplyOp?
    case DeliverToPrimary(w, m) => (w, m) in s.toPrimary
    case DeliverToWorker(w, r) => w in s.workers && (w, r) in s.toWorker
    case PrimarySample(_) => true
    case WorkerExit(w) => true
  }

  predicate Accepts(g: Governor, r: MC.Reply) {
    g.pending.Some? && r.id == g.pending.value.id && 0 <= r.bytes
  }

  function Next(s: System, a: Action): System
    requires s.primary.budget.Valid()
  {
    if !Possible(s, a) then s
    else
      match a
      case ForkWorker(w, enabled) =>
        s.(primary := MC.Attach(s.primary, w),
           workers := s.workers[w := Fresh(true, enabled, 0, 0)],
           credited := s.credited[w := 0])
      case WorkerReady(w, snapshot) =>
        var ready := s.ready + {w};
        if |ready| == s.workerCount then
          s.(ready := ready, primary := MC.ResetBaseline(s.primary, snapshot))
        else
          s.(ready := ready)
      case WorkerStep(w, op) =>
        var (g, sent) := Perform(s.workers[w], op);
        s.(workers := s.workers[w := g],
           toPrimary := if sent.Some? then s.toPrimary + {(w, sent.value)} else s.toPrimary)
      case DeliverToPrimary(w, m) =>
        var (p, reply) := MC.Receive(s.primary, w, m);
        s.(primary := p,
           toWorker := if reply.Some? then s.toWorker + {(w, reply.value)} else s.toWorker)
      case DeliverToWorker(w, r) =>
        s.(workers := s.workers[w := OnReply(s.workers[w], r)],
           credited := if Accepts(s.workers[w], r) then s.credited[w := r.id] else s.credited)
      case PrimarySample(snapshot) => s.(primary := MC.SampleStep(s.primary, snapshot))
      case WorkerExit(w) => s.(primary := MC.Exit(s.primary, w), ready := s.ready - {w})
  }

  function Run(s: System, actions: seq<Action>): (r: System)
    requires s.primary.budget.Valid()
    ensures r.primary.budget.Valid()
    decreases |actions|
  {
    if actions == [] then s else Run(Next(s, actions[0]), actions[1..])
  }

  // ---------------------------------------------------------------------------------------
  // The invariant that links one worker to its record at the primary
  // ---------------------------------------------------------------------------------------

  /** Bytes granted to the newest request whose reply the worker has not accepted yet. */
  function InTransit(c: MC.Client, credited: int): int {
    if credited < c.requestId then c.replyBytes else 0
  }

  /** Exactly-once credit: both sides count the same bytes, up to the one reply in transit. */
  ghost predicate Linked(c: MC.Client, g: Governor, credited: int) {
    && g.remote && Accounts(g)
    && 0 <= c.replyBytes
    && 0 <= c.releasedTotal <= g.releasedTotal
    && 0 <= credited <= c.requestId <= g.nextId <= credited + 1
    && (g.pending.Some? ==> credited < g.nextId)
    && (g.connected && g.pending.None? ==> credited == g.nextId)
    && c.bytes + c.releasedTotal == g.credits + g.releasedTotal + InTransit(c, credited)
  }

  /** What every request an honest worker ever sent still satisfies. */
  ghost predicate OldRequest(g: Governor, m: MC.Message) {
    && m.isCredit && m.bytes.Integer?
    && m.releasedTotal.Integer? && 0 <= m.releasedTotal.n <= g.releasedTotal
    && (m.op.Acquire? ==> m.id.Integer? && 1 <= m.id.n <= g.nextId && 0 <= m.bytes.n)
  }

  /** What every reply the primary ever sent to a live worker still satisfies. */
  ghost predicate OldReply(c: MC.Client, r: MC.Reply) {
    1 <= r.id <= c.requestId && 0 <= r.bytes && (r.id == c.requestId ==> r.bytes == c.replyBytes)
  }

  ghost predicate WorkersLinked(s: System) {
    forall w :: w in s.primary.clients ==>
      w in s.workers && w in s.credited && Linked(s.primary.clients[w], s.workers[w], s.credited[w])
  }

  ghost predicate NetworkHonest(s: System) {
    && (forall p :: p in s.toPrimary && p.0 in s.primary.clients && p.0 in s.workers ==>
          OldRequest(s.workers[p.0], p.1))
    && (forall p :: p in s.toWorker && p.0 in s.primary.clients ==> OldReply(s.primary.clients[p.0], p.1))
    && (forall p :: p in s.toPrimary ==> p.0 in s.workers)
    && (forall p :: p in s.toWorker ==> p.0 in s.workers)
  }

  ghost predicate Inv(s: System) {
    && MC.LedgerInv(s.primary)
    && WorkersLinked(s)
    && NetworkHonest(s)
    && (!s.primary.baselineReset ==> |s.ready| < s.workerCount)
  }

  /** One operation of a worker preserves its link, and what it sends is an honest request. */
  lemma OperationKeepsLink(c: MC.Client, g: Governor, credited: int, op: Operation)
    requires Linked(c, g, credited) && !op.ReplyOp?
    ensures Linked(c, Perform(g, op).0, credited)
    ensures g.nextId <= Perform(g, op).0.nextId
    ensures g.releasedTotal <= Perform(g, op).0.releasedTotal
    ensures Perform(g, op).1.Some? ==> OldRequest(Perform(g, op).0, Perform(g, op).1.value)
  {
    PerformKeepsAccounts(g, op);
    match op
    case RequestOp(bytes) => RequestCoversTheNeed(bytes);
    case GrowOp(id, target) =>
      match Grow(g, id, target) {
        case (_, Short(missing)) => RequestCoversTheNeed(missing);
        case _ =>
      }
    case _ =>
  }

  /** An honest request fails no over-release guard; whatever it does, the link survives. */
  lemma ReceiveKeepsLink(p: MC.State, w: WorkerId, m: MC.Message, g: Governor, credited: int)
    requires MC.LedgerInv(p) && w in p.clients
    requires Linked(p.clients[w], g, credited) && OldRequest(g, m)
    ensures m.releasedTotal.n - p.clients[w].releasedTotal <= p.clients[w].bytes
    ensures w in MC.Receive(p, w, m).0.clients
    ensures
      var (q, reply) := MC.Receive(p, w, m);
      && Linked(q.clients[w], g, credited)
      && q.clients == p.clients[w := q.clients[w]]
      && q.baselineReset == p.baselineReset
      && p.clients[w].requestId <= q.clients[w].requestId
      && (p.clients[w].requestId == q.clients[w].requestId ==> p.clients[w].replyBytes == q.clients[w].replyBytes)
      && (reply.Some? ==> OldReply(q.clients[w], reply.value))
  {
    MC.ReceiveKeepsLedger(p, w, m);
    assert p.clients == p.clients[w := p.clients[w]];
  }

  lemma ReplyKeepsLink(c: MC.Client, g: Governor, credited: int, r: MC.Reply)
    requires Linked(c, g, credited) && OldReply(c, r)
    ensures Linked(c, OnReply(g, r), if Accepts(g, r) then r.id else credited)
    ensures OnReply(g, r).nextId == g.nextId && OnReply(g, r).releasedTotal == g.releasedTotal
    ensures Accepts(g, r) ==> credited < r.id && r.bytes == InTransit(c, credited)
  {
  }

  lemma ForkKeepsInv(s: System, w: WorkerId, enabled: bool)
    requires Inv(s) && Possible(s, ForkWorker(w, enabled))
    ensures Inv(Next(s, ForkWorker(w, enabled)))
  {
    hide MC.LedgerInv, Linked, OldRequest, OldReply;
    MC.ApplyKeepsLedger(s.primary, MC.AttachEvent(w));
    FreshIsLinked(enabled);
  }

  lemma FreshIsLinked(enabled: bool)
    ensures Linked(MC.FRESH_CLIENT, Fresh(true, enabled, 0, 0), 0)
  {
    FreshIsAdmitted(true, 0, 0);
  }

  lemma ReadyKeepsInv(s: System, w: WorkerId, snapshot: ResourceSnapshot)
    requires Inv(s)
    ensures Inv(Next(s, WorkerReady(w, snapshot)))
  {
    MC.ApplyKeepsLedger(s.primary, MC.ResetEvent(snapshot));
    assert |s.ready + {w}| <= |s.ready| + 1 by {
      if w !in s.ready {
        assert |s.ready + {w}| == |s.ready| + 1;
      } else {
        assert s.ready + {w} == s.ready;
      }
    }
  }

  lemma OperationKeepsInv(s: System, w: WorkerId, op: Operation)
    requires Inv(s) && Possible(s, WorkerStep(w, op))
    ensures Inv(Next(s, WorkerStep(w, op)))
  {
    hide Perform, Linked, MC.LedgerInv, OldReply;
    if w in s.primary.clients {
      OperationKeepsLink(s.primary.clients[w], s.workers[w], s.credited[w], op);
    }
  }

  /** Any step of the primary that touches the record of one worker and keeps its link. */
  lemma RecordUpdateKeepsInv(s: System, w: WorkerId, q: MC.State, reply: Option<MC.Reply>, t: System)
    requires Inv(s) && w in s.primary.clients && w in q.clients
    requires MC.LedgerInv(q) && q.baselineReset == s.primary.baselineReset
    requires q.clients == s.primary.clients[w := q.clients[w]]
    requires Linked(q.clients[w], s.workers[w], s.credited[w])
    requires s.primary.clients[w].requestId <= q.clients[w].requestId
    requires s.primary.clients[w].requestId == q.clients[w].requestId ==>
               s.primary.clients[w].replyBytes == q.clients[w].replyBytes
    requires reply.Some? ==> OldReply(q.clients[w], reply.value)
    requires t == s.(primary := q, toWorker := if reply.Some? then s.toWorker + {(w, reply.value)} else s.toWorker)
    ensures Inv(t)
  {
    forall p | p in t.toWorker && p.0 in q.clients ensures OldReply(q.clients[p.0], p.1) && p.0 in t.workers {
      if p in s.toWorker {
        assert OldReply(s.primary.clients[p.0], p.1);
      }
    }
  }

  lemma DeliveryToPrimaryKeepsInv(s: System, w: WorkerId, m: MC.Message)
    requires Inv(s) && Possible(s, DeliverToPrimary(w, m))
    ensures Inv(Next(s, DeliverToPrimary(w, m)))
  {
    var t := Next(s, DeliverToPrimary(w, m));
    var (q, reply) := MC.Receive(s.primary, w, m);
    if w in s.primary.clients {
      assert OldRequest(s.workers[w], (w, m).1);
      MC.ReceiveKeepsLedger(s.primary, w, m);
      ReceiveKeepsLink(s.primary, w, m, s.workers[w], s.credited[w]);
      RecordUpdateKeepsInv(s, w, q, reply, t);
    } else {
      assert t == s;
    }
  }

  lemma DeliveryToWorkerKeepsInv(s: System, w: WorkerId, r: MC.Reply)
    requires Inv(s) && Possible(s, DeliverToWorker(w, r))
    ensures Inv(Next(s, DeliverToWorker(w, r)))
  {
    hide MC.LedgerInv;
    if w in s.primary.clients {
      assert OldReply(s.primary.clients[w], (w, r).1);
      ReplyKeepsLink(s.primary.clients[w], s.workers[w], s.credited[w], r);
      hide OldReply, Linked;
    }
  }

  lemma ExitKeepsInv(s: System, w: WorkerId)
    requires Inv(s)
    ensures Inv(Next(s, WorkerExit(w)))
  {
    MC.ExitKeepsLedger(s.primary, w);
    assert |s.ready - {w}| <= |s.ready| by {
      if w in s.ready {
        assert s.ready == (s.ready - {w}) + {w};
      } else {
        assert s.ready - {w} == s.ready;
      }
    }
  }

  lemma NextKeepsInv(s: System, a: Action)
    requires Inv(s)
    ensures Inv(Next(s, a))
  {
    assert s.primary.budget.Valid();
    hide Inv, Next;
    if !Possible(s, a) {
      ImpossibleChangesNothing(s, a);
    } else {
      match a
      case ForkWorker(w, enabled) => ForkKeepsInv(s, w, enabled);
      case WorkerReady(w, snapshot) => ReadyKeepsInv(s, w, snapshot);
      case WorkerStep(w, op) => OperationKeepsInv(s, w, op);
      case DeliverToPrimary(w, m) => DeliveryToPrimaryKeepsInv(s, w, m);
      case DeliverToWorker(w, r) => DeliveryToWorkerKeepsInv(s, w, r);
      case PrimarySample(snapshot) => SampleKeepsInv(s, snapshot);
      case WorkerExit(w) => ExitKeepsInv(s, w);
    }
  }

  lemma ImpossibleChangesNothing(s: System, a: Action)
    requires s.primary.budget.Valid() && !Possible(s, a)
    ensures Next(s, a) == s
  {
  }

  lemma SampleKeepsInv(s: System, snapshot: ResourceSnapshot)
    requires Inv(s)
    ensures Inv(Next(s, PrimarySample(snapshot)))
  {
    hide MC.LedgerInv, Linked, OldRequest, OldReply;
    MC.ApplyKeepsLedger(s.primary, MC.SampleEvent(snapshot));
  }

  lemma {:induction false} RunKeepsInv(s: System, actions: seq<Action>)
    requires Inv(s)
    ensures Inv(Run(s, actions))
    decreases |actions|
  {
    if actions != [] {
      hide Next, Inv;
      NextKeepsInv(s, actions[0]);
      RunKeepsInv(Next(s, actions[0]), actions[1..]);
    }
  }

  lemma StartHasInv(budget: Budget, snapshot: ResourceSnapshot, workerCount: nat)
    requires budget.Valid() && 0 < workerCount
    ensures Inv(Start(budget, snapshot, workerCount))
  {
    MC.InitHasBalancedLedger(budget, snapshot);
  }

  /** A state some run reaches from some start. */
  ghost predicate Reachable(s: System) {
    exists budget: Budget, snapshot: ResourceSnapshot, workerCount: nat, actions: seq<Action> ::
      budget.Valid() && 0 < workerCount && s == Run(Start(budget, snapshot, workerCount), actions)
  }

  lemma ReachableHasInv(s: System)
    requires Reachable(s)
    ensures Inv(s)
  {
    var budget: Budget, snapshot: ResourceSnapshot, workerCount: nat, actions: seq<Action> :|
      budget.Valid() && 0 < workerCount && s == Run(Start(budget, snapshot, workerCount), actions);
    StartHasInv(budget, snapshot, workerCount);
    RunKeepsInv(Start(budget, snapshot, workerCount), actions);
  }

  // ---------------------------------------------------------------------------------------
  // The main results
  // ---------------------------------------------------------------------------------------

  ghost function AttachedCredits(s: System): map<WorkerId, int> {
    map w | w in s.primary.clients && w in s.workers :: s.workers[w].credits
  }

  ghost function AttachedUse(s: System): map<WorkerId, int> {
    map w | w in s.primary.clients && w in s.workers :: s.workers[w].used
  }

  /**
   Safety of the whole protocol: the credits the attached workers hold never exceed what the
   primary has on its books, and the books never exceed the hot budget.
   */
  lemma CreditsNeverExceedTheBudget(s: System)
    requires Reachable(s)
    ensures Sum(AttachedCredits(s)) <= s.primary.granted <= s.primary.control.ceiling
    ensures s.primary.granted == MC.TotalBytes(s.primary)
  {
    ReachableHasInv(s);
    SumMonotone(AttachedCredits(s), MC.CreditOf(s.primary.clients));
  }

  /**
   Exactly-once credit in every reachable state: the two sides of an attached worker differ by
   nothing, or by the answer to the one request the worker is still waiting for.
   */
  lemma CreditIsExactlyOnce(s: System, w: WorkerId)
    requires Reachable(s) && w in s.primary.clients
    ensures w in s.workers && w in s.credited
    ensures
      var c, g := s.primary.clients[w], s.workers[w];
      var difference := (c.bytes + c.releasedTotal) - (g.credits + g.releasedTotal);
      && difference == InTransit(c, s.credited[w])
      && (g.connected && g.pending.None? ==> difference == 0)
      && (g.pending.Some? ==> difference == if c.requestId == g.pending.value.id then c.replyBytes else 0)
  {
    ReachableHasInv(s);
  }

  /** A reply is credited at most once, and it credits exactly the bytes that were in transit. */
  lemma ReplyIsCreditedAtMostOnce(s: System, w: WorkerId, r: MC.Reply)
    requires Reachable(s) && w in s.primary.clients && Possible(s, DeliverToWorker(w, r))
    ensures w in s.credited
    ensures
      var t := Next(s, DeliverToWorker(w, r));
      if Accepts(s.workers[w], r) then
        && s.credited[w] < r.id == t.credited[w]
        && t.workers[w].credits == s.workers[w].credits + InTransit(s.primary.clients[w], s.credited[w])
        && Next(t, DeliverToWorker(w, r)) == t
      else
        t == s
  {
    ReachableHasInv(s);
    assert OldReply(s.primary.clients[w], (w, r).1);
    ReplyKeepsLink(s.primary.clients[w], s.workers[w], s.credited[w], r);
    assert s.workers[w := s.workers[w]] == s.workers;
  }

  /** An honest message never trips the over-release guard, however late it arrives. */
  lemma HonestMessagesNeverOverRelease(s: System, w: WorkerId, m: MC.Message)
    requires Reachable(s) && w in s.primary.clients && (w, m) in s.toPrimary
    ensures m.releasedTotal.Integer?
    ensures m.releasedTotal.n - s.primary.clients[w].releasedTotal <= s.primary.clients[w].bytes
  {
    ReachableHasInv(s);
    assert OldRequest(s.workers[w], (w, m).1);
    ReceiveKeepsLink(s.primary, w, m, s.workers[w], s.credited[w]);
  }

  /**
   A lost reply is repaired by one retry: delivering the retried request and then its reply
   ends the wait, with the bytes granted the first time if there was a first time.
   */
  lemma OneRetryCompletesTheRequest(s: System, w: WorkerId)
    requires Reachable(s) && w in s.primary.clients && w in s.workers
    requires s.workers[w].connected && s.workers[w].pending.Some? && !s.workers[w].pending.value.sending
    ensures
      var (g, sent) := Retry(s.workers[w]);
      && sent.Some?
      && var (p, reply) := MC.Receive(s.primary, w, sent.value);
      && reply.Some?
      && var h := OnReply(g, reply.value);
      && h.pending.None?
      && h.credits == s.workers[w].credits + reply.value.bytes
      && w in p.clients && h.credits + h.releasedTotal == p.clients[w].bytes + p.clients[w].releasedTotal
      && (s.primary.clients[w].requestId == g.nextId ==> reply.value.bytes == s.primary.clients[w].replyBytes)
      && (s.primary.clients[w].requestId < g.nextId ==>
            reply.value.bytes == g.pending.value.requested || p.granted >= p.control.level)
  {
    ReachableHasInv(s);
    RetryCompletesTheRequest(s.primary, w, s.workers[w], s.credited[w]);
  }

  lemma RetryCompletesTheRequest(p: MC.State, w: WorkerId, before: Governor, credited: int)
    requires MC.LedgerInv(p) && w in p.clients && Linked(p.clients[w], before, credited)
    requires before.connected && before.pending.Some? && !before.pending.value.sending
    ensures
      var (g, sent) := Retry(before);
      && sent.Some?
      && var (q, reply) := MC.Receive(p, w, sent.value);
      && reply.Some?
      && var h := OnReply(g, reply.value);
      && h.pending.None?
      && h.credits == before.credits + reply.value.bytes
      && w in q.clients && h.credits + h.releasedTotal == q.clients[w].bytes + q.clients[w].releasedTotal
      && (p.clients[w].requestId == g.nextId ==> reply.value.bytes == p.clients[w].replyBytes)
      && (p.clients[w].requestId < g.nextId ==>
            reply.value.bytes == g.pending.value.requested || q.granted >= q.control.level)
  {
    var (g, sent) := Retry(before);
    OperationKeepsLink(p.clients[w], before, credited, RetryOp);
    assert Perform(before, RetryOp) == (g, sent);
    RequestsEndExactly(before, MC.Reply(0, 0));
    ReceiveKeepsLink(p, w, sent.value, g, credited);
    MC.ReceiveKeepsLedger(p, w, sent.value);
    if p.clients[w].requestId < g.nextId {
      MC.NewAcquiresAreGrantedInFull(p, w, sent.value);
    } else {
      assert MC.Admissible(p, w, sent.value);
      MC.RetriedAcquireGetsTheFirstAnswer(p, w, sent.value);
    }
    hide MC.Receive, MC.LedgerInv, Retry, Perform, MC.Admissible;
    var (q, reply) := MC.Receive(p, w, sent.value);
    ReplyKeepsLink(q.clients[w], g, credited, reply.value);
  }

  /** A request for a lease that does not fit is served: once it and its reply are delivered, the lease is admitted,
      provided the target has room for the whole mebibytes that were asked for. */
  lemma ShortLeasesAreServed(s: System, w: WorkerId, bytes: int)
    requires Reachable(s) && w in s.primary.clients && w in s.workers && bytes >= 0
    requires s.workers[w].connected && s.workers[w].pending.None? && s.workers[w].used <= s.workers[w].credits
    requires s.primary.granted + Max(bytes, MIB) + MIB - 1 <= s.primary.control.level
    ensures
      var (g, sent) := RequestCredits(s.workers[w], bytes);
      && sent.Some?
      && var (p, reply) := MC.Receive(s.primary, w, sent.value);
      && reply.Some?
      && var h := OnReply(g, reply.value);
      && h.credits >= s.workers[w].credits + bytes
      && TryLease(h, bytes).1.Leased?
  {
    ReachableHasInv(s);
    ShortLeaseIsServed(s.primary, w, s.workers[w], s.credited[w], bytes);
  }

  lemma ShortLeaseIsServed(p: MC.State, w: WorkerId, before: Governor, credited: int, bytes: int)
    requires MC.LedgerInv(p) && w in p.clients && Linked(p.clients[w], before, credited) && bytes >= 0
    requires before.connected && before.pending.None? && before.used <= before.credits
    requires p.granted + Max(bytes, MIB) + MIB - 1 <= p.control.level
    ensures
      var (g, sent) := RequestCredits(before, bytes);
      && sent.Some?
      && var reply := MC.Receive(p, w, sent.value).1;
      && reply.Some?
      && var h := OnReply(g, reply.value);
      h.credits >= before.credits + bytes && TryLease(h, bytes).1.Leased?
  {
    var (g, sent) := RequestCredits(before, bytes);
    RequestsAskForTheNeed(before, bytes);
    OperationKeepsLink(p.clients[w], before, credited, RequestOp(bytes));
    ReceiveKeepsLink(p, w, sent.value, g, credited);
    MC.NewAcquiresAreGrantedInFull(p, w, sent.value);
    hide MC.Receive, MC.LedgerInv, RequestCredits, TryLease, OnReply;
    var reply := MC.Receive(p, w, sent.value).1;
    RequestsEndExactly(g, reply.value);
    LeasesAreAdmittedExactly(OnReply(g, reply.value), bytes);
  }

  /** One sample of worker w, with the heartbeat it sends delivered at once. */
  function SampleDelivered(s: System, w: WorkerId): (MC.State, Governor)
    requires w in s.workers
  {
    var (g, sent) := RemoteSample(s.workers[w]);
    (if sent.Some? then MC.Receive(s.primary, w, sent.value).0 else s.primary, g)
  }

  /** What a connected worker keeps in a sample: nothing when idle, less than a mebibyte to spare otherwise. */
  lemma SampleLeavesWhatIsUsed(g: Governor)
    requires Accounts(g) && g.connected
    ensures 0 <= Excess(g) <==> g.used <= g.credits
    ensures
      var h := RemoteSample(g).0;
      && h.used == g.used
      && (h.used == 0 ==> h.credits == 0)
      && (h.used > 0 ==> h.credits < h.used + MIB)
      && (g.used <= g.credits ==> h.used <= h.credits)
  {
    ExcessIsTheWholeSurplus(g);
    LeasesAreCovered(g);
  }

  /**
   Lost releases heal: one delivered sample makes the primary's record equal to what the worker
   holds, plus the reply in transit if there is one. It does so exactly when the worker is not
   overdrawn, or nothing had been lost; an overdrawn worker reports a negative excess, and the
   primary ignores the whole heartbeat.
   */
  lemma OneSampleHealsLostReleases(s: System, w: WorkerId)
    requires Reachable(s) && w in s.primary.clients && w in s.workers && s.workers[w].connected
    ensures w in s.credited && w in SampleDelivered(s, w).0.clients
    ensures
      var (p, g) := SampleDelivered(s, w);
      (p.clients[w].bytes == g.credits + InTransit(p.clients[w], s.credited[w]))
      <==>
      (|| s.workers[w].used <= s.workers[w].credits
       || s.primary.clients[w].releasedTotal == s.workers[w].releasedTotal)
    ensures
      var (p, g) := SampleDelivered(s, w);
      && (g.used == 0 ==> g.credits == 0)
      && (g.used > 0 ==> g.credits < g.used + MIB)
      && (s.workers[w].used <= s.workers[w].credits ==> g.used <= g.credits)
  {
    ReachableHasInv(s);
    var c, g := s.primary.clients[w], s.workers[w];
    hide Inv, MC.LedgerInv, OldReply, Reachable;
    SampleLeavesWhatIsUsed(g);
    OperationKeepsLink(c, g, s.credited[w], SampleOp(0, ResourceSnapshot(0, 0, None, None)));
    var (h, sent) := RemoteSample(g);
    if sent.Some? {
      ReceiveKeepsLink(s.primary, w, sent.value, h, s.credited[w]);
      if Excess(g) >= 0 {
        assert MC.Admissible(s.primary, w, sent.value);
      }
    }
  }

  // ---------------------------------------------------------------------------------------
  // A run in which nothing heals
  // ---------------------------------------------------------------------------------------

  const ROOMY := ResourceSnapshot(1000 * MIB, 0, None, None)
  const SMALL_BUDGET := Explicit(100 * MIB)

  lemma {:induction false} RunOneMore(s: System, actions: seq<Action>, a: Action)
    requires s.primary.budget.Valid()
    ensures Run(s, actions + [a]) == Next(Run(s, actions), a)
    decreases |actions|
  {
    hide Next;
    if actions == [] {
      NextKeepsBudget(s, a);
      assert [] + [a] == [a] && [a][1..] == [];
      assert Run(Next(s, a), []) == Next(s, a);
    } else {
      NextKeepsBudget(s, actions[0]);
      assert (actions + [a])[0] == actions[0] && (actions + [a])[1..] == actions[1..] + [a];
      RunOneMore(Next(s, actions[0]), actions[1..], a);
    }
  }

  lemma NextKeepsBudget(s: System, a: Action)
    requires s.primary.budget.Valid()
    ensures Next(s, a).primary.budget == s.primary.budget
  {
  }

  /** One worker, its admission off, and the primary open. */
  function Opened(): seq<Action> {
    [] + [ForkWorker(0, false)] + [WorkerReady(0, ROOMY)]
  }

  /** It asks for a mebibyte and gets it. */
  function Credited(): seq<Action> {
    Opened()
    + [WorkerStep(0, RequestOp(1))]
    + [DeliverToPrimary(0, MC.Message(true, MC.Acquire, MC.Integer(1), MC.Integer(MIB), MC.Integer(0)))]
    + [DeliverToWorker(0, MC.Reply(1, MIB))]
  }

  /** Idle, it returns the credit in a heartbeat that is lost; then it takes a lease it has no credit for. */
  function Overdrawn(): seq<Action> {
    Credited() + [WorkerStep(0, SampleOp(0, ROOMY))] + [WorkerStep(0, LeaseOp(1))]
  }

  function Beginning(): System {
    Start(SMALL_BUDGET, ROOMY, 1)
  }

  lemma AfterOpened()
    ensures
      var s := Run(Beginning(), Opened());
      && s.workers == map[0 := Fresh(true, false, 0, 0)] && s.credited == map[0 := 0]
      && s.primary.clients == map[0 := MC.FRESH_CLIENT] && s.primary.granted == 0
      && s.primary.control.level == 100 * MIB && s.toPrimary == {} && s.toWorker == {}
  {
    var fork := ForkWorker(0, false);
    var ready := WorkerReady(0, ROOMY);
    assert Run(Beginning(), []) == Beginning();
    RunOneMore(Beginning(), [], fork);
    RunOneMore(Beginning(), [] + [fork], ready);
    ExplicitHeadroomIsNineTenths(SMALL_BUDGET, ROOMY);
    assert {0} == {} + {0} && |{0}| == 1;
  }

  lemma AfterCredited()
    ensures
      var s := Run(Beginning(), Credited());
      && 0 in s.workers && 0 in s.primary.clients && 0 in s.credited
      && s.workers[0] == Fresh(true, false, 0, 0).(nextId := 1, credits := MIB)
      && s.primary.clients[0] == MC.Client(MIB, 1, MIB, 0) && s.credited[0] == 1
  {
    var request := WorkerStep(0, RequestOp(1));
    var message := MC.Message(true, MC.Acquire, MC.Integer(1), MC.Integer(MIB), MC.Integer(0));
    var s2 := Run(Beginning(), Opened());
    AfterOpened();
    RunOneMore(Beginning(), Opened(), request);
    RunOneMore(Beginning(), Opened() + [request], DeliverToPrimary(0, message));
    RunOneMore(Beginning(), Opened() + [request] + [DeliverToPrimary(0, message)],
               DeliverToWorker(0, MC.Reply(1, MIB)));
    hide Run, Opened;
    RequestIsSent(s2);
    RequestIsGranted(Next(s2, request), message);
  }

  lemma RequestIsSent(s: System)
    requires s.primary.budget.Valid() && s.workers == map[0 := Fresh(true, false, 0, 0)]
    ensures
      var t := Next(s, WorkerStep(0, RequestOp(1)));
      var message := MC.Message(true, MC.Acquire, MC.Integer(1), MC.Integer(MIB), MC.Integer(0));
      && t.workers == map[0 := Fresh(true, false, 0, 0).(nextId := 1, pending := Some(Pending(1, MIB, true)))]
      && t == s.(workers := t.workers, toPrimary := t.toPrimary) && (0, message) in t.toPrimary
  {
    assert RoundUp(1) == MIB;
  }

  lemma RequestIsGranted(s: System, message: MC.Message)
    requires s.primary.budget.Valid() && s.primary.clients == map[0 := MC.FRESH_CLIENT] && s.primary.granted == 0
    requires s.primary.control.level == 100 * MIB && (0, message) in s.toPrimary && 0 in s.credited
    requires message == MC.Message(true, MC.Acquire, MC.Integer(1), MC.Integer(MIB), MC.Integer(0))
    requires s.workers == map[0 := Fresh(true, false, 0, 0).(nextId := 1, pending := Some(Pending(1, MIB, true)))]
    ensures
      var t := Next(Next(s, DeliverToPrimary(0, message)), DeliverToWorker(0, MC.Reply(1, MIB)));
      && 0 in t.workers && t.workers[0] == Fresh(true, false, 0, 0).(nextId := 1, credits := MIB)
      && 0 in t.primary.clients && t.primary.clients[0] == MC.Client(MIB, 1, MIB, 0)
      && 0 in t.credited && t.credited[0] == 1
  {
    assert MC.Receive(s.primary, 0, message).1 == Some(MC.Reply(1, MIB));
  }

  lemma OverdrawnStep(s: System)
    requires s.primary.budget.Valid() && 0 in s.workers
    requires s.workers[0] == Fresh(true, false, 0, 0).(nextId := 1, credits := MIB)
    ensures
      var t := Next(Next(s, WorkerStep(0, SampleOp(0, ROOMY))), WorkerStep(0, LeaseOp(1)));
      && t == s.(workers := t.workers, toPrimary := t.toPrimary) && 0 in t.workers
      && t.workers[0].remote && t.workers[0].connected && t.workers[0].used == 1 && t.workers[0].credits == 0
      && t.workers[0].releasedTotal == MIB
  {
  }

  /** The heartbeat of an overdrawn worker claims a negative number of bytes. */
  lemma NegativeHeartbeat(s: System)
    requires 0 in s.workers && 0 in s.primary.clients && s.workers[0].remote && s.workers[0].connected
    requires s.workers[0].used == 1 && s.workers[0].credits == 0 && s.workers[0].releasedTotal > 0
    ensures SampleDelivered(s, 0) == (s.primary, s.workers[0])
  {
    assert Excess(s.workers[0]) == 0 - MIB;
  }

  /** A concrete run after which a delivered heartbeat heals nothing: the worker is overdrawn, its lost release
      of one mebibyte stays on the primary's books, and the primary ignores the message. */
  lemma AnOverdrawnWorkerDoesNotHeal()
    ensures
      var s := Run(Beginning(), Overdrawn());
      && Reachable(s) && 0 in s.primary.clients && 0 in s.workers && 0 in s.credited
      && s.workers[0].connected && s.workers[0].used > s.workers[0].credits
      && SampleDelivered(s, 0).0.clients == s.primary.clients && s.primary.clients[0].bytes == MIB
      && SampleDelivered(s, 0).1.credits + InTransit(s.primary.clients[0], s.credited[0]) == 0
  {
    var sample := WorkerStep(0, SampleOp(0, ROOMY));
    AfterCredited();
    RunOneMore(Beginning(), Credited(), sample);
    RunOneMore(Beginning(), Credited() + [sample], WorkerStep(0, LeaseOp(1)));
    assert Reachable(Run(Beginning(), Overdrawn()));
    hide Run, Credited, Next, SampleDelivered;
    OverdrawnStep(Run(Beginning(), Credited()));
    NegativeHeartbeat(Run(Beginning(), Overdrawn()));
  }

  // ---------------------------------------------------------------------------------------
  // Bytes in use
  // ---------------------------------------------------------------------------------------

  /** Admission was on when every worker started and was never switched off. */
  ghost predicate AdmissionStaysOn(actions: seq<Action>) {
    forall i :: 0 <= i < |actions| ==>
      && (actions[i].ForkWorker? ==> actions[i].enabled)
      && (actions[i].WorkerStep? ==> actions[i].op != SetEnabledOp(false))
  }

  ghost predicate AllAdmitted(s: System) {
    forall w :: w in s.workers ==> s.workers[w].remote && Accounts(s.workers[w]) && Admitted(s.workers[w])
  }

  lemma NextKeepsAdmission(s: System, a: Action)
    requires s.primary.budget.Valid() && AllAdmitted(s) && AdmissionStaysOn([a])
    ensures AllAdmitted(Next(s, a))
  {
    assert [a][0] == a;
    if Possible(s, a) {
      match a
      case ForkWorker(w, enabled) => FreshIsAdmitted(true, 0, 0);
      case WorkerStep(w, op) =>
        PerformKeepsAccounts(s.workers[w], op);
        PerformKeepsAdmission(s.workers[w], op);
      case DeliverToWorker(w, r) =>
        PerformKeepsAccounts(s.workers[w], ReplyOp(r));
        PerformKeepsAdmission(s.workers[w], ReplyOp(r));
      case _ =>
    }
  }

  lemma {:induction false} RunKeepsAdmission(s: System, actions: seq<Action>)
    requires s.primary.budget.Valid() && AllAdmitted(s) && AdmissionStaysOn(actions)
    ensures AllAdmitted(Run(s, actions))
    decreases |actions|
  {
    if actions != [] {
      assert [actions[0]][0] == actions[0];
      NextKeepsAdmission(s, actions[0]);
      RunKeepsAdmission(Next(s, actions[0]), actions[1..]);
    }
  }

  /**
   End to end: with admission on from the start, under every interleaving of leases, samples,
   messages and exits, each worker's bytes in use are its live leases and fit its credits, and
   all attached workers together stay within the primary's hot budget.
   */
  lemma BytesInUseNeverExceedTheBudget(
      budget: Budget, snapshot: ResourceSnapshot, workerCount: nat, actions: seq<Action>)
    requires budget.Valid() && 0 < workerCount && AdmissionStaysOn(actions)
    ensures
      var s := Run(Start(budget, snapshot, workerCount), actions);
      && (forall w :: w in s.workers ==> s.workers[w].used == Sum(s.workers[w].leases) <= s.workers[w].credits)
      && Sum(AttachedUse(s)) <= s.primary.control.ceiling
  {
    var s := Run(Start(budget, snapshot, workerCount), actions);
    assert Reachable(s);
    CreditsNeverExceedTheBudget(s);
    RunKeepsAdmission(Start(budget, snapshot, workerCount), actions);
    SumMonotone(AttachedUse(s), AttachedCredits(s));
  }

  /** Switched off once, admission may overdraw: the bound above needs its precondition. */
  lemma DisabledAdmissionMayOverdraw(budget: Budget, snapshot: ResourceSnapshot)
    requires budget.Valid()
    ensures
      var s := Run(Start(budget, snapshot, 2), [ForkWorker(0, false), WorkerStep(0, LeaseOp(1))]);
      0 in s.workers && s.workers[0].used > s.workers[0].credits
  {
    var actions := [ForkWorker(0, false), WorkerStep(0, LeaseOp(1))];
    var s0 := Start(budget, snapshot, 2);
    var s1 := Next(s0, actions[0]);
    var s2 := Next(s1, actions[1]);
    assert actions[1..] == [actions[1]] && actions[1..][1..] == [];
    assert Run(s0, actions) == Run(s1, actions[1..]) == Run(s2, []) == s2;
  }

  // ---------------------------------------------------------------------------------------
  // Opening admission
  // ---------------------------------------------------------------------------------------

  /** Admission opens at the moment the last worker reports ready, and at no other step. */
  lemma AdmissionOpensWhenAllAreReady(s: System, a: Action)
    requires Reachable(s) && !s.primary.baselineReset
    ensures |s.ready| < s.workerCount
    ensures forall w :: w in s.primary.clients && w in s.workers ==> s.workers[w].credits == 0
    ensures Next(s, a).primary.baselineReset <==>
              a.WorkerReady? && Possible(s, a) && |Next(s, a).ready| == s.workerCount
  {
    ReachableHasInv(s);
    MC.NoClientExceedsGranted(s.primary);
  }
}
