/** What every event of the WebSocket tunnel does, exactly, in every reachable state. */
module TunnelOutcomes {
  import opened Wrappers
  import opened Tunnel
  import opened TunnelProofs
  import opened TunnelClosing
  import opened TunnelResults

  // ---------------------------------------------------------------------------------------
  // Sending
  // ---------------------------------------------------------------------------------------

  /** The frames accepted by the send state in use. */
  function Accepted(o: Outbound): seq<OutFrame> {
    if o.active then o.accepted else []
  }

  function TerminalFrame(bytes: nat, turn: TurnId): OutFrame {
    OutFrame(bytes, AcknowledgeTerminal(turn), SettleAndClose(turn))
  }

  lemma CallbackKeepsAccepted(c: Connection, cb: Callback)
    ensures RunCallback(c, cb).out.accepted == c.out.accepted
  {
    hide SettleCurrent, ForceSettleResponse, SettleResponse;
    SettlingOnlySettles(c.(closed := true));
  }

  lemma SettlingOnlySettles(c: Connection)
    ensures SettleCurrent(c) == c.(turn := SettleCurrent(c).turn)
  {
  }

  lemma FailingKeepsAccepted(c: Connection, onFailure: Callback)
    ensures FailOutbound(c, onFailure).out.accepted == c.out.accepted
  {
    hide RunCallback;
    CallbackKeepsAccepted(c.(out := Invalidate(c.out)), onFailure);
  }

  lemma FlushKeepsAccepted(c: Connection, throws: bool)
    ensures Flush(c, throws).out.accepted == c.out.accepted
  {
    hide FailOutbound;
    var o := c.out;
    if o.queue != [] {
      var next := o.queue[0];
      FailingKeepsAccepted(c.(out := o.(queue := o.queue[1..])), next.onFailure);
      FailingKeepsAccepted(
        c.(out := o.(queue := o.queue[1..], inFlight := Some(next), deadline := true, sent := o.sent + [next])),
        next.onFailure);
    }
  }

  /** With nothing in flight the frame is handed over at once, so a throw loses the client; else it waits. */
  lemma EnqueuedIsHandedOver(c: Connection, f: OutFrame, response: Option<TurnId>, throws: bool)
    requires Sound(c) && Live(c) && !f.onFailure.AcknowledgeTerminal?
    requires c.out.bytes + f.bytes <= MAX_PENDING_OUTBOUND_BYTES
    ensures
      var d := Flush(c.(out := Enqueued(c.out, f, response)), throws);
      if throws && c.out.inFlight.None? then !Live(d)
      else
        && Live(d) && SameButOut(c, d) && Waiting(d.out) == Waiting(c.out) + [f] && d.out.active
        && d.out.bytes == c.out.bytes + f.bytes
  {
    hide FailOutbound, InboundInv, TurnFlags, TotalBytes, FramesOwed;
    EnqueueKeepsBooks(c.out, f, response);
    EnqueuedIsClosable(c, f, response);
    PausingKeepsQueue(c.out, response);
    var queued := c.(out := Enqueued(c.out, f, response));
    if c.out.inFlight.None? {
      StartSending(queued.out);
      FailingLosesTheClient(Failing(queued), f.onFailure);
    }
  }

  /** A frame is accepted exactly if it fits beside the bytes that wait; then it is the last one waiting, and nothing
      else changes, unless handing it over throws. A frame that is refused loses the client. */
  lemma SendOutcome(c: Connection, f: OutFrame, response: Option<TurnId>, throws: bool)
    requires Sound(c) && Live(c) && !f.onFailure.AcknowledgeTerminal?
    ensures
      var (d, sent) := SafeSend(c, f, response, throws);
      && (sent <==> (if c.out.active then c.out.bytes else 0) + f.bytes <= 1024 * 1024)
      && (Live(d) <==> sent && (!throws || c.out.inFlight.Some?))
      && (Live(d) ==>
            && d == c.(out := d.out) && Accepted(d.out) == Accepted(c.out) + [f]
            && Waiting(d.out) == Waiting(c.out) + [f] && d.out.bytes == c.out.bytes + f.bytes)
  {
    hide FailOutbound, Flush, RunCallback, InboundInv, TurnFlags, FramesOwed, Waiting, TotalBytes, SameButOut;
    BytesKeptByPausing(c, response);
    assert !c.out.active ==> c.out.bytes == 0;
    if c.out.bytes + f.bytes > MAX_PENDING_OUTBOUND_BYTES {
      OverflowLosesTheClient(c, f, response);
    } else {
      EnqueuedIsHandedOver(c, f, response, throws);
      FlushKeepsAccepted(c.(out := Enqueued(c.out, f, response)), throws);
      SameOut(c, Flush(c.(out := Enqueued(c.out, f, response)), throws));
    }
  }

  /** As long as the client can be reached, a frame that is sent is accepted, and no other one is. */
  lemma SendingAccepts(c: Connection, f: OutFrame, response: Option<TurnId>, throws: bool)
    requires Sound(c) && !c.closed && !f.onFailure.AcknowledgeTerminal?
    ensures
      var d := SafeSend(c, f, response, throws).0;
      Live(d) ==> Accepted(d.out) == Accepted(c.out) + [f]
  {
    hide RunCallback, FailOutbound, Flush, Sound, Accepted, Waiting;
    if c.open {
      SendOutcome(c, f, response, throws);
    } else {
      SendToClosedSocket(c, f);
    }
  }

  lemma SameOut(c: Connection, d: Connection)
    ensures SameButOut(c, d) <==> d == c.(out := d.out)
  {
  }

  /** Acceptance of an outbound frame is exact in every reachable state. */
  lemma SendsAreAcceptedExactly(c: Connection, f: OutFrame, response: Option<TurnId>, throws: bool)
    requires Reachable(c) && !f.onFailure.AcknowledgeTerminal?
    ensures
      var (d, sent) := SafeSend(c, f, response, throws);
      && (!c.open ==> !sent)
      && (Live(c) ==>
            && (sent <==> (if c.out.active then c.out.bytes else 0) + f.bytes <= 1024 * 1024)
            && (Live(d) <==> sent && (!throws || c.out.inFlight.Some?))
            && (Live(d) ==>
                  && d == c.(out := d.out) && Accepted(d.out) == Accepted(c.out) + [f]
                  && Waiting(d.out) == Waiting(c.out) + [f] && d.out.bytes == c.out.bytes + f.bytes))
  {
    hide SafeSend, Sound, Waiting;
    ReachableHasInv(c);
    if Live(c) {
      SendOutcome(c, f, response, throws);
    } else if !c.open {
      ClosedSocketAcceptsNothing(c, f, response, throws);
    }
  }

  lemma ClosedSocketAcceptsNothing(c: Connection, f: OutFrame, response: Option<TurnId>, throws: bool)
    requires !c.open
    ensures !SafeSend(c, f, response, throws).1
  {
  }

  /** What `d` must be when the frame f was sent from `c`, which could be reached: lost exactly if it did not fit or
      could not be handed over. */
  ghost predicate SentOrLost(c: Connection, f: OutFrame, throws: bool, d: Connection) {
    && (Live(d) <==> c.out.bytes + f.bytes <= 1024 * 1024 && (!throws || c.out.inFlight.Some?))
    && (Live(d) ==>
          && d == c.(out := d.out) && Accepted(d.out) == Accepted(c.out) + [f]
          && Waiting(d.out) == Waiting(c.out) + [f] && d.out.bytes == c.out.bytes + f.bytes)
  }

  lemma SendIsSentOrLost(c: Connection, f: OutFrame, response: Option<TurnId>, throws: bool)
    requires Sound(c) && Live(c) && !f.onFailure.AcknowledgeTerminal?
    ensures
      var (d, sent) := SafeSend(c, f, response, throws);
      && SentOrLost(c, f, throws, d)
      && (sent <==> c.out.bytes + f.bytes <= 1024 * 1024)
  {
    hide SafeSend, Waiting;
    SendOutcome(c, f, response, throws);
    assert !c.out.active ==> c.out.bytes == 0;
  }

  /** A callback keeps a lost client lost. */
  lemma LostStaysLost(c: Connection, cb: Callback)
    requires !Live(c)
    ensures !Live(RunCallback(c, cb))
  {
    hide RunCallback, Later;
    CallbackFollows(c, cb);
  }

  // ---------------------------------------------------------------------------------------
  // Inbound frames and their turns
  // ---------------------------------------------------------------------------------------

  /** The turn a frame is given: a request that was made and is not settled, or a refusal that is. */
  predicate TurnOf(f: InFrame, t: Turn) {
    && t.requested == f.kind.Create? && t.resolved == t.turnFinished == f.kind.Rejected?
    && (f.kind.Create? ==> t.registered && t.bodyFinished == f.kind.bodyAccepted)
    && !t.responded && !t.responseSettled && !t.fatalQueued && !t.terminalSent && !t.bodyEnded && !t.ack
  }

  /** The connection that has just given its slot to frame f. */
  function Given(c: Connection, f: InFrame): Connection {
    c.(turn := Some(NewTurn(c.turnSequence + 1, f.kind)), turnSequence := c.turnSequence + 1,
       started := c.started + [f], inbound := if c.inbound == [] then [] else c.inbound[1..],
       inboundBytes := c.inboundBytes - f.size)
  }

  lemma GivenIsSound(c: Connection)
    requires Asleep(c) && c.turn.None? && c.inbound != []
    ensures Sound(Given(c, c.inbound[0]))
  {
    hide OutboundInv, Carried, Waiting;
    var f := c.inbound[0];
    var d := Given(c, f);
    assert c.inbound == [f] + d.inbound;
    assert c.arrived == d.started + d.inbound;
    forall g | g in Waiting(d.out) ensures Owed(d, g) {
      assert Owed(c, g);
    }
  }

  /** A free slot goes to the frame that waited longest; a frame that is refused is answered at once. */
  lemma DrainOutcome(c: Connection, throws: bool)
    requires Asleep(c) && c.turn.None? && c.inbound != []
    ensures
      var f := c.inbound[0];
      var d := Drain(c, throws);
      && d.turn.Some? && d.turn.value.id == d.turnSequence == c.turnSequence + 1 && TurnOf(f, d.turn.value)
      && d.started == c.started + [f] && (!d.closed ==> d.inbound == c.inbound[1..])
      && (f.kind.Create? ==> d.out == c.out && d.open == c.open && d.closed == c.closed)
      && (f.kind.Rejected? && Live(c) ==>
            SentOrLost(Given(c, f), OutFrame(f.kind.errorBytes, NoCallback, NoCallback), throws, d))
  {
    hide SafeSend, Waiting, Sound, SentOrLost;
    var f := c.inbound[0];
    GivenIsSound(c);
    if f.kind.Rejected? {
      var error := OutFrame(f.kind.errorBytes, NoCallback, NoCallback);
      QuietErrorKeepsTheTurn(Given(c, f), error, throws);
      if Live(c) {
        SendIsSentOrLost(Given(c, f), error, None, throws);
      }
    }
  }

  /** A frame without callbacks can cost the client, but it never settles the turn or drops the queue. */
  lemma QuietErrorKeepsTheTurn(c: Connection, f: OutFrame, throws: bool)
    requires Sound(c) && f.onSuccess.NoCallback? && f.onFailure.NoCallback?
    ensures
      var d := SafeSend(c, f, None, throws).0;
      d == c.(out := d.out, open := d.open)
  {
    assert c.out.inFlight.None? ==> c.out.queue == [];
    PausingKeepsQueue(c.out, None);
    hide Sound, Invalidate, Paused;
  }

  /** A resolved turn frees its slot, and the frame that waited longest takes it at once; an unresolved one keeps it. */
  lemma ResolvedTurnsFreeTheSlot(c: Connection, throws: bool)
    requires Reachable(c) && c.turn.Some?
    ensures
      var d := Next(c, TurnResolved(throws));
      if !c.turn.value.resolved then d == c
      else if c.inbound == [] then d == c.(turn := None)
      else d.started == c.started + [c.inbound[0]] && d.turn.Some? && d.turn.value.id == c.turnSequence + 1
           && TurnOf(c.inbound[0], d.turn.value)
  {
    hide Drain, OutboundInv, Carried, Waiting;
    ReachableHasInv(c);
    if c.turn.value.resolved && c.inbound != [] {
      var d := c.(turn := None);
      forall g | g in Waiting(d.out) ensures Owed(d, g) {
        assert Owed(c, g);
      }
      DrainOutcome(d, throws);
    }
  }

  /** A frame that an idle connection accepts is started at once. */
  lemma IdleConnectionsStartTheFrame(c: Connection, f: InFrame, n: nat, throws: bool)
    requires Reachable(c) && c.turn.None? && !c.closed && !c.closing && f.size <= 64 * 1024 * 1024
    ensures
      var d := Next(c, Message(f, false, n, throws));
      && d.started == c.started + [f] && d.turn.Some? && d.turn.value.id == c.turnSequence + 1
      && TurnOf(f, d.turn.value) && d.inbound == []
      && (f.kind.Create? ==> d.out == c.out && d.open == c.open)
  {
    hide Drain, OutboundInv, Carried, Waiting;
    ReachableHasInv(c);
    var d := c.(inbound := c.inbound + [f], inboundBytes := c.inboundBytes + f.size, arrived := c.arrived + [f]);
    TotalSizeAppend(c.inbound, [f]);
    assert TotalSize([f]) == f.size + TotalSize([f][1..]);
    assert d.arrived == d.started + d.inbound;
    forall g | g in Waiting(d.out) ensures Owed(d, g) {
      assert Owed(c, g);
    }
    DrainOutcome(d, throws);
    DrainKeepsOrder(d, throws);
  }

  /** Giving the slot away closes nothing. */
  lemma DrainKeepsOrder(c: Connection, throws: bool)
    requires Asleep(c) && !c.closed && c.turn.None? && c.inbound != []
    ensures !Drain(c, throws).closed
  {
    hide SafeSend, Sound;
    GivenIsSound(c);
    var f := c.inbound[0];
    if f.kind.Rejected? {
      QuietErrorKeepsTheTurn(Given(c, f), OutFrame(f.kind.errorBytes, NoCallback, NoCallback), throws);
    }
  }

  // ---------------------------------------------------------------------------------------
  // Events of the response
  // ---------------------------------------------------------------------------------------

  /** The first response of a request is listened to, unless it comes too late: then its turn is settled. */
  lemma ResponsesAreListenedTo(c: Connection, sse: bool)
    requires Reachable(c) && c.turn.Some? && c.turn.value.requested && !c.turn.value.responded
    ensures
      var d := Next(c, Response(sse));
      && d == c.(turn := d.turn) && IsCurrent(d, c.turn.value.id) && d.turn.value.responded && d.turn.value.sse == sse
      && (if c.closed || c.closing || c.turn.value.resolved then
            && d.turn.value.responseSettled
            && (d.turn.value.resolved <==> c.turn.value.resolved || !c.turn.value.turnFinished)
          else
            Listening(d) && d.turn.value == c.turn.value.(responded := true, sse := sse, registered := true))
  {
    hide InboundInv, OutboundInv, FramesOwed, Obligations, Prompt;
    ReachableHasInv(c);
  }

  /** A fatal error is sent once, with the callbacks that settle the turn and close the connection. */
  lemma FatalErrorOutcome(c: Connection, n: nat, throws: bool)
    requires Sound(c) && Live(c) && Listening(c)
    ensures
      var cb := SettleAndClose(c.turn.value.id);
      SentOrLost(UpdateTurn(c, c.turn.value.(fatalQueued := true)), OutFrame(n, cb, cb), throws,
                 SendFatalError(c, n, throws))
  {
    hide SafeSend, RunCallback, Waiting, InboundInv, OutboundInv, FramesOwed;
    var t := c.turn.value;
    var cb := SettleAndClose(t.id);
    var marked := UpdateTurn(c, t.(fatalQueued := true));
    TurnUpdateKeepsInbound(c, marked);
    SendIsSentOrLost(marked, OutFrame(n, cb, cb), Some(t.id), throws);
    var d := SafeSend(marked, OutFrame(n, cb, cb), Some(t.id), throws).0;
    if !Live(d) {
      LostStaysLost(d, cb);
    }
  }

  lemma TerminalOutcome(c: Connection, n: nat, throws: bool)
    requires Sound(c) && Live(c) && Listening(c) && (c.turn.value.sse || c.turn.value.bodyEnded)
    ensures
      SentOrLost(UpdateTurn(c, c.turn.value.(terminalSent := true)), TerminalFrame(n, c.turn.value.id), throws,
                 SendTerminal(c, n, throws))
  {
    hide SafeSend, Waiting, InboundInv, OutboundInv, FramesOwed;
    var t := c.turn.value;
    var marked := UpdateTurn(c, t.(terminalSent := true));
    TurnUpdateKeepsInbound(c, marked);
    SendIsSentOrLost(marked, TerminalFrame(n, t.id), Some(t.id), throws);
  }

  /** The end of a JSON body sends it, as the terminal frame of the turn. */
  lemma JsonBodiesAreSent(c: Connection, tail: seq<SseEvent>, oversize: bool, n: nat, throws: bool)
    requires Reachable(c) && Live(c) && Listening(c) && !c.turn.value.sse
    ensures
      var t := c.turn.value.(over := true, bodyEnded := true, terminalSent := true);
      SentOrLost(UpdateTurn(c, t), TerminalFrame(n, t.id), throws, Next(c, End(tail, oversize, n, throws)))
  {
    hide SendTerminal, InboundInv, OutboundInv, FramesOwed, SentOrLost;
    ReachableHasInv(c);
    BodyEndedKeepsSound(c);
    TerminalOutcome(UpdateTurn(c, EndBody(c.turn.value)), n, throws);
  }

  /** The end of a stream, after its last events were forwarded: if a terminal event was sent the turn is settled
      as soon as that is acknowledged; a stream without one, or with an oversize tail, ends in a fatal error. */
  lemma StreamsEndExactly(c: Connection, tail: seq<SseEvent>, oversize: bool, n: nat, throws: bool)
    requires Reachable(c) && Live(c) && Listening(c) && c.turn.value.sse
    ensures
      var e := ProcessEvents(UpdateTurn(c, c.turn.value.(over := true, bodyEnded := true)), tail, throws);
      var d := Next(c, End(tail, oversize, n, throws));
      Live(e) ==>
        && e.turn.Some?
        && (if oversize || !e.turn.value.terminalSent then
              var cb := SettleAndClose(e.turn.value.id);
              SentOrLost(UpdateTurn(e, e.turn.value.(fatalQueued := true)), OutFrame(n, cb, cb), throws, d)
            else
              d == e.(turn := d.turn) && SettledIfAcknowledged(e.turn.value, d.turn))
  {
    hide ProcessEvents, InboundInv, OutboundInv, FramesOwed, SentOrLost, SendFatalError, Obligations;
    ReachableHasInv(c);
    BodyEndedKeepsSound(c);
    var y := UpdateTurn(c, EndBody(c.turn.value));
    var e := ProcessEvents(y, tail, throws);
    EventsKeepObligations(y, tail, throws);
    if Live(e) {
      FatalErrorOutcome(e, n, throws);
      SettlesIfAcknowledged(e.turn.value.(bodyEnded := true));
    }
  }

  /** The turn whose body has ended: resolved if its terminal frame was acknowledged, and else as it was. */
  predicate SettledIfAcknowledged(t: Turn, now: Option<Turn>) {
    && now.Some? && now.value.bodyEnded && now.value.over == t.over && now.value.fatalQueued == t.fatalQueued
    && now.value.id == t.id && now.value.terminalSent == t.terminalSent && now.value.ack == t.ack
    && (if t.ack && !t.responseSettled then now.value.resolved && now.value.turnFinished && now.value.responseSettled
        else now.value.resolved == t.resolved && now.value.turnFinished == t.turnFinished)
  }

  lemma SettlesIfAcknowledged(t: Turn)
    requires t.bodyEnded
    ensures SettledIfAcknowledged(t, Some(SettleResponse(t)))
  {
  }

  /** After a terminal event `error` and `close` only end the body; before one, `error` is fatal, and so is `close`
      unless the response is marked complete or its body had ended. */
  lemma TransportEndsExactly(c: Connection, complete: bool, n: nat, throws: bool)
    requires Reachable(c) && Live(c) && Listening(c)
    ensures
      var over := c.turn.value.(over := true);
      var cb := SettleAndClose(over.id);
      var (failed, closed) := (Next(c, TransportError(n, throws)), Next(c, TransportClose(complete, n, throws)));
      && (if over.sse && over.terminalSent then
            failed == c.(turn := failed.turn) && SettledIfAcknowledged(over, failed.turn)
          else
            SentOrLost(UpdateTurn(c, over.(fatalQueued := true)), OutFrame(n, cb, cb), throws, failed))
      && (if over.bodyEnded || complete || (over.sse && over.terminalSent) then
            closed == c.(turn := closed.turn) && SettledIfAcknowledged(over, closed.turn)
          else
            SentOrLost(UpdateTurn(c, over.(fatalQueued := true)), OutFrame(n, cb, cb), throws, closed))
  {
    hide InboundInv, OutboundInv, FramesOwed, SentOrLost, SendFatalError, Obligations, Prompt, SettledIfAcknowledged;
    ReachableHasInv(c);
    OverKeepsSound(c);
    var d := MarkOver(c);
    FatalErrorOutcome(d, n, throws);
    EndedIfAcknowledged(d.turn.value);
  }

  lemma EndedIfAcknowledged(t: Turn)
    ensures SettledIfAcknowledged(t, Some(SettleResponse(t.(bodyEnded := true))))
    ensures SettledIfAcknowledged(t, Some(SettleResponse(MarkCutShort(t).(bodyEnded := true))))
  {
    hide SettleResponse, SettledIfAcknowledged, MarkCutShort;
    CutShortKeepsTerminal(t);
    EndedBodySettles(t, t.cutShort);
    EndedBodySettles(t, MarkCutShort(t).cutShort);
  }

  lemma EndedBodySettles(t: Turn, cutShort: bool)
    ensures SettledIfAcknowledged(t, Some(SettleResponse(t.(cutShort := cutShort, bodyEnded := true))))
  {
    hide SettleResponse, SettledIfAcknowledged;
    var u := t.(cutShort := cutShort, bodyEnded := true);
    SettlesIfAcknowledged(u);
    SettlingIgnoresTheBody(t, u, Some(SettleResponse(u)));
  }

  lemma SettlingIgnoresTheBody(t: Turn, u: Turn, now: Option<Turn>)
    requires u == t.(bodyEnded := u.bodyEnded, cutShort := u.cutShort)
    ensures SettledIfAcknowledged(t, now) <==> SettledIfAcknowledged(u, now)
  {
  }

  /** An oversize chunk is fatal once the events before it were forwarded. */
  lemma OversizeIsFatal(c: Connection, events: seq<SseEvent>, n: nat, throws: bool)
    requires Reachable(c) && Live(c) && Listening(c)
    ensures
      var e := if c.turn.value.sse then ProcessEvents(c, events, throws) else c;
      var d := Next(c, Data(events, true, n, throws));
      Live(e) ==>
        && e.turn.Some?
        && var cb := SettleAndClose(e.turn.value.id);
           SentOrLost(UpdateTurn(e, e.turn.value.(fatalQueued := true)), OutFrame(n, cb, cb), throws, d)
    ensures
      Next(c, Data(events, false, n, throws)) == if c.turn.value.sse then ProcessEvents(c, events, throws) else c
  {
    hide ProcessEvents, InboundInv, OutboundInv, FramesOwed, SentOrLost, SendFatalError, Obligations;
    ReachableHasInv(c);
    var e := if c.turn.value.sse then ProcessEvents(c, events, throws) else c;
    if c.turn.value.sse {
      EventsKeepObligations(c, events, throws);
    }
    if Live(e) {
      FatalErrorOutcome(e, n, throws);
    }
  }

  // ---------------------------------------------------------------------------------------
  // Events of the request and of the socket
  // ---------------------------------------------------------------------------------------

  lemma FailRequestOutcome(c: Connection, n: nat, throws: bool)
    requires Inv(c) && Live(c) && c.turn.Some? && !c.turn.value.resolved
    ensures
      var t := c.turn.value.(turnFinished := true, bodyFinished := true);
      var cb := FinishRequestFailure(t.id);
      SentOrLost(UpdateTurn(c, t), OutFrame(n, cb, cb), throws, FailRequest(c, n, throws))
  {
    hide SafeSend, RunCallback, Waiting, Sound;
    var marked := UpdateTurn(c, c.turn.value.(turnFinished := true, bodyFinished := true));
    var cb := FinishRequestFailure(c.turn.value.id);
    FailedRequestIsSound(c, n);
    SendIsSentOrLost(marked, OutFrame(n, cb, cb), None, throws);
    var d := SafeSend(marked, OutFrame(n, cb, cb), None, throws).0;
    if !Live(d) {
      LostStaysLost(d, cb);
    }
  }

  /** A request that fails reports it, with the callbacks that close the connection and resolve the turn, exactly
      if its turn was not finished; a body that is abandoned or expires does so exactly if it was not written. */
  lemma RequestsFailExactly(c: Connection, n: nat, throws: bool)
    requires Reachable(c) && Live(c) && c.turn.Some? && c.turn.value.requested
    ensures
      var t := c.turn.value;
      var cb := FinishRequestFailure(t.id);
      var (report, marked) := (OutFrame(n, cb, cb), UpdateTurn(c, t.(turnFinished := true, bodyFinished := true)));
      && (if t.turnFinished then Next(c, RequestFailed(n, throws)) == c
          else SentOrLost(marked, report, throws, Next(c, RequestFailed(n, throws))))
      && (if t.bodyFinished then Next(c, BodyExpired(n, throws)) == c
          else SentOrLost(marked, report, throws, Next(c, BodyExpired(n, throws))))
      && (if t.bodyFinished then Next(c, BodyClosed(n, throws)) == c
          else SentOrLost(marked, report, throws, Next(c, BodyClosed(n, throws))))
  {
    hide FailRequest, InboundInv, OutboundInv, Obligations, FramesOwed, Prompt, SentOrLost;
    ReachableHasInv(c);
    if !c.turn.value.resolved {
      FailRequestOutcome(c, n, throws);
    }
  }

  /** A written body can no longer be abandoned or expire; and the peer's closing handshake is noticed. */
  lemma WrittenBodiesStayWritten(c: Connection)
    requires Reachable(c)
    ensures
      var d := Next(c, BodyDrained);
      d == if c.turn.Some? then UpdateTurn(c, c.turn.value.(bodyFinished := true)) else c
    ensures Next(c, PeerCloses) == c.(open := false)
  {
  }
}
