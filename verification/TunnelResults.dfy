/** The promises of the WebSocket tunnel, for every run of its events. */
module TunnelResults {
  import opened Wrappers
  import opened Tunnel
  import opened TunnelClosing
  import opened TunnelProofs

  // ---------------------------------------------------------------------------------------
  // What no step takes back
  // ---------------------------------------------------------------------------------------

  /** Closing is final, the history of frames started is append-only, and so is that of each send epoch. */
  predicate Ahead(c: Connection, d: Connection) {
    && (c.closed ==> d.closed) && (c.closing ==> d.closing) && (!c.open ==> !d.open)
    && Later(c.out, d.out)
    && c.started <= d.started
    && (c.closed || c.closing ==> d.started == c.started)
  }

  /** A step that starts no frame. */
  predicate StartsNothing(c: Connection, d: Connection) {
    Ahead(c, d) && d.started == c.started
  }

  lemma FollowingStartsNothing(c: Connection, d: Connection)
    requires Follows(c, d)
    ensures StartsNothing(c, d)
  {
  }

  lemma AheadTwice(c: Connection, d: Connection, e: Connection)
    requires Ahead(c, d) && Ahead(d, e)
    ensures Ahead(c, e)
    ensures c.started == d.started == e.started ==> StartsNothing(c, e)
  {
  }

  lemma SafeSendIsAhead(c: Connection, f: OutFrame, response: Option<TurnId>, throws: bool)
    ensures StartsNothing(c, SafeSend(c, f, response, throws).0)
  {
    hide SafeSend, Follows;
    SafeSendFollows(c, f, response, throws);
    FollowingStartsNothing(c, SafeSend(c, f, response, throws).0);
  }

  lemma CallbackIsAhead(c: Connection, cb: Callback)
    ensures StartsNothing(c, RunCallback(c, cb))
  {
    hide RunCallback, Follows;
    CallbackFollows(c, cb);
    FollowingStartsNothing(c, RunCallback(c, cb));
  }

  lemma SendOrRunIsAhead(c: Connection, t: Turn, f: OutFrame, response: Option<TurnId>, throws: bool)
    ensures
      var (d, sent) := SafeSend(UpdateTurn(c, t), f, response, throws);
      StartsNothing(c, if sent then d else RunCallback(d, f.onFailure))
  {
    hide SafeSend, RunCallback, Later;
    var (d, sent) := SafeSend(UpdateTurn(c, t), f, response, throws);
    SameQueueIsLater(c.out);
    SafeSendIsAhead(UpdateTurn(c, t), f, response, throws);
    CallbackIsAhead(d, f.onFailure);
    AheadTwice(UpdateTurn(c, t), d, RunCallback(d, f.onFailure));
  }

  lemma FatalErrorIsAhead(c: Connection, bytes: nat, throws: bool)
    ensures StartsNothing(c, SendFatalError(c, bytes, throws))
  {
    hide SafeSend, RunCallback, Later;
    SameQueueIsLater(c.out);
    if Listening(c) {
      var t := c.turn.value;
      var cb := SettleAndClose(t.id);
      SendOrRunIsAhead(c, t.(fatalQueued := true), OutFrame(bytes, cb, cb), Some(t.id), throws);
    }
  }

  lemma EventsAreAhead(c: Connection, events: seq<SseEvent>, throws: bool)
    requires Sound(c) && Obligations(c, NoCallback) && c.turn.Some? && c.turn.value.sse
    ensures StartsNothing(c, ProcessEvents(c, events, throws))
  {
    hide ProcessEvents, Sound, Obligations, Follows;
    EventsKeepObligations(c, events, throws);
    FollowingStartsNothing(c, ProcessEvents(c, events, throws));
  }

  lemma ResponseDataIsAhead(c: Connection, events: seq<SseEvent>, oversize: bool, n: nat, throws: bool)
    requires Inv(c)
    ensures StartsNothing(c, ResponseData(c, events, oversize, n, throws))
  {
    hide ProcessEvents, SendFatalError, Sound, Obligations, Later;
    SameQueueIsLater(c.out);
    if Listening(c) {
      var d := if c.turn.value.sse then ProcessEvents(c, events, throws) else c;
      if c.turn.value.sse {
        EventsAreAhead(c, events, throws);
      }
      FatalErrorIsAhead(d, n, throws);
      AheadTwice(c, d, SendFatalError(d, n, throws));
    }
  }

  lemma SendTerminalIsAhead(c: Connection, n: nat, throws: bool)
    requires c.turn.Some?
    ensures StartsNothing(c, SendTerminal(c, n, throws))
  {
    hide SafeSend, Later;
    var t := c.turn.value;
    SafeSendIsAhead(UpdateTurn(c, t.(terminalSent := true)),
                    OutFrame(n, AcknowledgeTerminal(t.id), SettleAndClose(t.id)), Some(t.id), throws);
  }

  lemma FinishBodyIsAhead(d: Connection, tail: seq<SseEvent>, oversize: bool, n: nat, throws: bool)
    requires Sound(d) && Obligations(d, NoCallback) && d.turn.Some?
    ensures StartsNothing(d, FinishBody(d, tail, oversize, n, throws))
  {
    hide ProcessEvents, SendFatalError, SendTerminal, Sound, Obligations, Later;
    SendTerminalIsAhead(d, n, throws);
    if d.turn.value.sse {
      var e := ProcessEvents(d, tail, throws);
      EventsAreAhead(d, tail, throws);
      SameQueueIsLater(e.out);
      FatalErrorIsAhead(e, n, throws);
      AheadTwice(d, e, SendFatalError(e, n, throws));
      AheadTwice(d, e, Settle(e));
    }
  }

  lemma ResponseEndIsAhead(c: Connection, tail: seq<SseEvent>, oversize: bool, n: nat, throws: bool)
    requires Inv(c)
    ensures StartsNothing(c, ResponseEnd(c, tail, oversize, n, throws))
  {
    hide FinishBody, Inv, Sound, Obligations, Later;
    SameQueueIsLater(c.out);
    if Listening(c) {
      BodyEndedKeepsSound(c);
      FinishBodyIsAhead(UpdateTurn(c, EndBody(c.turn.value)), tail, oversize, n, throws);
    }
  }

  lemma ResponseFailureIsAhead(c: Connection, complete: bool, n: nat, throws: bool)
    ensures StartsNothing(c, ResponseError(c, n, throws))
    ensures StartsNothing(c, ResponseClose(c, complete, n, throws))
  {
    hide SendFatalError, Later;
    SameQueueIsLater(c.out);
    if c.turn.Some? {
      FatalErrorIsAhead(UpdateTurn(c, c.turn.value.(over := true)), n, throws);
    }
  }

  lemma RequestFailureIsAhead(c: Connection, n: nat, throws: bool)
    ensures StartsNothing(c, RequestError(c, n, throws))
    ensures StartsNothing(c, RequestBodyClosed(c, n, throws))
    ensures StartsNothing(c, RequestBodyExpired(c, n, throws))
  {
    hide SafeSend, RunCallback, Later;
    SameQueueIsLater(c.out);
    if c.turn.Some? {
      var t := c.turn.value.(turnFinished := true, bodyFinished := true);
      var cb := FinishRequestFailure(t.id);
      SendOrRunIsAhead(c, t, OutFrame(n, cb, cb), None, throws);
    }
  }

  lemma SendResultIsAhead(c: Connection, epoch: nat, ok: bool, throws: bool)
    ensures StartsNothing(c, SendResult(c, epoch, ok, throws))
    ensures StartsNothing(c, SendDeadline(c, epoch))
  {
    hide SendResult, SendDeadline, Follows;
    SendResultFollows(c, epoch, ok, throws);
    FollowingStartsNothing(c, SendResult(c, epoch, ok, throws));
    FollowingStartsNothing(c, SendDeadline(c, epoch));
  }

  lemma SocketEventsAreAhead(c: Connection)
    ensures StartsNothing(c, Finalize(c)) && StartsNothing(c, Finalize(c.(open := false)))
  {
    hide SettleCurrent;
    SettlingFollows(c.(closed := true));
    SettlingFollows(c.(open := false, closed := true));
  }

  lemma SendErrorAndCloseIsAhead(c: Connection, n: nat, throws: bool)
    ensures StartsNothing(c, SendErrorAndClose(c, n, throws))
  {
    hide SafeSend, Later;
    SameQueueIsLater(c.out);
    if !c.closed && !c.closing {
      SafeSendIsAhead(DropPendingFrames(c.(closing := true)), OutFrame(n, CloseAfterError, CloseAfterError), None,
                      throws);
    }
  }

  /** The step starts no frame, or the one that waited longest, in a free slot of an open connection. */
  predicate StartsOldest(c: Connection, waiting: seq<InFrame>, d: Connection) {
    || StartsNothing(c, d)
    || (&& !c.closed && !c.closing && (c.turn.None? || c.turn.value.resolved)
        && waiting != [] && d.started == c.started + [waiting[0]] && Ahead(c, d))
  }

  lemma DrainIsAhead(c: Connection, throws: bool)
    requires !c.closed && !c.closing
    ensures StartsOldest(c, c.inbound, Drain(c, throws))
  {
    hide SafeSend, Later;
    SameQueueIsLater(c.out);
    if c.turn.None? && c.inbound != [] {
      var f := c.inbound[0];
      var id := c.turnSequence + 1;
      var d := c.(inbound := c.inbound[1..], inboundBytes := c.inboundBytes - f.size,
                  turn := Some(NewTurn(id, f.kind)), turnSequence := id, started := c.started + [f]);
      if f.kind.Rejected? {
        SafeSendIsAhead(d, OutFrame(f.kind.errorBytes, NoCallback, NoCallback), None, throws);
      }
    }
  }

  /** The frames that may be started in a step: those pending, then the one that just arrived. */
  function Candidates(c: Connection, e: Event): seq<InFrame> {
    match e
    case Message(frame, _, _, _) => c.inbound + [frame]
    case TurnResolved(_) => c.inbound
    case _ => []
  }

  lemma NextStartsOldest(c: Connection, e: Event)
    requires Inv(c)
    ensures StartsOldest(c, Candidates(c, e), Next(c, e))
  {
    hide Inv, Drain, SendErrorAndClose, SendResult, SendDeadline, Finalize, ResponseData, ResponseEnd, Later;
    hide ResponseError, ResponseClose, RequestError, RequestBodyClosed, RequestBodyExpired;
    SameQueueIsLater(c.out);
    match e
    case Message(f, binary, n, throws) =>
      SendErrorAndCloseIsAhead(c, n, throws);
      if !c.closed && !c.closing {
        DrainIsAhead(c.(inbound := c.inbound + [f], inboundBytes := c.inboundBytes + f.size,
                        arrived := c.arrived + [f]), throws);
      }
    case TurnResolved(throws) =>
      if !c.closed && !c.closing {
        DrainIsAhead(c.(turn := None), throws);
      }
    case Sent(epoch, ok, throws) => SendResultIsAhead(c, epoch, ok, throws);
    case Deadline(epoch) => SendResultIsAhead(c, epoch, false, false);
    case PeerCloses =>
    case SocketClosed => SocketEventsAreAhead(c);
    case SocketError => SocketEventsAreAhead(c);
    case Response(isSse) =>
    case Data(events, oversize, n, throws) => ResponseDataIsAhead(c, events, oversize, n, throws);
    case End(events, oversize, n, throws) => ResponseEndIsAhead(c, events, oversize, n, throws);
    case TransportError(n, throws) => ResponseFailureIsAhead(c, false, n, throws);
    case TransportClose(complete, n, throws) => ResponseFailureIsAhead(c, complete, n, throws);
    case RequestFailed(n, throws) => RequestFailureIsAhead(c, n, throws);
    case BodyClosed(n, throws) => RequestFailureIsAhead(c, n, throws);
    case BodyExpired(n, throws) => RequestFailureIsAhead(c, n, throws);
    case BodyDrained =>
  }

  lemma {:induction false} RunIsAhead(c: Connection, events: seq<Event>)
    requires Inv(c)
    ensures Ahead(c, Run(c, events))
    decreases |events|
  {
    hide Inv, Next, Later;
    SameQueueIsLater(c.out);
    if events != [] {
      var d := Next(c, events[0]);
      NextKeepsInv(c, events[0]);
      NextStartsOldest(c, events[0]);
      RunIsAhead(d, events[1..]);
      AheadTwice(c, d, Run(d, events[1..]));
    }
  }

  // ---------------------------------------------------------------------------------------
  // The inbound queue
  // ---------------------------------------------------------------------------------------

  /** At most 64 frames and 64 MiB wait; nothing that arrived is lost or overtaken while frames are accepted;
      and a frame only waits while another one is in flight. */
  lemma InboundIsBoundedAndInOrder(c: Connection)
    requires Reachable(c)
    ensures |c.inbound| <= 64 && c.inboundBytes == TotalSize(c.inbound) <= 64 * 1024 * 1024
    ensures c.started <= c.arrived
    ensures !c.closed && !c.closing ==> c.arrived == c.started + c.inbound
    ensures c.closed || c.closing ==> c.inbound == []
    ensures c.inbound != [] ==> c.turn.Some?
  {
    ReachableHasInv(c);
  }

  /** Frames start one at a time, in arrival order, and only when no turn is unresolved. */
  lemma FramesStartInOrder(c: Connection, e: Event)
    requires Reachable(c)
    ensures
      var d := Next(c, e);
      || d.started == c.started
      || (&& Candidates(c, e) != [] && d.started == c.started + [Candidates(c, e)[0]]
          && !c.closed && !c.closing && (c.turn.None? || c.turn.value.resolved))
  {
    hide Inv, Next;
    ReachableHasInv(c);
    NextStartsOldest(c, e);
  }

  /** Once the connection is closed, or an error that closes it was queued, no frame ever starts. */
  lemma NothingStartsAfterClosing(c: Connection, events: seq<Event>)
    requires Reachable(c) && (c.closed || c.closing)
    ensures Run(c, events).started == c.started
  {
    ReachableHasInv(c);
    RunIsAhead(c, events);
  }

  /** A frame is accepted exactly if it is a text frame within both limits on a connection that still takes
      frames; a frame that is refused there is answered by closing the connection. */
  lemma FramesAreAcceptedExactly(c: Connection, f: InFrame, binary: bool, n: nat, throws: bool)
    requires Reachable(c)
    ensures
      var d := Next(c, Message(f, binary, n, throws));
      if c.closed || c.closing then d == c
      else if !binary && |c.inbound| < 64 && c.inboundBytes + f.size <= 64 * 1024 * 1024 then
        d.arrived == c.arrived + [f]
      else d.arrived == c.arrived && d.closing
  {
    hide SafeSend, Later;
    if !c.closed && !c.closing {
      var closing := DropPendingFrames(c.(closing := true));
      SafeSendFollows(closing, OutFrame(n, CloseAfterError, CloseAfterError), None, throws);
      DrainKeepsArrivals(
        c.(inbound := c.inbound + [f], inboundBytes := c.inboundBytes + f.size, arrived := c.arrived + [f]), throws);
    }
  }

  lemma DrainKeepsArrivals(c: Connection, throws: bool)
    ensures Drain(c, throws).arrived == c.arrived
  {
    hide SafeSend, Later;
    if c.turn.None? && c.inbound != [] {
      var f := c.inbound[0];
      var id := c.turnSequence + 1;
      var d := c.(inbound := c.inbound[1..], inboundBytes := c.inboundBytes - f.size,
                  turn := Some(NewTurn(id, f.kind)), turnSequence := id, started := c.started + [f]);
      if f.kind.Rejected? {
        SafeSendFollows(d, OutFrame(f.kind.errorBytes, NoCallback, NoCallback), None, throws);
      }
    }
  }

  // ---------------------------------------------------------------------------------------
  // The outbound queue
  // ---------------------------------------------------------------------------------------

  /** The bytes are exact and at most 1 MiB; frames reach ws.send in the order they were accepted, and each success
      belongs to the oldest frame not yet acknowledged. */
  lemma OutboundIsBoundedAndInOrder(c: Connection)
    requires Reachable(c)
    ensures c.out.bytes == TotalBytes(Waiting(c.out)) <= 1024 * 1024
    ensures c.out.active ==> c.out.accepted == c.out.sent + c.out.queue
    ensures c.out.active ==> c.out.sent == c.out.succeeded + InFlight(c.out)
  {
    ReachableHasInv(c);
  }

  /** Nothing waits without a send whose answer, or deadline, will move it. */
  lemma WaitingFramesHaveASendInFlight(c: Connection)
    requires Reachable(c)
    ensures c.out.queue != [] || c.out.pressured != {} ==> c.out.inFlight.Some?
    ensures c.out.inFlight.Some? <==> c.out.deadline
  {
    ReachableHasInv(c);
  }

  lemma FailingLosesTheClient(c: Connection, cb: Callback)
    requires c.out.active && !cb.AcknowledgeTerminal?
    ensures !Live(FailOutbound(c, cb))
  {
    hide Invalidate, SettleCurrent, Later;
    SettlingFollows(c.(out := Invalidate(c.out), closed := true));
  }

  /** Flushing a waiting frame to a client that stays reachable hands over exactly that frame. */
  lemma FlushHandsOver(c: Connection, throws: bool)
    requires QueueBooks(c.out) && c.out.active && c.out.inFlight.None? && c.out.queue != []
    requires Live(Flush(c, throws))
    ensures Flush(c, throws).out == c.out.(queue := c.out.queue[1..], inFlight := Some(c.out.queue[0]),
                                           deadline := true, sent := c.out.sent + [c.out.queue[0]])
  {
    hide FailOutbound, TotalBytes;
    var o := c.out;
    var next := o.queue[0];
    assert next in Waiting(o);
    var sending := o.(queue := o.queue[1..], inFlight := Some(next), deadline := true, sent := o.sent + [next]);
    FailingLosesTheClient(c.(out := o.(queue := o.queue[1..])), next.onFailure);
    FailingLosesTheClient(c.(out := sending), next.onFailure);
  }

  /** Back-pressure: an accepted send on behalf of a response pauses it, with a send in flight. */
  lemma SendingPausesTheResponse(c: Connection, f: OutFrame, turn: TurnId, throws: bool)
    requires Reachable(c) && !c.closed && !f.onFailure.AcknowledgeTerminal?
    requires SafeSend(c, f, Some(turn), throws).1 && Live(SafeSend(c, f, Some(turn), throws).0)
    ensures
      var d := SafeSend(c, f, Some(turn), throws).0;
      turn in d.out.pressured && c.out.pressured <= d.out.pressured && d.out.inFlight.Some?
  {
    hide Flush, FailOutbound, RunCallback, QueueBooks, InboundInv, Obligations, Prompt, FramesOwed, TurnFlags;
    ReachableHasInv(c);
    BytesKeptByPausing(c, Some(turn));
    EnqueueKeepsBooks(c.out, f, Some(turn));
    var queued := c.(out := Enqueued(c.out, f, Some(turn)));
    PausedOnly(c.out, turn);
    if c.out.inFlight.None? {
      FlushHandsOver(queued, throws);
    } else {
      NothingToFlush(queued, throws);
    }
  }

  lemma PausedOnly(o: Outbound, turn: TurnId)
    requires QueueBooks(o)
    ensures
      var p := Paused(o, Some(turn));
      p.pressured == o.pressured + {turn} && p.inFlight == o.inFlight && p.queue == o.queue && p.active
  {
  }

  lemma NothingToFlush(c: Connection, throws: bool)
    requires c.out.inFlight.Some?
    ensures Flush(c, throws) == c
  {
  }

  /** It stays paused while frames wait; the acknowledgement of the last one lets every response run again. */
  lemma ResponsesResumeWhenTheQueueDrains(c: Connection, throws: bool)
    requires Reachable(c) && c.out.inFlight.Some? && Live(Next(c, Sent(c.out.epoch, true, throws)))
    ensures
      var d := Next(c, Sent(c.out.epoch, true, throws));
      if c.out.queue == [] then d.out.pressured == {} && d.out.inFlight.None?
      else d.out.pressured == c.out.pressured && d.out.inFlight == Some(c.out.queue[0])
  {
    hide Inv, Next, Flush, RunCallback, QueueBooks;
    ReachableHasInv(c);
    AckedBooks(c);
    var cb := c.out.inFlight.value.onSuccess;
    var x := c.(out := Acknowledged(c.out));
    var d := RunCallback(x, cb);
    AckIsCallbackThenFlush(c, throws);
    if cb.NoCallback? || cb.AcknowledgeTerminal? {
      QuietCallback(x, cb);
      if c.out.queue == [] {
        NothingLeft(d, throws);
      } else {
        FlushHandsOver(d, throws);
      }
    } else {
      ClosesTheConnection(c, throws);
    }
  }

  lemma ClosesTheConnection(c: Connection, throws: bool)
    requires Inv(c) && c.out.active && c.out.inFlight.Some?
    requires !c.out.inFlight.value.onSuccess.NoCallback? && !c.out.inFlight.value.onSuccess.AcknowledgeTerminal?
    ensures Next(c, Sent(c.out.epoch, true, throws)).closed
  {
    hide RunCallback, Inv, Flush, Next, Later;
    var d := c.(out := Acknowledged(c.out));
    PopKeepsSound(c);
    ClosingCallbackKeepsInv(d, c.out.inFlight.value.onSuccess);
    AckIsCallbackThenFlush(c, throws);
    FlushFollows(RunCallback(d, c.out.inFlight.value.onSuccess), throws);
  }

  lemma AckedBooks(c: Connection)
    requires Inv(c) && c.out.inFlight.Some?
    ensures c.out.active && QueueBooks(Acknowledged(c.out))
  {
    AcknowledgedBooks(c.out);
  }

  lemma NothingLeft(c: Connection, throws: bool)
    requires c.out.active && c.out.inFlight.None? && c.out.queue == []
    ensures Flush(c, throws) == c.(out := c.out.(pressured := {}))
  {
  }

  /** In one epoch nothing accepted, sent or acknowledged is ever taken back or reordered. */
  lemma SendHistoryIsAppendOnly(c: Connection, events: seq<Event>)
    requires Reachable(c) && Run(c, events).out.epoch == c.out.epoch
    ensures
      var o := Run(c, events).out;
      c.out.accepted <= o.accepted && c.out.sent <= o.sent && c.out.succeeded <= o.succeeded
  {
    hide Inv, Run;
    ReachableHasInv(c);
    RunIsAhead(c, events);
  }

  /** The answers and deadlines of an invalidated epoch change nothing, however late they come. */
  lemma StaleAnswersChangeNothing(c: Connection, events: seq<Event>, epoch: nat, ok: bool, throws: bool)
    requires Reachable(c) && (epoch < c.out.epoch || (epoch == c.out.epoch && !c.out.active))
    ensures
      var d := Run(c, events);
      Next(d, Sent(epoch, ok, throws)) == d && Next(d, Deadline(epoch)) == d
  {
    hide Inv, Run;
    ReachableHasInv(c);
    RunIsAhead(c, events);
  }

  // ---------------------------------------------------------------------------------------
  // Every turn is settled
  // ---------------------------------------------------------------------------------------

  /** No turn is settled early: while the client can be reached and no close is pending, a turn that made a
      request gives up its slot only after its response body ended and its terminal frame was acknowledged. */
  lemma NoTurnSettlesEarly(c: Connection)
    requires Reachable(c) && Live(c) && !c.closing && c.turn.Some? && c.turn.value.requested && c.turn.value.resolved
    ensures c.turn.value.over && c.turn.value.bodyEnded && c.turn.value.terminalSent && c.turn.value.ack
  {
    ReachableHasInv(c);
  }

  /** A frame that settles the turn, or closes the connection, when it is acknowledged. */
  ghost predicate HasCarrier(c: Connection, t: Turn) {
    || Carried(c.out, AcknowledgeTerminal(t.id))
    || Carried(c.out, SettleAndClose(t.id))
    || Carried(c.out, FinishRequestFailure(t.id))
  }

  /** The turn is settled, or a waiting frame will settle it, or closing has begun. */
  ghost predicate Settling(c: Connection) {
    c.turn.Some? ==> c.turn.value.resolved || !Live(c) || c.closing || HasCarrier(c, c.turn.value)
  }

  /** A response that closed before its end, marked complete, without ever sending a terminal event. */
  predicate Abandoned(c: Connection) {
    && c.turn.Some? && Live(c) && !c.closing
    && c.turn.value.over && c.turn.value.bodyEnded
    && !c.turn.value.turnFinished && !c.turn.value.fatalQueued && !c.turn.value.terminalSent
  }

  /** Once the response is over the turn is being settled, unless it was abandoned: exactly then. */
  lemma OverTurnsAreSettling(c: Connection)
    requires Reachable(c) && c.turn.Some? && c.turn.value.over
    ensures Settling(c) <==> !Abandoned(c)
    ensures Abandoned(c) ==> c.turn.value.cutShort
  {
    ReachableHasInv(c);
    OverWithInv(c);
  }

  lemma OverWithInv(c: Connection)
    requires Inv(c) && c.turn.Some? && c.turn.value.over
    ensures Settling(c) <==> !Abandoned(c)
    ensures Abandoned(c) ==> c.turn.value.cutShort
  {
    hide InboundInv, OutboundInv;
    if HasCarrier(c, c.turn.value) {
      CarrierWasSent(c);
    }
  }

  lemma CarrierWasSent(c: Connection)
    requires Inv(c) && c.turn.Some? && HasCarrier(c, c.turn.value)
    ensures c.turn.value.terminalSent || c.turn.value.fatalQueued || c.turn.value.turnFinished
  {
    hide InboundInv, OutboundInv, Obligations, Prompt;
    var t := c.turn.value;
    var f :| f in Waiting(c.out) && (f.onSuccess == AcknowledgeTerminal(t.id)
               || f.onSuccess == SettleAndClose(t.id) || f.onSuccess == FinishRequestFailure(t.id));
    assert Owed(c, f);
  }

  /** What `close` leaves unsettled: exactly a response marked complete that sent no terminal event and
      whose turn nothing else is settling. */
  lemma CloseAbandonsExactly(c: Connection, complete: bool, n: nat, throws: bool)
    requires Reachable(c) && c.turn.Some? && c.turn.value.responded && !c.turn.value.over
    requires Live(c) && !c.closing
    ensures
      var t := c.turn.value;
      Abandoned(Next(c, TransportClose(complete, n, throws))) <==>
        complete && !t.terminalSent && !t.fatalQueued && !t.turnFinished
  {
    hide SafeSend, RunCallback, InboundInv, OutboundInv, Carried, FramesOwed;
    ReachableHasInv(c);
    var t := c.turn.value.(over := true);
    TurnUpdateKeepsInbound(c, UpdateTurn(c, t));
    if !t.responseSettled && !t.fatalQueued {
      FatalErrorIsNotAbandoned(UpdateTurn(c, t), n, throws);
    }
  }

  lemma FatalErrorIsNotAbandoned(c: Connection, n: nat, throws: bool)
    requires Sound(c) && Obligations(c, NoCallback) && Listening(c)
    ensures !Abandoned(SendFatalError(c, n, throws))
  {
    hide SafeSend, RunCallback, InboundInv, OutboundInv, Carried, FramesOwed;
    var t := c.turn.value;
    var cb := SettleAndClose(t.id);
    var marked := UpdateTurn(c, t.(fatalQueued := true));
    TurnUpdateKeepsInbound(c, marked);
    SendKeepsInv(marked, OutFrame(n, cb, cb), Some(t.id), throws);
    var (d, sent) := SafeSend(marked, OutFrame(n, cb, cb), Some(t.id), throws);
    if !sent {
      SoundIsClosable(d);
      ClosingCallbackKeepsInv(d, cb);
    }
  }

  // ---------------------------------------------------------------------------------------
  // The answers of ws.send settle turns
  // ---------------------------------------------------------------------------------------

  /** What becomes of the frame in flight; `throws` is about sending the next one. */
  datatype Answer = Delivered(throws: bool) | Failed(throws: bool) | TimedOut

  function AnswerEvent(epoch: nat, a: Answer): Event {
    match a
    case Delivered(throws) => Sent(epoch, true, throws)
    case Failed(throws) => Sent(epoch, false, throws)
    case TimedOut => Deadline(epoch)
  }

  function Answers(epoch: nat, answers: seq<Answer>): (events: seq<Event>)
    ensures |events| == |answers|
  {
    if answers == [] then [] else [AnswerEvent(epoch, answers[0])] + Answers(epoch, answers[1..])
  }

  predicate AllDelivered(answers: seq<Answer>) {
    forall i :: 0 <= i < |answers| ==> answers[i] == Delivered(false)
  }

  /** The slot of this turn is free again, or the connection was closed, which settles what it can. */
  predicate Settled(c: Connection, turn: TurnId) {
    c.closed || (IsCurrent(c, turn) && c.turn.value.resolved)
  }

  /** Settled, or the closing handshake has begun. */
  predicate SettledOrClosing(c: Connection, turn: TurnId) {
    Settled(c, turn) || !c.open
  }

  lemma AnswerKeepsSettled(c: Connection, epoch: nat, a: Answer, turn: TurnId)
    ensures Settled(c, turn) ==> Settled(Next(c, AnswerEvent(epoch, a)), turn)
    ensures !c.open ==> !Next(c, AnswerEvent(epoch, a)).open
  {
    hide SendResult, SendDeadline, Later;
    SendResultFollows(c, epoch, a.Delivered?, if a.TimedOut? then false else a.throws);
  }

  lemma {:induction false} AnswersKeepSettled(c: Connection, epoch: nat, answers: seq<Answer>, turn: TurnId)
    ensures
      var d := Run(c, Answers(epoch, answers));
      && (Settled(c, turn) ==> Settled(d, turn))
      && (!c.open ==> !d.open)
    decreases |answers|
  {
    hide Next, Settled;
    if answers != [] {
      var d := Next(c, AnswerEvent(epoch, answers[0]));
      AnswerKeepsSettled(c, epoch, answers[0], turn);
      assert Answers(epoch, answers)[1..] == Answers(epoch, answers[1..]);
      AnswersKeepSettled(d, epoch, answers[1..], turn);
    }
  }

  /** `d` is `c` with its oldest waiting frame gone, up to what its acknowledgement did to the turn. */
  predicate Advanced(c: Connection, d: Connection) {
    && Live(d) && d.closing == c.closing && d.out.epoch == c.out.epoch
    && Waiting(c.out) != [] && Waiting(d.out) == Waiting(c.out)[1..]
    && (c.turn.Some? <==> d.turn.Some?)
    && (c.turn.Some? ==> d.turn.value.resolved || d.turn.value == c.turn.value.(ack := d.turn.value.ack))
  }

  /** One acknowledgement on an open connection sends the next frame, or closes the connection. */
  lemma AckAdvances(c: Connection, throws: bool)
    requires Inv(c) && Live(c) && c.out.active && c.out.inFlight.Some?
    ensures
      var d := SendResult(c, c.out.epoch, true, throws);
      d.closed || (!d.open && throws) || Advanced(c, d)
  {
    hide Flush, RunCallback, Inv, InboundInv, QueueBooks, Prompt, Obligations, FramesOwed, Closable, Waiting;
    var cb := c.out.inFlight.value.onSuccess;
    var x := c.(out := Acknowledged(c.out));
    if cb.NoCallback? || cb.AcknowledgeTerminal? {
      var d := RunCallback(x, cb);
      QuietCallback(x, cb);
      CallbackOfAcknowledged(c);
      FlushKeepsSound(d, throws);
      FlushKeepsEpoch(d, throws);
      PopsOldest(c);
    } else {
      ClosesTheConnection(c, throws);
    }
  }

  lemma QuietNeverCloses(c: Connection)
    requires Inv(c) && Live(c) && c.out.active && c.out.inFlight.Some? && Quiet(c.out.inFlight.value.onSuccess)
    ensures Live(Next(c, Sent(c.out.epoch, true, false)))
  {
    hide Inv, Flush, RunCallback, QueueBooks, Acknowledged;
    var x := c.(out := Acknowledged(c.out));
    AckIsCallbackThenFlush(c, false);
    QuietCallback(x, c.out.inFlight.value.onSuccess);
    CallbackOfAcknowledged(c);
    FlushKeepsEpoch(RunCallback(x, c.out.inFlight.value.onSuccess), false);
  }

  lemma PopsOldest(c: Connection)
    requires Inv(c) && c.out.inFlight.Some?
    ensures Waiting(c.out) != [] && Waiting(Acknowledged(c.out)) == Waiting(c.out)[1..]
  {
    AcknowledgedBooks(c.out);
  }

  lemma FlushKeepsEpoch(c: Connection, throws: bool)
    requires Live(c) && QueueBooks(c.out)
    ensures Live(Flush(c, throws)) ==> Flush(c, throws).out.epoch == c.out.epoch
    ensures Live(Flush(c, throws)) || throws
  {
    hide FailOutbound, TotalBytes;
    if c.out.active && c.out.inFlight.None? && c.out.queue != [] && Live(Flush(c, throws)) {
      FlushHandsOver(c, throws);
    }
  }

  /** Any answer on an open connection disposes of the frame in flight, or loses the client. */
  lemma AnswerAdvances(c: Connection, a: Answer)
    requires Inv(c) && Live(c) && c.out.active && c.out.inFlight.Some?
    ensures
      var d := Next(c, AnswerEvent(c.out.epoch, a));
      d.closed || (!d.open && a != Delivered(false)) || Advanced(c, d)
  {
    hide FailOutbound, Flush, RunCallback, Inv, Advanced;
    AcknowledgedOnFailure(c);
    match a
    case Delivered(throws) => AckAdvances(c, throws);
    case Failed(_) =>
      var o := c.out;
      FailingLosesTheClient(
        c.(out := o.(inFlight := None, deadline := false, bytes := o.bytes - o.inFlight.value.bytes)),
        o.inFlight.value.onFailure);
    case TimedOut => FailingLosesTheClient(c, c.out.inFlight.value.onFailure);
  }

  lemma AcknowledgedOnFailure(c: Connection)
    requires Inv(c) && c.out.inFlight.Some?
    ensures !c.out.inFlight.value.onFailure.AcknowledgeTerminal?
  {
    AcknowledgedBooks(c.out);
  }

  /** When nothing waits any more, a turn that is not abandoned is settled. */
  lemma NothingWaitsForASettledTurn(c: Connection)
    requires Inv(c) && Live(c) && c.turn.Some? && c.turn.value.over && !Abandoned(c)
    ensures Waiting(c.out) == [] ==> c.turn.value.resolved
    ensures c.out.inFlight.None? ==> Waiting(c.out) == []
    ensures c.out.inFlight.Some? ==> c.out.active
  {
    OverWithInv(c);
  }

  /** When every waiting frame got an answer, whichever it was, a turn whose response is over is settled or the
      closing handshake has begun; if all answers were acknowledgements it is settled. */
  lemma {:induction false} AnswersSettle(c: Connection, answers: seq<Answer>)
    requires Inv(c) && Live(c) && c.turn.Some? && c.turn.value.over && !Abandoned(c)
    requires |answers| >= |Waiting(c.out)|
    ensures
      var d := Run(c, Answers(c.out.epoch, answers));
      && SettledOrClosing(d, c.turn.value.id)
      && (AllDelivered(answers) ==> Settled(d, c.turn.value.id))
    decreases |answers|
  {
    hide Inv, Next, Waiting;
    NothingWaitsForASettledTurn(c);
    if c.turn.value.resolved {
      AnswersKeepSettled(c, c.out.epoch, answers, c.turn.value.id);
    } else {
      var d := Next(c, AnswerEvent(c.out.epoch, answers[0]));
      assert Answers(c.out.epoch, answers)[1..] == Answers(c.out.epoch, answers[1..]);
      AnswerAdvances(c, answers[0]);
      AnswerKeepsSettled(c, c.out.epoch, answers[0], c.turn.value.id);
      NextKeepsInv(c, AnswerEvent(c.out.epoch, answers[0]));
      AnswerKeepsTurn(c, answers[0]);
      if Advanced(c, d) && !d.turn.value.resolved {
        AnswersSettle(d, answers[1..]);
      } else {
        AnswersKeepSettled(d, c.out.epoch, answers[1..], c.turn.value.id);
      }
    }
  }

  lemma AnswerKeepsTurn(c: Connection, a: Answer)
    requires c.turn.Some?
    ensures IsCurrent(Next(c, AnswerEvent(c.out.epoch, a)), c.turn.value.id)
  {
    hide SendResult, SendDeadline, Later;
    SendResultFollows(c, c.out.epoch, a.Delivered?, if a.TimedOut? then false else a.throws);
  }

  /** Whatever the answers, the turn stays in its slot, and a resolved one stays resolved. */
  lemma {:induction false} AnswersKeepTurn(c: Connection, answers: seq<Answer>, epoch: nat)
    requires c.turn.Some?
    ensures
      var d := Run(c, Answers(epoch, answers));
      IsCurrent(d, c.turn.value.id) && (c.turn.value.resolved ==> d.turn.value.resolved)
    decreases |answers|
  {
    hide SendResult, SendDeadline, Later;
    if answers != [] {
      var a := answers[0];
      SendResultFollows(c, epoch, a.Delivered?, if a.TimedOut? then false else a.throws);
      assert Answers(epoch, answers)[1..] == Answers(epoch, answers[1..]);
      AnswersKeepTurn(Next(c, AnswerEvent(epoch, a)), answers[1..], epoch);
    }
  }

  /** Whatever the answers, a turn that closing would resolve still is resolved, or would be. */
  lemma {:induction false} AnswersKeepPromise(c: Connection, answers: seq<Answer>, epoch: nat)
    requires Inv(c) && c.turn.Some? && Promised(c)
    ensures
      var d := Run(c, Answers(epoch, answers));
      IsCurrent(d, c.turn.value.id) && Promised(d)
    decreases |answers|
  {
    hide Inv, Next;
    if answers != [] {
      var d := Next(c, AnswerEvent(epoch, answers[0]));
      assert Answers(epoch, answers)[1..] == Answers(epoch, answers[1..]);
      AnswerKeepsPromise(c, AnswerEvent(epoch, answers[0]));
      NextKeepsInv(c, AnswerEvent(epoch, answers[0]));
      AnswersKeepPromise(d, answers[1..], epoch);
    }
  }

  /** Every turn gets settled: when the response of a turn has ended, errored or closed and the client can
      still be reached, then, whatever mix of success, failure and time-out the waiting frames meet, the turn
      is settled or the closing handshake has begun. */
  lemma EveryOverTurnSettles(c: Connection, answers: seq<Answer>)
    requires Reachable(c) && Live(c) && c.turn.Some? && c.turn.value.over && !Abandoned(c)
    requires |answers| >= |Waiting(c.out)|
    ensures
      var d := Run(c, Answers(c.out.epoch, answers));
      && SettledOrClosing(d, c.turn.value.id)
      && (AllDelivered(answers) ==> Settled(d, c.turn.value.id))
      && IsCurrent(d, c.turn.value.id)
      && (!c.turn.value.turnFinished ==> d.turn.value.resolved || (!d.open && !AllDelivered(answers)))
  {
    hide Inv, Run;
    ReachableHasInv(c);
    AnswersSettle(c, answers);
    AnswersKeepTurn(c, answers, c.out.epoch);
    if !c.turn.value.turnFinished {
      AnswersKeepPromise(c, answers, c.out.epoch);
    }
  }

  /** The first waiting frame whose acknowledgement decides about the turn resolves it. */
  predicate ReportedInTime(waiting: seq<OutFrame>, t: Turn)
    decreases |waiting|
  {
    && waiting != []
    && (Resolves(t, waiting[0].onSuccess)
        || (Quiet(waiting[0].onSuccess) && ReportedInTime(waiting[1..], t)))
  }

  lemma {:induction false} ReportIgnoresAck(waiting: seq<OutFrame>, t: Turn, u: Turn)
    requires u == t.(ack := u.ack)
    ensures ReportedInTime(waiting, t) <==> ReportedInTime(waiting, u)
    decreases |waiting|
  {
    if waiting != [] {
      ReportIgnoresAck(waiting[1..], t, u);
    }
  }

  /** A turn whose request failed waits for the frame that reports it. */
  lemma ReportIsWaiting(c: Connection)
    requires Inv(c) && Live(c) && c.turn.Some? && c.turn.value.turnFinished && !c.turn.value.resolved
    ensures c.out.active && c.out.inFlight.Some? && Waiting(c.out) != []
    ensures Waiting(c.out)[0] == c.out.inFlight.value
  {
    assert Carried(c.out, FinishRequestFailure(c.turn.value.id));
  }

  /** One acknowledgement: the turn is resolved, or orphaned, or the next frame is in flight. */
  lemma ReportAdvances(c: Connection)
    requires Inv(c) && Live(c) && c.turn.Some? && c.turn.value.turnFinished && !c.turn.value.resolved
    ensures c.out.inFlight.Some?
    ensures
      var d := Next(c, Sent(c.out.epoch, true, false));
      var cb := c.out.inFlight.value.onSuccess;
      if Resolves(c.turn.value, cb) then ResolvedIn(c, d)
      else IsCurrent(d, c.turn.value.id) && !d.turn.value.resolved && (if Quiet(cb) then Advanced(c, d) else d.closed)
  {
    hide Inv, Next, Flush, RunCallback, Waiting;
    ReportIsWaiting(c);
    var cb := c.out.inFlight.value.onSuccess;
    DeliveredPromise(c, false);
    if Quiet(cb) {
      AnswerAdvances(c, Delivered(false));
      QuietNeverCloses(c);
    } else {
      ClosesTheConnection(c, false);
    }
  }

  /** When every waiting frame is acknowledged, a turn whose request failed is resolved exactly if no frame ahead
      of its report closes the connection first. */
  lemma {:induction false} ReportsArriveExactly(c: Connection, answers: seq<Answer>)
    requires Reachable(c) && Live(c) && c.turn.Some? && c.turn.value.turnFinished && !c.turn.value.resolved
    requires AllDelivered(answers) && |answers| >= |Waiting(c.out)|
    ensures
      var d := Run(c, Answers(c.out.epoch, answers));
      && IsCurrent(d, c.turn.value.id)
      && (d.turn.value.resolved <==> ReportedInTime(Waiting(c.out), c.turn.value))
    decreases |answers|
  {
    hide Inv, Next, Waiting, Reachable, WithinLimits;
    ReachableHasInv(c);
    ReportIsWaiting(c);
    ReportAdvances(c);
    var d := Next(c, AnswerEvent(c.out.epoch, answers[0]));
    assert Answers(c.out.epoch, answers)[1..] == Answers(c.out.epoch, answers[1..]);
    NextIsReachable(c, AnswerEvent(c.out.epoch, answers[0]));
    ReachableHasInv(d);
    if d.turn.value.resolved {
      AnswersKeepTurn(d, answers[1..], c.out.epoch);
    } else if d.closed {
      OrphanedTurnsStay(d, Answers(c.out.epoch, answers[1..]));
    } else {
      ReportIgnoresAck(Waiting(d.out), c.turn.value, d.turn.value);
      ReportsArriveExactly(d, answers[1..]);
    }
  }


  /** After a terminal event the transport may close or fail as it likes: the turn is never kept forever. */
  lemma TerminalEventThenCloseSettles(c: Connection, e: Event, answers: seq<Answer>)
    requires Reachable(c) && Live(c) && c.turn.Some? && c.turn.value.sse && c.turn.value.terminalSent
    requires e.TransportClose? || e.TransportError?
    requires |answers| >= |Waiting(Next(c, e).out)|
    ensures
      var d := Run(Next(c, e), Answers(Next(c, e).out.epoch, answers));
      && SettledOrClosing(d, c.turn.value.id)
      && (AllDelivered(answers) ==> Settled(d, c.turn.value.id))
      && IsCurrent(d, c.turn.value.id)
      && (!c.turn.value.turnFinished ==> d.turn.value.resolved || (!d.open && !AllDelivered(answers)))
  {
    hide Inv, Next, Run, Reachable, WithinLimits;
    ReachableHasInv(c);
    CloseAfterTerminal(c, e);
    NextIsReachable(c, e);
    var d := Next(c, e);
    EveryOverTurnSettles(d, answers);
    AnswersKeepTurn(d, answers, d.out.epoch);
  }

  /** The turn is over and has sent a terminal event, and the client is where it was. */
  predicate TerminalIsOver(c: Connection, d: Connection) {
    && c.turn.Some? && d == c.(turn := d.turn) && IsCurrent(d, c.turn.value.id)
    && d.turn.value.over && d.turn.value.terminalSent
    && (d.turn.value.turnFinished ==> d.turn.value.resolved || c.turn.value.turnFinished)
  }

  /** The transport event leaves the client reachable and the turn over, not abandoned. */
  lemma CloseAfterTerminal(c: Connection, e: Event)
    requires Inv(c) && Live(c) && c.turn.Some? && c.turn.value.sse && c.turn.value.terminalSent
    requires e.TransportClose? || e.TransportError?
    ensures
      var d := Next(c, e);
      && Live(d) && IsCurrent(d, c.turn.value.id) && d.turn.value.over && !Abandoned(d)
      && (d.turn.value.turnFinished ==> d.turn.value.resolved || c.turn.value.turnFinished)
  {
    assert c.turn.value.responded;
    hide SendFatalError, Inv, EndBodyAndSettle, CloseOver;
    var d := MarkOver(c);
    EndingKeepsTerminal(d);
    if e.TransportClose? {
      ClosingKeepsTerminal(d, e.complete, e.n, e.throws);
    }
  }

  lemma ClosingKeepsTerminal(c: Connection, complete: bool, n: nat, throws: bool)
    requires c.turn.Some? && c.turn.value.sse && c.turn.value.terminalSent && c.turn.value.over
    ensures TerminalIsOver(c, CloseOver(c, complete, n, throws))
  {
    hide SendFatalError, EndBodyAndSettle, MarkCutShort;
    CutShortKeepsTerminal(c.turn.value);
    EndingKeepsTerminal(c);
    EndingKeepsTerminal(UpdateTurn(c, MarkCutShort(c.turn.value)));
  }

  lemma EndingKeepsTerminal(c: Connection)
    requires c.turn.Some? && c.turn.value.terminalSent && c.turn.value.over
    ensures TerminalIsOver(c, EndBodyAndSettle(c))
  {
  }

  lemma CutShortKeepsTerminal(t: Turn)
    ensures MarkCutShort(t) == t.(cutShort := MarkCutShort(t).cutShort)
  {
  }

  // ---------------------------------------------------------------------------------------
  // Abandoned turns
  // ---------------------------------------------------------------------------------------

  /** The turn that was abandoned in `c` still is, and no frame started since. */
  predicate StillAbandoned(c: Connection, d: Connection)
    requires c.turn.Some?
  {
    Abandoned(d) && IsCurrent(d, c.turn.value.id) && d.started == c.started
  }

  /** Not a further event of the closed response, and not a failure of its request. */
  predicate LeavesTheResponseAlone(e: Event) {
    && !e.Data? && !e.End? && !e.TransportError?
    && !e.RequestFailed? && !e.BodyClosed? && !e.BodyExpired?
  }

  lemma AbandonedWaitsForNothing(c: Connection)
    requires Inv(c) && Abandoned(c)
    ensures !c.turn.value.resolved && c.turn.value.responded && !c.turn.value.ack
    ensures c.out.inFlight.Some? ==> c.out.active
    ensures forall f :: f in Waiting(c.out) ==> f.onSuccess != AcknowledgeTerminal(c.turn.value.id)
  {
    forall f | f in Waiting(c.out) ensures f.onSuccess != AcknowledgeTerminal(c.turn.value.id) {
      assert Owed(c, f);
    }
  }

  /** An acknowledgement leaves an abandoned turn as it is, or loses the client. */
  lemma AnswerLeavesAbandoned(c: Connection, throws: bool)
    requires Inv(c) && Abandoned(c) && c.out.inFlight.Some?
    ensures
      var d := Next(c, Sent(c.out.epoch, true, throws));
      !Live(d) || (d == c.(out := d.out) && Advanced(c, d))
  {
    hide Flush, RunCallback, Inv, InboundInv, QueueBooks, Prompt, Obligations, FramesOwed, Closable, Waiting, Advanced;
    AbandonedWaitsForNothing(c);
    AckIsCallbackThenFlush(c, throws);
    var x := c.(out := Acknowledged(c.out));
    var cb := c.out.inFlight.value.onSuccess;
    InFlightWaits(c);
    if cb.NoCallback? || cb.AcknowledgeTerminal? {
      ForeignCallback(x, cb);
      CallbackOfAcknowledged(c);
      FlushKeepsSound(x, throws);
      AckAdvances(c, throws);
    } else {
      ClosesTheConnection(c, throws);
    }
  }

  lemma InFlightWaits(c: Connection)
    requires c.out.inFlight.Some?
    ensures c.out.inFlight.value in Waiting(c.out)
  {
    assert Waiting(c.out)[0] == c.out.inFlight.value;
  }

  /** The acknowledgement of another turn changes nothing. */
  lemma ForeignCallback(c: Connection, cb: Callback)
    requires cb.NoCallback? || (cb.AcknowledgeTerminal? && !IsCurrent(c, cb.turn))
    ensures RunCallback(c, cb) == c
  {
  }

  lemma AbandonedStep(c: Connection, e: Event)
    requires Inv(c) && Abandoned(c) && LeavesTheResponseAlone(e)
    ensures StillAbandoned(c, Next(c, e)) || !Live(Next(c, e)) || Next(c, e).closing
  {
    AbandonedWaitsForNothing(c);
    hide Inv, SafeSend, RunCallback, SendResult, SendDeadline, Waiting;
    match e
    case Message(f, binary, n, throws) =>
      SafeSendFollows(DropPendingFrames(c.(closing := true)), OutFrame(n, CloseAfterError, CloseAfterError), None,
                      throws);
    case Sent(epoch, ok, throws) =>
      if c.out.inFlight.Some? && epoch == c.out.epoch {
        if ok {
          AnswerLeavesAbandoned(c, throws);
        } else {
          AnswerAdvances(c, Failed(throws));
          FailureLosesTheClient(c, epoch, throws);
        }
      } else {
        NoAnswerExpected(c, epoch, ok, throws);
      }
    case Deadline(epoch) =>
      if c.out.inFlight.Some? && epoch == c.out.epoch {
        FailureLosesTheClient(c, epoch, false);
      } else {
        NoAnswerExpected(c, epoch, false, false);
      }
    case _ =>
  }

  lemma FailureLosesTheClient(c: Connection, epoch: nat, throws: bool)
    requires Inv(c) && c.out.active && c.out.inFlight.Some? && epoch == c.out.epoch
    ensures !Live(SendResult(c, epoch, false, throws)) && !Live(SendDeadline(c, epoch))
  {
    hide FailOutbound, Inv;
    AcknowledgedOnFailure(c);
    var o := c.out;
    FailingLosesTheClient(
      c.(out := o.(inFlight := None, deadline := false, bytes := o.bytes - o.inFlight.value.bytes)),
      o.inFlight.value.onFailure);
    FailingLosesTheClient(c, o.inFlight.value.onFailure);
  }

  /** An abandoned turn keeps its slot, and no frame starts, over every run without further events of its
      closed response or a failure of its request, until the client is lost or a close is pending. */
  lemma {:induction false} AbandonedTurnsKeepTheSlot(c: Connection, events: seq<Event>)
    requires Inv(c) && Abandoned(c)
    requires forall i :: 0 <= i < |events| ==> LeavesTheResponseAlone(events[i])
    ensures StillAbandoned(c, Run(c, events)) || !Live(Run(c, events)) || Run(c, events).closing
    decreases |events|
  {
    hide Inv, Next, Later;
    if events != [] {
      var d := Next(c, events[0]);
      AbandonedStep(c, events[0]);
      NextKeepsInv(c, events[0]);
      if StillAbandoned(c, d) {
        AbandonedTurnsKeepTheSlot(d, events[1..]);
      } else {
        RunIsAhead(d, events[1..]);
      }
    }
  }

  /** No waiting frame closes the connection when it is acknowledged. */
  ghost predicate Harmless(o: Outbound) {
    forall f :: f in Waiting(o) ==> f.onSuccess.NoCallback? || f.onSuccess.AcknowledgeTerminal?
  }

  /** Ordinary traffic: frames that are accepted, resolved turns, acknowledgements, and the request body. */
  predicate Routine(c: Connection, events: seq<Event>)
    decreases |events|
  {
    events != [] ==>
      && (match events[0]
          case Message(f, binary, _, _) =>
            !binary && |c.inbound| < MAX_PENDING_FRAMES && c.inboundBytes + f.size <= MAX_PENDING_BYTES
          case TurnResolved(_) => true
          case Sent(_, ok, throws) => ok && !throws
          case BodyDrained => true
          case _ => false)
      && Routine(Next(c, events[0]), events[1..])
  }

  lemma RoutineStep(c: Connection, e: Event)
    requires Inv(c) && Abandoned(c) && Harmless(c.out) && Routine(c, [e])
    ensures StillAbandoned(c, Next(c, e)) && Harmless(Next(c, e).out)
  {
    AbandonedWaitsForNothing(c);
    hide Inv, SafeSend, RunCallback, SendResult, Waiting;
    match e
    case Sent(epoch, ok, throws) =>
      if c.out.inFlight.Some? && epoch == c.out.epoch {
        AnswerLeavesAbandoned(c, false);
        HarmlessAnswer(c);
      } else {
        NoAnswerExpected(c, epoch, ok, throws);
      }
    case _ =>
  }

  lemma HarmlessAnswer(c: Connection)
    requires Inv(c) && Live(c) && c.out.active && c.out.inFlight.Some? && Harmless(c.out)
    ensures Harmless(Next(c, Sent(c.out.epoch, true, false)).out)
  {
    hide Inv, QueueBooks;
    InFlightWaits(c);
    QuietNeverCloses(c);
    AckAdvances(c, false);
  }

  /** In ordinary traffic an abandoned turn is never settled and no later frame ever starts. */
  lemma {:induction false} AbandonedTurnsOutlastOrdinaryTraffic(c: Connection, events: seq<Event>)
    requires Inv(c) && Abandoned(c) && Harmless(c.out) && Routine(c, events)
    ensures StillAbandoned(c, Run(c, events)) && !Run(c, events).turn.value.resolved
    decreases |events|
  {
    hide Inv, Next, Harmless;
    AbandonedWaitsForNothing(c);
    if events != [] {
      var d := Next(c, events[0]);
      assert Routine(c, [events[0]]) by {
        assert [events[0]][1..] == [];
      }
      RoutineStep(c, events[0]);
      NextKeepsInv(c, events[0]);
      AbandonedTurnsOutlastOrdinaryTraffic(d, events[1..]);
    }
  }

  /** No terminal event, then `close` on a complete response: nothing is left that could settle the turn. */
  lemma ACompleteCloseCanAbandonTheTurn(f: InFrame)
    requires f.kind == Create(true) && f.size <= MAX_PENDING_BYTES
    ensures
      var c := Run(Init(), [Message(f, false, 0, false), Response(true), TransportClose(true, 0, false)]);
      Abandoned(c) && Waiting(c.out) == [] && !c.turn.value.resolved
  {
    RunOfThree(Init(), Message(f, false, 0, false), Response(true), TransportClose(true, 0, false));
    OneFrameStarts(f);
  }

  /** It happens to turns whose response is over as well: here the client is reachable and the turn not abandoned,
      but the acknowledgement of the frame in flight orphans it. */
  lemma AnOverTurnCanBeOrphaned(f: InFrame, n: nat)
    requires f.kind == Create(true) && f.size <= MAX_PENDING_BYTES && n < MAX_PENDING_OUTBOUND_BYTES - 1
    ensures
      var c := Run(Init(), [Message(f, false, 0, false), Response(true), Message(f, true, n, false),
                            RequestFailed(1, false), TransportError(1, false)]);
      && Reachable(c) && Live(c) && c.turn.Some? && c.turn.value.over && !Abandoned(c)
      && var d := Next(c, Sent(1, true, false)); d.closed && d.turn.Some? && !d.turn.value.resolved
  {
    var t := NewTurn(1, f.kind).(responded := true, sse := true);
    var u := t.(turnFinished := true, bodyFinished := true);
    var report := OutFrame(1, FinishRequestFailure(1), FinishRequestFailure(1));
    RunOfFive(Init(), Message(f, false, 0, false), Response(true), Message(f, true, n, false),
              RequestFailed(1, false), TransportError(1, false));
    OneFrameStarts(f);
    AResponseStarts(f, NewTurn(1, f.kind));
    ABinaryFrameIsRefused(f, t, n);
    AFailedRequestIsQueued(f, t, n);
    AFailedResponseIsQueued(f, u, n, report);
    var c := Next(Refused(f, u, n, [report], {}), TransportError(1, false));
    TheErrorClosesFirst(f, c.turn.value, n, c.out.queue, {1});
    hide Run, Next, Started;
  }

  lemma RunOfFive(c: Connection, e0: Event, e1: Event, e2: Event, e3: Event, e4: Event)
    ensures Run(c, [e0, e1, e2, e3, e4]) == Next(Next(Next(Next(Next(c, e0), e1), e2), e3), e4)
  {
    hide Next;
    assert [e0, e1, e2, e3, e4][1..] == [e1, e2, e3, e4];
    RunOfFour(Next(c, e0), e1, e2, e3, e4);
  }

  lemma AResponseStarts(f: InFrame, t: Turn)
    requires t.requested && !t.responded && !t.resolved && t.registered
    ensures Next(Started(f, t), Response(true)) == Started(f, t.(responded := true, sse := true))
  {
  }

  lemma AFailedResponseIsQueued(f: InFrame, t: Turn, n: nat, report: OutFrame)
    requires t.id == 1 && t.responded && !t.responseSettled && !t.fatalQueued && !t.terminalSent
    requires report.bytes == 1 && n + 2 <= MAX_PENDING_OUTBOUND_BYTES
    ensures
      var cb := SettleAndClose(1);
      Next(Refused(f, t, n, [report], {}), TransportError(1, false)) ==
      Refused(f, t.(over := true, fatalQueued := true), n, [report, OutFrame(1, cb, cb)], {1})
  {
    var cb := SettleAndClose(1);
    assert [report, OutFrame(1, cb, cb)] == [report] + [OutFrame(1, cb, cb)];
    TotalBytesAppend([report], [OutFrame(1, cb, cb)]);
    OneFrame(report);
    OneFrame(OutFrame(1, cb, cb));
    hide TotalBytes, SafeSend, Next, SendFatalError;
    var c := Refused(f, t.(over := true), n, [report], {});
    ErrorIsFatal(Refused(f, t, n, [report], {}));
    FatalErrorIsSent(c);
    ErrorIsAppended(UpdateTurn(c, c.turn.value.(fatalQueued := true)), OutFrame(1, cb, cb));
  }

  /** Behind a frame in flight a frame that fits is appended. */
  lemma ErrorIsAppended(c: Connection, f: OutFrame)
    requires c.open && c.out.active && c.out.inFlight.Some? && c.out.bytes + f.bytes <= MAX_PENDING_OUTBOUND_BYTES
    ensures SafeSend(c, f, Some(1), false) ==
            (c.(out := c.out.(queue := c.out.queue + [f], bytes := c.out.bytes + f.bytes,
                              accepted := c.out.accepted + [f], pressured := c.out.pressured + {1})), true)
  {
    hide RunCallback, FailOutbound;
  }

  /** A response that fails without a terminal event sends its fatal error. */
  lemma ErrorIsFatal(c: Connection)
    requires c.turn.Some? && c.turn.value.responded && !c.turn.value.responseSettled && !c.turn.value.terminalSent
    ensures Next(c, TransportError(1, false)) == SendFatalError(MarkOver(c), 1, false)
  {
    hide SendFatalError, EndBodyAndSettle;
  }

  lemma FatalErrorIsSent(c: Connection)
    requires Listening(c)
    ensures
      var t := c.turn.value.(fatalQueued := true);
      var cb := SettleAndClose(t.id);
      var (d, sent) := SafeSend(UpdateTurn(c, t), OutFrame(1, cb, cb), Some(t.id), false);
      sent ==> SendFatalError(c, 1, false) == d
  {
    hide SafeSend, RunCallback;
  }

  // ---------------------------------------------------------------------------------------
  // Late events
  // ---------------------------------------------------------------------------------------

  /** The late events of a turn already settled reach neither the client nor the queues. */
  lemma LateEventsOnlyTouchTheirTurn(c: Connection, e: Event)
    requires Reachable(c) && c.turn.Some? && c.turn.value.resolved
    requires !e.Message? && !e.TurnResolved? && !e.Sent? && !e.Deadline?
    requires !e.PeerCloses? && !e.SocketClosed? && !e.SocketError?
    ensures Next(c, e) == c.(turn := Next(c, e).turn)
    ensures IsCurrent(Next(c, e), c.turn.value.id) && Next(c, e).turn.value.resolved
  {
    hide Inv, Next;
    ReachableHasInv(c);
    ResolvedIsFinished(c);
    if e.Response? || e.Data? || e.End? {
      LateResponse(c, e);
    } else if e.TransportError? || e.TransportClose? {
      LateTransport(c, e);
    } else {
      LateRequest(c, e);
    }
  }

  /** What is known of a settled turn. */
  predicate Over(c: Connection) {
    && c.turn.Some? && c.turn.value.resolved && c.turn.value.turnFinished && c.turn.value.bodyFinished
    && (c.turn.value.responded ==> c.turn.value.responseSettled)
  }

  lemma LateResponse(c: Connection, e: Event)
    requires Over(c) && (e.Response? || e.Data? || e.End?)
    ensures Next(c, e) == c.(turn := Next(c, e).turn)
    ensures IsCurrent(Next(c, e), c.turn.value.id) && Next(c, e).turn.value.resolved
  {
    hide ProcessEvents, FinishBody, SendFatalError;
  }

  lemma LateTransport(c: Connection, e: Event)
    requires Over(c) && (e.TransportError? || e.TransportClose?)
    ensures Next(c, e) == c.(turn := Next(c, e).turn)
    ensures IsCurrent(Next(c, e), c.turn.value.id) && Next(c, e).turn.value.resolved
  {
    hide SafeSend, RunCallback;
  }

  lemma LateRequest(c: Connection, e: Event)
    requires Over(c) && (e.RequestFailed? || e.BodyClosed? || e.BodyExpired? || e.BodyDrained?)
    ensures Next(c, e) == c.(turn := Next(c, e).turn)
    ensures IsCurrent(Next(c, e), c.turn.value.id) && Next(c, e).turn.value.resolved
  {
    hide FailRequest;
  }

  lemma ResolvedIsFinished(c: Connection)
    requires Inv(c) && c.turn.Some? && c.turn.value.resolved
    ensures Over(c)
  {
    hide InboundInv, OutboundInv, FramesOwed, Obligations, Prompt;
  }
}
