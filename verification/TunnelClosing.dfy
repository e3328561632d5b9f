/** How closing a connection settles the turn in flight: exactly which closes leave it unresolved. */
module TunnelClosing {
  import opened Wrappers
  import opened Tunnel
  import opened TunnelProofs

  // ---------------------------------------------------------------------------------------
  // What closing still does for a turn
  // ---------------------------------------------------------------------------------------

  /** The turn is resolved, or closing the connection now would resolve it. */
  predicate Promised(c: Connection)
    requires c.turn.Some?
  {
    c.turn.value.resolved || (!c.closed && !c.turn.value.turnFinished)
  }

  /** The same turn, and closing does no more and no less for it than before. */
  predicate KeepsPromise(c: Connection, d: Connection)
    requires c.turn.Some?
  {
    IsCurrent(d, c.turn.value.id) && (Promised(d) <==> Promised(c))
  }

  /** The turn of `c` is resolved in `d`. */
  predicate ResolvedIn(c: Connection, d: Connection)
    requires c.turn.Some?
  {
    IsCurrent(d, c.turn.value.id) && d.turn.value.resolved
  }

  lemma RequestCloseKeepsPromise(c: Connection)
    requires Closable(c) && c.turn.Some?
    ensures KeepsPromise(c, RequestClose(c))
  {
    hide RequestClose, Inv, Closable;
    RequestCloseKeepsInv(c);
  }

  /** A callback resolves the turn itself only if it reports the failure of its request. */
  lemma CallbackKeepsPromise(c: Connection, cb: Callback)
    requires Closable(c) && c.turn.Some?
    requires !cb.AcknowledgeTerminal? && cb != FinishRequestFailure(c.turn.value.id)
    ensures KeepsPromise(c, RunCallback(c, cb))
  {
    hide RequestClose, RunCallback, Closable, Inv;
    if cb.NoCallback? {
      NothingRuns(c);
    } else {
      RequestCloseKeepsInv(c);
      ClosedIsFinished(RequestClose(c));
      CallbackAfterClosing(c, cb, RequestClose(c));
    }
  }

  lemma NothingRuns(c: Connection)
    ensures RunCallback(c, NoCallback) == c
  {
  }

  lemma ClosedIsFinished(c: Connection)
    requires Inv(c) && c.closed && c.turn.Some?
    ensures c.turn.value.turnFinished
  {
    hide InboundInv, OutboundInv, FramesOwed, Obligations, Prompt;
  }

  lemma FinishedResponse(t: Turn)
    requires t.turnFinished
    ensures ForceSettleResponse(t) == t.(responseSettled := true)
  {
  }

  /** Once the connection is closed, such a callback does nothing more for the turn. */
  lemma CallbackAfterClosing(c: Connection, cb: Callback, d: Connection)
    requires d == RequestClose(c) && d.closed && d.turn.Some? && d.turn.value.turnFinished
    requires !cb.NoCallback? && !cb.AcknowledgeTerminal? && cb != FinishRequestFailure(d.turn.value.id)
    ensures
      var e := RunCallback(c, cb);
      e == d.(turn := e.turn) && IsCurrent(e, d.turn.value.id) && e.turn.value.resolved == d.turn.value.resolved
  {
    hide RequestClose, ForceSettleResponse, SettleResponse;
    FinishedResponse(d.turn.value);
    match cb
    case SettleAndClose(turn) =>
    case CloseAfterError =>
    case FinishRequestFailure(turn) => assert !IsCurrent(d, turn);
  }

  lemma ReportResolves(c: Connection)
    requires Closable(c) && c.turn.Some?
    ensures ResolvedIn(c, RunCallback(c, FinishRequestFailure(c.turn.value.id)))
  {
    var d := RequestClose(c);
    RequestCloseKeepsInv(c);
    hide *;
    assert IsCurrent(d, c.turn.value.id);
    ReportAfterClosing(c);
  }

  lemma ReportAfterClosing(c: Connection)
    requires c.turn.Some? && IsCurrent(RequestClose(c), c.turn.value.id)
    ensures ResolvedIn(c, RunCallback(c, FinishRequestFailure(c.turn.value.id)))
  {
    hide RequestClose;
  }

  lemma InvalidatedIsClosable(c: Connection)
    requires Closable(c) && c.out.active
    ensures Closable(c.(out := Invalidate(c.out)))
  {
    InvalidateIsIdle(c.out);
    OutUpdate(c, Invalidate(c.out));
  }

  lemma FailOutboundKeepsPromise(c: Connection, onFailure: Callback)
    requires Closable(c) && c.turn.Some? && c.out.active
    requires !onFailure.AcknowledgeTerminal? && onFailure != FinishRequestFailure(c.turn.value.id)
    ensures KeepsPromise(c, FailOutbound(c, onFailure))
  {
    hide RunCallback, Closable, Invalidate;
    InvalidatedIsClosable(c);
    CallbackKeepsPromise(c.(out := Invalidate(c.out)), onFailure);
  }

  lemma FailedReportResolves(c: Connection)
    requires Closable(c) && c.turn.Some? && c.out.active
    ensures ResolvedIn(c, FailOutbound(c, FinishRequestFailure(c.turn.value.id)))
  {
    hide RunCallback, Closable, Invalidate;
    InvalidatedIsClosable(c);
    ReportResolves(c.(out := Invalidate(c.out)));
  }

  // ---------------------------------------------------------------------------------------
  // Sending
  // ---------------------------------------------------------------------------------------

  /** Flushing fails the oldest frame of the queue, if it fails one at all. */
  predicate FlushFails(c: Connection, throws: bool) {
    c.out.active && c.out.inFlight.None? && c.out.queue != [] && (throws || !c.open)
  }

  /** The queue when flushing fails its oldest frame. */
  function Failing(c: Connection): Connection
    requires c.out.queue != []
  {
    var o := c.out;
    var next := o.queue[0];
    if !c.open then c.(out := o.(queue := o.queue[1..]))
    else c.(out := o.(queue := o.queue[1..], inFlight := Some(next), deadline := true, sent := o.sent + [next]))
  }

  lemma FlushIsFailing(c: Connection, throws: bool)
    ensures
      if FlushFails(c, throws) then
        && Flush(c, throws) == FailOutbound(Failing(c), c.out.queue[0].onFailure)
        && Failing(c).out.active && Failing(c) == c.(out := Failing(c).out)
      else Flush(c, throws) == c.(out := Flush(c, throws).out) && Flush(c, throws).out.active == c.out.active
  {
    hide FailOutbound;
  }

  lemma FailingIsClosable(c: Connection, throws: bool)
    requires Closable(c) && FlushFails(c, throws)
    ensures Closable(Failing(c)) && Failing(c).turn == c.turn
  {
    hide TurnFlags, OutboundInv;
    assert !c.closed;
    assert c.turn.Some? ==> TurnFlags(c, c.turn.value);
    OutUpdate(c, Failing(c).out);
  }

  lemma FlushKeepsPromise(c: Connection, throws: bool)
    requires Closable(c) && QueueBooks(c.out) && c.turn.Some?
    requires FlushFails(c, throws) ==> c.out.queue[0].onFailure != FinishRequestFailure(c.turn.value.id)
    ensures KeepsPromise(c, Flush(c, throws))
  {
    hide Flush, Failing, FailOutbound, Closable, QueueBooks;
    FlushIsFailing(c, throws);
    if FlushFails(c, throws) {
      QueuedFailure(c.out);
      FailingIsClosable(c, throws);
      FailOutboundKeepsPromise(Failing(c), c.out.queue[0].onFailure);
    }
  }

  lemma QueuedFailure(o: Outbound)
    requires QueueBooks(o) && o.inFlight.None? && o.queue != []
    ensures !o.queue[0].onFailure.AcknowledgeTerminal?
  {
    assert o.queue[0] in Waiting(o);
  }

  lemma FlushedReportResolves(c: Connection, throws: bool)
    requires Closable(c) && QueueBooks(c.out) && c.turn.Some? && FlushFails(c, throws)
    requires c.out.queue[0].onFailure == FinishRequestFailure(c.turn.value.id)
    ensures ResolvedIn(c, Flush(c, throws))
  {
    hide Flush, Failing, FailOutbound, Closable, QueueBooks;
    FlushIsFailing(c, throws);
    FailingIsClosable(c, throws);
    FailedReportResolves(Failing(c));
  }

  /** A new frame goes to the end of the queue: if flushing fails a frame, it is this one. */
  lemma EnqueuedIsClosable(c: Connection, f: OutFrame, response: Option<TurnId>)
    requires Sound(c) && !c.closed && !f.onFailure.AcknowledgeTerminal?
    requires c.out.bytes + f.bytes <= MAX_PENDING_OUTBOUND_BYTES
    ensures
      var d := c.(out := Enqueued(c.out, f, response));
      Closable(d) && QueueBooks(d.out) && (d.out.inFlight.None? ==> d.out.queue == [f])
  {
    hide InboundInv, TurnFlags, QueueBooks, Waiting;
    SoundIsClosable(c);
    EnqueueKeepsBooks(c.out, f, response);
    OutUpdate(c, Enqueued(c.out, f, response));
    PausingKeepsQueue(c.out, response);
  }

  lemma PausingKeepsQueue(o: Outbound, response: Option<TurnId>)
    requires OutboundInv(o)
    ensures
      var p := Paused(o, response);
      p.inFlight == o.inFlight && p.queue == o.queue && p.bytes == o.bytes && p.active
  {
  }

  lemma PausedIsClosable(c: Connection, response: Option<TurnId>)
    requires Sound(c) && !c.closed
    ensures Closable(c.(out := Paused(c.out, response)))
  {
    hide InboundInv, TurnFlags;
    SoundIsClosable(c);
    OutUpdate(c, Paused(c.out, response));
  }

  lemma OverflowKeepsPromise(c: Connection, onFailure: Callback, response: Option<TurnId>)
    requires Sound(c) && !c.closed && c.turn.Some?
    requires !onFailure.AcknowledgeTerminal? && onFailure != FinishRequestFailure(c.turn.value.id)
    ensures KeepsPromise(c, FailOutbound(c.(out := Paused(c.out, response)), onFailure))
  {
    hide FailOutbound, Sound, Closable;
    PausedIsClosable(c, response);
    FailOutboundKeepsPromise(c.(out := Paused(c.out, response)), onFailure);
  }

  lemma EnqueueKeepsPromise(c: Connection, f: OutFrame, response: Option<TurnId>, throws: bool)
    requires Sound(c) && !c.closed && c.turn.Some? && c.out.bytes + f.bytes <= MAX_PENDING_OUTBOUND_BYTES
    requires !f.onFailure.AcknowledgeTerminal? && f.onFailure != FinishRequestFailure(c.turn.value.id)
    ensures KeepsPromise(c, Flush(c.(out := Enqueued(c.out, f, response)), throws))
  {
    hide Flush, Sound, Closable, Enqueued, QueueBooks;
    EnqueuedIsClosable(c, f, response);
    FlushKeepsPromise(c.(out := Enqueued(c.out, f, response)), throws);
  }

  lemma SafeSendKeepsPromise(c: Connection, f: OutFrame, response: Option<TurnId>, throws: bool)
    requires Sound(c) && !c.closed && c.turn.Some?
    requires !f.onFailure.AcknowledgeTerminal? && f.onFailure != FinishRequestFailure(c.turn.value.id)
    ensures KeepsPromise(c, SafeSend(c, f, response, throws).0)
  {
    hide FailOutbound, Flush, RunCallback, Sound, Closable, KeepsPromise;
    SoundIsClosable(c);
    BytesKeptByPausing(c, response);
    if !c.open {
      CallbackKeepsPromise(c, f.onFailure);
    } else if c.out.bytes + f.bytes > MAX_PENDING_OUTBOUND_BYTES {
      OverflowKeepsPromise(c, f.onFailure, response);
    } else {
      EnqueueKeepsPromise(c, f, response, throws);
    }
  }

  lemma EnqueuedReportResolves(c: Connection, f: OutFrame, throws: bool)
    requires Sound(c) && !c.closed && c.turn.Some? && c.out.bytes + f.bytes <= MAX_PENDING_OUTBOUND_BYTES
    requires f.onFailure == FinishRequestFailure(c.turn.value.id)
    ensures
      var d := Flush(c.(out := Enqueued(c.out, f, None)), throws);
      ResolvedIn(c, d) || (!d.closed && d.turn == c.turn)
  {
    hide Flush, Sound, Closable, Enqueued, Failing, QueueBooks;
    EnqueuedIsClosable(c, f, None);
    var queued := c.(out := Enqueued(c.out, f, None));
    FlushIsFailing(queued, throws);
    if FlushFails(queued, throws) {
      FlushedReportResolves(queued, throws);
    }
  }

  /** The report of a failed request resolves the turn if sending it closes the connection. */
  lemma SendingReportResolves(c: Connection, bytes: nat, throws: bool)
    requires Sound(c) && !c.closed && c.turn.Some?
    ensures
      var cb := FinishRequestFailure(c.turn.value.id);
      var d := SafeSend(c, OutFrame(bytes, cb, cb), None, throws).0;
      ResolvedIn(c, d) || (!d.closed && d.turn == c.turn)
  {
    hide FailOutbound, Flush, RunCallback, Sound, Closable;
    var cb := FinishRequestFailure(c.turn.value.id);
    SoundIsClosable(c);
    BytesKeptByPausing(c, None);
    if !c.open {
      ReportResolves(c);
    } else if c.out.bytes + bytes > MAX_PENDING_OUTBOUND_BYTES {
      PausedIsClosable(c, None);
      FailedReportResolves(c.(out := Paused(c.out, None)));
    } else {
      EnqueuedReportResolves(c, OutFrame(bytes, cb, cb), throws);
    }
  }

  // ---------------------------------------------------------------------------------------
  // Events of the response
  // ---------------------------------------------------------------------------------------

  lemma KeepsPromiseTwice(c: Connection, d: Connection, e: Connection)
    requires c.turn.Some? && KeepsPromise(c, d) && KeepsPromise(d, e)
    ensures KeepsPromise(c, e)
  {
  }

  lemma FatalErrorKeepsPromise(c: Connection, bytes: nat, throws: bool)
    requires Sound(c) && Obligations(c, NoCallback) && c.turn.Some?
    ensures KeepsPromise(c, SendFatalError(c, bytes, throws))
  {
    hide SafeSend, RunCallback, InboundInv, OutboundInv, Carried, Closable;
    if Listening(c) {
      var t := c.turn.value;
      var cb := SettleAndClose(t.id);
      var marked := UpdateTurn(c, t.(fatalQueued := true));
      var (d, sent) := SafeSend(marked, OutFrame(bytes, cb, cb), Some(t.id), throws);
      TurnUpdateKeepsInbound(c, marked);
      SafeSendKeepsPromise(marked, OutFrame(bytes, cb, cb), Some(t.id), throws);
      SafeSendKeepsSound(marked, OutFrame(bytes, cb, cb), Some(t.id), throws);
      SoundIsClosable(d);
      CallbackKeepsPromise(d, cb);
    }
  }

  lemma TerminalKeepsPromise(c: Connection, bytes: nat, throws: bool)
    requires Sound(c) && Obligations(c, NoCallback) && Listening(c)
    requires c.turn.value.sse || c.turn.value.bodyEnded
    ensures KeepsPromise(c, SendTerminal(c, bytes, throws))
  {
    hide SafeSend, InboundInv, OutboundInv, Carried;
    var t := c.turn.value;
    var marked := UpdateTurn(c, t.(terminalSent := true));
    TurnUpdateKeepsInbound(c, marked);
    SafeSendKeepsPromise(marked, OutFrame(bytes, AcknowledgeTerminal(t.id), SettleAndClose(t.id)), Some(t.id), throws);
  }

  lemma EventKeepsPromise(c: Connection, e: SseEvent, throws: bool)
    requires Sound(c) && Obligations(c, NoCallback) && Listening(c) && c.turn.value.sse
    ensures KeepsPromise(c, ProcessEvent(c, e, throws))
  {
    hide SafeSend, InboundInv, OutboundInv, SendTerminal, Obligations, FramesOwed;
    match e
    case Ignored =>
    case Delta(bytes) =>
      SafeSendKeepsPromise(c, OutFrame(bytes, NoCallback, SettleAndClose(c.turn.value.id)), Some(c.turn.value.id),
                           throws);
    case Terminal(bytes) => TerminalKeepsPromise(c, bytes, throws);
    case Done(bytes) =>
      if !c.turn.value.terminalSent {
        TerminalKeepsPromise(c, bytes, throws);
      }
  }

  lemma {:induction false} EventsKeepPromise(c: Connection, events: seq<SseEvent>, throws: bool)
    requires Sound(c) && Obligations(c, NoCallback) && c.turn.Some? && c.turn.value.sse
    ensures KeepsPromise(c, ProcessEvents(c, events, throws))
    decreases |events|
  {
    hide ProcessEvent, Sound, Obligations, Later;
    if events != [] && Listening(c) {
      var d := ProcessEvent(c, events[0], throws);
      EventKeepsObligations(c, events[0], throws);
      EventKeepsPromise(c, events[0], throws);
      if Listening(d) {
        EventsKeepPromise(d, events[1..], throws);
      }
    }
  }

  lemma DataKeepsPromise(c: Connection, events: seq<SseEvent>, oversize: bool, n: nat, throws: bool)
    requires Inv(c) && c.turn.Some?
    ensures KeepsPromise(c, ResponseData(c, events, oversize, n, throws))
  {
    hide ProcessEvents, SendFatalError, Sound, Obligations, Later, KeepsPromise;
    KeepsPromiseHere(c);
    if Listening(c) {
      var d := if c.turn.value.sse then ProcessEvents(c, events, throws) else c;
      if c.turn.value.sse {
        EventsKeepObligations(c, events, throws);
        EventsKeepPromise(c, events, throws);
      }
      FatalErrorKeepsPromise(d, n, throws);
      KeepsPromiseTwice(c, d, SendFatalError(d, n, throws));
    }
  }

  lemma KeepsPromiseHere(c: Connection)
    requires c.turn.Some?
    ensures KeepsPromise(c, c)
  {
  }

  /** Whatever closed the connection, closing did for the turn what it had promised. */
  predicate ClosesAsPromised(c: Connection, d: Connection)
    requires c.turn.Some?
  {
    d.closed ==> KeepsPromise(c, d)
  }

  /** On a closed connection the normal end of a response changes nothing. */
  lemma SettleAfterClosing(c: Connection)
    requires Sound(c) && c.turn.Some? && c.closed
    ensures Settle(c) == c
  {
  }

  lemma FinishBodyKeepsPromise(c: Connection, tail: seq<SseEvent>, oversize: bool, n: nat, throws: bool)
    requires Sound(c) && Obligations(c, NoCallback) && Listening(c) && c.turn.value.bodyEnded
    ensures ClosesAsPromised(c, FinishBody(c, tail, oversize, n, throws))
  {
    hide ProcessEvents, SendFatalError, SendTerminal, Settle, Sound, Obligations, Later, KeepsPromise;
    if c.turn.value.sse {
      var d := ProcessEvents(c, tail, throws);
      EventsKeepObligations(c, tail, throws);
      EventsKeepPromise(c, tail, throws);
      FatalErrorKeepsPromise(d, n, throws);
      KeepsPromiseTwice(c, d, SendFatalError(d, n, throws));
      if d.closed {
        SettleAfterClosing(d);
      } else {
        SettleNeverCloses(d);
      }
    } else {
      TerminalKeepsPromise(c, n, throws);
    }
  }

  lemma SettleNeverCloses(c: Connection)
    ensures Settle(c).closed == c.closed
  {
  }

  lemma EndKeepsPromise(c: Connection, tail: seq<SseEvent>, oversize: bool, n: nat, throws: bool)
    requires Inv(c) && c.turn.Some?
    ensures ClosesAsPromised(c, ResponseEnd(c, tail, oversize, n, throws))
  {
    hide FinishBody, InboundInv, OutboundInv, Obligations, FramesOwed;
    if Listening(c) {
      BodyEndedKeepsSound(c);
      FinishBodyKeepsPromise(UpdateTurn(c, EndBody(c.turn.value)), tail, oversize, n, throws);
    }
  }

  lemma FailureKeepsPromise(c: Connection, complete: bool, n: nat, throws: bool)
    requires Inv(c) && c.turn.Some? && !c.closed
    ensures ClosesAsPromised(c, ResponseError(c, n, throws))
    ensures ClosesAsPromised(c, ResponseClose(c, complete, n, throws))
  {
    hide SendFatalError, Sound, Obligations, SettleResponse;
    if c.turn.value.responded {
      OverKeepsSound(c);
      FatalErrorKeepsPromise(MarkOver(c), n, throws);
    }
  }

  // ---------------------------------------------------------------------------------------
  // Events of the request
  // ---------------------------------------------------------------------------------------

  lemma FailedRequestIsSound(c: Connection, bytes: nat)
    requires Inv(c) && c.turn.Some? && !c.closed && !c.turn.value.resolved
    ensures
      var d := UpdateTurn(c, c.turn.value.(turnFinished := true, bodyFinished := true));
      var cb := FinishRequestFailure(c.turn.value.id);
      Sound(d) && Owed(d, OutFrame(bytes, cb, cb))
  {
    hide InboundInv, OutboundInv, FramesOwed, Obligations, Prompt;
    TurnUpdateKeepsInbound(c, UpdateTurn(c, c.turn.value.(turnFinished := true, bodyFinished := true)));
  }

  lemma FailRequestResolves(c: Connection, bytes: nat, throws: bool)
    requires Inv(c) && c.turn.Some? && !c.closed && !c.turn.value.resolved
    ensures
      var d := FailRequest(c, bytes, throws);
      d.closed ==> ResolvedIn(c, d)
  {
    hide SafeSend, RunCallback, Sound, Closable;
    var marked := UpdateTurn(c, c.turn.value.(turnFinished := true, bodyFinished := true));
    var cb := FinishRequestFailure(c.turn.value.id);
    FailedRequestIsSound(c, bytes);
    SendingReportResolves(marked, bytes, throws);
    SafeSendKeepsSound(marked, OutFrame(bytes, cb, cb), None, throws);
    var d := SafeSend(marked, OutFrame(bytes, cb, cb), None, throws).0;
    SoundIsClosable(d);
    SafeSendFollows(marked, OutFrame(bytes, cb, cb), None, throws);
    ReportResolves(d);
  }

  // ---------------------------------------------------------------------------------------
  // Answers of ws.send
  // ---------------------------------------------------------------------------------------

  predicate Quiet(cb: Callback) {
    cb.NoCallback? || cb.AcknowledgeTerminal?
  }

  lemma QuietCallback(c: Connection, cb: Callback)
    requires Quiet(cb)
    ensures
      var d := RunCallback(c, cb);
      && d == c.(turn := d.turn)
      && (c.turn.Some? <==> d.turn.Some?)
      && (c.turn.Some? ==> d.turn.value.resolved || d.turn.value == c.turn.value.(ack := d.turn.value.ack))
  {
    hide RequestClose, SettleResponse;
    if c.turn.Some? {
      SettlingResponse(c.turn.value.(ack := true));
    }
    match cb
    case NoCallback => assert RunCallback(c, cb) == c;
    case AcknowledgeTerminal(turn) =>
      if IsCurrent(c, turn) {
        assert RunCallback(c, cb) == c.(turn := Some(SettleResponse(c.turn.value.(ack := true))));
      } else {
        assert RunCallback(c, cb) == c;
      }
  }

  lemma SettlingResponse(t: Turn)
    ensures SettleResponse(t) == t || SettleResponse(t).resolved
  {
  }

  lemma AckIsCallbackThenFlush(c: Connection, throws: bool)
    requires c.out.active && c.out.inFlight.Some?
    ensures Next(c, Sent(c.out.epoch, true, throws)) ==
            Flush(RunCallback(c.(out := Acknowledged(c.out)), c.out.inFlight.value.onSuccess), throws)
  {
    hide Flush, RunCallback;
  }

  /** The callback that resolves the turn by itself: the report of its failed request, or the
      acknowledgement its ended response was waiting for. */
  predicate Resolves(t: Turn, cb: Callback) {
    || cb == FinishRequestFailure(t.id)
    || (cb == AcknowledgeTerminal(t.id) && t.bodyEnded && !t.responseSettled)
  }

  /** This step runs such a callback: of the frame in flight, or of the next one when its hand-over fails. */
  predicate Discharges(c: Connection, e: Event) {
    && c.turn.Some? && c.out.active && c.out.inFlight.Some?
    && var f := c.out.inFlight.value;
       var report := FinishRequestFailure(c.turn.value.id);
       match e
       case Sent(epoch, ok, throws) =>
         && epoch == c.out.epoch
         && if ok then
              || Resolves(c.turn.value, f.onSuccess)
              || (&& Quiet(f.onSuccess) && c.out.queue != [] && (throws || !c.open)
                  && c.out.queue[0].onFailure == report)
            else f.onFailure == report
       case Deadline(epoch) => epoch == c.out.epoch && f.onFailure == report
       case _ => false
  }

  /** The callback of an acknowledged frame resolves the turn, or does for it what closing would. */
  lemma AcknowledgedPromise(c: Connection)
    requires Inv(c) && c.turn.Some? && c.out.active && c.out.inFlight.Some?
    ensures
      var d := RunCallback(c.(out := Acknowledged(c.out)), c.out.inFlight.value.onSuccess);
      if Resolves(c.turn.value, c.out.inFlight.value.onSuccess) then ResolvedIn(c, d) else KeepsPromise(c, d)
  {
    hide InboundInv, QueueBooks, Closable, Acknowledged, FramesOwed, Obligations, Prompt, RunCallback;
    var x := c.(out := Acknowledged(c.out));
    var cb := c.out.inFlight.value.onSuccess;
    PopKeepsSound(c);
    if cb.AcknowledgeTerminal? {
      AcknowledgementPromise(x, cb.turn);
    } else if cb == FinishRequestFailure(c.turn.value.id) {
      ReportResolves(x);
    } else {
      CallbackKeepsPromise(x, cb);
    }
  }

  lemma AcknowledgementPromise(c: Connection, turn: TurnId)
    requires !c.closed && c.turn.Some? && TurnFlags(c, c.turn.value)
    requires IsCurrent(c, turn) ==> c.turn.value.terminalSent
    ensures
      var d := RunCallback(c, AcknowledgeTerminal(turn));
      if Resolves(c.turn.value, AcknowledgeTerminal(turn)) then ResolvedIn(c, d) else KeepsPromise(c, d)
  {
    hide RequestClose;
  }

  /** An acknowledgement resolves the turn if it discharges it, and otherwise closes as promised. */
  lemma DeliveredPromise(c: Connection, throws: bool)
    requires Inv(c) && c.turn.Some? && c.out.inFlight.Some?
    ensures
      var e := Sent(c.out.epoch, true, throws);
      if Discharges(c, e) then ResolvedIn(c, Next(c, e)) else KeepsPromise(c, Next(c, e))
  {
    AnsweredIsActive(c);
    AckIsCallbackThenFlush(c, throws);
    hide Inv, Next, Flush, RunCallback, QueueBooks, InboundInv, Closable, FramesOwed, Obligations, Prompt, Later;
    var cb := c.out.inFlight.value.onSuccess;
    var x := c.(out := Acknowledged(c.out));
    var d := RunCallback(x, cb);
    AcknowledgedPromise(c);
    CallbackOfAcknowledged(c);
    FlushFollows(d, throws);
    QueueAfterCallback(c);
    if Resolves(c.turn.value, cb) {
    } else if FlushFails(d, throws) && d.out.queue[0].onFailure == FinishRequestFailure(c.turn.value.id) {
      FlushedReportResolves(d, throws);
    } else {
      FlushKeepsPromise(d, throws);
    }
  }

  lemma AnsweredIsActive(c: Connection)
    requires Inv(c) && c.out.inFlight.Some?
    ensures c.out.active && !c.closed
  {
  }

  /** A quiet callback leaves the queue to be flushed; any other one leaves no queue at all. */
  lemma QueueAfterCallback(c: Connection)
    requires Inv(c) && c.out.active && c.out.inFlight.Some?
    ensures
      var cb := c.out.inFlight.value.onSuccess;
      var d := RunCallback(c.(out := Acknowledged(c.out)), cb);
      if Quiet(cb) then d.out == Acknowledged(c.out) && d.open == c.open else !d.out.active
  {
    hide RunCallback, InboundInv, QueueBooks, Closable, FramesOwed, Obligations, Prompt, Later;
    var cb := c.out.inFlight.value.onSuccess;
    var x := c.(out := Acknowledged(c.out));
    PopKeepsSound(c);
    if Quiet(cb) {
      QuietCallback(x, cb);
    } else {
      ClosingCallbackKeepsInv(x, cb);
    }
  }

  /** So does a failed send, and a deadline. */
  lemma FailedPromise(c: Connection, throws: bool)
    requires Inv(c) && c.turn.Some? && c.out.inFlight.Some?
    ensures
      var e := Sent(c.out.epoch, false, throws);
      if Discharges(c, e) then ResolvedIn(c, Next(c, e)) else KeepsPromise(c, Next(c, e))
    ensures
      var e := Deadline(c.out.epoch);
      if Discharges(c, e) then ResolvedIn(c, Next(c, e)) else KeepsPromise(c, Next(c, e))
  {
    AnsweredIsActive(c);
    hide Inv, FailOutbound, QueueBooks, Closable, KeepsPromise, ResolvedIn;
    var o := c.out;
    var d := c.(out := o.(inFlight := None, deadline := false, bytes := o.bytes - o.inFlight.value.bytes));
    PoppedIsClosable(c);
    if o.inFlight.value.onFailure == FinishRequestFailure(c.turn.value.id) {
      FailedReportResolves(c);
      FailedReportResolves(d);
      SameTurn(c, d, FailOutbound(d, o.inFlight.value.onFailure));
    } else {
      FailOutboundKeepsPromise(c, o.inFlight.value.onFailure);
      FailOutboundKeepsPromise(d, o.inFlight.value.onFailure);
      SameTurn(c, d, FailOutbound(d, o.inFlight.value.onFailure));
    }
  }

  lemma SameTurn(c: Connection, d: Connection, e: Connection)
    requires c.turn.Some? && d == c.(out := d.out)
    ensures ResolvedIn(d, e) <==> ResolvedIn(c, e)
    ensures KeepsPromise(d, e) <==> KeepsPromise(c, e)
  {
  }

  lemma PoppedIsClosable(c: Connection)
    requires Inv(c) && c.out.active && c.out.inFlight.Some?
    ensures
      var o := c.out;
      Closable(c) && !o.inFlight.value.onFailure.AcknowledgeTerminal?
      && Closable(c.(out := o.(inFlight := None, deadline := false, bytes := o.bytes - o.inFlight.value.bytes)))
  {
    hide InboundInv, TurnFlags, QueueBooks, Waiting;
    var o := c.out;
    SoundIsClosable(c);
    OutUpdate(c, o.(inFlight := None, deadline := false, bytes := o.bytes - o.inFlight.value.bytes));
    AcknowledgedBooks(o);
  }

  // ---------------------------------------------------------------------------------------
  // Every event
  // ---------------------------------------------------------------------------------------

  lemma RefusedFrameKeepsPromise(c: Connection, n: nat, throws: bool)
    requires Inv(c) && c.turn.Some?
    ensures ClosesAsPromised(c, SendErrorAndClose(c, n, throws))
  {
    hide SafeSend, QueueBooks, Carried, Waiting, TurnFlags;
    if !c.closed && !c.closing {
      var d := DropPendingFrames(c.(closing := true));
      assert TurnFlags(d, d.turn.value) by {
        SameFlags(c, d);
      }
      forall f | f in Waiting(d.out) ensures Owed(d, f) {
        assert Owed(c, f);
      }
      SafeSendKeepsPromise(d, OutFrame(n, CloseAfterError, CloseAfterError), None, throws);
    }
  }

  lemma SameFlags(c: Connection, d: Connection)
    requires c.turn.Some? && TurnFlags(c, c.turn.value)
    requires d == c.(closing := true, inbound := d.inbound, inboundBytes := d.inboundBytes)
    ensures TurnFlags(d, d.turn.value)
  {
  }

  lemma SocketKeepsPromise(c: Connection)
    requires Inv(c) && c.turn.Some? && !c.closed
    ensures KeepsPromise(c, Finalize(c)) && KeepsPromise(c, Finalize(c.(open := false)))
    ensures Finalize(c).closed && Finalize(c.(open := false)).closed
  {
    hide CloseNow, OutboundInv, InboundInv, FramesOwed;
    SoundIsClosable(c);
    OfflineKeepsInv(c);
    SoundIsClosable(c.(open := false));
    CloseNowKeepsInv(c);
    CloseNowKeepsInv(c.(open := false));
  }

  /** An event of the response, the client or the socket. */
  predicate NeitherAnswerNorRequest(e: Event) {
    && !e.Sent? && !e.Deadline?
    && !e.RequestFailed? && !e.BodyClosed? && !e.BodyExpired?
  }

  lemma EventClosesAsPromised(c: Connection, e: Event)
    requires Inv(c) && !c.closed && c.turn.Some? && !c.turn.value.resolved && NeitherAnswerNorRequest(e)
    ensures ClosesAsPromised(c, Next(c, e))
  {
    hide Inv, SendErrorAndClose, Finalize, ResponseData, ResponseEnd, ResponseError, ResponseClose;
    match e
    case Message(_, _, n, throws) => RefusedFrameKeepsPromise(c, n, throws);
    case TurnResolved(_) =>
    case PeerCloses =>
    case SocketClosed => SocketKeepsPromise(c);
    case SocketError => SocketKeepsPromise(c);
    case Response(isSse) =>
    case Data(events, oversize, n, throws) => DataKeepsPromise(c, events, oversize, n, throws);
    case End(events, oversize, n, throws) => EndKeepsPromise(c, events, oversize, n, throws);
    case TransportError(n, throws) => FailureKeepsPromise(c, false, n, throws);
    case TransportClose(complete, n, throws) => FailureKeepsPromise(c, complete, n, throws);
    case BodyDrained =>
  }

  lemma RequestEventResolves(c: Connection, n: nat, throws: bool)
    requires Inv(c) && !c.closed && c.turn.Some? && !c.turn.value.resolved
    ensures RequestError(c, n, throws).closed ==> ResolvedIn(c, RequestError(c, n, throws)) && Promised(c)
    ensures RequestBodyClosed(c, n, throws).closed ==> ResolvedIn(c, RequestBodyClosed(c, n, throws)) && Promised(c)
    ensures RequestBodyExpired(c, n, throws).closed ==> ResolvedIn(c, RequestBodyExpired(c, n, throws)) && Promised(c)
  {
    hide FailRequest, InboundInv, OutboundInv, Obligations, FramesOwed, Prompt;
    FailRequestResolves(c, n, throws);
  }

  /** When a step closes the connection, for whatever reason, the turn is resolved exactly if no request failure
      had marked it finished, or the step runs the callback that reports this failure or completes its response. */
  lemma EveryCloseSettlesExactly(c: Connection, e: Event)
    requires Reachable(c) && !c.closed && c.turn.Some? && !c.turn.value.resolved && Next(c, e).closed
    ensures
      var d := Next(c, e);
      && IsCurrent(d, c.turn.value.id)
      && (d.turn.value.resolved <==> !c.turn.value.turnFinished || Discharges(c, e))
  {
    ReachableHasInv(c);
    NextSettlesExactly(c, e);
  }

  lemma NextSettlesExactly(c: Connection, e: Event)
    requires Inv(c) && !c.closed && c.turn.Some? && !c.turn.value.resolved && Next(c, e).closed
    ensures IsCurrent(Next(c, e), c.turn.value.id)
    ensures Next(c, e).turn.value.resolved <==> !c.turn.value.turnFinished || Discharges(c, e)
  {
    hide Inv, SendResult, SendDeadline, RequestError, RequestBodyClosed, RequestBodyExpired;
    if NeitherAnswerNorRequest(e) {
      hide Next;
      EventClosesAsPromised(c, e);
    } else if e.Sent? || e.Deadline? {
      AnswerSettlesExactly(c, e);
    } else {
      match e
      case RequestFailed(n, throws) => RequestEventResolves(c, n, throws);
      case BodyClosed(n, throws) => RequestEventResolves(c, n, throws);
      case BodyExpired(n, throws) => RequestEventResolves(c, n, throws);
      case _ => assert false;
    }
  }

  lemma AnswerSettlesExactly(c: Connection, e: Event)
    requires Inv(c) && c.turn.Some? && (e.Sent? || e.Deadline?)
    ensures if Discharges(c, e) then ResolvedIn(c, Next(c, e)) else KeepsPromise(c, Next(c, e))
  {
    hide Inv, Next;
    if c.out.inFlight.Some? && e.epoch == c.out.epoch {
      DeliveredPromise(c, if e.Sent? then e.throws else false);
      FailedPromise(c, if e.Sent? then e.throws else false);
    } else {
      NothingAnswered(c, e);
    }
  }

  lemma NothingAnswered(c: Connection, e: Event)
    requires e.Sent? || e.Deadline?
    requires c.out.inFlight.None? || e.epoch != c.out.epoch
    ensures Next(c, e) == c && !Discharges(c, e)
  {
  }

  /** Where no frame is expecting it, an answer changes nothing. */
  lemma NoAnswerExpected(c: Connection, epoch: nat, ok: bool, throws: bool)
    requires c.out.inFlight.None? || epoch != c.out.epoch
    ensures SendResult(c, epoch, ok, throws) == c && SendDeadline(c, epoch) == c
  {
  }

  /** In particular, when the socket closes or fails, the turn is settled exactly if no request failure is
      being reported. */
  lemma SocketCloseSettlesExactly(c: Connection, e: Event)
    requires Reachable(c) && !c.closed && c.turn.Some? && !c.turn.value.resolved
    requires e.SocketClosed? || e.SocketError?
    ensures
      var d := Next(c, e);
      d.closed && IsCurrent(d, c.turn.value.id) && (d.turn.value.resolved <==> !c.turn.value.turnFinished)
  {
    hide Inv, Finalize;
    ReachableHasInv(c);
    SocketKeepsPromise(c);
  }

  /** An answer of ws.send, or its deadline, never costs a turn its promise. */
  lemma AnswerKeepsPromise(c: Connection, e: Event)
    requires Inv(c) && c.turn.Some? && (e.Sent? || e.Deadline?) && Promised(c)
    ensures IsCurrent(Next(c, e), c.turn.value.id) && Promised(Next(c, e))
  {
    hide Inv, Next, Discharges;
    AnswerSettlesExactly(c, e);
  }

  // ---------------------------------------------------------------------------------------
  // Orphaned turns
  // ---------------------------------------------------------------------------------------

  /** A turn that is unresolved on a closed connection stays unresolved, whatever happens later. */
  lemma {:induction false} OrphanedTurnsStay(c: Connection, events: seq<Event>)
    requires Inv(c) && c.closed && c.turn.Some? && !c.turn.value.resolved
    ensures
      var d := Run(c, events);
      d.closed && IsCurrent(d, c.turn.value.id) && !d.turn.value.resolved
    decreases |events|
  {
    hide Inv, Next;
    if events != [] {
      OrphanStays(c, events[0]);
      NextKeepsInv(c, events[0]);
      OrphanedTurnsStay(Next(c, events[0]), events[1..]);
    }
  }

  lemma OrphanStays(c: Connection, e: Event)
    requires Inv(c) && c.closed && c.turn.Some? && !c.turn.value.resolved
    ensures
      var d := Next(c, e);
      d.closed && IsCurrent(d, c.turn.value.id) && !d.turn.value.resolved
  {
    hide SafeSend, RunCallback, CloseNow, InboundInv, OutboundInv, FramesOwed, Obligations, Prompt;
    assert !c.out.active && c.turn.value.turnFinished && (c.turn.value.responded ==> c.turn.value.responseSettled);
  }

  lemma RunOfThree(c: Connection, e0: Event, e1: Event, e2: Event)
    ensures Run(c, [e0, e1, e2]) == Next(Next(Next(c, e0), e1), e2)
  {
    hide Next;
    assert [e0, e1, e2][1..] == [e1, e2];
    assert [e1, e2][1..] == [e2];
    assert [e2][1..] == [];
    assert Run(c, [e0, e1, e2]) == Run(Next(c, e0), [e1, e2]);
    assert Run(Next(c, e0), [e1, e2]) == Run(Next(Next(c, e0), e1), [e2]);
    assert Run(Next(Next(c, e0), e1), [e2]) == Run(Next(Next(Next(c, e0), e1), e2), []);
  }

  /** The connection that has started one frame and sent nothing. */
  function Started(f: InFrame, t: Turn): Connection {
    Init().(turn := Some(t), turnSequence := 1, arrived := [f], started := [f])
  }

  lemma OneFrameStarts(f: InFrame)
    requires f.kind == Create(true) && f.size <= MAX_PENDING_BYTES
    ensures Next(Init(), Message(f, false, 0, false)) == Started(f, NewTurn(1, f.kind))
  {
  }

  /** A request failure whose report is not acknowledged before the socket closes orphans its turn. */
  lemma ARequestFailureCanOrphanTheTurn(f: InFrame)
    requires f.kind == Create(true) && f.size <= MAX_PENDING_BYTES
    ensures
      var c := Run(Init(), [Message(f, false, 0, false), RequestFailed(1, false), SocketClosed]);
      Reachable(c) && c.closed && c.turn.Some? && !c.turn.value.resolved
  {
    RunOfThree(Init(), Message(f, false, 0, false), RequestFailed(1, false), SocketClosed);
    OneFrameStarts(f);
    hide Run;
  }

  lemma RunOfFour(c: Connection, e0: Event, e1: Event, e2: Event, e3: Event)
    ensures Run(c, [e0, e1, e2, e3]) == Next(Next(Next(Next(c, e0), e1), e2), e3)
  {
    hide Next;
    assert [e0, e1, e2, e3][1..] == [e1, e2, e3];
    RunOfThree(Next(c, e0), e1, e2, e3);
  }

  /** The same connection while the error that refuses a binary frame is being sent, and frames wait behind it. */
  function Refused(f: InFrame, t: Turn, n: nat, queue: seq<OutFrame>, pressured: set<TurnId>): Connection {
    var error := OutFrame(n, CloseAfterError, CloseAfterError);
    Started(f, t).(closing := true, out := Outbound(1, true, Some(error), true, queue, n + TotalBytes(queue), pressured,
                                                    [error] + queue, [error], []))
  }

  lemma ABinaryFrameIsRefused(f: InFrame, t: Turn, n: nat)
    requires n <= MAX_PENDING_OUTBOUND_BYTES
    ensures Next(Started(f, t), Message(f, true, n, false)) == Refused(f, t, n, [], {})
  {
  }

  lemma AFailedRequestIsQueued(f: InFrame, t: Turn, n: nat)
    requires t.id == 1 && t.requested && !t.turnFinished && n < MAX_PENDING_OUTBOUND_BYTES
    ensures
      var cb := FinishRequestFailure(1);
      Next(Refused(f, t, n, [], {}), RequestFailed(1, false)) ==
      Refused(f, t.(turnFinished := true, bodyFinished := true), n, [OutFrame(1, cb, cb)], {})
  {
    OneFrame(OutFrame(1, FinishRequestFailure(1), FinishRequestFailure(1)));
  }

  lemma TheErrorClosesFirst(f: InFrame, t: Turn, n: nat, queue: seq<OutFrame>, pressured: set<TurnId>)
    requires t.turnFinished && !t.resolved
    ensures
      var d := Next(Refused(f, t, n, queue, pressured), Sent(1, true, false));
      d.closed && d.turn.Some? && !d.turn.value.resolved
  {
  }

  /** The server closes the connection itself: the error that refuses a binary frame destroys the request, whose
      failure queues a report behind this error, and the acknowledgement of the error drops the report. */
  lemma AnErrorReportCanOrphanTheTurn(f: InFrame, n: nat)
    requires f.kind == Create(true) && f.size <= MAX_PENDING_BYTES && n < MAX_PENDING_OUTBOUND_BYTES
    ensures
      var c := Run(Init(), [Message(f, false, 0, false), Message(f, true, n, false), RequestFailed(1, false),
                            Sent(1, true, false)]);
      Reachable(c) && c.closed && c.turn.Some? && !c.turn.value.resolved
  {
    var t := NewTurn(1, f.kind);
    var cb := FinishRequestFailure(1);
    RunOfFour(Init(), Message(f, false, 0, false), Message(f, true, n, false), RequestFailed(1, false),
              Sent(1, true, false));
    OneFrameStarts(f);
    ABinaryFrameIsRefused(f, t, n);
    AFailedRequestIsQueued(f, t, n);
    TheErrorClosesFirst(f, t.(turnFinished := true, bodyFinished := true), n, [OutFrame(1, cb, cb)], {});
    hide Run, Next, Refused, Started;
  }
}
