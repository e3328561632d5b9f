/** What the WebSocket tunnel keeps over every run of its events. */
module TunnelProofs {
  import opened Wrappers
  import opened Tunnel

  // ---------------------------------------------------------------------------------------
  // The invariant
  // ---------------------------------------------------------------------------------------

  function TotalSize(frames: seq<InFrame>): nat {
    if frames == [] then 0 else frames[0].size + TotalSize(frames[1..])
  }

  function TotalBytes(frames: seq<OutFrame>): nat {
    if frames == [] then 0 else frames[0].bytes + TotalBytes(frames[1..])
  }

  function InFlight(o: Outbound): seq<OutFrame> {
    if o.inFlight.Some? then [o.inFlight.value] else []
  }

  /** Frames whose callbacks have not run: the one handed to ws.send, then the queue. */
  function Waiting(o: Outbound): seq<OutFrame> {
    InFlight(o) + o.queue
  }

  /** The books of the inbound queue: bounds, bytes, and arrival order. */
  ghost predicate InboundBooks(c: Connection) {
    && |c.inbound| <= MAX_PENDING_FRAMES
    && c.inboundBytes == TotalSize(c.inbound) <= MAX_PENDING_BYTES
    && (c.closed || c.closing ==> c.inbound == [])
    && c.started <= c.arrived
    && (!c.closed && !c.closing ==> c.arrived == c.started + c.inbound)
  }

  /** No wakeup is lost: a pending frame means a frame in flight. */
  ghost predicate InboundInv(c: Connection) {
    InboundBooks(c) && (c.inbound != [] ==> c.turn.Some?)
  }

  /** The books of the outbound queue: bytes, order, and one frame at a time. */
  ghost predicate QueueBooks(o: Outbound) {
    && (!o.active ==> o.inFlight.None? && o.queue == [] && o.bytes == 0 && o.pressured == {})
    && o.bytes == TotalBytes(Waiting(o)) <= MAX_PENDING_OUTBOUND_BYTES
    && (o.deadline <==> o.inFlight.Some?)
    && (o.active ==> o.accepted == o.sent + o.queue && o.sent == o.succeeded + InFlight(o))
    && (forall f :: f in Waiting(o) ==> !f.onFailure.AcknowledgeTerminal?)
  }

  /** Between two callbacks of the event loop, moreover, nothing waits without a send in flight. */
  ghost predicate OutboundInv(o: Outbound) {
    QueueBooks(o) && (o.inFlight.None? ==> o.queue == [] && o.pressured == {})
  }

  /** Some waiting frame runs this callback when it is acknowledged. */
  ghost predicate Carried(o: Outbound, cb: Callback) {
    exists f :: f in Waiting(o) && f.onSuccess == cb
  }

  /** The client can still be reached: the closing handshake has not begun. */
  predicate Live(c: Connection) {
    c.open && !c.closed
  }

  ghost predicate TurnFlags(c: Connection, t: Turn) {
    && t.id == c.turnSequence
    && (!t.requested ==> t.resolved && !t.responded)
    && (t.resolved ==> t.turnFinished && (t.responded ==> t.responseSettled))
    && (t.turnFinished ==> t.bodyFinished)
    && (t.responseSettled ==> t.turnFinished && (t.responded || c.closed))
    && (c.closed ==> t.turnFinished && (t.responded ==> t.responseSettled))
    && (!c.closed && !t.resolved ==> t.registered)
    && (t.fatalQueued || t.terminalSent || t.bodyEnded || t.over ==> t.responded)
    && (t.ack ==> t.terminalSent)
    && (t.bodyEnded ==> t.over)
    && (Live(c) && !c.closing && t.requested && t.resolved ==> t.bodyEnded && t.ack)
    && (!t.sse && t.terminalSent ==> t.bodyEnded)
  }

  /** A frame that is waiting, or the one about to be sent, runs the callback when acknowledged. */
  ghost predicate Covered(o: Outbound, extra: Callback, cb: Callback) {
    Carried(o, cb) || cb == extra
  }

  /** While the client can be reached, every obligation of the turn is covered by a frame. */
  ghost predicate TurnCovered(c: Connection, t: Turn, extra: Callback) {
    && (!t.resolved && t.turnFinished ==> Covered(c.out, extra, FinishRequestFailure(t.id)))
    && (!t.turnFinished && t.fatalQueued ==> Covered(c.out, extra, SettleAndClose(t.id)))
    && (!t.turnFinished && t.terminalSent ==> t.ack || Covered(c.out, extra, AcknowledgeTerminal(t.id)))
  }

  ghost predicate Obligations(c: Connection, extra: Callback) {
    Live(c) ==>
      && (c.turn.Some? ==> TurnCovered(c, c.turn.value, extra))
      && (c.closing ==> Covered(c.out, extra, CloseAfterError))
  }

  /** Unless a fatal error will settle it: a response that is over has ended its body, a body that ended
      has sent a terminal event or was cut short, and the acknowledgement of both settles the turn. */
  predicate Prompt(c: Connection) {
    c.turn.Some? && Live(c) && !c.turn.value.turnFinished && !c.turn.value.fatalQueued ==>
      && !(c.turn.value.ack && c.turn.value.bodyEnded)
      && (c.turn.value.over ==> c.turn.value.bodyEnded)
      && (c.turn.value.bodyEnded ==> c.turn.value.terminalSent || c.turn.value.cutShort)
  }

  /** A frame that can settle a turn was sent by it, and the turn remembers sending it. */
  predicate Owed(c: Connection, f: OutFrame) {
    match f.onSuccess
    case AcknowledgeTerminal(turn) => turn <= c.turnSequence && (IsCurrent(c, turn) ==> c.turn.value.terminalSent)
    case SettleAndClose(turn) => turn <= c.turnSequence && (IsCurrent(c, turn) ==> c.turn.value.fatalQueued)
    case FinishRequestFailure(turn) => turn <= c.turnSequence && (IsCurrent(c, turn) ==> c.turn.value.turnFinished)
    case CloseAfterError => c.closing
    case NoCallback => true
  }

  ghost predicate FramesOwed(c: Connection) {
    forall f :: f in Waiting(c.out) ==> Owed(c, f)
  }

  /** What a connection looks like in the middle of a step, whatever its turn still owes. */
  ghost predicate Sound(c: Connection) {
    && InboundInv(c) && OutboundInv(c.out) && FramesOwed(c)
    && (c.closed ==> !c.out.active)
    && (c.turn.Some? ==> TurnFlags(c, c.turn.value))
  }

  ghost predicate Inv(c: Connection) {
    Sound(c) && Obligations(c, NoCallback) && Prompt(c)
  }

  // ---------------------------------------------------------------------------------------
  // Closing
  // ---------------------------------------------------------------------------------------

  lemma {:induction false} TotalBytesAppend(a: seq<OutFrame>, b: seq<OutFrame>)
    ensures TotalBytes(a + b) == TotalBytes(a) + TotalBytes(b)
    decreases |a|
  {
    if a == [] {
      assert a + b == b;
    } else {
      assert (a + b)[1..] == a[1..] + b;
      TotalBytesAppend(a[1..], b);
    }
  }

  lemma {:induction false} TotalSizeAppend(a: seq<InFrame>, b: seq<InFrame>)
    ensures TotalSize(a + b) == TotalSize(a) + TotalSize(b)
    decreases |a|
  {
    if a == [] {
      assert a + b == b;
    } else {
      assert (a + b)[1..] == a[1..] + b;
      TotalSizeAppend(a[1..], b);
    }
  }

  lemma InvalidateIsIdle(o: Outbound)
    requires OutboundInv(o) || o.active
    ensures OutboundInv(Invalidate(o)) && !Invalidate(o).active && Waiting(Invalidate(o)) == []
  {
  }

  /** The flags of a connection, as far as closing it needs them. */
  ghost predicate Closable(c: Connection) {
    && c.started <= c.arrived
    && (OutboundInv(c.out) || c.out.active)
    && (c.turn.Some? ==> TurnFlags(c, c.turn.value))
    && (c.closed ==> c.inbound == [] && c.inboundBytes == 0 && !c.out.active)
  }

  /** The registered closure settles the turn, unless a request failure had marked it finished. */
  lemma SettlingKeepsFlags(c: Connection)
    requires !c.closed && c.turn.Some? && TurnFlags(c, c.turn.value)
    ensures
      var d := SettleCurrent(c.(closed := true));
      && d == c.(closed := true, turn := d.turn) && d.turn.Some?
      && TurnFlags(d, d.turn.value) && d.turn.value.id == c.turn.value.id
      && (d.turn.value.resolved <==> c.turn.value.resolved || !c.turn.value.turnFinished)
  {
  }

  /** Closing resolves the turn exactly if no request failure had already marked it finished. */
  lemma CloseNowKeepsInv(c: Connection)
    requires Closable(c) && !c.closed
    ensures Inv(CloseNow(c)) && CloseNow(c).closed
    ensures c.turn.Some? <==> CloseNow(c).turn.Some?
    ensures c.turn.Some? ==> (CloseNow(c).turn.value.resolved <==> c.turn.value.resolved || !c.turn.value.turnFinished)
    ensures c.turn.Some? ==> CloseNow(c).turn.value.id == c.turn.value.id
  {
    InvalidateIsIdle(c.out);
    if c.turn.Some? {
      SettlingKeepsFlags(c);
      var d := SettleCurrent(c.(closed := true));
      OutUpdate(DropPendingFrames(d), Invalidate(c.out));
      assert TurnFlags(d, d.turn.value) ==> TurnFlags(DropPendingFrames(d), d.turn.value);
      hide OutboundInv, Waiting, SettleCurrent, TurnFlags, Invalidate;
    } else {
      hide OutboundInv, Waiting, TurnFlags, Invalidate;
    }
  }

  lemma RequestCloseKeepsInv(c: Connection)
    requires Closable(c)
    ensures Inv(RequestClose(c)) && RequestClose(c).closed
    ensures c.turn.Some? <==> RequestClose(c).turn.Some?
    ensures c.turn.Some? ==> RequestClose(c).turn.value.id == c.turn.value.id
    ensures c.turn.Some? && !c.closed ==>
              (RequestClose(c).turn.value.resolved <==> c.turn.value.resolved || !c.turn.value.turnFinished)
    ensures c.closed ==> RequestClose(c).turn == c.turn
  {
    hide CloseNow;
    if !c.closed {
      CloseNowKeepsInv(c);
    }
  }

  /** A callback other than the acknowledgement closes the connection. */
  lemma ClosingCallbackKeepsInv(c: Connection, cb: Callback)
    requires Closable(c) && !cb.NoCallback? && !cb.AcknowledgeTerminal?
    ensures Inv(RunCallback(c, cb)) && RunCallback(c, cb).closed
  {
    hide OutboundInv, RequestClose;
    RequestCloseKeepsInv(c);
  }

  /** When the outbound queue fails, the client can no longer be reached. */
  lemma FailOutboundKeepsInv(c: Connection, onFailure: Callback)
    requires Closable(c) && c.out.active && !onFailure.AcknowledgeTerminal?
    requires InboundInv(c)
    ensures Inv(FailOutbound(c, onFailure)) && !Live(FailOutbound(c, onFailure))
  {
    hide OutboundInv, RunCallback;
    InvalidateIsIdle(c.out);
    var d := c.(out := Invalidate(c.out));
    if onFailure.NoCallback? {
      assert FailOutbound(c, onFailure) == d.(open := false);
    } else {
      ClosingCallbackKeepsInv(d, onFailure);
    }
  }

  // ---------------------------------------------------------------------------------------
  // Sending
  // ---------------------------------------------------------------------------------------

  /** `d` is `c` up to its outbound queue. */
  ghost predicate SameButOut(c: Connection, d: Connection) {
    d == c.(out := d.out)
  }

  lemma StartSending(o: Outbound)
    requires QueueBooks(o) && o.active && o.inFlight.None? && o.queue != []
    ensures
      var next := o.queue[0];
      var t := o.(queue := o.queue[1..], inFlight := Some(next), deadline := true, sent := o.sent + [next]);
      OutboundInv(t) && Waiting(t) == Waiting(o) && !next.onFailure.AcknowledgeTerminal?
  {
    var next := o.queue[0];
    assert [next] + o.queue[1..] == o.queue == Waiting(o);
    assert next in Waiting(o);
    assert o.sent + o.queue == (o.sent + [next]) + o.queue[1..];
  }

  /** Nothing but the send state changed. */
  lemma OutUpdate(c: Connection, o: Outbound)
    ensures InboundInv(c) ==> InboundInv(c.(out := o))
    ensures Closable(c) && (o.active || OutboundInv(o)) && (c.closed ==> !o.active) ==> Closable(c.(out := o))
    ensures c.turn.Some? && TurnFlags(c, c.turn.value) ==> TurnFlags(c.(out := o), c.turn.value)
  {
  }

  /** Flushing hands over the oldest waiting frame, or loses the client. */
  lemma FlushKeepsSound(c: Connection, throws: bool)
    requires InboundInv(c) && QueueBooks(c.out) && Closable(c) && FramesOwed(c)
    ensures Sound(Flush(c, throws))
    ensures Live(Flush(c, throws)) ==>
              SameButOut(c, Flush(c, throws)) && Waiting(Flush(c, throws).out) == Waiting(c.out)
  {
    hide FailOutbound, InboundInv, TurnFlags, TotalBytes;
    var o := c.out;
    if o.active && o.inFlight.None? {
      if o.queue == [] {
        OutUpdate(c, o.(pressured := {}));
      } else {
        StartSending(o);
        var next := o.queue[0];
        var popped := o.(queue := o.queue[1..]);
        var sending := o.(queue := o.queue[1..], inFlight := Some(next), deadline := true, sent := o.sent + [next]);
        OutUpdate(c, popped);
        OutUpdate(c, sending);
        FailOutboundKeepsInv(c.(out := popped), next.onFailure);
        FailOutboundKeepsInv(c.(out := sending), next.onFailure);
      }
    }
  }

  function Enqueued(o: Outbound, f: OutFrame, response: Option<TurnId>): Outbound {
    var p := Paused(o, response);
    p.(queue := p.queue + [f], bytes := p.bytes + f.bytes, accepted := p.accepted + [f])
  }

  lemma OneFrame(f: OutFrame)
    ensures TotalBytes([f]) == f.bytes
  {
    assert [f][1..] == [];
  }

  lemma EnqueueKeepsBooks(o: Outbound, f: OutFrame, response: Option<TurnId>)
    requires OutboundInv(o) && !f.onFailure.AcknowledgeTerminal?
    requires o.bytes + f.bytes <= MAX_PENDING_OUTBOUND_BYTES
    ensures
      var q := Enqueued(o, f, response);
      QueueBooks(q) && q.active && Waiting(q) == Waiting(o) + [f]
  {
    hide TotalBytes;
    var q := Enqueued(o, f, response);
    TotalBytesAppend(Waiting(o), [f]);
    OneFrame(f);
    assert Waiting(q) == Waiting(o) + [f];
    assert q.accepted == q.sent + q.queue;
  }

  lemma SoundIsClosable(c: Connection)
    requires Sound(c)
    ensures Closable(c)
  {
  }

  lemma SendToClosedSocket(c: Connection, f: OutFrame)
    requires Sound(c) && !f.onFailure.AcknowledgeTerminal? && !c.open
    ensures Sound(RunCallback(c, f.onFailure)) && !Live(RunCallback(c, f.onFailure))
  {
    if !f.onFailure.NoCallback? {
      hide RunCallback;
      ClosingCallbackKeepsInv(c, f.onFailure);
    }
  }

  lemma OverflowLosesTheClient(c: Connection, f: OutFrame, response: Option<TurnId>)
    requires Sound(c) && !c.closed && !f.onFailure.AcknowledgeTerminal?
    ensures
      var d := FailOutbound(c.(out := Paused(c.out, response)), f.onFailure);
      Sound(d) && !Live(d)
  {
    hide FailOutbound, InboundInv, TurnFlags;
    SoundIsClosable(c);
    OutUpdate(c, Paused(c.out, response));
    FailOutboundKeepsInv(c.(out := Paused(c.out, response)), f.onFailure);
  }

  lemma EnqueueKeepsSound(c: Connection, f: OutFrame, response: Option<TurnId>, throws: bool)
    requires Sound(c) && !c.closed && !f.onFailure.AcknowledgeTerminal? && Owed(c, f)
    requires c.out.bytes + f.bytes <= MAX_PENDING_OUTBOUND_BYTES
    ensures
      var d := Flush(c.(out := Enqueued(c.out, f, response)), throws);
      Sound(d) && (Live(d) ==> SameButOut(c, d) && Waiting(d.out) == Waiting(c.out) + [f])
  {
    hide Flush, InboundInv, TurnFlags, QueueBooks, Waiting;
    SoundIsClosable(c);
    EnqueueKeepsBooks(c.out, f, response);
    OutUpdate(c, Enqueued(c.out, f, response));
    FlushKeepsSound(c.(out := Enqueued(c.out, f, response)), throws);
  }

  /** safeSend appends exactly one waiting frame, or the client is lost. */
  lemma SafeSendKeepsSound(c: Connection, f: OutFrame, response: Option<TurnId>, throws: bool)
    requires Sound(c) && !c.closed && !f.onFailure.AcknowledgeTerminal? && Owed(c, f)
    ensures
      var (d, sent) := SafeSend(c, f, response, throws);
      && Sound(d)
      && (Live(d) ==> sent && SameButOut(c, d) && Waiting(d.out) == Waiting(c.out) + [f])
  {
    hide FailOutbound, Flush, RunCallback, Sound;
    if !c.open {
      SendToClosedSocket(c, f);
    } else {
      BytesKeptByPausing(c, response);
      if c.out.bytes + f.bytes > MAX_PENDING_OUTBOUND_BYTES {
        OverflowLosesTheClient(c, f, response);
      } else {
        EnqueueKeepsSound(c, f, response, throws);
      }
    }
  }

  lemma BytesKeptByPausing(c: Connection, response: Option<TurnId>)
    requires Sound(c)
    ensures Paused(c.out, response).bytes == c.out.bytes
  {
  }

  lemma AppendedFrameCarries(o: Outbound, p: Outbound, f: OutFrame, cb: Callback)
    requires Waiting(p) == Waiting(o) + [f]
    requires Covered(o, f.onSuccess, cb)
    ensures Carried(p, cb)
  {
    if Carried(o, cb) {
      var g :| g in Waiting(o) && g.onSuccess == cb;
      assert g in Waiting(p);
    } else {
      assert f in Waiting(p);
    }
  }

  /** Sending the frame that covers what the turn owes restores the invariant. */
  lemma SendKeepsInv(c: Connection, f: OutFrame, response: Option<TurnId>, throws: bool)
    requires Sound(c) && !c.closed && !f.onFailure.AcknowledgeTerminal? && Owed(c, f)
    requires Obligations(c, f.onSuccess)
    ensures
      var (d, sent) := SafeSend(c, f, response, throws);
      && Sound(d) && Obligations(d, NoCallback)
      && (Live(d) ==> sent && SameButOut(c, d))
  {
    hide SafeSend, Sound, Waiting;
    SafeSendKeepsSound(c, f, response, throws);
    var d := SafeSend(c, f, response, throws).0;
    if Live(d) {
      forall cb | Covered(c.out, f.onSuccess, cb) ensures Covered(d.out, NoCallback, cb) {
        AppendedFrameCarries(c.out, d.out, f, cb);
      }
    }
  }

  /** The same turn, answered by the same kind of response; nothing started; no flag taken back. */
  predicate Follows(c: Connection, d: Connection) {
    && (c.turn.Some? <==> d.turn.Some?)
    && (c.turn.Some? ==>
          && d.turn.value.sse == c.turn.value.sse && d.turn.value.id == c.turn.value.id
          && (c.turn.value.resolved ==> d.turn.value.resolved))
    && d.started == c.started && d.arrived == c.arrived && d.turnSequence == c.turnSequence
    && (c.closed ==> d.closed) && (c.closing ==> d.closing) && (!c.open ==> !d.open)
    && Later(c.out, d.out)
  }

  /** Epochs only grow, an invalidated one stays invalid, and the history of one epoch is append-only. */
  predicate Later(o: Outbound, p: Outbound) {
    && o.epoch <= p.epoch
    && (o.epoch == p.epoch ==>
          (!o.active ==> !p.active) && o.accepted <= p.accepted && o.sent <= p.sent && o.succeeded <= p.succeeded)
  }

  lemma SameQueueIsLater(o: Outbound)
    ensures Later(o, o)
  {
  }

  lemma ClosingFollows(c: Connection)
    ensures Follows(c, RequestClose(c))
  {
    hide SettleCurrent;
    SettlingFollows(c.(closed := true));
  }

  lemma ForceSettledTurn(t: Turn)
    ensures ForceSettleTurn(t).id == t.id && ForceSettleTurn(t).sse == t.sse
    ensures t.resolved ==> ForceSettleTurn(t).resolved
  {
  }

  lemma ForceSettledResponse(t: Turn)
    ensures ForceSettleResponse(t).id == t.id && ForceSettleResponse(t).sse == t.sse
    ensures t.resolved ==> ForceSettleResponse(t).resolved
  {
    hide ForceSettleTurn;
    ForceSettledTurn(t.(responseSettled := true));
  }

  lemma SettlingFollows(c: Connection)
    ensures Follows(c, SettleCurrent(c))
  {
    hide Later, ForceSettleTurn, ForceSettleResponse;
    SameQueueIsLater(c.out);
    if c.turn.Some? {
      ForceSettledTurn(c.turn.value);
      ForceSettledResponse(c.turn.value);
    }
  }

  lemma CallbackFollows(c: Connection, cb: Callback)
    ensures Follows(c, RunCallback(c, cb))
  {
    hide RequestClose;
    ClosingFollows(c);
  }

  lemma FailOutboundFollows(c: Connection, onFailure: Callback)
    ensures Follows(c, FailOutbound(c, onFailure))
  {
    hide RunCallback;
    CallbackFollows(c.(out := Invalidate(c.out)), onFailure);
  }

  /** Sending never replaces the turn. */
  lemma SafeSendFollows(c: Connection, f: OutFrame, response: Option<TurnId>, throws: bool)
    ensures Follows(c, SafeSend(c, f, response, throws).0)
  {
    hide RunCallback, FailOutbound, Flush;
    CallbackFollows(c, f.onFailure);
    var o := Enqueued(c.out, f, response);
    FailOutboundFollows(c.(out := Paused(c.out, response)), f.onFailure);
    FlushFollows(c.(out := o), throws);
  }

  lemma FlushFollows(c: Connection, throws: bool)
    ensures Follows(c, Flush(c, throws))
  {
    hide RunCallback, FailOutbound;
    var o := c.out;
    if o.active && o.inFlight.None? && o.queue != [] {
      var next := o.queue[0];
      FailOutboundFollows(c.(out := o.(queue := o.queue[1..])), next.onFailure);
      FailOutboundFollows(
        c.(out := o.(queue := o.queue[1..], inFlight := Some(next), deadline := true, sent := o.sent + [next])),
        next.onFailure);
    }
  }

  lemma FollowsTwice(c: Connection, d: Connection, e: Connection)
    requires Follows(c, d) && Follows(d, e)
    ensures Follows(c, e)
  {
  }

  /** An answer of ws.send, or its deadline, never replaces the turn. */
  lemma SendResultFollows(c: Connection, epoch: nat, ok: bool, throws: bool)
    ensures Follows(c, SendResult(c, epoch, ok, throws))
    ensures Follows(c, SendDeadline(c, epoch))
  {
    hide Flush, FailOutbound, RunCallback;
    var o := c.out;
    if o.active && o.epoch == epoch && o.inFlight.Some? {
      var next := o.inFlight.value;
      FailOutboundFollows(c, next.onFailure);
      var done := o.(inFlight := None, deadline := false, bytes := o.bytes - next.bytes);
      FailOutboundFollows(c.(out := done), next.onFailure);
      var acknowledged := c.(out := done.(succeeded := done.succeeded + [next]));
      var d := RunCallback(acknowledged, next.onSuccess);
      CallbackFollows(acknowledged, next.onSuccess);
      FlushFollows(d, throws);
      hide Follows;
      FollowsTwice(acknowledged, d, Flush(d, throws));
    }
  }

  // ---------------------------------------------------------------------------------------
  // Events of the response
  // ---------------------------------------------------------------------------------------

  lemma FatalErrorKeepsInv(c: Connection, bytes: nat, throws: bool)
    requires Sound(c) && Obligations(c, NoCallback) && (Listening(c) || Prompt(c))
    ensures Inv(SendFatalError(c, bytes, throws))
  {
    hide SafeSend, RunCallback, InboundInv, OutboundInv, Carried;
    if Listening(c) {
      var t := c.turn.value;
      var cb := SettleAndClose(t.id);
      var marked := UpdateTurn(c, t.(fatalQueued := true));
      var (d, sent) := SafeSend(marked, OutFrame(bytes, cb, cb), Some(t.id), throws);
      TurnUpdateKeepsInbound(c, marked);
      SendKeepsInv(marked, OutFrame(bytes, cb, cb), Some(t.id), throws);
      if !sent {
        SoundIsClosable(d);
        ClosingCallbackKeepsInv(d, cb);
      }
    }
  }

  lemma TurnUpdateKeepsInbound(c: Connection, d: Connection)
    requires c.turn.Some? && d.turn.Some? && d == c.(turn := d.turn)
    ensures InboundInv(c) ==> InboundInv(d)
    ensures FramesOwed(c) && MoreFlags(c.turn.value, d.turn.value) ==> FramesOwed(d)
  {
    if FramesOwed(c) && MoreFlags(c.turn.value, d.turn.value) {
      forall f | f in Waiting(d.out) ensures Owed(d, f) {
        assert Owed(c, f);
      }
    }
  }

  /** A later state of the same turn. */
  predicate MoreFlags(t: Turn, u: Turn) {
    && t.id == u.id
    && (t.terminalSent ==> u.terminalSent)
    && (t.fatalQueued ==> u.fatalQueued)
    && (t.turnFinished ==> u.turnFinished)
  }

  lemma TerminalKeepsObligations(c: Connection, bytes: nat, throws: bool)
    requires Sound(c) && Obligations(c, NoCallback) && Listening(c)
    requires c.turn.value.sse || c.turn.value.bodyEnded
    ensures
      var d := SendTerminal(c, bytes, throws);
      && Sound(d) && Obligations(d, NoCallback) && Follows(c, d)
      && (Live(d) ==> Live(c) && d.turn == Some(c.turn.value.(terminalSent := true)))
  {
    hide SafeSend, InboundInv, OutboundInv, Carried;
    var t := c.turn.value;
    var marked := UpdateTurn(c, t.(terminalSent := true));
    TurnUpdateKeepsInbound(c, marked);
    SendKeepsInv(marked, OutFrame(bytes, AcknowledgeTerminal(t.id), SettleAndClose(t.id)), Some(t.id), throws);
    SafeSendFollows(marked, OutFrame(bytes, AcknowledgeTerminal(t.id), SettleAndClose(t.id)), Some(t.id), throws);
  }

  /** What sending events of a stream leaves of the connection. */
  ghost predicate Streamed(c: Connection, d: Connection) {
    && Sound(d) && Obligations(d, NoCallback) && Follows(c, d)
    && (Live(d) && c.turn.Some? ==>
          && Live(c)
          && d.turn.value == c.turn.value.(terminalSent := d.turn.value.terminalSent)
          && (c.turn.value.terminalSent ==> d.turn.value.terminalSent))
  }

  lemma StreamedTwice(c: Connection, d: Connection, e: Connection)
    requires Streamed(c, d) && Streamed(d, e)
    ensures Streamed(c, e)
  {
    hide Sound, Obligations;
  }

  lemma StreamedNothing(c: Connection)
    requires Sound(c) && Obligations(c, NoCallback)
    ensures Streamed(c, c)
  {
    hide Sound, Obligations;
  }

  lemma EventKeepsObligations(c: Connection, e: SseEvent, throws: bool)
    requires Sound(c) && Obligations(c, NoCallback) && Listening(c) && c.turn.value.sse
    ensures Streamed(c, ProcessEvent(c, e, throws))
  {
    hide SafeSend, InboundInv, OutboundInv, Carried, SendTerminal, Obligations, FramesOwed, Follows;
    match e
    case Ignored => StreamedNothing(c);
    case Delta(bytes) =>
      SendKeepsInv(c, OutFrame(bytes, NoCallback, SettleAndClose(c.turn.value.id)), Some(c.turn.value.id), throws);
      SafeSendFollows(c, OutFrame(bytes, NoCallback, SettleAndClose(c.turn.value.id)), Some(c.turn.value.id), throws);
    case Terminal(bytes) => TerminalKeepsObligations(c, bytes, throws);
    case Done(bytes) =>
      if c.turn.value.terminalSent {
        StreamedNothing(c);
      } else {
        TerminalKeepsObligations(c, bytes, throws);
      }
  }

  lemma {:induction false} EventsKeepObligations(c: Connection, events: seq<SseEvent>, throws: bool)
    requires Sound(c) && Obligations(c, NoCallback) && c.turn.Some? && c.turn.value.sse
    ensures Streamed(c, ProcessEvents(c, events, throws))
    decreases |events|
  {
    hide ProcessEvent, Sound, Obligations, Later;
    StreamedNothing(c);
    if events != [] && Listening(c) {
      var d := ProcessEvent(c, events[0], throws);
      EventKeepsObligations(c, events[0], throws);
      if Listening(d) {
        EventsKeepObligations(d, events[1..], throws);
        StreamedTwice(c, d, ProcessEvents(d, events[1..], throws));
      }
    }
  }

  lemma SettleKeepsInv(c: Connection)
    requires Sound(c) && Obligations(c, NoCallback)
    requires c.turn.Some? && Live(c) ==> c.turn.value.bodyEnded && c.turn.value.terminalSent
    ensures Inv(Settle(c))
  {
    hide OutboundInv, Carried, InboundInv, FramesOwed;
    if c.turn.Some? {
      TurnUpdateKeepsInbound(c, Settle(c));
    }
  }

  lemma EndBodyKeepsInv(c: Connection)
    requires Sound(c) && c.turn.Some? && c.turn.value.over && c.turn.value.responded
    requires Obligations(c, NoCallback)
    requires Live(c) && !c.turn.value.turnFinished && !c.turn.value.fatalQueued ==>
               c.turn.value.terminalSent || c.turn.value.cutShort
    ensures Inv(EndBodyAndSettle(c))
  {
    hide OutboundInv, Carried, InboundInv, FramesOwed;
    TurnUpdateKeepsInbound(c, EndBodyAndSettle(c));
  }

  lemma DataKeepsInv(c: Connection, events: seq<SseEvent>, oversize: bool, bytes: nat, throws: bool)
    requires Inv(c)
    ensures Inv(ResponseData(c, events, oversize, bytes, throws))
  {
    hide ProcessEvents, SendFatalError, Sound, Obligations;
    if Listening(c) {
      var d := if c.turn.value.sse then ProcessEvents(c, events, throws) else c;
      if c.turn.value.sse {
        EventsKeepObligations(c, events, throws);
      }
      PromptAfterEvents(c, d);
      FatalErrorKeepsInv(d, bytes, throws);
    }
  }

  lemma PromptAfterEvents(c: Connection, d: Connection)
    requires Prompt(c) && c.turn.Some?
    requires Live(d) ==>
               && Live(c) && d.turn.Some?
               && d.turn.value == c.turn.value.(terminalSent := d.turn.value.terminalSent)
    requires Live(d) && c.turn.value.terminalSent ==> d.turn.value.terminalSent
    ensures Prompt(d)
  {
  }

  lemma BodyEndedKeepsSound(c: Connection)
    requires Inv(c) && Listening(c)
    ensures
      var d := UpdateTurn(c, EndBody(c.turn.value));
      Sound(d) && Obligations(d, NoCallback) && Listening(d)
  {
    hide InboundInv, OutboundInv, Carried, FramesOwed;
    TurnUpdateKeepsInbound(c, UpdateTurn(c, EndBody(c.turn.value)));
  }

  lemma EndKeepsInv(c: Connection, tail: seq<SseEvent>, oversize: bool, bytes: nat, throws: bool)
    requires Inv(c)
    ensures Inv(ResponseEnd(c, tail, oversize, bytes, throws))
  {
    hide FinishBody, InboundInv, OutboundInv, Carried, FramesOwed;
    if Listening(c) {
      BodyEndedKeepsSound(c);
      if c.turn.value.sse {
        SseEndKeepsInv(UpdateTurn(c, EndBody(c.turn.value)), tail, oversize, bytes, throws);
      } else {
        JsonEndKeepsInv(c, tail, oversize, bytes, throws);
      }
    } else if c.turn.Some? && c.turn.value.responded {
      TurnUpdateKeepsInbound(c, UpdateTurn(c, c.turn.value.(over := true)));
    }
  }

  lemma JsonEndKeepsInv(c: Connection, tail: seq<SseEvent>, oversize: bool, bytes: nat, throws: bool)
    requires Inv(c) && Listening(c) && !c.turn.value.sse
    ensures Inv(FinishBody(UpdateTurn(c, EndBody(c.turn.value)), tail, oversize, bytes, throws))
  {
    hide SendTerminal, InboundInv, OutboundInv, Carried, FramesOwed;
    BodyEndedKeepsSound(c);
    TerminalKeepsObligations(UpdateTurn(c, EndBody(c.turn.value)), bytes, throws);
  }

  lemma SseEndKeepsInv(d: Connection, tail: seq<SseEvent>, oversize: bool, bytes: nat, throws: bool)
    requires Sound(d) && Obligations(d, NoCallback) && Listening(d) && d.turn.value.sse && d.turn.value.bodyEnded
    ensures Inv(FinishBody(d, tail, oversize, bytes, throws))
  {
    hide ProcessEvents, SendFatalError, Settle, Sound, Obligations;
    var e := ProcessEvents(d, tail, throws);
    EventsKeepObligations(d, tail, throws);
    if oversize || (e.turn.Some? && !e.turn.value.terminalSent) {
      FatalErrorKeepsInv(e, bytes, throws);
    } else {
      SettleKeepsInv(e);
    }
  }

  lemma OverKeepsSound(c: Connection)
    requires Inv(c) && c.turn.Some? && c.turn.value.responded
    ensures Sound(MarkOver(c)) && Obligations(MarkOver(c), NoCallback)
    ensures c.turn.value.responseSettled || c.turn.value.fatalQueued ==> Inv(MarkOver(c)) && Prompt(MarkOver(c))
    ensures Live(c) && c.turn.value.bodyEnded && !c.turn.value.turnFinished && !c.turn.value.fatalQueued ==>
              c.turn.value.terminalSent || c.turn.value.cutShort
  {
    hide InboundInv, OutboundInv, Carried, FramesOwed;
    TurnUpdateKeepsInbound(c, MarkOver(c));
  }

  lemma CutShortKeepsSound(c: Connection)
    requires Sound(c) && Obligations(c, NoCallback) && c.turn.Some?
    ensures
      var d := UpdateTurn(c, MarkCutShort(c.turn.value));
      Sound(d) && Obligations(d, NoCallback)
  {
    hide InboundInv, OutboundInv, Carried, FramesOwed;
    TurnUpdateKeepsInbound(c, UpdateTurn(c, MarkCutShort(c.turn.value)));
  }

  lemma ResponseErrorKeepsInv(c: Connection, bytes: nat, throws: bool)
    requires Inv(c)
    ensures Inv(ResponseError(c, bytes, throws))
  {
    hide SendFatalError, Sound, Obligations, EndBodyAndSettle;
    if c.turn.Some? && c.turn.value.responded {
      OverKeepsSound(c);
      if c.turn.value.sse && c.turn.value.terminalSent {
        EndBodyKeepsInv(MarkOver(c));
      } else {
        FatalErrorKeepsInv(MarkOver(c), bytes, throws);
      }
    }
  }

  lemma CloseOverKeepsInv(c: Connection, complete: bool, bytes: nat, throws: bool)
    requires Sound(c) && Obligations(c, NoCallback) && c.turn.Some? && c.turn.value.over && c.turn.value.responded
    requires Live(c) && c.turn.value.bodyEnded && !c.turn.value.turnFinished && !c.turn.value.fatalQueued ==>
               c.turn.value.terminalSent || c.turn.value.cutShort
    requires c.turn.value.responseSettled || c.turn.value.fatalQueued ==> Inv(c) && Prompt(c)
    ensures Inv(CloseOver(c, complete, bytes, throws))
  {
    hide SendFatalError, Inv, Sound, Obligations, EndBodyAndSettle, Prompt;
    if c.turn.value.bodyEnded || complete {
      CutShortKeepsSound(c);
      EndBodyKeepsInv(UpdateTurn(c, MarkCutShort(c.turn.value)));
    } else if c.turn.value.sse && c.turn.value.terminalSent {
      EndBodyKeepsInv(c);
    } else {
      FatalErrorKeepsInv(c, bytes, throws);
    }
  }

  lemma ResponseCloseKeepsInv(c: Connection, complete: bool, bytes: nat, throws: bool)
    requires Inv(c)
    ensures Inv(ResponseClose(c, complete, bytes, throws))
  {
    hide CloseOver, Inv, Sound, Obligations, Prompt;
    if c.turn.Some? && c.turn.value.responded {
      OverKeepsSound(c);
      CloseOverKeepsInv(MarkOver(c), complete, bytes, throws);
    }
  }

  lemma ResponseStartKeepsInv(c: Connection, sse: bool)
    requires Inv(c)
    ensures Inv(ResponseStart(c, sse))
  {
    hide OutboundInv, Carried, InboundInv;
    if c.turn.Some? && c.turn.value.requested && !c.turn.value.responded {
      var d := ResponseStart(c, sse);
      TurnUpdateKeepsInbound(c, d);
      forall f | f in Waiting(c.out) ensures Owed(d, f) {
        assert Owed(c, f);
      }
    }
  }

  // ---------------------------------------------------------------------------------------
  // Events of the request
  // ---------------------------------------------------------------------------------------

  lemma FailRequestKeepsInv(c: Connection, bytes: nat, throws: bool)
    requires Inv(c) && c.turn.Some? && !c.closed && !c.turn.value.resolved
    ensures Inv(FailRequest(c, bytes, throws))
  {
    hide SafeSend, RunCallback, InboundInv, OutboundInv, Carried, FramesOwed;
    var t := c.turn.value.(turnFinished := true, bodyFinished := true);
    var cb := FinishRequestFailure(t.id);
    var marked := UpdateTurn(c, t);
    TurnUpdateKeepsInbound(c, marked);
    SendKeepsInv(marked, OutFrame(bytes, cb, cb), None, throws);
    var (d, sent) := SafeSend(marked, OutFrame(bytes, cb, cb), None, throws);
    if !sent {
      SoundIsClosable(d);
      ClosingCallbackKeepsInv(d, cb);
    }
  }

  lemma RequestEventsKeepInv(c: Connection, bytes: nat, throws: bool)
    requires Inv(c)
    ensures Inv(RequestError(c, bytes, throws))
    ensures Inv(RequestBodyClosed(c, bytes, throws))
    ensures Inv(RequestBodyExpired(c, bytes, throws))
  {
    hide FailRequest, InboundInv, OutboundInv, Obligations, FramesOwed;
    if c.turn.Some? && !c.turn.value.turnFinished {
      FailRequestKeepsInv(c, bytes, throws);
    }
  }

  lemma BodyDrainedKeepsInv(c: Connection)
    requires Inv(c)
    ensures Inv(RequestBodyDrained(c))
  {
    hide OutboundInv, Carried, InboundInv, FramesOwed;
    if c.turn.Some? {
      TurnUpdateKeepsInbound(c, RequestBodyDrained(c));
    }
  }

  // ---------------------------------------------------------------------------------------
  // Answers of ws.send
  // ---------------------------------------------------------------------------------------

  /** The send state after its frame in flight was acknowledged. */
  function Acknowledged(o: Outbound): Outbound
    requires o.inFlight.Some?
  {
    var next := o.inFlight.value;
    o.(inFlight := None, deadline := false, bytes := o.bytes - next.bytes, succeeded := o.succeeded + [next])
  }

  lemma AcknowledgedBooks(o: Outbound)
    requires OutboundInv(o) && o.inFlight.Some?
    ensures QueueBooks(Acknowledged(o)) && Waiting(o) == [o.inFlight.value] + Waiting(Acknowledged(o))
    ensures !o.inFlight.value.onFailure.AcknowledgeTerminal?
  {
    var next := o.inFlight.value;
    var p := Acknowledged(o);
    assert Waiting(o) == [next] + o.queue && Waiting(p) == o.queue;
    assert Waiting(o)[0] == next && Waiting(o)[1..] == o.queue;
    assert next in Waiting(o);
  }

  /** The obligation an acknowledged frame carried is the one its callback now meets. */
  lemma AcknowledgedCovers(o: Outbound, cb: Callback)
    requires OutboundInv(o) && o.inFlight.Some? && Carried(o, cb)
    ensures Covered(Acknowledged(o), o.inFlight.value.onSuccess, cb)
  {
    AcknowledgedBooks(o);
    var f :| f in Waiting(o) && f.onSuccess == cb;
    if f != o.inFlight.value {
      assert f in Waiting(Acknowledged(o));
    }
  }

  /** Everything the invariant says except that the queue is moving. */
  ghost predicate Stopped(c: Connection) {
    && InboundInv(c) && QueueBooks(c.out) && Closable(c) && FramesOwed(c)
    && Prompt(c) && Obligations(c, NoCallback)
  }

  lemma SoundIsStopped(c: Connection)
    requires Inv(c)
    ensures Stopped(c)
  {
    hide TurnFlags, TurnCovered, QueueBooks;
  }

  /** The frame in flight was acknowledged; only what its callback meets may be uncovered. */
  lemma PopKeepsSound(c: Connection)
    requires Inv(c) && c.out.active && c.out.inFlight.Some?
    ensures
      var next := c.out.inFlight.value;
      var d := c.(out := Acknowledged(c.out));
      && InboundInv(d) && QueueBooks(d.out) && Closable(d) && FramesOwed(d) && Prompt(d) && d.out.active
      && Obligations(d, next.onSuccess)
      && Owed(d, next)
  {
    hide InboundInv, QueueBooks, TurnFlags, Waiting;
    var o := c.out;
    var d := c.(out := Acknowledged(o));
    SoundIsClosable(c);
    OutUpdate(c, Acknowledged(o));
    AcknowledgedBooks(o);
    assert o.inFlight.value in Waiting(o);
    forall f | f in Waiting(d.out) ensures Owed(d, f) {
      assert f in Waiting(o) && Owed(c, f);
    }
    forall cb | Carried(o, cb) ensures Covered(d.out, o.inFlight.value.onSuccess, cb) {
      AcknowledgedCovers(o, cb);
    }
  }

  lemma AcknowledgeKeepsStopped(d: Connection, cb: Callback)
    requires InboundInv(d) && QueueBooks(d.out) && Closable(d) && FramesOwed(d) && Prompt(d) && d.out.active
    requires Obligations(d, cb) && cb.AcknowledgeTerminal?
    requires IsCurrent(d, cb.turn) ==> d.turn.value.terminalSent
    ensures Stopped(RunCallback(d, cb))
  {
    hide InboundInv, QueueBooks, OutboundInv, Carried, FramesOwed;
    if IsCurrent(d, cb.turn) {
      TurnUpdateKeepsInbound(d, RunCallback(d, cb));
    }
  }

  lemma NothingToRun(c: Connection)
    requires InboundInv(c) && QueueBooks(c.out) && Closable(c) && FramesOwed(c) && Prompt(c)
    requires Obligations(c, NoCallback)
    ensures Stopped(RunCallback(c, NoCallback))
  {
    hide InboundInv, QueueBooks, Closable, FramesOwed, Prompt, Obligations;
  }

  lemma CallbackOfAcknowledged(c: Connection)
    requires Inv(c) && c.out.active && c.out.inFlight.Some?
    ensures Stopped(RunCallback(c.(out := Acknowledged(c.out)), c.out.inFlight.value.onSuccess))
  {
    hide InboundInv, QueueBooks, RunCallback, Closable, Acknowledged, FramesOwed, Sound, Prompt, Obligations;
    var d := c.(out := Acknowledged(c.out));
    var cb := c.out.inFlight.value.onSuccess;
    PopKeepsSound(c);
    if cb.NoCallback? {
      NothingToRun(d);
    } else if cb.AcknowledgeTerminal? {
      AcknowledgeKeepsStopped(d, cb);
    } else {
      ClosingCallbackKeepsInv(d, cb);
      SoundIsStopped(RunCallback(d, cb));
    }
  }

  lemma SendResultKeepsInv(c: Connection, epoch: nat, ok: bool, throws: bool)
    requires Inv(c)
    ensures Inv(SendResult(c, epoch, ok, throws))
  {
    hide Flush, FailOutbound, RunCallback, Sound, Prompt, Obligations, Stopped;
    var o := c.out;
    if o.active && o.epoch == epoch && o.inFlight.Some? {
      if ok {
        CallbackOfAcknowledged(c);
        FlushKeepsInv(RunCallback(c.(out := Acknowledged(o)), o.inFlight.value.onSuccess), throws);
      } else {
        FailedSendKeepsInv(c);
      }
    }
  }

  lemma FailedSendKeepsInv(c: Connection)
    requires Inv(c) && c.out.active && c.out.inFlight.Some?
    ensures
      var o := c.out;
      var done := o.(inFlight := None, deadline := false, bytes := o.bytes - o.inFlight.value.bytes);
      Inv(FailOutbound(c.(out := done), o.inFlight.value.onFailure))
  {
    hide FailOutbound, InboundInv, QueueBooks, Waiting;
    var o := c.out;
    var done := o.(inFlight := None, deadline := false, bytes := o.bytes - o.inFlight.value.bytes);
    SoundIsClosable(c);
    OutUpdate(c, done);
    AcknowledgedBooks(o);
    FailOutboundKeepsInv(c.(out := done), o.inFlight.value.onFailure);
  }

  lemma FlushKeepsInv(c: Connection, throws: bool)
    requires Stopped(c)
    ensures Inv(Flush(c, throws))
  {
    hide Flush, InboundInv, QueueBooks, Closable, FramesOwed, Waiting, Sound;
    FlushKeepsSound(c, throws);
  }

  lemma SendDeadlineKeepsInv(c: Connection, epoch: nat)
    requires Inv(c)
    ensures Inv(SendDeadline(c, epoch))
  {
    hide FailOutbound, InboundInv, QueueBooks, TurnFlags, FramesOwed, Obligations, Prompt;
    var o := c.out;
    if o.active && o.inFlight.Some? {
      SoundIsClosable(c);
      AcknowledgedBooks(o);
      FailOutboundKeepsInv(c, o.inFlight.value.onFailure);
    }
  }

  // ---------------------------------------------------------------------------------------
  // Inbound frames
  // ---------------------------------------------------------------------------------------

  lemma SendErrorAndCloseKeepsInv(c: Connection, errorBytes: nat, throws: bool)
    requires Inv(c)
    ensures Inv(SendErrorAndClose(c, errorBytes, throws))
  {
    hide SafeSend, QueueBooks, Carried, Waiting;
    if !c.closed && !c.closing {
      var d := DropPendingFrames(c.(closing := true));
      forall f | f in Waiting(d.out) ensures Owed(d, f) {
        assert Owed(c, f);
      }
      SendKeepsInv(d, OutFrame(errorBytes, CloseAfterError, CloseAfterError), None, throws);
    }
  }

  /** The invariant, except that pending frames may be waiting for a wakeup. */
  ghost predicate Asleep(c: Connection) {
    && InboundBooks(c) && OutboundInv(c.out) && FramesOwed(c)
    && (c.closed ==> !c.out.active)
    && (c.turn.Some? ==> TurnFlags(c, c.turn.value))
    && Obligations(c, NoCallback) && Prompt(c)
  }

  lemma DrainKeepsInv(c: Connection, throws: bool)
    requires Asleep(c)
    ensures Inv(Drain(c, throws))
  {
    hide SafeSend, OutboundInv, Carried, Waiting;
    if c.turn.None? && c.inbound != [] {
      var f := c.inbound[0];
      var id := c.turnSequence + 1;
      var d := c.(inbound := c.inbound[1..], inboundBytes := c.inboundBytes - f.size,
                  turn := Some(NewTurn(id, f.kind)), turnSequence := id, started := c.started + [f]);
      assert c.inbound == [f] + d.inbound;
      assert c.arrived == d.started + d.inbound;
      forall g | g in Waiting(d.out) ensures Owed(d, g) {
        assert Owed(c, g);
      }
      if f.kind.Rejected? {
        SendKeepsInv(d, OutFrame(f.kind.errorBytes, NoCallback, NoCallback), None, throws);
      }
    }
  }

  lemma OnMessageKeepsInv(c: Connection, f: InFrame, binary: bool, errorBytes: nat, throws: bool)
    requires Inv(c)
    ensures Inv(OnMessage(c, f, binary, errorBytes, throws))
  {
    hide SendErrorAndClose, Drain, OutboundInv, Carried, Waiting;
    SendErrorAndCloseKeepsInv(c, errorBytes, throws);
    if !c.closed && !c.closing && |c.inbound| < MAX_PENDING_FRAMES && c.inboundBytes + f.size <= MAX_PENDING_BYTES {
      var d := c.(inbound := c.inbound + [f], inboundBytes := c.inboundBytes + f.size, arrived := c.arrived + [f]);
      TotalSizeAppend(c.inbound, [f]);
      assert TotalSize([f]) == f.size + TotalSize([f][1..]);
      assert d.arrived == d.started + d.inbound;
      forall g | g in Waiting(d.out) ensures Owed(d, g) {
        assert Owed(c, g);
      }
      DrainKeepsInv(d, throws);
    }
  }

  lemma TurnDoneKeepsInv(c: Connection, throws: bool)
    requires Inv(c)
    ensures Inv(TurnDone(c, throws))
  {
    hide Drain, OutboundInv, Carried, Waiting;
    if c.turn.Some? && c.turn.value.resolved {
      var d := c.(turn := None);
      forall g | g in Waiting(d.out) ensures Owed(d, g) {
        assert Owed(c, g);
      }
      DrainKeepsInv(d, throws);
    }
  }

  // ---------------------------------------------------------------------------------------
  // Every step, every run
  // ---------------------------------------------------------------------------------------

  lemma SocketEventsKeepInv(c: Connection)
    requires Inv(c)
    ensures Inv(Finalize(c)) && Inv(c.(open := false)) && Inv(Finalize(c.(open := false)))
  {
    hide CloseNow, OutboundInv, Carried, InboundBooks, TotalSize;
    var d := c.(open := false);
    forall g | g in Waiting(d.out) ensures Owed(d, g) {
      assert Owed(c, g);
    }
    SoundIsClosable(c);
    OfflineKeepsInv(c);
    SoundIsClosable(d);
    if !c.closed {
      CloseNowKeepsInv(c);
      CloseNowKeepsInv(d);
    }
  }

  lemma OfflineKeepsInv(c: Connection)
    requires Inv(c)
    ensures Inv(c.(open := false))
  {
    hide OutboundInv, Carried, Waiting;
    forall g | g in Waiting(c.out) ensures Owed(c.(open := false), g) {
      assert Owed(c, g);
    }
  }

  lemma NextKeepsInv(c: Connection, e: Event)
    requires Inv(c)
    ensures Inv(Next(c, e))
  {
    hide Inv, OnMessage, TurnDone, SendResult, SendDeadline, Finalize, ResponseStart, ResponseData, ResponseEnd;
    hide ResponseError, ResponseClose, RequestError, RequestBodyClosed, RequestBodyExpired, RequestBodyDrained;
    match e
    case Message(frame, binary, n, throws) => OnMessageKeepsInv(c, frame, binary, n, throws);
    case TurnResolved(throws) => TurnDoneKeepsInv(c, throws);
    case Sent(epoch, ok, throws) => SendResultKeepsInv(c, epoch, ok, throws);
    case Deadline(epoch) => SendDeadlineKeepsInv(c, epoch);
    case PeerCloses => SocketEventsKeepInv(c);
    case SocketClosed => SocketEventsKeepInv(c);
    case SocketError => SocketEventsKeepInv(c);
    case Response(isSse) => ResponseStartKeepsInv(c, isSse);
    case Data(events, oversize, n, throws) => DataKeepsInv(c, events, oversize, n, throws);
    case End(events, oversize, n, throws) => EndKeepsInv(c, events, oversize, n, throws);
    case TransportError(n, throws) => ResponseErrorKeepsInv(c, n, throws);
    case TransportClose(complete, n, throws) => ResponseCloseKeepsInv(c, complete, n, throws);
    case RequestFailed(n, throws) => RequestEventsKeepInv(c, n, throws);
    case BodyClosed(n, throws) => RequestEventsKeepInv(c, n, throws);
    case BodyExpired(n, throws) => RequestEventsKeepInv(c, n, throws);
    case BodyDrained => BodyDrainedKeepsInv(c);
  }

  lemma {:induction false} RunKeepsInv(c: Connection, events: seq<Event>)
    requires Inv(c)
    ensures Inv(Run(c, events))
    decreases |events|
  {
    hide Inv, Next;
    if events != [] {
      NextKeepsInv(c, events[0]);
      RunKeepsInv(Next(c, events[0]), events[1..]);
    }
  }

  ghost predicate Reachable(c: Connection) {
    exists events :: c == Run(Init(), events)
  }

  lemma ReachableHasInv(c: Connection)
    requires Reachable(c)
    ensures Inv(c)
  {
    var events :| c == Run(Init(), events);
    assert Inv(Init());
    RunKeepsInv(Init(), events);
  }

  lemma InitIsReachable()
    ensures Reachable(Init())
  {
    assert Run(Init(), []) == Init();
  }

  lemma {:induction false} RunOneMore(c: Connection, events: seq<Event>, e: Event)
    ensures Run(c, events + [e]) == Next(Run(c, events), e)
    decreases |events|
  {
    hide Next;
    if events == [] {
      assert [] + [e] == [e] && [e][1..] == [];
      assert Run(Next(c, e), []) == Next(c, e);
    } else {
      assert (events + [e])[0] == events[0] && (events + [e])[1..] == events[1..] + [e];
      RunOneMore(Next(c, events[0]), events[1..], e);
    }
  }

  /** What a caller may rely on between two events: both queues are bounded, and neither is asleep. */
  predicate WithinLimits(c: Connection) {
    && |c.inbound| <= MAX_PENDING_FRAMES
    && 0 <= c.inboundBytes <= MAX_PENDING_BYTES
    && 0 <= c.out.bytes <= MAX_PENDING_OUTBOUND_BYTES
    && (c.inbound != [] ==> c.turn.Some?)
    && (c.out.queue != [] || c.out.pressured != {} ==> c.out.inFlight.Some?)
  }

  lemma ReachableIsWithinLimits(c: Connection)
    requires Reachable(c)
    ensures WithinLimits(c)
  {
    ReachableHasInv(c);
  }

  lemma NextIsReachable(c: Connection, e: Event)
    requires Reachable(c)
    ensures Reachable(Next(c, e)) && WithinLimits(Next(c, e))
  {
    hide Next, WithinLimits;
    var events :| c == Run(Init(), events);
    RunOneMore(Init(), events, e);
    ReachableIsWithinLimits(Next(c, e));
  }
}
