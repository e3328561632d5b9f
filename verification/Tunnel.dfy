/**
 The WebSocket tunnel of server.js: one client connection with its bounded inbound frame queue,
 its bounded outbound send queue with acknowledgement callbacks, and the turn in flight.

 One step is one callback of the event loop. `ws.send` callbacks and the events a destroyed
 request emits are later steps; `throws` says whether ws.send throws in this step.
 */
module Tunnel {
  import opened Wrappers

  const MAX_PENDING_FRAMES: nat := 64
  const MAX_PENDING_BYTES: nat := 64 * 1024 * 1024
  const MAX_PENDING_OUTBOUND_BYTES: nat := 1024 * 1024

  type TurnId = nat

  /** What an inbound frame turns into: a request whose body write was accepted or is
      backpressured, or a protocol error that is answered at once. */
  datatype FrameKind = Create(bodyAccepted: bool) | Rejected(errorBytes: nat)

  datatype InFrame = InFrame(size: nat, kind: FrameKind)

  /** The callbacks an outbound frame may carry, named after the closures of the source. */
  datatype Callback =
    | NoCallback
    | AcknowledgeTerminal(turn: TurnId)
    | SettleAndClose(turn: TurnId)
    | CloseAfterError
    | FinishRequestFailure(turn: TurnId)

  datatype OutFrame = OutFrame(bytes: nat, onSuccess: Callback, onFailure: Callback)

  /** The send state of the socket. A new one, with the next epoch, replaces an invalidated one. */
  datatype Outbound = Outbound(
    epoch: nat,
    active: bool,
    inFlight: Option<OutFrame>,
    deadline: bool,
    queue: seq<OutFrame>,
    bytes: int,
    pressured: set<TurnId>,   // responses paused until the queue drains
    accepted: seq<OutFrame>,  // history of this epoch
    sent: seq<OutFrame>,
    succeeded: seq<OutFrame>)

  datatype Turn = Turn(
    id: TurnId,
    requested: bool,        // an internal request was made for it
    registered: bool,       // currentTurnSettle is set
    resolved: bool,         // the promise the drain loop awaits
    turnFinished: bool,
    bodyFinished: bool,
    responded: bool,
    sse: bool,
    responseSettled: bool,
    bodyEnded: bool,
    ack: bool,              // terminalSendAcknowledged
    fatalQueued: bool,      // terminalFailureQueued
    terminalSent: bool,     // sawTerminal, or the JSON body was sent
    over: bool,             // history: the response ended, errored or closed
    cutShort: bool)         // history: it closed, marked complete, before its end and without a terminal event

  datatype Connection = Connection(
    open: bool,    // ws.readyState is OPEN
    closed: bool,
    closing: bool,
    inbound: seq<InFrame>,
    inboundBytes: int,
    turn: Option<Turn>,  // Some while a frame is in flight
    turnSequence: TurnId,
    out: Outbound,
    arrived: seq<InFrame>,  // history
    started: seq<InFrame>)

  function Init(): Connection {
    Connection(true, false, false, [], 0, None, 0, Outbound(0, false, None, false, [], 0, {}, [], [], []), [], [])
  }

  // ---------------------------------------------------------------------------------------
  // Settling a turn
  // ---------------------------------------------------------------------------------------

  function ForceSettleTurn(t: Turn): Turn {
    if t.turnFinished then t else t.(turnFinished := true, bodyFinished := true, resolved := true)
  }

  function ForceSettleResponse(t: Turn): Turn {
    if t.responseSettled then t else ForceSettleTurn(t.(responseSettled := true))
  }

  /** The normal end: the body has ended and the terminal frame was acknowledged. */
  function SettleResponse(t: Turn): Turn {
    if t.responseSettled || !t.bodyEnded || !t.ack then t
    else t.(responseSettled := true, turnFinished := true, bodyFinished := true, resolved := true)
  }

  /** currentTurnSettle, whichever of the two closures is registered. */
  function SettleCurrent(c: Connection): Connection {
    if c.turn.None? || !c.turn.value.registered then c
    else
      var t := c.turn.value;
      c.(turn := Some((if t.responded then ForceSettleResponse(t) else ForceSettleTurn(t)).(registered := false)))
  }

  predicate IsCurrent(c: Connection, turn: TurnId) {
    c.turn.Some? && c.turn.value.id == turn
  }

  // ---------------------------------------------------------------------------------------
  // Closing
  // ---------------------------------------------------------------------------------------

  function Invalidate(o: Outbound): Outbound {
    if !o.active then o
    else o.(active := false, inFlight := None, deadline := false, queue := [], bytes := 0, pressured := {})
  }

  function DropPendingFrames(c: Connection): Connection {
    c.(inbound := [], inboundBytes := 0)
  }

  function CloseNow(c: Connection): Connection {
    var d := DropPendingFrames(SettleCurrent(c.(closed := true)));
    d.(out := Invalidate(d.out))
  }

  function Finalize(c: Connection): Connection {
    if c.closed then c else CloseNow(c)
  }

  function RequestClose(c: Connection): Connection {
    if c.closed then DropPendingFrames(c)
    else if !c.open then Finalize(c)
    else CloseNow(c).(open := false)
  }

  function RunCallback(c: Connection, cb: Callback): Connection {
    match cb
    case NoCallback => c
    case AcknowledgeTerminal(turn) =>
      if IsCurrent(c, turn) then c.(turn := Some(SettleResponse(c.turn.value.(ack := true)))) else c
    case SettleAndClose(turn) =>
      var d := RequestClose(c);
      if IsCurrent(d, turn) then d.(turn := Some(ForceSettleResponse(d.turn.value))) else d
    case CloseAfterError => RequestClose(c)
    case FinishRequestFailure(turn) =>
      var d := RequestClose(c);
      if IsCurrent(d, turn) then d.(turn := Some(d.turn.value.(resolved := true))) else d
  }

  // ---------------------------------------------------------------------------------------
  // The outbound queue
  // ---------------------------------------------------------------------------------------

  function FailOutbound(c: Connection, onFailure: Callback): Connection {
    if !c.out.active then c
    else
      var d := c.(out := Invalidate(c.out));
      if onFailure.NoCallback? then d.(open := false) else RunCallback(d, onFailure)
  }

  function Flush(c: Connection, throws: bool): Connection {
    var o := c.out;
    if !o.active || o.inFlight.Some? then c
    else if o.queue == [] then c.(out := o.(pressured := {}))
    else
      var next := o.queue[0];
      var popped := c.(out := o.(queue := o.queue[1..]));
      if !c.open then FailOutbound(popped, next.onFailure)
      else
        var sending := c.(out := o.(queue := o.queue[1..], inFlight := Some(next), deadline := true,
                                    sent := o.sent + [next]));
        if throws then FailOutbound(sending, next.onFailure) else sending
  }

  function SendState(o: Outbound): Outbound {
    if o.active then o else Outbound(o.epoch + 1, true, None, false, [], 0, {}, [], [], [])
  }

  /** The send state to use, with the response paused until its queue drains. */
  function Paused(o: Outbound, response: Option<TurnId>): Outbound {
    var state := SendState(o);
    if response.Some? then state.(pressured := state.pressured + {response.value}) else state
  }

  /** safeSend; `response` is the turn whose response is paused. */
  function SafeSend(c: Connection, f: OutFrame, response: Option<TurnId>, throws: bool): (Connection, bool) {
    if !c.open then (RunCallback(c, f.onFailure), false)
    else
      var o := Paused(c.out, response);
      if o.bytes + f.bytes > MAX_PENDING_OUTBOUND_BYTES then (FailOutbound(c.(out := o), f.onFailure), false)
      else
        var queued := o.(queue := o.queue + [f], bytes := o.bytes + f.bytes, accepted := o.accepted + [f]);
        (Flush(c.(out := queued), throws), true)
  }

  /** The callback of ws.send; one of an older epoch changes nothing. */
  function SendResult(c: Connection, epoch: nat, ok: bool, throws: bool): Connection {
    var o := c.out;
    if !o.active || o.epoch != epoch || o.inFlight.None? then c
    else
      var next := o.inFlight.value;
      var done := o.(inFlight := None, deadline := false, bytes := o.bytes - next.bytes);
      if !ok then FailOutbound(c.(out := done), next.onFailure)
      else Flush(RunCallback(c.(out := done.(succeeded := done.succeeded + [next])), next.onSuccess), throws)
  }

  function SendDeadline(c: Connection, epoch: nat): Connection {
    var o := c.out;
    if !o.active || o.epoch != epoch || o.inFlight.None? then c else FailOutbound(c, o.inFlight.value.onFailure)
  }

  function SendErrorAndClose(c: Connection, errorBytes: nat, throws: bool): Connection {
    if c.closed || c.closing then c
    else
      var d := DropPendingFrames(c.(closing := true));
      SafeSend(d, OutFrame(errorBytes, CloseAfterError, CloseAfterError), None, throws).0
  }

  // ---------------------------------------------------------------------------------------
  // The inbound queue
  // ---------------------------------------------------------------------------------------

  function NewTurn(id: TurnId, kind: FrameKind): Turn {
    match kind
    case Create(accepted) =>
      Turn(id, true, true, false, false, accepted, false, false, false, false, false, false, false, false, false)
    case Rejected(_) =>
      Turn(id, false, false, true, true, true, false, false, false, false, false, false, false, false, false)
  }

  function StartFrame(c: Connection, f: InFrame, throws: bool): Connection {
    var id := c.turnSequence + 1;
    var d := c.(turn := Some(NewTurn(id, f.kind)), turnSequence := id, started := c.started + [f]);
    if f.kind.Rejected? then SafeSend(d, OutFrame(f.kind.errorBytes, NoCallback, NoCallback), None, throws).0 else d
  }

  function Drain(c: Connection, throws: bool): Connection {
    if c.turn.Some? || c.inbound == [] then c
    else
      var next := c.inbound[0];
      StartFrame(c.(inbound := c.inbound[1..], inboundBytes := c.inboundBytes - next.size), next, throws)
  }

  function OnMessage(c: Connection, f: InFrame, binary: bool, errorBytes: nat, throws: bool): Connection {
    if c.closed || c.closing then c
    else if binary || |c.inbound| >= MAX_PENDING_FRAMES || c.inboundBytes + f.size > MAX_PENDING_BYTES then
      SendErrorAndClose(c, errorBytes, throws)
    else
      Drain(c.(inbound := c.inbound + [f], inboundBytes := c.inboundBytes + f.size, arrived := c.arrived + [f]), throws)
  }

  /** The awaited promise resolved: release the slot and start the next frame. */
  function TurnDone(c: Connection, throws: bool): Connection {
    if c.turn.None? || !c.turn.value.resolved then c
    else
      var d := c.(turn := None);
      if c.inbound != [] && !c.closed && !c.closing then Drain(d, throws) else d
  }

  // ---------------------------------------------------------------------------------------
  // The internal response
  // ---------------------------------------------------------------------------------------

  function UpdateTurn(c: Connection, t: Turn): Connection {
    c.(turn := Some(t))
  }

  function ResponseStart(c: Connection, sse: bool): Connection {
    if c.turn.None? || !c.turn.value.requested || c.turn.value.responded then c
    else
      var t := c.turn.value.(responded := true, sse := sse);
      UpdateTurn(c, if c.closed || c.closing || t.resolved then ForceSettleResponse(t) else t.(registered := true))
  }

  predicate Listening(c: Connection) {
    c.turn.Some? && c.turn.value.responded && !c.turn.value.responseSettled && !c.turn.value.fatalQueued
  }

  function SendFatalError(c: Connection, bytes: nat, throws: bool): Connection {
    if !Listening(c) then c
    else
      var t := c.turn.value;
      var cb := SettleAndClose(t.id);
      var (d, sent) := SafeSend(UpdateTurn(c, t.(fatalQueued := true)), OutFrame(bytes, cb, cb), Some(t.id), throws);
      if sent then d else RunCallback(d, cb)
  }

  datatype SseEvent = Ignored | Delta(bytes: nat) | Terminal(bytes: nat) | Done(bytes: nat)

  function SendTerminal(c: Connection, bytes: nat, throws: bool): Connection
    requires c.turn.Some?
  {
    var t := c.turn.value;
    SafeSend(UpdateTurn(c, t.(terminalSent := true)),
             OutFrame(bytes, AcknowledgeTerminal(t.id), SettleAndClose(t.id)), Some(t.id), throws).0
  }

  function ProcessEvent(c: Connection, e: SseEvent, throws: bool): Connection
    requires c.turn.Some?
  {
    match e
    case Ignored => c
    case Delta(bytes) =>
      SafeSend(c, OutFrame(bytes, NoCallback, SettleAndClose(c.turn.value.id)), Some(c.turn.value.id), throws).0
    case Terminal(bytes) => SendTerminal(c, bytes, throws)
    case Done(bytes) => if c.turn.value.terminalSent then c else SendTerminal(c, bytes, throws)
  }

  function ProcessEvents(c: Connection, events: seq<SseEvent>, throws: bool): Connection
    decreases |events|
  {
    if events == [] || !Listening(c) then c
    else ProcessEvents(ProcessEvent(c, events[0], throws), events[1..], throws)
  }

  /** A data chunk: the events it completed, and whether the buffer outgrew its limit. */
  function ResponseData(c: Connection, events: seq<SseEvent>, oversize: bool, errorBytes: nat, throws: bool)
    : Connection
  {
    if !Listening(c) then c
    else
      var d := if c.turn.value.sse then ProcessEvents(c, events, throws) else c;
      if oversize then SendFatalError(d, errorBytes, throws) else d
  }

  function Settle(c: Connection): Connection {
    if c.turn.None? then c else UpdateTurn(c, SettleResponse(c.turn.value))
  }

  /** What follows the end of the body: a JSON body is sent now, and an SSE tail is flushed, after which
      a terminal event must have been seen. */
  function FinishBody(c: Connection, tail: seq<SseEvent>, oversize: bool, bytes: nat, throws: bool): Connection
    requires c.turn.Some?
  {
    if !c.turn.value.sse then SendTerminal(c, bytes, throws)
    else
      var d := ProcessEvents(c, tail, throws);
      if oversize || (d.turn.Some? && !d.turn.value.terminalSent) then SendFatalError(d, bytes, throws) else Settle(d)
  }

  function EndBody(t: Turn): Turn {
    t.(over := true, bodyEnded := true)
  }

  /** `end`. */
  function ResponseEnd(c: Connection, tail: seq<SseEvent>, oversize: bool, bytes: nat, throws: bool): Connection {
    if c.turn.None? || !c.turn.value.responded then c
    else if !Listening(c) then UpdateTurn(c, c.turn.value.(over := true))
    else FinishBody(UpdateTurn(c, EndBody(c.turn.value)), tail, oversize, bytes, throws)
  }

  function EndBodyAndSettle(c: Connection): Connection
    requires c.turn.Some?
  {
    UpdateTurn(c, SettleResponse(c.turn.value.(bodyEnded := true)))
  }

  function MarkOver(c: Connection): Connection
    requires c.turn.Some?
  {
    UpdateTurn(c, c.turn.value.(over := true))
  }

  function ResponseError(c: Connection, bytes: nat, throws: bool): Connection {
    if c.turn.None? || !c.turn.value.responded then c
    else
      var d := MarkOver(c);
      if d.turn.value.responseSettled then d
      else if d.turn.value.sse && d.turn.value.terminalSent then EndBodyAndSettle(d)
      else SendFatalError(d, bytes, throws)
  }

  function MarkCutShort(t: Turn): Turn {
    t.(cutShort := t.cutShort || (!t.bodyEnded && !t.terminalSent))
  }

  /** What `close` does once the response is known to be over. */
  function CloseOver(c: Connection, complete: bool, bytes: nat, throws: bool): Connection
    requires c.turn.Some?
  {
    var t := c.turn.value;
    if !t.sse && (t.responseSettled || t.fatalQueued) then c
    else if t.bodyEnded || complete then EndBodyAndSettle(UpdateTurn(c, MarkCutShort(t)))
    else if t.responseSettled then c
    else if t.sse && t.terminalSent then EndBodyAndSettle(c)
    else SendFatalError(c, bytes, throws)
  }

  /** `close`; `complete` is res.complete. */
  function ResponseClose(c: Connection, complete: bool, bytes: nat, throws: bool): Connection {
    if c.turn.None? || !c.turn.value.responded then c else CloseOver(MarkOver(c), complete, bytes, throws)
  }

  // ---------------------------------------------------------------------------------------
  // The internal request
  // ---------------------------------------------------------------------------------------

  function FailRequest(c: Connection, bytes: nat, throws: bool): Connection
    requires c.turn.Some?
  {
    var t := c.turn.value.(turnFinished := true, bodyFinished := true);
    var cb := FinishRequestFailure(t.id);
    var (d, sent) := SafeSend(UpdateTurn(c, t), OutFrame(bytes, cb, cb), None, throws);
    if sent then d else RunCallback(d, cb)
  }

  /** handleRequestError. */
  function RequestError(c: Connection, bytes: nat, throws: bool): Connection {
    if c.turn.None? || !c.turn.value.requested || c.turn.value.turnFinished then c else FailRequest(c, bytes, throws)
  }

  /** abandonRequestBody. */
  function RequestBodyClosed(c: Connection, bytes: nat, throws: bool): Connection {
    if c.turn.None? || !c.turn.value.requested || c.turn.value.bodyFinished then c
    else if c.turn.value.turnFinished then UpdateTurn(c, c.turn.value.(bodyFinished := true, resolved := true))
    else FailRequest(c, bytes, throws)
  }

  /** expireRequestBody. */
  function RequestBodyExpired(c: Connection, bytes: nat, throws: bool): Connection {
    if c.turn.None? || !c.turn.value.requested || c.turn.value.bodyFinished then c else FailRequest(c, bytes, throws)
  }

  function RequestBodyDrained(c: Connection): Connection {
    if c.turn.None? then c else UpdateTurn(c, c.turn.value.(bodyFinished := true))
  }

  // ---------------------------------------------------------------------------------------
  // Runs
  // ---------------------------------------------------------------------------------------

  datatype Event =
    | Message(frame: InFrame, binary: bool, n: nat, throws: bool)
    | TurnResolved(throws: bool)
    | Sent(epoch: nat, ok: bool, throws: bool)
    | Deadline(epoch: nat)
    | PeerCloses
    | SocketClosed
    | SocketError
    | Response(isSse: bool)
    | Data(events: seq<SseEvent>, oversize: bool, n: nat, throws: bool)
    | End(events: seq<SseEvent>, oversize: bool, n: nat, throws: bool)
    | TransportError(n: nat, throws: bool)
    | TransportClose(complete: bool, n: nat, throws: bool)
    | RequestFailed(n: nat, throws: bool)
    | BodyClosed(n: nat, throws: bool)
    | BodyExpired(n: nat, throws: bool)
    | BodyDrained

  function Next(c: Connection, e: Event): Connection {
    match e
    case Message(frame, binary, n, throws) => OnMessage(c, frame, binary, n, throws)
    case TurnResolved(throws) => TurnDone(c, throws)
    case Sent(epoch, ok, throws) => SendResult(c, epoch, ok, throws)
    case Deadline(epoch) => SendDeadline(c, epoch)
    case PeerCloses => c.(open := false)
    case SocketClosed => Finalize(c.(open := false))
    case SocketError => Finalize(c)
    case Response(isSse) => ResponseStart(c, isSse)
    case Data(events, oversize, n, throws) => ResponseData(c, events, oversize, n, throws)
    case End(events, oversize, n, throws) => ResponseEnd(c, events, oversize, n, throws)
    case TransportError(n, throws) => ResponseError(c, n, throws)
    case TransportClose(complete, n, throws) => ResponseClose(c, complete, n, throws)
    case RequestFailed(n, throws) => RequestError(c, n, throws)
    case BodyClosed(n, throws) => RequestBodyClosed(c, n, throws)
    case BodyExpired(n, throws) => RequestBodyExpired(c, n, throws)
    case BodyDrained => RequestBodyDrained(c)
  }

  function Run(c: Connection, events: seq<Event>): Connection
    decreases |events|
  {
    if events == [] then c else Run(Next(c, events[0]), events[1..])
  }
}
