/**
 The SSE decoder of server.js at work inside the WebSocket tunnel: every chunk of a streamed response is
 decoded, and every event it completes becomes at most one outbound frame of the turn.

 `json` says what JSON.parse and the table of terminal event types make of a payload.
 */
module SseTunnel {
  import opened Wrappers
  import opened Strings
  import opened Tunnel
  import opened TunnelProofs
  import opened TunnelClosing
  import opened TunnelOutcomes
  import opened TunnelResults
  import Sse = SseDecoder
  import SsePayload

  /** The bytes of the frame that a bare `[DONE]` is turned into. */
  const COMPLETED_BYTES: nat := 45

  /** The frame a payload is forwarded as. */
  datatype Meaning = Meaning(terminal: bool, bytes: nat)

  type Json = string -> Meaning

  /** What processEvent makes of the payload of an event. */
  function ClassifyPayload(json: Json, payload: Option<string>): SseEvent {
    if payload.None? then Ignored
    else if Trim(payload.value) == "[DONE]" then Done(COMPLETED_BYTES)
    else if json(payload.value).terminal then Terminal(json(payload.value).bytes)
    else Delta(json(payload.value).bytes)
  }

  /** What processEvent makes of the text of one event. */
  function Classify(json: Json, event: string): SseEvent {
    ClassifyPayload(json, SsePayload.Payload(event))
  }

  function ClassifyAll(json: Json, events: seq<string>): seq<SseEvent> {
    if events == [] then [] else [Classify(json, events[0])] + ClassifyAll(json, events[1..])
  }

  // ---------------------------------------------------------------------------------------
  // The two together
  // ---------------------------------------------------------------------------------------

  /** `text` is what the response has sent, and `before` the frames accepted when it began. */
  datatype Stream = Stream(c: Connection, decoder: Sse.Decoder, text: string, before: seq<OutFrame>)

  datatype Action = Chunk(chunk: string, n: nat, throws: bool) | Ended(n: nat, throws: bool) | Other(e: Event)

  predicate StartsResponse(c: Connection, e: Event) {
    e.Response? && c.turn.Some? && c.turn.value.requested && !c.turn.value.responded
  }

  predicate ListensToSse(c: Connection) {
    Listening(c) && c.turn.value.sse
  }

  function Begin(): Stream {
    Stream(Init(), Sse.Init(), "", [])
  }

  /** Chunks and the end of an SSE response pass through its decoder; everything else is for the tunnel. */
  function Step(json: Json, s: Stream, a: Action): Stream
    requires Sse.WellFormed(s.decoder)
  {
    match a
    case Chunk(chunk, n, throws) =>
      if !ListensToSse(s.c) then s
      else
        var (d, events) := Sse.Push(s.decoder, chunk);
        s.(c := ResponseData(s.c, ClassifyAll(json, events), d.failed, n, throws), decoder := d, text := s.text + chunk)
    case Ended(n, throws) =>
      if !ListensToSse(s.c) then s
      else
        var (d, events) := Sse.Finish(s.decoder);
        s.(c := ResponseEnd(s.c, ClassifyAll(json, events), d.failed, n, throws), decoder := d,
           text := if s.decoder.buffer == "" then s.text else s.text + "\n\n")
    case Other(e) =>
      if (e.Data? || e.End?) && ListensToSse(s.c) then s
      else if StartsResponse(s.c, e) then Stream(Next(s.c, e), Sse.Init(), "", Accepted(s.c.out))
      else s.(c := Next(s.c, e))
  }

  function Run(json: Json, actions: seq<Action>): (s: Stream)
    ensures Sse.WellFormed(s.decoder)
  {
    if actions == [] then Begin()
    else
      Step(json, Run(json, actions[..|actions| - 1]), actions[|actions| - 1])
  }

  // ---------------------------------------------------------------------------------------
  // The frames of a sequence of events
  // ---------------------------------------------------------------------------------------

  /** A terminal event, or a `[DONE]`, is among them. */
  predicate SeesTerminal(events: seq<SseEvent>) {
    exists e :: e in events && (e.Terminal? || e.Done?)
  }

  /** An event that is not ignored is one frame; `[DONE]` counts only if nothing terminal came before. */
  function FramesOf(e: SseEvent, terminalBefore: bool, turn: TurnId): seq<OutFrame> {
    match e
    case Ignored => []
    case Delta(bytes) => [OutFrame(bytes, NoCallback, SettleAndClose(turn))]
    case Terminal(bytes) => [TerminalFrame(bytes, turn)]
    case Done(bytes) => if terminalBefore then [] else [TerminalFrame(bytes, turn)]
  }

  function Frames(events: seq<SseEvent>, turn: TurnId): seq<OutFrame> {
    if events == [] then []
    else
      var before := events[..|events| - 1];
      Frames(before, turn) + FramesOf(events[|events| - 1], SeesTerminal(before), turn)
  }

  /** The client can be reached, and the response of this turn is being forwarded. */
  predicate Streaming(c: Connection) {
    && Live(c) && !c.closing && ListensToSse(c) && !c.turn.value.turnFinished
  }

  /** The turn has accepted exactly the frames of these events, and remembers whether one was terminal. */
  predicate Forwarded(c: Connection, before: seq<OutFrame>, events: seq<SseEvent>)
    requires c.turn.Some?
  {
    && Accepted(c.out) == before + Frames(events, c.turn.value.id)
    && (c.turn.value.terminalSent <==> SeesTerminal(events))
  }

  lemma OneMoreEvent(events: seq<SseEvent>, e: SseEvent, turn: TurnId)
    ensures SeesTerminal(events + [e]) <==> SeesTerminal(events) || e.Terminal? || e.Done?
    ensures Frames(events + [e], turn) == Frames(events, turn) + FramesOf(e, SeesTerminal(events), turn)
  {
    assert (events + [e])[..|events|] == events;
    if SeesTerminal(events) {
      var x :| x in events && (x.Terminal? || x.Done?);
      assert x in events + [e];
    }
    assert e in events + [e];
  }

  lemma EventForwards(c: Connection, e: SseEvent, throws: bool, before: seq<OutFrame>, past: seq<SseEvent>)
    requires Sound(c) && Obligations(c, NoCallback) && ListensToSse(c) && Forwarded(c, before, past)
    ensures
      var d := ProcessEvent(c, e, throws);
      Live(d) ==> d.turn.Some? && Forwarded(d, before, past + [e])
  {
    hide SafeSend, InboundInv, OutboundInv, Obligations, FramesOwed, Frames, SeesTerminal, Later;
    var t := c.turn.value;
    OneMoreEvent(past, e, t.id);
    EventKeepsObligations(c, e, throws);
    match e
    case Ignored =>
    case Delta(bytes) =>
      var f := OutFrame(bytes, NoCallback, SettleAndClose(t.id));
      SendingAccepts(c, f, Some(t.id), throws);
      SafeSendKeepsSound(c, f, Some(t.id), throws);
    case Terminal(bytes) => TerminalForwards(c, bytes, throws);
    case Done(bytes) =>
      if !t.terminalSent {
        TerminalForwards(c, bytes, throws);
      }
  }

  lemma TerminalForwards(c: Connection, bytes: nat, throws: bool)
    requires Sound(c) && Obligations(c, NoCallback) && ListensToSse(c)
    ensures
      var d := SendTerminal(c, bytes, throws);
      Live(d) ==>
        && d.turn == Some(c.turn.value.(terminalSent := true))
        && Accepted(d.out) == Accepted(c.out) + [TerminalFrame(bytes, c.turn.value.id)]
  {
    hide SafeSend, InboundInv, OutboundInv, Carried;
    var marked := UpdateTurn(c, c.turn.value.(terminalSent := true));
    TurnUpdateKeepsInbound(c, marked);
    TerminalKeepsObligations(c, bytes, throws);
    SendingAccepts(marked, TerminalFrame(bytes, c.turn.value.id), Some(c.turn.value.id), throws);
  }

  /** The events of a chunk are forwarded one after the other. */
  lemma {:induction false} EventsForward(c: Connection, events: seq<SseEvent>, throws: bool,
                                         before: seq<OutFrame>, past: seq<SseEvent>)
    requires Sound(c) && Obligations(c, NoCallback) && ListensToSse(c) && Forwarded(c, before, past)
    ensures
      var d := ProcessEvents(c, events, throws);
      Live(d) ==> d.turn.Some? && Forwarded(d, before, past + events)
    decreases |events|
  {
    hide ProcessEvent, Sound, Obligations, Later, Forwarded;
    if events == [] {
      assert past + events == past;
    } else {
      var d := ProcessEvent(c, events[0], throws);
      EventKeepsObligations(c, events[0], throws);
      EventForwards(c, events[0], throws, before, past);
      EventsKeepObligations(d, events[1..], throws);
      assert (past + [events[0]]) + events[1..] == past + events;
      if Live(d) && Listening(d) {
        EventsForward(d, events[1..], throws, before, past + [events[0]]);
      }
    }
  }

  // ---------------------------------------------------------------------------------------
  // Other events neither forward nor forget
  // ---------------------------------------------------------------------------------------

  /** The same turn streams, and has accepted and remembers the same. */
  predicate SameStream(c: Connection, d: Connection) {
    && Streaming(c) && d.turn.Some? && d.turn.value.id == c.turn.value.id
    && d.turn.value.terminalSent == c.turn.value.terminalSent
    && Accepted(d.out) == Accepted(c.out)
  }

  /** If the turn is still streaming after the step, it was before, and nothing was forwarded. */
  predicate LeavesStream(c: Connection, d: Connection) {
    Streaming(d) ==> SameStream(c, d)
  }

  lemma FatalErrorEndsStream(c: Connection, n: nat, throws: bool)
    requires Sound(c) && Obligations(c, NoCallback)
    ensures LeavesStream(c, SendFatalError(c, n, throws))
    ensures Listening(c) ==> !Streaming(SendFatalError(c, n, throws))
  {
    hide SafeSend, RunCallback, InboundInv, OutboundInv, Carried, FramesOwed;
    if Listening(c) {
      var t := c.turn.value;
      var cb := SettleAndClose(t.id);
      var marked := UpdateTurn(c, t.(fatalQueued := true));
      TurnUpdateKeepsInbound(c, marked);
      SendKeepsInv(marked, OutFrame(n, cb, cb), Some(t.id), throws);
      var (d, sent) := SafeSend(marked, OutFrame(n, cb, cb), Some(t.id), throws);
      if !sent {
        SoundIsClosable(d);
        ClosingCallbackKeepsInv(d, cb);
      }
    }
  }

  lemma FailedRequestEndsStream(c: Connection, n: nat, throws: bool)
    requires Inv(c) && c.turn.Some? && !c.closed && !c.turn.value.resolved
    ensures !Streaming(FailRequest(c, n, throws))
  {
    hide SafeSend, RunCallback, Sound, Closable;
    var marked := UpdateTurn(c, c.turn.value.(turnFinished := true, bodyFinished := true));
    var cb := FinishRequestFailure(c.turn.value.id);
    FailedRequestIsSound(c, n);
    SafeSendKeepsSound(marked, OutFrame(n, cb, cb), None, throws);
    var d := SafeSend(marked, OutFrame(n, cb, cb), None, throws).0;
    SoundIsClosable(d);
    ClosingCallbackKeepsInv(d, cb);
  }

  lemma RequestEventsLeaveStream(c: Connection, n: nat, throws: bool)
    requires Inv(c)
    ensures LeavesStream(c, RequestError(c, n, throws))
    ensures LeavesStream(c, RequestBodyClosed(c, n, throws))
    ensures LeavesStream(c, RequestBodyExpired(c, n, throws))
  {
    hide FailRequest, InboundInv, OutboundInv, Obligations, FramesOwed, Prompt;
    if c.turn.Some? && !c.closed && !c.turn.value.resolved {
      FailedRequestEndsStream(c, n, throws);
    }
  }

  lemma TransportLeavesStream(c: Connection, complete: bool, n: nat, throws: bool)
    requires Inv(c)
    ensures LeavesStream(c, ResponseError(c, n, throws))
    ensures LeavesStream(c, ResponseClose(c, complete, n, throws))
  {
    hide SendFatalError, Sound, Obligations;
    if c.turn.Some? && c.turn.value.responded {
      OverKeepsSound(c);
      FatalErrorEndsStream(MarkOver(c), n, throws);
    }
  }

  /** A turn that has no response yet does not stream. */
  lemma NewTurnsDoNotStream(c: Connection, throws: bool)
    requires c.turn.None?
    ensures !Streaming(Drain(c, throws))
  {
    hide SafeSend, Later;
    if c.inbound != [] {
      var f := c.inbound[0];
      var id := c.turnSequence + 1;
      var d := c.(inbound := c.inbound[1..], inboundBytes := c.inboundBytes - f.size,
                  turn := Some(NewTurn(id, f.kind)), turnSequence := id, started := c.started + [f]);
      if f.kind.Rejected? {
        SafeSendFollows(d, OutFrame(f.kind.errorBytes, NoCallback, NoCallback), None, throws);
      }
    }
  }

  lemma MessagesLeaveStream(c: Connection, f: InFrame, binary: bool, n: nat, throws: bool)
    requires Inv(c)
    ensures LeavesStream(c, OnMessage(c, f, binary, n, throws))
    ensures LeavesStream(c, TurnDone(c, throws))
  {
    hide SafeSend, Drain, Inv, Later;
    SafeSendFollows(DropPendingFrames(c.(closing := true)), OutFrame(n, CloseAfterError, CloseAfterError), None,
                    throws);
    var d := c.(inbound := c.inbound + [f], inboundBytes := c.inboundBytes + f.size, arrived := c.arrived + [f]);
    if c.turn.None? {
      NewTurnsDoNotStream(d, throws);
    } else {
      OccupiedSlot(d, throws);
      NewTurnsDoNotStream(c.(turn := None), throws);
    }
  }

  lemma OccupiedSlot(c: Connection, throws: bool)
    requires c.turn.Some?
    ensures Drain(c, throws) == c
  {
  }

  lemma FlushLeavesStream(c: Connection, throws: bool)
    requires QueueBooks(c.out)
    ensures Live(Flush(c, throws)) ==>
              && Flush(c, throws) == c.(out := Flush(c, throws).out)
              && Accepted(Flush(c, throws).out) == Accepted(c.out)
  {
    hide Flush, Failing, FailOutbound, QueueBooks;
    FlushIsFailing(c, throws);
    FlushKeepsAccepted(c, throws);
    if FlushFails(c, throws) {
      QueuedFailure(c.out);
      FailingLosesTheClient(Failing(c), c.out.queue[0].onFailure);
    }
  }

  lemma AcknowledgementsLeaveStream(c: Connection, throws: bool)
    requires Inv(c) && c.out.inFlight.Some?
    ensures LeavesStream(c, Next(c, Sent(c.out.epoch, true, throws)))
  {
    AnsweredIsActive(c);
    NextKeepsInv(c, Sent(c.out.epoch, true, throws));
    var e := Next(c, Sent(c.out.epoch, true, throws));
    assert e.turn.Some? && e.turn.value.resolved ==> e.turn.value.turnFinished;
    AckIsCallbackThenFlush(c, throws);
    hide Inv, Next, Flush, RunCallback, QueueBooks, InboundInv, Closable, FramesOwed, Obligations, Prompt;
    var cb := c.out.inFlight.value.onSuccess;
    var x := c.(out := Acknowledged(c.out));
    if Quiet(cb) {
      QuietCallback(x, cb);
      CallbackOfAcknowledged(c);
      FlushLeavesStream(RunCallback(x, cb), throws);
    } else {
      ClosesTheConnection(c, throws);
    }
  }

  /** The answers of ws.send forward nothing. */
  lemma AnswersLeaveStream(c: Connection, e: Event)
    requires Inv(c) && (e.Sent? || e.Deadline?)
    ensures LeavesStream(c, Next(c, e))
  {
    hide Inv, SendResult, SendDeadline, LeavesStream;
    if c.out.inFlight.Some? && e.epoch == c.out.epoch {
      AnsweredIsActive(c);
      AcknowledgementsLeaveStream(c, if e.Sent? then e.throws else false);
      FailureLosesTheClient(c, e.epoch, if e.Sent? then e.throws else false);
      LostStream(c, SendResult(c, e.epoch, false, if e.Sent? then e.throws else false));
      LostStream(c, SendDeadline(c, e.epoch));
    } else {
      NothingAnswered(c, e);
      StreamStays(c);
    }
  }

  lemma LostStream(c: Connection, d: Connection)
    requires !Live(d)
    ensures LeavesStream(c, d)
  {
  }

  lemma StreamStays(c: Connection)
    ensures LeavesStream(c, c)
  {
  }

  /** An event that is neither a chunk, nor an end, nor the beginning of a response. */
  predicate Unrelated(c: Connection, e: Event) {
    !((e.Data? || e.End?) && ListensToSse(c)) && !StartsResponse(c, e)
  }

  lemma EventsLeaveStream(c: Connection, e: Event)
    requires Inv(c) && Unrelated(c, e)
    ensures LeavesStream(c, Next(c, e))
  {
    hide Inv, OnMessage, TurnDone, SendResult, SendDeadline, Finalize, LeavesStream;
    hide ResponseError, ResponseClose, RequestError, RequestBodyClosed, RequestBodyExpired, ProcessEvents, FinishBody;
    match e
    case Message(frame, binary, n, throws) => MessagesLeaveStream(c, frame, binary, n, throws);
    case TurnResolved(throws) => MessagesLeaveStream(c, InFrame(0, Create(true)), false, 0, throws);
    case Sent(_, _, _) => AnswersLeaveStream(c, e);
    case Deadline(_) => AnswersLeaveStream(c, e);
    case PeerCloses => LostStream(c, Next(c, e));
    case SocketClosed => ClosingEndsStream(c);
    case SocketError => ClosingEndsStream(c);
    case Response(_) => StreamStays(c);
    case Data(_, _, _, _) => OtherBodiesDoNotStream(c, e);
    case End(_, _, _, _) => OtherBodiesDoNotStream(c, e);
    case TransportError(n, throws) => TransportLeavesStream(c, false, n, throws);
    case TransportClose(complete, n, throws) => TransportLeavesStream(c, complete, n, throws);
    case RequestFailed(n, throws) => RequestEventsLeaveStream(c, n, throws);
    case BodyClosed(n, throws) => RequestEventsLeaveStream(c, n, throws);
    case BodyExpired(n, throws) => RequestEventsLeaveStream(c, n, throws);
    case BodyDrained => BodyDrainedLeavesStream(c);
  }

  lemma ClosingEndsStream(c: Connection)
    ensures LeavesStream(c, Finalize(c)) && LeavesStream(c, Finalize(c.(open := false)))
  {
    hide SettleCurrent;
    SettlingOnlySettles(c.(closed := true));
    SettlingOnlySettles(c.(open := false, closed := true));
  }

  lemma BodyDrainedLeavesStream(c: Connection)
    ensures LeavesStream(c, RequestBodyDrained(c))
  {
  }

  /** The body of a JSON response, or of one that is settled, streams nothing. */
  lemma OtherBodiesDoNotStream(c: Connection, e: Event)
    requires Inv(c) && (e.Data? || e.End?) && !ListensToSse(c)
    ensures LeavesStream(c, Next(c, e))
  {
    hide SafeSend, SendFatalError, Sound, Obligations, Later;
    if Listening(c) {
      var t := EndBody(c.turn.value).(terminalSent := true);
      FatalErrorEndsStream(c, e.n, e.throws);
      SafeSendFollows(UpdateTurn(c, t), TerminalFrame(e.n, t.id), Some(t.id), e.throws);
    }
  }

  // ---------------------------------------------------------------------------------------
  // Every run
  // ---------------------------------------------------------------------------------------

  /** While the turn streams, the decoder has read the whole text, and its events are forwarded. */
  ghost predicate InStep(json: Json, s: Stream) {
    && Inv(s.c) && Sse.WellFormed(s.decoder)
    && (Streaming(s.c) ==>
          && Sse.Good(s.decoder) && !s.decoder.failed && s.decoder.buffer == Sse.Tail(s.text)
          && Forwarded(s.c, s.before, ClassifyAll(json, Sse.Events(s.text))))
  }

  lemma {:induction false} ClassifyTwo(json: Json, a: seq<string>, b: seq<string>)
    ensures ClassifyAll(json, a + b) == ClassifyAll(json, a) + ClassifyAll(json, b)
    decreases |a|
  {
    hide Classify;
    if a == [] {
      assert a + b == b;
    } else {
      assert (a + b)[1..] == a[1..] + b;
      ClassifyTwo(json, a[1..], b);
    }
  }

  /** One more piece of the text, decoded and forwarded. */
  lemma PieceIsForwarded(json: Json, s: Stream, piece: string, c: Connection, throws: bool)
    requires Sse.Good(s.decoder) && !s.decoder.failed && s.decoder.buffer == Sse.Tail(s.text)
    requires Sound(c) && Obligations(c, NoCallback) && ListensToSse(c)
    requires Forwarded(c, s.before, ClassifyAll(json, Sse.Events(s.text)))
    ensures
      var (d, events) := Sse.Push(s.decoder, piece);
      var e := ProcessEvents(c, ClassifyAll(json, events), throws);
      !d.failed && Live(e) ==>
        && Sse.Good(d) && d.buffer == Sse.Tail(s.text + piece)
        && e.turn.Some? && Forwarded(e, s.before, ClassifyAll(json, Sse.Events(s.text + piece)))
  {
    hide Sse.Push, Sse.Events, Sse.Tail, Sse.Fits, Forwarded, ProcessEvents, Sound, Obligations;
    var (d, events) := Sse.Push(s.decoder, piece);
    Sse.PushIsOneScan(s.decoder, piece);
    Sse.ScanInTwoPieces(s.text, piece);
    ClassifyTwo(json, Sse.Events(s.text), events);
    EventsForward(c, ClassifyAll(json, events), throws, s.before, ClassifyAll(json, Sse.Events(s.text)));
  }

  lemma ChunkKeepsStep(json: Json, s: Stream, chunk: string, n: nat, throws: bool)
    requires InStep(json, s)
    ensures InStep(json, Step(json, s, Chunk(chunk, n, throws)))
  {
    hide Sse.Push, Sse.Events, Sse.Tail, Sse.Good, Forwarded, ProcessEvents, SendFatalError, Sound, Obligations, Later;
    if ListensToSse(s.c) {
      var (d, events) := Sse.Push(s.decoder, chunk);
      var kinds := ClassifyAll(json, events);
      var e := ProcessEvents(s.c, kinds, throws);
      PushIsWellFormed(s.decoder, chunk);
      DataKeepsInv(s.c, kinds, d.failed, n, throws);
      EventsKeepObligations(s.c, kinds, throws);
      FatalErrorEndsStream(e, n, throws);
      if Streaming(ResponseData(s.c, kinds, d.failed, n, throws)) {
        PieceIsForwarded(json, s, chunk, s.c, throws);
      }
    }
  }

  lemma PushIsWellFormed(d: Sse.Decoder, chunk: string)
    requires Sse.WellFormed(d)
    ensures Sse.WellFormed(Sse.Push(d, chunk).0)
  {
  }

  lemma EndKeepsStep(json: Json, s: Stream, n: nat, throws: bool)
    requires InStep(json, s)
    ensures InStep(json, Step(json, s, Ended(n, throws)))
  {
    hide Sse.Push, Sse.Events, Sse.Tail, Sse.Good, Forwarded, ProcessEvents, SendFatalError, Sound, Obligations, Later;
    if ListensToSse(s.c) {
      var c := UpdateTurn(s.c, EndBody(s.c.turn.value));
      var (d, events) := Sse.Finish(s.decoder);
      var kinds := ClassifyAll(json, events);
      var e := ProcessEvents(c, kinds, throws);
      var x := ResponseEnd(s.c, kinds, d.failed, n, throws);
      PushIsWellFormed(s.decoder, "\n\n");
      BodyEndedKeepsSound(s.c);
      EndKeepsInv(s.c, kinds, d.failed, n, throws);
      EventsKeepObligations(c, kinds, throws);
      FatalErrorEndsStream(e, n, throws);
      if Streaming(x) {
        EndedIsForwarded(s, c);
        FinishIsForwarded(json, s, c, throws);
        StreamingIsUnresolved(x);
        SettlingResponse(e.turn.value);
      }
    }
  }

  lemma EndedIsForwarded(s: Stream, c: Connection)
    requires s.c.turn.Some? && c == UpdateTurn(s.c, EndBody(s.c.turn.value))
    ensures forall before, past :: Forwarded(s.c, before, past) ==> Forwarded(c, before, past)
  {
  }

  lemma StreamingIsUnresolved(c: Connection)
    requires Inv(c) && Streaming(c)
    ensures !c.turn.value.resolved
  {
  }

  /** The end of a body closes what remains of its text with an empty line. */
  lemma FinishIsForwarded(json: Json, s: Stream, c: Connection, throws: bool)
    requires Sse.Good(s.decoder) && !s.decoder.failed && s.decoder.buffer == Sse.Tail(s.text)
    requires Sound(c) && Obligations(c, NoCallback) && ListensToSse(c)
    requires Forwarded(c, s.before, ClassifyAll(json, Sse.Events(s.text)))
    ensures
      var (d, events) := Sse.Finish(s.decoder);
      var e := ProcessEvents(c, ClassifyAll(json, events), throws);
      var text := if s.decoder.buffer == "" then s.text else s.text + "\n\n";
      !d.failed && Live(e) ==>
        && Sse.Good(d) && d.buffer == Sse.Tail(text)
        && e.turn.Some? && Forwarded(e, s.before, ClassifyAll(json, Sse.Events(text)))
  {
    hide Sse.Push, Sse.Events, Sse.Tail, Sse.Good, Forwarded, Sound, Obligations;
    if s.decoder.buffer != "" {
      PieceIsForwarded(json, s, "\n\n", c, throws);
    } else {
      assert ProcessEvents(c, ClassifyAll(json, []), throws) == c;
    }
  }

  lemma OtherKeepsStep(json: Json, s: Stream, e: Event)
    requires InStep(json, s)
    ensures InStep(json, Step(json, s, Other(e)))
  {
    hide Sse.Events, Sse.Tail, Inv, Next;
    NextKeepsInv(s.c, e);
    if StartsResponse(s.c, e) {
      Sse.EmptyText();
      FreshResponse(s.c, e);
    } else if Unrelated(s.c, e) {
      EventsLeaveStream(s.c, e);
    }
  }

  lemma FreshResponse(c: Connection, e: Event)
    requires Inv(c) && StartsResponse(c, e)
    ensures Next(c, e).out == c.out && Next(c, e).turn.Some? && !Next(c, e).turn.value.terminalSent
  {
  }

  lemma {:induction false} RunIsInStep(json: Json, actions: seq<Action>)
    ensures InStep(json, Run(json, actions))
  {
    hide InStep, Step;
    if actions == [] {
      BeginsInStep(json);
    } else {
      var s := Run(json, actions[..|actions| - 1]);
      RunIsInStep(json, actions[..|actions| - 1]);
      assert Sse.WellFormed(s.decoder);
      match actions[|actions| - 1]
      case Chunk(chunk, n, throws) => ChunkKeepsStep(json, s, chunk, n, throws);
      case Ended(n, throws) => EndKeepsStep(json, s, n, throws);
      case Other(e) => OtherKeepsStep(json, s, e);
    }
  }

  lemma BeginsInStep(json: Json)
    ensures InStep(json, Begin())
  {
  }

  /** While the client can be reached and the response is being forwarded, the frames its turn had accepted are, in
      order, those of the events that one scan finds in the text received so far, whatever its chunks were and
      whatever else happened to the connection; and what follows the last event is still buffered. */
  lemma StreamsAreForwardedInFull(json: Json, actions: seq<Action>)
    ensures
      var s := Run(json, actions);
      Streaming(s.c) ==>
        && Accepted(s.c.out) == s.before + Frames(ClassifyAll(json, Sse.Events(s.text)), s.c.turn.value.id)
        && (s.c.turn.value.terminalSent <==> SeesTerminal(ClassifyAll(json, Sse.Events(s.text))))
        && s.decoder.buffer == Sse.Tail(s.text) && !s.decoder.failed
  {
    hide Run, Inv;
    RunIsInStep(json, actions);
  }

  /** What processEvent should make of events known by their fields. */
  function Meant(json: Json, events: seq<seq<SsePayload.Field>>): seq<SseEvent> {
    if events == [] then []
    else [ClassifyPayload(json, SsePayload.Expected(events[0]))] + Meant(json, events[1..])
  }

  lemma {:induction false} ClassifiedAsMeant(json: Json, texts: seq<string>, events: seq<seq<SsePayload.Field>>)
    requires |texts| == |events|
    requires forall k :: 0 <= k < |events| ==> SsePayload.Payload(texts[k]) == SsePayload.Expected(events[k])
    ensures ClassifyAll(json, texts) == Meant(json, events)
    decreases |texts|
  {
    hide ClassifyPayload, SsePayload.Payload, SsePayload.Expected;
    if texts != [] {
      ClassifiedAsMeant(json, texts[1..], events[1..]);
    }
  }

  /** From the encoder to the queue: when what was received is the encoding of some events, the frames accepted are
      those of their data, and nothing is left in the buffer. */
  lemma EncodedStreamsArriveInFull(json: Json, actions: seq<Action>, events: seq<seq<SsePayload.Field>>, eol: string)
    requires (forall e :: e in events ==> SsePayload.ValidEvent(e)) && SsePayload.ValidEol(eol)
    requires Run(json, actions).text == SsePayload.Encode(events, eol)
    ensures
      var s := Run(json, actions);
      Streaming(s.c) ==>
        && Accepted(s.c.out) == s.before + Frames(Meant(json, events), s.c.turn.value.id)
        && s.decoder.buffer == ""
  {
    hide Run, Streaming, Frames, SsePayload.Encode, SsePayload.ValidEvent, Sse.Events, Sse.Tail, SsePayload.Body;
    hide SsePayload.Lines, SsePayload.DataValues, SsePayload.Values, SsePayload.JoinLines;
    StreamsAreForwardedInFull(json, actions);
    SsePayload.EncodedEvents(events, eol);
    var texts := Sse.Events(SsePayload.Encode(events, eol));
    forall k | 0 <= k < |events| ensures SsePayload.Payload(texts[k]) == SsePayload.Expected(events[k]) {
      SsePayload.ValuesOfBody(events[k], eol);
    }
    ClassifiedAsMeant(json, texts, events);
  }

  // ---------------------------------------------------------------------------------------
  // What fits reaches the client
  // ---------------------------------------------------------------------------------------

  /** The bytes of the frames that `events` add to those of `past`. */
  function AddedBytes(past: seq<SseEvent>, events: seq<SseEvent>, turn: TurnId): int {
    TotalBytes(Frames(past + events, turn)) - TotalBytes(Frames(past, turn))
  }

  lemma {:induction false} AddingNeverShrinks(past: seq<SseEvent>, events: seq<SseEvent>, turn: TurnId)
    ensures AddedBytes(past, events, turn) >= 0
    decreases |events|
  {
    hide SeesTerminal, FramesOf;
    if events == [] {
      assert past + events == past;
    } else {
      var n := |events| - 1;
      var e := events[n];
      assert past + events == (past + events[..n]) + [e];
      OneMoreEvent(past + events[..n], e, turn);
      TotalBytesAppend(Frames(past + events[..n], turn), FramesOf(e, SeesTerminal(past + events[..n]), turn));
      AddingNeverShrinks(past, events[..n], turn);
    }
  }

  /** The client is still there, and the turn still streams with these events forwarded. */
  predicate Delivered(c: Connection, before: seq<OutFrame>, events: seq<SseEvent>, turn: TurnId) {
    Live(c) && ListensToSse(c) && c.turn.value.id == turn && Forwarded(c, before, events)
  }

  lemma EventReachesTheClient(c: Connection, e: SseEvent, before: seq<OutFrame>, past: seq<SseEvent>)
    requires Sound(c) && Obligations(c, NoCallback) && c.turn.Some? && Delivered(c, before, past, c.turn.value.id)
    requires c.out.bytes + AddedBytes(past, [e], c.turn.value.id) <= 1024 * 1024
    ensures
      var d := ProcessEvent(c, e, false);
      Delivered(d, before, past + [e], c.turn.value.id)
      && d.out.bytes == c.out.bytes + AddedBytes(past, [e], c.turn.value.id) && d.closing == c.closing
  {
    var t := c.turn.value;
    OneMoreEvent(past, e, t.id);
    TotalBytesAppend(Frames(past, t.id), FramesOf(e, SeesTerminal(past), t.id));
    EventForwards(c, e, false, before, past);
    EventKeepsObligations(c, e, false);
    hide SafeSend, SendTerminal, InboundInv, OutboundInv, Obligations, FramesOwed, Frames, SeesTerminal, Forwarded;
    match e
    case Ignored =>
      OneFrameList([]);
    case Delta(bytes) =>
      var f := OutFrame(bytes, NoCallback, SettleAndClose(t.id));
      OneFrameList([f]);
      SendIsSentOrLost(c, f, Some(t.id), false);
    case Terminal(bytes) =>
      OneFrameList([TerminalFrame(bytes, t.id)]);
      TerminalOutcome(c, bytes, false);
    case Done(bytes) =>
      OneFrameList([]);
      OneFrameList([TerminalFrame(bytes, t.id)]);
      if !t.terminalSent {
        TerminalOutcome(c, bytes, false);
      }
  }

  lemma OneFrameList(frames: seq<OutFrame>)
    requires |frames| <= 1
    ensures TotalBytes(frames) == if frames == [] then 0 else frames[0].bytes
  {
    if frames != [] {
      OneFrame(frames[0]);
      assert frames == [frames[0]];
    }
  }

  /** Events whose frames fit beside what waits are all accepted, and cost nothing, when no send throws. */
  lemma {:induction false} EventsReachTheClient(c: Connection, events: seq<SseEvent>,
                                                before: seq<OutFrame>, past: seq<SseEvent>)
    requires Sound(c) && Obligations(c, NoCallback) && c.turn.Some? && Delivered(c, before, past, c.turn.value.id)
    requires c.out.bytes + AddedBytes(past, events, c.turn.value.id) <= 1024 * 1024
    ensures
      var d := ProcessEvents(c, events, false);
      Delivered(d, before, past + events, c.turn.value.id)
      && d.out.bytes == c.out.bytes + AddedBytes(past, events, c.turn.value.id) && d.closing == c.closing
    decreases |events|
  {
    hide ProcessEvent, Sound, Obligations, Later, Forwarded, Frames;
    var turn := c.turn.value.id;
    if events == [] {
      assert past + events == past;
    } else {
      var (e, rest) := (events[0], events[1..]);
      assert (past + [e]) + rest == past + events;
      AddingNeverShrinks(past + [e], rest, turn);
      EventReachesTheClient(c, e, before, past);
      EventKeepsObligations(c, e, false);
      EventsReachTheClient(ProcessEvent(c, e, false), rest, before, past + [e]);
    }
  }

  /** A chunk whose events fit in the decoder, and whose frames fit beside what waits, reaches the client whole: the
      response goes on being forwarded, and every frame of the chunk is accepted after those before it. */
  lemma ChunksReachTheClient(json: Json, actions: seq<Action>, chunk: string, n: nat)
    requires Streaming(Run(json, actions).c) && Sse.Fits(Sse.Tail(Run(json, actions).text) + chunk)
    requires
      var s := Run(json, actions);
      s.c.out.bytes + TotalBytes(Frames(ClassifyAll(json, Sse.Events(s.text + chunk)), s.c.turn.value.id))
      - TotalBytes(Frames(ClassifyAll(json, Sse.Events(s.text)), s.c.turn.value.id)) <= 1024 * 1024
    ensures
      var s := Run(json, actions);
      var t := Step(json, s, Chunk(chunk, n, false));
      && Streaming(t.c) && t.c.turn.value.id == s.c.turn.value.id && t.text == s.text + chunk && t.before == s.before
      && Accepted(t.c.out) == s.before + Frames(ClassifyAll(json, Sse.Events(s.text + chunk)), s.c.turn.value.id)
  {
    hide Sse.Push, Sse.Events, Sse.Tail, Sse.Fits, Sse.Good, Frames, ProcessEvents, Sound, Obligations, Later, Run;
    RunIsInStep(json, actions);
    var s := Run(json, actions);
    var (d, events) := Sse.Push(s.decoder, chunk);
    var (past, kinds) := (ClassifyAll(json, Sse.Events(s.text)), ClassifyAll(json, events));
    Sse.PushIsOneScan(s.decoder, chunk);
    Sse.ScanInTwoPieces(s.text, chunk);
    ClassifyTwo(json, Sse.Events(s.text), events);
    EventsReachTheClient(s.c, kinds, s.before, past);
    EventsKeepObligations(s.c, kinds, false);
  }

  /** Every event with data adds one frame, but for a `[DONE]` after something terminal; white space around `[DONE]`
      does not matter, and anything else is forwarded as JSON.parse takes it. */
  lemma PayloadsBecomeFrames(json: Json, events: seq<seq<SsePayload.Field>>, e: seq<SsePayload.Field>, turn: TurnId)
    ensures
      var before := Meant(json, events);
      var data := SsePayload.Values(e);
      var frames := Frames(Meant(json, events + [e]), turn);
      && (data == [] ==> frames == Frames(before, turn))
      && (data != [] ==>
            var text := SsePayload.JoinLines(data);
            && (forall left, right :: Blank(left) && Blank(right) && text == left + "[DONE]" + right ==>
                  frames == Frames(before, turn) + if SeesTerminal(before) then [] else [TerminalFrame(45, turn)])
            && (Trim(text) != "[DONE]" ==>
                  frames == Frames(before, turn) + [OutFrame(json(text).bytes,
                    if json(text).terminal then AcknowledgeTerminal(turn) else NoCallback, SettleAndClose(turn))]))
  {
    hide SeesTerminal, Frames, Trim, SsePayload.Values, SsePayload.JoinLines;
    MeantOneMore(json, events, e);
    OneMoreEvent(Meant(json, events), ClassifyPayload(json, SsePayload.Expected(e)), turn);
    if SsePayload.Values(e) != [] {
      var text := SsePayload.JoinLines(SsePayload.Values(e));
      forall left, right | Blank(left) && Blank(right) && text == left + "[DONE]" + right
        ensures Trim(text) == "[DONE]"
      {
        TrimPadded(left, "[DONE]", right);
      }
    }
  }

  lemma {:induction false} MeantOneMore(json: Json, events: seq<seq<SsePayload.Field>>, e: seq<SsePayload.Field>)
    ensures Meant(json, events + [e]) == Meant(json, events) + [ClassifyPayload(json, SsePayload.Expected(e))]
    decreases |events|
  {
    hide ClassifyPayload, SsePayload.Expected;
    if events == [] {
      assert [e][1..] == [];
    } else {
      assert (events + [e])[1..] == events[1..] + [e];
      MeantOneMore(json, events[1..], e);
    }
  }
}
