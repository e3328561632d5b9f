/** The client connection as the object server.js mutates, each handler proved against its step of Tunnel. */
module TunnelObject {
  import opened Wrappers
  import opened Tunnel
  import opened TunnelProofs

  class ClientConnection {
    var isOpen: bool
    var closed: bool
    var closing: bool
    var pending: seq<InFrame>
    var pendingBytes: int
    var turn: Option<Turn>
    var turnSequence: TurnId

    // The send state of the socket.
    var epoch: nat
    var active: bool
    var inFlight: Option<OutFrame>
    var deadline: bool
    var queue: seq<OutFrame>
    var queueBytes: int
    var pressured: set<TurnId>

    // Histories.
    ghost var arrived: seq<InFrame>
    ghost var started: seq<InFrame>
    ghost var accepted: seq<OutFrame>
    ghost var sent: seq<OutFrame>
    ghost var succeeded: seq<OutFrame>

    ghost function Queue(): Outbound
      reads this
    {
      Outbound(epoch, active, inFlight, deadline, queue, queueBytes, pressured, accepted, sent, succeeded)
    }

    ghost function View(): Connection
      reads this
    {
      Connection(isOpen, closed, closing, pending, pendingBytes, turn, turnSequence, Queue(), arrived, started)
    }

    ghost predicate Valid()
      reads this
    {
      Reachable(View())
    }

    constructor ()
      ensures Valid() && View() == Init()
    {
      isOpen, closed, closing := true, false, false;
      pending, pendingBytes := [], 0;
      turn, turnSequence := None, 0;
      epoch, active, inFlight, deadline := 0, false, None, false;
      queue, queueBytes, pressured := [], 0, {};
      arrived, started, accepted, sent, succeeded := [], [], [], [], [];
      new;
      InitIsReachable();
    }

    // ---------------------------------------------------------------------------------------
    // Closing
    // ---------------------------------------------------------------------------------------

    method InvalidateOutbound()
      modifies this
      ensures View() == old(View()).(out := Invalidate(old(Queue())))
    {
      if active {
        active := false;
        inFlight, deadline := None, false;
        queue, queueBytes := [], 0;
        pressured := {};
      }
    }

    method DropPending()
      modifies this
      ensures View() == DropPendingFrames(old(View()))
    {
      pending, pendingBytes := [], 0;
    }

    method SettleCurrentTurn()
      modifies this
      ensures View() == SettleCurrent(old(View()))
    {
      if turn.Some? && turn.value.registered {
        var t := if turn.value.responded then ForceSettleResponse(turn.value) else ForceSettleTurn(turn.value);
        turn := Some(t.(registered := false));
      }
    }

    method CloseLocally()
      modifies this
      ensures View() == CloseNow(old(View()))
    {
      closed := true;
      SettleCurrentTurn();
      DropPending();
      InvalidateOutbound();
    }

    method FinalizeConnection()
      modifies this
      ensures View() == Finalize(old(View()))
    {
      if !closed {
        CloseLocally();
      }
    }

    method CloseRequested()
      modifies this
      ensures View() == RequestClose(old(View()))
    {
      hide CloseNow;
      if closed {
        DropPending();
      } else if !isOpen {
        FinalizeConnection();
      } else {
        CloseLocally();
        isOpen := false;
      }
    }

    method Call(cb: Callback)
      modifies this
      ensures View() == RunCallback(old(View()), cb)
    {
      hide RequestClose;
      match cb {
        case NoCallback =>
        case AcknowledgeTerminal(id) =>
          if turn.Some? && turn.value.id == id {
            turn := Some(SettleResponse(turn.value.(ack := true)));
          }
        case SettleAndClose(id) =>
          CloseRequested();
          if turn.Some? && turn.value.id == id {
            turn := Some(ForceSettleResponse(turn.value));
          }
        case CloseAfterError => CloseRequested();
        case FinishRequestFailure(id) =>
          CloseRequested();
          if turn.Some? && turn.value.id == id {
            turn := Some(turn.value.(resolved := true));
          }
      }
    }

    // ---------------------------------------------------------------------------------------
    // The outbound queue
    // ---------------------------------------------------------------------------------------

    method Fail(onFailure: Callback)
      modifies this
      ensures View() == FailOutbound(old(View()), onFailure)
    {
      hide RunCallback;
      if active {
        InvalidateOutbound();
        if onFailure.NoCallback? {
          isOpen := false;
        } else {
          Call(onFailure);
        }
      }
    }

    method FlushQueue(throws: bool)
      modifies this
      ensures View() == Flush(old(View()), throws)
    {
      hide FailOutbound;
      if !active || inFlight.Some? {
        return;
      }
      if queue == [] {
        pressured := {};
        return;
      }
      var next := queue[0];
      queue := queue[1..];
      if !isOpen {
        Fail(next.onFailure);
        return;
      }
      inFlight, deadline := Some(next), true;
      sent := sent + [next];
      if throws {
        Fail(next.onFailure);
      }
    }

    /** The send state to use: a new one if the last one was invalidated. */
    method OpenSendState()
      modifies `epoch, `active, `inFlight, `deadline, `queue, `queueBytes, `pressured, `accepted, `sent, `succeeded
      ensures Queue() == SendState(old(Queue()))
    {
      if !active {
        epoch, active, inFlight, deadline := epoch + 1, true, None, false;
        queue, queueBytes, pressured := [], 0, {};
        accepted, sent, succeeded := [], [], [];
      }
    }

    method OpenAndPause(response: Option<TurnId>)
      modifies `epoch, `active, `inFlight, `deadline, `queue, `queueBytes, `pressured, `accepted, `sent, `succeeded
      ensures Queue() == Paused(old(Queue()), response)
    {
      hide SendState;
      OpenSendState();
      if response.Some? {
        pressured := pressured + {response.value};
      }
    }

    method Append(f: OutFrame)
      modifies `queue, `queueBytes, `accepted
      ensures Queue() == old(Queue()).(queue := old(queue) + [f], bytes := old(queueBytes) + f.bytes,
                                       accepted := old(accepted) + [f])
    {
      queue := queue + [f];
      queueBytes := queueBytes + f.bytes;
      accepted := accepted + [f];
    }

    method Send(f: OutFrame, response: Option<TurnId>, throws: bool) returns (ok: bool)
      modifies this
      ensures (View(), ok) == SafeSend(old(View()), f, response, throws)
    {
      hide FailOutbound, Flush, RunCallback, Paused;
      if !isOpen {
        Call(f.onFailure);
        return false;
      }
      OpenAndPause(response);
      if queueBytes + f.bytes > MAX_PENDING_OUTBOUND_BYTES {
        Fail(f.onFailure);
        return false;
      }
      Append(f);
      FlushQueue(throws);
      return true;
    }

    /** The frame in flight is done with: acknowledged, or failed. */
    method TakeInFlight(ok: bool) returns (next: OutFrame)
      requires inFlight.Some?
      modifies `inFlight, `deadline, `queueBytes, `succeeded
      ensures next == old(inFlight.value) && inFlight.None? && !deadline && queueBytes == old(queueBytes) - next.bytes
      ensures succeeded == if ok then old(succeeded) + [next] else old(succeeded)
    {
      next := inFlight.value;
      inFlight, deadline := None, false;
      queueBytes := queueBytes - next.bytes;
      if ok {
        succeeded := succeeded + [next];
      }
    }

    method OnSendResult(answered: nat, ok: bool, throws: bool)
      requires Valid()
      modifies this
      ensures Valid() && WithinLimits(View())
      ensures View() == Next(old(View()), Sent(answered, ok, throws))
    {
      hide Reachable, WithinLimits, Flush, FailOutbound, RunCallback;
      NextIsReachable(View(), Sent(answered, ok, throws));
      if active && epoch == answered && inFlight.Some? {
        var next := TakeInFlight(ok);
        if ok {
          Call(next.onSuccess);
          FlushQueue(throws);
        } else {
          Fail(next.onFailure);
        }
      }
    }

    method OnSendDeadline(armed: nat)
      requires Valid()
      modifies this
      ensures Valid() && WithinLimits(View())
      ensures View() == Next(old(View()), Deadline(armed))
    {
      hide Reachable, WithinLimits, FailOutbound;
      NextIsReachable(View(), Deadline(armed));
      if active && epoch == armed && inFlight.Some? {
        Fail(inFlight.value.onFailure);
      }
    }

    method ReportAndClose(errorBytes: nat, throws: bool)
      modifies this
      ensures View() == SendErrorAndClose(old(View()), errorBytes, throws)
    {
      hide SafeSend;
      if !closed && !closing {
        closing := true;
        DropPending();
        var _ := Send(OutFrame(errorBytes, CloseAfterError, CloseAfterError), None, throws);
      }
    }

    // ---------------------------------------------------------------------------------------
    // The inbound queue
    // ---------------------------------------------------------------------------------------

    /** Takes the oldest frame out of the queue and gives it the slot. */
    method TakeOldest() returns (next: InFrame)
      requires turn.None? && pending != []
      modifies `pending, `pendingBytes, `turn, `turnSequence, `started
      ensures next == old(pending[0]) && pending == old(pending[1..]) && pendingBytes == old(pendingBytes) - next.size
      ensures turnSequence == old(turnSequence) + 1 && turn == Some(NewTurn(turnSequence, next.kind))
      ensures started == old(started) + [next]
    {
      next := pending[0];
      pending := pending[1..];
      pendingBytes := pendingBytes - next.size;
      turnSequence := turnSequence + 1;
      turn := Some(NewTurn(turnSequence, next.kind));
      started := started + [next];
    }

    method StartNextFrame(throws: bool)
      modifies this
      ensures View() == Drain(old(View()), throws)
    {
      hide SafeSend, NewTurn;
      if turn.None? && pending != [] {
        var next := TakeOldest();
        if next.kind.Rejected? {
          var _ := Send(OutFrame(next.kind.errorBytes, NoCallback, NoCallback), None, throws);
        }
      }
    }

    method OnFrame(f: InFrame, binary: bool, errorBytes: nat, throws: bool)
      requires Valid()
      modifies this
      ensures Valid() && WithinLimits(View())
      ensures View() == Next(old(View()), Message(f, binary, errorBytes, throws))
    {
      hide Reachable, WithinLimits, SendErrorAndClose, Drain;
      NextIsReachable(View(), Message(f, binary, errorBytes, throws));
      if closed || closing {
        return;
      }
      if binary || |pending| >= MAX_PENDING_FRAMES || pendingBytes + f.size > MAX_PENDING_BYTES {
        ReportAndClose(errorBytes, throws);
        return;
      }
      pending := pending + [f];
      pendingBytes := pendingBytes + f.size;
      arrived := arrived + [f];
      StartNextFrame(throws);
    }

    method OnTurnResolved(throws: bool)
      requires Valid()
      modifies this
      ensures Valid() && WithinLimits(View())
      ensures View() == Next(old(View()), TurnResolved(throws))
    {
      hide Reachable, WithinLimits, Drain;
      NextIsReachable(View(), TurnResolved(throws));
      if turn.Some? && turn.value.resolved {
        turn := None;
        if pending != [] && !closed && !closing {
          StartNextFrame(throws);
        }
      }
    }

    method OnPeerClosing()
      requires Valid()
      modifies this
      ensures Valid() && WithinLimits(View())
      ensures View() == Next(old(View()), PeerCloses)
    {
      hide Reachable, WithinLimits;
      NextIsReachable(View(), PeerCloses);
      isOpen := false;
    }

    method OnSocketClosed()
      requires Valid()
      modifies this
      ensures Valid() && WithinLimits(View())
      ensures View() == Next(old(View()), SocketClosed)
    {
      hide Reachable, WithinLimits, Finalize;
      NextIsReachable(View(), SocketClosed);
      isOpen := false;
      FinalizeConnection();
    }

    method OnSocketError()
      requires Valid()
      modifies this
      ensures Valid() && WithinLimits(View())
      ensures View() == Next(old(View()), SocketError)
    {
      hide Reachable, WithinLimits, Finalize;
      NextIsReachable(View(), SocketError);
      FinalizeConnection();
    }

    // ---------------------------------------------------------------------------------------
    // The internal response
    // ---------------------------------------------------------------------------------------

    predicate IsListening()
      reads this
      ensures IsListening() == Listening(View())
    {
      turn.Some? && turn.value.responded && !turn.value.responseSettled && !turn.value.fatalQueued
    }

    method OnResponse(sse: bool)
      requires Valid()
      modifies this
      ensures Valid() && WithinLimits(View())
      ensures View() == Next(old(View()), Response(sse))
    {
      hide Reachable, WithinLimits;
      NextIsReachable(View(), Response(sse));
      if turn.Some? && turn.value.requested && !turn.value.responded {
        turn := Some(turn.value.(responded := true, sse := sse));
        if closed || closing || turn.value.resolved {
          turn := Some(ForceSettleResponse(turn.value));
        } else {
          turn := Some(turn.value.(registered := true));
        }
      }
    }

    method ReportFatalError(bytes: nat, throws: bool)
      modifies this
      ensures View() == SendFatalError(old(View()), bytes, throws)
    {
      hide SafeSend, RunCallback;
      if IsListening() {
        var cb := SettleAndClose(turn.value.id);
        turn := Some(turn.value.(fatalQueued := true));
        var ok := Send(OutFrame(bytes, cb, cb), Some(turn.value.id), throws);
        if !ok {
          Call(cb);
        }
      }
    }

    method ReportTerminal(bytes: nat, throws: bool)
      requires turn.Some?
      modifies this
      ensures View() == SendTerminal(old(View()), bytes, throws)
    {
      hide SafeSend;
      var id := turn.value.id;
      turn := Some(turn.value.(terminalSent := true));
      var _ := Send(OutFrame(bytes, AcknowledgeTerminal(id), SettleAndClose(id)), Some(id), throws);
    }

    method ForwardEvent(e: SseEvent, throws: bool)
      requires turn.Some?
      modifies this
      ensures View() == ProcessEvent(old(View()), e, throws)
    {
      hide SafeSend, SendTerminal;
      match e {
        case Ignored =>
        case Delta(bytes) =>
          var _ := Send(OutFrame(bytes, NoCallback, SettleAndClose(turn.value.id)), Some(turn.value.id), throws);
        case Terminal(bytes) => ReportTerminal(bytes, throws);
        case Done(bytes) =>
          if !turn.value.terminalSent {
            ReportTerminal(bytes, throws);
          }
      }
    }

    method ForwardEvents(events: seq<SseEvent>, throws: bool)
      modifies this
      ensures View() == ProcessEvents(old(View()), events, throws)
    {
      hide ProcessEvent;
      var i := 0;
      while i < |events| && IsListening()
        invariant i <= |events|
        invariant ProcessEvents(View(), events[i..], throws) == ProcessEvents(old(View()), events, throws)
      {
        assert events[i..][0] == events[i] && events[i..][1..] == events[i + 1..];
        ForwardEvent(events[i], throws);
        i := i + 1;
      }
    }

    method OnData(events: seq<SseEvent>, oversize: bool, n: nat, throws: bool)
      requires Valid()
      modifies this
      ensures Valid() && WithinLimits(View())
      ensures View() == Next(old(View()), Data(events, oversize, n, throws))
    {
      hide Reachable, WithinLimits, ProcessEvents, SendFatalError;
      NextIsReachable(View(), Data(events, oversize, n, throws));
      if IsListening() {
        if turn.value.sse {
          ForwardEvents(events, throws);
        }
        if oversize {
          ReportFatalError(n, throws);
        }
      }
    }

    method TrySettle()
      modifies this
      ensures View() == Settle(old(View()))
    {
      if turn.Some? {
        turn := Some(SettleResponse(turn.value));
      }
    }

    method FlushTail(tail: seq<SseEvent>, oversize: bool, n: nat, throws: bool)
      requires turn.Some?
      modifies this
      ensures View() == FinishBody(old(View()), tail, oversize, n, throws)
    {
      hide ProcessEvents, SendFatalError, SendTerminal, Settle;
      if !turn.value.sse {
        ReportTerminal(n, throws);
        return;
      }
      ForwardEvents(tail, throws);
      if oversize || (turn.Some? && !turn.value.terminalSent) {
        ReportFatalError(n, throws);
      } else {
        TrySettle();
      }
    }

    method OnEnd(tail: seq<SseEvent>, oversize: bool, n: nat, throws: bool)
      requires Valid()
      modifies this
      ensures Valid() && WithinLimits(View())
      ensures View() == Next(old(View()), End(tail, oversize, n, throws))
    {
      hide Reachable, WithinLimits, FinishBody;
      NextIsReachable(View(), End(tail, oversize, n, throws));
      if turn.Some? && turn.value.responded {
        if !IsListening() {
          turn := Some(turn.value.(over := true));
          return;
        }
        turn := Some(EndBody(turn.value));
        FlushTail(tail, oversize, n, throws);
      }
    }

    method EndBodyNow()
      requires turn.Some?
      modifies this
      ensures View() == EndBodyAndSettle(old(View()))
    {
      turn := Some(SettleResponse(turn.value.(bodyEnded := true)));
    }

    method MarkResponseOver()
      requires turn.Some?
      modifies `turn
      ensures turn.Some? && View() == MarkOver(old(View()))
    {
      turn := Some(turn.value.(over := true));
    }

    method OnResponseError(n: nat, throws: bool)
      requires Valid()
      modifies this
      ensures Valid() && WithinLimits(View())
      ensures View() == Next(old(View()), TransportError(n, throws))
    {
      hide Reachable, WithinLimits, SendFatalError, EndBodyAndSettle;
      NextIsReachable(View(), TransportError(n, throws));
      if turn.Some? && turn.value.responded {
        MarkResponseOver();
        if turn.value.responseSettled {
          return;
        }
        if turn.value.sse && turn.value.terminalSent {
          EndBodyNow();
        } else {
          ReportFatalError(n, throws);
        }
      }
    }

    method CloseResponse(complete: bool, n: nat, throws: bool)
      requires turn.Some?
      modifies this
      ensures View() == CloseOver(old(View()), complete, n, throws)
    {
      hide SendFatalError, EndBodyAndSettle, MarkCutShort;
      var t := turn.value;
      if !t.sse && (t.responseSettled || t.fatalQueued) {
        return;
      }
      if t.bodyEnded || complete {
        turn := Some(MarkCutShort(t));
        EndBodyNow();
      } else if t.responseSettled {
        return;
      } else if t.sse && t.terminalSent {
        EndBodyNow();
      } else {
        ReportFatalError(n, throws);
      }
    }

    method OnResponseClose(complete: bool, n: nat, throws: bool)
      requires Valid()
      modifies this
      ensures Valid() && WithinLimits(View())
      ensures View() == Next(old(View()), TransportClose(complete, n, throws))
    {
      hide Reachable, WithinLimits, CloseOver, MarkOver;
      NextIsReachable(View(), TransportClose(complete, n, throws));
      if turn.Some? && turn.value.responded {
        MarkResponseOver();
        CloseResponse(complete, n, throws);
      }
    }

    // ---------------------------------------------------------------------------------------
    // The internal request
    // ---------------------------------------------------------------------------------------

    method ReportRequestFailure(bytes: nat, throws: bool)
      requires turn.Some?
      modifies this
      ensures View() == FailRequest(old(View()), bytes, throws)
    {
      hide SafeSend, RunCallback;
      var cb := FinishRequestFailure(turn.value.id);
      turn := Some(turn.value.(turnFinished := true, bodyFinished := true));
      var ok := Send(OutFrame(bytes, cb, cb), None, throws);
      if !ok {
        Call(cb);
      }
    }

    method OnRequestError(n: nat, throws: bool)
      requires Valid()
      modifies this
      ensures Valid() && WithinLimits(View())
      ensures View() == Next(old(View()), RequestFailed(n, throws))
    {
      hide Reachable, WithinLimits, FailRequest;
      NextIsReachable(View(), RequestFailed(n, throws));
      if turn.Some? && turn.value.requested && !turn.value.turnFinished {
        ReportRequestFailure(n, throws);
      }
    }

    method OnRequestBodyClosed(n: nat, throws: bool)
      requires Valid()
      modifies this
      ensures Valid() && WithinLimits(View())
      ensures View() == Next(old(View()), BodyClosed(n, throws))
    {
      hide Reachable, WithinLimits, FailRequest;
      NextIsReachable(View(), BodyClosed(n, throws));
      if turn.Some? && turn.value.requested && !turn.value.bodyFinished {
        if turn.value.turnFinished {
          turn := Some(turn.value.(bodyFinished := true, resolved := true));
        } else {
          ReportRequestFailure(n, throws);
        }
      }
    }

    method OnRequestBodyExpired(n: nat, throws: bool)
      requires Valid()
      modifies this
      ensures Valid() && WithinLimits(View())
      ensures View() == Next(old(View()), BodyExpired(n, throws))
    {
      hide Reachable, WithinLimits, FailRequest;
      NextIsReachable(View(), BodyExpired(n, throws));
      if turn.Some? && turn.value.requested && !turn.value.bodyFinished {
        ReportRequestFailure(n, throws);
      }
    }

    method OnRequestBodyDrained()
      requires Valid()
      modifies this
      ensures Valid() && WithinLimits(View())
      ensures View() == Next(old(View()), BodyDrained)
    {
      hide Reachable, WithinLimits;
      NextIsReachable(View(), BodyDrained);
      if turn.Some? {
        turn := Some(turn.value.(bodyFinished := true));
      }
    }
  }
}
