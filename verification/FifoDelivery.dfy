/**
 Nothing is lost over reliable links: as long as a receiver's session lives, what it delivered
 followed by what is in flight is what was sent, and once the peer's CLOSE is delivered, everything was.
 */
module FifoDelivery {
  import opened Types
  import opened ReplayGuard
  import opened Session
  import opened Endpoint
  import opened Network
  import opened Lossy
  import opened Channel
  import opened Fifo

  /** What `x` sent on `c` and `y` has or will have: `y`'s session lives, or has taken `x`'s CLOSE. */
  ghost predicate Conserves(x: Node, y: Node, c: Bytes32)
    requires y.cursor <= |x.log|
  {
    && (c in y.core.sessions || (c, PeerClosed) in y.events ==>
          Delivered(y.events, c) + Payloads(Flight(x, y, c)) == DataOn(x.log, c))
    && ((c, PeerClosed) in y.events ==>
          && Payloads(Flight(x, y, c)) == [] && !Untouched(x.log, c)
          && (c in x.core.sessions ==> x.core.sessions[c].localClosed))
  }

  // ---------------------------------------------------------------- the sender moves

  /** The sender logs at most one frame, and DATA on `c` only before its own CLOSE. */
  lemma {:induction false} SenderMoves(x: Node, y: Node, x': Node, e: Entry, c: Bytes32)
    requires y.cursor <= |x.log| && Conserves(x, y, c)
    requires x'.log == x.log || x'.log == x.log + [e]
    requires x'.log != x.log && IsData(e, c) ==> c in x.core.sessions && !x.core.sessions[c].localClosed
    requires c in x'.core.sessions ==>
               || Untouched(x.log, c)
               || (c in x.core.sessions && (x.core.sessions[c].localClosed ==> x'.core.sessions[c].localClosed))
    ensures Conserves(x', y, c)
  {
    if x'.log != x.log {
      FlightSnoc(x, y, x', e, c);
      var got, flight := Delivered(y.events, c), Flight(x, y, c);
      if e.frame.cid == c {
        PayloadsSnoc(flight, e.frame);
        assert (got + Payloads(flight)) + [e.frame.payload] == got + (Payloads(flight) + [e.frame.payload]);
      } else {
        assert flight + [] == flight;
      }
      DataOnSnoc(x.log, e, c);
      UntouchedSnoc(x.log, e, c);
    }
  }

  lemma BuildAfterClose(s: Session, op: AppOp)
    requires Build(s, op).1.Ok?
    ensures s.localClosed ==> Build(s, op).0.localClosed && !op.AppData?
    ensures KindOfHeader(Build(s, op).1.value).Data? <==> op.AppData?
  {}

  /** A new initiator has everything sent to it so far, which is nothing. */
  lemma {:induction false} UnopenedIsEmpty(x: Node, y: Node, c: Bytes32)
    requires PairInv(x, y, c) && Unopened(x, y, c) && x.cursor <= |y.log|
    ensures Delivered(x.events, c) == [] && DataOn(y.log, c) == [] && Payloads(Flight(y, x, c)) == []
  {
    UntouchedIsNoOpen(x.log, c);
    UntouchedIsNoOpen(y.log, c);
    DataOnUntouched(y.log, c);
    FlightTouches(y, x, c);
  }

  lemma {:induction false} CallConserves(x: Node, y: Node, op: AppOp, now: u64, expiresAt: u64, c: Bytes32)
    requires y.cursor <= |x.log| && x.cursor <= |y.log| && PairInv(x, y, c) && StreamPhase(x, y, c, false)
    requires Conserves(x, y, c) && Conserves(y, x, c)
    requires HonestStep(x, y, Call(c, op, now, expiresAt, true))
    ensures var x' := DoCall(x, c, op, now, expiresAt, true);
            y.cursor <= |x'.log| && x'.cursor <= |y.log| && Conserves(x', y, c) && Conserves(y, x', c)
  {
    var x' := DoCall(x, c, op, now, expiresAt, true);
    CallLogs(x, c, op, now, expiresAt);
    var (slot, r) := SlotApp(Get(x.core.sessions, c), Full(x.core), x.core.cap, op, true);
    if r.Ok? {
      GetPut(x.core.sessions, c, slot, c);
      if c in x.core.sessions {
        BuildAfterClose(x.core.sessions[c], op);
      } else {
        FlightTouches(x, y, c);
        FlightTouches(y, x, c);
        UnopenedIsEmpty(x, y, c);
      }
      SenderMoves(x, y, x', x'.log[|x.log|], c);
    }
  }

  lemma {:induction false} CallElsewhereConserves(x: Node, y: Node, cid: Bytes32, op: AppOp, now: u64, expiresAt: u64,
                                                  c: Bytes32)
    requires y.cursor <= |x.log| && x.cursor <= |y.log| && cid != c && x.core.sendCounter == |x.log| < U64_MAX
    requires Conserves(x, y, c) && Conserves(y, x, c)
    ensures var x' := DoCall(x, cid, op, now, expiresAt, true);
            y.cursor <= |x'.log| && x'.cursor <= |y.log| && Conserves(x', y, c) && Conserves(y, x', c)
  {
    var x' := DoCall(x, cid, op, now, expiresAt, true);
    CallShape(x, cid, op, now, expiresAt, true);
    CallElsewhere(x, y, cid, op, now, expiresAt, true, c);
    if x'.log != x.log { SenderMoves(x, y, x', x'.log[|x.log|], c); }
  }

  // ---------------------------------------------------------------- the receiver moves

  /** No DATA can be on its way to a responder that has not answered. */
  lemma {:induction false} NoDataBeforeAck(closed: bool, fs: seq<Frame>)
    requires !TakeAll(NotAcked(closed), fs).Bad?
    ensures Payloads(fs) == []
    decreases |fs|
  {
    if fs != [] {
      var b := Take(NotAcked(closed), fs[0]);
      if b.NotAcked? { NoDataBeforeAck(b.closed, fs[1..]); } else { TakeAllFinal(b, fs[1..]); }
    }
  }

  /** After an accepted CLOSE no DATA follows, and a sender that still lives has closed. */
  lemma {:induction false} CloseIsLast(p: Slot, s: Session, there: seq<Frame>, back: seq<Frame>)
    requires Started(p, Some(s), there, back, false) && there != [] && there[0].kind.Close?
    requires !TooEarly(Some(s), there[0])
    ensures Payloads(there) == [] && (p.Some? ==> p.value.localClosed)
  {
    var b := Take(InboxOf(s), there[0]);
    if b.Bad? { TakeAllFinal(b, there[1..]); }
    AtStaysAt(b, there[1..]);
  }

  /** What a session accepts, and what it does to the events and our own CLOSE. */
  lemma AcceptedEvent(s: Session, f: Frame, full: bool, cap: nat)
    requires !f.kind.Open?
    ensures var (slot, reaction) := SlotRecv(Some(s), full, cap, f.kind, f.hdr, f.payload);
            && (slot.Some? ==> slot.value.localClosed == s.localClosed && reaction.Deliver?)
            && (reaction.Deliver? ==>
                  && (reaction.event.DataDelivered? <==> f.kind.Data?)
                  && (f.kind.Data? ==> reaction.event.payload == f.payload)
                  && (reaction.event.PeerClosed? <==> f.kind.Close?)
                  && !TooEarly(Some(s), f))
  {}

  lemma PopPayloads(x: Node, y: Node, x': Node, c: Bytes32)
    requires x.cursor < |y.log| && y.log[x.cursor].frame.cid == c && x'.cursor == x.cursor + 1
    ensures var f := y.log[x.cursor].frame;
            Payloads(Flight(y, x, c)) == (if f.kind.Data? then [f.payload] else []) + Payloads(Flight(y, x', c))
  {
    FlightPop(y, x, x', c);
    assert Flight(y, x, c)[1..] == Flight(y, x', c);
  }

  /** The next frame `f` leaves the flight, as `event` or unnoticed. */
  lemma {:induction false} PopConserves(x: Node, y: Node, x': Node, f: Frame, event: Option<StreamEvent>, c: Bytes32)
    requires x.cursor < |y.log| && f == y.log[x.cursor].frame && f.cid == c && x'.cursor == x.cursor + 1
    requires Conserves(y, x, c)
    requires x'.events == if event.Some? then x.events + [(c, event.value)] else x.events
    requires event.Some? ==>
               && (event.value.DataDelivered? <==> f.kind.Data?) && (f.kind.Data? ==> event.value.payload == f.payload)
               && (event.value.PeerClosed? <==> f.kind.Close?)
               && c in x.core.sessions
    requires event.None? ==> c !in x'.core.sessions
    requires event.Some? && f.kind.Close? ==>
               Payloads(Flight(y, x, c)) == [] && (c in y.core.sessions ==> y.core.sessions[c].localClosed)
    ensures Conserves(y, x', c)
  {
    PopPayloads(x, y, x', c);
    assert !Untouched(y.log, c);
    if event.Some? {
      if f.kind.Data? {
        PopData(x, y, x', f.payload, event.value, c);
      } else {
        PopControl(x, y, x', event.value, c);
      }
    }
  }

  lemma {:induction false} PopData(x: Node, y: Node, x': Node, payload: Bytes, event: StreamEvent, c: Bytes32)
    requires x.cursor <= |y.log| && x'.cursor <= |y.log| && Conserves(y, x, c)
    requires c in x.core.sessions && event == DataDelivered(payload) && x'.events == x.events + [(c, event)]
    requires Payloads(Flight(y, x, c)) == [payload] + Payloads(Flight(y, x', c))
    ensures Conserves(y, x', c)
  {
    DeliveredSnoc(x.events, c, event, c);
    Regroup(Delivered(x.events, c), payload, Payloads(Flight(y, x', c)));
    NotClosedSnoc(x.events, c, event);
  }

  lemma Regroup(got: seq<Bytes>, payload: Bytes, rest: seq<Bytes>)
    ensures got + ([payload] + rest) == (got + [payload]) + rest
  {}

  lemma NotClosedSnoc(events: seq<(Bytes32, StreamEvent)>, c: Bytes32, event: StreamEvent)
    requires event != PeerClosed
    ensures (c, PeerClosed) in events + [(c, event)] <==> (c, PeerClosed) in events
  {}

  lemma {:induction false} PopControl(x: Node, y: Node, x': Node, event: StreamEvent, c: Bytes32)
    requires x.cursor <= |y.log| && x'.cursor <= |y.log| && Conserves(y, x, c)
    requires c in x.core.sessions && !event.DataDelivered? && x'.events == x.events + [(c, event)]
    requires Payloads(Flight(y, x, c)) == Payloads(Flight(y, x', c)) && !Untouched(y.log, c)
    requires event.PeerClosed? ==>
               Payloads(Flight(y, x, c)) == [] && (c in y.core.sessions ==> y.core.sessions[c].localClosed)
    ensures Conserves(y, x', c)
  {
    DeliveredSnoc(x.events, c, event, c);
  }

  /** `x` takes the next frame of a running stream. */
  lemma {:induction false} ArrivalConserves(x: Node, y: Node, x': Node, reset: Entry, c: Bytes32)
    requires y.cursor <= |x.log| && x.cursor < |y.log| <= U64_MAX && Arrived(x, y, x', x.cursor, reset, c)
    requires Running(x, y, c, false) && Conserves(y, x, c)
    ensures Conserves(y, x', c)
  {
    var f, p, q := y.log[x.cursor].frame, Get(y.core.sessions, c), Get(x.core.sessions, c);
    FlightPop(y, x, x', c);
    var there := Flight(y, x, c);
    assert there[0] == f && Plain(there[0]);
    var reaction := SlotRecv(q, Full(x.core), x.core.cap, f.kind, f.hdr, f.payload).1;
    if q.Some? { AcceptedEvent(q.value, f, Full(x.core), x.core.cap); }
    if reaction.Deliver? && f.kind.Close? {
      StartedFlips(q, p, Flight(x, y, c), there, false);
      CloseIsLast(p, q.value, there, Flight(x, y, c));
    }
    PopConserves(x, y, x', f, if reaction.Deliver? then Some(reaction.event) else None, c);
  }

  /** The OPEN arrives: nothing was sent before it, and nothing but a CLOSE or RESET is behind it. */
  lemma {:induction false} OpenConserves(x: Node, y: Node, x': Node, reset: Entry, c: Bytes32)
    requires y.cursor <= |x.log| && x.cursor < |y.log| <= U64_MAX && Arrived(x, y, x', x.cursor, reset, c)
    requires Pending(y, x, c, false) && PairInv(x, y, c) && InOrder(x, y) && Conserves(y, x, c)
    ensures Conserves(y, x', c)
  {
    FlightPop(y, x, x', c);
    var there := Flight(y, x, c);
    assert there[0] == y.log[x.cursor].frame && there[1..] == Flight(y, x', c);
    NoDataBeforeAck(false, there[1..]);
    assert IsOpen(y.log[x.cursor], c) && x.cursor !in x.accepted;
    assert Clean(x, c);
    UntouchedGrants(x.log, y.accepted, c);
    DeliveredSnoc(x.events, c, StreamOpened, c);
  }

  /** The receiver as a sender: its session keeps its CLOSE, or is new on an untouched log. */
  lemma {:induction false} ReceiverStillSends(x: Node, y: Node, x': Node, reset: Entry, c: Bytes32)
    requires y.cursor <= |x.log| && x.cursor < |y.log| <= U64_MAX && Arrived(x, y, x', x.cursor, reset, c)
    requires reset.frame.kind.Reset? && Conserves(x, y, c)
    requires y.log[x.cursor].frame.kind.Open? ==> c !in x.core.sessions && Untouched(x.log, c)
    ensures y.cursor <= |x'.log| && Conserves(x', y, c)
  {
    if c in x.core.sessions { AcceptedEvent(x.core.sessions[c], y.log[x.cursor].frame, Full(x.core), x.core.cap); }
    SenderMoves(x, y, x', reset, c);
  }

  lemma {:induction false} ArrivedConserves(x: Node, y: Node, x': Node, reset: Entry, c: Bytes32)
    requires y.cursor <= |x.log| && x.cursor < |y.log| <= U64_MAX && Arrived(x, y, x', x.cursor, reset, c)
    requires reset.frame.kind.Reset? && StreamPhase(x, y, c, false) && PairInv(x, y, c) && InOrder(x, y)
    requires Conserves(x, y, c) && Conserves(y, x, c)
    ensures y.cursor <= |x'.log| && Conserves(x', y, c) && Conserves(y, x', c)
  {
    FlightPop(y, x, x', c);
    assert y.log[x.cursor].frame == Flight(y, x, c)[0];
    if Running(x, y, c, false) {
      ArrivalConserves(x, y, x', reset, c);
      assert Plain(Flight(y, x, c)[0]);
    } else {
      assert !Untouched(y.log, c);
      assert Pending(y, x, c, false);
      OpenConserves(x, y, x', reset, c);
    }
    ReceiverStillSends(x, y, x', reset, c);
  }

  /** `x` moved on another stream, past at most one frame of another stream. */
  lemma {:induction false} ElsewhereConserves(x: Node, y: Node, x': Node, e: Entry, c: Bytes32)
    requires y.cursor <= |x.log| && x.cursor <= |y.log| && Conserves(x, y, c) && Conserves(y, x, c)
    requires Get(x'.core.sessions, c) == Get(x.core.sessions, c) && Delivered(x'.events, c) == Delivered(x.events, c)
    requires (c, PeerClosed) in x'.events <==> (c, PeerClosed) in x.events
    requires x'.log == x.log || (x'.log == x.log + [e] && e.frame.cid != c)
    requires x'.cursor == x.cursor
             || (x.cursor < |y.log| && x'.cursor == x.cursor + 1 && y.log[x.cursor].frame.cid != c)
    ensures y.cursor <= |x'.log| && Conserves(x', y, c) && Conserves(y, x', c)
  {
    SenderMoves(x, y, x', e, c);
    if x'.cursor != x.cursor {
      FlightPop(y, x, x', c);
      assert [] + Flight(y, x', c) == Flight(y, x', c);
    }
  }

  lemma TakeInOther(x: Node, y: Node, t: Table, now: u64, c: Bytes32)
    requires x.cursor < |y.log| <= U64_MAX && y.log[x.cursor].frame.cid != c
    ensures var x' := TakeIn(x, t, y.log[x.cursor].frame, x.cursor, now, true);
            (c, PeerClosed) in x'.events <==> (c, PeerClosed) in x.events
  {}

  lemma {:induction false} TakeInElsewhereConserves(x: Node, y: Node, t: Table, now: u64, c: Bytes32)
    requires y.cursor <= |x.log| && x.cursor < |y.log| <= U64_MAX && y.log[x.cursor].frame.cid != c
    requires x.core.sendCounter == |x.log| < U64_MAX && Conserves(x, y, c) && Conserves(y, x, c)
    ensures var x' := TakeIn(x, t, y.log[x.cursor].frame, x.cursor, now, true);
            y.cursor <= |x'.log| && x'.cursor <= |y.log| && Conserves(x', y, c) && Conserves(y, x', c)
  {
    var f := y.log[x.cursor].frame;
    TakeInShape(x, t, f, x.cursor, now, true);
    TakeInElsewhere(x, y, t, x.cursor, now, true, c);
    TakeInOther(x, y, t, now, c);
    ElsewhereConserves(x, y, TakeIn(x, t, f, x.cursor, now, true), ResetEntry(f.cid, now, true), c);
  }

  // ---------------------------------------------------------------- whole runs

  lemma {:induction false} ReceiveConserves(x: Node, y: Node, ky: SenderKey, now: u64, victim: SenderKey, c: Bytes32)
    requires NodeOk(x, y, ky) && InOrder(x, y) && InOrder(y, x) && |y.log| <= U64_MAX
    requires |x.log| < U64_MAX && HonestStep(x, y, Receive(x.cursor, now, victim, true))
    requires PairInv(x, y, c) && StreamPhase(x, y, c, false) && Conserves(x, y, c) && Conserves(y, x, c)
    ensures var x' := Act(x, y, ky, Receive(x.cursor, now, victim, true));
            y.cursor <= |x'.log| && x'.cursor <= |y.log| && Conserves(x', y, c) && Conserves(y, x', c)
  {
    var f := y.log[x.cursor].frame;
    var t := ReceiveIsTakeIn(x, y, ky, now, victim);
    if f.cid == c {
      TakeInArrives(x, y, t, x.cursor, now, true, c);
      ArrivedConserves(x, y, TakeIn(x, t, f, x.cursor, now, true), ResetEntry(c, now, true), c);
    } else {
      TakeInElsewhereConserves(x, y, t, now, c);
    }
  }

  lemma {:induction false} ActConserves(x: Node, y: Node, kx: SenderKey, ky: SenderKey, action: Action, c: Bytes32)
    requires NodeOk(x, y, ky) && NodeOk(y, x, kx) && InOrder(x, y) && InOrder(y, x)
    requires |x.log| < U64_MAX && HonestStep(x, y, action)
    requires PairInv(x, y, c) && StreamPhase(x, y, c, false) && Conserves(x, y, c) && Conserves(y, x, c)
    ensures var x' := Act(x, y, ky, action);
            y.cursor <= |x'.log| && x'.cursor <= |y.log| && Conserves(x', y, c) && Conserves(y, x', c)
  {
    match action {
      case Call(cid, op, now, expiresAt, isSealed) =>
        if cid == c {
          CallConserves(x, y, op, now, expiresAt, c);
        } else {
          CallElsewhereConserves(x, y, cid, op, now, expiresAt, c);
        }
      case Receive(i, now, victim, isSealed) => ReceiveConserves(x, y, ky, now, victim, c);
      case Foreign(other, counter, timestamp, now, victim) =>
    }
  }

  lemma {:induction false} RunConserves(s: Sys, steps: seq<Step>, side: Side, c: Bytes32)
    requires Initial(s) && FifoRun(s, steps)
    ensures var t := Run(s, steps);
            var x, y := NodeAt(t, side), NodeAt(t, Other(side));
            y.cursor <= |x.log| && Conserves(x, y, c)
  {
    if steps != [] {
      var init, last := steps[..|steps| - 1], steps[|steps| - 1];
      FifoPrefix(s, steps);
      RunConserves(s, init, A, c);
      RunConserves(s, init, B, c);
      FifoReachableAt(s, init, last.side, c, false);
      var t := Run(s, init);
      ActConserves(NodeAt(t, last.side), NodeAt(t, Other(last.side)), KeyAt(t, last.side), KeyAt(t, Other(last.side)),
                   last.action, c);
    }
  }

  /**
   Conservation of payloads: while the receiver's session lives, what it delivered followed by the
   DATA in flight to it is exactly what was sent; with nothing in flight it has delivered everything.
   */
  lemma {:induction false} FifoDelivers(s: Sys, steps: seq<Step>, side: Side, c: Bytes32)
    requires Initial(s) && FifoRun(s, steps)
    ensures var t := Run(s, steps);
            var x, y := NodeAt(t, side), NodeAt(t, Other(side));
            && y.cursor <= |x.log|
            && (c in y.core.sessions ==>
                  && Delivered(y.events, c) + Payloads(Flight(x, y, c)) == DataOn(x.log, c)
                  && (y.cursor == |x.log| ==> Delivered(y.events, c) == DataOn(x.log, c)))
  {
    RunConserves(s, steps, side, c);
  }

  /** A CLOSE is a full stop: once it is delivered, everything ever sent on the stream has been delivered. */
  lemma {:induction false} FifoCloseMeansAll(s: Sys, steps: seq<Step>, side: Side, c: Bytes32)
    requires Initial(s) && FifoRun(s, steps)
    ensures var t := Run(s, steps);
            var x, y := NodeAt(t, side), NodeAt(t, Other(side));
            (c, PeerClosed) in y.events ==> Delivered(y.events, c) == DataOn(x.log, c)
  {
    RunConserves(s, steps, side, c);
  }
}
