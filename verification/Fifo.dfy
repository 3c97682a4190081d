/**
 Two honest endpoints over reliable first-in-first-out links: every frame is handed over once, in
 order and in time.  Then the guard admits everything, `accept` answers RESET exactly to an OPEN that
 finds the endpoint full and to a CLOSE that overtakes the handshake, and credit is conserved.
 */
module Fifo {
  import opened Types
  import opened ReplayGuard
  import opened Session
  import opened Endpoint
  import opened Network
  import opened Lossy
  import opened Channel

  /** The frames of stream `c` among some log entries. */
  function OnCid(entries: seq<Entry>, c: Bytes32): seq<Frame> {
    if entries == [] then []
    else (if entries[0].frame.cid == c then [entries[0].frame] else []) + OnCid(entries[1..], c)
  }

  /** The frames of stream `c` that `x` has logged and `y` has not been handed yet. */
  function Flight(x: Node, y: Node, c: Bytes32): seq<Frame>
    requires y.cursor <= |x.log|
  {
    OnCid(x.log[y.cursor..], c)
  }

  // ---------------------------------------------------------------- honest steps over reliable links

  ghost predicate HonestStep(x: Node, y: Node, action: Action) {
    match action
    case Call(cid, op, now, expiresAt, isSealed) =>
      && isSealed && |PayloadOf(op)| <= MAX_DECOMPRESSED_BYTES
      && (op.AppOpen? ==> Untouched(x.log, cid) && Untouched(y.log, cid))
      && (cid in x.core.sessions ==> GrantFits(x.core.sessions[cid], op))
    case Receive(i, now, victim, isSealed) =>
      isSealed && i == x.cursor < |y.log| && Timely(y.log[i].frame, now)
    case Foreign(_, _, _, _, _) => true
  }

  /** The step does not close a stream before its handshake is complete. */
  predicate PoliteStep(x: Node, action: Action) {
    action.Call? && action.cid in x.core.sessions ==> Polite(x.core.sessions[action.cid], action.op)
  }

  // ---------------------------------------------------------------- the guard admits everything

  /** Every logged frame was sealed and is small enough to be opened. */
  ghost predicate Sound(log: seq<Entry>) {
    forall i :: 0 <= i < |log| ==> log[i].isSealed && |log[i].frame.payload| <= MAX_DECOMPRESSED_BYTES
  }

  /** Exactly the frames before the cursor have been admitted. */
  ghost predicate InOrder(x: Node, y: Node) {
    && x.cursor <= |y.log|
    && (forall i: u64 :: i in x.accepted <==> i < x.cursor)
    && Sound(x.log)
  }

  lemma AdmitsNext(x: Node, y: Node, key: SenderKey, now: u64, victim: SenderKey)
    requires NodeOk(x, y, key) && InOrder(x, y) && InOrder(y, x) && |y.log| <= U64_MAX
    requires x.cursor < |y.log| && Timely(y.log[x.cursor].frame, now)
    ensures Screen(x.core.guard, key, y.log[x.cursor].frame, x.cursor, now, victim).1.Through?
  {
    AdmitsNew(x, y, key, y.log[x.cursor].frame, x.cursor, now, victim);
  }

  /** So over reliable links a delivery always reaches the sessions. */
  lemma {:induction false} ReceiveIsTakeIn(x: Node, y: Node, key: SenderKey, now: u64,
                                           victim: SenderKey) returns (t: Table)
    requires NodeOk(x, y, key) && InOrder(x, y) && InOrder(y, x) && |y.log| <= U64_MAX
    requires x.cursor < |y.log| && Timely(y.log[x.cursor].frame, now)
    ensures Act(x, y, key, Receive(x.cursor, now, victim, true))
            == TakeIn(x, t, y.log[x.cursor].frame, x.cursor, now, true)
  {
    AdmitsNext(x, y, key, now, victim);
    t := Screen(x.core.guard, key, y.log[x.cursor].frame, x.cursor, now, victim).0;
  }

  lemma GrownInOrder(x: Node, y: Node, x': Node, e: Entry)
    requires InOrder(x, y) && InOrder(y, x)
    requires e.isSealed && |e.frame.payload| <= MAX_DECOMPRESSED_BYTES
    requires x'.log == x.log || x'.log == x.log + [e]
    requires x'.cursor <= |y.log| && (forall i: u64 :: i in x'.accepted <==> i < x'.cursor)
    ensures InOrder(x', y) && InOrder(y, x')
  {}

  lemma CallKeepsOrder(x: Node, y: Node, cid: Bytes32, op: AppOp, now: u64, expiresAt: u64)
    requires x.core.sendCounter == |x.log| < U64_MAX && InOrder(x, y) && InOrder(y, x)
    requires |PayloadOf(op)| <= MAX_DECOMPRESSED_BYTES
    ensures var x' := DoCall(x, cid, op, now, expiresAt, true); InOrder(x', y) && InOrder(y, x')
  {
    var x' := DoCall(x, cid, op, now, expiresAt, true);
    CallShape(x, cid, op, now, expiresAt, true);
    if x'.log != x.log { GrownInOrder(x, y, x', x'.log[|x.log|]); }
  }

  lemma TakeInKeepsOrder(x: Node, y: Node, t: Table, f: Frame, now: u64)
    requires x.core.sendCounter == |x.log| < U64_MAX && InOrder(x, y) && InOrder(y, x)
    requires x.cursor < |y.log| <= U64_MAX
    ensures var x' := TakeIn(x, t, f, x.cursor, now, true); InOrder(x', y) && InOrder(y, x')
  {
    TakeInShape(x, t, f, x.cursor, now, true);
    GrownInOrder(x, y, TakeIn(x, t, f, x.cursor, now, true), ResetEntry(f.cid, now, true));
  }

  lemma {:induction false} HonestKeepsOrder(x: Node, y: Node, kx: SenderKey, ky: SenderKey, action: Action)
    requires NodeOk(x, y, ky) && NodeOk(y, x, kx) && InOrder(x, y) && InOrder(y, x)
    requires |x.log| < U64_MAX && HonestStep(x, y, action)
    ensures var x' := Act(x, y, ky, action); InOrder(x', y) && InOrder(y, x')
  {
    match action {
      case Call(cid, op, now, expiresAt, isSealed) =>
        CallKeepsOrder(x, y, cid, op, now, expiresAt);
      case Receive(i, now, victim, isSealed) =>
        var t := ReceiveIsTakeIn(x, y, ky, now, victim);
        TakeInKeepsOrder(x, y, t, y.log[i].frame, now);
      case Foreign(other, counter, timestamp, now, victim) =>
    }
  }

  // ---------------------------------------------------------------- flights

  lemma {:induction false} OnCidSnoc(entries: seq<Entry>, e: Entry, c: Bytes32)
    ensures OnCid(entries + [e], c) == OnCid(entries, c) + (if e.frame.cid == c then [e.frame] else [])
  {
    if entries == [] {
      assert entries + [e] == [e] && [e][1..] == [];
    } else {
      OnCidSnoc(entries[1..], e, c);
      assert (entries + [e])[1..] == entries[1..] + [e];
    }
  }

  lemma {:induction false} OnCidUntouched(entries: seq<Entry>, c: Bytes32)
    ensures Untouched(entries, c) <==> OnCid(entries, c) == []
  {
    if entries != [] {
      OnCidUntouched(entries[1..], c);
      assert Untouched(entries, c) <==> entries[0].frame.cid != c && Untouched(entries[1..], c) by {
        assert forall i :: 0 < i < |entries| ==> entries[i] == entries[1..][i - 1];
      }
    }
  }

  lemma FlightSnoc(x: Node, y: Node, x': Node, e: Entry, c: Bytes32)
    requires y.cursor <= |x.log| && x'.log == x.log + [e]
    ensures Flight(x', y, c) == Flight(x, y, c) + (if e.frame.cid == c then [e.frame] else [])
  {
    OnCidSnoc(x.log[y.cursor..], e, c);
    assert x'.log[y.cursor..] == x.log[y.cursor..] + [e];
  }

  lemma FlightPop(x: Node, y: Node, y': Node, c: Bytes32)
    requires y.cursor < |x.log| && y'.cursor == y.cursor + 1
    ensures Flight(x, y, c)
            == (if x.log[y.cursor].frame.cid == c then [x.log[y.cursor].frame] else []) + Flight(x, y', c)
  {
    assert x.log[y.cursor..][1..] == x.log[y'.cursor..];
  }

  // ---------------------------------------------------------------- the phases of one stream

  ghost predicate Unopened(x: Node, y: Node, c: Bytes32) {
    c !in x.core.sessions && c !in y.core.sessions && Untouched(x.log, c) && Untouched(y.log, c)
  }

  /** `x`'s OPEN has not reached `y`; behind it all is as if `y` had just become the responder. */
  ghost predicate Pending(x: Node, y: Node, c: Bytes32, polite: bool)
    requires y.cursor <= |x.log|
  {
    var there := Flight(x, y, c);
    && c !in y.core.sessions && Untouched(y.log, c)
    && there != [] && there[0].kind.Open?
    && Started(Get(x.core.sessions, c), Some(NewResponder(there[0].hdr.window)), there[1..], [], polite)
  }

  ghost predicate Running(x: Node, y: Node, c: Bytes32, polite: bool)
    requires y.cursor <= |x.log| && x.cursor <= |y.log|
  {
    && !(Untouched(x.log, c) && Untouched(y.log, c))
    && Started(Get(x.core.sessions, c), Get(y.core.sessions, c), Flight(x, y, c), Flight(y, x, c), polite)
  }

  ghost predicate StreamPhase(x: Node, y: Node, c: Bytes32, polite: bool)
    requires y.cursor <= |x.log| && x.cursor <= |y.log|
  {
    Unopened(x, y, c) || Pending(x, y, c, polite) || Pending(y, x, c, polite) || Running(x, y, c, polite)
  }

  lemma PhaseFlips(x: Node, y: Node, c: Bytes32, polite: bool)
    requires y.cursor <= |x.log| && x.cursor <= |y.log| && StreamPhase(x, y, c, polite)
    ensures StreamPhase(y, x, c, polite)
  {}

  lemma {:induction false} FlightTouches(x: Node, y: Node, c: Bytes32)
    requires y.cursor <= |x.log|
    ensures Untouched(x.log, c) ==> Flight(x, y, c) == []
  {
    OnCidUntouched(x.log[y.cursor..], c);
  }

  // ---------------------------------------------------------------- calls

  /** A step of `x` that leaves stream `c`'s session and flights as they were. */
  lemma PhaseUnaffected(x: Node, y: Node, x': Node, c: Bytes32, polite: bool)
    requires y.cursor <= |x.log| && x.cursor <= |y.log| && StreamPhase(x, y, c, polite)
    requires y.cursor <= |x'.log| && x'.cursor <= |y.log|
    requires Get(x'.core.sessions, c) == Get(x.core.sessions, c)
    requires Flight(x', y, c) == Flight(x, y, c) && Flight(y, x', c) == Flight(y, x, c)
    requires Untouched(x'.log, c) <==> Untouched(x.log, c)
    ensures StreamPhase(x', y, c, polite)
  {}

  lemma {:induction false} CallOffPhase(x: Node, y: Node, cid: Bytes32, op: AppOp, now: u64, expiresAt: u64,
                                        c: Bytes32, polite: bool)
    requires y.cursor <= |x.log| && x.cursor <= |y.log| && StreamPhase(x, y, c, polite)
    requires cid != c && x.core.sendCounter == |x.log| < U64_MAX
    ensures var x' := DoCall(x, cid, op, now, expiresAt, true);
            y.cursor <= |x'.log| && x'.cursor <= |y.log| && StreamPhase(x', y, c, polite)
  {
    var x' := DoCall(x, cid, op, now, expiresAt, true);
    CallShape(x, cid, op, now, expiresAt, true);
    GetPut(x.core.sessions, cid, SlotApp(Get(x.core.sessions, cid), Full(x.core), x.core.cap, op, true).0, c);
    if x'.log != x.log {
      FlightSnoc(x, y, x', x'.log[|x.log|], c);
      UntouchedSnoc(x.log, x'.log[|x.log|], c);
    }
    PhaseUnaffected(x, y, x', c, polite);
  }

  /** The node after a successful call on `c`, given the slot it leaves and the frame it logs. */
  ghost predicate Logged(x: Node, x': Node, c: Bytes32, slot: Slot, e: Entry) {
    && x'.core.sessions == Put(x.core.sessions, c, slot) && x'.log == x.log + [e]
    && e.frame.cid == c && x'.cursor == x.cursor
  }

  lemma OpenStarts(x: Node, y: Node, x': Node, w: u32, e: Entry, c: Bytes32, polite: bool)
    requires y.cursor <= |x.log| && x.cursor <= |y.log| && Unopened(x, y, c)
    requires Logged(x, x', c, Some(NewInitiator(w)), e) && e.frame.kind.Open? && e.frame.hdr.window == w
    ensures Pending(x', y, c, polite)
  {
    FlightTouches(x, y, c);
    FlightSnoc(x, y, x', e, c);
    GetPut(x.core.sessions, c, Some(NewInitiator(w)), c);
  }

  lemma LoggedRunning(x: Node, y: Node, x': Node, slot: Slot, e: Entry, c: Bytes32, polite: bool)
    requires y.cursor <= |x.log| && x.cursor <= |y.log| && Logged(x, x', c, slot, e)
    requires Started(slot, Get(y.core.sessions, c), Flight(x, y, c) + [e.frame], Flight(y, x, c), polite)
    ensures Running(x', y, c, polite)
  {
    FlightSnoc(x, y, x', e, c);
    UntouchedSnoc(x.log, e, c);
    GetPut(x.core.sessions, c, slot, c);
  }

  lemma CallLogs(x: Node, c: Bytes32, op: AppOp, now: u64, expiresAt: u64)
    ensures var x' := DoCall(x, c, op, now, expiresAt, true);
            var (slot, r) := SlotApp(Get(x.core.sessions, c), Full(x.core), x.core.cap, op, true);
            && (r.Err? ==> x'.core.sessions == x.core.sessions && x'.log == x.log && x'.cursor == x.cursor)
            && (r.Ok? ==>
                  && |x'.log| == |x.log| + 1 && Logged(x, x', c, slot, x'.log[|x.log|])
                  && Carries(x'.log[|x.log|].frame, r.value))
  {
    PutSame(x.core.sessions, c);
  }

  /** A successful call of `x` on `c` that the application is allowed to make. */
  ghost predicate GoodCall(x: Node, x': Node, op: AppOp, e: Entry, c: Bytes32, polite: bool) {
    && c in x.core.sessions && GrantFits(x.core.sessions[c], op) && (polite ==> Polite(x.core.sessions[c], op))
    && SessionAgrees(x, c) && |x.log| < U64_MAX
    && var (slot, r) := SlotApp(Get(x.core.sessions, c), Full(x.core), x.core.cap, op, true);
       r.Ok? && Logged(x, x', c, slot, e) && Carries(e.frame, r.value)
  }

  lemma CallOnRunning(x: Node, y: Node, x': Node, op: AppOp, e: Entry, c: Bytes32, polite: bool)
    requires y.cursor <= |x.log| && x.cursor <= |y.log| && Running(x, y, c, polite)
    requires GoodCall(x, x', op, e, c, polite)
    ensures Running(x', y, c, polite)
  {
    var p, full := Get(x.core.sessions, c), Full(x.core);
    DataOnBound(x.log, c);
    StartedSends(p, Get(y.core.sessions, c), Flight(x, y, c), Flight(y, x, c), polite, full, x.core.cap, op, e.frame);
    LoggedRunning(x, y, x', SlotApp(p, full, x.core.cap, op, true).0, e, c, polite);
  }

  /** Before the OPEN has arrived the initiator may already close or reset. */
  lemma CallOnPending(x: Node, y: Node, x': Node, op: AppOp, e: Entry, c: Bytes32, polite: bool)
    requires y.cursor <= |x.log| && x.cursor <= |y.log| && Pending(x, y, c, polite)
    requires GoodCall(x, x', op, e, c, polite)
    ensures Pending(x', y, c, polite)
  {
    var p, there := Get(x.core.sessions, c), Flight(x, y, c);
    var responder := Some(NewResponder(there[0].hdr.window));
    DataOnBound(x.log, c);
    StartedSends(p, responder, there[1..], [], polite, Full(x.core), x.core.cap, op, e.frame);
    FlightSnoc(x, y, x', e, c);
    assert Flight(x', y, c)[1..] == there[1..] + [e.frame];
    GetPut(x.core.sessions, c, SlotApp(p, Full(x.core), x.core.cap, op, true).0, c);
  }

  lemma CallOnPhase(x: Node, y: Node, op: AppOp, now: u64, expiresAt: u64, c: Bytes32, polite: bool)
    requires y.cursor <= |x.log| && x.cursor <= |y.log| && StreamPhase(x, y, c, polite)
    requires |x.log| < U64_MAX && HonestStep(x, y, Call(c, op, now, expiresAt, true)) && SessionAgrees(x, c)
    requires polite ==> PoliteStep(x, Call(c, op, now, expiresAt, true))
    ensures var x' := DoCall(x, c, op, now, expiresAt, true);
            y.cursor <= |x'.log| && x'.cursor <= |y.log| && StreamPhase(x', y, c, polite)
  {
    var x' := DoCall(x, c, op, now, expiresAt, true);
    CallLogs(x, c, op, now, expiresAt);
    if SlotApp(Get(x.core.sessions, c), Full(x.core), x.core.cap, op, true).1.Err? {
      PhaseUnaffected(x, y, x', c, polite);
    } else {
      var e := x'.log[|x.log|];
      if c !in x.core.sessions {
        FlightTouches(x, y, c);
        FlightTouches(y, x, c);
        OpenStarts(x, y, x', op.recvWindow, e, c, polite);
      } else if Running(x, y, c, polite) {
        CallOnRunning(x, y, x', op, e, c, polite);
      } else {
        CallOnPending(x, y, x', op, e, c, polite);
      }
    }
  }

  // ---------------------------------------------------------------- deliveries

  /** How the endpoint reacts to a frame that passed the guard. */
  function ReactionTo(x: Node, f: Frame): Reaction {
    Dispatch(x.core, f.cid, f.kind, f.hdr, f.payload).1
  }

  lemma TakeInOffPhase(x: Node, y: Node, t: Table, now: u64, c: Bytes32, polite: bool)
    requires y.cursor <= |x.log| && x.cursor < |y.log| <= U64_MAX && StreamPhase(x, y, c, polite)
    requires y.log[x.cursor].frame.cid != c && x.core.sendCounter == |x.log| < U64_MAX
    ensures var x' := TakeIn(x, t, y.log[x.cursor].frame, x.cursor, now, true);
            y.cursor <= |x'.log| && x'.cursor <= |y.log| && StreamPhase(x', y, c, polite)
  {
    var f := y.log[x.cursor].frame;
    var x' := TakeIn(x, t, f, x.cursor, now, true);
    TakeInShape(x, t, f, x.cursor, now, true);
    var slot := SlotRecv(Get(x.core.sessions, f.cid), Full(x.core), x.core.cap, f.kind, f.hdr, f.payload).0;
    GetPut(x.core.sessions, f.cid, slot, c);
    FlightPop(y, x, x', c);
    if x'.log != x.log {
      FlightSnoc(x, y, x', ResetEntry(f.cid, now, true), c);
      UntouchedSnoc(x.log, ResetEntry(f.cid, now, true), c);
    }
    PhaseUnaffected(x, y, x', c, polite);
  }

  lemma OpenArrives(x: Node, y: Node, x': Node, now: u64, c: Bytes32, polite: bool)
    requires y.cursor <= |x.log| && x.cursor < |y.log| && Pending(y, x, c, polite) && y.log[x.cursor].frame.cid == c
    requires x'.cursor == x.cursor + 1
    requires if Full(x.core) then x'.core.sessions == x.core.sessions && x'.log == x.log + [ResetEntry(c, now, true)]
             else && x'.log == x.log
                  && x'.core.sessions == Put(x.core.sessions, c, Some(NewResponder(y.log[x.cursor].frame.hdr.window)))
    ensures Running(x', y, c, polite)
  {
    var f := y.log[x.cursor].frame;
    var initiator, responder := Get(y.core.sessions, c), NewResponder(f.hdr.window);
    FlightPop(y, x, x', c);
    var rest := Flight(y, x', c);
    assert Flight(y, x, c) == [f] + rest && Flight(y, x, c)[1..] == rest;
    StartedFlips(initiator, Some(responder), rest, [], polite);
    FlightTouches(x, y, c);
    assert !Untouched(y.log, c);
    if Full(x.core) {
      var reset := ResetEntry(c, now, true);
      FlightSnoc(x, y, x', reset, c);
      SendsReset(responder, initiator, [], rest, polite, reset.frame);
      assert [] + [reset.frame] == [reset.frame];
    } else {
      GetPut(x.core.sessions, c, Some(responder), c);
    }
  }

  lemma RunningTakes(x: Node, y: Node, t: Table, now: u64, c: Bytes32, polite: bool)
    requires y.cursor <= |x.log| && x.cursor < |y.log| <= U64_MAX && Running(x, y, c, polite)
    requires y.log[x.cursor].frame.cid == c && x.core.sendCounter == |x.log| < U64_MAX
    ensures var f := y.log[x.cursor].frame;
            var x' := TakeIn(x, t, f, x.cursor, now, true);
            && !f.kind.Open? && (ReactionTo(x, f).Abort? <==> TooEarly(Get(x.core.sessions, c), f))
            && y.cursor <= |x'.log| && Running(x', y, c, polite)
  {
    var f := y.log[x.cursor].frame;
    var x' := TakeIn(x, t, f, x.cursor, now, true);
    var p, q := Get(y.core.sessions, c), Get(x.core.sessions, c);
    var there, back := Flight(y, x, c), Flight(x, y, c);
    StartedFlips(q, p, back, there, polite);
    FlightPop(y, x, x', c);
    assert there[0] == f && there[1..] == Flight(y, x', c);
    var reset := ResetEntry(c, now, true);
    StartedTakes(p, q, there, back, polite, Full(x.core), x.core.cap, reset.frame);
    var (q', reaction) := SlotRecv(q, Full(x.core), x.core.cap, f.kind, f.hdr, f.payload);
    GetPut(x.core.sessions, c, q', c);
    if reaction.Abort? { FlightSnoc(x, y, x', reset, c); }
    StartedFlips(p, q', there[1..], Flight(x', y, c), polite);
  }

  /**
   A frame of the stream arrives: the phase advances, and RESET answers exactly an OPEN at a full
   endpoint and a CLOSE at a session whose handshake is not complete.
   */
  lemma TakeInOnPhase(x: Node, y: Node, t: Table, now: u64, c: Bytes32, polite: bool)
    requires y.cursor <= |x.log| && x.cursor < |y.log| <= U64_MAX && StreamPhase(x, y, c, polite)
    requires y.log[x.cursor].frame.cid == c && x.core.sendCounter == |x.log| < U64_MAX
    ensures var f := y.log[x.cursor].frame;
            var x' := TakeIn(x, t, f, x.cursor, now, true);
            && (ReactionTo(x, f).Abort? <==>
                  (f.kind.Open? && Full(x.core)) || TooEarly(Get(x.core.sessions, c), f))
            && (polite ==> !TooEarly(Get(x.core.sessions, c), f))
            && y.cursor <= |x'.log| && x'.cursor <= |y.log| && StreamPhase(x', y, c, polite)
  {
    var f := y.log[x.cursor].frame;
    var x' := TakeIn(x, t, f, x.cursor, now, true);
    FlightPop(y, x, x', c);
    assert f == Flight(y, x, c)[0];
    if Running(x, y, c, polite) {
      RunningTakes(x, y, t, now, c, polite);
    } else {
      assert !Untouched(y.log, c);
      assert Pending(y, x, c, polite);
      PutSame(x.core.sessions, c);
      OpenArrives(x, y, x', now, c, polite);
    }
  }

  lemma CallKeepsPhase(x: Node, y: Node, cid: Bytes32, op: AppOp, now: u64, expiresAt: u64, c: Bytes32, polite: bool)
    requires y.cursor <= |x.log| && x.cursor <= |y.log| && StreamPhase(x, y, c, polite)
    requires x.core.sendCounter == |x.log| < U64_MAX && SessionAgrees(x, c)
    requires HonestStep(x, y, Call(cid, op, now, expiresAt, true))
    requires polite ==> PoliteStep(x, Call(cid, op, now, expiresAt, true))
    ensures var x' := DoCall(x, cid, op, now, expiresAt, true);
            y.cursor <= |x'.log| && x'.cursor <= |y.log| && StreamPhase(x', y, c, polite)
  {
    if cid == c {
      CallOnPhase(x, y, op, now, expiresAt, c, polite);
    } else {
      CallOffPhase(x, y, cid, op, now, expiresAt, c, polite);
    }
  }

  lemma TakeInKeepsPhase(x: Node, y: Node, t: Table, now: u64, c: Bytes32, polite: bool)
    requires y.cursor <= |x.log| && x.cursor < |y.log| <= U64_MAX && StreamPhase(x, y, c, polite)
    requires x.core.sendCounter == |x.log| < U64_MAX
    ensures var x' := TakeIn(x, t, y.log[x.cursor].frame, x.cursor, now, true);
            y.cursor <= |x'.log| && x'.cursor <= |y.log| && StreamPhase(x', y, c, polite)
  {
    if y.log[x.cursor].frame.cid == c {
      TakeInOnPhase(x, y, t, now, c, polite);
    } else {
      TakeInOffPhase(x, y, t, now, c, polite);
    }
  }

  /** Every honest step keeps every stream in a proper phase. */
  lemma HonestKeepsPhase(x: Node, y: Node, kx: SenderKey, ky: SenderKey, action: Action, c: Bytes32, polite: bool)
    requires NodeOk(x, y, ky) && NodeOk(y, x, kx) && InOrder(x, y) && InOrder(y, x)
    requires |x.log| < U64_MAX && HonestStep(x, y, action)
    requires StreamPhase(x, y, c, polite) && SessionAgrees(x, c) && (polite ==> PoliteStep(x, action))
    ensures var x' := Act(x, y, ky, action);
            y.cursor <= |x'.log| && x'.cursor <= |y.log| && StreamPhase(x', y, c, polite)
  {
    match action {
      case Call(cid, op, now, expiresAt, isSealed) =>
        CallKeepsPhase(x, y, cid, op, now, expiresAt, c, polite);
      case Receive(i, now, victim, isSealed) =>
        var t := ReceiveIsTakeIn(x, y, ky, now, victim);
        TakeInKeepsPhase(x, y, t, now, c, polite);
      case Foreign(other, counter, timestamp, now, victim) =>
        PhaseUnaffected(x, y, Act(x, y, ky, action), c, polite);
    }
  }

  // ---------------------------------------------------------------- runs

  /** The endpoint on a side of the system. */
  function NodeAt(s: Sys, side: Side): Node {
    if side.A? then s.a else s.b
  }

  function KeyAt(s: Sys, side: Side): SenderKey {
    if side.A? then s.keyA else s.keyB
  }

  ghost predicate HonestAt(s: Sys, step: Step) {
    Legal(s, step) && HonestStep(NodeAt(s, step.side), NodeAt(s, Other(step.side)), step.action)
  }

  predicate PoliteAt(s: Sys, step: Step) {
    PoliteStep(NodeAt(s, step.side), step.action)
  }

  /** A run of two honest endpoints over reliable in-order links. */
  ghost predicate FifoRun(s: Sys, steps: seq<Step>) {
    forall n :: 0 <= n < |steps| ==> HonestAt(Run(s, steps[..n]), steps[n])
  }

  /** No step of the run closes a stream before its handshake is complete. */
  ghost predicate PoliteRun(s: Sys, steps: seq<Step>) {
    forall n :: 0 <= n < |steps| ==> PoliteAt(Run(s, steps[..n]), steps[n])
  }

  ghost predicate FifoInv(s: Sys, c: Bytes32, polite: bool) {
    && NodesOk(s) && PairInv(s.a, s.b, c)
    && InOrder(s.a, s.b) && InOrder(s.b, s.a)
    && StreamPhase(s.a, s.b, c, polite)
  }

  lemma {:induction false} HonestNext(s: Sys, step: Step, c: Bytes32, polite: bool)
    requires FifoInv(s, c, polite) && HonestAt(s, step) && (polite ==> PoliteAt(s, step))
    ensures FifoInv(Next(s, step), c, polite)
  {
    NextKeepsNodes(s, step);
    PhaseFlips(s.a, s.b, c, polite);
    match step.side {
      case A =>
        ActKeepsPair(s.a, s.b, s.keyA, s.keyB, step.action, c);
        HonestKeepsOrder(s.a, s.b, s.keyA, s.keyB, step.action);
        HonestKeepsPhase(s.a, s.b, s.keyA, s.keyB, step.action, c, polite);
      case B =>
        ActKeepsPair(s.b, s.a, s.keyB, s.keyA, step.action, c);
        HonestKeepsOrder(s.b, s.a, s.keyB, s.keyA, step.action);
        HonestKeepsPhase(s.b, s.a, s.keyB, s.keyA, step.action, c, polite);
        PhaseFlips(Next(s, step).b, s.a, c, polite);
    }
  }

  lemma {:induction false} FifoPrefix(s: Sys, steps: seq<Step>)
    requires FifoRun(s, steps) && steps != []
    ensures FifoRun(s, steps[..|steps| - 1]) && HonestAt(Run(s, steps[..|steps| - 1]), steps[|steps| - 1])
  {
    var init := steps[..|steps| - 1];
    forall n | 0 <= n < |init| ensures HonestAt(Run(s, init[..n]), init[n]) {
      assert init[..n] == steps[..n] && HonestAt(Run(s, steps[..n]), steps[n]);
    }
  }

  lemma {:induction false} FifoSnoc(s: Sys, steps: seq<Step>, step: Step)
    requires FifoRun(s, steps) && HonestAt(Run(s, steps), step)
    ensures FifoRun(s, steps + [step])
  {
    var all := steps + [step];
    forall n | 0 <= n < |all| ensures HonestAt(Run(s, all[..n]), all[n]) {
      assert all[..n] == steps[..n];
      if n == |steps| { assert steps[..n] == steps; }
    }
  }

  lemma {:induction false} PolitePrefix(s: Sys, steps: seq<Step>)
    requires PoliteRun(s, steps) && steps != []
    ensures PoliteRun(s, steps[..|steps| - 1]) && PoliteAt(Run(s, steps[..|steps| - 1]), steps[|steps| - 1])
  {
    var init := steps[..|steps| - 1];
    forall n | 0 <= n < |init| ensures PoliteAt(Run(s, init[..n]), init[n]) {
      assert init[..n] == steps[..n] && PoliteAt(Run(s, steps[..n]), steps[n]);
    }
  }

  lemma {:induction false} FifoReachable(s: Sys, steps: seq<Step>, c: Bytes32, polite: bool)
    requires Initial(s) && FifoRun(s, steps) && (polite ==> PoliteRun(s, steps))
    ensures FifoInv(Run(s, steps), c, polite)
  {
    if steps == [] {
      InitOk(s, c);
    } else {
      FifoPrefix(s, steps);
      if polite { PolitePrefix(s, steps); }
      FifoReachable(s, steps[..|steps| - 1], c, polite);
      HonestNext(Run(s, steps[..|steps| - 1]), steps[|steps| - 1], c, polite);
    }
  }

  lemma {:induction false} FifoReachableAt(s: Sys, steps: seq<Step>, side: Side, c: Bytes32, polite: bool)
    requires Initial(s) && FifoRun(s, steps) && (polite ==> PoliteRun(s, steps))
    ensures var t := Run(s, steps);
            var x, y := NodeAt(t, side), NodeAt(t, Other(side));
            && NodeOk(x, y, KeyAt(t, Other(side))) && NodeOk(y, x, KeyAt(t, side)) && PairInv(x, y, c)
            && InOrder(x, y) && InOrder(y, x) && StreamPhase(x, y, c, polite)
  {
    FifoReachable(s, steps, c, polite);
    PhaseFlips(Run(s, steps).a, Run(s, steps).b, c, polite);
  }

  /** The frame that reaches `x` next is timely, and `x` still has a counter for an answer. */
  ghost predicate Arrives(x: Node, y: Node, now: u64) {
    x.cursor < |y.log| && |x.log| < U64_MAX && Timely(y.log[x.cursor].frame, now)
  }

  /**
   In every reachable state the next timely frame is admitted by the guard, and `accept` answers it
   with a RESET if and only if it is an OPEN that finds the endpoint at its cap, or a CLOSE that
   finds its session still opening.
   */
  lemma {:induction false} FifoResetExactly(s: Sys, steps: seq<Step>, side: Side, now: u64, victim: SenderKey)
    requires Initial(s) && FifoRun(s, steps)
    ensures var t := Run(s, steps);
            var x, y := NodeAt(t, side), NodeAt(t, Other(side));
            && x.cursor <= |y.log| <= U64_MAX && x.core.sendCounter == |x.log|
            && (Arrives(x, y, now) ==>
                  var f := y.log[x.cursor].frame;
                  && Screen(x.core.guard, KeyAt(t, Other(side)), f, x.cursor, now, victim).1.Through?
                  && (ReactionTo(x, f).Abort? <==>
                        || (f.kind.Open? && |x.core.sessions| >= x.core.cap)
                        || (f.kind.Close? && f.cid in x.core.sessions && x.core.sessions[f.cid].handshake.Opening?)))
  {
    var t := Run(s, steps);
    var x, y := NodeAt(t, side), NodeAt(t, Other(side));
    var zero: Bytes32 := seq(32, _ => 0);
    FifoReachableAt(s, steps, side, zero, false);
    if Arrives(x, y, now) {
      var c := y.log[x.cursor].frame.cid;
      FifoReachableAt(s, steps, side, c, false);
      AdmitsNext(x, y, KeyAt(t, Other(side)), now, victim);
      TakeInOnPhase(x, y, x.core.guard, now, c, false);
    }
  }

  /** When streams are closed only once established, RESET answers exactly an OPEN at the cap. */
  lemma {:induction false} FifoNoReset(s: Sys, steps: seq<Step>, side: Side, now: u64)
    requires Initial(s) && FifoRun(s, steps) && PoliteRun(s, steps)
    ensures var t := Run(s, steps);
            var x, y := NodeAt(t, side), NodeAt(t, Other(side));
            Arrives(x, y, now) ==>
              (ReactionTo(x, y.log[x.cursor].frame).Abort?
               <==> y.log[x.cursor].frame.kind.Open? && |x.core.sessions| >= x.core.cap)
  {
    var t := Run(s, steps);
    var x, y := NodeAt(t, side), NodeAt(t, Other(side));
    if Arrives(x, y, now) {
      var c := y.log[x.cursor].frame.cid;
      FifoReachableAt(s, steps, side, c, true);
      TakeInOnPhase(x, y, x.core.guard, now, c, true);
    }
  }

  /**
   While both sessions of a stream live and are established: receiver window = sender credit + DATA
   in flight + credit in flight back, and receiver position + DATA in flight = sender position.
   */
  lemma {:induction false} FifoCreditConserved(s: Sys, steps: seq<Step>, side: Side, c: Bytes32)
    requires Initial(s) && FifoRun(s, steps)
    ensures var t := Run(s, steps);
            var x, y := NodeAt(t, side), NodeAt(t, Other(side));
            && x.cursor <= |y.log| && y.cursor <= |x.log|
            && (c in x.core.sessions && c in y.core.sessions
                && x.core.sessions[c].handshake.Established? && y.core.sessions[c].handshake.Established? ==>
                  var sender, receiver := x.core.sessions[c], y.core.sessions[c];
                  && receiver.recvWindow == sender.sendCredit + |Payloads(Flight(x, y, c))| + Grants(Flight(y, x, c))
                  && receiver.recvSeq + |Payloads(Flight(x, y, c))| == sender.sendSeq)
  {
    FifoReachableAt(s, steps, side, c, false);
    var t := Run(s, steps);
    var x, y := NodeAt(t, side), NodeAt(t, Other(side));
    if c in x.core.sessions && c in y.core.sessions
       && x.core.sessions[c].handshake.Established? && y.core.sessions[c].handshake.Established? {
      CreditConserved(x.core.sessions[c], y.core.sessions[c], Flight(x, y, c), Flight(y, x, c));
    }
  }
}
