/**
 Concrete runs that mark the edge of the network theorems: an early CLOSE over reliable links, and a
 clean-looking CLOSE over a network that lost the DATA before it.
 */
module Witnesses {
  import opened Types
  import opened Envelope
  import opened ReplayWindow
  import opened ReplayGuard
  import opened Session
  import opened Endpoint
  import opened Network
  import opened Lossy
  import opened Fifo

  // ---------------------------------------------------------------- steps of a single stream

  /** A call on the only stream of a node. */
  lemma OnlyStreamCalls(x: Node, c: Bytes32, s: Session, op: AppOp, now: u64)
    requires x.core.sessions == map[c := s] && Build(s, op).1.Ok? && !IsClosed(Build(s, op).0)
    ensures var (s', r) := Build(s, op);
            var e := Entry(Frame(c, KindOfHeader(r.value), r.value, PayloadOf(op), now, 0), true, false);
            var x' := DoCall(x, c, op, now, 0, true);
            x' == x.(core := x'.core, log := x.log + [e]) && x'.core.sessions == map[c := s']
  {}

  lemma OnlyStreamDispatch(e: Core, c: Bytes32, s: Session, f: Frame)
    requires e.sessions == map[c := s] && f.cid == c && !f.kind.Open? && !f.kind.Reset?
    requires var (s', r) := OnRecv(s, f.kind, f.hdr); r.Ok? && !IsClosed(s')
    ensures var (s', r) := OnRecv(s, f.kind, f.hdr);
            var (e', reaction) := Dispatch(e, c, f.kind, f.hdr, f.payload);
            e'.sessions == map[c := s'] && reaction == Deliver(ToEvent(r.value, f.payload))
  {}

  /** A timely new frame on the only stream of a node. */
  lemma {:induction false} OnlyStreamTakes(x: Node, y: Node, key: SenderKey, c: Bytes32, s: Session, i: u64, now: u64)
    requires NodeOk(x, y, key) && Acceptable(x.accepted, i)
    requires i < |y.log| && y.log[i].isSealed && Timely(y.log[i].frame, now)
    requires y.log[i].frame.cid == c && y.log[i].frame.payload == []
    requires x.core.sessions == map[c := s] && !y.log[i].frame.kind.Open? && !y.log[i].frame.kind.Reset?
    requires var (s', r) := OnRecv(s, y.log[i].frame.kind, y.log[i].frame.hdr); r.Ok? && !IsClosed(s')
    ensures var (s', r) := OnRecv(s, y.log[i].frame.kind, y.log[i].frame.hdr);
            var x' := Act(x, y, key, Receive(i, now, key, true));
            && x'.accepted == x.accepted + {i} && x'.log == x.log
            && x'.events == x.events + [(c, ToEvent(r.value, []))]
            && x'.core.sessions == map[c := s']
  {
    var f := y.log[i].frame;
    AdmitsNew(x, y, key, f, i, now, key);
    var t := Screen(x.core.guard, key, f, i, now, key).0;
    assert Act(x, y, key, Receive(i, now, key, true)) == TakeIn(x, t, f, i, now, true);
    TakeInByReaction(x, t, f, i, now, true);
    OnlyStreamDispatch(x.core.(guard := t), c, s, f);
  }

  lemma RunTwo(s: Sys, p: Step, q: Step)
    ensures Run(s, [p, q]) == Next(Next(s, p), q)
  {
    RunSnoc(s, [p], q);
    RunSnoc(s, [], p);
    assert [p] + [q] == [p, q] && [] + [p] == [p];
  }

  lemma {:induction false} LogsAtMost(s: Sys, steps: seq<Step>)
    requires Initial(s)
    ensures |Run(s, steps).a.log| <= |steps| && |Run(s, steps).b.log| <= |steps|
  {
    if steps != [] {
      LogsAtMost(s, steps[..|steps| - 1]);
      var t, last := Run(s, steps[..|steps| - 1]), steps[|steps| - 1];
      ActAddsOne(t.a, t.b, t.keyB, last.action);
      ActAddsOne(t.b, t.a, t.keyA, last.action);
    }
  }

  lemma ActAddsOne(x: Node, y: Node, key: SenderKey, action: Action)
    ensures |Act(x, y, key, action).log| <= |x.log| + 1
  {}

  /** A short run of calls and deliveries that opens a stream in its first step only is legal. */
  lemma {:induction false} ShortRunLegal(s: Sys, steps: seq<Step>, c: Bytes32)
    requires Initial(s) && |steps| <= U64_MAX
    requires forall n :: 0 <= n < |steps| ==> !steps[n].action.Foreign?
    requires forall n :: 0 < n < |steps| ==> !(steps[n].action.Call? && steps[n].action.op.AppOpen?)
    ensures LegalRun(s, steps) && UsedOnce(s, steps, c)
  {
    forall n | 0 <= n < |steps|
      ensures Legal(Run(s, steps[..n]), steps[n]) && UsesOnce(Run(s, steps[..n]), steps[n], c)
    {
      LogsAtMost(s, steps[..n]);
    }
  }

  function OpenSteps(c: Bytes32, w: u32, now: u64, keyA: SenderKey): seq<Step> {
    [Step(A, Call(c, AppOpen(w), now, 0, true)), Step(B, Receive(0, now, keyA, true))]
  }

  lemma {:induction false} FirstFrameOpens(s: Sys, c: Bytes32, w: u32, now: u64)
    requires Initial(s) && s.a.core.cap >= 1 && s.b.core.cap >= 1
    ensures var t := Run(s, OpenSteps(c, w, now, s.keyA));
            && t.a.core.sessions == map[c := NewInitiator(w)] && t.b.core.sessions == map[c := NewResponder(w)]
            && |t.a.log| == 1 && t.b.log == [] && t.a.accepted == {} && t.a.events == []
            && t.b.cursor == 1 && t.keyA == s.keyA && t.keyB == s.keyB && NodesOk(t)
    ensures FifoRun(s, OpenSteps(c, w, now, s.keyA))
  {
    var open, get := Step(A, Call(c, AppOpen(w), now, 0, true)), Step(B, Receive(0, now, s.keyA, true));
    RunTwo(s, open, get);
    InitOk(s, c);
    NextKeepsNodes(s, open);
    var s1 := Next(s, open);
    assert s1.a.core.sessions == map[c := NewInitiator(w)] && |s1.a.log| == 1 && IsOpen(s1.a.log[0], c);
    NextKeepsNodes(s1, get);
    AdmitsNew(s1.b, s1.a, s.keyA, s1.a.log[0].frame, 0, now, s.keyA);
    OpenIsFifo(s, open, s1, get);
  }

  lemma OpenIsFifo(s: Sys, open: Step, s1: Sys, get: Step)
    requires s1 == Next(s, open) && HonestAt(s, open) && HonestAt(s1, get)
    ensures FifoRun(s, [open, get])
  {
    FifoSnoc(s, [], open);
    RunSnoc(s, [], open);
    assert [] + [open] == [open];
    FifoSnoc(s, [open], get);
    assert [open] + [get] == [open, get];
  }

  // ---------------------------------------------------------------- an early CLOSE, refused and accepted

  function EarlyClose(c: Bytes32, w: u32, now: u64, keyA: SenderKey): seq<Step> {
    OpenSteps(c, w, now, keyA) + [Step(A, Call(c, AppClose, now, 0, true))]
  }

  lemma EarlyCloseArrives(s: Sys, c: Bytes32, w: u32, v: u32, now: u64)
    requires s.a.core.sessions == map[c := NewInitiator(w)] && |s.a.log| == 1
    requires s.b.core.sessions == map[c := NewResponder(w)]
    ensures var t := Next(s, Step(A, Call(c, AppClose, now, 0, true)));
            var acked := Next(t, Step(B, Call(c, AppOpenAck(v), now, 0, true)));
            && t.b == s.b && |t.a.log| == 2 && t.a.log[1].frame.kind.Close? && Timely(t.a.log[1].frame, now)
            && ReactionTo(s.b, t.a.log[1].frame).Abort?
            && ReactionTo(acked.b, t.a.log[1].frame) == Deliver(PeerClosed)
  {
    OnlyStreamCalls(s.a, c, NewInitiator(w), AppClose, now);
    OnlyStreamCalls(s.b, c, NewResponder(w), AppOpenAck(v), now);
  }

  /**
   `build_close` does not check the handshake, so an initiator may close while opening.  Over reliable
   links its CLOSE is refused if it finds the responder opening, and accepted if the responder
   answered in the meantime.
   */
  lemma {:induction false} EarlyCloseRaces(s: Sys, c: Bytes32, w: u32, v: u32, now: u64)
    requires Initial(s) && s.a.core.cap >= 1 && s.b.core.cap >= 1
    ensures var t := Run(s, EarlyClose(c, w, now, s.keyA));
            var acked := Next(t, Step(B, Call(c, AppOpenAck(v), now, 0, true)));
            && t.b.cursor == 1 && |t.a.log| == 2
            && Timely(t.a.log[1].frame, now) && t.a.log[1].frame.kind.Close?
            && ReactionTo(t.b, t.a.log[1].frame).Abort?
            && ReactionTo(acked.b, t.a.log[1].frame) == Deliver(PeerClosed)
    ensures FifoRun(s, EarlyClose(c, w, now, s.keyA))
  {
    FirstFrameOpens(s, c, w, now);
    FifoSnoc(s, OpenSteps(c, w, now, s.keyA), Step(A, Call(c, AppClose, now, 0, true)));
    RunSnoc(s, OpenSteps(c, w, now, s.keyA), Step(A, Call(c, AppClose, now, 0, true)));
    EarlyCloseArrives(Run(s, OpenSteps(c, w, now, s.keyA)), c, w, v, now);
  }

  // ---------------------------------------------------------------- a lost tail

  function AckSteps(c: Bytes32, now: u64, keyB: SenderKey): seq<Step> {
    [Step(B, Call(c, AppOpenAck(0), now, 0, true)), Step(A, Receive(0, now, keyB, true))]
  }

  function SendAndClose(c: Bytes32, payload: Bytes, now: u64): seq<Step> {
    [Step(B, Call(c, AppData(payload), now, 0, true)), Step(B, Call(c, AppClose, now, 0, true))]
  }

  function CloseEntry(c: Bytes32, now: u64): Entry {
    Entry(Frame(c, FrameKind.Close, MakeHeader(FrameKind.Close, 0, 0), [], now, 0), true, false)
  }

  /** `a` opens with one credit, `b` answers, sends one DATA frame and closes; only the CLOSE gets through. */
  function LostTail(c: Bytes32, payload: Bytes, now: u64, keyA: SenderKey, keyB: SenderKey): seq<Step> {
    OpenSteps(c, 1, now, keyA) + AckSteps(c, now, keyB) + SendAndClose(c, payload, now)
    + [Step(A, Receive(2, now, keyB, true))]
  }

  /** `a` as an initiator whose stream is open, and which has taken frame 0 only. */
  ghost predicate InitiatorOpen(s: Sys, c: Bytes32) {
    && s.a.core.sessions == map[c := NewInitiator(1).(handshake := Established)]
    && s.a.accepted == {0} && Delivered(s.a.events, c) == [] && |s.a.log| < U64_MAX && NodesOk(s)
  }

  lemma {:induction false} TailAcked(s: Sys, c: Bytes32, now: u64)
    requires s.a.core.sessions == map[c := NewInitiator(1)] && s.b.core.sessions == map[c := NewResponder(1)]
    requires |s.a.log| == 1 && s.b.log == [] && s.a.accepted == {} && s.a.events == [] && NodesOk(s)
    ensures var ack, get := AckSteps(c, now, s.keyB)[0], AckSteps(c, now, s.keyB)[1];
            var t := Next(Next(s, ack), get);
            && InitiatorOpen(t, c) && t.keyB == s.keyB
            && t.b.core.sessions == map[c := NewResponder(1).(handshake := Established)]
            && |t.b.log| == 1 && DataOn(t.b.log, c) == []
  {
    var ack, get := Step(B, Call(c, AppOpenAck(0), now, 0, true)), Step(A, Receive(0, now, s.keyB, true));
    NextKeepsNodes(s, ack);
    OnlyStreamCalls(s.b, c, NewResponder(1), AppOpenAck(0), now);
    var s1 := Next(s, ack);
    assert !IsData(s1.b.log[0], c);
    DataOnSnoc([], s1.b.log[0], c);
    NextKeepsNodes(s1, get);
    OnlyStreamTakes(s1.a, s1.b, s.keyB, c, NewInitiator(1), 0, now);
    DeliveredSnoc([], c, StreamEstablished, c);
  }

  lemma {:induction false} TailSent(s: Sys, c: Bytes32, payload: Bytes, now: u64)
    requires InitiatorOpen(s, c) && s.b.core.sessions == map[c := NewResponder(1).(handshake := Established)]
    requires |s.b.log| == 1 && DataOn(s.b.log, c) == []
    ensures var data, close := SendAndClose(c, payload, now)[0], SendAndClose(c, payload, now)[1];
            var t := Next(Next(s, data), close);
            && InitiatorOpen(t, c) && t.keyB == s.keyB && |t.b.log| == 3 && DataOn(t.b.log, c) == [payload]
            && t.b.log[2] == CloseEntry(c, now)
  {
    var data, close := Step(B, Call(c, AppData(payload), now, 0, true)), Step(B, Call(c, AppClose, now, 0, true));
    var session := NewResponder(1).(handshake := Established);
    OnlyStreamCalls(s.b, c, session, AppData(payload), now);
    NextKeepsNodes(s, data);
    var s1 := Next(s, data);
    DataOnSnoc(s.b.log, s1.b.log[1], c);
    OnlyStreamCalls(s1.b, c, BuildData(session).0, AppClose, now);
    NextKeepsNodes(s1, close);
    DataOnSnoc(s1.b.log, Next(s1, close).b.log[2], c);
  }

  lemma {:induction false} TailTaken(s: Sys, c: Bytes32, now: u64)
    requires InitiatorOpen(s, c) && |s.b.log| == 3
    requires s.b.log[2] == CloseEntry(c, now)
    ensures var t := Next(s, Step(A, Receive(2, now, s.keyB, true)));
            && (c, PeerClosed) in t.a.events && c in t.a.core.sessions && !IsClosed(t.a.core.sessions[c])
            && Delivered(t.a.events, c) == [] && t.b == s.b
  {
    OnlyStreamTakes(s.a, s.b, s.keyB, c, NewInitiator(1).(handshake := Established), 2, now);
    DeliveredSnoc(s.a.events, c, PeerClosed, c);
  }

  /**
   CLOSE carries no final sequence number: in this run `a` is told `PeerClosed` on a healthy stream
   and has delivered nothing, although `b` sent a payload.
   */
  lemma {:induction false} LostTailIsSilent(s: Sys, c: Bytes32, payload: Bytes, now: u64)
    requires Initial(s) && s.a.core.cap >= 1 && s.b.core.cap >= 1
    ensures var t := Run(s, LostTail(c, payload, now, s.keyA, s.keyB));
            && (c, PeerClosed) in t.a.events && c in t.a.core.sessions && !IsClosed(t.a.core.sessions[c])
            && Delivered(t.a.events, c) == [] && DataOn(t.b.log, c) == [payload]
    ensures var steps := LostTail(c, payload, now, s.keyA, s.keyB); LegalRun(s, steps) && UsedOnce(s, steps, c)
  {
    ShortRunLegal(s, LostTail(c, payload, now, s.keyA, s.keyB), c);
    var open, ack := OpenSteps(c, 1, now, s.keyA), AckSteps(c, now, s.keyB);
    var send := SendAndClose(c, payload, now);
    FirstFrameOpens(s, c, 1, now);
    TailAcked(Run(s, open), c, now);
    RunTwo(Run(s, open), ack[0], ack[1]);
    RunAppend(s, open, ack);
    TailSent(Run(s, open + ack), c, payload, now);
    RunTwo(Run(s, open + ack), send[0], send[1]);
    RunAppend(s, open + ack, send);
    TailTaken(Run(s, open + ack + send), c, now);
    RunSnoc(s, open + ack + send, Step(A, Receive(2, now, s.keyB, true)));
  }
}
