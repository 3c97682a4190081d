/**
 Safety over a network that loses, repeats and reorders frames: in-order prefix delivery and credit
 safety on a stream whose correlation id is used once, and termination of RESET reflection.
 */
module Lossy {
  import opened Types
  import opened Envelope
  import opened ReplayGuard
  import opened Session
  import opened Endpoint
  import opened Network

  // ---------------------------------------------------------------- the invariant of one stream

  /** `x` has not met stream `c` yet. */
  ghost predicate Clean(x: Node, c: Bytes32) {
    c !in x.core.sessions && Untouched(x.log, c) && Delivered(x.events, c) == []
  }

  /** Each DATA frame on `c` carries the index of its payload among those stamped on `c`. */
  ghost predicate Stamped(log: seq<Entry>, c: Bytes32) {
    forall i :: 0 <= i < |log| && IsData(log[i], c) ==>
      log[i].frame.hdr.seqNo < |DataOn(log, c)| && DataOn(log, c)[log[i].frame.hdr.seqNo] == log[i].frame.payload
  }

  ghost predicate NoOpen(log: seq<Entry>, c: Bytes32) {
    forall i :: 0 <= i < |log| ==> !IsOpen(log[i], c)
  }

  ghost predicate OneOpen(log: seq<Entry>, c: Bytes32) {
    forall i, j :: 0 <= i < |log| && 0 <= j < |log| && IsOpen(log[i], c) && IsOpen(log[j], c) ==> i == j
  }

  /** At most one OPEN on `c` in both logs together; until it is admitted the other side is clean. */
  ghost predicate OpenedOnce(x: Node, y: Node, c: Bytes32) {
    && OneOpen(x.log, c)
    && (NoOpen(x.log, c) || NoOpen(y.log, c))
    && (NoOpen(x.log, c) && NoOpen(y.log, c) ==> Clean(x, c))
    && (forall i: u64 :: i < |y.log| && IsOpen(y.log[i], c) && i !in x.accepted ==> Clean(x, c))
  }

  /** What a live session knows agrees with the histories. */
  ghost predicate SessionAgrees(x: Node, c: Bytes32) {
    c in x.core.sessions ==>
      && x.core.sessions[c].sendSeq == |DataOn(x.log, c)|
      && x.core.sessions[c].recvSeq == |Delivered(x.events, c)|
  }

  /** Frames stamped, plus those still allowed, stay within the credit of admitted grants. */
  ghost predicate CreditCovered(x: Node, y: Node, c: Bytes32) {
    |DataOn(x.log, c)| + (if c in x.core.sessions then x.core.sessions[c].sendCredit else 0)
    <= Weight(y.log, x.accepted, GrantOn(c))
  }

  /** A live session has delivered exactly the deliverable DATA frames its side admitted. */
  ghost predicate ReceiptsMatch(x: Node, y: Node, c: Bytes32) {
    c in x.core.sessions ==> |Delivered(x.events, c)| == Weight(y.log, x.accepted, DataWeight(c))
  }

  ghost predicate StreamInv(x: Node, y: Node, c: Bytes32) {
    && Stamped(x.log, c)
    && OpenedOnce(x, y, c)
    && SessionAgrees(x, c)
    && Delivered(x.events, c) <= DataOn(y.log, c)
    && CreditCovered(x, y, c)
    && ReceiptsMatch(x, y, c)
  }

  ghost predicate PairInv(x: Node, y: Node, c: Bytes32) {
    StreamInv(x, y, c) && StreamInv(y, x, c)
  }

  // ---------------------------------------------------------------- the log grows by one entry

  lemma StampedSnoc(log: seq<Entry>, e: Entry, c: Bytes32)
    requires Stamped(log, c)
    requires IsData(e, c) ==> e.frame.hdr.seqNo == |DataOn(log, c)|
    ensures Stamped(log + [e], c)
  {
    DataOnSnoc(log, e, c);
  }

  /** How `y` is affected by one more entry in `x`'s log that is not an OPEN of `c`. */
  lemma PeerSeesSnoc(x: Node, y: Node, x': Node, e: Entry, c: Bytes32)
    requires StreamInv(y, x, c) && x'.log == x.log + [e] && !IsOpen(e, c)
    requires forall i :: i in y.accepted ==> i < |x.log|
    requires NoOpen(x.log, c) && NoOpen(y.log, c) ==> e.frame.cid != c
    ensures StreamInv(y, x', c)
  {
    DataOnSnoc(x.log, e, c);
    WeightSnoc(x.log, e, y.accepted, GrantOn(c));
    WeightSnoc(x.log, e, y.accepted, DataWeight(c));
    assert NoOpen(x'.log, c) <==> NoOpen(x.log, c) by {
      assert forall i :: 0 <= i < |x.log| ==> x'.log[i] == x.log[i];
    }
  }

  // ---------------------------------------------------------------- steps that do not concern the stream

  /** `x` moved without touching stream `c`: at most a log entry and an admitted frame of other streams. */
  ghost predicate OffStream(x: Node, x': Node, y: Node, c: Bytes32) {
    && Get(x'.core.sessions, c) == Get(x.core.sessions, c)
    && Delivered(x'.events, c) == Delivered(x.events, c)
    && (x'.log == x.log || (|x'.log| == |x.log| + 1 && x'.log[..|x.log|] == x.log && x'.log[|x.log|].frame.cid != c))
    && x.accepted <= x'.accepted
    && (forall i: u64 :: i in x'.accepted && i !in x.accepted ==> i < |y.log| && y.log[i].frame.cid != c)
  }

  lemma {:induction false} WeightOff(log: seq<Entry>, small: set<u64>, big: set<u64>, f: Entry -> nat)
    requires small <= big
    requires forall i: u64 :: i in big && i !in small && i < |log| ==> f(log[i]) == 0
    ensures Weight(log, small, f) == Weight(log, big, f)
  {
    if log != [] {
      var n := |log| - 1;
      WeightOff(log[..n], small, big, f);
    }
  }

  lemma UntouchedSnoc(log: seq<Entry>, e: Entry, c: Bytes32)
    ensures Untouched(log + [e], c) <==> Untouched(log, c) && e.frame.cid != c
  {
    assert (log + [e])[|log|] == e;
    assert forall i :: 0 <= i < |log| ==> (log + [e])[i] == log[i];
  }

  lemma OffStreamKeeps(x: Node, x': Node, y: Node, c: Bytes32)
    requires PairInv(x, y, c) && OffStream(x, x', y, c)
    requires forall i :: i in y.accepted ==> i < |x.log|
    ensures PairInv(x', y, c)
  {
    WeightOff(y.log, x.accepted, x'.accepted, GrantOn(c));
    WeightOff(y.log, x.accepted, x'.accepted, DataWeight(c));
    OffStreamLog(x, x', y, c);
  }

  /** An entry of another stream changes nothing the log says about `c`. */
  lemma OtherEntry(log: seq<Entry>, e: Entry, c: Bytes32)
    requires e.frame.cid != c && Stamped(log, c) && OneOpen(log, c)
    ensures Stamped(log + [e], c) && OneOpen(log + [e], c)
    ensures DataOn(log + [e], c) == DataOn(log, c)
    ensures Untouched(log, c) ==> Untouched(log + [e], c)
    ensures NoOpen(log + [e], c) <==> NoOpen(log, c)
  {
    DataOnSnoc(log, e, c);
    StampedSnoc(log, e, c);
    UntouchedSnoc(log, e, c);
    assert forall i :: 0 <= i < |log| ==> (log + [e])[i] == log[i];
  }

  /** The part of the invariant that speaks of the log alone. */
  lemma OffStreamLog(x: Node, x': Node, y: Node, c: Bytes32)
    requires PairInv(x, y, c) && OffStream(x, x', y, c)
    requires forall i :: i in y.accepted ==> i < |x.log|
    ensures Stamped(x'.log, c) && OneOpen(x'.log, c) && DataOn(x'.log, c) == DataOn(x.log, c)
    ensures Untouched(x.log, c) ==> Untouched(x'.log, c)
    ensures NoOpen(x'.log, c) <==> NoOpen(x.log, c)
    ensures StreamInv(y, x', c)
  {
    if x'.log != x.log {
      var e := x'.log[|x.log|];
      assert x'.log == x.log + [e];
      OtherEntry(x.log, e, c);
      PeerSeesSnoc(x, y, x', e, c);
    }
  }

  // ---------------------------------------------------------------- application calls on the stream

  /** The guard against reuse: an OPEN on `c` is only ever the first frame on `c` anywhere. */
  ghost predicate FreshFor(x: Node, y: Node, action: Action, c: Bytes32) {
    action.Call? && action.cid == c && action.op.AppOpen? ==> Untouched(x.log, c) && Untouched(y.log, c)
  }

  lemma UntouchedIsNoOpen(log: seq<Entry>, c: Bytes32)
    requires Untouched(log, c)
    ensures NoOpen(log, c)
  {}

  /** Before `x` logs anything on the stream, `y` has stamped no DATA on it. */
  lemma {:induction false} NothingReceived(x: Node, y: Node, c: Bytes32)
    requires CreditCovered(y, x, c) && Untouched(x.log, c) && |y.log| <= U64_MAX
    ensures Weight(y.log, x.accepted, DataWeight(c)) == 0
  {
    UntouchedGrants(x.log, y.accepted, c);
    DataWeightBound(y.log, x.accepted, c);
  }

  lemma {:induction false} UntouchedGrants(log: seq<Entry>, picked: set<u64>, c: Bytes32)
    requires Untouched(log, c)
    ensures Weight(log, picked, GrantOn(c)) == 0
  {
    if log != [] { UntouchedGrants(log[..|log| - 1], picked, c); }
  }

  /** The first frame of the stream: `x` becomes its initiator. */
  lemma OpenKeeps(x: Node, y: Node, x': Node, e: Entry, w: u32, c: Bytes32)
    requires PairInv(x, y, c) && Untouched(x.log, c) && Untouched(y.log, c)
    requires forall i :: i in y.accepted ==> i < |x.log|
    requires |x.log| <= U64_MAX && |y.log| <= U64_MAX
    requires IsOpen(e, c) && x'.log == x.log + [e]
    requires x'.accepted == x.accepted && x'.events == x.events
    requires x'.core.sessions == Put(x.core.sessions, c, Some(NewInitiator(w)))
    ensures PairInv(x', y, c)
  {
    UntouchedIsNoOpen(x.log, c);
    UntouchedIsNoOpen(y.log, c);
    DataOnUntouched(x.log, c);
    DataOnSnoc(x.log, e, c);
    StampedSnoc(x.log, e, c);
    WeightSnoc(x.log, e, y.accepted, GrantOn(c));
    NothingReceived(x, y, c);
    assert Clean(x, c) && Clean(y, c);
    assert x'.log[|x.log|] == e;
    assert forall i :: 0 <= i < |x.log| ==> x'.log[i] == x.log[i];
    assert !NoOpen(x'.log, c);
  }

  /** A further frame on a live stream, which the call keeps or drops. */
  lemma FrameKeeps(x: Node, y: Node, x': Node, e: Entry, c: Bytes32)
    requires PairInv(x, y, c) && c in x.core.sessions
    requires forall i :: i in y.accepted ==> i < |x.log|
    requires e.frame.cid == c && !e.frame.kind.Open? && x'.log == x.log + [e]
    requires e.frame.kind.Data? ==> e.frame.hdr.seqNo == |DataOn(x.log, c)|
    requires x'.accepted == x.accepted && x'.events == x.events
    requires c in x'.core.sessions ==>
               var s, s' := x.core.sessions[c], x'.core.sessions[c];
               && s'.recvSeq == s.recvSeq
               && (if e.frame.kind.Data? then s'.sendSeq == s.sendSeq + 1 && s'.sendCredit == s.sendCredit - 1
                   else s'.sendSeq == s.sendSeq && s'.sendCredit == s.sendCredit)
    requires c !in x'.core.sessions ==> !e.frame.kind.Data?
    ensures PairInv(x', y, c)
  {
    DataOnSnoc(x.log, e, c);
    StampedSnoc(x.log, e, c);
    assert !(NoOpen(x.log, c) && NoOpen(y.log, c));
    PeerSeesSnoc(x, y, x', e, c);
    assert forall i :: 0 <= i < |x.log| ==> x'.log[i] == x.log[i];
    assert x'.log[|x.log|] == e;
    assert NoOpen(x'.log, c) <==> NoOpen(x.log, c);
  }

  /** The frame a call on a live session builds, and how the session moves. */
  lemma BuildEffect(s: Session, op: AppOp)
    requires Build(s, op).1.Ok?
    ensures var (s', r) := Build(s, op);
            var kind := KindOfHeader(r.value);
            && !kind.Open? && s'.recvSeq == s.recvSeq
            && (kind.Data? <==> op.AppData?)
            && (if op.AppData? then
                  && r.value.seqNo == s.sendSeq && s'.sendSeq == WrapInc(s.sendSeq)
                  && s.sendCredit > 0 && s'.sendCredit == s.sendCredit - 1
                else s'.sendSeq == s.sendSeq && s'.sendCredit == s.sendCredit)
  {}

  lemma CallOnStream(x: Node, y: Node, c: Bytes32, op: AppOp, now: u64, expiresAt: u64, isSealed: bool)
    requires PairInv(x, y, c) && x.core.sendCounter == |x.log| < U64_MAX
    requires |y.log| <= U64_MAX && forall i :: i in y.accepted ==> i < |x.log|
    requires op.AppOpen? ==> Untouched(x.log, c) && Untouched(y.log, c)
    ensures PairInv(DoCall(x, c, op, now, expiresAt, isSealed), y, c)
  {
    var x' := DoCall(x, c, op, now, expiresAt, isSealed);
    var r := App(x.core, c, op, isSealed).1;
    if r.Err? {
      PutSame(x.core.sessions, c);
    } else {
      var e := x'.log[|x.log|];
      if c in x.core.sessions {
        BuildEffect(x.core.sessions[c], op);
        DataOnBound(x.log, c);
        FrameKeeps(x, y, x', e, c);
      } else {
        OpenKeeps(x, y, x', e, op.recvWindow, c);
      }
    }
  }

  // ---------------------------------------------------------------- frames arriving on the stream

  /** Guard and cursor do not enter the invariant. */
  lemma SameViewKeeps(x: Node, y: Node, x': Node, c: Bytes32)
    requires PairInv(x, y, c)
    requires x'.core.sessions == x.core.sessions && x'.log == x.log
    requires x'.events == x.events && x'.accepted == x.accepted
    ensures PairInv(x', y, c)
  {}

  /** `x` admitted the peer's frame `i` and changed nothing else, except perhaps ending its session. */
  lemma AdmittedKeeps(x: Node, y: Node, x': Node, i: u64, c: Bytes32)
    requires PairInv(x, y, c)
    requires i < |y.log| && i !in x.accepted && x'.accepted == x.accepted + {i}
    requires x'.log == x.log && x'.events == x.events
    requires Get(x'.core.sessions, c) == Get(x.core.sessions, c) || Get(x'.core.sessions, c).None?
    requires c in x'.core.sessions ==> !Deliverable(y.log[i], c)
    ensures PairInv(x', y, c)
  {
    WeightPick(y.log, x.accepted, i, GrantOn(c));
    WeightPick(y.log, x.accepted, i, DataWeight(c));
    assert Clean(x, c) ==> Clean(x', c);
  }

  /** The one OPEN of the stream is admitted: `x` becomes its responder. */
  lemma ResponderKeeps(x: Node, y: Node, x': Node, i: u64, event: StreamEvent, c: Bytes32)
    requires PairInv(x, y, c)
    requires i < |y.log| && i !in x.accepted && x'.accepted == x.accepted + {i} && IsOpen(y.log[i], c)
    requires y.log[i].isSealed && |y.log| <= U64_MAX
    requires x'.log == x.log && x'.events == x.events + [(c, event)] && !event.DataDelivered?
    requires Get(x'.core.sessions, c) == Some(NewResponder(y.log[i].frame.hdr.window))
    ensures PairInv(x', y, c)
  {
    WeightPick(y.log, x.accepted, i, GrantOn(c));
    WeightPick(y.log, x.accepted, i, DataWeight(c));
    DeliveredSnoc(x.events, c, event, c);
    assert Clean(x, c);
    NothingReceived(x, y, c);
    DataOnUntouched(x.log, c);
    assert !NoOpen(y.log, c);
    assert forall j: u64 :: j < |y.log| && IsOpen(y.log[j], c) ==> j == i;
  }

  /** A live session takes a frame: sequence, delivery and credit move together. */
  lemma SessionTakesFrame(x: Node, y: Node, x': Node, i: u64, event: StreamEvent, c: Bytes32)
    requires PairInv(x, y, c) && c in x.core.sessions
    requires i < |y.log| && i !in x.accepted && x'.accepted == x.accepted + {i} && y.log[i].frame.cid == c
    requires x'.log == x.log && x'.events == x.events + [(c, event)]
    requires event.DataDelivered? <==> y.log[i].frame.kind.Data?
    requires y.log[i].isSealed && |y.log[i].frame.payload| <= MAX_DECOMPRESSED_BYTES
    requires event.DataDelivered? ==>
               event.payload == y.log[i].frame.payload && y.log[i].frame.hdr.seqNo == x.core.sessions[c].recvSeq
    requires c in x'.core.sessions ==>
               var s, s' := x.core.sessions[c], x'.core.sessions[c];
               && s'.sendSeq == s.sendSeq
               && s'.recvSeq == s.recvSeq + (if event.DataDelivered? then 1 else 0)
               && s'.sendCredit <= s.sendCredit + GrantOn(c)(y.log[i])
    ensures PairInv(x', y, c)
  {
    WeightPick(y.log, x.accepted, i, GrantOn(c));
    WeightPick(y.log, x.accepted, i, DataWeight(c));
    DeliveredSnoc(x.events, c, event, c);
    assert !Clean(x, c);
    if event.DataDelivered? {
      var sent, got := DataOn(y.log, c), Delivered(x.events, c);
      assert IsData(y.log[i], c);
      assert got + [sent[|got|]] == sent[..|got| + 1];
    }
  }

  /** A RESET of `x`'s own is logged after its session on the stream has ended. */
  lemma AbortLogged(x: Node, y: Node, x': Node, e: Entry, c: Bytes32)
    requires PairInv(x, y, c) && c !in x.core.sessions && c !in x'.core.sessions
    requires forall i :: i in y.accepted ==> i < |x.log|
    requires e.frame.cid == c && e.frame.kind.Reset? && x'.log == x.log + [e]
    requires x'.accepted == x.accepted && x'.events == x.events
    requires !(NoOpen(x.log, c) && NoOpen(y.log, c))
    requires forall j: u64 :: j < |y.log| && IsOpen(y.log[j], c) ==> j in x.accepted
    ensures PairInv(x', y, c)
  {
    DataOnSnoc(x.log, e, c);
    StampedSnoc(x.log, e, c);
    PeerSeesSnoc(x, y, x', e, c);
    assert forall i :: 0 <= i < |x.log| ==> x'.log[i] == x.log[i];
    assert x'.log[|x.log|] == e;
    assert NoOpen(x'.log, c) <==> NoOpen(x.log, c);
  }

  /** How an accepted frame moves a session. */
  lemma OnRecvEffect(s: Session, kind: FrameKind, hdr: StreamHeader, payload: Bytes)
    requires OnRecv(s, kind, hdr).1.Ok? && !kind.Open?
    ensures var (s', r) := OnRecv(s, kind, hdr);
            var event := ToEvent(r.value, payload);
            && s'.sendSeq == s.sendSeq
            && (event.DataDelivered? <==> kind.Data?)
            && (if kind.Data? then
                  event.payload == payload && hdr.seqNo == s.recvSeq && s'.recvSeq == WrapInc(s.recvSeq)
                else s'.recvSeq == s.recvSeq)
            && s'.sendCredit <= s.sendCredit + (if kind.OpenAck? || kind.Credit? then hdr.window else 0)
  {}

  /** `x'` is `x` after its admitted frame `i`, which is of stream `c`. */
  ghost predicate Arrived(x: Node, y: Node, x': Node, i: u64, reset: Entry, c: Bytes32)
    requires i < |y.log|
  {
    var f := y.log[i].frame;
    var (slot, reaction) := SlotRecv(Get(x.core.sessions, c), Full(x.core), x.core.cap, f.kind, f.hdr, f.payload);
    && f.cid == c && Get(x'.core.sessions, c) == slot && x'.accepted == x.accepted + {i}
    && x'.cursor == i + 1
    && x'.events == (if reaction.Deliver? then x.events + [(c, reaction.event)] else x.events)
    && x'.log == (if reaction.Abort? then x.log + [reset] else x.log)
  }

  lemma TakeInArrives(x: Node, y: Node, t: Table, i: u64, now: u64, isSealed: bool, c: Bytes32)
    requires i < |y.log| && y.log[i].frame.cid == c
    ensures Arrived(x, y, TakeIn(x, t, y.log[i].frame, i, now, isSealed), i, ResetEntry(c, now, isSealed), c)
  {
    var f := y.log[i].frame;
    TakeInByReaction(x, t, f, i, now, isSealed);
    var slot := SlotRecv(Get(x.core.sessions, c), Full(x.core), x.core.cap, f.kind, f.hdr, f.payload).0;
    GetPut(x.core.sessions, c, slot, c);
  }

  lemma {:induction false} TakenKeeps(x: Node, y: Node, t: Table, i: u64, now: u64, isSealed: bool, c: Bytes32)
    requires PairInv(x, y, c) && |y.log| <= U64_MAX
    requires i < |y.log| && i !in x.accepted && y.log[i].frame.cid == c
    requires y.log[i].isSealed && |y.log[i].frame.payload| <= MAX_DECOMPRESSED_BYTES
    requires forall j :: j in y.accepted ==> j < |x.log|
    ensures PairInv(TakeIn(x, t, y.log[i].frame, i, now, isSealed), y, c)
  {
    var f := y.log[i].frame;
    var x' := TakeIn(x, t, f, i, now, isSealed);
    var (slot, reaction) := SlotRecv(Get(x.core.sessions, c), Full(x.core), x.core.cap, f.kind, f.hdr, f.payload);
    GetPut(x.core.sessions, c, slot, c);
    match reaction {
      case Deliver(event) =>
        if c in x.core.sessions {
          if !f.kind.Reset? { OnRecvEffect(x.core.sessions[c], f.kind, f.hdr, f.payload); }
          if f.kind.Data? { DataOnBound(y.log, c); }
          SessionTakesFrame(x, y, x', i, event, c);
        } else {
          ResponderKeeps(x, y, x', i, event, c);
        }
      case Ignore(_) =>
        AdmittedKeeps(x, y, x', i, c);
      case Abort(_) =>
        var x1 := x'.(log := x.log);
        AdmittedKeeps(x, y, x1, i, c);
        assert c in x.core.sessions ==> !Clean(x, c);
        AbortLogged(x1, y, x', ResetEntry(c, now, isSealed), c);
    }
  }

  lemma {:induction false} ReceiveOnStream(x: Node, y: Node, key: SenderKey, i: u64, now: u64, victim: SenderKey,
                                           isSealed: bool, c: Bytes32)
    requires PairInv(x, y, c) && NodeOk(x, y, key) && |y.log| <= U64_MAX
    requires i < |y.log| && y.log[i].frame.cid == c && y.log[i].isSealed
    requires forall j :: j in y.accepted ==> j < |x.log|
    ensures PairInv(DoReceive(x, key, y.log[i].frame, i, now, victim, isSealed), y, c)
  {
    var f := y.log[i].frame;
    var x' := DoReceive(x, key, f, i, now, victim, isSealed);
    ScreenRefines(x, key, f, i, now, victim);
    var (t, verdict) := Screen(x.core.guard, key, f, i, now, victim);
    match verdict {
      case Refused => SameViewKeeps(x, y, x', c);
      case Swallowed => AdmittedKeeps(x, y, x', i, c);
      case Through => TakenKeeps(x, y, t, i, now, isSealed, c);
    }
  }

  // ---------------------------------------------------------------- every action keeps the invariant

  lemma CallElsewhere(x: Node, y: Node, cid: Bytes32, op: AppOp, now: u64, expiresAt: u64, isSealed: bool, c: Bytes32)
    requires cid != c && x.core.sendCounter == |x.log| < U64_MAX
    ensures OffStream(x, DoCall(x, cid, op, now, expiresAt, isSealed), y, c)
  {
    CallShape(x, cid, op, now, expiresAt, isSealed);
    GetPut(x.core.sessions, cid, SlotApp(Get(x.core.sessions, cid), Full(x.core), x.core.cap, op, isSealed).0, c);
  }

  lemma TakeInElsewhere(x: Node, y: Node, t: Table, i: u64, now: u64, isSealed: bool, c: Bytes32)
    requires i < |y.log| && y.log[i].frame.cid != c && x.core.sendCounter == |x.log| < U64_MAX
    ensures OffStream(x, TakeIn(x, t, y.log[i].frame, i, now, isSealed), y, c)
  {
    var f := y.log[i].frame;
    var (slot, reaction) := SlotRecv(Get(x.core.sessions, f.cid), Full(x.core), x.core.cap, f.kind, f.hdr, f.payload);
    GetPut(x.core.sessions, f.cid, slot, c);
    if reaction.Deliver? { DeliveredSnoc(x.events, f.cid, reaction.event, c); }
  }

  lemma {:induction false} ReceiveElsewhere(x: Node, y: Node, key: SenderKey, i: u64, now: u64, victim: SenderKey,
                                            isSealed: bool, c: Bytes32)
    requires i < |y.log| && y.log[i].frame.cid != c && x.core.sendCounter == |x.log| < U64_MAX
    ensures OffStream(x, DoReceive(x, key, y.log[i].frame, i, now, victim, isSealed), y, c)
  {
    var (t, verdict) := Screen(x.core.guard, key, y.log[i].frame, i, now, victim);
    if verdict.Through? { TakeInElsewhere(x, y, t, i, now, isSealed, c); }
  }

  lemma {:induction false} ActKeepsPair(x: Node, y: Node, kx: SenderKey, ky: SenderKey, action: Action, c: Bytes32)
    requires PairInv(x, y, c) && NodeOk(x, y, ky) && NodeOk(y, x, kx)
    requires |x.log| < U64_MAX && FreshFor(x, y, action, c)
    ensures PairInv(Act(x, y, ky, action), y, c)
  {
    match action {
      case Call(cid, op, now, expiresAt, isSealed) =>
        if cid == c {
          CallOnStream(x, y, c, op, now, expiresAt, isSealed);
        } else {
          CallElsewhere(x, y, cid, op, now, expiresAt, isSealed, c);
          OffStreamKeeps(x, Act(x, y, ky, action), y, c);
        }
      case Receive(i, now, victim, isSealed) =>
        if i < |y.log| && y.log[i].isSealed {
          if y.log[i].frame.cid == c {
            ReceiveOnStream(x, y, ky, i, now, victim, isSealed, c);
          } else {
            ReceiveElsewhere(x, y, ky, i, now, victim, isSealed, c);
            OffStreamKeeps(x, Act(x, y, ky, action), y, c);
          }
        }
      case Foreign(other, counter, timestamp, now, victim) =>
        SameViewKeeps(x, y, Act(x, y, ky, action), c);
    }
  }

  // ---------------------------------------------------------------- runs

  /** A step of a run: fewer than 2^64 frames so far, and no eviction of the peer's guard entry. */
  ghost predicate Legal(s: Sys, step: Step) {
    match step.side
    case A => |s.a.log| < U64_MAX && SparesPeer(s.a, s.keyB, step.action)
    case B => |s.b.log| < U64_MAX && SparesPeer(s.b, s.keyA, step.action)
  }

  /** The step does not reuse correlation id `c` for a second stream. */
  ghost predicate UsesOnce(s: Sys, step: Step, c: Bytes32) {
    match step.side
    case A => FreshFor(s.a, s.b, step.action, c)
    case B => FreshFor(s.b, s.a, step.action, c)
  }

  ghost predicate LegalRun(s: Sys, steps: seq<Step>) {
    forall n :: 0 <= n < |steps| ==> Legal(Run(s, steps[..n]), steps[n])
  }

  ghost predicate UsedOnce(s: Sys, steps: seq<Step>, c: Bytes32) {
    forall n :: 0 <= n < |steps| ==> UsesOnce(Run(s, steps[..n]), steps[n], c)
  }

  ghost predicate NodesOk(s: Sys) {
    NodeOk(s.a, s.b, s.keyB) && NodeOk(s.b, s.a, s.keyA)
  }

  lemma InitOk(s: Sys, c: Bytes32)
    requires Initial(s)
    ensures NodesOk(s) && PairInv(s.a, s.b, c)
  {}

  lemma LegalPrefix(s: Sys, steps: seq<Step>)
    requires LegalRun(s, steps) && steps != []
    ensures LegalRun(s, steps[..|steps| - 1])
    ensures Legal(Run(s, steps[..|steps| - 1]), steps[|steps| - 1])
  {
    var init := steps[..|steps| - 1];
    forall n | 0 <= n < |init| ensures Legal(Run(s, init[..n]), init[n]) {
      assert init[..n] == steps[..n] && Legal(Run(s, steps[..n]), steps[n]);
    }
  }

  lemma {:induction false} UsedOncePrefix(s: Sys, steps: seq<Step>, c: Bytes32)
    requires UsedOnce(s, steps, c) && steps != []
    ensures UsedOnce(s, steps[..|steps| - 1], c)
    ensures UsesOnce(Run(s, steps[..|steps| - 1]), steps[|steps| - 1], c)
  {
    var init := steps[..|steps| - 1];
    forall n | 0 <= n < |init| ensures UsesOnce(Run(s, init[..n]), init[n], c) {
      assert init[..n] == steps[..n] && UsesOnce(Run(s, steps[..n]), steps[n], c);
    }
  }

  lemma {:induction false} LegalSnoc(s: Sys, steps: seq<Step>, step: Step)
    requires LegalRun(s, steps) && Legal(Run(s, steps), step)
    ensures LegalRun(s, steps + [step])
  {
    var all := steps + [step];
    forall n | 0 <= n < |all| ensures Legal(Run(s, all[..n]), all[n]) {
      assert all[..n] == steps[..n];
      if n == |steps| { assert steps[..n] == steps; }
    }
  }

  lemma {:induction false} UsedOnceSnoc(s: Sys, steps: seq<Step>, step: Step, c: Bytes32)
    requires UsedOnce(s, steps, c) && UsesOnce(Run(s, steps), step, c)
    ensures UsedOnce(s, steps + [step], c)
  {
    var all := steps + [step];
    forall n | 0 <= n < |all| ensures UsesOnce(Run(s, all[..n]), all[n], c) {
      assert all[..n] == steps[..n];
      if n == |steps| { assert steps[..n] == steps; }
    }
  }

  lemma {:induction false} NextKeepsNodes(s: Sys, step: Step)
    requires NodesOk(s) && Legal(s, step)
    ensures NodesOk(Next(s, step))
  {
    match step.side {
      case A => ActKeepsNodes(s.a, s.b, s.keyA, s.keyB, step.action);
      case B => ActKeepsNodes(s.b, s.a, s.keyB, s.keyA, step.action);
    }
  }

  lemma {:induction false} RunKeepsNodes(s: Sys, steps: seq<Step>)
    requires NodesOk(s) && LegalRun(s, steps)
    ensures NodesOk(Run(s, steps))
  {
    if steps != [] {
      LegalPrefix(s, steps);
      RunKeepsNodes(s, steps[..|steps| - 1]);
      NextKeepsNodes(Run(s, steps[..|steps| - 1]), steps[|steps| - 1]);
    }
  }

  lemma {:induction false} RunKeepsStream(s: Sys, steps: seq<Step>, c: Bytes32)
    requires NodesOk(s) && PairInv(s.a, s.b, c) && LegalRun(s, steps) && UsedOnce(s, steps, c)
    ensures PairInv(Run(s, steps).a, Run(s, steps).b, c)
  {
    if steps != [] {
      var init, last := steps[..|steps| - 1], steps[|steps| - 1];
      LegalPrefix(s, steps);
      UsedOncePrefix(s, steps, c);
      RunKeepsStream(s, init, c);
      RunKeepsNodes(s, init);
      var t := Run(s, init);
      match last.side {
        case A => ActKeepsPair(t.a, t.b, t.keyA, t.keyB, last.action, c);
        case B => ActKeepsPair(t.b, t.a, t.keyB, t.keyA, last.action, c);
      }
    }
  }

  /**
   Whatever the network loses, repeats or reorders, what an endpoint delivers on a stream is, in
   order and without repeats, a prefix of what the peer passed to `send_data` on it.
   */
  lemma {:induction false} PrefixDelivery(s: Sys, steps: seq<Step>, c: Bytes32)
    requires Initial(s) && LegalRun(s, steps) && UsedOnce(s, steps, c)
    ensures var t := Run(s, steps);
            Delivered(t.b.events, c) <= DataOn(t.a.log, c) && Delivered(t.a.events, c) <= DataOn(t.b.log, c)
  {
    InitOk(s, c);
    RunKeepsStream(s, steps, c);
  }

  /** Over the same network no side ever stamps more DATA on a stream than its peer granted credit for. */
  lemma {:induction false} CreditSafety(s: Sys, steps: seq<Step>, c: Bytes32)
    requires Initial(s) && LegalRun(s, steps) && UsedOnce(s, steps, c)
    ensures var t := Run(s, steps);
            && |DataOn(t.a.log, c)| <= Weight(t.b.log, t.a.accepted, GrantOn(c)) <= Total(t.b.log, GrantOn(c))
            && |DataOn(t.b.log, c)| <= Weight(t.a.log, t.b.accepted, GrantOn(c)) <= Total(t.a.log, GrantOn(c))
  {
    InitOk(s, c);
    RunKeepsStream(s, steps, c);
    var t := Run(s, steps);
    WeightAtMostTotal(t.b.log, t.a.accepted, GrantOn(c));
    WeightAtMostTotal(t.a.log, t.b.accepted, GrantOn(c));
  }

  /** Every DATA frame of `y` on `c` could be opened and has been admitted by `x`. */
  ghost predicate AllAdmitted(x: Node, y: Node, c: Bytes32) {
    forall i: u64 :: i < |y.log| && IsData(y.log[i], c) ==> Deliverable(y.log[i], c) && i in x.accepted
  }

  lemma {:induction false} CompleteExactly(x: Node, y: Node, c: Bytes32)
    requires StreamInv(x, y, c) && |y.log| <= U64_MAX && c in x.core.sessions
    ensures Delivered(x.events, c) == DataOn(y.log, c) <==> AllAdmitted(x, y, c)
  {
    DataWeightBound(y.log, x.accepted, c);
  }

  /**
   Exactly when delivery is complete: while a side's session lives, the moment it takes the peer's
   CLOSE included, it has delivered everything sent if and only if every DATA frame on the stream
   was sealed, within the size cap and admitted.  A CLOSE by itself says nothing about that.
   */
  lemma {:induction false} LossyComplete(s: Sys, steps: seq<Step>, c: Bytes32)
    requires Initial(s) && LegalRun(s, steps) && UsedOnce(s, steps, c)
    ensures var t := Run(s, steps);
            && (c in t.a.core.sessions ==>
                  (Delivered(t.a.events, c) == DataOn(t.b.log, c) <==> AllAdmitted(t.a, t.b, c)))
            && (c in t.b.core.sessions ==>
                  (Delivered(t.b.events, c) == DataOn(t.a.log, c) <==> AllAdmitted(t.b, t.a, c)))
  {
    InitOk(s, c);
    RunKeepsStream(s, steps, c);
    RunKeepsNodes(s, steps);
    var t := Run(s, steps);
    if c in t.a.core.sessions { CompleteExactly(t.a, t.b, c); }
    if c in t.b.core.sessions { CompleteExactly(t.b, t.a, c); }
  }

  // ---------------------------------------------------------------- RESETs do not echo

  /** Frames of `y` that could still provoke a RESET from `x`: not a RESET, and not yet admitted. */
  function Provoking(x: Node, y: Node): int {
    Total(y.log, SealedNonReset()) - Weight(y.log, x.accepted, SealedNonReset())
  }

  /** The RESETs `x` sent by itself are paid for by distinct frames of `y` it admitted. */
  ghost predicate ResetsPaid(x: Node, y: Node) {
    Total(x.log, Automatic()) <= Weight(y.log, x.accepted, SealedNonReset())
  }

  lemma CallPaysResets(x: Node, y: Node, cid: Bytes32, op: AppOp, now: u64, expiresAt: u64, isSealed: bool)
    requires x.core.sendCounter == |x.log| < U64_MAX && (forall i :: i in y.accepted ==> i < |x.log|)
    requires ResetsPaid(x, y) && ResetsPaid(y, x)
    ensures var x' := DoCall(x, cid, op, now, expiresAt, isSealed); ResetsPaid(x', y) && ResetsPaid(y, x')
  {
    CallShape(x, cid, op, now, expiresAt, isSealed);
    var x' := DoCall(x, cid, op, now, expiresAt, isSealed);
    if x'.log != x.log {
      TotalSnoc(x.log, x'.log[|x.log|], Automatic());
      WeightSnoc(x.log, x'.log[|x.log|], y.accepted, SealedNonReset());
    }
  }

  /** A delivery that logs a RESET uses up one provoking frame, and a RESET provokes nothing. */
  lemma {:induction false} ReceivePaysResets(x: Node, y: Node, key: SenderKey, i: u64, now: u64, victim: SenderKey,
                                             isSealed: bool)
    requires NodeOk(x, y, key) && |x.log| < U64_MAX && i < |y.log| && y.log[i].isSealed
    requires forall j :: j in y.accepted ==> j < |x.log|
    requires ResetsPaid(x, y) && ResetsPaid(y, x)
    ensures var x' := DoReceive(x, key, y.log[i].frame, i, now, victim, isSealed);
            && ResetsPaid(x', y) && ResetsPaid(y, x')
            && Provoking(y, x') == Provoking(y, x)
            && Provoking(x', y) + |x'.log| <= Provoking(x, y) + |x.log|
  {
    var f := y.log[i].frame;
    var x' := DoReceive(x, key, f, i, now, victim, isSealed);
    ReceiveShape(x, key, f, i, now, victim, isSealed);
    ScreenRefines(x, key, f, i, now, victim);
    if x'.accepted != x.accepted {
      WeightPick(y.log, x.accepted, i, SealedNonReset());
    }
    if x'.log != x.log {
      var e := ResetEntry(f.cid, now, isSealed);
      TotalSnoc(x.log, e, Automatic());
      TotalSnoc(x.log, e, SealedNonReset());
      WeightSnoc(x.log, e, y.accepted, SealedNonReset());
    }
  }

  lemma {:induction false} ActPaysResets(x: Node, y: Node, kx: SenderKey, ky: SenderKey, action: Action)
    requires NodeOk(x, y, ky) && NodeOk(y, x, kx) && |x.log| < U64_MAX
    requires ResetsPaid(x, y) && ResetsPaid(y, x)
    ensures var x' := Act(x, y, ky, action);
            && ResetsPaid(x', y) && ResetsPaid(y, x')
            && (!action.Call? ==>
                  && Provoking(y, x') == Provoking(y, x)
                  && Provoking(x', y) + |x'.log| <= Provoking(x, y) + |x.log|)
  {
    match action {
      case Call(cid, op, now, expiresAt, isSealed) => CallPaysResets(x, y, cid, op, now, expiresAt, isSealed);
      case Receive(i, now, victim, isSealed) =>
        if i < |y.log| && y.log[i].isSealed { ReceivePaysResets(x, y, ky, i, now, victim, isSealed); }
      case Foreign(other, counter, timestamp, now, victim) =>
    }
  }

  ghost predicate AllPaid(s: Sys) {
    ResetsPaid(s.a, s.b) && ResetsPaid(s.b, s.a)
  }

  function AllProvoking(s: Sys): int {
    Provoking(s.a, s.b) + Provoking(s.b, s.a)
  }

  function Frames(s: Sys): nat {
    |s.a.log| + |s.b.log|
  }

  lemma {:induction false} RunPaysResets(s: Sys, steps: seq<Step>)
    requires NodesOk(s) && AllPaid(s) && LegalRun(s, steps)
    ensures AllPaid(Run(s, steps))
    ensures (forall n :: 0 <= n < |steps| ==> !steps[n].action.Call?) ==>
              AllProvoking(Run(s, steps)) + Frames(Run(s, steps)) <= AllProvoking(s) + Frames(s)
  {
    if steps != [] {
      var init, last := steps[..|steps| - 1], steps[|steps| - 1];
      LegalPrefix(s, steps);
      RunPaysResets(s, init);
      RunKeepsNodes(s, init);
      var t := Run(s, init);
      match last.side {
        case A => ActPaysResets(t.a, t.b, t.keyA, t.keyB, last.action);
        case B => ActPaysResets(t.b, t.a, t.keyB, t.keyA, last.action);
      }
    }
  }

  /** In any run the RESETs an endpoint emits by itself are at most the non-RESET frames its peer sealed. */
  lemma {:induction false} ResetsBounded(s: Sys, steps: seq<Step>)
    requires Initial(s) && LegalRun(s, steps)
    ensures var t := Run(s, steps);
            && Total(t.a.log, Automatic()) <= Total(t.b.log, SealedNonReset())
            && Total(t.b.log, Automatic()) <= Total(t.a.log, SealedNonReset())
  {
    var zero: Bytes32 := seq(32, _ => 0);
    InitOk(s, zero);
    RunPaysResets(s, steps);
    var t := Run(s, steps);
    WeightAtMostTotal(t.b.log, t.a.accepted, SealedNonReset());
    WeightAtMostTotal(t.a.log, t.b.accepted, SealedNonReset());
  }

  /**
   Once both applications stop calling, at most as many frames are ever produced as sealed non-RESET
   frames were still unadmitted at that moment, however the network behaves.
   */
  lemma {:induction false} ReflectionTerminates(s: Sys, before: seq<Step>, after: seq<Step>)
    requires Initial(s) && LegalRun(s, before) && LegalRun(Run(s, before), after)
    requires forall n :: 0 <= n < |after| ==> !after[n].action.Call?
    ensures var t := Run(s, before);
            0 <= Frames(Run(t, after)) - Frames(t) <= AllProvoking(t)
  {
    var zero: Bytes32 := seq(32, _ => 0);
    InitOk(s, zero);
    RunPaysResets(s, before);
    RunKeepsNodes(s, before);
    var t := Run(s, before);
    RunPaysResets(t, after);
    var u := Run(t, after);
    WeightAtMostTotal(u.b.log, u.a.accepted, SealedNonReset());
    WeightAtMostTotal(u.a.log, u.b.accepted, SealedNonReset());
    LogsGrow(t, after);
  }

  lemma {:induction false} LogsGrow(s: Sys, steps: seq<Step>)
    requires NodesOk(s) && LegalRun(s, steps)
    ensures Frames(s) <= Frames(Run(s, steps))
  {
    if steps != [] {
      LegalPrefix(s, steps);
      LogsGrow(s, steps[..|steps| - 1]);
      var t, last := Run(s, steps[..|steps| - 1]), steps[|steps| - 1];
      RunKeepsNodes(s, steps[..|steps| - 1]);
      match last.side {
        case A => LogGrows(t.a, t.b, t.keyB, last.action);
        case B => LogGrows(t.b, t.a, t.keyA, last.action);
      }
    }
  }

  lemma LogGrows(x: Node, y: Node, key: SenderKey, action: Action)
    requires x.core.sendCounter == |x.log| < U64_MAX
    ensures |x.log| <= |Act(x, y, key, action).log|
  {
    match action {
      case Call(cid, op, now, expiresAt, isSealed) => CallShape(x, cid, op, now, expiresAt, isSealed);
      case Receive(i, now, victim, isSealed) =>
        if i < |y.log| && i <= U64_MAX && y.log[i].isSealed {
          ReceiveShape(x, key, y.log[i].frame, i, now, victim, isSealed);
        }
      case Foreign(other, counter, timestamp, now, victim) =>
    }
  }
}
