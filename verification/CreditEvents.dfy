/**
 The credit an application is told of, over a network that loses, repeats and reorders: while its
 session on a stream lives, the `CreditGranted` amounts it was given sum to the windows of exactly
 the CREDIT frames its side admitted.
 */
module CreditEvents {
  import opened Types
  import opened ReplayGuard
  import opened Session
  import opened Endpoint
  import opened Network
  import opened Lossy

  /** The credit announced to the application on stream `c`. */
  function Announced(events: seq<(Bytes32, StreamEvent)>, c: Bytes32): nat {
    if events == [] then 0
    else
      var (cid, event) := events[|events| - 1];
      Announced(events[..|events| - 1], c) + (if cid == c && event.CreditGranted? then event.n else 0)
  }

  /** The window of a sealed CREDIT frame on stream `c`. */
  function CreditOn(c: Bytes32): Entry -> nat {
    (e: Entry) => if e.isSealed && e.frame.cid == c && e.frame.kind.Credit? then e.frame.hdr.window else 0
  }

  lemma AnnouncedSnoc(events: seq<(Bytes32, StreamEvent)>, cid: Bytes32, event: StreamEvent, c: Bytes32)
    ensures Announced(events + [(cid, event)], c)
            == Announced(events, c) + (if cid == c && event.CreditGranted? then event.n else 0)
  {
    assert (events + [(cid, event)])[..|events|] == events;
  }

  /** Only DATA carries a payload. */
  predicate Bare(e: Entry) {
    e.frame.kind.Data? || e.frame.payload == []
  }

  ghost predicate NoCreditLogged(log: seq<Entry>, c: Bytes32) {
    forall i :: 0 <= i < |log| ==> !(log[i].frame.cid == c && log[i].frame.kind.Credit?)
  }

  ghost predicate CreditInv(x: Node, y: Node, c: Bytes32) {
    && (forall i :: 0 <= i < |x.log| ==> Bare(x.log[i]))
    && (c in x.core.sessions ==>
          var s := x.core.sessions[c];
          && Announced(x.events, c) == Weight(y.log, x.accepted, CreditOn(c))
          && (s.role.Responder? || s.handshake.Established? ==> !Untouched(y.log, c))
          && (s.role.Initiator? || s.handshake.Established? ==> !Untouched(x.log, c)))
    && (Untouched(y.log, c) ==> NoCreditLogged(x.log, c))
    && (Untouched(x.log, c) ==> Announced(x.events, c) == 0)
  }

  lemma {:induction false} NoCreditWeight(log: seq<Entry>, picked: set<u64>, c: Bytes32)
    requires NoCreditLogged(log, c)
    ensures Weight(log, picked, CreditOn(c)) == 0
  {
    if log != [] { NoCreditWeight(log[..|log| - 1], picked, c); }
  }

  // ---------------------------------------------------------------- the log of one side grows

  /** `y` is not disturbed by one more frame of `x`. */
  lemma {:induction false} PeerLogged(x: Node, y: Node, x': Node, e: Entry, c: Bytes32)
    requires CreditInv(y, x, c) && x'.log == x.log + [e] && (forall i :: i in y.accepted ==> i < |x.log|)
    ensures CreditInv(y, x', c)
  {
    WeightSnoc(x.log, e, y.accepted, CreditOn(c));
    UntouchedSnoc(x.log, e, c);
  }

  /** `x` itself logs a frame, which may end its session but not begin one. */
  lemma {:induction false} OwnLogged(x: Node, y: Node, x': Node, e: Entry, c: Bytes32)
    requires CreditInv(x, y, c) && x'.log == x.log + [e] && Bare(e)
    requires x'.events == x.events && x'.accepted == x.accepted
    requires e.frame.cid == c && e.frame.kind.Credit? ==>
               c in x.core.sessions && x.core.sessions[c].handshake.Established?
    requires c in x'.core.sessions ==>
               && c in x.core.sessions && x'.core.sessions[c].role == x.core.sessions[c].role
               && (x'.core.sessions[c].handshake == x.core.sessions[c].handshake
                   || (e.frame.cid == c && x.core.sessions[c].role.Responder?))
    ensures CreditInv(x', y, c)
  {
    UntouchedSnoc(x.log, e, c);
  }

  lemma {:induction false} InitiatorLogged(x: Node, y: Node, x': Node, e: Entry, w: u32, c: Bytes32)
    requires CreditInv(x, y, c) && CreditInv(y, x, c) && Untouched(x.log, c) && Untouched(y.log, c)
    requires x'.log == x.log + [e] && Bare(e) && e.frame.cid == c && e.frame.kind.Open?
    requires x'.events == x.events && x'.accepted == x.accepted
    requires Get(x'.core.sessions, c) == Some(NewInitiator(w))
    ensures CreditInv(x', y, c)
  {
    UntouchedSnoc(x.log, e, c);
    NoCreditWeight(y.log, x.accepted, c);
  }

  /** What a call builds, as far as credit goes. */
  lemma BuildKeepsRole(s: Session, op: AppOp)
    requires Build(s, op).1.Ok?
    ensures var (s', r) := Build(s, op);
            && s'.role == s.role && (s'.handshake == s.handshake || s.role.Responder?)
            && (KindOfHeader(r.value).Credit? ==> s.handshake.Established?)
            && (KindOfHeader(r.value).Data? || PayloadOf(op) == [])
  {}

  lemma {:induction false} CallCredits(x: Node, y: Node, cid: Bytes32, op: AppOp, now: u64, expiresAt: u64,
                                       isSealed: bool, c: Bytes32)
    requires x.core.sendCounter == |x.log| < U64_MAX && (forall i :: i in y.accepted ==> i < |x.log|)
    requires cid == c && op.AppOpen? ==> Untouched(x.log, c) && Untouched(y.log, c)
    requires CreditInv(x, y, c) && CreditInv(y, x, c)
    ensures var x' := DoCall(x, cid, op, now, expiresAt, isSealed); CreditInv(x', y, c) && CreditInv(y, x', c)
  {
    var x' := DoCall(x, cid, op, now, expiresAt, isSealed);
    CallShape(x, cid, op, now, expiresAt, isSealed);
    CallEntry(x, cid, op, now, expiresAt, isSealed);
    var (slot, r) := SlotApp(Get(x.core.sessions, cid), Full(x.core), x.core.cap, op, isSealed);
    if r.Ok? {
      PeerLogged(x, y, x', x'.log[|x.log|], c);
      if cid == c && c !in x.core.sessions {
        InitiatorLogged(x, y, x', x'.log[|x.log|], op.recvWindow, c);
      } else {
        OwnLogged(x, y, x', x'.log[|x.log|], c);
      }
    }
  }

  /** The session and the log entry a call leaves. */
  lemma {:induction false} CallEntry(x: Node, cid: Bytes32, op: AppOp, now: u64, expiresAt: u64, isSealed: bool)
    requires x.core.sendCounter == |x.log| < U64_MAX
    ensures var x' := DoCall(x, cid, op, now, expiresAt, isSealed);
            var (slot, r) := SlotApp(Get(x.core.sessions, cid), Full(x.core), x.core.cap, op, isSealed);
            && (forall c :: c != cid ==> Get(x'.core.sessions, c) == Get(x.core.sessions, c))
            && (r.Err? ==> x'.core.sessions == x.core.sessions && x'.log == x.log)
            && (r.Ok? ==>
                  && Get(x'.core.sessions, cid) == slot
                  && |x'.log| == |x.log| + 1 && x'.log == x.log + [x'.log[|x.log|]]
                  && var e := x'.log[|x.log|];
                     && e.frame.cid == cid && Bare(e)
                     && (cid !in x.core.sessions ==> slot == Some(NewInitiator(op.recvWindow)) && e.frame.kind.Open?)
                     && (cid in x.core.sessions ==>
                           var s := x.core.sessions[cid];
                           && (e.frame.kind.Credit? ==> s.handshake.Established?)
                           && (slot.Some? ==>
                                 slot.value.role == s.role
                                 && (slot.value.handshake == s.handshake || s.role.Responder?))))
  {
    var (slot, r) := SlotApp(Get(x.core.sessions, cid), Full(x.core), x.core.cap, op, isSealed);
    PutSame(x.core.sessions, cid);
    if r.Ok? && cid in x.core.sessions { BuildKeepsRole(x.core.sessions[cid], op); }
  }

  // ---------------------------------------------------------------- a frame arrives

  /** `x` admitted frame `i` without a session coming of it, or without the session noticing. */
  lemma {:induction false} UnnoticedCredits(x: Node, y: Node, x': Node, i: u64, c: Bytes32)
    requires CreditInv(x, y, c) && i < |y.log| && i !in x.accepted && x'.accepted == x.accepted + {i}
    requires x'.log == x.log && Announced(x'.events, c) == Announced(x.events, c)
    requires Get(x'.core.sessions, c) == Get(x.core.sessions, c) || Get(x'.core.sessions, c).None?
    requires c in x'.core.sessions ==> CreditOn(c)(y.log[i]) == 0
    ensures CreditInv(x', y, c)
  {
    WeightPick(y.log, x.accepted, i, CreditOn(c));
  }

  lemma {:induction false} ResponderCredits(x: Node, y: Node, x': Node, i: u64, w: u32, c: Bytes32)
    requires CreditInv(x, y, c) && CreditInv(y, x, c) && Untouched(x.log, c)
    requires i < |y.log| && IsOpen(y.log[i], c) && x'.accepted == x.accepted + {i}
    requires x'.log == x.log && x'.events == x.events + [(c, StreamOpened)]
    requires Get(x'.core.sessions, c) == Some(NewResponder(w))
    ensures CreditInv(x', y, c)
  {
    AnnouncedSnoc(x.events, c, StreamOpened, c);
    NoCreditWeight(y.log, x'.accepted, c);
    assert !Untouched(y.log, c);
  }

  /** What an accepted frame does to a session and tells the application, as far as credit goes. */
  lemma AcceptedCredit(s: Session, f: Frame, full: bool, cap: nat)
    requires !f.kind.Open?
    ensures var (slot, reaction) := SlotRecv(Some(s), full, cap, f.kind, f.hdr, f.payload);
            && (slot.Some? ==> slot.value.role == s.role && reaction.Deliver?
                               && (slot.value.handshake == s.handshake || s.role.Initiator?))
            && (reaction.Deliver? ==>
                  && (f.kind.Credit? ==> reaction.event == CreditGranted(f.hdr.window) && s.handshake.Established?)
                  && (!f.kind.Credit? ==> !reaction.event.CreditGranted?))
  {}

  lemma {:induction false} SessionCredits(x: Node, y: Node, x': Node, i: u64, full: bool, cap: nat, c: Bytes32)
    requires CreditInv(x, y, c) && c in x.core.sessions
    requires i < |y.log| && i !in x.accepted && x'.accepted == x.accepted + {i}
    requires y.log[i].isSealed && y.log[i].frame.cid == c && !y.log[i].frame.kind.Open? && x'.log == x.log
    requires var f := y.log[i].frame;
             var (slot, reaction) := SlotRecv(Some(x.core.sessions[c]), full, cap, f.kind, f.hdr, f.payload);
             && reaction.Deliver? && Get(x'.core.sessions, c) == slot && x'.events == x.events + [(c, reaction.event)]
    ensures CreditInv(x', y, c)
  {
    var f := y.log[i].frame;
    var reaction := SlotRecv(Some(x.core.sessions[c]), full, cap, f.kind, f.hdr, f.payload).1;
    AcceptedCredit(x.core.sessions[c], f, full, cap);
    AnnouncedSnoc(x.events, c, reaction.event, c);
    WeightPick(y.log, x.accepted, i, CreditOn(c));
    assert !Untouched(y.log, c);
  }

  lemma {:induction false} ArrivedCredits(x: Node, y: Node, x': Node, i: u64, reset: Entry, c: Bytes32)
    requires OpenedOnce(x, y, c) && CreditInv(x, y, c) && CreditInv(y, x, c)
    requires i < |y.log| && i !in x.accepted && y.log[i].isSealed && Arrived(x, y, x', i, reset, c)
    requires reset.frame.kind.Reset? && reset.frame.payload == [] && (forall j :: j in y.accepted ==> j < |x.log|)
    ensures CreditInv(x', y, c) && CreditInv(y, x', c)
  {
    var f, q := y.log[i].frame, Get(x.core.sessions, c);
    match SlotRecv(q, Full(x.core), x.core.cap, f.kind, f.hdr, f.payload).1 {
      case Deliver(event) =>
        if q.None? {
          assert IsOpen(y.log[i], c) && Clean(x, c);
          ResponderCredits(x, y, x', i, f.hdr.window, c);
        } else if f.kind.Reset? {
          AnnouncedSnoc(x.events, c, event, c);
          UnnoticedCredits(x, y, x', i, c);
        } else {
          SessionCredits(x, y, x', i, Full(x.core), x.core.cap, c);
        }
      case Ignore(_) => UnnoticedCredits(x, y, x', i, c);
      case Abort(_) => AbortCredits(x, y, x', i, reset, c);
    }
  }

  lemma {:induction false} TakenCredits(x: Node, y: Node, t: Table, i: u64, now: u64, isSealed: bool, c: Bytes32)
    requires OpenedOnce(x, y, c) && CreditInv(x, y, c) && CreditInv(y, x, c)
    requires i < |y.log| && i !in x.accepted && y.log[i].isSealed && y.log[i].frame.cid == c
    requires forall j :: j in y.accepted ==> j < |x.log|
    ensures var x' := TakeIn(x, t, y.log[i].frame, i, now, isSealed); CreditInv(x', y, c) && CreditInv(y, x', c)
  {
    TakeInArrives(x, y, t, i, now, isSealed, c);
    ArrivedCredits(x, y, TakeIn(x, t, y.log[i].frame, i, now, isSealed), i, ResetEntry(c, now, isSealed), c);
  }

  lemma {:induction false} AbortCredits(x: Node, y: Node, x': Node, i: u64, e: Entry, c: Bytes32)
    requires CreditInv(x, y, c) && CreditInv(y, x, c) && i < |y.log| && i !in x.accepted
    requires forall j :: j in y.accepted ==> j < |x.log|
    requires x'.accepted == x.accepted + {i} && x'.events == x.events && x'.log == x.log + [e]
    requires e.frame.kind.Reset? && e.frame.payload == [] && c !in x'.core.sessions
    ensures CreditInv(x', y, c) && CreditInv(y, x', c)
  {
    var x1 := x'.(log := x.log);
    UnnoticedCredits(x, y, x1, i, c);
    OwnLogged(x1, y, x', e, c);
    PeerLogged(x, y, x', e, c);
  }

  /** Events, log and sessions of `c` are as they were; what was admitted besides is of other streams. */
  lemma {:induction false} OffStreamCredits(x: Node, x': Node, y: Node, c: Bytes32)
    requires CreditInv(x, y, c) && CreditInv(y, x, c) && OffStream(x, x', y, c)
    requires Announced(x'.events, c) == Announced(x.events, c)
    requires x'.log != x.log ==> Bare(x'.log[|x.log|])
    requires forall i :: i in y.accepted ==> i < |x.log|
    ensures CreditInv(x', y, c) && CreditInv(y, x', c)
  {
    WeightOff(y.log, x.accepted, x'.accepted, CreditOn(c));
    if x'.log != x.log {
      var e := x'.log[|x.log|];
      assert x'.log == x.log + [e];
      PeerLogged(x, y, x', e, c);
      UntouchedSnoc(x.log, e, c);
    }
  }

  lemma {:induction false} TakenElsewhere(x: Node, y: Node, t: Table, i: u64, now: u64, isSealed: bool, c: Bytes32)
    requires CreditInv(x, y, c) && CreditInv(y, x, c) && x.core.sendCounter == |x.log| < U64_MAX
    requires i < |y.log| && y.log[i].frame.cid != c
    requires forall j :: j in y.accepted ==> j < |x.log|
    ensures var x' := TakeIn(x, t, y.log[i].frame, i, now, isSealed); CreditInv(x', y, c) && CreditInv(y, x', c)
  {
    var f := y.log[i].frame;
    var reaction := Dispatch(x.core.(guard := t), f.cid, f.kind, f.hdr, f.payload).1;
    TakeInElsewhere(x, y, t, i, now, isSealed, c);
    TakeInByReaction(x, t, f, i, now, isSealed);
    if reaction.Deliver? { AnnouncedSnoc(x.events, f.cid, reaction.event, c); }
    OffStreamCredits(x, TakeIn(x, t, f, i, now, isSealed), y, c);
  }

  lemma {:induction false} ReceiveCredits(x: Node, y: Node, key: SenderKey, i: u64, now: u64, victim: SenderKey,
                                          isSealed: bool, c: Bytes32)
    requires NodeOk(x, y, key) && |x.log| < U64_MAX && OpenedOnce(x, y, c) && CreditInv(x, y, c) && CreditInv(y, x, c)
    requires i < |y.log| && y.log[i].isSealed && (forall j :: j in y.accepted ==> j < |x.log|)
    ensures var x' := DoReceive(x, key, y.log[i].frame, i, now, victim, isSealed);
            CreditInv(x', y, c) && CreditInv(y, x', c)
  {
    var f := y.log[i].frame;
    ScreenRefines(x, key, f, i, now, victim);
    var (t, verdict) := Screen(x.core.guard, key, f, i, now, victim);
    match verdict {
      case Refused =>
      case Swallowed =>
        assert Bare(y.log[i]);
        UnnoticedCredits(x, y, DoReceive(x, key, f, i, now, victim, isSealed), i, c);
      case Through =>
        if f.cid == c {
          TakenCredits(x, y, t, i, now, isSealed, c);
        } else {
          TakenElsewhere(x, y, t, i, now, isSealed, c);
        }
    }
  }

  // ---------------------------------------------------------------- runs

  lemma {:induction false} ActCredits(x: Node, y: Node, kx: SenderKey, ky: SenderKey, action: Action, c: Bytes32)
    requires PairInv(x, y, c) && NodeOk(x, y, ky) && NodeOk(y, x, kx)
    requires |x.log| < U64_MAX && FreshFor(x, y, action, c) && CreditInv(x, y, c) && CreditInv(y, x, c)
    ensures var x' := Act(x, y, ky, action); CreditInv(x', y, c) && CreditInv(y, x', c)
  {
    match action {
      case Call(cid, op, now, expiresAt, isSealed) => CallCredits(x, y, cid, op, now, expiresAt, isSealed, c);
      case Receive(i, now, victim, isSealed) =>
        if i < |y.log| && y.log[i].isSealed { ReceiveCredits(x, y, ky, i, now, victim, isSealed, c); }
      case Foreign(other, counter, timestamp, now, victim) =>
    }
  }

  lemma {:induction false} RunCredits(s: Sys, steps: seq<Step>, c: Bytes32)
    requires Initial(s) && LegalRun(s, steps) && UsedOnce(s, steps, c)
    ensures CreditInv(Run(s, steps).a, Run(s, steps).b, c) && CreditInv(Run(s, steps).b, Run(s, steps).a, c)
  {
    if steps != [] {
      var init, last := steps[..|steps| - 1], steps[|steps| - 1];
      LegalPrefix(s, steps);
      UsedOncePrefix(s, steps, c);
      RunCredits(s, init, c);
      InitOk(s, c);
      RunKeepsNodes(s, init);
      RunKeepsStream(s, init, c);
      var t := Run(s, init);
      match last.side {
        case A => ActCredits(t.a, t.b, t.keyA, t.keyB, last.action, c);
        case B => ActCredits(t.b, t.a, t.keyB, t.keyA, last.action, c);
      }
    }
  }

  /** While a session lives, the credit announced on it is the credit of exactly the CREDIT frames admitted. */
  lemma {:induction false} AnnouncedIsAdmitted(s: Sys, steps: seq<Step>, c: Bytes32)
    requires Initial(s) && LegalRun(s, steps) && UsedOnce(s, steps, c)
    ensures var t := Run(s, steps);
            && (c in t.a.core.sessions ==> Announced(t.a.events, c) == Weight(t.b.log, t.a.accepted, CreditOn(c)))
            && (c in t.b.core.sessions ==> Announced(t.b.events, c) == Weight(t.a.log, t.b.accepted, CreditOn(c)))
  {
    RunCredits(s, steps, c);
  }
}
