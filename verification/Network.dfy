/**
 Two endpoints and the frames between them.  Each node keeps a log of every frame it sealed, whose
 position is the frame's counter; a delivery may pick any logged frame at any time, any number of
 times, so the network loses, repeats and reorders at will.  History fields record what happened.
 */
module Network {
  import opened Types
  import opened Envelope
  import opened ReplayWindow
  import opened ReplayGuard
  import opened Seal
  import opened Endpoint

  datatype Frame = Frame(
    cid: Bytes32,
    kind: FrameKind,
    hdr: StreamHeader,
    payload: Bytes,
    timestamp: u64,
    expiresAt: u64)

  /** A logged frame: whether sealing it succeeded, and whether `accept` produced it by itself. */
  datatype Entry = Entry(frame: Frame, isSealed: bool, automatic: bool)

  datatype Node = Node(
    core: Core,
    log: seq<Entry>,                        // every frame this side stamped, by counter
    accepted: set<u64>,                     // the peer counters this side's guard admitted
    events: seq<(Bytes32, StreamEvent)>,    // the events delivered to the application
    cursor: nat)                            // one past the last frame handed over

  function NewNode(cap: nat): Node {
    Node(Core(map[], 0, cap, map[]), [], {}, [], 0)
  }

  datatype Action =
    | Call(cid: Bytes32, op: AppOp, now: u64, expiresAt: u64, isSealed: bool)
    | Receive(index: nat, now: u64, victim: SenderKey, isSealed: bool)
    | Foreign(key: SenderKey, counter: u64, timestamp: u64, now: u64, victim: SenderKey)

  function KindOfHeader(hdr: StreamHeader): FrameKind {
    match KindOfByte(hdr.frame)
    case Some(k) => k
    case None => FrameKind.Reset
  }

  function DoCall(x: Node, cid: Bytes32, op: AppOp, now: u64, expiresAt: u64, isSealed: bool): Node {
    var (core, r) := App(x.core, cid, op, isSealed);
    match r
    case Err(_) => x.(core := core)
    case Ok(hdr) =>
      var f := Frame(cid, KindOfHeader(hdr), hdr, PayloadOf(op), now, expiresAt);
      x.(core := core, log := x.log + [Entry(f, isSealed, false)])
  }

  /** How far a genuine frame gets: turned away by expiry or guard, lost to the size cap, or through. */
  datatype Verdict = Refused | Swallowed | Through

  function Screen(t: Table, key: SenderKey, f: Frame, counter: u64, now: u64, victim: SenderKey): (Table, Verdict) {
    if CheckExpiry(f.timestamp, f.expiresAt, now).Some? then (t, Refused)
    else
      var (t', ok) := GuardStep(t, key, counter, f.timestamp, now, victim);
      if !ok then (t', Refused)
      else if |f.payload| > MAX_DECOMPRESSED_BYTES then (t', Swallowed)
      else (t', Through)
  }

  predicate Timely(f: Frame, now: u64) {
    CheckExpiry(f.timestamp, f.expiresAt, now).None? && Fresh(f.timestamp, now)
  }

  function ResetEntry(cid: Bytes32, now: u64, isSealed: bool): Entry {
    Entry(Frame(cid, FrameKind.Reset, RESET_HEADER, [], now, 0), isSealed, true)
  }

  /** The receiving node once the guard has let the frame through. */
  function TakeIn(x: Node, t: Table, f: Frame, i: u64, now: u64, isSealed: bool): Node {
    var x1 := x.(core := x.core.(guard := t), cursor := i + 1, accepted := x.accepted + {i});
    var (core, reaction) := Dispatch(x1.core, f.cid, f.kind, f.hdr, f.payload);
    match reaction
    case Deliver(event) => x1.(core := core, events := x.events + [(f.cid, event)])
    case Ignore(_) => x1.(core := core)
    case Abort(_) => x1.(core := core, log := x.log + [ResetEntry(f.cid, now, isSealed)])
  }

  /** Node `x` is handed the peer's frame number `i`. */
  function DoReceive(x: Node, key: SenderKey, f: Frame, i: u64, now: u64, victim: SenderKey, isSealed: bool): Node {
    var (t, verdict) := Screen(x.core.guard, key, f, i, now, victim);
    match verdict
    case Refused => x.(core := x.core.(guard := t), cursor := i + 1)
    case Swallowed => x.(core := x.core.(guard := t), cursor := i + 1, accepted := x.accepted + {i})
    case Through => TakeIn(x, t, f, i, now, isSealed)
  }

  /** The acting node after an action; `key` identifies the peer `y` in `x`'s guard. */
  function Act(x: Node, y: Node, key: SenderKey, action: Action): Node {
    match action
    case Call(cid, op, now, expiresAt, isSealed) => DoCall(x, cid, op, now, expiresAt, isSealed)
    case Receive(i, now, victim, isSealed) =>
      if i < |y.log| && i <= U64_MAX && y.log[i].isSealed
      then DoReceive(x, key, y.log[i].frame, i, now, victim, isSealed)
      else x
    case Foreign(other, counter, timestamp, now, victim) =>
      x.(core := x.core.(guard := GuardStep(x.core.guard, other, counter, timestamp, now, victim).0))
  }

  // ---------------------------------------------------------------- systems and runs

  datatype Side = A | B
  datatype Step = Step(side: Side, action: Action)

  function Other(side: Side): Side {
    if side.A? then B else A
  }

  datatype Sys = Sys(a: Node, b: Node, keyA: SenderKey, keyB: SenderKey)

  function Init(capA: nat, capB: nat, keyA: SenderKey, keyB: SenderKey): Sys {
    Sys(NewNode(capA), NewNode(capB), keyA, keyB)
  }

  predicate Initial(s: Sys) {
    s == Init(s.a.core.cap, s.b.core.cap, s.keyA, s.keyB)
  }

  function Next(s: Sys, step: Step): Sys {
    match step.side
    case A => s.(a := Act(s.a, s.b, s.keyB, step.action))
    case B => s.(b := Act(s.b, s.a, s.keyA, step.action))
  }

  function Run(s: Sys, steps: seq<Step>): Sys {
    if steps == [] then s else Next(Run(s, steps[..|steps| - 1]), steps[|steps| - 1])
  }

  lemma RunSnoc(s: Sys, steps: seq<Step>, step: Step)
    ensures Run(s, steps + [step]) == Next(Run(s, steps), step)
  {
    assert (steps + [step])[..|steps|] == steps;
  }

  lemma AppendStep(s: Sys, steps: seq<Step>, init: seq<Step>, last: Step)
    requires Run(s, steps + init) == Run(Run(s, steps), init)
    ensures Run(s, steps + init + [last]) == Run(Run(s, steps), init + [last])
  {
    RunSnoc(s, steps + init, last);
    RunSnoc(Run(s, steps), init, last);
  }

  lemma {:induction false} RunAppend(s: Sys, steps: seq<Step>, more: seq<Step>)
    ensures Run(s, steps + more) == Run(Run(s, steps), more)
  {
    if more == [] {
      assert steps + more == steps;
    } else {
      var init, last := more[..|more| - 1], more[|more| - 1];
      assert init + [last] == more && steps + init + [last] == steps + more;
      RunAppend(s, steps, init);
      AppendStep(s, steps, init, last);
    }
  }

  // ---------------------------------------------------------------- reading the histories

  predicate IsOpen(e: Entry, c: Bytes32) {
    e.frame.cid == c && e.frame.kind.Open?
  }

  predicate IsData(e: Entry, c: Bytes32) {
    e.frame.cid == c && e.frame.kind.Data?
  }

  /** No frame of the log names stream `c`. */
  ghost predicate Untouched(log: seq<Entry>, c: Bytes32) {
    forall i :: 0 <= i < |log| ==> log[i].frame.cid != c
  }

  /** The payloads `send_data` stamped on stream `c`, in order. */
  function DataOn(log: seq<Entry>, c: Bytes32): seq<Bytes> {
    if log == [] then []
    else
      var last := log[|log| - 1];
      DataOn(log[..|log| - 1], c) + (if IsData(last, c) then [last.frame.payload] else [])
  }

  /** The payloads delivered to the application on stream `c`, in order. */
  function Delivered(events: seq<(Bytes32, StreamEvent)>, c: Bytes32): seq<Bytes> {
    if events == [] then []
    else
      var (cid, event) := events[|events| - 1];
      Delivered(events[..|events| - 1], c) + (if cid == c && event.DataDelivered? then [event.payload] else [])
  }

  /** The sum of `f` over the entries of a log whose counters are in `picked`. */
  function Weight(log: seq<Entry>, picked: set<u64>, f: Entry -> nat): nat {
    if log == [] then 0
    else
      var n := |log| - 1;
      Weight(log[..n], picked, f) + (if n <= U64_MAX && n in picked then f(log[n]) else 0)
  }

  function Total(log: seq<Entry>, f: Entry -> nat): nat {
    if log == [] then 0 else Total(log[..|log| - 1], f) + f(log[|log| - 1])
  }

  /** The credit a sealed frame grants the peer on stream `c`. */
  function GrantOn(c: Bytes32): Entry -> nat {
    (e: Entry) =>
      if e.isSealed && e.frame.cid == c && (e.frame.kind.Open? || e.frame.kind.OpenAck? || e.frame.kind.Credit?)
      then e.frame.hdr.window else 0
  }

  /** A DATA frame of stream `c` that the receiver can open: sealed and within the size cap. */
  predicate Deliverable(e: Entry, c: Bytes32) {
    e.isSealed && IsData(e, c) && |e.frame.payload| <= MAX_DECOMPRESSED_BYTES
  }

  function DataWeight(c: Bytes32): Entry -> nat {
    (e: Entry) => if Deliverable(e, c) then 1 else 0
  }

  function SealedNonReset(): Entry -> nat {
    (e: Entry) => if e.isSealed && !e.frame.kind.Reset? then 1 else 0
  }

  function Automatic(): Entry -> nat {
    (e: Entry) => if e.automatic then 1 else 0
  }

  lemma DataOnSnoc(log: seq<Entry>, e: Entry, c: Bytes32)
    ensures DataOn(log + [e], c) == DataOn(log, c) + (if IsData(e, c) then [e.frame.payload] else [])
  {
    assert (log + [e])[..|log|] == log;
  }

  lemma DeliveredSnoc(events: seq<(Bytes32, StreamEvent)>, cid: Bytes32, event: StreamEvent, c: Bytes32)
    ensures Delivered(events + [(cid, event)], c)
            == Delivered(events, c) + (if cid == c && event.DataDelivered? then [event.payload] else [])
  {
    assert (events + [(cid, event)])[..|events|] == events;
  }

  lemma TotalSnoc(log: seq<Entry>, e: Entry, f: Entry -> nat)
    ensures Total(log + [e], f) == Total(log, f) + f(e)
  {
    assert (log + [e])[..|log|] == log;
  }

  lemma WeightSnoc(log: seq<Entry>, e: Entry, picked: set<u64>, f: Entry -> nat)
    requires forall i :: i in picked ==> i < |log|
    ensures Weight(log + [e], picked, f) == Weight(log, picked, f)
  {
    assert (log + [e])[..|log|] == log;
  }

  /** Picking one more counter adds that entry's weight, once. */
  lemma {:induction false} WeightPick(log: seq<Entry>, picked: set<u64>, i: u64, f: Entry -> nat)
    requires i < |log| && i !in picked
    ensures Weight(log, picked + {i}, f) == Weight(log, picked, f) + f(log[i])
  {
    var n := |log| - 1;
    if i == n {
      WeightUnpicked(log[..n], picked, i, f);
    } else {
      WeightPick(log[..n], picked, i, f);
    }
  }

  lemma {:induction false} WeightUnpicked(log: seq<Entry>, picked: set<u64>, i: u64, f: Entry -> nat)
    requires i >= |log|
    ensures Weight(log, picked + {i}, f) == Weight(log, picked, f)
  {
    if log != [] { WeightUnpicked(log[..|log| - 1], picked, i, f); }
  }

  lemma {:induction false} WeightAtMostTotal(log: seq<Entry>, picked: set<u64>, f: Entry -> nat)
    ensures Weight(log, picked, f) <= Total(log, f)
  {
    if log != [] { WeightAtMostTotal(log[..|log| - 1], picked, f); }
  }

  lemma {:induction false} DataOnBound(log: seq<Entry>, c: Bytes32)
    ensures |DataOn(log, c)| <= |log|
  {
    if log != [] { DataOnBound(log[..|log| - 1], c); }
  }

  /** The admitted DATA frames are at most those stamped: all of them if each was deliverable and admitted. */
  lemma {:induction false} DataWeightBound(log: seq<Entry>, picked: set<u64>, c: Bytes32)
    requires |log| <= U64_MAX
    ensures Weight(log, picked, DataWeight(c)) <= |DataOn(log, c)|
    ensures Weight(log, picked, DataWeight(c)) == |DataOn(log, c)|
            <==> (forall i: u64 :: i < |log| && IsData(log[i], c) ==> Deliverable(log[i], c) && i in picked)
  {
    if log != [] {
      var init := log[..|log| - 1];
      DataWeightBound(init, picked, c);
      assert forall i: u64 :: i < |init| ==> init[i] == log[i];
    }
  }

  lemma {:induction false} DataOnUntouched(log: seq<Entry>, c: Bytes32)
    requires Untouched(log, c)
    ensures DataOn(log, c) == []
  {
    if log != [] { DataOnUntouched(log[..|log| - 1], c); }
  }

  // ---------------------------------------------------------------- what the guard contributes

  /** The node's guard has admitted exactly the peer counters in `accepted`, all of them logged. */
  ghost predicate NodeOk(x: Node, y: Node, key: SenderKey) {
    && x.core.sendCounter == |x.log| <= U64_MAX
    && (forall i :: i in x.accepted ==> i < |y.log|)
    && (if key in x.core.guard then Refines(x.core.guard[key], x.accepted) else x.accepted == {})
  }

  /** The one thing the model asks of evictions: they never hit the peer. */
  predicate SparesPeer(x: Node, key: SenderKey, action: Action) {
    match action
    case Call(_, _, _, _, _) => true
    case Receive(_, _, victim, _) => true
    case Foreign(other, _, timestamp, now, victim) =>
      other != key && (Evicts(x.core.guard, other, timestamp, now) ==> victim != key)
  }

  /** A frame gets past the screen only if its counter was never admitted before. */
  lemma {:induction false} ScreenRefines(x: Node, key: SenderKey, f: Frame, i: u64, now: u64, victim: SenderKey)
    requires if key in x.core.guard then Refines(x.core.guard[key], x.accepted) else x.accepted == {}
    ensures var (t, verdict) := Screen(x.core.guard, key, f, i, now, victim);
            && (verdict.Refused? ==> t == x.core.guard)
            && (!verdict.Refused? ==> i !in x.accepted && key in t && Refines(t[key], x.accepted + {i}))
  {
    if CheckExpiry(f.timestamp, f.expiresAt, now).None? && Fresh(f.timestamp, now) {
      var t1 := WithEntry(x.core.guard, key, victim);
      assert Refines(t1[key], x.accepted);
      AdmitRefines(t1[key], x.accepted, i);
      TouchRefines(t1[key], i, f.timestamp, x.accepted + {i});
      TouchStarts(t1[key], i, f.timestamp);
      if key in x.core.guard && !Touch(t1[key], i, f.timestamp).1 {
        assert x.core.guard[key := t1[key]] == x.core.guard;
      }
    }
  }

  lemma TouchRefines(w: Window, counter: u64, timestamp: u64, accepted: set<u64>)
    ensures Touch(w, counter, timestamp).1 == TryAdmit(w, counter).1
    ensures Refines(Touch(w, counter, timestamp).0, accepted) <==> Refines(TryAdmit(w, counter).0, accepted)
  {}

  lemma ForeignKeepsPeer(t: Table, key: SenderKey, other: SenderKey, counter: u64, timestamp: u64, now: u64,
                         victim: SenderKey)
    requires other != key && (Evicts(t, other, timestamp, now) ==> victim != key)
    ensures var t' := GuardStep(t, other, counter, timestamp, now, victim).0;
            (key in t' <==> key in t) && (key in t ==> t'[key] == t[key])
  {}

  /** The guard lets a timely frame through if its counter is new and no admitted one is 1024 or more ahead. */
  lemma {:induction false} AdmitsNew(x: Node, y: Node, key: SenderKey, f: Frame, i: u64, now: u64, victim: SenderKey)
    requires NodeOk(x, y, key) && Acceptable(x.accepted, i)
    requires Timely(f, now) && |f.payload| <= MAX_DECOMPRESSED_BYTES
    ensures Screen(x.core.guard, key, f, i, now, victim).1.Through?
  {
    var t1 := WithEntry(x.core.guard, key, victim);
    assert Refines(t1[key], x.accepted);
    AdmitRefines(t1[key], x.accepted, i);
    TouchRefines(t1[key], i, f.timestamp, {});
  }

  /** What a call leaves of a node: everything but one session, the counter and at most one new log entry. */
  lemma CallShape(x: Node, cid: Bytes32, op: AppOp, now: u64, expiresAt: u64, isSealed: bool)
    requires x.core.sendCounter == |x.log| < U64_MAX
    ensures var x' := DoCall(x, cid, op, now, expiresAt, isSealed);
            && x'.core.guard == x.core.guard && x'.core.cap == x.core.cap
            && x'.accepted == x.accepted && x'.events == x.events && x'.cursor == x.cursor
            && x'.core.sendCounter == |x'.log|
            && (x'.log == x.log || (|x'.log| == |x.log| + 1 && x'.log == x.log + [x'.log[|x.log|]]
                                    && x'.log[|x.log|].frame.cid == cid && !x'.log[|x.log|].automatic
                                    && x'.log[|x.log|].frame.payload == PayloadOf(op)))
  {}

  /** A frame leaves guard and cap alone; only an abort takes a counter, and a RESET never aborts. */
  lemma DispatchShape(e: Core, f: Frame)
    ensures var (e', reaction) := Dispatch(e, f.cid, f.kind, f.hdr, f.payload);
            && e'.guard == e.guard && e'.cap == e.cap
            && e'.sendCounter == (if reaction.Abort? then WrapInc(e.sendCounter) else e.sendCounter)
            && (f.kind.Reset? ==> !reaction.Abort?)
  {}

  lemma TakeInByReaction(n: Node, t: Table, f: Frame, i: u64, now: u64, isSealed: bool)
    ensures var (core, reaction) := Dispatch(n.core.(guard := t), f.cid, f.kind, f.hdr, f.payload);
            var n' := TakeIn(n, t, f, i, now, isSealed);
            && n'.core == core && n'.cursor == i + 1 && n'.accepted == n.accepted + {i}
            && n'.events == (if reaction.Deliver? then n.events + [(f.cid, reaction.event)] else n.events)
            && n'.log == (if reaction.Abort? then n.log + [ResetEntry(f.cid, now, isSealed)] else n.log)
  {}

  lemma TakeInShape(x: Node, t: Table, f: Frame, i: u64, now: u64, isSealed: bool)
    requires x.core.sendCounter == |x.log| < U64_MAX
    ensures var x' := TakeIn(x, t, f, i, now, isSealed);
            && x'.core.guard == t && x'.core.cap == x.core.cap
            && x'.accepted == x.accepted + {i} && x'.cursor == i + 1
            && x'.core.sendCounter == |x'.log|
            && (x'.log == x.log || (!f.kind.Reset? && x'.log == x.log + [ResetEntry(f.cid, now, isSealed)]))
  {
    DispatchShape(x.core.(guard := t), f);
    TakeInByReaction(x, t, f, i, now, isSealed);
  }

  lemma {:induction false} ReceiveShape(x: Node, key: SenderKey, f: Frame, i: u64, now: u64, victim: SenderKey,
                                        isSealed: bool)
    requires x.core.sendCounter == |x.log| < U64_MAX
    ensures var x' := DoReceive(x, key, f, i, now, victim, isSealed);
            var (t, verdict) := Screen(x.core.guard, key, f, i, now, victim);
            && x'.core.guard == t && x'.core.cap == x.core.cap
            && x'.accepted == (if verdict.Refused? then x.accepted else x.accepted + {i})
            && x'.core.sendCounter == |x'.log|
            && (|| x'.log == x.log
                || (verdict.Through? && !f.kind.Reset? && x'.log == x.log + [ResetEntry(f.cid, now, isSealed)]))
  {
    var (t, verdict) := Screen(x.core.guard, key, f, i, now, victim);
    if verdict.Through? { TakeInShape(x, t, f, i, now, isSealed); }
  }

  /** No action of `x` breaks the guard's account on either side. */
  lemma {:induction false} ActKeepsNodes(x: Node, y: Node, kx: SenderKey, ky: SenderKey, action: Action)
    requires NodeOk(x, y, ky) && NodeOk(y, x, kx)
    requires |x.log| < U64_MAX && SparesPeer(x, ky, action)
    ensures NodeOk(Act(x, y, ky, action), y, ky) && NodeOk(y, Act(x, y, ky, action), kx)
  {
    match action {
      case Call(cid, op, now, expiresAt, isSealed) =>
        CallShape(x, cid, op, now, expiresAt, isSealed);
      case Receive(i, now, victim, isSealed) =>
        if i < |y.log| && y.log[i].isSealed {
          ReceiveShape(x, ky, y.log[i].frame, i, now, victim, isSealed);
          ScreenRefines(x, ky, y.log[i].frame, i, now, victim);
        }
      case Foreign(other, counter, timestamp, now, victim) =>
        ForeignKeepsPeer(x.core.guard, ky, other, counter, timestamp, now, victim);
    }
  }
}
