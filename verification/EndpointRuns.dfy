/**
 What every run of an endpoint keeps: the cap, no finished session left behind, what each outcome of
 `accept` may change, strictly increasing counters, and the independence of streams.
 */
module EndpointRuns {
  import opened Types
  import opened Envelope
  import opened Crypto
  import opened ReplayGuard
  import opened Seal
  import opened Session
  import opened Endpoint

  ghost predicate EndpointOk(e: Core) {
    |e.sessions| <= e.cap && forall c :: c in e.sessions ==> !IsClosed(e.sessions[c])
  }

  lemma PutSize(m: Sessions, cid: Bytes32, slot: Slot)
    ensures |Put(m, cid, slot)| == |m| - (if cid in m then 1 else 0) + (if slot.Some? then 1 else 0)
  {
    var m' := Put(m, cid, slot);
    assert |m| == |m.Keys| && |m'| == |m'.Keys|;
    if slot.Some? {
      assert m'.Keys == m.Keys + {cid};
    } else {
      assert m'.Keys == m.Keys - {cid};
    }
  }

  lemma PutKeepsOk(e: Core, cid: Bytes32, slot: Slot)
    requires EndpointOk(e) && (slot.Some? ==> !IsClosed(slot.value))
    requires slot.Some? && cid !in e.sessions ==> !Full(e)
    ensures EndpointOk(e.(sessions := Put(e.sessions, cid, slot)))
  {
    PutSize(e.sessions, cid, slot);
  }

  lemma DispatchKeepsOk(e: Core, cid: Bytes32, kind: FrameKind, hdr: StreamHeader, payload: Bytes)
    requires EndpointOk(e)
    ensures EndpointOk(Dispatch(e, cid, kind, hdr, payload).0)
  {
    PutKeepsOk(e, cid, SlotRecv(Get(e.sessions, cid), Full(e), e.cap, kind, hdr, payload).0);
  }

  /**
   What each outcome of `accept` means for the streams: a dropped frame leaves every session and
   the counter alone, a reset leaves the named stream absent and takes one counter, an event takes
   none; no other stream is ever touched; and a RESET is never answered.
   */
  lemma {:induction false} AcceptOutcomes(p: Primitives, seal: Sealer, cfg: Config, e: Core,
                                          env: DigMessageEnvelope, resolve: Resolver,
                                          now: u64, victim: SenderKey, entropy: Option<SecretKey>)
    ensures var (e', r) := Accept(p, seal, cfg, e, env, resolve, now, victim, entropy);
            var cid := env.header.correlationId;
            && (r.Ok? && r.value.Dropped? ==> e'.sessions == e.sessions && e'.sendCounter == e.sendCounter)
            && (r.Ok? && r.value.Event? ==> e'.sendCounter == e.sendCounter)
            && (r.Err? || r.value.ResetSent? ==> cid !in e'.sessions && e'.sendCounter == WrapInc(e.sendCounter))
            && (forall c :: c != cid ==> Get(e'.sessions, c) == Get(e.sessions, c))
            && (env.header.stream.Some? && KindOfByte(env.header.stream.value.frame) == Some(FrameKind.Reset) ==>
                  r.Ok? && !r.value.ResetSent?)
            && (r.Err? || !r.value.Dropped? ==>
                  && Seal.Open(p, cfg.identitySk, env, resolve, e.guard, now, victim).1.Ok?
                  && env.header.sender == cfg.peerDid && ShapeOfFlags(env.header.flags).StreamFrameShape?
                  && env.header.stream.Some? && KindOfByte(env.header.stream.value.frame).Some?)
  {
    var (t, r) := Seal.Open(p, cfg.identitySk, env, resolve, e.guard, now, victim);
    AfterOpenOutcomes(seal, cfg, e.(guard := t), env, r, now, entropy);
    OpenKeepsHeader(p, cfg.identitySk, env, resolve, e.guard, now, victim);
  }

  lemma AfterOpenOutcomes(seal: Sealer, cfg: Config, e: Core, env: DigMessageEnvelope, m: Result<OpenedMessage>,
                          now: u64, entropy: Option<SecretKey>)
    ensures var (e', r) := AfterOpen(seal, cfg, e, env, m, now, entropy);
            var cid := env.header.correlationId;
            && (r.Ok? && r.value.Dropped? ==> e' == e)
            && (r.Ok? && r.value.Event? ==> e'.sendCounter == e.sendCounter)
            && (r.Err? || r.value.ResetSent? ==> cid !in e'.sessions && e'.sendCounter == WrapInc(e.sendCounter))
            && (forall c :: c != cid ==> Get(e'.sessions, c) == Get(e.sessions, c))
            && (env.header.stream.Some? && KindOfByte(env.header.stream.value.frame) == Some(FrameKind.Reset) ==>
                  r.Ok? && !r.value.ResetSent?)
            && (r.Err? || !r.value.Dropped? ==>
                  && m.Ok? && m.value.sender == cfg.peerDid && m.value.shape.StreamFrameShape?
                  && env.header.stream.Some? && KindOfByte(env.header.stream.value.frame).Some?)
  {
    PutSame(e.sessions, env.header.correlationId);
  }

  // ---------------------------------------------------------------- runs

  /** One thing happening to an endpoint: a local call, an authenticated frame, or a guard update alone. */
  datatype Act =
    | Local(cid: Bytes32, op: AppOp, isSealed: bool)
    | Inbound(cid: Bytes32, kind: FrameKind, hdr: StreamHeader, payload: Bytes)
    | GuardOnly(t: Table)

  datatype Output = Built(hdr: Result<StreamHeader>) | Reacted(reaction: Reaction) | Silent

  function StepCore(e: Core, act: Act): (Core, Output) {
    match act
    case Local(cid, op, isSealed) => var (e', r) := App(e, cid, op, isSealed); (e', Built(r))
    case Inbound(cid, kind, hdr, payload) => var (e', r) := Dispatch(e, cid, kind, hdr, payload); (e', Reacted(r))
    case GuardOnly(t) => (e.(guard := t), Silent)
  }

  function RunCore(e: Core, acts: seq<Act>): Core {
    if acts == [] then e else StepCore(RunCore(e, acts[..|acts| - 1]), acts[|acts| - 1]).0
  }

  function EmptyCore(cap: nat): Core {
    Core(map[], 0, cap, map[])
  }

  lemma StepKeepsCap(e: Core, act: Act)
    requires |e.sessions| <= e.cap
    ensures var e' := StepCore(e, act).0; e'.cap == e.cap && |e'.sessions| <= e'.cap
  {
    match act {
      case Local(cid, op, isSealed) =>
        PutSize(e.sessions, cid, SlotApp(Get(e.sessions, cid), Full(e), e.cap, op, isSealed).0);
      case Inbound(cid, kind, hdr, payload) =>
        PutSize(e.sessions, cid, SlotRecv(Get(e.sessions, cid), Full(e), e.cap, kind, hdr, payload).0);
      case GuardOnly(t) =>
    }
  }

  /** The cap holds in every reachable state, whichever seals fail. */
  lemma {:induction false} CapHolds(cap: nat, acts: seq<Act>)
    ensures |RunCore(EmptyCore(cap), acts).sessions| <= cap && RunCore(EmptyCore(cap), acts).cap == cap
  {
    if acts != [] {
      CapHolds(cap, acts[..|acts| - 1]);
      StepKeepsCap(RunCore(EmptyCore(cap), acts[..|acts| - 1]), acts[|acts| - 1]);
    }
  }

  /** A call that finishes its stream, by RESET or by the second CLOSE, and whose frame is not sealed. */
  predicate UnsealedFinish(e: Core, act: Act) {
    && act.Local? && !act.isSealed && act.cid in e.sessions
    && (act.op.AppReset? || (act.op.AppClose? && e.sessions[act.cid].remoteClosed && !e.sessions[act.cid].localClosed))
  }

  /** One step leaves a finished session behind exactly when it is an unsealed finish. */
  lemma {:induction false} StepOkExactly(e: Core, act: Act)
    requires EndpointOk(e)
    ensures EndpointOk(StepCore(e, act).0) <==> !UnsealedFinish(e, act)
  {
    match act {
      case Local(cid, op, isSealed) =>
        var slot := SlotApp(Get(e.sessions, cid), Full(e), e.cap, op, isSealed).0;
        GetPut(e.sessions, cid, slot, cid);
        if UnsealedFinish(e, act) {
          assert IsClosed(slot.value);
        } else {
          PutKeepsOk(e, cid, slot);
        }
      case Inbound(cid, kind, hdr, payload) => DispatchKeepsOk(e, cid, kind, hdr, payload);
      case GuardOnly(t) =>
    }
  }

  /** The state after `n` acts stores no finished session. */
  ghost predicate OkAfter(e: Core, acts: seq<Act>, n: nat)
    requires n <= |acts|
  {
    EndpointOk(RunCore(e, acts[..n]))
  }

  /** Act number `n` is an unsealed finish. */
  predicate FinishesAt(e: Core, acts: seq<Act>, n: nat)
    requires n < |acts|
  {
    UnsealedFinish(RunCore(e, acts[..n]), acts[n])
  }

  lemma {:induction false} OkStep(e: Core, acts: seq<Act>, n: nat)
    requires n < |acts| && OkAfter(e, acts, n)
    ensures OkAfter(e, acts, n + 1) <==> !FinishesAt(e, acts, n)
  {
    StepOkExactly(RunCore(e, acts[..n]), acts[n]);
    RunSnoc(e, acts[..n], acts[n]);
    assert acts[..n] + [acts[n]] == acts[..n + 1];
  }

  lemma {:induction false} OkUntilFinish(e: Core, acts: seq<Act>, n: nat)
    requires EndpointOk(e) && n <= |acts| && forall k :: 0 <= k < n ==> !FinishesAt(e, acts, k)
    ensures OkAfter(e, acts, n)
  {
    if n > 0 {
      OkUntilFinish(e, acts, n - 1);
      OkStep(e, acts, n - 1);
    }
  }

  /** No state of a run stores a finished session, if and only if no step of it is an unsealed finish. */
  lemma {:induction false} ReachableOk(cap: nat, acts: seq<Act>)
    ensures (forall n :: 0 <= n <= |acts| ==> OkAfter(EmptyCore(cap), acts, n))
            <==> (forall n :: 0 <= n < |acts| ==> !FinishesAt(EmptyCore(cap), acts, n))
  {
    var e := EmptyCore(cap);
    if forall n :: 0 <= n <= |acts| ==> OkAfter(e, acts, n) {
      forall n | 0 <= n < |acts| ensures !FinishesAt(e, acts, n) {
        OkStep(e, acts, n);
      }
    } else {
      var n :| 0 <= n <= |acts| && !OkAfter(e, acts, n);
      if forall k :: 0 <= k < n ==> !FinishesAt(e, acts, k) { OkUntilFinish(e, acts, n); }
    }
  }

  lemma RunOne(e: Core, act: Act)
    ensures RunCore(e, [act]) == StepCore(e, act).0
  {
    assert [act][..0] == [];
  }

  lemma RunSnoc(e: Core, acts: seq<Act>, act: Act)
    ensures RunCore(e, acts + [act]) == StepCore(RunCore(e, acts), act).0
  {
    assert (acts + [act])[..|acts|] == acts;
  }

  /** Open a stream and get it acknowledged with credit `w`. */
  function Handshaken(cid: Bytes32, w: u32): seq<Act> {
    [Local(cid, AppOpen(0), true)]
    + [Inbound(cid, FrameKind.OpenAck, MakeHeader(FrameKind.OpenAck, 0, w), [])]
  }

  lemma HandshakenSession(cap: nat, cid: Bytes32, w: u32)
    requires cap > 0
    ensures RunCore(EmptyCore(cap), Handshaken(cid, w)).sessions
            == map[cid := NewInitiator(0).(handshake := Established, sendCredit := w)]
  {
    RunOne(EmptyCore(cap), Local(cid, AppOpen(0), true));
    RunSnoc(EmptyCore(cap), [Local(cid, AppOpen(0), true)],
            Inbound(cid, FrameKind.OpenAck, MakeHeader(FrameKind.OpenAck, 0, w), []));
  }

  /** After any run, an unsealed finish leaves its session stored and finished. */
  lemma UnsealedFinishLingers(e: Core, acts: seq<Act>, cid: Bytes32, op: AppOp)
    requires UnsealedFinish(RunCore(e, acts), Local(cid, op, false))
    ensures var e' := RunCore(e, acts + [Local(cid, op, false)]);
            && cid in e'.sessions && e'.sessions[cid] == Build(RunCore(e, acts).sessions[cid], op).0
            && IsClosed(e'.sessions[cid])
  {
    RunSnoc(e, acts, Local(cid, op, false));
    var s := RunCore(e, acts).sessions[cid];
    assert IsClosed(Build(s, op).0);
  }

  /** For example an unsealed RESET, after which a stream with credit left even stamps DATA. */
  lemma UnsealedResetSends(cap: nat, cid: Bytes32, w: u32)
    requires cap > 0
    ensures var e := RunCore(EmptyCore(cap), Handshaken(cid, w) + [Local(cid, AppReset, false)]);
            cid in e.sessions && IsClosed(e.sessions[cid]) && (w > 0 ==> BuildData(e.sessions[cid]).1.Ok?)
  {
    HandshakenSession(cap, cid, w);
    UnsealedFinishLingers(EmptyCore(cap), Handshaken(cid, w), cid, AppReset);
  }

  function CloseArrives(cid: Bytes32): Act {
    Inbound(cid, FrameKind.Close, MakeHeader(FrameKind.Close, 0, 0), [])
  }

  lemma HalfClosedSession(cap: nat, cid: Bytes32, w: u32)
    requires cap > 0
    ensures var s := NewInitiator(0).(handshake := Established, sendCredit := w, remoteClosed := true);
            RunCore(EmptyCore(cap), Handshaken(cid, w) + [CloseArrives(cid)]).sessions == map[cid := s]
  {
    HandshakenSession(cap, cid, w);
    RunSnoc(EmptyCore(cap), Handshaken(cid, w), CloseArrives(cid));
  }

  /** Or an unsealed CLOSE that answers the peer's. */
  lemma UnsealedCloseLingers(cap: nat, cid: Bytes32, w: u32)
    requires cap > 0
    ensures var acts := Handshaken(cid, w) + [CloseArrives(cid)] + [Local(cid, AppClose, false)];
            var e := RunCore(EmptyCore(cap), acts);
            cid in e.sessions && IsClosed(e.sessions[cid])
  {
    HalfClosedSession(cap, cid, w);
    UnsealedFinishLingers(EmptyCore(cap), Handshaken(cid, w) + [CloseArrives(cid)], cid, AppClose);
  }

  // ---------------------------------------------------------------- calls as acts

  /** A call on the endpoint: a sending one, or `accept`. */
  datatype Invocation =
    | Sends(cid: Bytes32, op: AppOp, now: u64, expiresAt: u64, entropy: Option<SecretKey>)
    | Accepts(env: DigMessageEnvelope, resolve: Resolver, now: u64, victim: SenderKey, entropy: Option<SecretKey>)

  /** The endpoint after a call, and the envelope the call returns to be put on the wire, if any. */
  function Invoke(p: Primitives, cfg: Config, e: Core, call: Invocation): (Core, Option<DigMessageEnvelope>) {
    match call
    case Sends(cid, op, now, expiresAt, entropy) =>
      var (e', r) := Send(SealerOf(p), cfg, e, cid, op, now, expiresAt, entropy);
      (e', if r.Ok? then Some(r.value) else None)
    case Accepts(env, resolve, now, victim, entropy) =>
      var (e', r) := Accept(p, SealerOf(p), cfg, e, env, resolve, now, victim, entropy);
      (e', if r.Ok? && r.value.ResetSent? then Some(r.value.frame) else None)
  }

  /** The acts a call consists of: one local act, or a guard update followed by at most one frame. */
  function ActsOf(p: Primitives, cfg: Config, e: Core, call: Invocation): seq<Act> {
    match call
    case Sends(cid, op, now, expiresAt, entropy) =>
      [Local(cid, op, Send(SealerOf(p), cfg, e, cid, op, now, expiresAt, entropy).1.Ok?)]
    case Accepts(env, resolve, now, victim, entropy) =>
      var (t, r) := Seal.Open(p, cfg.identitySk, env, resolve, e.guard, now, victim);
      if StreamFrameFrom(cfg, env, r) then
        var hdr := env.header.stream.value;
        [GuardOnly(t), Inbound(env.header.correlationId, KindOfByte(hdr.frame).value, hdr, r.value.payload)]
      else [GuardOnly(t)]
  }

  /** The outcome of `open_message` is a well-formed stream frame of the peer. */
  predicate StreamFrameFrom(cfg: Config, env: DigMessageEnvelope, r: Result<OpenedMessage>) {
    && r.Ok? && r.value.sender == cfg.peerDid && env.header.stream.Some?
    && KindOfByte(env.header.stream.value.frame).Some? && r.value.shape.StreamFrameShape?
  }

  lemma SendIsLocal(seal: Sealer, cfg: Config, e: Core, cid: Bytes32, op: AppOp, now: u64, expiresAt: u64,
                    entropy: Option<SecretKey>)
    ensures var (e', r) := Send(seal, cfg, e, cid, op, now, expiresAt, entropy);
            e' == App(e, cid, op, r.Ok?).0 && (r.Ok? ==> App(e, cid, op, r.Ok?).1.Ok?)
  {
    PutSame(e.sessions, cid);
  }

  /** The outcome of `open_message` decides whether a frame follows the guard update. */
  lemma AfterOpenIsInbound(seal: Sealer, cfg: Config, e: Core, env: DigMessageEnvelope, r: Result<OpenedMessage>,
                           now: u64, entropy: Option<SecretKey>)
    ensures var (e', a) := AfterOpen(seal, cfg, e, env, r, now, entropy);
            if StreamFrameFrom(cfg, env, r) then
              var hdr := env.header.stream.value;
              var kind := KindOfByte(hdr.frame).value;
              var (e1, reaction) := Dispatch(e, env.header.correlationId, kind, hdr, r.value.payload);
              e' == e1 && (a.Err? || a.value.ResetSent? <==> reaction.Abort?)
            else e' == e && a.Ok? && a.value.Dropped?
  {}

  lemma StampsSnoc(e: Core, acts: seq<Act>, act: Act)
    ensures var out := StepCore(RunCore(e, acts), act).1;
            var sends := (out.Built? && out.hdr.Ok?) || (out.Reacted? && out.reaction.Abort?);
            Stamps(e, acts + [act]) == Stamps(e, acts) + (if sends then [RunCore(e, acts).sendCounter] else [])
  {
    assert (acts + [act])[..|acts|] == acts;
  }

  /** Every call is a short run of acts, and puts an envelope on the wire only where an act sends. */
  lemma {:induction false} InvokeIsActs(p: Primitives, cfg: Config, e: Core, call: Invocation)
    ensures Invoke(p, cfg, e, call).0 == RunCore(e, ActsOf(p, cfg, e, call))
    ensures Invoke(p, cfg, e, call).1.Some? ==> Stamps(e, ActsOf(p, cfg, e, call)) == [e.sendCounter]
  {
    match call {
      case Sends(cid, op, now, expiresAt, entropy) =>
        SendIsLocal(SealerOf(p), cfg, e, cid, op, now, expiresAt, entropy);
        var act := ActsOf(p, cfg, e, call)[0];
        RunOne(e, act);
        StampsSnoc(e, [], act);
        assert [] + [act] == [act];
      case Accepts(env, resolve, now, victim, entropy) =>
        AcceptIsActs(p, cfg, e, env, resolve, now, victim, entropy);
    }
  }

  lemma {:induction false} AcceptIsActs(p: Primitives, cfg: Config, e: Core, env: DigMessageEnvelope, resolve: Resolver,
                                        now: u64, victim: SenderKey, entropy: Option<SecretKey>)
    ensures var call := Accepts(env, resolve, now, victim, entropy);
            && Invoke(p, cfg, e, call).0 == RunCore(e, ActsOf(p, cfg, e, call))
            && (Invoke(p, cfg, e, call).1.Some? ==> Stamps(e, ActsOf(p, cfg, e, call)) == [e.sendCounter])
  {
    var (t, r) := Seal.Open(p, cfg.identitySk, env, resolve, e.guard, now, victim);
    AfterOpenIsInbound(SealerOf(p), cfg, e.(guard := t), env, r, now, entropy);
    RunOne(e, GuardOnly(t));
    StampsSnoc(e, [], GuardOnly(t));
    assert [] + [GuardOnly(t)] == [GuardOnly(t)];
    if StreamFrameFrom(cfg, env, r) {
      var hdr := env.header.stream.value;
      var inbound := Inbound(env.header.correlationId, KindOfByte(hdr.frame).value, hdr, r.value.payload);
      RunSnoc(e, [GuardOnly(t)], inbound);
      StampsSnoc(e, [GuardOnly(t)], inbound);
      assert [GuardOnly(t)] + [inbound] == [GuardOnly(t), inbound];
    }
  }

  /** Any sequence of calls is a run of acts, so what holds of every run of acts holds of it. */
  function RunCalls(p: Primitives, cfg: Config, e: Core, calls: seq<Invocation>): Core {
    if calls == [] then e
    else Invoke(p, cfg, RunCalls(p, cfg, e, calls[..|calls| - 1]), calls[|calls| - 1]).0
  }

  lemma AppendStep(e: Core, acts: seq<Act>, init: seq<Act>, last: Act)
    requires RunCore(e, acts + init) == RunCore(RunCore(e, acts), init)
    ensures RunCore(e, acts + init + [last]) == RunCore(RunCore(e, acts), init + [last])
  {
    RunSnoc(e, acts + init, last);
    RunSnoc(RunCore(e, acts), init, last);
  }

  lemma {:induction false} RunAppend(e: Core, acts: seq<Act>, more: seq<Act>)
    ensures RunCore(e, acts + more) == RunCore(RunCore(e, acts), more)
  {
    if more == [] {
      assert acts + more == acts;
    } else {
      var init, last := more[..|more| - 1], more[|more| - 1];
      assert init + [last] == more && acts + init + [last] == acts + more;
      RunAppend(e, acts, init);
      AppendStep(e, acts, init, last);
    }
  }

  lemma {:induction false} CallsAreActs(p: Primitives, cfg: Config, e: Core, calls: seq<Invocation>)
    returns (acts: seq<Act>)
    ensures RunCore(e, acts) == RunCalls(p, cfg, e, calls)
  {
    acts := [];
    if calls != [] {
      acts := CallsAreActs(p, cfg, e, calls[..|calls| - 1]);
      var e1 := RunCore(e, acts);
      InvokeIsActs(p, cfg, e1, calls[|calls| - 1]);
      RunAppend(e, acts, ActsOf(p, cfg, e1, calls[|calls| - 1]));
      acts := acts + ActsOf(p, cfg, e1, calls[|calls| - 1]);
    }
  }

  /** In particular no sequence of real calls ever exceeds the cap. */
  lemma {:induction false} CallsKeepCap(p: Primitives, cfg: Config, cap: nat, calls: seq<Invocation>)
    ensures |RunCalls(p, cfg, EmptyCore(cap), calls).sessions| <= cap
  {
    var acts := CallsAreActs(p, cfg, EmptyCore(cap), calls);
    CapHolds(cap, acts);
  }

  // ---------------------------------------------------------------- counters

  /** The outbound counters a run stamps on frames, automatic RESETs included, in order. */
  function Stamps(e: Core, acts: seq<Act>): seq<u64> {
    if acts == [] then []
    else
      var before := RunCore(e, acts[..|acts| - 1]);
      var out := StepCore(before, acts[|acts| - 1]).1;
      var sends := (out.Built? && out.hdr.Ok?) || (out.Reacted? && out.reaction.Abort?);
      Stamps(e, acts[..|acts| - 1]) + (if sends then [before.sendCounter] else [])
  }

  /** Counters run 0, 1, 2, ... across all streams and frame kinds, for up to 2^64 frames. */
  lemma {:induction false} CountersIncrease(cap: nat, acts: seq<Act>)
    requires |Stamps(EmptyCore(cap), acts)| <= U64_MAX
    ensures RunCore(EmptyCore(cap), acts).sendCounter == |Stamps(EmptyCore(cap), acts)|
    ensures forall i :: 0 <= i < |Stamps(EmptyCore(cap), acts)| ==> Stamps(EmptyCore(cap), acts)[i] == i
  {
    if acts != [] {
      CountersIncrease(cap, acts[..|acts| - 1]);
    }
  }

  // ---------------------------------------------------------------- independence of streams

  /** What one stream sees of an act: the act, and whether the endpoint was full. */
  datatype SlotAct =
    | SlotLocal(op: AppOp, isSealed: bool, full: bool)
    | SlotInbound(kind: FrameKind, hdr: StreamHeader, payload: Bytes, full: bool)

  function SlotStep(slot: Slot, cap: nat, a: SlotAct): (Slot, Output) {
    match a
    case SlotLocal(op, isSealed, full) => var (s, r) := SlotApp(slot, full, cap, op, isSealed); (s, Built(r))
    case SlotInbound(kind, hdr, payload, full) =>
      var (s, r) := SlotRecv(slot, full, cap, kind, hdr, payload); (s, Reacted(r))
  }

  function SlotRun(slot: Slot, cap: nat, acts: seq<SlotAct>): (Slot, seq<Output>) {
    if acts == [] then (slot, [])
    else
      var (s, outs) := SlotRun(slot, cap, acts[..|acts| - 1]);
      var (s', o) := SlotStep(s, cap, acts[|acts| - 1]);
      (s', outs + [o])
  }

  predicate Concerns(a: Act, c: Bytes32) {
    !a.GuardOnly? && a.cid == c
  }

  function Narrow(a: Act, full: bool): SlotAct
    requires !a.GuardOnly?
  {
    match a
    case Local(_, op, isSealed) => SlotLocal(op, isSealed, full)
    case Inbound(_, kind, hdr, payload) => SlotInbound(kind, hdr, payload, full)
  }

  /** The acts of a run that concern stream `c`, and the outputs the endpoint gave to them. */
  function Project(e: Core, acts: seq<Act>, c: Bytes32): (seq<SlotAct>, seq<Output>) {
    if acts == [] then ([], [])
    else
      var (proj, outs) := Project(e, acts[..|acts| - 1], c);
      var before := RunCore(e, acts[..|acts| - 1]);
      var last := acts[|acts| - 1];
      if Concerns(last, c) then (proj + [Narrow(last, Full(before))], outs + [StepCore(before, last).1])
      else (proj, outs)
  }

  lemma OneStep(e: Core, act: Act, c: Bytes32)
    ensures StepCore(e, act).0.cap == e.cap
    ensures Concerns(act, c) ==>
              (Get(StepCore(e, act).0.sessions, c), StepCore(e, act).1)
              == SlotStep(Get(e.sessions, c), e.cap, Narrow(act, Full(e)))
    ensures !Concerns(act, c) ==> Get(StepCore(e, act).0.sessions, c) == Get(e.sessions, c)
  {
    match act {
      case Local(cid, op, isSealed) =>
        GetPut(e.sessions, cid, SlotApp(Get(e.sessions, cid), Full(e), e.cap, op, isSealed).0, c);
      case Inbound(cid, kind, hdr, payload) =>
        GetPut(e.sessions, cid, SlotRecv(Get(e.sessions, cid), Full(e), e.cap, kind, hdr, payload).0, c);
      case GuardOnly(t) =>
    }
  }

  lemma SlotRunSnoc(slot: Slot, cap: nat, acts: seq<SlotAct>, a: SlotAct)
    ensures SlotRun(slot, cap, acts + [a])
            == (SlotStep(SlotRun(slot, cap, acts).0, cap, a).0,
                SlotRun(slot, cap, acts).1 + [SlotStep(SlotRun(slot, cap, acts).0, cap, a).1])
  {
    assert (acts + [a])[..|acts|] == acts;
  }

  /**
   Every run of an endpoint, seen from one correlation id, is a run of that one stream with the same
   outputs; other streams reach it only through the `full` flags (and the counters on the wire).
   */
  lemma {:induction false} StreamsAreIndependent(e: Core, acts: seq<Act>, c: Bytes32)
    ensures RunCore(e, acts).cap == e.cap
    ensures var (proj, outs) := Project(e, acts, c);
            (Get(RunCore(e, acts).sessions, c), outs) == SlotRun(Get(e.sessions, c), e.cap, proj)
  {
    if acts != [] {
      var init, last := acts[..|acts| - 1], acts[|acts| - 1];
      StreamsAreIndependent(e, init, c);
      var before := RunCore(e, init);
      OneStep(before, last, c);
      if Concerns(last, c) {
        SlotRunSnoc(Get(e.sessions, c), e.cap, Project(e, init, c).0, Narrow(last, Full(before)));
      }
    }
  }

  /** The session transition a slot act stands for while the stream is live. */
  function SessionOpOf(a: SlotAct): SessionOp
    requires a.SlotLocal? ==> !a.op.AppOpen?
  {
    match a
    case SlotLocal(AppOpenAck(w), _, _) => DoOpenAck(w)
    case SlotLocal(AppData(_), _, _) => DoData
    case SlotLocal(AppCredit(n), _, _) => DoCredit(n)
    case SlotLocal(AppClose, _, _) => DoClose
    case SlotLocal(AppReset, _, _) => DoReset
    case SlotInbound(kind, hdr, _, _) => Recv(kind, hdr)
  }

  /**
   A live stream is one `StreamSession`: while the slot stays occupied it moves by session
   transitions only, and it becomes occupied only as a new initiator or responder.
   */
  lemma SlotIsOneSession(slot: Slot, cap: nat, a: SlotAct)
    ensures var (slot', o) := SlotStep(slot, cap, a);
            && (slot.Some? && slot'.Some? ==>
                  || slot' == slot
                  || ((a.SlotLocal? ==> !a.op.AppOpen?) && slot'.value == Apply(slot.value, SessionOpOf(a)).0))
            && (slot.None? && slot'.Some? ==>
                  || (exists w: u32 :: slot'.value == NewInitiator(w))
                  || (exists w: u32 :: slot'.value == NewResponder(w)))
  {
    var (slot', o) := SlotStep(slot, cap, a);
    if slot.None? && slot'.Some? {
      if a.SlotLocal? { assert slot'.value == NewInitiator(a.op.recvWindow); }
      else { assert slot'.value == NewResponder(a.hdr.window); }
    }
  }
}
