/**
 The per-peer endpoint of src/stream.rs: many sessions keyed by correlation id, one outbound
 counter, one replay guard.  A value-level description says what a call does to the one stream it
 names; the class performs the calls in place, sealing and opening as it goes.
 */
module Endpoint {
  import opened Types
  import opened Envelope
  import opened Crypto
  import opened ReplayGuard
  import opened Seal
  import opened Session

  datatype StreamEvent =
    | StreamOpened
    | StreamEstablished
    | DataDelivered(payload: Bytes)
    | CreditGranted(n: u64)
    | PeerClosed
    | CloseAcknowledged
    | StreamReset

  datatype StreamAccept =
    | Event(event: StreamEvent)
    | Dropped(cause: MessageError)
    | ResetSent(frame: DigMessageEnvelope, cause: MessageError)

  /** What the application can ask of a stream. */
  datatype AppOp =
    | AppOpen(recvWindow: u32)
    | AppOpenAck(recvWindow: u32)
    | AppData(payload: Bytes)
    | AppCredit(n: u32)
    | AppClose
    | AppReset

  /** What an authenticated inbound frame does, before any RESET is sealed. */
  datatype Reaction = Deliver(event: StreamEvent) | Ignore(cause: MessageError) | Abort(cause: MessageError)

  function ToEvent(a: Accepted, payload: Bytes): StreamEvent {
    match a
    case HandshakeDone => StreamEstablished
    case DataIn => DataDelivered(payload)
    case CreditIn(n) => CreditGranted(n)
    case RemoteClosed => PeerClosed
    case CloseAcked => CloseAcknowledged
    case PeerReset => StreamReset
  }

  // ---------------------------------------------------------------- one stream

  type Slot = Option<Session>

  function Build(s: Session, op: AppOp): (Session, Result<StreamHeader>) {
    match op
    case AppOpen(_) => (s, Refuse(CorrelationIdInUse))
    case AppOpenAck(w) => BuildOpenAck(s, w)
    case AppData(_) => BuildData(s)
    case AppCredit(n) => BuildCredit(s, n)
    case AppClose => BuildClose(s)
    case AppReset => var (s', h) := BuildReset(s); (s', Ok(h))
  }

  /**
   One application call on one stream.  `full` says whether the endpoint is at its cap, `isSealed`
   whether the frame it builds gets sealed: `close` and `reset` drop the session only after sealing.
   */
  function SlotApp(slot: Slot, full: bool, cap: nat, op: AppOp, isSealed: bool): (Slot, Result<StreamHeader>) {
    match slot
    case None =>
      if !op.AppOpen? then (None, Refuse(UnknownStream))
      else if full then (None, Err(StreamLimit(cap)))
      else (Some(NewInitiator(op.recvWindow)), Ok(MakeHeader(FrameKind.Open, 0, op.recvWindow)))
    case Some(s) =>
      var (s', r) := Build(s, op);
      if r.Err? then (slot, r)
      else if isSealed && (op.AppReset? || (op.AppClose? && IsClosed(s'))) then (None, r)
      else (Some(s'), r)
  }

  /** One authenticated inbound frame on one stream. */
  function SlotRecv(slot: Slot, full: bool, cap: nat, kind: FrameKind, hdr: StreamHeader, payload: Bytes): (Slot,
                    Reaction) {
    match slot
    case None =>
      if kind.Reset? then (None, Ignore(StreamProtocol(ResetForUnknownStream)))
      else if !kind.Open? then (None, Ignore(StreamProtocol(UnknownStream)))
      else if full then (None, Abort(StreamLimit(cap)))
      else (Some(NewResponder(hdr.window)), Deliver(StreamOpened))
    case Some(s) =>
      if kind.Reset? then (None, Deliver(StreamReset))
      else if kind.Open? then (None, Abort(StreamProtocol(DuplicateOpen)))
      else
        var (s', r) := OnRecv(s, kind, hdr);
        match r
        case Err(cause) => (None, Abort(cause))
        case Ok(a) => (if IsClosed(s') then None else Some(s'), Deliver(ToEvent(a, payload)))
  }

  // ---------------------------------------------------------------- the whole endpoint

  type Sessions = map<Bytes32, Session>

  datatype Core = Core(sessions: Sessions, sendCounter: u64, cap: nat, guard: Table)

  function Get(m: Sessions, cid: Bytes32): Slot {
    if cid in m then Some(m[cid]) else None
  }

  function Put(m: Sessions, cid: Bytes32, slot: Slot): Sessions {
    match slot
    case None => m - {cid}
    case Some(s) => m[cid := s]
  }

  predicate Full(e: Core) {
    |e.sessions| >= e.cap
  }

  function App(e: Core, cid: Bytes32, op: AppOp, isSealed: bool): (Core, Result<StreamHeader>) {
    var (slot, r) := SlotApp(Get(e.sessions, cid), Full(e), e.cap, op, isSealed);
    var counter := if r.Ok? then WrapInc(e.sendCounter) else e.sendCounter;
    (e.(sessions := Put(e.sessions, cid, slot), sendCounter := counter), r)
  }

  function Dispatch(e: Core, cid: Bytes32, kind: FrameKind, hdr: StreamHeader, payload: Bytes): (Core, Reaction) {
    var (slot, r) := SlotRecv(Get(e.sessions, cid), Full(e), e.cap, kind, hdr, payload);
    var counter := if r.Abort? then WrapInc(e.sendCounter) else e.sendCounter;
    (e.(sessions := Put(e.sessions, cid, slot), sendCounter := counter), r)
  }

  lemma BuildErrKeeps(s: Session, op: AppOp)
    ensures Build(s, op).1.Err? ==> Build(s, op).0 == s
  {}

  lemma PutPut(m: Sessions, cid: Bytes32, a: Slot, b: Slot)
    ensures Put(Put(m, cid, a), cid, b) == Put(m, cid, b)
  {}

  lemma GetPut(m: Sessions, cid: Bytes32, slot: Slot, c: Bytes32)
    ensures Get(Put(m, cid, slot), c) == if c == cid then slot else Get(m, c)
  {}

  lemma PutSame(m: Sessions, cid: Bytes32)
    ensures Put(m, cid, Get(m, cid)) == m
  {}

  // ---------------------------------------------------------------- sealing and opening around it

  datatype Config = Config(
    identitySk: SecretKey,
    localDid: Bytes32,
    localEpoch: u32,
    peerDid: Bytes32,
    peerPub: Bytes48,
    messageType: u32)

  function FrameParams(cfg: Config, counter: u64, cid: Bytes32, hdr: StreamHeader, payload: Bytes, now: u64,
                       expiresAt: u64)
    : SealParams
  {
    SealParams(cfg.identitySk, cfg.localDid, cfg.localEpoch, cfg.peerDid, cfg.peerPub, cfg.messageType,
               StreamFrameShape, cid, Some(hdr), counter, now, expiresAt, payload)
  }

  function PayloadOf(op: AppOp): Bytes {
    if op.AppData? then op.payload else []
  }

  /** `seal_message` under given primitives, as the endpoint calls it. */
  type Sealer = (SealParams, Option<SecretKey>) -> Result<DigMessageEnvelope>

  function SealerOf(p: Primitives): Sealer {
    (params, entropy) => SealMessage(p, params, entropy)
  }

  /** A sending call: build the frame, take a counter, seal. */
  function Send(seal: Sealer, cfg: Config, e: Core, cid: Bytes32, op: AppOp, now: u64, expiresAt: u64,
                entropy: Option<SecretKey>)
    : (Core, Result<DigMessageEnvelope>)
  {
    match App(e, cid, op, true).1
    case Err(cause) => (e, Err(cause))
    case Ok(hdr) =>
      var r := seal(FrameParams(cfg, e.sendCounter, cid, hdr, PayloadOf(op), now, expiresAt), entropy);
      (App(e, cid, op, r.Ok?).0, r)
  }

  /** `Send` up to the point where `close` and `reset` drop the session. */
  function SendKeeping(seal: Sealer, cfg: Config, e: Core, cid: Bytes32, op: AppOp, now: u64, expiresAt: u64,
                       entropy: Option<SecretKey>)
    : (Core, Result<DigMessageEnvelope>)
  {
    match App(e, cid, op, true).1
    case Err(cause) => (e, Err(cause))
    case Ok(hdr) =>
      (App(e, cid, op, false).0,
       seal(FrameParams(cfg, e.sendCounter, cid, hdr, PayloadOf(op), now, expiresAt), entropy))
  }

  lemma SendOnKnown(seal: Sealer, cfg: Config, e: Core, cid: Bytes32, op: AppOp, now: u64, expiresAt: u64,
                    entropy: Option<SecretKey>)
    requires cid in e.sessions && !op.AppOpen?
    ensures var (s, h) := Build(e.sessions[cid], op);
            var e1 := e.(sessions := Put(e.sessions, cid, Some(s)));
            && (h.Err? ==> e1 == e)
            && SendKeeping(seal, cfg, e, cid, op, now, expiresAt, entropy)
               == if h.Err? then (e, Err(h.error))
                  else (e1.(sendCounter := WrapInc(e.sendCounter)),
                        seal(FrameParams(cfg, e.sendCounter, cid, h.value, PayloadOf(op), now, expiresAt), entropy))
  {
    PutSame(e.sessions, cid);
    BuildErrKeeps(e.sessions[cid], op);
  }

  lemma SendKeeps(seal: Sealer, cfg: Config, e: Core, cid: Bytes32, op: AppOp, now: u64, expiresAt: u64,
                  entropy: Option<SecretKey>)
    requires !op.AppClose? && !op.AppReset?
    ensures Send(seal, cfg, e, cid, op, now, expiresAt, entropy)
            == SendKeeping(seal, cfg, e, cid, op, now, expiresAt, entropy)
  {}

  /** The two steps of `close` and `reset`: send, then drop the session if it is finished. */
  lemma SendKeepsThenDrops(seal: Sealer, cfg: Config, e: Core, cid: Bytes32, op: AppOp, now: u64, expiresAt: u64,
                           entropy: Option<SecretKey>)
    requires op.AppClose? || op.AppReset?
    ensures var (e1, r) := SendKeeping(seal, cfg, e, cid, op, now, expiresAt, entropy);
            && (r.Ok? ==> cid in e1.sessions)
            && Send(seal, cfg, e, cid, op, now, expiresAt, entropy)
               == (if r.Ok? && (op.AppReset? || IsClosed(e1.sessions[cid]))
                   then e1.(sessions := Put(e1.sessions, cid, None)) else e1, r)
  {
    if cid in e.sessions {
      PutPut(e.sessions, cid, Some(Build(e.sessions[cid], op).0), None);
    }
  }

  const RESET_HEADER: StreamHeader := MakeHeader(FrameKind.Reset, 0, 0)

  function Respond(seal: Sealer, cfg: Config, counter: u64, cid: Bytes32, reaction: Reaction, now: u64,
                   entropy: Option<SecretKey>): Result<StreamAccept>
  {
    match reaction
    case Deliver(event) => Ok(Event(event))
    case Ignore(cause) => Ok(Dropped(cause))
    case Abort(cause) =>
      match seal(FrameParams(cfg, counter, cid, RESET_HEADER, [], now, 0), entropy)
      case Err(x) => Err(x)
      case Ok(frame) => Ok(ResetSent(frame, cause))
  }

  /** Steps 3 to 5 of `accept`, for a frame that is authenticated and well formed. */
  function React(seal: Sealer, cfg: Config, e: Core, cid: Bytes32, kind: FrameKind, hdr: StreamHeader, payload: Bytes,
                 now: u64, entropy: Option<SecretKey>): (Core, Result<StreamAccept>)
  {
    var (e', reaction) := Dispatch(e, cid, kind, hdr, payload);
    (e', Respond(seal, cfg, e.sendCounter, cid, reaction, now, entropy))
  }

  /** The frames that never reach a session: RESET, and anything but OPEN on an unknown stream. */
  lemma ReactWithoutSession(seal: Sealer, cfg: Config, e: Core, cid: Bytes32, kind: FrameKind, hdr: StreamHeader,
                            payload: Bytes, now: u64, entropy: Option<SecretKey>)
    ensures kind.Reset? ==>
              React(seal, cfg, e, cid, kind, hdr, payload, now, entropy)
              == if cid in e.sessions then (e.(sessions := Put(e.sessions, cid, None)), Ok(Event(StreamReset)))
                 else (e, Ok(Dropped(StreamProtocol(ResetForUnknownStream))))
    ensures cid !in e.sessions && !kind.Reset? && !kind.Open? ==>
              React(seal, cfg, e, cid, kind, hdr, payload, now, entropy)
              == (e, Ok(Dropped(StreamProtocol(UnknownStream))))
  {
    PutSame(e.sessions, cid);
  }

  /** An OPEN: refused with a RESET on a live id or at the cap, else a responder starts. */
  lemma ReactOnOpen(seal: Sealer, cfg: Config, e: Core, cid: Bytes32, hdr: StreamHeader, payload: Bytes, now: u64,
                    entropy: Option<SecretKey>)
    ensures React(seal, cfg, e, cid, FrameKind.Open, hdr, payload, now, entropy)
            == if cid in e.sessions then
                 (e.(sessions := Put(e.sessions, cid, None), sendCounter := WrapInc(e.sendCounter)),
                  Respond(seal, cfg, e.sendCounter, cid, Abort(StreamProtocol(DuplicateOpen)), now, entropy))
               else if Full(e) then
                 (e.(sendCounter := WrapInc(e.sendCounter)),
                  Respond(seal, cfg, e.sendCounter, cid, Abort(StreamLimit(e.cap)), now, entropy))
               else (e.(sessions := Put(e.sessions, cid, Some(NewResponder(hdr.window)))), Ok(Event(StreamOpened)))
  {
    PutSame(e.sessions, cid);
  }

  /** On a known stream: run the state machine, then drop the session if it closed or erred. */
  lemma ReactOnKnown(seal: Sealer, cfg: Config, e: Core, cid: Bytes32, kind: FrameKind, hdr: StreamHeader,
                     payload: Bytes, now: u64, entropy: Option<SecretKey>)
    requires cid in e.sessions && !kind.Open? && !kind.Reset?
    ensures var (s, a) := OnRecv(e.sessions[cid], kind, hdr);
            var e1 := e.(sessions := Put(e.sessions, cid, Some(s)));
            var e2 := e1.(sessions := Put(e1.sessions, cid, None));
            React(seal, cfg, e, cid, kind, hdr, payload, now, entropy)
            == match a
               case Ok(x) => (if IsClosed(s) then e2 else e1, Ok(Event(ToEvent(x, payload))))
               case Err(cause) => (e2.(sendCounter := WrapInc(e.sendCounter)),
                                   Respond(seal, cfg, e.sendCounter, cid, Abort(cause), now, entropy))
  {
    PutPut(e.sessions, cid, Some(OnRecv(e.sessions[cid], kind, hdr).0), None);
  }

  /** What `accept` does with the outcome of `open_message`. */
  function AfterOpen(seal: Sealer, cfg: Config, e: Core, env: DigMessageEnvelope, r: Result<OpenedMessage>, now: u64,
                     entropy: Option<SecretKey>): (Core, Result<StreamAccept>)
  {
    match r
    case Err(cause) => (e, Ok(Dropped(cause)))
    case Ok(msg) =>
      if msg.sender != cfg.peerDid then (e, Ok(Dropped(StreamProtocol(WrongPeer))))
      else
        match env.header.stream
        case None => (e, Ok(Dropped(StreamProtocol(NotAStreamEnvelope))))
        case Some(hdr) =>
          match KindOfByte(hdr.frame)
          case None => (e, Ok(Dropped(StreamProtocol(UnknownFrameKind))))
          case Some(kind) =>
            if !msg.shape.StreamFrameShape? then (e, Ok(Dropped(StreamProtocol(NotAStreamShape))))
            else React(seal, cfg, e, env.header.correlationId, kind, hdr, msg.payload, now, entropy)
  }

  function Accept(p: Primitives, seal: Sealer, cfg: Config, e: Core, env: DigMessageEnvelope, resolve: Resolver,
                  now: u64,
                  victim: SenderKey, entropy: Option<SecretKey>): (Core, Result<StreamAccept>)
  {
    var (t, r) := Seal.Open(p, cfg.identitySk, env, resolve, e.guard, now, victim);
    AfterOpen(seal, cfg, e.(guard := t), env, r, now, entropy)
  }

  lemma AcceptIsAfterOpen(p: Primitives, seal: Sealer, cfg: Config, e: Core, e1: Core, env: DigMessageEnvelope,
                          r: Result<OpenedMessage>, resolve: Resolver, now: u64, victim: SenderKey,
                          entropy: Option<SecretKey>)
    requires e1 == e.(guard := e1.guard)
    requires (e1.guard, r) == Seal.Open(p, cfg.identitySk, env, resolve, e.guard, now, victim)
    ensures Accept(p, seal, cfg, e, env, resolve, now, victim, entropy)
            == AfterOpen(seal, cfg, e1, env, r, now, entropy)
  {}

  // ---------------------------------------------------------------- the endpoint in memory

  /** The builder `op` calls for. */
  method CallBuilder(s: StreamSession, op: AppOp) returns (hdr: Result<StreamHeader>)
    requires !op.AppOpen?
    modifies s
    ensures (s.View(), hdr) == Build(old(s.View()), op)
  {
    match op {
      case AppOpenAck(w) => hdr := s.OpenAckFrame(w);
      case AppData(_) => hdr := s.DataFrame();
      case AppCredit(n) => hdr := s.CreditFrame(n);
      case AppClose => hdr := s.CloseFrame();
      case AppReset => var h := s.ResetFrame(); hdr := Ok(h);
    }
  }

  class StreamEndpoint {
    ghost var Model: Core  // the endpoint as a value

    const lib: Primitives
    const sealer: Sealer
    const cfg: Config
    const maxConcurrent: nat
    const guard: ReplayGuard
    var sendCounter: u64
    var sessions: map<Bytes32, StreamSession>

    ghost predicate Valid()
      reads this, sessions.Values, guard, guard.senders.Values
    {
      && guard.Valid()
      && Model.guard == guard.Model && Model.sendCounter == sendCounter && Model.cap == maxConcurrent
      && Model.sessions.Keys == sessions.Keys
      && (forall k :: k in sessions ==> sessions[k].View() == Model.sessions[k])
      && (forall k, l :: k in sessions && l in sessions && k != l ==> sessions[k] != sessions[l])
    }

    /** Valid, but for what the session of `cid` has become. */
    ghost predicate ValidBut(cid: Bytes32)
      reads this, sessions.Values, guard, guard.senders.Values
    {
      && guard.Valid()
      && Model.guard == guard.Model && Model.sendCounter == sendCounter && Model.cap == maxConcurrent
      && Model.sessions.Keys == sessions.Keys
      && (forall k :: k in sessions && k != cid ==> sessions[k].View() == Model.sessions[k])
      && (forall k, l :: k in sessions && l in sessions && k != l ==> sessions[k] != sessions[l])
    }

    /** Record what the session of `cid` has become. */
    ghost method Refresh(cid: Bytes32)
      requires ValidBut(cid) && cid in sessions
      modifies this`Model
      ensures Valid()
      ensures Model == old(Model).(sessions := Put(old(Model).sessions, cid, Some(sessions[cid].View())))
    {
      Model := Model.(sessions := Put(Model.sessions, cid, Some(sessions[cid].View())));
    }

    constructor (lib: Primitives, cfg: Config, maxConcurrent: nat)
      ensures Valid()
      ensures Model == Core(map[], 0, maxConcurrent, map[])
      ensures this.lib == lib && this.sealer == SealerOf(lib) && this.cfg == cfg
    {
      this.lib, this.sealer, this.cfg, this.maxConcurrent := lib, SealerOf(lib), cfg, maxConcurrent;
      guard := new ReplayGuard();
      sendCounter := 0;
      sessions := map[];
      Model := Core(map[], 0, maxConcurrent, map[]);
    }

    method StreamCount() returns (n: nat)
      requires Valid()
      ensures n == |Model.sessions|
    {
      assert |Model.sessions| == |Model.sessions.Keys| && |sessions| == |sessions.Keys|;
      n := |sessions|;
    }

    method Insert(cid: Bytes32, s: StreamSession)
      requires Valid() && cid !in sessions && s !in sessions.Values
      modifies this`sessions, this`Model
      ensures Valid() && sessions.Values <= old(sessions.Values) + {s}
      ensures Model == old(Model).(sessions := Put(old(Model).sessions, cid, Some(s.View())))
    {
      sessions := sessions[cid := s];
      Model := Model.(sessions := Model.sessions[cid := s.View()]);
    }

    method Remove(cid: Bytes32)
      requires Valid()
      modifies this`sessions, this`Model
      ensures Valid() && sessions.Values <= old(sessions.Values)
      ensures Model == old(Model).(sessions := Put(old(Model).sessions, cid, None))
    {
      sessions := sessions - {cid};
      Model := Model.(sessions := Model.sessions - {cid});
    }

    /** Drop a session once both directions are closed. */
    method DropIfClosed(cid: Bytes32)
      requires Valid()
      modifies this`sessions, this`Model
      ensures Valid() && sessions.Values <= old(sessions.Values)
      ensures Model == if cid in old(Model).sessions && IsClosed(old(Model).sessions[cid])
                       then old(Model).(sessions := Put(old(Model).sessions, cid, None)) else old(Model)
    {
      if cid in sessions {
        var state := sessions[cid].State();
        if state == Closed {
          Remove(cid);
        }
      }
    }

    /** Seal one frame under a fresh ephemeral, taking one outbound counter. */
    method SealFrame(cid: Bytes32, hdr: StreamHeader, payload: Bytes, now: u64, expiresAt: u64,
                     entropy: Option<SecretKey>)
      returns (r: Result<DigMessageEnvelope>)
      requires Valid()
      modifies this`sendCounter, this`Model
      ensures Valid()
      ensures Model == old(Model).(sendCounter := WrapInc(old(Model).sendCounter))
      ensures r == sealer(FrameParams(cfg, old(Model).sendCounter, cid, hdr, payload, now, expiresAt), entropy)
    {
      var counter := sendCounter;
      sendCounter := WrapInc(sendCounter);
      Model := Model.(sendCounter := sendCounter);
      r := sealer(FrameParams(cfg, counter, cid, hdr, payload, now, expiresAt), entropy);
    }

    /** `session_mut(cid)?` and the builder `op` calls for, on a known stream. */
    method BuildFrame(cid: Bytes32, op: AppOp) returns (hdr: Result<StreamHeader>)
      requires Valid() && cid in sessions && !op.AppOpen?
      modifies sessions[cid], this`Model
      ensures Valid()
      ensures var (s, h) := Build(old(Model).sessions[cid], op);
              hdr == h && Model == old(Model).(sessions := Put(old(Model).sessions, cid, Some(s)))
    {
      var s := sessions[cid];
      hdr := CallBuilder(s, op);
      Refresh(cid);
    }

    method OpenStream(cid: Bytes32, recvWindow: u32, now: u64, expiresAt: u64, entropy: Option<SecretKey>)
      returns (r: Result<DigMessageEnvelope>)
      requires Valid()
      modifies this
      ensures Valid() && fresh(sessions.Values - old(sessions.Values))
      ensures (Model, r) == Send(sealer, cfg, old(Model), cid, AppOpen(recvWindow), now, expiresAt, entropy)
    {
      if cid in sessions {
        return Err(StreamProtocol(CorrelationIdInUse));
      }
      var n := StreamCount();
      if n >= maxConcurrent {
        return Err(StreamLimit(maxConcurrent));
      }
      StartInitiator(cid, recvWindow);
      var hdr := MakeHeader(FrameKind.Open, 0, recvWindow);
      r := SealFrame(cid, hdr, [], now, expiresAt, entropy);
    }

    /** Look the stream up, build the frame, seal it; the session is kept. */
    method BuildAndSeal(cid: Bytes32, op: AppOp, now: u64, expiresAt: u64, entropy: Option<SecretKey>)
      returns (r: Result<DigMessageEnvelope>)
      requires Valid() && !op.AppOpen?
      modifies this`sendCounter, this`Model, sessions.Values
      ensures Valid()
      ensures (Model, r) == SendKeeping(sealer, cfg, old(Model), cid, op, now, expiresAt, entropy)
    {
      if cid !in sessions {
        return Err(StreamProtocol(UnknownStream));
      }
      SendOnKnown(sealer, cfg, Model, cid, op, now, expiresAt, entropy);
      var hdr := BuildFrame(cid, op);
      if hdr.Err? {
        return Err(hdr.error);
      }
      r := SealFrame(cid, hdr.value, PayloadOf(op), now, expiresAt, entropy);
    }

    method OpenAckStream(cid: Bytes32, recvWindow: u32, now: u64, expiresAt: u64, entropy: Option<SecretKey>)
      returns (r: Result<DigMessageEnvelope>)
      requires Valid()
      modifies this`sendCounter, this`Model, sessions.Values
      ensures Valid()
      ensures (Model, r) == Send(sealer, cfg, old(Model), cid, AppOpenAck(recvWindow), now, expiresAt, entropy)
    {
      SendKeeps(sealer, cfg, Model, cid, AppOpenAck(recvWindow), now, expiresAt, entropy);
      r := BuildAndSeal(cid, AppOpenAck(recvWindow), now, expiresAt, entropy);
    }

    method SendData(cid: Bytes32, payload: Bytes, now: u64, expiresAt: u64, entropy: Option<SecretKey>)
      returns (r: Result<DigMessageEnvelope>)
      requires Valid()
      modifies this`sendCounter, this`Model, sessions.Values
      ensures Valid()
      ensures (Model, r) == Send(sealer, cfg, old(Model), cid, AppData(payload), now, expiresAt, entropy)
    {
      SendKeeps(sealer, cfg, Model, cid, AppData(payload), now, expiresAt, entropy);
      r := BuildAndSeal(cid, AppData(payload), now, expiresAt, entropy);
    }

    method GrantCredit(cid: Bytes32, n: u32, now: u64, expiresAt: u64, entropy: Option<SecretKey>)
      returns (r: Result<DigMessageEnvelope>)
      requires Valid()
      modifies this`sendCounter, this`Model, sessions.Values
      ensures Valid()
      ensures (Model, r) == Send(sealer, cfg, old(Model), cid, AppCredit(n), now, expiresAt, entropy)
    {
      SendKeeps(sealer, cfg, Model, cid, AppCredit(n), now, expiresAt, entropy);
      r := BuildAndSeal(cid, AppCredit(n), now, expiresAt, entropy);
    }

    /** The session is dropped only after the CLOSE is sealed, and only if the peer closed too. */
    method CloseStream(cid: Bytes32, now: u64, expiresAt: u64, entropy: Option<SecretKey>)
      returns (r: Result<DigMessageEnvelope>)
      requires Valid()
      modifies this, sessions.Values
      ensures Valid() && sessions.Values <= old(sessions.Values)
      ensures (Model, r) == Send(sealer, cfg, old(Model), cid, AppClose, now, expiresAt, entropy)
    {
      ghost var e := Model;
      SendKeepsThenDrops(sealer, cfg, e, cid, AppClose, now, expiresAt, entropy);
      r := BuildAndSeal(cid, AppClose, now, expiresAt, entropy);
      if r.Err? {
        return;
      }
      DropIfClosed(cid);
    }

    /** The session is dropped only after the RESET is sealed. */
    method ResetStream(cid: Bytes32, now: u64, expiresAt: u64, entropy: Option<SecretKey>)
      returns (r: Result<DigMessageEnvelope>)
      requires Valid()
      modifies this, sessions.Values
      ensures Valid() && sessions.Values <= old(sessions.Values)
      ensures (Model, r) == Send(sealer, cfg, old(Model), cid, AppReset, now, expiresAt, entropy)
    {
      ghost var e := Model;
      SendKeepsThenDrops(sealer, cfg, e, cid, AppReset, now, expiresAt, entropy);
      r := BuildAndSeal(cid, AppReset, now, expiresAt, entropy);
      if r.Err? {
        return;
      }
      Remove(cid);
    }

    /** Seal a RESET to the peer and report why. */
    method ResetResponse(cid: Bytes32, cause: MessageError, now: u64, entropy: Option<SecretKey>)
      returns (r: Result<StreamAccept>)
      requires Valid()
      modifies this`sendCounter, this`Model
      ensures Valid()
      ensures Model == old(Model).(sendCounter := WrapInc(old(Model).sendCounter))
      ensures r == Respond(sealer, cfg, old(Model).sendCounter, cid, Abort(cause), now, entropy)
    {
      var frame := SealFrame(cid, RESET_HEADER, [], now, 0, entropy);
      if frame.Err? {
        return Err(frame.error);
      }
      return Ok(ResetSent(frame.value, cause));
    }

    /** An inbound OPEN: refuse a live correlation id or a full endpoint, else start a responder. */
    method AcceptOpen(cid: Bytes32, hdr: StreamHeader, payload: Bytes, now: u64, entropy: Option<SecretKey>)
      returns (r: Result<StreamAccept>)
      requires Valid()
      modifies this`sessions, this`sendCounter, this`Model
      ensures Valid() && fresh(sessions.Values - old(sessions.Values))
      ensures (Model, r) == React(sealer, cfg, old(Model), cid, FrameKind.Open, hdr, payload, now, entropy)
    {
      ReactOnOpen(sealer, cfg, Model, cid, hdr, payload, now, entropy);
      if cid in sessions {
        r := AbortStream(cid, StreamProtocol(DuplicateOpen), now, entropy);
      } else {
        r := AdmitOpen(cid, hdr, now, entropy);
      }
    }

    /** An OPEN under a new correlation id. */
    method AdmitOpen(cid: Bytes32, hdr: StreamHeader, now: u64, entropy: Option<SecretKey>)
      returns (r: Result<StreamAccept>)
      requires Valid() && cid !in sessions
      modifies this`sessions, this`sendCounter, this`Model
      ensures Valid() && fresh(sessions.Values - old(sessions.Values))
      ensures Model == if Full(old(Model)) then old(Model).(sendCounter := WrapInc(old(Model).sendCounter))
                       else old(Model).(sessions := Put(old(Model).sessions, cid, Some(NewResponder(hdr.window))))
      ensures r == if Full(old(Model))
                   then Respond(sealer, cfg, old(Model).sendCounter, cid, Abort(StreamLimit(maxConcurrent)), now,
                                entropy)
                   else Ok(Event(StreamOpened))
    {
      var n := StreamCount();
      if n >= maxConcurrent {
        r := ResetResponse(cid, StreamLimit(maxConcurrent), now, entropy);
        return;
      }
      StartResponder(cid, hdr.window);
      return Ok(Event(StreamOpened));
    }

    /** Drop the session and answer with a RESET. */
    method AbortStream(cid: Bytes32, cause: MessageError, now: u64, entropy: Option<SecretKey>)
      returns (r: Result<StreamAccept>)
      requires Valid()
      modifies this`sessions, this`sendCounter, this`Model
      ensures Valid() && sessions.Values <= old(sessions.Values)
      ensures Model == old(Model).(sessions := Put(old(Model).sessions, cid, None),
                                   sendCounter := WrapInc(old(Model).sendCounter))
      ensures r == Respond(sealer, cfg, old(Model).sendCounter, cid, Abort(cause), now, entropy)
    {
      Remove(cid);
      r := ResetResponse(cid, cause, now, entropy);
    }

    method StartResponder(cid: Bytes32, grantedCredit: u32)
      requires Valid() && cid !in sessions
      modifies this`sessions, this`Model
      ensures Valid() && fresh(sessions.Values - old(sessions.Values))
      ensures Model == old(Model).(sessions := Put(old(Model).sessions, cid, Some(NewResponder(grantedCredit))))
    {
      var s := new StreamSession.AsResponder(grantedCredit);
      Insert(cid, s);
    }

    method StartInitiator(cid: Bytes32, recvWindow: u32)
      requires Valid() && cid !in sessions
      modifies this`sessions, this`Model
      ensures Valid() && fresh(sessions.Values - old(sessions.Values))
      ensures Model == old(Model).(sessions := Put(old(Model).sessions, cid, Some(NewInitiator(recvWindow))))
    {
      var s := new StreamSession.AsInitiator(recvWindow);
      Insert(cid, s);
    }

    /** A frame other than OPEN and RESET drives an existing session. */
    method DriveSession(cid: Bytes32, kind: FrameKind, hdr: StreamHeader, payload: Bytes, now: u64,
                        entropy: Option<SecretKey>)
      returns (r: Result<StreamAccept>)
      requires Valid() && cid in sessions && !kind.Open? && !kind.Reset?
      modifies this, sessions[cid]
      ensures Valid() && sessions.Values <= old(sessions.Values)
      ensures (Model, r) == React(sealer, cfg, old(Model), cid, kind, hdr, payload, now, entropy)
    {
      ReactOnKnown(sealer, cfg, Model, cid, kind, hdr, payload, now, entropy);
      var transition := ReceiveOn(cid, kind, hdr);
      if transition.Ok? {
        DropIfClosed(cid);
        return Ok(Event(ToEvent(transition.value, payload)));
      }
      r := AbortStream(cid, transition.error, now, entropy);
    }

    method ReceiveOn(cid: Bytes32, kind: FrameKind, hdr: StreamHeader) returns (transition: Result<Accepted>)
      requires Valid() && cid in sessions
      modifies sessions[cid], this`Model
      ensures Valid()
      ensures var (s, a) := OnRecv(old(Model).sessions[cid], kind, hdr);
              transition == a && Model == old(Model).(sessions := Put(old(Model).sessions, cid, Some(s)))
    {
      var s := sessions[cid];
      transition := s.Receive(kind, hdr);
      Refresh(cid);
    }

    method Dispatch(cid: Bytes32, kind: FrameKind, hdr: StreamHeader, payload: Bytes, now: u64,
                    entropy: Option<SecretKey>)
      returns (r: Result<StreamAccept>)
      requires Valid()
      modifies this, sessions.Values
      ensures Valid() && fresh(sessions.Values - old(sessions.Values))
      ensures (Model, r) == React(sealer, cfg, old(Model), cid, kind, hdr, payload, now, entropy)
    {
      ReactWithoutSession(sealer, cfg, Model, cid, kind, hdr, payload, now, entropy);
      if kind.Reset? {
        if cid in sessions {
          Remove(cid);
          return Ok(Event(StreamReset));
        }
        return Ok(Dropped(StreamProtocol(ResetForUnknownStream)));
      }
      if kind.Open? {
        r := AcceptOpen(cid, hdr, payload, now, entropy);
        return;
      }
      if cid !in sessions {
        return Ok(Dropped(StreamProtocol(UnknownStream)));
      }
      r := DriveSession(cid, kind, hdr, payload, now, entropy);
    }

    /** Open and verify an inbound envelope and drive the stream it names. */
    method AcceptEnvelope(env: DigMessageEnvelope, resolve: Resolver, now: u64, entropy: Option<SecretKey>)
      returns (r: Result<StreamAccept>, ghost victim: SenderKey)
      requires Valid()
      modifies this, sessions.Values, guard, guard.senders.Values
      ensures Valid()
      ensures fresh(sessions.Values - old(sessions.Values)) && fresh(guard.senders.Values - old(guard.senders.Values))
      ensures (Model, r) == Accept(lib, sealer, cfg, old(Model), env, resolve, now, victim, entropy)
      ensures LegalOpen(lib, cfg.identitySk, env, resolve, old(Model).guard, now, victim)
    {
      ghost var before := Model;
      var msg;
      msg, victim := OpenAndRecord(env, resolve, now);
      AcceptIsAfterOpen(lib, sealer, cfg, before, Model, env, msg, resolve, now, victim, entropy);
      ghost var senders := guard.senders;
      r := HandleOpened(env, msg, now, entropy);
      assert guard.senders == senders;
    }

    method OpenAndRecord(env: DigMessageEnvelope, resolve: Resolver, now: u64)
      returns (msg: Result<OpenedMessage>, ghost victim: SenderKey)
      requires Valid()
      modifies this`Model, guard, guard.senders.Values
      ensures Valid() && sessions == old(sessions) && fresh(guard.senders.Values - old(guard.senders.Values))
      ensures Model == old(Model).(guard := Model.guard)
      ensures (Model.guard, msg) == Seal.Open(lib, cfg.identitySk, env, resolve, old(Model).guard, now, victim)
      ensures LegalOpen(lib, cfg.identitySk, env, resolve, old(Model).guard, now, victim)
    {
      msg, victim := OpenMessage(lib, cfg.identitySk, env, resolve, guard, now);
      Model := Model.(guard := guard.Model);
    }

    method HandleOpened(env: DigMessageEnvelope, msg: Result<OpenedMessage>, now: u64, entropy: Option<SecretKey>)
      returns (r: Result<StreamAccept>)
      requires Valid()
      modifies this, sessions.Values
      ensures Valid() && fresh(sessions.Values - old(sessions.Values))
      ensures (Model, r) == AfterOpen(sealer, cfg, old(Model), env, msg, now, entropy)
    {
      if msg.Err? {
        return Ok(Dropped(msg.error));
      }
      if msg.value.sender != cfg.peerDid {
        return Ok(Dropped(StreamProtocol(WrongPeer)));
      }
      if env.header.stream.None? {
        return Ok(Dropped(StreamProtocol(NotAStreamEnvelope)));
      }
      var hdr := env.header.stream.value;
      var kind := KindOfByte(hdr.frame);
      if kind.None? {
        return Ok(Dropped(StreamProtocol(UnknownFrameKind)));
      }
      if !msg.value.shape.StreamFrameShape? {
        return Ok(Dropped(StreamProtocol(NotAStreamShape)));
      }
      r := Dispatch(env.header.correlationId, kind.value, hdr, msg.value.payload, now, entropy);
    }
  }
}
