/**
 What the calls of an endpoint and `accept` yield, spelled out: every refusal with its reason, every
 frame with its header, every event with its content, and the envelope that carries a frame.
 */
module Outcomes {
  import opened Types
  import opened Envelope
  import opened Crypto
  import opened ReplayGuard
  import opened Seal
  import opened Session
  import opened Endpoint

  // ---------------------------------------------------------------- sending

  /** Why a call builds no frame: the checks of the endpoint, then those of the session, in order. */
  function CallRefusal(e: Core, cid: Bytes32, op: AppOp): Option<MessageError> {
    if op.AppOpen? then
      if cid in e.sessions then Some(StreamProtocol(CorrelationIdInUse))
      else if |e.sessions| >= e.cap then Some(StreamLimit(e.cap)) else None
    else if cid !in e.sessions then Some(StreamProtocol(UnknownStream))
    else
      var s := e.sessions[cid];
      match op
      case AppOpenAck(_) =>
        if s.role.Responder? && s.handshake.Opening? then None else Some(StreamProtocol(OpenAckOutOfPlace))
      case AppData(_) =>
        if s.handshake.Opening? then Some(StreamProtocol(DataBeforeEstablished))
        else if s.localClosed then Some(StreamProtocol(DataAfterClose))
        else if s.sendCredit == 0 then Some(StreamProtocol(NoCredit)) else None
      case AppCredit(_) => if s.handshake.Opening? then Some(StreamProtocol(CreditBeforeEstablished)) else None
      case AppClose => if s.localClosed then Some(StreamProtocol(DuplicateClose)) else None
      case AppReset => None
  }

  /** The header of the frame a call builds, byte values included. */
  function FrameHeader(e: Core, cid: Bytes32, op: AppOp): StreamHeader {
    match op
    case AppOpen(w) => StreamHeader(0, 0, w)
    case AppOpenAck(w) => StreamHeader(1, 0, w)
    case AppData(_) => StreamHeader(2, if cid in e.sessions then e.sessions[cid].sendSeq else 0, 0)
    case AppCredit(n) => StreamHeader(3, 0, n)
    case AppClose => StreamHeader(4, 0, 0)
    case AppReset => StreamHeader(6, 0, 0)
  }

  /** A call is refused exactly for these reasons, changing nothing, and else builds exactly this header. */
  lemma CallExactly(e: Core, cid: Bytes32, op: AppOp, isSealed: bool)
    ensures var (e', r) := App(e, cid, op, isSealed);
            match CallRefusal(e, cid, op)
            case Some(cause) => e' == e && r == Err(cause)
            case None => r == Ok(FrameHeader(e, cid, op))
  {
    PutSame(e.sessions, cid);
  }

  /** The session of stream `cid` after a call that was not refused; None once the stream is gone. */
  function SlotAfterCall(e: Core, cid: Bytes32, op: AppOp, isSealed: bool): Option<Session> {
    if op.AppOpen? then Some(Session(Initiator, Opening, 0, 0, 0, op.recvWindow, false, false, false))
    else if cid !in e.sessions then None
    else
      var s := e.sessions[cid];
      match op
      case AppOpenAck(w) => Some(s.(handshake := Established, recvWindow := w))
      case AppData(_) =>
        Some(s.(sendCredit := if s.sendCredit > 0 then s.sendCredit - 1 else 0,
                sendSeq := if s.sendSeq == U64_MAX then 0 else s.sendSeq + 1))
      case AppCredit(n) => Some(s.(recvWindow := if s.recvWindow + n > U64_MAX then U64_MAX else s.recvWindow + n))
      case AppClose => if isSealed && (s.remoteClosed || s.reset) then None else Some(s.(localClosed := true))
      case AppReset => if isSealed then None else Some(s.(reset := true))
  }

  /** A call that is not refused changes the one session it names as the table says, and takes one counter. */
  lemma {:induction false} CallEffect(e: Core, cid: Bytes32, op: AppOp, isSealed: bool)
    requires CallRefusal(e, cid, op).None?
    ensures var e' := App(e, cid, op, isSealed).0;
            && (forall c :: Get(e'.sessions, c) == if c == cid then SlotAfterCall(e, cid, op, isSealed)
                                                   else Get(e.sessions, c))
            && e'.sendCounter == (if e.sendCounter == U64_MAX then 0 else e.sendCounter + 1)
            && e'.cap == e.cap && e'.guard == e.guard
  {
    var slot := SlotApp(Get(e.sessions, cid), Full(e), e.cap, op, isSealed).0;
    CallExactly(e, cid, op, isSealed);
    forall c ensures Get(Put(e.sessions, cid, slot), c) == if c == cid then slot else Get(e.sessions, c) {
      GetPut(e.sessions, cid, slot, c);
    }
  }

  /** What the sender and every reader of an envelope see of a frame: whose it is, and to whom it goes. */
  predicate Addressed(cfg: Config, cid: Bytes32, hdr: StreamHeader, env: DigMessageEnvelope) {
    env.header == Header(1, cfg.messageType, 7, cid, cfg.localDid, cfg.peerDid, cfg.localEpoch, Some(hdr))
  }

  /**
   A sending call seals its frame for the peer, under the identity key, the endpoint's next counter,
   the caller's clock and expiry, with the payload of a DATA call and an empty one otherwise.
   */
  lemma {:induction false} SendExactly(p: Primitives, cfg: Config, e: Core, cid: Bytes32, op: AppOp, now: u64,
                                       expiresAt: u64, entropy: Option<SecretKey>)
    ensures var (e', r) := Send(SealerOf(p), cfg, e, cid, op, now, expiresAt, entropy);
            match CallRefusal(e, cid, op)
            case Some(cause) => e' == e && r == Err(cause)
            case None =>
              var hdr := FrameHeader(e, cid, op);
              && r == SealMessage(p, SealParams(
                        cfg.identitySk, cfg.localDid, cfg.localEpoch, cfg.peerDid, cfg.peerPub, cfg.messageType,
                        StreamFrameShape, cid, Some(hdr), e.sendCounter, now, expiresAt,
                        if op.AppData? then op.payload else []), entropy)
              && (r.Ok? ==> Addressed(cfg, cid, hdr, r.value))
  {
    CallExactly(e, cid, op, true);
  }

  // ---------------------------------------------------------------- receiving

  /** The reaction to an authenticated frame of the peer: the event, or the reason to drop or to reset. */
  function FrameReaction(e: Core, cid: Bytes32, kind: FrameKind, hdr: StreamHeader, payload: Bytes): Reaction {
    if kind.Reset? then
      if cid in e.sessions then Deliver(StreamReset) else Ignore(StreamProtocol(ResetForUnknownStream))
    else if kind.Open? then
      if cid in e.sessions then Abort(StreamProtocol(DuplicateOpen))
      else if |e.sessions| >= e.cap then Abort(StreamLimit(e.cap)) else Deliver(StreamOpened)
    else if cid !in e.sessions then Ignore(StreamProtocol(UnknownStream))
    else
      var s := e.sessions[cid];
      if s.reset then Abort(StreamProtocol(FrameAfterReset))
      else
        match kind
        case OpenAck =>
          if s.role.Initiator? && s.handshake.Opening? then Deliver(StreamEstablished)
          else Abort(StreamProtocol(OpenAckOutOfPlace))
        case Data =>
          if s.handshake.Opening? then Abort(StreamProtocol(DataBeforeEstablished))
          else if s.remoteClosed then Abort(StreamProtocol(DataAfterClose))
          else if hdr.seqNo != s.recvSeq then Abort(StreamProtocol(WrongSeq))
          else if s.recvWindow == 0 then Abort(StreamProtocol(WindowExceeded))
          else Deliver(DataDelivered(payload))
        case Credit =>
          if s.handshake.Opening? then Abort(StreamProtocol(CreditBeforeEstablished))
          else Deliver(CreditGranted(hdr.window))
        case Close =>
          if s.handshake.Opening? then Abort(StreamProtocol(CloseBeforeEstablished))
          else if s.remoteClosed then Abort(StreamProtocol(DuplicateClose)) else Deliver(PeerClosed)
        case CloseAck =>
          if s.localClosed then Deliver(CloseAcknowledged) else Abort(StreamProtocol(CloseAckWithoutClose))
  }

  /** The event of a delivered frame is the one its kind names, with the frame's own content. */
  lemma EventIsLiteral(e: Core, cid: Bytes32, kind: FrameKind, hdr: StreamHeader, payload: Bytes)
    ensures var reaction := Dispatch(e, cid, kind, hdr, payload).1;
            reaction.Deliver? ==>
              && (kind.Open? ==> reaction.event == StreamOpened)
              && (kind.OpenAck? ==> reaction.event == StreamEstablished)
              && (kind.Data? ==> reaction.event == DataDelivered(payload))
              && (kind.Credit? ==> reaction.event == CreditGranted(hdr.window))
              && (kind.Close? ==> reaction.event == PeerClosed)
              && (kind.CloseAck? ==> reaction.event == CloseAcknowledged)
              && (kind.Reset? ==> reaction.event == StreamReset)
  {}

  lemma DispatchExactly(e: Core, cid: Bytes32, kind: FrameKind, hdr: StreamHeader, payload: Bytes)
    ensures Dispatch(e, cid, kind, hdr, payload).1 == FrameReaction(e, cid, kind, hdr, payload)
  {}

  /** The session of stream `cid` after a frame that was delivered; None once the stream is gone. */
  function SlotAfterFrame(e: Core, cid: Bytes32, kind: FrameKind, hdr: StreamHeader): Option<Session> {
    if kind.Open? then Some(Session(Responder, Opening, 0, 0, hdr.window, 0, false, false, false))
    else if cid !in e.sessions then None
    else
      var s := e.sessions[cid];
      match kind
      case OpenAck => Kept(s.(handshake := Established, sendCredit := hdr.window))
      case Data =>
        Kept(s.(recvWindow := if s.recvWindow > 0 then s.recvWindow - 1 else 0,
                recvSeq := if s.recvSeq == U64_MAX then 0 else s.recvSeq + 1))
      case Credit =>
        Kept(s.(sendCredit := if s.sendCredit + hdr.window > U64_MAX then U64_MAX else s.sendCredit + hdr.window))
      case Close => Kept(s.(remoteClosed := true))
      case CloseAck => Kept(s)
      case Reset => None
  }

  /** A session with both halves closed is not kept. */
  function Kept(s: Session): Option<Session> {
    if s.reset || (s.localClosed && s.remoteClosed) then None else Some(s)
  }

  /**
   A delivered frame changes the one session it names as the table says, an aborted one removes it,
   an ignored one changes nothing; only an abort takes a counter.
   */
  lemma {:induction false} DispatchEffect(e: Core, cid: Bytes32, kind: FrameKind, hdr: StreamHeader, payload: Bytes)
    ensures var (e', reaction) := Dispatch(e, cid, kind, hdr, payload);
            && (forall c :: c != cid ==> Get(e'.sessions, c) == Get(e.sessions, c))
            && (reaction.Deliver? ==> Get(e'.sessions, cid) == SlotAfterFrame(e, cid, kind, hdr))
            && (reaction.Ignore? ==> e'.sessions == e.sessions)
            && (reaction.Abort? ==> cid !in e'.sessions)
            && e'.sendCounter == (if !reaction.Abort? then e.sendCounter
                                  else if e.sendCounter == U64_MAX then 0 else e.sendCounter + 1)
            && e'.cap == e.cap && e'.guard == e.guard
  {
    var slot := SlotRecv(Get(e.sessions, cid), Full(e), e.cap, kind, hdr, payload).0;
    SlotEffect(e, cid, kind, hdr, payload);
    PutSame(e.sessions, cid);
    forall c ensures Get(Put(e.sessions, cid, slot), c) == if c == cid then slot else Get(e.sessions, c) {
      GetPut(e.sessions, cid, slot, c);
    }
  }

  lemma SlotEffect(e: Core, cid: Bytes32, kind: FrameKind, hdr: StreamHeader, payload: Bytes)
    ensures var slot := Get(e.sessions, cid);
            var (slot', reaction) := SlotRecv(slot, Full(e), e.cap, kind, hdr, payload);
            && (reaction.Deliver? ==> slot' == SlotAfterFrame(e, cid, kind, hdr))
            && (reaction.Ignore? ==> slot' == slot)
            && (reaction.Abort? ==> slot'.None?)
  {}

  /** Why `accept` drops an envelope it could open, before any stream is looked at. */
  function FrameRefusal(cfg: Config, env: DigMessageEnvelope, m: OpenedMessage): Option<Violation> {
    if m.sender != cfg.peerDid then Some(WrongPeer)
    else if env.header.stream.None? then Some(NotAStreamEnvelope)
    else if env.header.stream.value.frame > 6 then Some(UnknownFrameKind)
    else if !m.shape.StreamFrameShape? then Some(NotAStreamShape)
    else None
  }

  /**
   `accept`, end to end: what cannot be outcome, is not the peer's or is no stream frame is dropped with
   its reason and changes nothing but the guard; anything else gets its reaction, where an abort is
   answered with a RESET sealed for the peer under the next counter, without expiry.
   */
  lemma {:induction false} AcceptExactly(p: Primitives, cfg: Config, e: Core, env: DigMessageEnvelope,
                                         resolve: Resolver, now: u64, victim: SenderKey, entropy: Option<SecretKey>)
    ensures var (t, outcome) := Seal.Open(p, cfg.identitySk, env, resolve, e.guard, now, victim);
            var (e', r) := Accept(p, SealerOf(p), cfg, e, env, resolve, now, victim, entropy);
            && e'.guard == t
            && match outcome
               case Err(cause) => e' == e.(guard := t) && r == Ok(Dropped(cause))
               case Ok(m) =>
                 match FrameRefusal(cfg, env, m)
                 case Some(v) => e' == e.(guard := t) && r == Ok(Dropped(StreamProtocol(v)))
                 case None =>
                   var cid, hdr := env.header.correlationId, env.header.stream.value;
                   && KindOfByte(hdr.frame).Some?
                   && match FrameReaction(e, cid, KindOfByte(hdr.frame).value, hdr, m.payload)
                      case Deliver(event) => r == Ok(Event(event))
                      case Ignore(cause) => r == Ok(Dropped(cause))
                      case Abort(cause) => ResetFor(p, cfg, e.sendCounter, cid, cause, now, entropy, r)
  {
    var (t, outcome) := Seal.Open(p, cfg.identitySk, env, resolve, e.guard, now, victim);
    AfterOpenExactly(p, cfg, e.(guard := t), env, outcome, now, entropy);
    if env.header.stream.Some? && KindOfByte(env.header.stream.value.frame).Some? && outcome.Ok? {
      var hdr := env.header.stream.value;
      ReactionIgnoresGuard(e, t, env.header.correlationId, KindOfByte(hdr.frame).value, hdr, outcome.value.payload);
    }
  }

  lemma ReactionIgnoresGuard(e: Core, t: Table, cid: Bytes32, kind: FrameKind, hdr: StreamHeader, payload: Bytes)
    ensures FrameReaction(e.(guard := t), cid, kind, hdr, payload) == FrameReaction(e, cid, kind, hdr, payload)
  {}

  /** `r` is the outcome of sealing a RESET for the peer, reported with its cause. */
  ghost predicate ResetFor(p: Primitives, cfg: Config, counter: u64, cid: Bytes32, cause: MessageError, now: u64,
                           entropy: Option<SecretKey>, r: Result<StreamAccept>) {
    var hdr := StreamHeader(6, 0, 0);
    match SealMessage(p, SealParams(
            cfg.identitySk, cfg.localDid, cfg.localEpoch, cfg.peerDid, cfg.peerPub, cfg.messageType,
            StreamFrameShape, cid, Some(hdr), counter, now, 0, []), entropy)
    case Err(x) => r == Err(x)
    case Ok(frame) => r == Ok(ResetSent(frame, cause)) && Addressed(cfg, cid, hdr, frame)
  }

  lemma {:induction false} ReactExactly(p: Primitives, cfg: Config, e: Core, cid: Bytes32, kind: FrameKind,
                                        hdr: StreamHeader, payload: Bytes, now: u64, entropy: Option<SecretKey>)
    ensures var (e', r) := React(SealerOf(p), cfg, e, cid, kind, hdr, payload, now, entropy);
            && e'.guard == e.guard
            && match FrameReaction(e, cid, kind, hdr, payload)
               case Deliver(event) => r == Ok(Event(event))
               case Ignore(cause) => r == Ok(Dropped(cause))
               case Abort(cause) => ResetFor(p, cfg, e.sendCounter, cid, cause, now, entropy, r)
  {
    DispatchExactly(e, cid, kind, hdr, payload);
  }

  lemma {:induction false} AfterOpenExactly(p: Primitives, cfg: Config, e: Core, env: DigMessageEnvelope,
                                            outcome: Result<OpenedMessage>, now: u64, entropy: Option<SecretKey>)
    ensures var (e', r) := AfterOpen(SealerOf(p), cfg, e, env, outcome, now, entropy);
            && e'.guard == e.guard
            && match outcome
               case Err(cause) => e' == e && r == Ok(Dropped(cause))
               case Ok(m) =>
                 match FrameRefusal(cfg, env, m)
                 case Some(v) => e' == e && r == Ok(Dropped(StreamProtocol(v)))
                 case None =>
                   var cid, hdr := env.header.correlationId, env.header.stream.value;
                   && KindOfByte(hdr.frame).Some?
                   && match FrameReaction(e, cid, KindOfByte(hdr.frame).value, hdr, m.payload)
                      case Deliver(event) => r == Ok(Event(event))
                      case Ignore(cause) => r == Ok(Dropped(cause))
                      case Abort(cause) => ResetFor(p, cfg, e.sendCounter, cid, cause, now, entropy, r)
  {
    if outcome.Ok? && FrameRefusal(cfg, env, outcome.value).None? {
      var hdr := env.header.stream.value;
      KindBytes(hdr.frame, FrameKind.Open);
      ReactExactly(p, cfg, e, env.header.correlationId, KindOfByte(hdr.frame).value, hdr, outcome.value.payload, now,
                   entropy);
    }
  }
}
