/**
 The crypto-free per-stream state machine of src/stream.rs: handshake, strict sequence numbers,
 credit flow control, independent half-close and reset.  Value-level transitions first, then the
 class that performs them in place, then what every run of them keeps.
 */
module Session {
  import opened Types
  import opened Envelope

  datatype Role = Initiator | Responder
  datatype Handshake = Opening | Established
  datatype StreamState = StateOpening | StateOpen | HalfClosedLocal | HalfClosedRemote | Closed

  /** How the state machine classifies an inbound frame it accepts. */
  datatype Accepted =
    | HandshakeDone
    | DataIn
    | CreditIn(n: u64)
    | RemoteClosed
    | CloseAcked
    | PeerReset

  datatype Session = Session(
    role: Role,
    handshake: Handshake,
    sendSeq: u64,
    recvSeq: u64,
    sendCredit: u64,
    recvWindow: u64,
    localClosed: bool,
    remoteClosed: bool,
    reset: bool)

  function NewInitiator(recvWindow: u32): Session {
    Session(Initiator, Opening, 0, 0, 0, recvWindow, false, false, false)
  }

  function NewResponder(grantedCredit: u32): Session {
    Session(Responder, Opening, 0, 0, grantedCredit, 0, false, false, false)
  }

  function StateOf(s: Session): StreamState {
    if s.reset || (s.localClosed && s.remoteClosed) then Closed
    else if s.handshake.Opening? then StateOpening
    else if s.localClosed then HalfClosedLocal
    else if s.remoteClosed then HalfClosedRemote
    else StateOpen
  }

  predicate IsClosed(s: Session) {
    StateOf(s).Closed?
  }

  function MakeHeader(kind: FrameKind, seqNo: u64, window: u32): StreamHeader {
    StreamHeader(KindByte(kind), seqNo, window)
  }

  function Refuse<T>(v: Violation): Result<T> {
    Err(StreamProtocol(v))
  }

  function BuildOpenAck(s: Session, recvWindow: u32): (Session, Result<StreamHeader>) {
    if s.role != Responder || s.handshake != Opening then (s, Refuse(OpenAckOutOfPlace))
    else (s.(handshake := Established, recvWindow := recvWindow), Ok(MakeHeader(OpenAck, 0, recvWindow)))
  }

  function BuildData(s: Session): (Session, Result<StreamHeader>) {
    if s.handshake != Established then (s, Refuse(DataBeforeEstablished))
    else if s.localClosed then (s, Refuse(DataAfterClose))
    else if s.sendCredit == 0 then (s, Refuse(NoCredit))
    else (s.(sendCredit := s.sendCredit - 1, sendSeq := WrapInc(s.sendSeq)), Ok(MakeHeader(Data, s.sendSeq, 0)))
  }

  function BuildCredit(s: Session, n: u32): (Session, Result<StreamHeader>) {
    if s.handshake != Established then (s, Refuse(CreditBeforeEstablished))
    else (s.(recvWindow := SatAdd(s.recvWindow, n)), Ok(MakeHeader(Credit, 0, n)))
  }

  function BuildClose(s: Session): (Session, Result<StreamHeader>) {
    if s.localClosed then (s, Refuse(DuplicateClose))
    else (s.(localClosed := true), Ok(MakeHeader(Close, 0, 0)))
  }

  function BuildReset(s: Session): (Session, StreamHeader) {
    (s.(reset := true), MakeHeader(Reset, 0, 0))
  }

  function OnRecv(s: Session, kind: FrameKind, hdr: StreamHeader): (Session, Result<Accepted>) {
    if s.reset then (s, Refuse(FrameAfterReset))
    else
      match kind
      case Open => (s, Refuse(DuplicateOpen))
      case OpenAck =>
        if s.role != Initiator || s.handshake != Opening then (s, Refuse(OpenAckOutOfPlace))
        else (s.(handshake := Established, sendCredit := hdr.window), Ok(HandshakeDone))
      case Data =>
        if s.handshake != Established then (s, Refuse(DataBeforeEstablished))
        else if s.remoteClosed then (s, Refuse(DataAfterClose))
        else if hdr.seqNo != s.recvSeq then (s, Refuse(WrongSeq))
        else if s.recvWindow == 0 then (s, Refuse(WindowExceeded))
        else (s.(recvWindow := s.recvWindow - 1, recvSeq := WrapInc(s.recvSeq)), Ok(DataIn))
      case Credit =>
        if s.handshake != Established then (s, Refuse(CreditBeforeEstablished))
        else (s.(sendCredit := SatAdd(s.sendCredit, hdr.window)), Ok(CreditIn(hdr.window)))
      case Close =>
        if s.handshake != Established then (s, Refuse(CloseBeforeEstablished))
        else if s.remoteClosed then (s, Refuse(DuplicateClose))
        else (s.(remoteClosed := true), Ok(RemoteClosed))
      case CloseAck =>
        if !s.localClosed then (s, Refuse(CloseAckWithoutClose)) else (s, Ok(CloseAcked))
      case Reset => (s.(reset := true), Ok(PeerReset))
  }

  // ---------------------------------------------------------------- the session in memory

  class StreamSession {
    const role: Role
    var handshake: Handshake
    var sendSeq: u64
    var recvSeq: u64
    var sendCredit: u64
    var recvWindowRemaining: u64
    var localClosed: bool
    var remoteClosed: bool
    var reset: bool

    ghost function View(): Session
      reads this
    {
      Session(role, handshake, sendSeq, recvSeq, sendCredit, recvWindowRemaining, localClosed, remoteClosed, reset)
    }

    constructor AsInitiator(recvWindow: u32)
      ensures View() == NewInitiator(recvWindow)
    {
      role, handshake := Initiator, Opening;
      sendSeq, recvSeq, sendCredit, recvWindowRemaining := 0, 0, 0, recvWindow;
      localClosed, remoteClosed, reset := false, false, false;
    }

    constructor AsResponder(grantedCredit: u32)
      ensures View() == NewResponder(grantedCredit)
    {
      role, handshake := Responder, Opening;
      sendSeq, recvSeq, sendCredit, recvWindowRemaining := 0, 0, grantedCredit, 0;
      localClosed, remoteClosed, reset := false, false, false;
    }

    method State() returns (state: StreamState)
      ensures state == StateOf(View())
    {
      if reset || (localClosed && remoteClosed) {
        return Closed;
      }
      if handshake == Opening {
        return StateOpening;
      }
      state := if localClosed then HalfClosedLocal else if remoteClosed then HalfClosedRemote else StateOpen;
    }

    method OpenAckFrame(recvWindow: u32) returns (r: Result<StreamHeader>)
      modifies this
      ensures (View(), r) == BuildOpenAck(old(View()), recvWindow)
    {
      if role != Responder || handshake != Opening {
        return Refuse(OpenAckOutOfPlace);
      }
      handshake := Established;
      recvWindowRemaining := recvWindow;
      return Ok(MakeHeader(OpenAck, 0, recvWindow));
    }

    method DataFrame() returns (r: Result<StreamHeader>)
      modifies this
      ensures (View(), r) == BuildData(old(View()))
    {
      if handshake != Established {
        return Refuse(DataBeforeEstablished);
      }
      if localClosed {
        return Refuse(DataAfterClose);
      }
      if sendCredit == 0 {
        return Refuse(NoCredit);
      }
      sendCredit := sendCredit - 1;
      var seqNo := sendSeq;
      sendSeq := WrapInc(sendSeq);
      return Ok(MakeHeader(Data, seqNo, 0));
    }

    method CreditFrame(n: u32) returns (r: Result<StreamHeader>)
      modifies this
      ensures (View(), r) == BuildCredit(old(View()), n)
    {
      if handshake != Established {
        return Refuse(CreditBeforeEstablished);
      }
      recvWindowRemaining := SatAdd(recvWindowRemaining, n);
      return Ok(MakeHeader(Credit, 0, n));
    }

    method CloseFrame() returns (r: Result<StreamHeader>)
      modifies this
      ensures (View(), r) == BuildClose(old(View()))
    {
      if localClosed {
        return Refuse(DuplicateClose);
      }
      localClosed := true;
      return Ok(MakeHeader(Close, 0, 0));
    }

    method ResetFrame() returns (hdr: StreamHeader)
      modifies this
      ensures (View(), hdr) == BuildReset(old(View()))
    {
      reset := true;
      hdr := MakeHeader(Reset, 0, 0);
    }

    /** Validate and apply one inbound frame; an illegal one changes nothing. */
    method Receive(kind: FrameKind, hdr: StreamHeader) returns (r: Result<Accepted>)
      modifies this
      ensures (View(), r) == OnRecv(old(View()), kind, hdr)
    {
      if reset {
        return Refuse(FrameAfterReset);
      }
      match kind {
        case Open =>
          return Refuse(DuplicateOpen);
        case OpenAck =>
          if role != Initiator || handshake != Opening {
            return Refuse(OpenAckOutOfPlace);
          }
          handshake := Established;
          sendCredit := hdr.window;
          return Ok(HandshakeDone);
        case Data =>
          if handshake != Established {
            return Refuse(DataBeforeEstablished);
          }
          if remoteClosed {
            return Refuse(DataAfterClose);
          }
          if hdr.seqNo != recvSeq {
            return Refuse(WrongSeq);
          }
          if recvWindowRemaining == 0 {
            return Refuse(WindowExceeded);
          }
          recvWindowRemaining := recvWindowRemaining - 1;
          recvSeq := WrapInc(recvSeq);
          return Ok(DataIn);
        case Credit =>
          if handshake != Established {
            return Refuse(CreditBeforeEstablished);
          }
          sendCredit := SatAdd(sendCredit, hdr.window);
          return Ok(CreditIn(hdr.window));
        case Close =>
          if handshake != Established {
            return Refuse(CloseBeforeEstablished);
          }
          if remoteClosed {
            return Refuse(DuplicateClose);
          }
          remoteClosed := true;
          return Ok(RemoteClosed);
        case CloseAck =>
          if !localClosed {
            return Refuse(CloseAckWithoutClose);
          }
          return Ok(CloseAcked);
        case Reset =>
          reset := true;
          return Ok(PeerReset);
      }
    }
  }

  // ---------------------------------------------------------------- runs of one session

  /** Everything that can happen to a session. */
  datatype SessionOp =
    | DoOpenAck(recvWindow: u32)
    | DoData
    | DoCredit(n: u32)
    | DoClose
    | DoReset
    | Recv(kind: FrameKind, hdr: StreamHeader)

  /** A session with unbounded totals of what crossed it. */
  datatype Ledger = Ledger(session: Session, stamped: nat, taken: nat, received: nat, granted: nat)

  function StartInitiator(w: u32): Ledger {
    Ledger(NewInitiator(w), 0, 0, 0, w)
  }

  function StartResponder(w: u32): Ledger {
    Ledger(NewResponder(w), 0, 0, w, 0)
  }

  function Apply(s: Session, op: SessionOp): (Session, bool) {
    match op
    case DoOpenAck(w) => var (s', r) := BuildOpenAck(s, w); (s', r.Ok?)
    case DoData => var (s', r) := BuildData(s); (s', r.Ok?)
    case DoCredit(n) => var (s', r) := BuildCredit(s, n); (s', r.Ok?)
    case DoClose => var (s', r) := BuildClose(s); (s', r.Ok?)
    case DoReset => (BuildReset(s).0, true)
    case Recv(kind, hdr) => var (s', r) := OnRecv(s, kind, hdr); (s', r.Ok?)
  }

  function Record(l: Ledger, op: SessionOp): Ledger {
    var (s', ok) := Apply(l.session, op);
    if !ok then l
    else
      match op
      case DoOpenAck(w) => l.(session := s', granted := l.granted + w)
      case DoData => l.(session := s', stamped := l.stamped + 1)
      case DoCredit(n) => l.(session := s', granted := l.granted + n)
      case DoClose => l.(session := s')
      case DoReset => l.(session := s')
      case Recv(kind, hdr) =>
        if kind.Data? then l.(session := s', taken := l.taken + 1)
        else if kind.OpenAck? || kind.Credit? then l.(session := s', received := l.received + hdr.window)
        else l.(session := s')
  }

  function RecordAll(l: Ledger, ops: seq<SessionOp>): Ledger {
    if ops == [] then l else Record(RecordAll(l, ops[..|ops| - 1]), ops[|ops| - 1])
  }

  /**
   Credit balances: what was stamped plus what may still be stamped never exceeds the credit
   received, with equality as long as the credit received fits 64 bits; likewise inbound.
   */
  ghost predicate Balanced(l: Ledger) {
    SeqsCount(l) && CreditBalanced(l)
  }

  /** The sequence numbers count the frames, wrapping at 64 bits. */
  predicate SeqsCount(l: Ledger) {
    && l.session.sendSeq == l.stamped % (U64_MAX + 1)
    && l.session.recvSeq == l.taken % (U64_MAX + 1)
  }

  ghost predicate CreditBalanced(l: Ledger) {
    var s := l.session;
    && l.stamped + s.sendCredit <= l.received
    && l.taken + s.recvWindow <= l.granted
    && (l.received <= U64_MAX ==> l.stamped + s.sendCredit == l.received)
    && (l.granted <= U64_MAX ==> l.taken + s.recvWindow == l.granted)
    && (s.handshake.Opening? && s.role.Initiator? ==> l.received == 0)
    && (s.handshake.Opening? && s.role.Responder? ==> l.granted == 0)
  }

  lemma WrapCount(x: u64, n: nat)
    requires x == n % (U64_MAX + 1)
    ensures WrapInc(x) == (n + 1) % (U64_MAX + 1)
  {}

  lemma RecordCounts(l: Ledger, op: SessionOp)
    requires SeqsCount(l)
    ensures SeqsCount(Record(l, op))
  {
    WrapCount(l.session.sendSeq, l.stamped);
    WrapCount(l.session.recvSeq, l.taken);
  }

  lemma RecordBalances(l: Ledger, op: SessionOp)
    requires CreditBalanced(l)
    ensures CreditBalanced(Record(l, op))
  {}

  /** Along every run of a session the ledger balances. */
  lemma {:induction false} LedgerBalances(l: Ledger, ops: seq<SessionOp>)
    requires (exists w: u32 :: l == StartInitiator(w)) || (exists w: u32 :: l == StartResponder(w))
    ensures Balanced(RecordAll(l, ops))
  {
    if ops != [] {
      LedgerBalances(l, ops[..|ops| - 1]);
      RecordCounts(RecordAll(l, ops[..|ops| - 1]), ops[|ops| - 1]);
      RecordBalances(RecordAll(l, ops[..|ops| - 1]), ops[|ops| - 1]);
    }
  }

  /** The order in which states may follow one another; the two half-closed states are unordered. */
  predicate NotLater(a: StreamState, b: StreamState) {
    a == b || a.StateOpening? || b.Closed? || (a.StateOpen? && !b.StateOpening?)
  }

  lemma ApplyMovesForward(s: Session, op: SessionOp)
    ensures NotLater(StateOf(s), StateOf(Apply(s, op).0))
  {}

  lemma RecordIsApply(l: Ledger, op: SessionOp)
    ensures Record(l, op).session == Apply(l.session, op).0
  {}

  lemma {:induction false} RunMovesForward(l: Ledger, ops: seq<SessionOp>, n: nat)
    requires n <= |ops|
    ensures NotLater(StateOf(RecordAll(l, ops[..n]).session), StateOf(RecordAll(l, ops).session))
  {
    if n == |ops| {
      assert ops[..n] == ops;
    } else {
      var init := ops[..|ops| - 1];
      RunMovesForward(l, init, n);
      assert init[..n] == ops[..n];
      var last := ops[|ops| - 1];
      RecordIsApply(RecordAll(l, init), last);
      ApplyMovesForward(RecordAll(l, init).session, last);
    }
  }

  /**
   Who may still send DATA.  The observable state decides it for the peer: in Open and
   HalfClosedLocal.  For us it is Open and HalfClosedRemote, and one more case: `build_data` does not
   look at the reset flag, so a reset session that is still stored stamps DATA although it is Closed.
   */
  lemma StatePredictsData(s: Session, hdr: StreamHeader)
    ensures BuildData(s).1.Ok?
            <==> s.sendCredit > 0
                 && (StateOf(s).StateOpen? || StateOf(s).HalfClosedRemote?
                     || (s.reset && s.handshake.Established? && !s.localClosed))
    ensures OnRecv(s, Data, hdr).1.Ok?
            <==> (StateOf(s).StateOpen? || StateOf(s).HalfClosedLocal?) && hdr.seqNo == s.recvSeq && s.recvWindow > 0
  {}
}
