/**
 One stream between two endpoints over reliable first-in-first-out links, as a pair of sessions and
 the frames in flight each way.  The heart is `Inbox`: what a session will have seen once everything
 in flight to it has arrived.  Agreement says that this is exactly what the other side has sent.
 */
module Channel {
  import opened Types
  import opened Envelope
  import opened Session
  import opened Endpoint
  import opened Network

  /**
   What a session has seen and may see next.  `Doomed` is an initiator with a CLOSE coming in ahead
   of its OPEN_ACK: it will refuse that CLOSE.  `NotAcked` is a responder that has not answered yet;
   a CLOSE behind the OPEN is in order there if the OPEN_ACK is sent before it arrives.
   */
  datatype Inbox =
    | Bad
    | Aborted
    | Doomed
    | AwaitingAck(window: nat)
    | NotAcked(closed: bool)
    | At(next: nat, window: nat, closed: bool)

  function InboxOf(s: Session): Inbox {
    if s.handshake.Established? then At(s.recvSeq, s.recvWindow, s.remoteClosed)
    else if s.role.Initiator? then AwaitingAck(s.recvWindow)
    else NotAcked(false)
  }

  function Take(b: Inbox, f: Frame): Inbox {
    if b.Bad? || b.Doomed? then b
    else if b.Aborted? then Bad
    else if f.kind.Reset? then Aborted
    else
      match b
      case AwaitingAck(w) => if f.kind.OpenAck? then At(0, w, false) else if f.kind.Close? then Doomed else Bad
      case NotAcked(closed) => if f.kind.Close? && !closed then NotAcked(true) else Bad
      case At(next, w, closed) =>
        match f.kind
        case Data => if !closed && f.hdr.seqNo == next && w > 0 then At(next + 1, w - 1, false) else Bad
        case Credit => b
        case Close => if closed then Bad else At(next, w, true)
        case _ => Bad
  }

  function TakeAll(b: Inbox, fs: seq<Frame>): Inbox
    decreases |fs|
  {
    if fs == [] then b else TakeAll(Take(b, fs[0]), fs[1..])
  }

  /** Credit granted by the frames in flight. */
  function Grants(fs: seq<Frame>): nat {
    if fs == [] then 0 else GrantOf(fs[0]) + Grants(fs[1..])
  }

  function GrantOf(f: Frame): nat {
    if f.kind.OpenAck? || f.kind.Credit? then f.hdr.window else 0
  }

  /** The payloads of the DATA frames in flight. */
  function Payloads(fs: seq<Frame>): seq<Bytes> {
    if fs == [] then [] else (if fs[0].kind.Data? then [fs[0].payload] else []) + Payloads(fs[1..])
  }

  /** Frames that may follow an OPEN: nothing sends CLOSE_ACK, and sequence numbers have not run out. */
  predicate Plain(f: Frame) {
    !f.kind.Open? && !f.kind.CloseAck? && f.hdr.seqNo < U64_MAX
  }

  ghost predicate AllPlain(fs: seq<Frame>) {
    forall i :: 0 <= i < |fs| ==> Plain(fs[i])
  }

  /** A CLOSE that reaches a session whose handshake is not complete. */
  predicate TooEarly(slot: Slot, f: Frame) {
    slot.Some? && slot.value.handshake.Opening? && f.kind.Close?
  }

  /** What the receiver's inbox must come to, given how far the sender has got and the grants still flying to it. */
  function Expected(sender: Session, receiver: Session, grants: nat): Inbox {
    if receiver.role.Responder? && receiver.handshake.Opening? then NotAcked(sender.localClosed)
    else if sender.role.Responder? && sender.handshake.Opening? then
      if sender.localClosed then Doomed else AwaitingAck(sender.sendCredit + grants)
    else At(sender.sendSeq, sender.sendCredit + grants, sender.localClosed)
  }

  /** The invariant of one direction while both sessions live; a doomed receiver's sender has closed. */
  predicate Agrees(sender: Session, receiver: Session, there: seq<Frame>, back: seq<Frame>) {
    var b := TakeAll(InboxOf(receiver), there);
    b == Expected(sender, receiver, Grants(back)) || (b.Doomed? && sender.localClosed)
  }

  /** A stored session: not finished, and nothing sent or received but a CLOSE of ours while it is opening. */
  predicate Healthy(s: Session) {
    && !IsClosed(s)
    && (s.handshake.Opening? ==>
          s.sendSeq == 0 && s.recvSeq == 0 && !s.remoteClosed && (s.role.Initiator? ==> s.sendCredit == 0))
  }

  /** A live session can take what flies in, and has granted nothing while it is opening. */
  predicate Lives(s: Session, inflow: seq<Frame>, outflow: seq<Frame>) {
    Healthy(s) && !TakeAll(InboxOf(s), inflow).Bad? && (s.handshake.Opening? ==> Grants(outflow) == 0)
  }

  predicate HandshakeOrder(s: Session, t: Session) {
    s.role.Responder? && s.handshake.Opening? ==> t.handshake.Opening?
  }

  ghost predicate InStep(s: Session, t: Session, there: seq<Frame>, back: seq<Frame>) {
    && s.role != t.role
    && HandshakeOrder(s, t) && HandshakeOrder(t, s)
    && Agrees(s, t, there, back) && Agrees(t, s, back, there)
  }

  /**
   The channel after its OPEN has arrived: `there` flies from `p` to `q`, `back` from `q` to `p`.
   With `polite` set, every CLOSE was called on an established session; then none is coming in early.
   */
  ghost predicate Started(p: Slot, q: Slot, there: seq<Frame>, back: seq<Frame>, polite: bool) {
    && AllPlain(there) && AllPlain(back)
    && (p.Some? ==> Lives(p.value, back, there))
    && (q.Some? ==> Lives(q.value, there, back))
    && (p.Some? && q.Some? ==> InStep(p.value, q.value, there, back))
    && (polite ==> (there != [] ==> !TooEarly(q, there[0])) && (back != [] ==> !TooEarly(p, back[0])))
  }

  lemma StartedFlips(p: Slot, q: Slot, there: seq<Frame>, back: seq<Frame>, polite: bool)
    requires Started(p, q, there, back, polite)
    ensures Started(q, p, back, there, polite)
  {}

  // ---------------------------------------------------------------- folding facts

  lemma {:induction false} TakeAllSnoc(b: Inbox, fs: seq<Frame>, f: Frame)
    ensures TakeAll(b, fs + [f]) == Take(TakeAll(b, fs), f)
    decreases |fs|
  {
    if fs == [] {
      assert fs + [f] == [f] && [f][1..] == [];
    } else {
      TakeAllSnoc(Take(b, fs[0]), fs[1..], f);
      assert (fs + [f])[1..] == fs[1..] + [f];
    }
  }

  lemma {:induction false} GrantsSnoc(fs: seq<Frame>, f: Frame)
    ensures Grants(fs + [f]) == Grants(fs) + GrantOf(f)
  {
    if fs == [] {
      assert fs + [f] == [f] && [f][1..] == [];
    } else {
      GrantsSnoc(fs[1..], f);
      assert (fs + [f])[1..] == fs[1..] + [f];
    }
  }

  lemma {:induction false} PayloadsSnoc(fs: seq<Frame>, f: Frame)
    ensures Payloads(fs + [f]) == Payloads(fs) + (if f.kind.Data? then [f.payload] else [])
  {
    if fs == [] {
      assert fs + [f] == [f] && [f][1..] == [];
    } else {
      PayloadsSnoc(fs[1..], f);
      assert (fs + [f])[1..] == fs[1..] + [f];
    }
  }

  /** Three inboxes are final: nothing good follows a RESET, and nothing changes a bad or doomed one. */
  lemma {:induction false} TakeAllFinal(b: Inbox, fs: seq<Frame>)
    requires b.Bad? || b.Doomed? || b.Aborted?
    ensures TakeAll(b, fs) == if b.Aborted? && fs != [] then Bad else b
    decreases |fs|
  {
    if fs != [] { TakeAllFinal(Take(b, fs[0]), fs[1..]); }
  }

  /** Widening the window by `n` widens the outcome by `n`, and never turns a good run bad. */
  lemma {:induction false} TakeAllWider(next: nat, w: nat, closed: bool, fs: seq<Frame>, n: nat)
    requires !TakeAll(At(next, w, closed), fs).Bad?
    ensures var r := TakeAll(At(next, w, closed), fs);
            TakeAll(At(next, w + n, closed), fs) == if r.At? then r.(window := r.window + n) else r
    decreases |fs|
  {
    if fs != [] {
      var b := Take(At(next, w, closed), fs[0]);
      if b.At? {
        TakeAllWider(b.next, b.window, b.closed, fs[1..], n);
      } else {
        TakeAllFinal(b, fs[1..]);
      }
    }
  }

  /** Sending OPEN_ACK turns what could be in flight to an unanswered responder into what an open one can take. */
  lemma {:induction false} AckOpens(closed: bool, w: nat, fs: seq<Frame>)
    requires !TakeAll(NotAcked(closed), fs).Bad?
    ensures var r := TakeAll(NotAcked(closed), fs);
            TakeAll(At(0, w, closed), fs) == if r.NotAcked? then At(0, w, r.closed) else r
    decreases |fs|
  {
    if fs != [] {
      var b := Take(NotAcked(closed), fs[0]);
      if b.NotAcked? {
        AckOpens(b.closed, w, fs[1..]);
      } else {
        TakeAllFinal(b, fs[1..]);
      }
    }
  }

  /** An open inbox counts the DATA it takes, and takes none after a CLOSE. */
  lemma {:induction false} AtStaysAt(b: Inbox, fs: seq<Frame>)
    requires b.At?
    ensures var r := TakeAll(b, fs);
            && (r.At? || r.Bad? || r.Aborted?)
            && (r.At? ==> r.next == b.next + |Payloads(fs)| && r.window == b.window - |Payloads(fs)|)
            && (b.closed && !r.Bad? ==> Payloads(fs) == [] && (r.At? ==> r.closed))
    decreases |fs|
  {
    if fs != [] {
      var b1 := Take(b, fs[0]);
      if b1.At? { AtStaysAt(b1, fs[1..]); } else { TakeAllFinal(b1, fs[1..]); }
    }
  }

  // ---------------------------------------------------------------- a frame arrives

  /**
   The inbox is the exact acceptance condition: a session that is not reset accepts a frame if and
   only if the inbox can take it and it is not an early CLOSE; a CLOSE_ACK if and only if it has sent
   CLOSE.  A refused frame changes nothing.
   */
  lemma AcceptsExactlyTakes(s: Session, f: Frame)
    ensures OnRecv(s, f.kind, f.hdr).1.Ok?
            <==> !s.reset && if f.kind.CloseAck? then s.localClosed
                             else !Take(InboxOf(s), f).Bad? && !TooEarly(Some(s), f)
    ensures OnRecv(s, f.kind, f.hdr).1.Err? ==> OnRecv(s, f.kind, f.hdr).0 == s
  {}

  /** A frame the inbox can take leaves session and inbox in step, and touches nothing else. */
  lemma TakeIsOnRecv(s: Session, f: Frame)
    requires Healthy(s) && Plain(f) && !Take(InboxOf(s), f).Bad? && !f.kind.Reset? && !TooEarly(Some(s), f)
    ensures var (s', r) := OnRecv(s, f.kind, f.hdr);
            && r.Ok? && InboxOf(s') == Take(InboxOf(s), f) && s'.role == s.role && s'.handshake.Established?
            && s'.sendSeq == s.sendSeq && s'.localClosed == s.localClosed
            && (s.handshake.Opening? ==> f.kind.OpenAck? && s.role.Initiator? && s'.sendCredit == f.hdr.window)
            && (s.handshake.Established? ==>
                  s'.sendCredit == if f.kind.Credit? then SatAdd(s.sendCredit, f.hdr.window) else s.sendCredit)
            && (IsClosed(s') || Healthy(s'))
  {}

  /**
   `q` takes the first frame in flight to it.  It aborts, answering with a RESET, if and only if the
   frame is a CLOSE and its handshake is not complete; either way the channel stays in step.
   */
  lemma {:induction false} StartedTakes(p: Slot, q: Slot, there: seq<Frame>, back: seq<Frame>, polite: bool,
                                        full: bool, cap: nat, reset: Frame)
    requires Started(p, q, there, back, polite) && there != [] && reset.kind.Reset? && Plain(reset)
    ensures var f := there[0];
            var (q', reaction) := SlotRecv(q, full, cap, f.kind, f.hdr, f.payload);
            && (reaction.Abort? <==> TooEarly(q, f))
            && Started(p, q', there[1..], if reaction.Abort? then back + [reset] else back, polite)
  {
    var f := there[0];
    assert Plain(f);
    if q.Some? {
      var b := Take(InboxOf(q.value), f);
      if b.Bad? { TakeAllFinal(b, there[1..]); }
      if TooEarly(q, f) {
        EarlyCloseAborts(p, q.value, there, back, polite, reset);
      } else if !f.kind.Reset? {
        TakeIsOnRecv(q.value, f);
        if p.Some? { BothLiveTake(p.value, q.value, there, back); }
      }
    }
  }

  lemma EarlyCloseAborts(p: Slot, s: Session, there: seq<Frame>, back: seq<Frame>, polite: bool, reset: Frame)
    requires Started(p, Some(s), there, back, polite) && there != [] && TooEarly(Some(s), there[0])
    requires reset.kind.Reset? && Plain(reset)
    ensures Started(p, None, there[1..], back + [reset], polite)
  {
    if p.Some? { TakeAllSnoc(InboxOf(p.value), back, reset); }
  }

  lemma {:induction false} BothLiveTake(p: Session, s: Session, there: seq<Frame>, back: seq<Frame>)
    requires Lives(p, back, there) && Lives(s, there, back) && InStep(p, s, there, back)
    requires there != [] && Plain(there[0]) && !there[0].kind.Reset? && !TooEarly(Some(s), there[0])
    requires !Take(InboxOf(s), there[0]).Bad?
    ensures InStep(p, OnRecv(s, there[0].kind, there[0].hdr).0, there[1..], back)
  {
    var f := there[0];
    TakeIsOnRecv(s, f);
    AtStaysAt(Take(InboxOf(s), f), there[1..]);
    if f.kind.Credit? && InboxOf(p).At? {
      // the credit fits, because the granter's window already contains it
      AtStaysAt(InboxOf(p), back);
    }
  }

  // ---------------------------------------------------------------- a frame is sent

  /** The one thing asked of an application: keep the window it grants within 64 bits. */
  predicate GrantFits(s: Session, op: AppOp) {
    op.AppCredit? ==> s.recvWindow + op.n <= U64_MAX
  }

  /** Closing only established streams. */
  predicate Polite(s: Session, op: AppOp) {
    op.AppClose? ==> s.handshake.Established?
  }

  predicate Carries(f: Frame, hdr: StreamHeader) {
    f.hdr == hdr && f.kind == KindOfHeader(hdr)
  }

  lemma SendsOpenAck(s: Session, q: Slot, there: seq<Frame>, back: seq<Frame>, polite: bool, w: u32, f: Frame)
    requires Started(Some(s), q, there, back, polite)
    requires BuildOpenAck(s, w).1.Ok? && Carries(f, BuildOpenAck(s, w).1.value)
    ensures Started(Some(BuildOpenAck(s, w).0), q, there + [f], back, polite)
  {
    AckOpens(false, w, back);
    if q.Some? {
      TakeAllSnoc(InboxOf(q.value), there, f);
      GrantsSnoc(there, f);
    }
  }

  lemma SendsData(s: Session, q: Slot, there: seq<Frame>, back: seq<Frame>, polite: bool, f: Frame)
    requires Started(Some(s), q, there, back, polite) && s.sendSeq < U64_MAX
    requires BuildData(s).1.Ok? && Carries(f, BuildData(s).1.value)
    ensures Started(Some(BuildData(s).0), q, there + [f], back, polite)
  {
    if q.Some? {
      TakeAllSnoc(InboxOf(q.value), there, f);
      GrantsSnoc(there, f);
    }
  }

  lemma SendsCredit(s: Session, q: Slot, there: seq<Frame>, back: seq<Frame>, polite: bool, n: u32, f: Frame)
    requires Started(Some(s), q, there, back, polite) && s.recvWindow + n <= U64_MAX
    requires BuildCredit(s, n).1.Ok? && Carries(f, BuildCredit(s, n).1.value)
    ensures Started(Some(BuildCredit(s, n).0), q, there + [f], back, polite)
  {
    TakeAllWider(s.recvSeq, s.recvWindow, s.remoteClosed, back, n);
    if q.Some? {
      TakeAllSnoc(InboxOf(q.value), there, f);
      CreditInStep(s, q.value, there, back, n, f);
    }
  }

  lemma CreditInStep(s: Session, t: Session, there: seq<Frame>, back: seq<Frame>, n: u32, f: Frame)
    requires InStep(s, t, there, back) && Lives(s, back, there) && s.recvWindow + n <= U64_MAX
    requires BuildCredit(s, n).1.Ok? && Carries(f, BuildCredit(s, n).1.value)
    ensures InStep(BuildCredit(s, n).0, t, there + [f], back)
  {
    TakeAllWider(s.recvSeq, s.recvWindow, s.remoteClosed, back, n);
    TakeAllSnoc(InboxOf(t), there, f);
    GrantsSnoc(there, f);
  }

  lemma SendsClose(s: Session, q: Slot, there: seq<Frame>, back: seq<Frame>, polite: bool, f: Frame)
    requires Started(Some(s), q, there, back, polite) && (polite ==> s.handshake.Established?)
    requires BuildClose(s).1.Ok? && Carries(f, BuildClose(s).1.value)
    ensures var s' := BuildClose(s).0;
            Started(if IsClosed(s') then None else Some(s'), q, there + [f], back, polite)
  {
    GrantsSnoc(there, f);
    if q.Some? { TakeAllSnoc(InboxOf(q.value), there, f); }
  }

  lemma SendsReset(s: Session, q: Slot, there: seq<Frame>, back: seq<Frame>, polite: bool, f: Frame)
    requires Started(Some(s), q, there, back, polite) && f.kind.Reset? && Plain(f)
    ensures Started(None, q, there + [f], back, polite)
  {
    if q.Some? { TakeAllSnoc(InboxOf(q.value), there, f); }
  }

  /** Any successful call on a live stream keeps the channel in step, a CLOSE before the handshake included. */
  lemma {:induction false} StartedSends(p: Slot, q: Slot, there: seq<Frame>, back: seq<Frame>, polite: bool,
                                        full: bool, cap: nat, op: AppOp, f: Frame)
    requires Started(p, q, there, back, polite) && p.Some? && GrantFits(p.value, op)
    requires (polite ==> Polite(p.value, op)) && (op.AppData? ==> p.value.sendSeq < U64_MAX)
    requires SlotApp(p, full, cap, op, true).1.Ok? && Carries(f, SlotApp(p, full, cap, op, true).1.value)
    ensures Started(SlotApp(p, full, cap, op, true).0, q, there + [f], back, polite)
  {
    match op {
      case AppOpenAck(w) => SendsOpenAck(p.value, q, there, back, polite, w, f);
      case AppData(_) => SendsData(p.value, q, there, back, polite, f);
      case AppCredit(n) => SendsCredit(p.value, q, there, back, polite, n, f);
      case AppClose => SendsClose(p.value, q, there, back, polite, f);
      case AppReset => SendsReset(p.value, q, there, back, polite, f);
    }
  }

  // ---------------------------------------------------------------- what agreement says

  /**
   Conservation of credit: while both sessions are established, the receiver's window is the
   sender's credit plus the DATA in flight plus the credit in flight back; and the receiver's
   position is the sender's minus the DATA in flight.
   */
  lemma CreditConserved(p: Session, q: Session, there: seq<Frame>, back: seq<Frame>)
    requires Started(Some(p), Some(q), there, back, false) && p.handshake.Established? && q.handshake.Established?
    ensures q.recvWindow == p.sendCredit + |Payloads(there)| + Grants(back)
    ensures q.recvSeq + |Payloads(there)| == p.sendSeq
  {
    AtStaysAt(InboxOf(q), there);
  }
}
