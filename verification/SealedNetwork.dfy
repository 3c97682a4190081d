/**
 The network again, now with the real calls: each party sends by `Send`, receives by `Accept`, and
 what travels are sealed envelopes.  Whoever controls the wire may drop, repeat and reorder genuine
 envelopes and inject anything that does not authenticate as the peer.  Every such run is shown to
 be a run of the frame-level network, so its guarantees carry over end to end.
 */
module SealedNetwork {
  import opened Types
  import opened Envelope
  import opened Crypto
  import opened ReplayGuard
  import opened Seal
  import opened Endpoint
  import opened Network
  import opened Lossy

  /** What one outbound counter became: its envelope, or None if sealing failed, and how it was stamped. */
  datatype Posted = Posted(env: Option<DigMessageEnvelope>, timestamp: u64, expiresAt: u64, automatic: bool)

  datatype Party = Party(
    cfg: Config,
    core: Core,
    wire: seq<Posted>,                      // by counter
    sent: seq<(Bytes32, Bytes)>,            // payloads `send_data` stamped
    used: set<Bytes32>,                     // correlation ids this side stamped frames for
    events: seq<(Bytes32, StreamEvent)>,
    cursor: nat)                            // one past the last genuine envelope handed over

  datatype Move =
    | Calls(cid: Bytes32, op: AppOp, now: u64, expiresAt: u64, entropy: Option<SecretKey>)
    | Gets(index: nat, now: u64, victim: SenderKey, entropy: Option<SecretKey>)
    | Injected(env: DigMessageEnvelope, now: u64, victim: SenderKey, entropy: Option<SecretKey>)

  function OkOrNone(r: Result<DigMessageEnvelope>): Option<DigMessageEnvelope> {
    match r
    case Ok(env) => Some(env)
    case Err(_) => None
  }

  function PartyCalls(p: Primitives, x: Party, cid: Bytes32, op: AppOp, now: u64, expiresAt: u64,
                      entropy: Option<SecretKey>): Party
  {
    var (core, r) := Send(SealerOf(p), x.cfg, x.core, cid, op, now, expiresAt, entropy);
    if App(x.core, cid, op, true).1.Err? then x.(core := core)
    else x.(core := core, wire := x.wire + [Posted(OkOrNone(r), now, expiresAt, false)], used := x.used + {cid},
            sent := if op.AppData? then x.sent + [(cid, op.payload)] else x.sent)
  }

  /** `x` after `accept` left `core` and returned `r` for an envelope on stream `cid`. */
  function PartyReacts(x: Party, cid: Bytes32, core: Core, r: Result<StreamAccept>, now: u64): Party {
    match r
    case Err(_) => x.(core := core, wire := x.wire + [Posted(None, now, 0, true)], used := x.used + {cid})
    case Ok(Event(event)) => x.(core := core, events := x.events + [(cid, event)])
    case Ok(Dropped(_)) => x.(core := core)
    case Ok(ResetSent(frame, _)) =>
      x.(core := core, wire := x.wire + [Posted(Some(frame), now, 0, true)], used := x.used + {cid})
  }

  function PartyAccepts(p: Primitives, x: Party, env: DigMessageEnvelope, resolve: Resolver, now: u64,
                        victim: SenderKey, entropy: Option<SecretKey>): Party
  {
    var (core, r) := Accept(p, SealerOf(p), x.cfg, x.core, env, resolve, now, victim, entropy);
    PartyReacts(x, env.header.correlationId, core, r, now)
  }

  predicate OnWire(y: Party, i: nat) {
    i < |y.wire| && y.wire[i].env.Some?
  }

  function PartyMoves(p: Primitives, x: Party, y: Party, resolve: Resolver, move: Move): Party {
    match move
    case Calls(cid, op, now, expiresAt, entropy) => PartyCalls(p, x, cid, op, now, expiresAt, entropy)
    case Gets(i, now, victim, entropy) =>
      if OnWire(y, i) then
        PartyAccepts(p, x.(cursor := i + 1), y.wire[i].env.value, resolve, now, victim, entropy)
      else x
    case Injected(env, now, victim, entropy) => PartyAccepts(p, x, env, resolve, now, victim, entropy)
  }

  function PeerKey(cfg: Config): SenderKey {
    SenderKey(cfg.localDid, cfg.localEpoch)
  }

  /** The keys fit: `x` resolves and opens exactly what `y` seals. */
  ghost predicate Matched(p: Primitives, x: Config, y: Config, resolve: Resolver) {
    && ValidKey(p, x.identitySk) && ValidKey(p, y.identitySk)
    && y.peerPub == p.publicKey(x.identitySk) && x.peerDid == y.localDid
    && resolve(y.localDid, y.localEpoch) == Some(p.publicKey(y.identitySk))
  }

  predicate GoodEntropy(p: Primitives, entropy: Option<SecretKey>) {
    entropy.Some? ==> ValidKey(p, entropy.value)
  }

  /** An injected envelope neither authenticates as the peer nor evicts the peer's guard entry. */
  ghost predicate NotThePeer(p: Primitives, x: Party, y: Party, resolve: Resolver, env: DigMessageEnvelope, now: u64,
                             victim: SenderKey) {
    match Authenticate(p, x.cfg.identitySk, env, resolve, now)
    case Err(_) => true
    case Ok(m) =>
      && env.header.sender != x.cfg.peerDid
      && (Evicts(x.core.guard, KeyOf(env), m.timestamp, now) ==> victim != PeerKey(y.cfg))
  }

  /** What may happen to `x`: fewer than 2^64 frames, and no forgeries. */
  ghost predicate Permitted(p: Primitives, x: Party, y: Party, resolve: Resolver, move: Move) {
    && |x.wire| < U64_MAX && GoodEntropy(p, move.entropy)
    && (move.Injected? ==> NotThePeer(p, x, y, resolve, move.env, move.now, move.victim))
  }

  /** A stream is opened under an id neither side has used. */
  predicate OpensUnused(x: Party, y: Party, move: Move, c: Bytes32) {
    move.Calls? && move.cid == c && move.op.AppOpen? ==> c !in x.used && c !in y.used
  }

  // ---------------------------------------------------------------- parties and nodes

  function EntryParams(cfg: Config, i: u64, f: Frame): SealParams {
    FrameParams(cfg, i, f.cid, f.hdr, f.payload, f.timestamp, f.expiresAt)
  }

  /** The envelope on the wire is a seal of the logged frame under its own counter. */
  ghost predicate SealOf(p: Primitives, cfg: Config, i: u64, f: Frame, env: DigMessageEnvelope) {
    exists esk :: ValidKey(p, esk) && SealWith(p, EntryParams(cfg, i, f), esk) == Ok(env)
  }

  function SentOn(sent: seq<(Bytes32, Bytes)>, c: Bytes32): seq<Bytes> {
    if sent == [] then []
    else SentOn(sent[..|sent| - 1], c) + (if sent[|sent| - 1].0 == c then [sent[|sent| - 1].1] else [])
  }

  /** A log entry and the post it stands for. */
  ghost predicate PostMatches(p: Primitives, cfg: Config, i: u64, e: Entry, post: Posted) {
    && KindOfByte(e.frame.hdr.frame) == Some(e.frame.kind)
    && post.timestamp == e.frame.timestamp && post.expiresAt == e.frame.expiresAt && post.automatic == e.automatic
    && (post.env.Some? <==> e.isSealed)
    && (post.env.Some? ==> SealOf(p, cfg, i, e.frame, post.env.value))
  }

  ghost predicate WireMatches(p: Primitives, x: Party, n: Node) {
    && |x.wire| == |n.log| <= U64_MAX
    && (forall i: u64 :: i < |n.log| ==> PostMatches(p, x.cfg, i, n.log[i], x.wire[i]))
  }

  /** Node `n` describes party `x`. */
  ghost predicate Describes(p: Primitives, x: Party, n: Node) {
    && x.core == n.core && x.events == n.events && x.cursor == n.cursor && WireMatches(p, x, n)
    && (forall c: Bytes32 :: SentOn(x.sent, c) == DataOn(n.log, c))
    && (forall c: Bytes32 :: Untouched(n.log, c) <==> c !in x.used)
  }

  // ---------------------------------------------------------------- a genuine envelope

  /** Accepting a genuine envelope is the frame-level delivery: same endpoint, same outcome. */
  lemma {:induction false} GenuineAccept(p: Primitives, seal: Sealer, x: Config, y: Config, core: Core, f: Frame,
                                         i: u64, esk: SecretKey, resolve: Resolver,
                                         now: u64, victim: SenderKey, entropy: Option<SecretKey>)
    requires Laws(p) && Matched(p, x, y, resolve) && ValidKey(p, esk)
    requires SealWith(p, EntryParams(y, i, f), esk).Ok? && KindOfByte(f.hdr.frame) == Some(f.kind)
    ensures var env := SealWith(p, EntryParams(y, i, f), esk).value;
            var (t, verdict) := Screen(core.guard, PeerKey(y), f, i, now, victim);
            var (core', r) := Accept(p, seal, x, core, env, resolve, now, victim, entropy);
            && env.header.correlationId == f.cid
            && (!verdict.Through? ==> core' == core.(guard := t) && r.Ok? && r.value.Dropped?)
            && (verdict.Through? ==>
                  (core', r) == React(seal, x, core.(guard := t), f.cid, f.kind, f.hdr, f.payload, now, entropy))
  {
    var params := EntryParams(y, i, f);
    var env := SealWith(p, params, esk).value;
    assert Exchange(p, params, esk, x.identitySk, resolve);
    OpenSealed(p, params, esk, x.identitySk, resolve, core.guard, now, victim);
    assert env.header == HeaderOf(params);
    ScreenIsOpenOutcome(y, f, i, core.guard, now, victim);
  }

  lemma ScreenIsOpenOutcome(y: Config, f: Frame, i: u64, t: Table, now: u64, victim: SenderKey)
    ensures var (t', r) := OpenOutcome(EntryParams(y, i, f), t, now, victim);
            var (t1, verdict) := Screen(t, PeerKey(y), f, i, now, victim);
            && t' == t1 && (r.Ok? <==> verdict.Through?)
            && (r.Ok? ==> r.value == OpenedParams(EntryParams(y, i, f)))
  {}

  // ---------------------------------------------------------------- one move is one step

  lemma SentOnSnoc(sent: seq<(Bytes32, Bytes)>, cid: Bytes32, payload: Bytes, c: Bytes32)
    ensures SentOn(sent + [(cid, payload)], c) == SentOn(sent, c) + (if cid == c then [payload] else [])
  {
    assert (sent + [(cid, payload)])[..|sent|] == sent;
  }

  /** A frame and its envelope, both new. */
  ghost predicate Posts(p: Primitives, x: Party, n: Node, x': Party, n': Node, post: Posted, e: Entry) {
    && x'.core == n'.core && x'.events == n'.events && x'.cursor == n'.cursor && x'.cfg == x.cfg
    && x'.wire == x.wire + [post] && n'.log == n.log + [e] && x'.used == x.used + {e.frame.cid}
    && |n.log| < U64_MAX && PostMatches(p, x.cfg, |n.log|, e, post)
    && x'.sent == if e.frame.kind.Data? then x.sent + [(e.frame.cid, e.frame.payload)] else x.sent
  }

  lemma WireSnoc(p: Primitives, x: Party, n: Node, x': Party, n': Node, post: Posted, e: Entry)
    requires WireMatches(p, x, n) && Posts(p, x, n, x', n', post, e)
    ensures WireMatches(p, x', n')
  {
    forall i: u64 | i < |n'.log| ensures PostMatches(p, x'.cfg, i, n'.log[i], x'.wire[i]) {
      if i < |n.log| { assert n'.log[i] == n.log[i] && x'.wire[i] == x.wire[i]; }
    }
  }

  /** Both sides log one more frame. */
  lemma {:induction false} DescribesSnoc(p: Primitives, x: Party, n: Node, x': Party, n': Node, post: Posted, e: Entry)
    requires Describes(p, x, n) && Posts(p, x, n, x', n', post, e)
    ensures Describes(p, x', n')
  {
    WireSnoc(p, x, n, x', n', post, e);
    forall c: Bytes32 ensures SentOn(x'.sent, c) == DataOn(n'.log, c) {
      DataOnSnoc(n.log, e, c);
      if e.frame.kind.Data? { SentOnSnoc(x.sent, e.frame.cid, e.frame.payload, c); }
    }
    forall c: Bytes32 ensures Untouched(n'.log, c) <==> c !in x'.used {
      UntouchedSnoc(n.log, e, c);
    }
  }

  lemma SealedMatches(p: Primitives, cfg: Config, i: u64, f: Frame, automatic: bool, entropy: Option<SecretKey>)
    requires GoodEntropy(p, entropy) && KindOfByte(f.hdr.frame) == Some(f.kind)
    ensures var r := SealerOf(p)(EntryParams(cfg, i, f), entropy);
            PostMatches(p, cfg, i, Entry(f, r.Ok?, automatic), Posted(OkOrNone(r), f.timestamp, f.expiresAt, automatic))
  {}

  /** The kinds of the frames calls build. */
  lemma BuiltKind(core: Core, cid: Bytes32, op: AppOp, isSealed: bool)
    ensures App(core, cid, op, isSealed).1 == App(core, cid, op, true).1
    ensures App(core, cid, op, isSealed).1.Ok? ==>
              var hdr := App(core, cid, op, isSealed).1.value;
              KindOfByte(hdr.frame) == Some(KindOfHeader(hdr)) && (KindOfHeader(hdr).Data? <==> op.AppData?)
    ensures App(core, cid, op, isSealed).1.Err? ==> App(core, cid, op, isSealed).0 == core
  {
    PutSame(core.sessions, cid);
  }

  /** Whether the call's frame was sealed; a refused call builds none, which counts as no failure. */
  predicate CallSealed(p: Primitives, x: Party, cid: Bytes32, op: AppOp, now: u64, expiresAt: u64,
                       entropy: Option<SecretKey>) {
    App(x.core, cid, op, true).1.Ok? ==> Send(SealerOf(p), x.cfg, x.core, cid, op, now, expiresAt, entropy).1.Ok?
  }

  lemma {:induction false} SimulateCall(p: Primitives, x: Party, n: Node, cid: Bytes32, op: AppOp, now: u64,
                                        expiresAt: u64, entropy: Option<SecretKey>)
    requires Describes(p, x, n) && n.core.sendCounter == |n.log| < U64_MAX && GoodEntropy(p, entropy)
    ensures var isSealed := CallSealed(p, x, cid, op, now, expiresAt, entropy);
            Describes(p, PartyCalls(p, x, cid, op, now, expiresAt, entropy),
                      DoCall(n, cid, op, now, expiresAt, isSealed))
  {
    var r := Send(SealerOf(p), x.cfg, x.core, cid, op, now, expiresAt, entropy).1;
    var built := App(x.core, cid, op, true).1;
    BuiltKind(x.core, cid, op, true);
    BuiltKind(x.core, cid, op, r.Ok?);
    if built.Ok? {
      var hdr := built.value;
      var f := Frame(cid, KindOfHeader(hdr), hdr, PayloadOf(op), now, expiresAt);
      SealedMatches(p, x.cfg, |n.log|, f, false, entropy);
      DescribesSnoc(p, x, n, PartyCalls(p, x, cid, op, now, expiresAt, entropy),
                    DoCall(n, cid, op, now, expiresAt, r.Ok?), Posted(OkOrNone(r), now, expiresAt, false),
                    Entry(f, r.Ok?, false));
    }
  }

  /** What `React` returns, by reaction. */
  lemma ReactReturns(seal: Sealer, cfg: Config, e: Core, f: Frame, now: u64, entropy: Option<SecretKey>)
    ensures var (core, r) := React(seal, cfg, e, f.cid, f.kind, f.hdr, f.payload, now, entropy);
            var (core1, reaction) := Dispatch(e, f.cid, f.kind, f.hdr, f.payload);
            && core == core1
            && (reaction.Deliver? ==> r == Ok(Event(reaction.event)))
            && (reaction.Ignore? ==> r.Ok? && r.value.Dropped?)
            && (reaction.Abort? ==>
                  var posted := seal(FrameParams(cfg, e.sendCounter, f.cid, RESET_HEADER, [], now, 0), entropy);
                  if posted.Ok? then r.Ok? && r.value.ResetSent? && r.value.frame == posted.value else r.Err?)
  {}

  lemma {:induction false} SimulateReact(p: Primitives, x: Party, n: Node, t: Table, f: Frame, i: u64, now: u64,
                                         entropy: Option<SecretKey>)
    requires x.core == n.core && Describes(p, x.(cursor := n.cursor), n) && x.cursor == i + 1
    requires n.core.sendCounter == |n.log| < U64_MAX && GoodEntropy(p, entropy)
    ensures var e1 := x.core.(guard := t);
            var (core, r) := React(SealerOf(p), x.cfg, e1, f.cid, f.kind, f.hdr, f.payload, now, entropy);
            Describes(p, PartyReacts(x, f.cid, core, r, now), TakeIn(n, t, f, i, now, r.Ok?))
  {
    var e1 := x.core.(guard := t);
    ReactReturns(SealerOf(p), x.cfg, e1, f, now, entropy);
    var (core, r) := React(SealerOf(p), x.cfg, e1, f.cid, f.kind, f.hdr, f.payload, now, entropy);
    TakeInByReaction(n, t, f, i, now, r.Ok?);
    if Dispatch(e1, f.cid, f.kind, f.hdr, f.payload).1.Abort? {
      AbortSimulated(p, x, n, core, r, TakeIn(n, t, f, i, now, r.Ok?), f.cid, now, entropy);
    }
  }

  lemma {:induction false} AbortSimulated(p: Primitives, x: Party, n: Node, core: Core, r: Result<StreamAccept>,
                                          n': Node, cid: Bytes32, now: u64, entropy: Option<SecretKey>)
    requires Describes(p, x.(cursor := n.cursor), n) && |n.log| < U64_MAX && GoodEntropy(p, entropy)
    requires n'.core == core && n'.cursor == x.cursor && n'.events == n.events
    requires n'.log == n.log + [ResetEntry(cid, now, r.Ok?)]
    requires var posted := SealerOf(p)(FrameParams(x.cfg, |n.log|, cid, RESET_HEADER, [], now, 0), entropy);
             if posted.Ok? then r.Ok? && r.value.ResetSent? && r.value.frame == posted.value else r.Err?
    ensures Describes(p, PartyReacts(x, cid, core, r, now), n')
  {
    var e := ResetEntry(cid, now, r.Ok?);
    SealedMatches(p, x.cfg, |n.log|, e.frame, true, entropy);
    var post := Posted(if r.Ok? then Some(r.value.frame) else None, now, 0, true);
    DescribesSnoc(p, x.(cursor := n.cursor), n, PartyReacts(x, cid, core, r, now), n', post, e);
  }

  /** How `accept` comes out on a genuine frame, given the screen. */
  ghost predicate AcceptIs(p: Primitives, x: Party, key: SenderKey, f: Frame, i: u64, now: u64, victim: SenderKey,
                           entropy: Option<SecretKey>, core: Core, r: Result<StreamAccept>) {
    var (t, verdict) := Screen(x.core.guard, key, f, i, now, victim);
    && (!verdict.Through? ==> core == x.core.(guard := t) && r.Ok? && r.value.Dropped?)
    && (verdict.Through? ==>
          (core, r) == React(SealerOf(p), x.cfg, x.core.(guard := t), f.cid, f.kind, f.hdr, f.payload, now, entropy))
  }

  /** Given how `accept` came out, the party's record is the node's. */
  lemma {:induction false} SimulateVerdict(p: Primitives, x: Party, n: Node, key: SenderKey, f: Frame, i: u64, now: u64,
                                           victim: SenderKey, entropy: Option<SecretKey>, core: Core,
                                           r: Result<StreamAccept>)
    requires x.core == n.core && Describes(p, x.(cursor := n.cursor), n) && x.cursor == i + 1
    requires n.core.sendCounter == |n.log| < U64_MAX && GoodEntropy(p, entropy)
    requires AcceptIs(p, x, key, f, i, now, victim, entropy, core, r)
    ensures Describes(p, PartyReacts(x, f.cid, core, r, now), DoReceive(n, key, f, i, now, victim, r.Ok?))
  {
    var (t, verdict) := Screen(x.core.guard, key, f, i, now, victim);
    if verdict.Through? { SimulateReact(p, x, n, t, f, i, now, entropy); }
  }

  /** What `accept` returns for the peer's envelope number `i`. */
  function AcceptResult(p: Primitives, x: Party, y: Party, resolve: Resolver, i: nat, now: u64, victim: SenderKey,
                        entropy: Option<SecretKey>): Result<StreamAccept>
    requires OnWire(y, i)
  {
    Accept(p, SealerOf(p), x.cfg, x.core, y.wire[i].env.value, resolve, now, victim, entropy).1
  }

  /** The peer's envelope number `i` is genuine, so `accept` treats it as its frame. */
  lemma {:induction false} GenuineAcceptIs(p: Primitives, x: Party, y: Party, m: Node, resolve: Resolver, i: u64,
                                           now: u64, victim: SenderKey, entropy: Option<SecretKey>)
    requires Laws(p) && Matched(p, x.cfg, y.cfg, resolve) && WireMatches(p, y, m) && OnWire(y, i)
    ensures var f, env := m.log[i].frame, y.wire[i].env.value;
            var (core, r) := Accept(p, SealerOf(p), x.cfg, x.core, env, resolve, now, victim, entropy);
            m.log[i].isSealed && env.header.correlationId == f.cid
            && AcceptIs(p, x, PeerKey(y.cfg), f, i, now, victim, entropy, core, r)
  {
    var f, env := m.log[i].frame, y.wire[i].env.value;
    assert PostMatches(p, y.cfg, i, m.log[i], y.wire[i]);
    var esk :| ValidKey(p, esk) && SealWith(p, EntryParams(y.cfg, i, f), esk) == Ok(env);
    GenuineAccept(p, SealerOf(p), x.cfg, y.cfg, x.core, f, i, esk, resolve, now, victim, entropy);
  }

  lemma {:induction false} SimulateGet(p: Primitives, x: Party, y: Party, n: Node, m: Node, resolve: Resolver, i: u64,
                                       now: u64, victim: SenderKey, entropy: Option<SecretKey>)
    requires Laws(p) && Matched(p, x.cfg, y.cfg, resolve) && GoodEntropy(p, entropy)
    requires Describes(p, x, n) && WireMatches(p, y, m) && n.core.sendCounter == |n.log| < U64_MAX && OnWire(y, i)
    ensures var x1, env := x.(cursor := i + 1), y.wire[i].env.value;
            var (core, r) := Accept(p, SealerOf(p), x.cfg, x.core, env, resolve, now, victim, entropy);
            && m.log[i].isSealed
            && Describes(p, PartyReacts(x1, env.header.correlationId, core, r, now),
                         DoReceive(n, PeerKey(y.cfg), m.log[i].frame, i, now, victim, r.Ok?))
  {
    var x1, f, env := x.(cursor := i + 1), m.log[i].frame, y.wire[i].env.value;
    GenuineAcceptIs(p, x, y, m, resolve, i, now, victim, entropy);
    var (core, r) := Accept(p, SealerOf(p), x.cfg, x.core, env, resolve, now, victim, entropy);
    assert x1.(cursor := n.cursor) == x;
    SimulateVerdict(p, x1, n, PeerKey(y.cfg), f, i, now, victim, entropy, core, r);
  }

  /** An injected envelope that is not the peer's moves the guard entry of its own sender at most. */
  lemma InjectedIsForeign(p: Primitives, cfg: Config, core: Core, env: DigMessageEnvelope, resolve: Resolver, now: u64,
                          victim: SenderKey, entropy: Option<SecretKey>)
    requires Authenticate(p, cfg.identitySk, env, resolve, now).Ok? ==> env.header.sender != cfg.peerDid
    ensures var (core', r) := Accept(p, SealerOf(p), cfg, core, env, resolve, now, victim, entropy);
            var inner := Authenticate(p, cfg.identitySk, env, resolve, now);
            && r.Ok? && r.value.Dropped?
            && core' == match inner
                        case Err(_) => core
                        case Ok(m) =>
                          core.(guard := GuardStep(core.guard, KeyOf(env), m.counter, m.timestamp, now, victim).0)
  {}

  /** The frame-level action a move amounts to, if any. */
  function ActionOf(p: Primitives, x: Party, y: Party, resolve: Resolver, move: Move): Option<Action> {
    match move
    case Calls(cid, op, now, expiresAt, entropy) =>
      Some(Call(cid, op, now, expiresAt, CallSealed(p, x, cid, op, now, expiresAt, entropy)))
    case Gets(i, now, victim, entropy) =>
      if OnWire(y, i) then
        Some(Receive(i, now, victim, AcceptResult(p, x, y, resolve, i, now, victim, entropy).Ok?))
      else None
    case Injected(env, now, victim, entropy) =>
      match Authenticate(p, x.cfg.identitySk, env, resolve, now)
      case Err(_) => None
      case Ok(m) => Some(Foreign(KeyOf(env), m.counter, m.timestamp, now, victim))
  }

  /** The party after a move and the node after the action it amounts to still correspond. */
  ghost predicate Corresponds(p: Primitives, x': Party, y: Party, n: Node, m: Node, action: Option<Action>) {
    match action
    case None => Describes(p, x', n)
    case Some(a) => Describes(p, x', Act(n, m, PeerKey(y.cfg), a)) && SparesPeer(n, PeerKey(y.cfg), a)
  }

  lemma {:induction false} InjectionCorresponds(p: Primitives, x: Party, y: Party, n: Node, m: Node, resolve: Resolver,
                                                env: DigMessageEnvelope, now: u64, victim: SenderKey,
                                                entropy: Option<SecretKey>)
    requires x.cfg.peerDid == y.cfg.localDid && NotThePeer(p, x, y, resolve, env, now, victim) && Describes(p, x, n)
    ensures var move := Injected(env, now, victim, entropy);
            Corresponds(p, PartyMoves(p, x, y, resolve, move), y, n, m, ActionOf(p, x, y, resolve, move))
  {
    InjectedIsForeign(p, x.cfg, x.core, env, resolve, now, victim, entropy);
    var core := Accept(p, SealerOf(p), x.cfg, x.core, env, resolve, now, victim, entropy).0;
    assert PartyMoves(p, x, y, resolve, Injected(env, now, victim, entropy)) == x.(core := core);
  }

  lemma {:induction false} GetCorresponds(p: Primitives, x: Party, y: Party, n: Node, m: Node, resolve: Resolver,
                                          i: nat, now: u64, victim: SenderKey, entropy: Option<SecretKey>)
    requires Laws(p) && Matched(p, x.cfg, y.cfg, resolve) && GoodEntropy(p, entropy)
    requires Describes(p, x, n) && Describes(p, y, m) && n.core.sendCounter == |n.log| < U64_MAX
    ensures var move := Gets(i, now, victim, entropy);
            Corresponds(p, PartyMoves(p, x, y, resolve, move), y, n, m, ActionOf(p, x, y, resolve, move))
  {
    if OnWire(y, i) {
      SimulateGet(p, x, y, n, m, resolve, i, now, victim, entropy);
      GetReacts(p, x, y, resolve, i, now, victim, entropy);
      ReceiveIsAct(n, m, PeerKey(y.cfg), i, now, victim, AcceptResult(p, x, y, resolve, i, now, victim, entropy).Ok?);
    }
  }

  lemma GetReacts(p: Primitives, x: Party, y: Party, resolve: Resolver, i: nat, now: u64, victim: SenderKey,
                  entropy: Option<SecretKey>)
    requires OnWire(y, i)
    ensures var env := y.wire[i].env.value;
            var (core, r) := Accept(p, SealerOf(p), x.cfg, x.core, env, resolve, now, victim, entropy);
            PartyMoves(p, x, y, resolve, Gets(i, now, victim, entropy))
            == PartyReacts(x.(cursor := i + 1), env.header.correlationId, core, r, now)
  {
    var x1 := x.(cursor := i + 1);
    assert x1.cfg == x.cfg && x1.core == x.core;
  }

  lemma ReceiveIsAct(n: Node, m: Node, key: SenderKey, i: u64, now: u64, victim: SenderKey, isSealed: bool)
    requires i < |m.log| && m.log[i].isSealed
    ensures Act(n, m, key, Receive(i, now, victim, isSealed))
            == DoReceive(n, key, m.log[i].frame, i, now, victim, isSealed)
  {}

  lemma MovesKeepConfig(p: Primitives, x: Party, y: Party, resolve: Resolver, move: Move)
    ensures PartyMoves(p, x, y, resolve, move).cfg == x.cfg
  {}

  lemma {:induction false} MoveIsAction(p: Primitives, x: Party, y: Party, n: Node, m: Node, resolve: Resolver,
                                        move: Move)
    requires Laws(p) && Matched(p, x.cfg, y.cfg, resolve) && Permitted(p, x, y, resolve, move)
    requires Describes(p, x, n) && Describes(p, y, m) && n.core.sendCounter == |n.log|
    ensures Corresponds(p, PartyMoves(p, x, y, resolve, move), y, n, m, ActionOf(p, x, y, resolve, move))
  {
    match move {
      case Calls(cid, op, now, expiresAt, entropy) => SimulateCall(p, x, n, cid, op, now, expiresAt, entropy);
      case Gets(i, now, victim, entropy) => GetCorresponds(p, x, y, n, m, resolve, i, now, victim, entropy);
      case Injected(env, now, victim, entropy) =>
        InjectionCorresponds(p, x, y, n, m, resolve, env, now, victim, entropy);
    }
  }

  // ---------------------------------------------------------------- whole runs

  datatype World = World(p: Primitives, a: Party, b: Party, resolveA: Resolver, resolveB: Resolver)

  datatype Play = Play(side: Side, move: Move)

  /** A party, its peer and its resolver, from either side. */
  function PartyAt(w: World, side: Side): Party {
    if side.A? then w.a else w.b
  }

  function ResolverAt(w: World, side: Side): Resolver {
    if side.A? then w.resolveA else w.resolveB
  }

  function NextWorld(w: World, play: Play): World {
    match play.side
    case A => w.(a := PartyMoves(w.p, w.a, w.b, w.resolveA, play.move))
    case B => w.(b := PartyMoves(w.p, w.b, w.a, w.resolveB, play.move))
  }

  function RunWorld(w: World, plays: seq<Play>): World {
    if plays == [] then w else NextWorld(RunWorld(w, plays[..|plays| - 1]), plays[|plays| - 1])
  }

  function NewParty(cfg: Config, cap: nat): Party {
    Party(cfg, Core(map[], 0, cap, map[]), [], [], {}, [], 0)
  }

  /** The keys and resolvers fit, over primitives that obey their laws. */
  ghost predicate Keyed(w: World) {
    Laws(w.p) && Matched(w.p, w.a.cfg, w.b.cfg, w.resolveA) && Matched(w.p, w.b.cfg, w.a.cfg, w.resolveB)
  }

  /** Two new endpoints. */
  ghost predicate Ready(w: World) {
    w.a == NewParty(w.a.cfg, w.a.core.cap) && w.b == NewParty(w.b.cfg, w.b.core.cap) && Keyed(w)
  }

  ghost predicate PermittedPlay(w: World, play: Play) {
    Permitted(w.p, PartyAt(w, play.side), PartyAt(w, Other(play.side)), ResolverAt(w, play.side), play.move)
  }

  ghost predicate PermittedRun(w: World, plays: seq<Play>) {
    forall n :: 0 <= n < |plays| ==> PermittedPlay(RunWorld(w, plays[..n]), plays[n])
  }

  predicate OpensUnusedPlay(w: World, play: Play, c: Bytes32) {
    OpensUnused(PartyAt(w, play.side), PartyAt(w, Other(play.side)), play.move, c)
  }

  /** The id of stream `c` is used for one stream only. */
  ghost predicate OpenedOnceRun(w: World, plays: seq<Play>, c: Bytes32) {
    forall n :: 0 <= n < |plays| ==> OpensUnusedPlay(RunWorld(w, plays[..n]), plays[n], c)
  }

  function InitOf(w: World): Sys {
    Init(w.a.core.cap, w.b.core.cap, PeerKey(w.a.cfg), PeerKey(w.b.cfg))
  }

  /** The frame-level steps a play amounts to: one or none. */
  function StepsOfPlay(w: World, play: Play): seq<Step> {
    var x, y := PartyAt(w, play.side), PartyAt(w, Other(play.side));
    match ActionOf(w.p, x, y, ResolverAt(w, play.side), play.move)
    case None => []
    case Some(action) => [Step(play.side, action)]
  }

  function StepsOf(w: World, plays: seq<Play>): seq<Step> {
    if plays == [] then []
    else
      var init := plays[..|plays| - 1];
      StepsOf(w, init) + StepsOfPlay(RunWorld(w, init), plays[|plays| - 1])
  }

  /** The frame-level system describes the world. */
  ghost predicate Tracks(w: World, s: Sys) {
    && Keyed(w) && NodesOk(s) && s.keyA == PeerKey(w.a.cfg) && s.keyB == PeerKey(w.b.cfg)
    && Describes(w.p, w.a, s.a) && Describes(w.p, w.b, s.b)
  }

  lemma ReadyTracks(w: World)
    requires Ready(w)
    ensures Initial(InitOf(w)) && Tracks(w, InitOf(w))
  {
    var zero: Bytes32 := seq(32, _ => 0);
    InitOk(InitOf(w), zero);
  }

  lemma {:induction false} PlayTracks(w: World, s: Sys, play: Play)
    requires Tracks(w, s) && PermittedPlay(w, play)
    ensures var steps := StepsOfPlay(w, play);
            if steps == [] then Tracks(NextWorld(w, play), s)
            else Legal(s, steps[0]) && Tracks(NextWorld(w, play), Next(s, steps[0]))
  {
    match play.side {
      case A =>
        MovesKeepConfig(w.p, w.a, w.b, w.resolveA, play.move);
        MoveIsAction(w.p, w.a, w.b, s.a, s.b, w.resolveA, play.move);
      case B =>
        MovesKeepConfig(w.p, w.b, w.a, w.resolveB, play.move);
        MoveIsAction(w.p, w.b, w.a, s.b, s.a, w.resolveB, play.move);
    }
    var steps := StepsOfPlay(w, play);
    if steps != [] { NextKeepsNodes(s, steps[0]); }
  }

  lemma {:induction false} PermittedPrefix(w: World, plays: seq<Play>)
    requires PermittedRun(w, plays) && plays != []
    ensures var init := plays[..|plays| - 1];
            PermittedRun(w, init) && PermittedPlay(RunWorld(w, init), plays[|plays| - 1])
  {
    var init := plays[..|plays| - 1];
    forall n | 0 <= n < |init| ensures PermittedPlay(RunWorld(w, init[..n]), init[n]) {
      assert init[..n] == plays[..n] && PermittedPlay(RunWorld(w, plays[..n]), plays[n]);
    }
  }

  /** Every permitted run with real envelopes is a legal run of the frame-level network. */
  lemma {:induction false} Simulate(w: World, s: Sys, plays: seq<Play>)
    requires Tracks(w, s) && PermittedRun(w, plays)
    ensures LegalRun(s, StepsOf(w, plays)) && Tracks(RunWorld(w, plays), Run(s, StepsOf(w, plays)))
  {
    if plays != [] {
      var init, last := plays[..|plays| - 1], plays[|plays| - 1];
      PermittedPrefix(w, plays);
      Simulate(w, s, init);
      var v, before := RunWorld(w, init), StepsOf(w, init);
      var steps := StepsOfPlay(v, last);
      PlayTracks(v, Run(s, before), last);
      if steps == [] {
        assert StepsOf(w, plays) == before;
      } else {
        assert StepsOf(w, plays) == before + [steps[0]];
        LegalSnoc(s, before, steps[0]);
        RunSnoc(s, before, steps[0]);
      }
    }
  }
}
