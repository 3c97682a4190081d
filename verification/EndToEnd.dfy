/**
 The network theorems for the real calls: parties that seal and `accept` envelopes over a wire that
 drops, repeats, reorders and injects, and over one that is reliable.  Each is the frame-level theorem
 carried through the simulation.
 */
module EndToEnd {
  import opened Types
  import opened Envelope
  import opened Crypto
  import opened ReplayGuard
  import opened Seal
  import opened Endpoint
  import opened Network
  import opened Lossy
  import opened Channel
  import opened Fifo
  import opened FifoDelivery
  import opened SealedNetwork
  import opened Outcomes

  // ---------------------------------------------------------------- ids used once

  lemma {:induction false} PlayUsesOnce(w: World, s: Sys, play: Play, c: Bytes32)
    requires Tracks(w, s) && OpensUnusedPlay(w, play, c) && StepsOfPlay(w, play) != []
    ensures UsesOnce(s, StepsOfPlay(w, play)[0], c)
  {}

  lemma {:induction false} OpenedOncePrefix(w: World, plays: seq<Play>, c: Bytes32)
    requires OpenedOnceRun(w, plays, c) && plays != []
    ensures var init := plays[..|plays| - 1];
            OpenedOnceRun(w, init, c) && OpensUnusedPlay(RunWorld(w, init), plays[|plays| - 1], c)
  {
    var init := plays[..|plays| - 1];
    forall n | 0 <= n < |init| ensures OpensUnusedPlay(RunWorld(w, init[..n]), init[n], c) {
      assert init[..n] == plays[..n] && OpensUnusedPlay(RunWorld(w, plays[..n]), plays[n], c);
    }
  }

  lemma {:induction false} StepsUseOnce(w: World, s: Sys, plays: seq<Play>, c: Bytes32)
    requires Tracks(w, s) && PermittedRun(w, plays) && OpenedOnceRun(w, plays, c)
    ensures UsedOnce(s, StepsOf(w, plays), c)
  {
    if plays != [] {
      var init, last := plays[..|plays| - 1], plays[|plays| - 1];
      PermittedPrefix(w, plays);
      OpenedOncePrefix(w, plays, c);
      StepsUseOnce(w, s, init, c);
      Simulate(w, s, init);
      var v, before := RunWorld(w, init), StepsOf(w, init);
      var steps := StepsOfPlay(v, last);
      if steps == [] {
        assert StepsOf(w, plays) == before;
      } else {
        PlayUsesOnce(v, Run(s, before), last, c);
        UsedOnceSnoc(s, before, steps[0], c);
        assert StepsOf(w, plays) == before + [steps[0]];
      }
    }
  }

  // ---------------------------------------------------------------- reading the wires

  function PostTotal(wire: seq<Posted>, f: Posted -> nat): nat {
    if wire == [] then 0 else PostTotal(wire[..|wire| - 1], f) + f(wire[|wire| - 1])
  }

  /** The frame kind an envelope shows in its header. */
  function KindOn(env: DigMessageEnvelope): Option<FrameKind> {
    if env.header.stream.Some? then KindOfByte(env.header.stream.value.frame) else None
  }

  /** The credit an envelope grants its receiver on stream `c`. */
  function GrantPosted(c: Bytes32): Posted -> nat {
    (post: Posted) =>
      if post.env.Some? && post.env.value.header.correlationId == c && KindOn(post.env.value).Some?
         && (KindOn(post.env.value).value.Open? || KindOn(post.env.value).value.OpenAck?
             || KindOn(post.env.value).value.Credit?)
      then post.env.value.header.stream.value.window else 0
  }

  function NonResetPosted(): Posted -> nat {
    (post: Posted) => if post.env.Some? && KindOn(post.env.value) != Some(FrameKind.Reset) then 1 else 0
  }

  function AutomaticPosted(): Posted -> nat {
    (post: Posted) => if post.automatic then 1 else 0
  }

  lemma {:induction false} TotalsAgree(log: seq<Entry>, wire: seq<Posted>, f: Entry -> nat, g: Posted -> nat)
    requires |log| == |wire| && forall i :: 0 <= i < |log| ==> f(log[i]) == g(wire[i])
    ensures Total(log, f) == PostTotal(wire, g)
  {
    if log != [] { TotalsAgree(log[..|log| - 1], wire[..|wire| - 1], f, g); }
  }

  lemma SealShowsHeader(p: Primitives, cfg: Config, i: u64, f: Frame, env: DigMessageEnvelope)
    requires SealOf(p, cfg, i, f, env)
    ensures env.header.correlationId == f.cid && env.header.stream == Some(f.hdr)
  {
    var esk :| ValidKey(p, esk) && SealWith(p, EntryParams(cfg, i, f), esk) == Ok(env);
    assert env.header == HeaderOf(EntryParams(cfg, i, f));
  }

  /** The header of an envelope shows its frame's stream, kind and window. */
  lemma {:induction false} PostShowsFrame(p: Primitives, cfg: Config, i: u64, e: Entry, post: Posted, c: Bytes32)
    requires PostMatches(p, cfg, i, e, post)
    ensures GrantOn(c)(e) == GrantPosted(c)(post)
    ensures SealedNonReset()(e) == NonResetPosted()(post)
    ensures Automatic()(e) == AutomaticPosted()(post)
  {
    if post.env.Some? { SealShowsHeader(p, cfg, i, e.frame, post.env.value); }
  }

  lemma {:induction false} WireTotals(p: Primitives, x: Party, n: Node, c: Bytes32)
    requires WireMatches(p, x, n)
    ensures Total(n.log, GrantOn(c)) == PostTotal(x.wire, GrantPosted(c))
    ensures Total(n.log, SealedNonReset()) == PostTotal(x.wire, NonResetPosted())
    ensures Total(n.log, Automatic()) == PostTotal(x.wire, AutomaticPosted())
  {
    forall i: u64 | i < |n.log|
      ensures GrantOn(c)(n.log[i]) == GrantPosted(c)(x.wire[i])
      ensures SealedNonReset()(n.log[i]) == NonResetPosted()(x.wire[i])
      ensures Automatic()(n.log[i]) == AutomaticPosted()(x.wire[i])
    {
      PostShowsFrame(p, x.cfg, i, n.log[i], x.wire[i], c);
    }
    TotalsAgree(n.log, x.wire, GrantOn(c), GrantPosted(c));
    TotalsAgree(n.log, x.wire, SealedNonReset(), NonResetPosted());
    TotalsAgree(n.log, x.wire, Automatic(), AutomaticPosted());
  }

  // ---------------------------------------------------------------- who it is for

  /** Every envelope the party ever posted is a sealed stream frame of its own, addressed to its peer. */
  ghost predicate AllToPeer(x: Party) {
    forall i :: 0 <= i < |x.wire| && x.wire[i].env.Some? ==> ToPeer(x.cfg, x.wire[i].env.value)
  }

  predicate ToPeer(cfg: Config, env: DigMessageEnvelope) {
    env.header.stream.Some? && Addressed(cfg, env.header.correlationId, env.header.stream.value, env)
  }

  lemma {:induction false} CallToPeer(p: Primitives, x: Party, cid: Bytes32, op: AppOp, now: u64, expiresAt: u64,
                                      entropy: Option<SecretKey>)
    requires AllToPeer(x)
    ensures AllToPeer(PartyCalls(p, x, cid, op, now, expiresAt, entropy))
  {
    CallExactly(x.core, cid, op, true);
    SendExactly(p, x.cfg, x.core, cid, op, now, expiresAt, entropy);
  }

  lemma {:induction false} AcceptToPeer(p: Primitives, x: Party, env: DigMessageEnvelope, resolve: Resolver, now: u64,
                                        victim: SenderKey, entropy: Option<SecretKey>)
    requires AllToPeer(x)
    ensures AllToPeer(PartyAccepts(p, x, env, resolve, now, victim, entropy))
  {
    AcceptExactly(p, x.cfg, x.core, env, resolve, now, victim, entropy);
  }

  lemma {:induction false} MoveToPeer(p: Primitives, x: Party, y: Party, resolve: Resolver, move: Move)
    requires AllToPeer(x)
    ensures AllToPeer(PartyMoves(p, x, y, resolve, move))
  {
    match move {
      case Calls(cid, op, now, expiresAt, entropy) => CallToPeer(p, x, cid, op, now, expiresAt, entropy);
      case Gets(i, now, victim, entropy) =>
        if OnWire(y, i) { AcceptToPeer(p, x.(cursor := i + 1), y.wire[i].env.value, resolve, now, victim, entropy); }
      case Injected(env, now, victim, entropy) => AcceptToPeer(p, x, env, resolve, now, victim, entropy);
    }
  }

  /** In any run at all, with any primitives, keys and injections, envelopes go to the peer only. */
  lemma {:induction false} EndToEndAddressed(w: World, plays: seq<Play>)
    requires AllToPeer(w.a) && AllToPeer(w.b)
    ensures AllToPeer(RunWorld(w, plays).a) && AllToPeer(RunWorld(w, plays).b)
  {
    if plays != [] {
      var init, last := plays[..|plays| - 1], plays[|plays| - 1];
      EndToEndAddressed(w, init);
      var v := RunWorld(w, init);
      match last.side {
        case A => MoveToPeer(v.p, v.a, v.b, v.resolveA, last.move);
        case B => MoveToPeer(v.p, v.b, v.a, v.resolveB, last.move);
      }
    }
  }

  // ---------------------------------------------------------------- a hostile wire

  /**
   What a party delivers on a stream is, in order and without repeats, a prefix of the payloads its
   peer passed to `send_data` on it.
   */
  lemma {:induction false} EndToEndPrefix(w: World, plays: seq<Play>, c: Bytes32)
    requires Ready(w) && PermittedRun(w, plays) && OpenedOnceRun(w, plays, c)
    ensures var v := RunWorld(w, plays);
            && Delivered(v.b.events, c) <= SentOn(v.a.sent, c)
            && Delivered(v.a.events, c) <= SentOn(v.b.sent, c)
  {
    ReadyTracks(w);
    Simulate(w, InitOf(w), plays);
    StepsUseOnce(w, InitOf(w), plays, c);
    PrefixDelivery(InitOf(w), StepsOf(w, plays), c);
  }

  /** A party never stamps more DATA on a stream than the credit on its peer's envelopes, each counted once. */
  lemma {:induction false} EndToEndCredit(w: World, plays: seq<Play>, c: Bytes32)
    requires Ready(w) && PermittedRun(w, plays) && OpenedOnceRun(w, plays, c)
    ensures var v := RunWorld(w, plays);
            && |SentOn(v.a.sent, c)| <= PostTotal(v.b.wire, GrantPosted(c))
            && |SentOn(v.b.sent, c)| <= PostTotal(v.a.wire, GrantPosted(c))
  {
    ReadyTracks(w);
    Simulate(w, InitOf(w), plays);
    StepsUseOnce(w, InitOf(w), plays, c);
    CreditSafety(InitOf(w), StepsOf(w, plays), c);
    var v, s := RunWorld(w, plays), Run(InitOf(w), StepsOf(w, plays));
    WireTotals(v.p, v.a, s.a, c);
    WireTotals(v.p, v.b, s.b, c);
  }

  /** The RESETs a party seals by itself are at most the non-RESET envelopes on its peer's wire. */
  lemma {:induction false} EndToEndResets(w: World, plays: seq<Play>)
    requires Ready(w) && PermittedRun(w, plays)
    ensures var v := RunWorld(w, plays);
            && PostTotal(v.a.wire, AutomaticPosted()) <= PostTotal(v.b.wire, NonResetPosted())
            && PostTotal(v.b.wire, AutomaticPosted()) <= PostTotal(v.a.wire, NonResetPosted())
  {
    ReadyTracks(w);
    Simulate(w, InitOf(w), plays);
    ResetsBounded(InitOf(w), StepsOf(w, plays));
    var v, s := RunWorld(w, plays), Run(InitOf(w), StepsOf(w, plays));
    var zero: Bytes32 := seq(32, _ => 0);
    WireTotals(v.p, v.a, s.a, zero);
    WireTotals(v.p, v.b, s.b, zero);
  }

  lemma {:induction false} QuietSteps(w: World, plays: seq<Play>)
    requires forall n :: 0 <= n < |plays| ==> !plays[n].move.Calls?
    ensures forall n :: 0 <= n < |StepsOf(w, plays)| ==> !StepsOf(w, plays)[n].action.Call?
  {
    if plays != [] {
      QuietSteps(w, plays[..|plays| - 1]);
    }
  }

  function PostCount(w: World): nat {
    |w.a.wire| + |w.b.wire|
  }

  /** Non-RESET envelopes on the two wires, less the automatic RESETs already there. */
  function Unanswered(w: World): int {
    PostTotal(w.a.wire, NonResetPosted()) + PostTotal(w.b.wire, NonResetPosted())
    - PostTotal(w.a.wire, AutomaticPosted()) - PostTotal(w.b.wire, AutomaticPosted())
  }

  lemma {:induction false} UnansweredCovers(w: World, s: Sys)
    requires Tracks(w, s) && AllPaid(s)
    ensures PostCount(w) == Frames(s) && AllProvoking(s) <= Unanswered(w)
  {
    var zero: Bytes32 := seq(32, _ => 0);
    WireTotals(w.p, w.a, s.a, zero);
    WireTotals(w.p, w.b, s.b, zero);
  }

  /** Once both applications stop calling, the wires grow by at most the envelopes not yet answered. */
  lemma {:induction false} EndToEndTerminates(w: World, before: seq<Play>, after: seq<Play>)
    requires Ready(w) && PermittedRun(w, before) && PermittedRun(RunWorld(w, before), after)
    requires forall n :: 0 <= n < |after| ==> !after[n].move.Calls?
    ensures var v := RunWorld(w, before);
            0 <= PostCount(RunWorld(v, after)) - PostCount(v) <= Unanswered(v)
  {
    ReadyTracks(w);
    var s0, first := InitOf(w), StepsOf(w, before);
    Simulate(w, s0, before);
    RunPaysResets(s0, first);
    var v, s := RunWorld(w, before), Run(s0, first);
    UnansweredCovers(v, s);
    Simulate(v, s, after);
    QuietSteps(v, after);
    ReflectionTerminates(s0, first, StepsOf(v, after));
  }

  // ---------------------------------------------------------------- a reliable wire

  predicate TimelyPost(post: Posted, now: u64) {
    CheckExpiry(post.timestamp, post.expiresAt, now).None? && Fresh(post.timestamp, now)
  }

  /** Seals succeed, ids are new, windows fit, and genuine envelopes are handed over once, in order, in time. */
  ghost predicate HonestMove(p: Primitives, x: Party, y: Party, resolve: Resolver, move: Move) {
    match move
    case Calls(cid, op, now, expiresAt, entropy) =>
      && CallSealed(p, x, cid, op, now, expiresAt, entropy) && |PayloadOf(op)| <= MAX_DECOMPRESSED_BYTES
      && (op.AppOpen? ==> cid !in x.used && cid !in y.used)
      && (cid in x.core.sessions ==> GrantFits(x.core.sessions[cid], op))
    case Gets(i, now, victim, entropy) =>
      && i == x.cursor && OnWire(y, i) && TimelyPost(y.wire[i], now)
      && AcceptResult(p, x, y, resolve, i, now, victim, entropy).Ok?
    case Injected(_, _, _, _) => true
  }

  ghost predicate ReliablePlay(w: World, play: Play) {
    && PermittedPlay(w, play)
    && HonestMove(w.p, PartyAt(w, play.side), PartyAt(w, Other(play.side)), ResolverAt(w, play.side), play.move)
  }

  ghost predicate ReliableRun(w: World, plays: seq<Play>) {
    forall n :: 0 <= n < |plays| ==> ReliablePlay(RunWorld(w, plays[..n]), plays[n])
  }

  lemma {:induction false} MoveIsHonest(p: Primitives, x: Party, y: Party, n: Node, m: Node, resolve: Resolver,
                                        move: Move)
    requires Describes(p, x, n) && Describes(p, y, m) && HonestMove(p, x, y, resolve, move)
    requires ActionOf(p, x, y, resolve, move).Some?
    ensures HonestStep(n, m, ActionOf(p, x, y, resolve, move).value)
  {
    if move.Gets? { assert PostMatches(p, y.cfg, move.index, m.log[move.index], y.wire[move.index]); }
  }

  lemma {:induction false} ReliablePrefix(w: World, plays: seq<Play>)
    requires ReliableRun(w, plays) && plays != []
    ensures var init := plays[..|plays| - 1];
            ReliableRun(w, init) && ReliablePlay(RunWorld(w, init), plays[|plays| - 1])
  {
    var init := plays[..|plays| - 1];
    forall n | 0 <= n < |init| ensures ReliablePlay(RunWorld(w, init[..n]), init[n]) {
      assert init[..n] == plays[..n] && ReliablePlay(RunWorld(w, plays[..n]), plays[n]);
    }
  }

  lemma {:induction false} ReliableIsPermitted(w: World, plays: seq<Play>)
    requires ReliableRun(w, plays)
    ensures PermittedRun(w, plays)
  {
    forall n | 0 <= n < |plays| ensures PermittedPlay(RunWorld(w, plays[..n]), plays[n]) {
      assert ReliablePlay(RunWorld(w, plays[..n]), plays[n]);
    }
  }

  /** A run over a reliable wire is a run over reliable links. */
  lemma {:induction false} StepsAreFifo(w: World, s: Sys, plays: seq<Play>)
    requires Tracks(w, s) && ReliableRun(w, plays)
    ensures FifoRun(s, StepsOf(w, plays)) && Tracks(RunWorld(w, plays), Run(s, StepsOf(w, plays)))
  {
    ReliableIsPermitted(w, plays);
    Simulate(w, s, plays);
    if plays != [] {
      var init, last := plays[..|plays| - 1], plays[|plays| - 1];
      ReliablePrefix(w, plays);
      StepsAreFifo(w, s, init);
      var v, before := RunWorld(w, init), StepsOf(w, init);
      var steps := StepsOfPlay(v, last);
      if steps == [] {
        assert StepsOf(w, plays) == before;
      } else {
        HonestPlayIsStep(v, Run(s, before), last);
        FifoSnoc(s, before, steps[0]);
        assert StepsOf(w, plays) == before + [steps[0]];
      }
    }
  }

  lemma {:induction false} HonestPlayIsStep(w: World, s: Sys, play: Play)
    requires Tracks(w, s) && ReliablePlay(w, play) && StepsOfPlay(w, play) != []
    ensures HonestAt(s, StepsOfPlay(w, play)[0])
  {
    PlayTracks(w, s, play);
    MoveIsHonest(w.p, PartyAt(w, play.side), PartyAt(w, Other(play.side)), NodeAt(s, play.side),
                 NodeAt(s, Other(play.side)), ResolverAt(w, play.side), play.move);
  }

  /**
   Over a reliable wire, `accept` answers the next timely envelope with a RESET if and only if it is
   an OPEN that finds the endpoint at its cap, or a CLOSE that finds its session still opening.
   */
  lemma {:induction false} EndToEndResetExactly(w: World, plays: seq<Play>, side: Side, now: u64, victim: SenderKey,
                                                entropy: Option<SecretKey>)
    requires Ready(w) && ReliableRun(w, plays)
    ensures var v := RunWorld(w, plays);
            var x, y := PartyAt(v, side), PartyAt(v, Other(side));
            OnWire(y, x.cursor) && |x.wire| < U64_MAX && TimelyPost(y.wire[x.cursor], now) ==>
              var env := y.wire[x.cursor].env.value;
              var r := AcceptResult(v.p, x, y, ResolverAt(v, side), x.cursor, now, victim, entropy);
              (r.Err? || r.value.ResetSent?) <==>
                || (KindOn(env) == Some(FrameKind.Open) && |x.core.sessions| >= x.core.cap)
                || (KindOn(env) == Some(FrameKind.Close) && env.header.correlationId in x.core.sessions
                    && x.core.sessions[env.header.correlationId].handshake.Opening?)
  {
    ReadyTracks(w);
    var s0, steps := InitOf(w), StepsOf(w, plays);
    StepsAreFifo(w, s0, plays);
    FifoResetExactly(s0, steps, side, now, victim);
    var v, s := RunWorld(w, plays), Run(s0, steps);
    var x, y := PartyAt(v, side), PartyAt(v, Other(side));
    if OnWire(y, x.cursor) && |x.wire| < U64_MAX && TimelyPost(y.wire[x.cursor], now) {
      ResetAnswers(v.p, x, y, NodeAt(s, side), NodeAt(s, Other(side)), ResolverAt(v, side), now, victim, entropy);
    }
  }

  lemma DispatchIgnoresGuard(e: Core, t: Table, f: Frame)
    ensures Dispatch(e.(guard := t), f.cid, f.kind, f.hdr, f.payload).1
            == Dispatch(e, f.cid, f.kind, f.hdr, f.payload).1
  {}

  lemma {:induction false} AbortIsReset(p: Primitives, x: Party, key: SenderKey, f: Frame, i: u64, now: u64,
                                        victim: SenderKey, entropy: Option<SecretKey>, core: Core,
                                        r: Result<StreamAccept>)
    requires AcceptIs(p, x, key, f, i, now, victim, entropy, core, r)
    requires Screen(x.core.guard, key, f, i, now, victim).1.Through?
    ensures r.Err? || r.value.ResetSent? <==> Dispatch(x.core, f.cid, f.kind, f.hdr, f.payload).1.Abort?
  {
    var t := Screen(x.core.guard, key, f, i, now, victim).0;
    ReactReturns(SealerOf(p), x.cfg, x.core.(guard := t), f, now, entropy);
    DispatchIgnoresGuard(x.core, t, f);
  }

  lemma {:induction false} ResetAnswers(p: Primitives, x: Party, y: Party, n: Node, m: Node, resolve: Resolver,
                                        now: u64, victim: SenderKey, entropy: Option<SecretKey>)
    requires Laws(p) && Matched(p, x.cfg, y.cfg, resolve) && Describes(p, x, n) && Describes(p, y, m)
    requires OnWire(y, x.cursor)
    requires Screen(n.core.guard, PeerKey(y.cfg), m.log[n.cursor].frame, n.cursor, now, victim).1.Through?
    ensures var f, env := m.log[n.cursor].frame, y.wire[x.cursor].env.value;
            var r := AcceptResult(p, x, y, resolve, x.cursor, now, victim, entropy);
            && (r.Err? || r.value.ResetSent? <==> ReactionTo(n, f).Abort?)
            && KindOn(env) == Some(f.kind) && env.header.correlationId == f.cid
  {
    var i, f, env := n.cursor, m.log[n.cursor].frame, y.wire[x.cursor].env.value;
    GenuineAcceptIs(p, x, y, m, resolve, i, now, victim, entropy);
    var (core, r) := Accept(p, SealerOf(p), x.cfg, x.core, env, resolve, now, victim, entropy);
    AbortIsReset(p, x, PeerKey(y.cfg), f, i, now, victim, entropy, core, r);
    assert PostMatches(p, y.cfg, i, m.log[i], y.wire[i]);
    SealShowsHeader(p, y.cfg, i, f, env);
  }

  /** Over a reliable wire, once the peer's CLOSE is delivered everything it sent has been delivered. */
  lemma {:induction false} EndToEndCloseMeansAll(w: World, plays: seq<Play>, side: Side, c: Bytes32)
    requires Ready(w) && ReliableRun(w, plays)
    ensures var v := RunWorld(w, plays);
            var x, y := PartyAt(v, side), PartyAt(v, Other(side));
            (c, PeerClosed) in y.events ==> Delivered(y.events, c) == SentOn(x.sent, c)
  {
    ReadyTracks(w);
    StepsAreFifo(w, InitOf(w), plays);
    FifoCloseMeansAll(InitOf(w), StepsOf(w, plays), side, c);
  }
}
