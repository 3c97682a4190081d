/**
 The seal and open pipelines of src/seal.rs over abstract primitives: the order of the checks, what
 each failure leaves untouched, and the exact outcome of opening what was sealed.
 */
module Seal {
  import opened Types
  import opened Envelope
  import opened Transcript
  import opened Crypto
  import opened Compression
  import opened ReplayWindow
  import opened ReplayGuard

  /** "dig-message/dhkem-g1/v1" in ASCII. */
  const KDF_INFO_LABEL: Bytes := [
    100, 105, 103, 45, 109, 101, 115, 115, 97, 103, 101, 47,
    100, 104, 107, 101, 109, 45, 103, 49, 47, 118, 49]

  type Resolver = (Bytes32, u32) -> Option<Bytes48>

  datatype SealParams = SealParams(
    senderSk: SecretKey,
    sender: Bytes32,
    senderEpoch: u32,
    recipient: Bytes32,
    recipientPub: Bytes48,
    messageType: u32,
    shape: InteractionShape,
    correlationId: Bytes32,
    stream: Option<StreamHeader>,
    counter: u64,
    timestamp: u64,
    expiresAt: u64,
    payload: Bytes)

  datatype OpenedMessage = OpenedMessage(
    messageType: u32,
    correlationId: Bytes32,
    shape: InteractionShape,
    sender: Bytes32,
    senderEpoch: u32,
    counter: u64,
    timestamp: u64,
    expiresAt: u64,
    payload: Bytes)

  // ---------------------------------------------------------------- key agreement

  function ConcatDh(a: Bytes48, b: Bytes48): Bytes96 {
    var x: Bytes, y: Bytes := a, b;
    x + y
  }

  function AuthEncap(p: Primitives, esk: SecretKey, senderSk: SecretKey, recipientPub: Bytes48): Result<Bytes96> {
    match (p.dh(esk, recipientPub), p.dh(senderSk, recipientPub))
    case (Some(ephemeral), Some(fixed)) => Ok(ConcatDh(ephemeral, fixed))
    case _ => Err(InvalidPoint)
  }

  function AuthDecap(p: Primitives, recipientSk: SecretKey, senderPub: Bytes48, kemEnc: Bytes48): Result<Bytes96> {
    match (p.dh(recipientSk, kemEnc), p.dh(recipientSk, senderPub))
    case (Some(ephemeral), Some(fixed)) => Ok(ConcatDh(ephemeral, fixed))
    case _ => Err(InvalidPoint)
  }

  function KdfInfo(kemEnc: Bytes48, senderPub: Bytes48, recipientPub: Bytes48): Bytes {
    KDF_INFO_LABEL + kemEnc + senderPub + recipientPub
  }

  function Kdf(p: Primitives, z: Bytes96, kemEnc: Bytes48, senderPub: Bytes48, recipientPub: Bytes48): Bytes {
    p.hkdf(z, KdfInfo(kemEnc, senderPub, recipientPub))
  }

  /** The key schedule's info string: the 23-byte label, then encapsulation, sender and recipient key. */
  lemma KdfInfoLayout(kemEnc: Bytes48, senderPub: Bytes48, recipientPub: Bytes48)
    ensures var info := KdfInfo(kemEnc, senderPub, recipientPub);
            && |info| == 167 && info[..23] == KDF_INFO_LABEL
            && info[23..71] == kemEnc && info[71..119] == senderPub && info[119..] == recipientPub
  {}

  const KDF_LABEL_TEXT: string := "dig-message/dhkem-g1/v1"

  lemma KdfLabelIsText()
    ensures |KDF_INFO_LABEL| == |KDF_LABEL_TEXT|
    ensures forall i :: 0 <= i < |KDF_INFO_LABEL| ==> KDF_INFO_LABEL[i] == KDF_LABEL_TEXT[i] as int
  {}

  /** Sender and recipient derive the same key material, the self-addressed case included. */
  lemma KemAgrees(p: Primitives, esk: SecretKey, senderSk: SecretKey, recipientSk: SecretKey)
    requires Laws(p) && ValidKey(p, esk) && ValidKey(p, senderSk) && ValidKey(p, recipientSk)
    ensures AuthEncap(p, esk, senderSk, p.publicKey(recipientSk)).Ok?
    ensures AuthEncap(p, esk, senderSk, p.publicKey(recipientSk))
            == AuthDecap(p, recipientSk, p.publicKey(senderSk), p.publicKey(esk))
  {
    assert DhCommutes(p);
  }

  // ---------------------------------------------------------------- sealing

  function HeaderOf(params: SealParams): Header {
    Header(ENVELOPE_VERSION, params.messageType, SealedFlags(params.shape), params.correlationId,
           params.sender, params.recipient, params.senderEpoch, params.stream)
  }

  /** The transcript as either side assembles it from the header, the encapsulation and the inner fields. */
  function FieldsOf(h: Header, kemEnc: Bytes48, m: InnerMessage): TranscriptFields {
    TranscriptFields(h.version, h.messageType, h.flags, h.correlationId, h.sender, h.recipient, h.senderEpoch,
                     m.counter, m.timestamp, m.expiresAt, h.stream, kemEnc,
                     m.compression, m.uncompressedLen, m.payload)
  }

  function InnerOf(p: Primitives, params: SealParams, z: CompressedPayload, kemEnc: Bytes48): InnerMessage {
    var unsigned := InnerMessage(params.messageType, params.correlationId, z.compression, z.uncompressedLen,
                                 params.counter, params.timestamp, params.expiresAt, z.bytes, seq(96, _ => 0));
    unsigned.(senderSig := p.sign(params.senderSk, Signed(FieldsOf(HeaderOf(params), kemEnc, unsigned), p.sha256)))
  }

  function SealWith(p: Primitives, params: SealParams, esk: SecretKey): Result<DigMessageEnvelope> {
    var compressed :- CompressPayload(p, params.payload);
    var kemEnc := p.publicKey(esk);
    var z :- AuthEncap(p, esk, params.senderSk, params.recipientPub);
    var okm := Kdf(p, z, kemEnc, p.publicKey(params.senderSk), params.recipientPub);
    var inner := InnerOf(p, params, compressed, kemEnc);
    match EncodeInner(inner)
    case None => Err(SealFailed)
    case Some(innerBytes) =>
      match p.aeadSeal(okm, PutHeader(HeaderOf(params), []), innerBytes)
      case None => Err(SealFailed)
      case Some(ciphertext) => Ok(DigMessageEnvelope(HeaderOf(params), SealedPayload(kemEnc, ciphertext)))
  }

  /** `seal_message`: the ephemeral comes from system entropy, which may fail. */
  function SealMessage(p: Primitives, params: SealParams, entropy: Option<SecretKey>): Result<DigMessageEnvelope> {
    match entropy
    case None => Err(SealFailed)
    case Some(esk) => SealWith(p, params, esk)
  }

  /** `seal_with_ephemeral`: the envelope is built with an empty ciphertext, which is then filled in. */
  method SealWithEphemeral(p: Primitives, params: SealParams, esk: SecretKey) returns (r: Result<DigMessageEnvelope>)
    ensures r == SealWith(p, params, esk)
  {
    var compressed :- CompressPayload(p, params.payload);
    var senderPub := p.publicKey(params.senderSk);
    var kemEnc := p.publicKey(esk);
    var z :- AuthEncap(p, esk, params.senderSk, params.recipientPub);
    var okm := Kdf(p, z, kemEnc, senderPub, params.recipientPub);
    var inner := InnerOf(p, params, compressed, kemEnc);
    var innerBytes := EncodeInner(inner);
    if innerBytes.None? {
      return Err(SealFailed);
    }
    var envelope := DigMessageEnvelope(HeaderOf(params), SealedPayload(kemEnc, []));
    var aad := HeaderBytes(envelope);
    var ciphertext := p.aeadSeal(okm, aad, innerBytes.value);
    if ciphertext.None? {
      return Err(SealFailed);
    }
    envelope := envelope.(sealedPart := envelope.sealedPart.(ciphertext := ciphertext.value));
    return Ok(envelope);
  }

  // ---------------------------------------------------------------- opening

  function CheckExpiry(timestamp: u64, expiresAt: u64, now: u64): Option<MessageError> {
    if expiresAt == 0 then None
    else if expiresAt > SatAdd(timestamp, MAX_MESSAGE_TTL_MS) then Some(TtlTooLong)
    else if now > expiresAt then Some(Expired)
    else None
  }

  /** The check passes exactly when there is no expiry, or it is live and at most 30 days past the timestamp. */
  lemma ExpiryMeaning(timestamp: u64, expiresAt: u64, now: u64)
    ensures CheckExpiry(timestamp, expiresAt, now).None?
            <==> expiresAt == 0 || (now <= expiresAt <= timestamp + 2_592_000_000)
    ensures CheckExpiry(timestamp, expiresAt, now) == Some(TtlTooLong) <==> expiresAt > timestamp + 2_592_000_000
  {}

  /** Key agreement, AEAD open and parsing: the part of `open_message` that needs no guard and no clock. */
  function Decrypt(p: Primitives, recipientSk: SecretKey, env: DigMessageEnvelope,
                   resolve: Resolver): Result<InnerMessage> {
    var h, kemEnc := env.header, env.sealedPart.kemEnc;
    match resolve(h.sender, h.senderEpoch)
    case None => Err(UnresolvableSender)
    case Some(senderPub) =>
      if !p.inSubgroup(kemEnc) || !p.inSubgroup(senderPub) then Err(InvalidPoint)
      else
        var z :- AuthDecap(p, recipientSk, senderPub, kemEnc);
        var okm := Kdf(p, z, kemEnc, senderPub, p.publicKey(recipientSk));
        match p.aeadOpen(okm, PutHeader(h, []), env.sealedPart.ciphertext)
        case None => Err(OpenFailed)
        case Some(innerBytes) =>
          match GetInner(innerBytes)
          case None => Err(MessageError.Codec)
          case Some(inner) =>
            if p.verify(senderPub, Signed(FieldsOf(h, kemEnc, inner), p.sha256), inner.senderSig) then Ok(inner)
            else Err(BadSignature)
  }

  /** Every check that precedes the replay guard. */
  function Authenticate(p: Primitives, recipientSk: SecretKey, env: DigMessageEnvelope, resolve: Resolver, now: u64)
    : Result<InnerMessage>
  {
    var inner :- Decrypt(p, recipientSk, env, resolve);
    if inner.messageType != env.header.messageType || inner.correlationId != env.header.correlationId then
      Err(HeaderMismatch)
    else
      match CheckExpiry(inner.timestamp, inner.expiresAt, now)
      case Some(e) => Err(e)
      case None => Ok(inner)
  }

  function KeyOf(env: DigMessageEnvelope): SenderKey {
    SenderKey(env.header.sender, env.header.senderEpoch)
  }

  function OpenedOf(env: DigMessageEnvelope, inner: InnerMessage, payload: Bytes): OpenedMessage {
    OpenedMessage(inner.messageType, inner.correlationId, ShapeOfFlags(env.header.flags), env.header.sender,
                  env.header.senderEpoch, inner.counter, inner.timestamp, inner.expiresAt, payload)
  }

  /** The guard and the result after `open_message`. */
  function Open(p: Primitives, recipientSk: SecretKey, env: DigMessageEnvelope, resolve: Resolver, t: Table,
                now: u64, victim: SenderKey): (Table, Result<OpenedMessage>)
  {
    match Authenticate(p, recipientSk, env, resolve, now)
    case Err(e) => (t, Err(e))
    case Ok(inner) =>
      var (t', ok) := GuardStep(t, KeyOf(env), inner.counter, inner.timestamp, now, victim);
      if !ok then (t', Err(Replay))
      else
        match DecompressPayload(p, inner.compression, inner.payload, inner.uncompressedLen)
        case Err(e) => (t', Err(e))
        case Ok(payload) => (t', Ok(OpenedOf(env, inner, payload)))
  }

  /** Should opening evict, it evicts a least-recently-seen sender. */
  ghost predicate LegalOpen(p: Primitives, recipientSk: SecretKey, env: DigMessageEnvelope, resolve: Resolver, t: Table,
                            now: u64, victim: SenderKey)
  {
    match Authenticate(p, recipientSk, env, resolve, now)
    case Err(_) => true
    case Ok(inner) => LegalVictim(t, KeyOf(env), inner.timestamp, now, victim)
  }

  method OpenMessage(p: Primitives, recipientSk: SecretKey, env: DigMessageEnvelope, resolve: Resolver,
                     guard: ReplayGuard, now: u64)
    returns (r: Result<OpenedMessage>, ghost victim: SenderKey)
    requires guard.Valid()
    modifies guard, guard.senders.Values
    ensures guard.Valid() && fresh(guard.senders.Values - old(guard.senders.Values))
    ensures (guard.Model, r) == Open(p, recipientSk, env, resolve, old(guard.Model), now, victim)
    ensures LegalOpen(p, recipientSk, env, resolve, old(guard.Model), now, victim)
  {
    victim := KeyOf(env);
    var shape := ShapeOfFlags(env.header.flags);
    var resolved := resolve(env.header.sender, env.header.senderEpoch);
    if resolved.None? {
      return Err(UnresolvableSender), victim;
    }
    var senderPub := resolved.value;
    var kemEnc := env.sealedPart.kemEnc;
    if !p.inSubgroup(kemEnc) || !p.inSubgroup(senderPub) {
      return Err(InvalidPoint), victim;
    }
    var z := AuthDecap(p, recipientSk, senderPub, kemEnc);
    if z.Err? {
      return Err(z.error), victim;
    }
    var okm := Kdf(p, z.value, kemEnc, senderPub, p.publicKey(recipientSk));
    var aad := HeaderBytes(env);
    var innerBytes := p.aeadOpen(okm, aad, env.sealedPart.ciphertext);
    if innerBytes.None? {
      return Err(OpenFailed), victim;
    }
    var parsed := GetInner(innerBytes.value);
    if parsed.None? {
      return Err(MessageError.Codec), victim;
    }
    var inner := parsed.value;
    var signed := SigningBytes(FieldsOf(env.header, kemEnc, inner), p.sha256);
    if !p.verify(senderPub, signed, inner.senderSig) {
      return Err(BadSignature), victim;
    }
    if inner.messageType != env.header.messageType || inner.correlationId != env.header.correlationId {
      return Err(HeaderMismatch), victim;
    }
    var expiry := CheckExpiry(inner.timestamp, inner.expiresAt, now);
    if expiry.Some? {
      return Err(expiry.value), victim;
    }
    var ok;
    ok, victim := guard.CheckAndAdmit(env.header.sender, env.header.senderEpoch, inner.counter, inner.timestamp, now);
    if !ok {
      return Err(Replay), victim;
    }
    if inner.uncompressedLen > MAX_DECOMPRESSED_BYTES {
      return Err(DecompressionBomb(inner.uncompressedLen)), victim;
    }
    var payload := DecompressPayload(p, inner.compression, inner.payload, inner.uncompressedLen);
    if payload.Err? {
      return Err(payload.error), victim;
    }
    return Ok(OpenedMessage(inner.messageType, inner.correlationId, shape, env.header.sender,
                            env.header.senderEpoch, inner.counter, inner.timestamp, inner.expiresAt,
                            payload.value)), victim;
  }

  // ---------------------------------------------------------------- both pipelines, from the primitives alone

  /**
   What sealing computes.  The header carries the parameters; the key is HKDF over the ephemeral and
   then the static Diffie-Hellman value, with label, encapsulation, sender and recipient key as info;
   the associated data is the header; the plaintext is the inner message, whose signature by the
   sender covers the header, the encapsulation and the inner fields.
   */
  lemma {:induction false} SealExactly(p: Primitives, params: SealParams, esk: SecretKey)
    ensures SealMessage(p, params, None) == Err(SealFailed)
    ensures SealMessage(p, params, Some(esk)) == SealWith(p, params, esk)
    ensures match CompressPayload(p, params.payload)
            case Err(e) => SealWith(p, params, esk) == Err(e)
            case Ok(z) =>
              var ephemeral, fixed := p.dh(esk, params.recipientPub), p.dh(params.senderSk, params.recipientPub);
              if ephemeral.None? || fixed.None? then SealWith(p, params, esk) == Err(InvalidPoint)
              else
                var kemEnc, senderPub := p.publicKey(esk), p.publicKey(params.senderSk);
                var okm := p.hkdf(ephemeral.value + fixed.value,
                                  KDF_INFO_LABEL + kemEnc + senderPub + params.recipientPub);
                var h := Header(1, params.messageType, ShapeBits(params.shape) + 4, params.correlationId,
                                params.sender, params.recipient, params.senderEpoch, params.stream);
                var transcript := TranscriptFields(
                  1, params.messageType, ShapeBits(params.shape) + 4, params.correlationId,
                  params.sender, params.recipient, params.senderEpoch,
                  params.counter, params.timestamp, params.expiresAt, params.stream, kemEnc,
                  z.compression, z.uncompressedLen, z.bytes);
                var inner := InnerMessage(
                  params.messageType, params.correlationId, z.compression, z.uncompressedLen,
                  params.counter, params.timestamp, params.expiresAt, z.bytes,
                  p.sign(params.senderSk, Signed(transcript, p.sha256)));
                SealWith(p, params, esk)
                == match p.aeadSeal(okm, PutHeader(h, []), PutInner(inner))
                   case None => Err(SealFailed)
                   case Some(ciphertext) => Ok(DigMessageEnvelope(h, SealedPayload(kemEnc, ciphertext)))
  {
    var ephemeral, fixed := p.dh(esk, params.recipientPub), p.dh(params.senderSk, params.recipientPub);
    if CompressPayload(p, params.payload).Ok? && ephemeral.Some? && fixed.Some? {
      var x: Bytes, y: Bytes := ephemeral.value, fixed.value;
      assert AuthEncap(p, esk, params.senderSk, params.recipientPub).value == x + y;
    }
  }

  /**
   What key agreement, AEAD open and signature check yield, in order: the same key formed from the
   recipient's side must open the ciphertext under this very header, to an inner message whose
   signature by the resolved sender covers that header and those inner fields.
   */
  lemma {:induction false} DecryptExactly(p: Primitives, recipientSk: SecretKey, env: DigMessageEnvelope,
                                          resolve: Resolver)
    ensures var h, kemEnc, r := env.header, env.sealedPart.kemEnc, Decrypt(p, recipientSk, env, resolve);
            match resolve(h.sender, h.senderEpoch)
            case None => r == Err(UnresolvableSender)
            case Some(senderPub) =>
              var ephemeral, fixed := p.dh(recipientSk, kemEnc), p.dh(recipientSk, senderPub);
              if !p.inSubgroup(kemEnc) || !p.inSubgroup(senderPub) || ephemeral.None? || fixed.None? then
                r == Err(InvalidPoint)
              else
                var okm := p.hkdf(ephemeral.value + fixed.value,
                                  KDF_INFO_LABEL + kemEnc + senderPub + p.publicKey(recipientSk));
                match p.aeadOpen(okm, PutHeader(h, []), env.sealedPart.ciphertext)
                case None => r == Err(OpenFailed)
                case Some(plain) =>
                  match GetInner(plain)
                  case None => r == Err(MessageError.Codec)
                  case Some(m) =>
                    var transcript := TranscriptFields(
                      h.version, h.messageType, h.flags, h.correlationId, h.sender, h.recipient, h.senderEpoch,
                      m.counter, m.timestamp, m.expiresAt, h.stream, kemEnc,
                      m.compression, m.uncompressedLen, m.payload);
                    r == if p.verify(senderPub, Signed(transcript, p.sha256), m.senderSig) then Ok(m)
                         else Err(BadSignature)
  {
    if resolve(env.header.sender, env.header.senderEpoch).Some? {
      var senderPub := resolve(env.header.sender, env.header.senderEpoch).value;
      var ephemeral, fixed := p.dh(recipientSk, env.sealedPart.kemEnc), p.dh(recipientSk, senderPub);
      if ephemeral.Some? && fixed.Some? {
        var x: Bytes, y: Bytes := ephemeral.value, fixed.value;
        assert AuthDecap(p, recipientSk, senderPub, env.sealedPart.kemEnc).value == x + y;
      }
    }
  }

  /**
   What becomes of an authenticated message, in order: a header that does not match, an expiry that is
   too far off or past, a stale or repeated counter; then the guard blocks its counter, it is
   decompressed, and handed out with exactly the header's and the inner message's fields.
   */
  lemma {:induction false} OpenExactly(p: Primitives, recipientSk: SecretKey, env: DigMessageEnvelope,
                                       resolve: Resolver, t: Table, now: u64, victim: SenderKey)
    requires TableOk(t)
    ensures var h, (t', r) := env.header, Open(p, recipientSk, env, resolve, t, now, victim);
            match Decrypt(p, recipientSk, env, resolve)
            case Err(e) => t' == t && r == Err(e)
            case Ok(m) =>
              var key := SenderKey(h.sender, h.senderEpoch);
              if m.messageType != h.messageType || m.correlationId != h.correlationId then
                t' == t && r == Err(HeaderMismatch)
              else if m.expiresAt != 0 && m.expiresAt > m.timestamp + 2_592_000_000 then
                t' == t && r == Err(TtlTooLong)
              else if m.expiresAt != 0 && now > m.expiresAt then
                t' == t && r == Err(Expired)
              else if || now - m.timestamp > 300_000 || m.timestamp - now > 300_000
                      || (key in t && Blocks(t[key], m.counter)) then
                t' == t && r == Err(Replay)
              else
                && key in t' && Blocks(t'[key], m.counter)
                && r == match DecompressPayload(p, m.compression, m.payload, m.uncompressedLen)
                        case Err(e) => Err(e)
                        case Ok(payload) =>
                          Ok(OpenedMessage(h.messageType, h.correlationId, ShapeOfFlags(h.flags), h.sender,
                                           h.senderEpoch, m.counter, m.timestamp, m.expiresAt, payload))
  {
    if Decrypt(p, recipientSk, env, resolve).Ok? {
      var m := Decrypt(p, recipientSk, env, resolve).value;
      FreshIsDistance(m.timestamp, now);
      var key := SenderKey(env.header.sender, env.header.senderEpoch);
      AdmitsUnlessBlocked(t, key, m.counter, m.timestamp, now, victim);
      GuardStepBlocks(t, key, m.counter, m.timestamp, now, victim);
      if !GuardStep(t, key, m.counter, m.timestamp, now, victim).1 {
        GuardStepKeeps(t, key, m.counter, m.timestamp, now, victim);
      }
    }
  }

  // ---------------------------------------------------------------- the round trip

  /** The three keys of one exchange, and a resolver that knows the sender. */
  ghost predicate Exchange(p: Primitives, params: SealParams, esk: SecretKey, recipientSk: SecretKey,
                           resolve: Resolver) {
    && ValidKey(p, esk) && ValidKey(p, params.senderSk) && ValidKey(p, recipientSk)
    && params.recipientPub == p.publicKey(recipientSk)
    && resolve(params.sender, params.senderEpoch) == Some(p.publicKey(params.senderSk))
  }

  lemma {:induction false} DecryptSealed(p: Primitives, params: SealParams, esk: SecretKey, recipientSk: SecretKey,
                                         resolve: Resolver)
    requires Laws(p) && Exchange(p, params, esk, recipientSk, resolve)
    requires SealWith(p, params, esk).Ok?
    ensures CompressPayload(p, params.payload).Ok?
    ensures Decrypt(p, recipientSk, SealWith(p, params, esk).value, resolve)
            == Ok(InnerOf(p, params, CompressPayload(p, params.payload).value, p.publicKey(esk)))
  {
    var compressed := CompressPayload(p, params.payload).value;
    var kemEnc := p.publicKey(esk);
    var inner := InnerOf(p, params, compressed, kemEnc);
    KemAgrees(p, esk, params.senderSk, recipientSk);
    CompressRoundTrip(p, params.payload);
    InnerRoundTrip(inner);
    var env := SealWith(p, params, esk).value;
    var z := AuthEncap(p, esk, params.senderSk, params.recipientPub).value;
    var okm := Kdf(p, z, kemEnc, p.publicKey(params.senderSk), params.recipientPub);
    assert AeadInverts(p);
    assert p.aeadOpen(okm, PutHeader(HeaderOf(params), []), env.sealedPart.ciphertext) == Some(PutInner(inner));
    assert SignatureVerifies(p);
    var unsigned := inner.(senderSig := seq(96, _ => 0));
    assert FieldsOf(env.header, kemEnc, inner) == FieldsOf(HeaderOf(params), kemEnc, unsigned);
  }

  function ParamsKey(params: SealParams): SenderKey {
    SenderKey(params.sender, params.senderEpoch)
  }

  function OpenedParams(params: SealParams): OpenedMessage {
    OpenedMessage(params.messageType, params.correlationId, params.shape, params.sender, params.senderEpoch,
                  params.counter, params.timestamp, params.expiresAt, params.payload)
  }

  /** The guard and result of opening what `params` sealed, said without any cryptography. */
  function OpenOutcome(params: SealParams, t: Table, now: u64, victim: SenderKey): (Table, Result<OpenedMessage>) {
    match CheckExpiry(params.timestamp, params.expiresAt, now)
    case Some(e) => (t, Err(e))
    case None =>
      var (t', ok) := GuardStep(t, ParamsKey(params), params.counter, params.timestamp, now, victim);
      if !ok then (t', Err(Replay))
      else if |params.payload| > MAX_DECOMPRESSED_BYTES then (t', Err(DecompressionBomb(|params.payload|)))
      else (t', Ok(OpenedParams(params)))
  }

  /**
   Opening a sealed message does exactly what `OpenOutcome` says: past expiry and replay it yields
   the very fields and payload that were sealed, and the guard moves by exactly that counter.
   */
  lemma OpenSealed(p: Primitives, params: SealParams, esk: SecretKey, recipientSk: SecretKey, resolve: Resolver,
                   t: Table, now: u64, victim: SenderKey)
    requires Laws(p) && Exchange(p, params, esk, recipientSk, resolve)
    requires SealWith(p, params, esk).Ok?
    ensures Open(p, recipientSk, SealWith(p, params, esk).value, resolve, t, now, victim)
            == OpenOutcome(params, t, now, victim)
  {
    DecryptSealed(p, params, esk, recipientSk, resolve);
    CompressRoundTrip(p, params.payload);
  }

  /**
   The full round trip: with valid keys (sender and recipient may be the same), a payload within
   64 MiB, a live expiry, a fresh timestamp and a counter the sender's window has not seen, opening
   returns the sealed message, and this is the only way to get it.
   */
  lemma {:induction false} SealOpenRoundTrip(p: Primitives, params: SealParams, esk: SecretKey,
                                             recipientSk: SecretKey, resolve: Resolver,
                                             t: Table, now: u64, victim: SenderKey, accepted: set<u64>)
    requires Laws(p) && Exchange(p, params, esk, recipientSk, resolve)
    requires SealWith(p, params, esk).Ok?
    requires if ParamsKey(params) in t then Refines(t[ParamsKey(params)], accepted) else accepted == {}
    ensures Open(p, recipientSk, SealWith(p, params, esk).value, resolve, t, now, victim).1 == Ok(OpenedParams(params))
            <==>
            && (params.expiresAt == 0 || now <= params.expiresAt <= params.timestamp + MAX_MESSAGE_TTL_MS)
            && now - params.timestamp <= FRESHNESS_WINDOW_MS && params.timestamp - now <= FRESHNESS_WINDOW_MS
            && Acceptable(accepted, params.counter)
            && |params.payload| <= MAX_DECOMPRESSED_BYTES
  {
    OpenSealed(p, params, esk, recipientSk, resolve, t, now, victim);
    ExpiryMeaning(params.timestamp, params.expiresAt, now);
    FreshIsDistance(params.timestamp, now);
    var key := ParamsKey(params);
    AdmitRefines(if key in t then t[key] else FRESH, accepted, params.counter);
  }

  // ---------------------------------------------------------------- what any open may do

  /**
   The guard moves only for a message that passed decryption, signature, header match and expiry
   and is fresh; it moves exactly when the guard step admits, even if decompression then fails.
   */
  lemma GuardMovesLast(p: Primitives, recipientSk: SecretKey, env: DigMessageEnvelope, resolve: Resolver,
                       t: Table, now: u64, victim: SenderKey)
    requires TableOk(t)
    requires LegalOpen(p, recipientSk, env, resolve, t, now, victim)
    ensures var (t', r) := Open(p, recipientSk, env, resolve, t, now, victim);
            var inner := Authenticate(p, recipientSk, env, resolve, now);
            && (t' != t ==> inner.Ok? && Fresh(inner.value.timestamp, now))
            && (t' != t <==>
                  inner.Ok? && GuardStep(t, KeyOf(env), inner.value.counter, inner.value.timestamp, now, victim).1)
            && (r.Ok? ==> t' != t)
  {
    var inner := Authenticate(p, recipientSk, env, resolve, now);
    if inner.Ok? {
      GuardMovesIffAdmitted(t, KeyOf(env), inner.value.counter, inner.value.timestamp, now, victim);
    }
  }

  lemma OpenKeepsHeader(p: Primitives, recipientSk: SecretKey, env: DigMessageEnvelope, resolve: Resolver,
                        t: Table, now: u64, victim: SenderKey)
    ensures var r := Open(p, recipientSk, env, resolve, t, now, victim).1;
            r.Ok? ==> r.value.sender == env.header.sender && r.value.shape == ShapeOfFlags(env.header.flags)
  {}

  /** What a receiver may conclude from success. */
  lemma {:induction false} OpenSuccessMeans(p: Primitives, recipientSk: SecretKey, env: DigMessageEnvelope,
                                            resolve: Resolver, t: Table, now: u64, victim: SenderKey)
    ensures Open(p, recipientSk, env, resolve, t, now, victim).1.Ok? ==>
            var m := Open(p, recipientSk, env, resolve, t, now, victim).1.value;
            var pub := resolve(m.sender, m.senderEpoch);
            && m.sender == env.header.sender && m.correlationId == env.header.correlationId
            && m.messageType == env.header.messageType
            && pub.Some? && p.inSubgroup(pub.value) && p.inSubgroup(env.sealedPart.kemEnc)
            && Decrypt(p, recipientSk, env, resolve).Ok?
            && (var inner := Decrypt(p, recipientSk, env, resolve).value;
                p.verify(pub.value, Signed(FieldsOf(env.header, env.sealedPart.kemEnc, inner), p.sha256),
                         inner.senderSig))
            && now - m.timestamp <= FRESHNESS_WINDOW_MS && m.timestamp - now <= FRESHNESS_WINDOW_MS
            && (m.expiresAt == 0 || now <= m.expiresAt <= m.timestamp + MAX_MESSAGE_TTL_MS)
            && |m.payload| <= MAX_DECOMPRESSED_BYTES
  {
    if Authenticate(p, recipientSk, env, resolve, now).Ok? {
      var inner := Authenticate(p, recipientSk, env, resolve, now).value;
      ExpiryMeaning(inner.timestamp, inner.expiresAt, now);
      FreshIsDistance(inner.timestamp, now);
      DecompressBounded(p, inner.compression, inner.payload, inner.uncompressedLen);
    }
  }

  /** A successful open leaves the guard blocking the message's counter. */
  lemma {:induction false} OpenBlocks(p: Primitives, recipientSk: SecretKey, env: DigMessageEnvelope, resolve: Resolver,
                                      t: Table, now: u64, victim: SenderKey)
    ensures Open(p, recipientSk, env, resolve, t, now, victim).1.Ok? ==>
            var t' := Open(p, recipientSk, env, resolve, t, now, victim).0;
            && Decrypt(p, recipientSk, env, resolve).Ok?
            && KeyOf(env) in t'
            && Blocks(t'[KeyOf(env)], Decrypt(p, recipientSk, env, resolve).value.counter)
  {
    if Open(p, recipientSk, env, resolve, t, now, victim).1.Ok? {
      var inner := Decrypt(p, recipientSk, env, resolve).value;
      GuardStepBlocks(t, KeyOf(env), inner.counter, inner.timestamp, now, victim);
      assert Authenticate(p, recipientSk, env, resolve, now) == Ok(inner);
    }
  }

  lemma BlockedNeverOpens(p: Primitives, recipientSk: SecretKey, env: DigMessageEnvelope, resolve: Resolver,
                          t: Table, now: u64, victim: SenderKey)
    requires Decrypt(p, recipientSk, env, resolve).Ok?
    requires KeyOf(env) in t && Blocks(t[KeyOf(env)], Decrypt(p, recipientSk, env, resolve).value.counter)
    ensures Open(p, recipientSk, env, resolve, t, now, victim).1.Err?
  {
    AdmitBlocks(t[KeyOf(env)], Decrypt(p, recipientSk, env, resolve).value.counter);
  }

  /**
   An envelope opened once never opens again with the same key and resolver, at any later time and
   after any other arrivals at the guard, unless its sender was evicted in between.
   */
  lemma {:induction false} ReopenFails(p: Primitives, recipientSk: SecretKey, env: DigMessageEnvelope,
                                       resolve: Resolver,
                                       t: Table, now: u64, victim: SenderKey, between: seq<Arrival>, later: u64,
                                       victim2: SenderKey)
    ensures var (t1, first) := Open(p, recipientSk, env, resolve, t, now, victim);
            first.Ok? && (forall k :: 0 <= k < |between| ==> !EvictedAt(t1, between, k, KeyOf(env)))
            ==> Open(p, recipientSk, env, resolve, TableAfter(t1, between, |between|), later, victim2).1.Err?
  {
    var (t1, first) := Open(p, recipientSk, env, resolve, t, now, victim);
    if first.Ok? && forall k :: 0 <= k < |between| ==> !EvictedAt(t1, between, k, KeyOf(env)) {
      OpenBlocks(p, recipientSk, env, resolve, t, now, victim);
      BlockedThroughRun(t1, between, |between|, KeyOf(env), Decrypt(p, recipientSk, env, resolve).value.counter);
      BlockedNeverOpens(p, recipientSk, env, resolve, TableAfter(t1, between, |between|), later, victim2);
    }
  }
}
