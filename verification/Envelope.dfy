/**
 The wire shapes of src/envelope.rs and their codec: the cleartext header, the sealed region, the
 inner message, and the size- and version-checked envelope encoding.
 */
module Envelope {
  import opened Types
  import opened Codec

  datatype InteractionShape = OneShot | Request | Response | StreamFrameShape

  const FLAG_SEALED: u8 := 4

  /** `flags & 0b11`; every two-bit value names a shape, so the code's `None` arm is unreachable. */
  function ShapeOfFlags(flags: u8): InteractionShape {
    match flags % 4
    case 0 => OneShot
    case 1 => Request
    case 2 => Response
    case _ => StreamFrameShape
  }

  function ShapeBits(shape: InteractionShape): u8 {
    match shape
    case OneShot => 0
    case Request => 1
    case Response => 2
    case StreamFrameShape => 3
  }

  /** `shape.as_bits() | FLAG_SEALED`: the sealed bit is clear of the shape bits. */
  function SealedFlags(shape: InteractionShape): (flags: u8)
    ensures ShapeOfFlags(flags) == shape && flags / FLAG_SEALED % 2 == 1
  {
    ShapeBits(shape) + FLAG_SEALED
  }

  datatype FrameKind = Open | OpenAck | Data | Credit | Close | CloseAck | Reset

  function KindOfByte(b: u8): Option<FrameKind> {
    match b
    case 0 => Some(Open)
    case 1 => Some(OpenAck)
    case 2 => Some(Data)
    case 3 => Some(Credit)
    case 4 => Some(Close)
    case 5 => Some(CloseAck)
    case 6 => Some(Reset)
    case _ => None
  }

  function KindByte(k: FrameKind): (b: u8)
    ensures KindOfByte(b) == Some(k)
  {
    match k
    case Open => 0
    case OpenAck => 1
    case Data => 2
    case Credit => 3
    case Close => 4
    case CloseAck => 5
    case Reset => 6
  }

  /** Exactly the bytes 0 to 6 name a frame kind, each its own. */
  lemma KindBytes(b: u8, k: FrameKind)
    ensures KindOfByte(b) == Some(k) <==> b == KindByte(k)
    ensures KindOfByte(b).None? <==> b > 6
  {}

  /** The wire values of the kinds, the shapes and the sealed bit. */
  lemma WireValues()
    ensures KindByte(Open) == 0 && KindByte(OpenAck) == 1 && KindByte(Data) == 2 && KindByte(Credit) == 3
    ensures KindByte(Close) == 4 && KindByte(CloseAck) == 5 && KindByte(Reset) == 6
    ensures SealedFlags(OneShot) == 4 && SealedFlags(Request) == 5
    ensures SealedFlags(Response) == 6 && SealedFlags(StreamFrameShape) == 7
    ensures forall flags: u8 :: ShapeOfFlags(flags) == ShapeOfFlags(flags % 4)
    ensures ShapeOfFlags(0) == OneShot && ShapeOfFlags(1) == Request
    ensures ShapeOfFlags(2) == Response && ShapeOfFlags(3) == StreamFrameShape
  {}

  datatype StreamHeader = StreamHeader(frame: u8, seqNo: u64, window: u32)

  /** Fields 1 to 8 of the envelope. */
  datatype Header = Header(
    version: u8,
    messageType: u32,
    flags: u8,
    correlationId: Bytes32,
    sender: Bytes32,
    recipient: Bytes32,
    senderEpoch: u32,
    stream: Option<StreamHeader>)

  datatype SealedPayload = SealedPayload(kemEnc: Bytes48, ciphertext: Bytes)

  datatype DigMessageEnvelope = DigMessageEnvelope(header: Header, sealedPart: SealedPayload)

  datatype InnerMessage = InnerMessage(
    messageType: u32,
    correlationId: Bytes32,
    compression: u8,
    uncompressedLen: u32,
    counter: u64,
    timestamp: u64,
    expiresAt: u64,
    payload: Bytes,
    senderSig: Bytes96)

  // ---------------------------------------------------------------- the header

  function PutStream(s: Option<StreamHeader>, rest: Bytes): Bytes {
    match s
    case None => BigEndian(0, 1) + rest
    case Some(h) =>
      BigEndian(1, 1) + (BigEndian(h.frame, 1) + (BigEndian(h.seqNo, 8) + (BigEndian(h.window, 4) + rest)))
  }

  function PutHeader(h: Header, rest: Bytes): Bytes {
    BigEndian(h.version, 1) + (BigEndian(h.messageType, 4) + (BigEndian(h.flags, 1) + PutIds(h, rest)))
  }

  function PutIds(h: Header, rest: Bytes): Bytes {
    h.correlationId + (h.sender + (h.recipient + (BigEndian(h.senderEpoch, 4) + PutStream(h.stream, rest))))
  }

  function GetStream(bs: Bytes): Option<(Option<StreamHeader>, Bytes)> {
    var (tag, b1) :- GetU8(bs);
    if tag == 0 then Some((None, b1))
    else if tag == 1 then
      var (frame, b2) :- GetU8(b1);
      var (seqNo, b3) :- GetU64(b2);
      var (window, b4) :- GetU32(b3);
      Some((Some(StreamHeader(frame, seqNo, window)), b4))
    else None
  }

  function GetHeader(bs: Bytes): Option<(Header, Bytes)> {
    var (version, b1) :- GetU8(bs);
    var (messageType, b2) :- GetU32(b1);
    var (flags, b3) :- GetU8(b2);
    var (cid, b4) :- GetBytes(b3, 32);
    var (sender, b5) :- GetBytes(b4, 32);
    var (recipient, b6) :- GetBytes(b5, 32);
    var (epoch, b7) :- GetU32(b6);
    var (stream, b8) :- GetStream(b7);
    Some((Header(version, messageType, flags, cid, sender, recipient, epoch, stream), b8))
  }

  /** `header_bytes`: the eight fields appended one after the other. */
  method HeaderBytes(e: DigMessageEnvelope) returns (out: Bytes)
    ensures out == PutHeader(e.header, [])
  {
    out := BigEndian(e.header.version, 1);
    out := out + BigEndian(e.header.messageType, 4);
    out := out + BigEndian(e.header.flags, 1);
    out := AppendIds(out, e.header);
  }

  method AppendIds(prefix: Bytes, h: Header) returns (out: Bytes)
    ensures out == prefix + PutIds(h, [])
  {
    out := prefix + h.correlationId;
    out := out + h.sender;
    out := out + h.recipient;
    out := out + BigEndian(h.senderEpoch, 4);
    out := AppendStream(out, h.stream);
  }

  method AppendStream(prefix: Bytes, s: Option<StreamHeader>) returns (out: Bytes)
    ensures out == prefix + PutStream(s, [])
  {
    match s {
      case None =>
        out := prefix + BigEndian(0, 1);
      case Some(h) =>
        out := prefix + BigEndian(1, 1);
        out := out + BigEndian(h.frame, 1);
        out := out + BigEndian(h.seqNo, 8);
        out := out + BigEndian(h.window, 4);
    }
  }

  lemma GetPutStream(s: Option<StreamHeader>, rest: Bytes)
    ensures GetStream(PutStream(s, rest)) == Some((s, rest))
  {
    Limits();
    match s {
      case None => GetPutUint(0, 1, rest);
      case Some(h) =>
        var b3 := BigEndian(h.window, 4) + rest;
        var b2 := BigEndian(h.seqNo, 8) + b3;
        var b1 := BigEndian(h.frame, 1) + b2;
        GetPutUint(1, 1, b1);
        GetPutUint(h.frame, 1, b2);
        GetPutUint(h.seqNo, 8, b3);
        GetPutUint(h.window, 4, rest);
    }
  }

  lemma PutGetStream(bs: Bytes)
    ensures GetStream(bs).Some? ==> bs == PutStream(GetStream(bs).value.0, GetStream(bs).value.1)
  {
    Limits();
    PutGetUint(bs, 1);
    if GetU8(bs).Some? && GetU8(bs).value.0 == 1 {
      var b1 := GetU8(bs).value.1;
      PutGetUint(b1, 1);
      if GetU8(b1).Some? {
        var b2 := GetU8(b1).value.1;
        PutGetUint(b2, 8);
        if GetU64(b2).Some? { PutGetUint(GetU64(b2).value.1, 4); }
      }
    }
  }

  /** The header is self-delimiting: it reads back exactly, whatever follows it. */
  lemma HeaderRoundTrip(h: Header, rest: Bytes)
    ensures GetHeader(PutHeader(h, rest)) == Some((h, rest))
  {
    Limits();
    var b7 := PutStream(h.stream, rest);
    var b6 := BigEndian(h.senderEpoch, 4) + b7;
    var b5 := h.recipient + b6;
    var b4 := h.sender + b5;
    var b3 := h.correlationId + b4;
    var b2 := BigEndian(h.flags, 1) + b3;
    var b1 := BigEndian(h.messageType, 4) + b2;
    GetPutUint(h.version, 1, b1);
    GetPutUint(h.messageType, 4, b2);
    GetPutUint(h.flags, 1, b3);
    GetPutBytes(h.correlationId, b4);
    GetPutBytes(h.sender, b5);
    GetPutBytes(h.recipient, b6);
    GetPutUint(h.senderEpoch, 4, b7);
    GetPutStream(h.stream, rest);
  }

  lemma HeaderCanonical(bs: Bytes)
    ensures GetHeader(bs).Some? ==> bs == PutHeader(GetHeader(bs).value.0, GetHeader(bs).value.1)
  {
    if GetHeader(bs).Some? {
      PutGetUint(bs, 1);
      var b1 := GetU8(bs).value.1;
      PutGetUint(b1, 4);
      var b2 := GetU32(b1).value.1;
      PutGetUint(b2, 1);
      var b3 := GetU8(b2).value.1;
      PutGetBytes(b3, 32);
      var b4 := GetBytes(b3, 32).value.1;
      PutGetBytes(b4, 32);
      var b5 := GetBytes(b4, 32).value.1;
      PutGetBytes(b5, 32);
      var b6 := GetBytes(b5, 32).value.1;
      PutGetUint(b6, 4);
      PutGetStream(GetU32(b6).value.1);
    }
  }

  lemma PutStreamSplits(s: Option<StreamHeader>, rest: Bytes)
    ensures PutStream(s, rest) == PutStream(s, []) + rest
  {}

  lemma PutHeaderSplits(h: Header, rest: Bytes)
    ensures PutHeader(h, rest) == PutHeader(h, []) + rest
  {
    PutStreamSplits(h.stream, rest);
    assert PutIds(h, rest) == PutIds(h, []) + rest;
  }

  /** No header is a prefix of another, so equal byte strings mean equal headers. */
  lemma HeaderPrefixFree(h1: Header, h2: Header)
    requires PutHeader(h1, []) <= PutHeader(h2, [])
    ensures h1 == h2
  {
    var a, b := PutHeader(h1, []), PutHeader(h2, []);
    var tail := b[|a|..];
    assert b == a + tail;
    PutHeaderSplits(h1, tail);
    HeaderRoundTrip(h1, tail);
    HeaderRoundTrip(h2, []);
  }

  /** The byte positions of the header fields; the order is part of the wire contract. */
  lemma HeaderLayout(h: Header)
    ensures var b := PutHeader(h, []);
            && |b| == (if h.stream.None? then 107 else 120)
            && b[0..1] == BigEndian(h.version, 1) && b[1..5] == BigEndian(h.messageType, 4)
            && b[5..6] == BigEndian(h.flags, 1)
            && b[6..38] == h.correlationId && b[38..70] == h.sender && b[70..102] == h.recipient
            && b[102..106] == BigEndian(h.senderEpoch, 4)
            && (h.stream.None? ==> b[106..] == BigEndian(0, 1))
            && (h.stream.Some? ==>
                  && b[106..107] == BigEndian(1, 1) && b[107..108] == BigEndian(h.stream.value.frame, 1)
                  && b[108..116] == BigEndian(h.stream.value.seqNo, 8)
                  && b[116..] == BigEndian(h.stream.value.window, 4))
  {
    HeaderFront(h);
    StreamLayout(h.stream, PutHeader(h, []), 106);
  }

  /** The fields before the stream header. */
  lemma HeaderFront(h: Header)
    ensures var b := PutHeader(h, []);
            && |b| == 106 + |PutStream(h.stream, [])| && b[106..] == PutStream(h.stream, [])
            && b[0..1] == BigEndian(h.version, 1) && b[1..5] == BigEndian(h.messageType, 4)
            && b[5..6] == BigEndian(h.flags, 1)
            && b[6..38] == h.correlationId && b[38..70] == h.sender && b[70..102] == h.recipient
            && b[102..106] == BigEndian(h.senderEpoch, 4)
  {
    var b := PutHeader(h, []);
    var b6 := BigEndian(h.senderEpoch, 4) + PutStream(h.stream, []);
    var b5 := h.recipient + b6;
    var b4 := h.sender + b5;
    var b3 := h.correlationId + b4;
    var b2 := BigEndian(h.flags, 1) + b3;
    Slice(b, 0, BigEndian(h.version, 1), BigEndian(h.messageType, 4) + b2);
    Slice(b, 1, BigEndian(h.messageType, 4), b2);
    Slice(b, 5, BigEndian(h.flags, 1), b3);
    Slice(b, 6, h.correlationId, b4);
    Slice(b, 38, h.sender, b5);
    Slice(b, 70, h.recipient, b6);
    Slice(b, 102, BigEndian(h.senderEpoch, 4), PutStream(h.stream, []));
  }

  /** The fields of a stream header that starts at position `at` and ends the bytes. */
  lemma StreamLayout(s: Option<StreamHeader>, b: Bytes, at: nat)
    requires at <= |b| && b[at..] == PutStream(s, [])
    ensures |b| == at + (if s.None? then 1 else 14)
    ensures s.None? ==> b[at..] == BigEndian(0, 1)
    ensures s.Some? ==>
              && b[at..at + 1] == BigEndian(1, 1) && b[at + 1..at + 2] == BigEndian(s.value.frame, 1)
              && b[at + 2..at + 10] == BigEndian(s.value.seqNo, 8) && b[at + 10..] == BigEndian(s.value.window, 4)
  {
    if s.Some? {
      var h := s.value;
      var rest := BigEndian(h.window, 4) + [];
      Slice(b, at, BigEndian(1, 1), BigEndian(h.frame, 1) + (BigEndian(h.seqNo, 8) + rest));
      Slice(b, at + 1, BigEndian(h.frame, 1), BigEndian(h.seqNo, 8) + rest);
      Slice(b, at + 2, BigEndian(h.seqNo, 8), rest);
    }
  }

  // ---------------------------------------------------------------- the envelope

  function PutEnvelope(e: DigMessageEnvelope): Bytes {
    PutHeader(e.header, e.sealedPart.kemEnc + PutVec(e.sealedPart.ciphertext, []))
  }

  function GetEnvelope(bs: Bytes): Option<DigMessageEnvelope> {
    var (h, b1) :- GetHeader(bs);
    var (kem, b2) :- GetBytes(b1, 48);
    var (ciphertext, b3) :- GetVec(b2);
    if b3 == [] then Some(DigMessageEnvelope(h, SealedPayload(kem, ciphertext))) else None
  }

  function EncodeEnvelope(e: DigMessageEnvelope): Result<Bytes> {
    if |e.sealedPart.ciphertext| > U32_MAX then Err(MessageError.Codec)
    else
      var bytes := PutEnvelope(e);
      if |bytes| > MAX_ENVELOPE_BYTES then Err(EnvelopeTooLarge(|bytes|)) else Ok(bytes)
  }

  function DecodeEnvelope(bytes: Bytes): Result<DigMessageEnvelope> {
    if |bytes| > MAX_ENVELOPE_BYTES then Err(EnvelopeTooLarge(|bytes|))
    else
      match GetEnvelope(bytes)
      case None => Err(Truncated)
      case Some(e) => if e.header.version > ENVELOPE_VERSION then Err(UnsupportedVersion(e.header.version)) else Ok(e)
  }

  /**
   The encoding is the header bytes followed by the sealed region: 159 bytes more than the ciphertext,
   172 with a stream header.
   */
  lemma EnvelopeLayout(e: DigMessageEnvelope)
    ensures PutEnvelope(e)
            == PutHeader(e.header, []) + e.sealedPart.kemEnc + BigEndian(|e.sealedPart.ciphertext|, 4)
               + e.sealedPart.ciphertext
    ensures |PutEnvelope(e)| == (if e.header.stream.None? then 159 else 172) + |e.sealedPart.ciphertext|
  {
    PutHeaderSplits(e.header, e.sealedPart.kemEnc + PutVec(e.sealedPart.ciphertext, []));
    HeaderFront(e.header);
    StreamLayout(e.header.stream, PutHeader(e.header, []), 106);
    var ciphertext := e.sealedPart.ciphertext;
    Regroup(PutHeader(e.header, []), e.sealedPart.kemEnc, BigEndian(|ciphertext|, 4), ciphertext);
  }

  lemma Regroup(a: Bytes, b: Bytes, c: Bytes, d: Bytes)
    ensures a + (b + (c + (d + []))) == a + b + c + d
  {}

  lemma {:induction false} GetPutEnvelope(e: DigMessageEnvelope)
    requires |e.sealedPart.ciphertext| <= U32_MAX
    ensures GetEnvelope(PutEnvelope(e)) == Some(e)
  {
    var b2 := PutVec(e.sealedPart.ciphertext, []);
    HeaderRoundTrip(e.header, e.sealedPart.kemEnc + b2);
    GetPutBytes(e.sealedPart.kemEnc, b2);
    GetPutVec(e.sealedPart.ciphertext, []);
  }

  lemma {:induction false} PutGetEnvelope(bs: Bytes)
    ensures GetEnvelope(bs).Some? ==>
              bs == PutEnvelope(GetEnvelope(bs).value) && |GetEnvelope(bs).value.sealedPart.ciphertext| <= U32_MAX
  {
    if GetEnvelope(bs).Some? {
      HeaderCanonical(bs);
      var b1 := GetHeader(bs).value.1;
      PutGetBytes(b1, 48);
      PutGetVec(GetBytes(b1, 48).value.1);
    }
  }

  /**
   `decode_envelope` accepts a byte string exactly when it is the encoding of an envelope of a
   supported version, and then returns that envelope: decoding inverts encoding, and no envelope
   has a second accepted encoding.
   */
  lemma DecodeInvertsEncode(bytes: Bytes, e: DigMessageEnvelope)
    ensures DecodeEnvelope(bytes) == Ok(e)
            <==> EncodeEnvelope(e) == Ok(bytes) && e.header.version <= ENVELOPE_VERSION
  {
    PutGetEnvelope(bytes);
    if EncodeEnvelope(e) == Ok(bytes) { GetPutEnvelope(e); }
  }

  /**
   Why decoding fails: first the size cap, then bytes that are no encoding at all, then the version
   of the one envelope they encode.
   */
  lemma {:induction false} DecodeErrors(bytes: Bytes)
    ensures |bytes| > 16 * 1024 * 1024 ==> DecodeEnvelope(bytes) == Err(EnvelopeTooLarge(|bytes|))
    ensures |bytes| <= 16 * 1024 * 1024 ==>
              (DecodeEnvelope(bytes) == Err(Truncated)
               <==> forall e: DigMessageEnvelope | |e.sealedPart.ciphertext| <= U32_MAX :: PutEnvelope(e) != bytes)
    ensures forall e: DigMessageEnvelope |
              bytes == PutEnvelope(e) && |e.sealedPart.ciphertext| <= U32_MAX && |bytes| <= 16 * 1024 * 1024 ::
              DecodeEnvelope(bytes)
              == if e.header.version > 1 then Err(UnsupportedVersion(e.header.version)) else Ok(e)
  {
    PutGetEnvelope(bytes);
    forall e: DigMessageEnvelope | bytes == PutEnvelope(e) && |e.sealedPart.ciphertext| <= U32_MAX
      ensures GetEnvelope(bytes) == Some(e)
    {
      GetPutEnvelope(e);
    }
  }

  /** Encoding fails only for size: a length that does not fit its prefix, or bytes over the cap. */
  lemma EncodeErrors(e: DigMessageEnvelope)
    ensures var size := |PutEnvelope(e)|;
            EncodeEnvelope(e)
            == if |e.sealedPart.ciphertext| > 0xFFFF_FFFF then Err(MessageError.Codec)
               else if size > 16 * 1024 * 1024 then Err(EnvelopeTooLarge(size)) else Ok(PutEnvelope(e))
  {}

  // ---------------------------------------------------------------- the inner message

  function PutInner(m: InnerMessage): Bytes {
    BigEndian(m.messageType, 4) + (m.correlationId + (BigEndian(m.compression, 1) +
      (BigEndian(m.uncompressedLen, 4) + PutInnerTail(m))))
  }

  function PutInnerTail(m: InnerMessage): Bytes {
    BigEndian(m.counter, 8) + (BigEndian(m.timestamp, 8) + (BigEndian(m.expiresAt, 8) +
      PutVec(m.payload, m.senderSig + [])))
  }

  function GetInner(bs: Bytes): Option<InnerMessage> {
    var (messageType, b1) :- GetU32(bs);
    var (cid, b2) :- GetBytes(b1, 32);
    var (compression, b3) :- GetU8(b2);
    var (len, b4) :- GetU32(b3);
    var (counter, timestamp, expires, payload, sig) :- GetInnerTail(b4);
    Some(InnerMessage(messageType, cid, compression, len, counter, timestamp, expires, payload, sig))
  }

  /** The fields from the counter on. */
  function GetInnerTail(b4: Bytes): Option<(u64, u64, u64, Bytes, Bytes96)> {
    var (counter, b5) :- GetU64(b4);
    var (timestamp, b6) :- GetU64(b5);
    var (expires, b7) :- GetU64(b6);
    var (payload, b8) :- GetVec(b7);
    var (sig, b9) :- GetBytes(b8, 96);
    if b9 == [] then Some((counter, timestamp, expires, payload, sig)) else None
  }

  /** `InnerMessage::to_bytes`; a payload whose length does not fit the prefix fails. */
  function EncodeInner(m: InnerMessage): Option<Bytes> {
    if |m.payload| > U32_MAX then None else Some(PutInner(m))
  }

  /** The byte positions of the inner message fields; the order is part of the wire contract. */
  lemma InnerLayout(m: InnerMessage)
    ensures var b := PutInner(m);
            && |b| == 165 + |m.payload|
            && b[0..4] == BigEndian(m.messageType, 4) && b[4..36] == m.correlationId
            && b[36..37] == BigEndian(m.compression, 1) && b[37..41] == BigEndian(m.uncompressedLen, 4)
            && b[41..49] == BigEndian(m.counter, 8) && b[49..57] == BigEndian(m.timestamp, 8)
            && b[57..65] == BigEndian(m.expiresAt, 8)
            && b[65..69] == BigEndian(|m.payload|, 4) && b[69..69 + |m.payload|] == m.payload
            && b[69 + |m.payload|..] == m.senderSig
  {
    var b := PutInner(m);
    var b8 := m.senderSig + [];
    var b7 := PutVec(m.payload, b8);
    var b6 := BigEndian(m.expiresAt, 8) + b7;
    var b5 := BigEndian(m.timestamp, 8) + b6;
    var b4 := BigEndian(m.counter, 8) + b5;
    var b3 := BigEndian(m.uncompressedLen, 4) + b4;
    var b2 := BigEndian(m.compression, 1) + b3;
    Slice(b, 0, BigEndian(m.messageType, 4), m.correlationId + b2);
    Slice(b, 4, m.correlationId, b2);
    Slice(b, 36, BigEndian(m.compression, 1), b3);
    Slice(b, 37, BigEndian(m.uncompressedLen, 4), b4);
    Slice(b, 41, BigEndian(m.counter, 8), b5);
    Slice(b, 49, BigEndian(m.timestamp, 8), b6);
    Slice(b, 57, BigEndian(m.expiresAt, 8), b7);
    Slice(b, 65, BigEndian(|m.payload|, 4), m.payload + b8);
    Slice(b, 69, m.payload, b8);
  }

  lemma InnerRoundTrip(m: InnerMessage)
    requires |m.payload| <= U32_MAX
    ensures GetInner(PutInner(m)) == Some(m)
  {
    Limits();
    var b8 := m.senderSig + [];
    var b7 := PutVec(m.payload, b8);
    var b6 := BigEndian(m.expiresAt, 8) + b7;
    var b5 := BigEndian(m.timestamp, 8) + b6;
    var b4 := BigEndian(m.counter, 8) + b5;
    var b3 := BigEndian(m.uncompressedLen, 4) + b4;
    var b2 := BigEndian(m.compression, 1) + b3;
    var b1 := m.correlationId + b2;
    GetPutUint(m.messageType, 4, b1);
    GetPutBytes(m.correlationId, b2);
    GetPutUint(m.compression, 1, b3);
    GetPutUint(m.uncompressedLen, 4, b4);
    GetPutUint(m.counter, 8, b5);
    GetPutUint(m.timestamp, 8, b6);
    GetPutUint(m.expiresAt, 8, b7);
    GetPutVec(m.payload, b8);
    GetPutBytes(m.senderSig, []);
  }

  /** Parsing accepts exactly the encodings: no bytes are left over, and nothing has a second encoding. */
  lemma {:induction false} InnerCanonical(bs: Bytes, m: InnerMessage)
    ensures GetInner(bs) == Some(m) <==> |m.payload| <= U32_MAX && bs == PutInner(m)
  {
    if GetInner(bs).Some? {
      PutGetUint(bs, 4);
      var b1 := GetU32(bs).value.1;
      PutGetBytes(b1, 32);
      var b2 := GetBytes(b1, 32).value.1;
      PutGetUint(b2, 1);
      var b3 := GetU8(b2).value.1;
      PutGetUint(b3, 4);
      InnerTailCanonical(GetU32(b3).value.1, GetInner(bs).value);
    }
    if |m.payload| <= U32_MAX && bs == PutInner(m) { InnerRoundTrip(m); }
  }

  lemma {:induction false} InnerTailCanonical(b4: Bytes, m: InnerMessage)
    requires GetInnerTail(b4) == Some((m.counter, m.timestamp, m.expiresAt, m.payload, m.senderSig))
    ensures |m.payload| <= U32_MAX && b4 == PutInnerTail(m)
  {
    PutGetUint(b4, 8);
    var b5 := GetU64(b4).value.1;
    PutGetUint(b5, 8);
    var b6 := GetU64(b5).value.1;
    PutGetUint(b6, 8);
    var b7 := GetU64(b6).value.1;
    PutGetVec(b7);
    PutGetBytes(GetVec(b7).value.1, 96);
  }
}
