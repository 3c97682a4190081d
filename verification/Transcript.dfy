/**
 The signed transcript of src/transcript.rs: a domain tag and sixteen fixed-width fields.  The hash
 of the compressed payload is a parameter, SHA-256 itself being outside this model.
 */
module Transcript {
  import opened Types
  import opened Codec
  import opened Envelope

  /** "DIGNET-MSG:dig-message/v1" in ASCII. */
  const SIG_DOMAIN: Bytes := [
    68, 73, 71, 78, 69, 84, 45, 77, 83, 71, 58,
    100, 105, 103, 45, 109, 101, 115, 115, 97, 103, 101, 47, 118, 49]

  const TRANSCRIPT_LEN: nat := 224

  datatype TranscriptFields = TranscriptFields(
    version: u8,
    messageType: u32,
    flags: u8,
    correlationId: Bytes32,
    sender: Bytes32,
    recipient: Bytes32,
    senderEpoch: u32,
    counter: u64,
    timestamp: u64,
    expiresAt: u64,
    stream: Option<StreamHeader>,
    kemEnc: Bytes48,
    compression: u8,
    uncompressedLen: u32,
    compressedPayload: Bytes)

  type Hash = Bytes -> Bytes32

  const SIG_DOMAIN_TEXT: string := "DIGNET-MSG:dig-message/v1"

  lemma SigDomainIsText()
    ensures |SIG_DOMAIN| == |SIG_DOMAIN_TEXT|
    ensures forall i :: 0 <= i < |SIG_DOMAIN| ==> SIG_DOMAIN[i] == SIG_DOMAIN_TEXT[i] as int
  {}

  /** The only part of a stream header the transcript binds; no header reads as (0, 0). */
  function StreamProjection(s: Option<StreamHeader>): (u8, u64) {
    match s
    case None => (0, 0)
    case Some(h) => (h.frame, h.seqNo)
  }

  function Transcript(f: TranscriptFields, hash: Hash): Bytes {
    BigEndian(f.version, 1) + (BigEndian(f.messageType, 4) + (BigEndian(f.flags, 1) +
      (f.correlationId + (f.sender + (f.recipient + TranscriptTail(f, hash))))))
  }

  function TranscriptTail(f: TranscriptFields, hash: Hash): Bytes {
    BigEndian(f.senderEpoch, 4) + (BigEndian(f.counter, 8) + (BigEndian(f.timestamp, 8) +
      (BigEndian(f.expiresAt, 8) + TranscriptEnd(f, hash))))
  }

  function TranscriptEnd(f: TranscriptFields, hash: Hash): Bytes {
    var (frame, seqNo) := StreamProjection(f.stream);
    BigEndian(frame, 1) + (BigEndian(seqNo, 8) + (f.kemEnc + (BigEndian(f.compression, 1) +
      (BigEndian(f.uncompressedLen, 4) + hash(f.compressedPayload)))))
  }

  /** What is signed. */
  function Signed(f: TranscriptFields, hash: Hash): Bytes {
    SIG_DOMAIN + Transcript(f, hash)
  }

  /** `signing_bytes`: the fields appended one after the other. */
  method SigningBytes(f: TranscriptFields, hash: Hash) returns (out: Bytes)
    ensures out == Signed(f, hash)
    ensures |out| == |SIG_DOMAIN| + TRANSCRIPT_LEN
  {
    out := SIG_DOMAIN;
    out := out + BigEndian(f.version, 1);
    out := out + BigEndian(f.messageType, 4);
    out := out + BigEndian(f.flags, 1);
    ghost var start := out;
    out := out + f.correlationId;
    out := out + f.sender;
    out := out + f.recipient;
    ghost var head := out;
    out := AppendTail(out, f, hash);
    assert out == start + (f.correlationId + (f.sender + (f.recipient + TranscriptTail(f, hash))));
  }

  /** The fields from the sender epoch on. */
  method AppendTail(prefix: Bytes, f: TranscriptFields, hash: Hash) returns (out: Bytes)
    ensures out == prefix + TranscriptTail(f, hash)
  {
    out := prefix + BigEndian(f.senderEpoch, 4);
    out := out + BigEndian(f.counter, 8);
    out := out + BigEndian(f.timestamp, 8);
    out := out + BigEndian(f.expiresAt, 8);
    out := AppendEnd(out, f, hash);
  }

  /** The fields from the stream projection on. */
  method AppendEnd(prefix: Bytes, f: TranscriptFields, hash: Hash) returns (out: Bytes)
    ensures out == prefix + TranscriptEnd(f, hash)
  {
    var (frame, seqNo) := StreamProjection(f.stream);
    out := prefix + BigEndian(frame, 1);
    out := out + BigEndian(seqNo, 8);
    out := out + f.kemEnc;
    ghost var kem := out;
    out := out + BigEndian(f.compression, 1);
    out := out + BigEndian(f.uncompressedLen, 4);
    out := out + hash(f.compressedPayload);
    assert out == kem + (BigEndian(f.compression, 1) + (BigEndian(f.uncompressedLen, 4) + hash(f.compressedPayload)));
  }

  /** The byte positions of the sixteen fields; the order is what both ends sign. */
  lemma TranscriptLayout(f: TranscriptFields, hash: Hash)
    ensures var b := Transcript(f, hash);
            && Signed(f, hash) == SIG_DOMAIN + b && |b| == 224
            && b[0..1] == BigEndian(f.version, 1) && b[1..5] == BigEndian(f.messageType, 4)
            && b[5..6] == BigEndian(f.flags, 1)
            && b[6..38] == f.correlationId && b[38..70] == f.sender && b[70..102] == f.recipient
            && b[102..106] == BigEndian(f.senderEpoch, 4) && b[106..114] == BigEndian(f.counter, 8)
            && b[114..122] == BigEndian(f.timestamp, 8) && b[122..130] == BigEndian(f.expiresAt, 8)
            && (f.stream.None? ==> b[130..131] == BigEndian(0, 1) && b[131..139] == BigEndian(0, 8))
            && (f.stream.Some? ==>
                  && b[130..131] == BigEndian(f.stream.value.frame, 1)
                  && b[131..139] == BigEndian(f.stream.value.seqNo, 8))
            && b[139..187] == f.kemEnc && b[187..188] == BigEndian(f.compression, 1)
            && b[188..192] == BigEndian(f.uncompressedLen, 4) && b[192..] == hash(f.compressedPayload)
  {
    var b := Transcript(f, hash);
    var tail := TranscriptTail(f, hash);
    var b5 := f.recipient + tail;
    var b4 := f.sender + b5;
    var b3 := f.correlationId + b4;
    var b2 := BigEndian(f.flags, 1) + b3;
    Slice(b, 0, BigEndian(f.version, 1), BigEndian(f.messageType, 4) + b2);
    Slice(b, 1, BigEndian(f.messageType, 4), b2);
    Slice(b, 5, BigEndian(f.flags, 1), b3);
    Slice(b, 6, f.correlationId, b4);
    Slice(b, 38, f.sender, b5);
    Slice(b, 70, f.recipient, tail);
    TailLayout(b, f, hash);
    EndLayout(b, f, hash);
  }

  lemma TailLayout(b: Bytes, f: TranscriptFields, hash: Hash)
    requires |b| >= 102 && b[102..] == TranscriptTail(f, hash)
    ensures |b| >= 130 && b[130..] == TranscriptEnd(f, hash)
    ensures b[102..106] == BigEndian(f.senderEpoch, 4) && b[106..114] == BigEndian(f.counter, 8)
    ensures b[114..122] == BigEndian(f.timestamp, 8) && b[122..130] == BigEndian(f.expiresAt, 8)
  {
    var t3 := BigEndian(f.expiresAt, 8) + TranscriptEnd(f, hash);
    var t2 := BigEndian(f.timestamp, 8) + t3;
    var t1 := BigEndian(f.counter, 8) + t2;
    Slice(b, 102, BigEndian(f.senderEpoch, 4), t1);
    Slice(b, 106, BigEndian(f.counter, 8), t2);
    Slice(b, 114, BigEndian(f.timestamp, 8), t3);
    Slice(b, 122, BigEndian(f.expiresAt, 8), TranscriptEnd(f, hash));
  }

  lemma EndLayout(b: Bytes, f: TranscriptFields, hash: Hash)
    requires |b| >= 130 && b[130..] == TranscriptEnd(f, hash)
    ensures |b| == 224
    ensures b[130..131] == BigEndian(StreamProjection(f.stream).0, 1)
    ensures b[131..139] == BigEndian(StreamProjection(f.stream).1, 8)
    ensures b[139..187] == f.kemEnc && b[187..188] == BigEndian(f.compression, 1)
    ensures b[188..192] == BigEndian(f.uncompressedLen, 4) && b[192..] == hash(f.compressedPayload)
  {
    var (frame, seqNo) := StreamProjection(f.stream);
    var e4 := BigEndian(f.uncompressedLen, 4) + hash(f.compressedPayload);
    var e3 := BigEndian(f.compression, 1) + e4;
    var e2 := f.kemEnc + e3;
    Slice(b, 130, BigEndian(frame, 1), BigEndian(seqNo, 8) + e2);
    Slice(b, 131, BigEndian(seqNo, 8), e2);
    Slice(b, 139, f.kemEnc, e3);
    Slice(b, 187, BigEndian(f.compression, 1), e4);
    Slice(b, 188, BigEndian(f.uncompressedLen, 4), hash(f.compressedPayload));
  }

  /** Equality of every bound field; of a stream header only frame kind and sequence number are bound. */
  predicate SameBound(f: TranscriptFields, g: TranscriptFields) {
    f.(stream := None) == g.(stream := None) && SameSigned(f.stream, g.stream)
  }

  /** Two stream headers the transcript does not tell apart: same frame and sequence number, or none and (0, 0). */
  predicate SameSigned(s: Option<StreamHeader>, t: Option<StreamHeader>) {
    match (s, t)
    case (Some(h), Some(k)) => h.frame == k.frame && h.seqNo == k.seqNo
    case (Some(h), None) => h.frame == 0 && h.seqNo == 0
    case (None, Some(k)) => k.frame == 0 && k.seqNo == 0
    case (None, None) => true
  }

  lemma SplitEqual(a: Bytes, b: Bytes, x: Bytes, y: Bytes)
    requires |a| == |b| && a + x == b + y
    ensures a == b && x == y
  {
    assert a == (a + x)[..|a|] && b == (b + y)[..|b|];
    assert x == (a + x)[|a|..] && y == (b + y)[|b|..];
  }

  lemma SplitUint(m: nat, n: nat, w: nat, x: Bytes, y: Bytes)
    requires m < Limit(w) && n < Limit(w)
    requires BigEndian(m, w) + x == BigEndian(n, w) + y
    ensures m == n && x == y
  {
    SplitEqual(BigEndian(m, w), BigEndian(n, w), x, y);
    ValueOfBigEndian(m, w);
    ValueOfBigEndian(n, w);
  }

  lemma EndInjective(f: TranscriptFields, g: TranscriptFields, hash: Hash)
    requires TranscriptEnd(f, hash) == TranscriptEnd(g, hash)
    ensures StreamProjection(f.stream) == StreamProjection(g.stream)
    ensures f.kemEnc == g.kemEnc && f.compression == g.compression && f.uncompressedLen == g.uncompressedLen
    ensures hash(f.compressedPayload) == hash(g.compressedPayload)
  {
    Limits();
    var (ff, fs) := StreamProjection(f.stream);
    var (gf, gs) := StreamProjection(g.stream);
    var f5, g5 := hash(f.compressedPayload), hash(g.compressedPayload);
    var f4, g4 := BigEndian(f.uncompressedLen, 4) + f5, BigEndian(g.uncompressedLen, 4) + g5;
    var f3, g3 := BigEndian(f.compression, 1) + f4, BigEndian(g.compression, 1) + g4;
    var f2, g2 := f.kemEnc + f3, g.kemEnc + g3;
    SplitUint(ff, gf, 1, BigEndian(fs, 8) + f2, BigEndian(gs, 8) + g2);
    SplitUint(fs, gs, 8, f2, g2);
    SplitEqual(f.kemEnc, g.kemEnc, f3, g3);
    SplitUint(f.compression, g.compression, 1, f4, g4);
    SplitUint(f.uncompressedLen, g.uncompressedLen, 4, f5, g5);
  }

  lemma TailInjective(f: TranscriptFields, g: TranscriptFields, hash: Hash)
    requires TranscriptTail(f, hash) == TranscriptTail(g, hash)
    ensures f.senderEpoch == g.senderEpoch && f.counter == g.counter
    ensures f.timestamp == g.timestamp && f.expiresAt == g.expiresAt
    ensures TranscriptEnd(f, hash) == TranscriptEnd(g, hash)
  {
    Limits();
    var f4, g4 := TranscriptEnd(f, hash), TranscriptEnd(g, hash);
    var f3, g3 := BigEndian(f.expiresAt, 8) + f4, BigEndian(g.expiresAt, 8) + g4;
    var f2, g2 := BigEndian(f.timestamp, 8) + f3, BigEndian(g.timestamp, 8) + g3;
    var f1, g1 := BigEndian(f.counter, 8) + f2, BigEndian(g.counter, 8) + g2;
    SplitUint(f.senderEpoch, g.senderEpoch, 4, f1, g1);
    SplitUint(f.counter, g.counter, 8, f2, g2);
    SplitUint(f.timestamp, g.timestamp, 8, f3, g3);
    SplitUint(f.expiresAt, g.expiresAt, 8, f4, g4);
  }

  /** Where the hash does not collide, equal signed bytes mean equal bound fields, and conversely. */
  lemma SignedBindsFields(f: TranscriptFields, g: TranscriptFields, hash: Hash)
    requires hash(f.compressedPayload) == hash(g.compressedPayload) ==> f.compressedPayload == g.compressedPayload
    ensures Signed(f, hash) == Signed(g, hash) <==> SameBound(f, g)
  {
    if Signed(f, hash) == Signed(g, hash) {
      Limits();
      SplitEqual(SIG_DOMAIN, SIG_DOMAIN, Transcript(f, hash), Transcript(g, hash));
      var f6, g6 := TranscriptTail(f, hash), TranscriptTail(g, hash);
      var f5, g5 := f.recipient + f6, g.recipient + g6;
      var f4, g4 := f.sender + f5, g.sender + g5;
      var f3, g3 := f.correlationId + f4, g.correlationId + g4;
      var f2, g2 := BigEndian(f.flags, 1) + f3, BigEndian(g.flags, 1) + g3;
      var f1, g1 := BigEndian(f.messageType, 4) + f2, BigEndian(g.messageType, 4) + g2;
      SplitUint(f.version, g.version, 1, f1, g1);
      SplitUint(f.messageType, g.messageType, 4, f2, g2);
      SplitUint(f.flags, g.flags, 1, f3, g3);
      SplitEqual(f.correlationId, g.correlationId, f4, g4);
      SplitEqual(f.sender, g.sender, f5, g5);
      SplitEqual(f.recipient, g.recipient, f6, g6);
      TailInjective(f, g, hash);
      EndInjective(f, g, hash);
    }
  }

  /** The header a receiver takes a transcript's cleartext fields from. */
  predicate TakenFrom(f: TranscriptFields, h: Header) {
    && f.version == h.version && f.messageType == h.messageType && f.flags == h.flags
    && f.correlationId == h.correlationId && f.sender == h.sender && f.recipient == h.recipient
    && f.senderEpoch == h.senderEpoch && f.stream == h.stream
  }

  /**
   The transcript alone leaves the window, and the presence of a (0, 0) stream header, unbound;
   together with the header bytes used as associated data, every field is bound.
   */
  lemma SignedAndHeaderBindAll(f: TranscriptFields, g: TranscriptFields, h: Header, k: Header, hash: Hash)
    requires hash(f.compressedPayload) == hash(g.compressedPayload) ==> f.compressedPayload == g.compressedPayload
    requires TakenFrom(f, h) && TakenFrom(g, k)
    ensures Signed(f, hash) == Signed(g, hash) && PutHeader(h, []) == PutHeader(k, []) <==> f == g
  {
    SignedBindsFields(f, g, hash);
    if PutHeader(h, []) == PutHeader(k, []) { HeaderPrefixFree(h, k); }
  }

  /** Two different transcripts with the same signed bytes: the window is not signed. */
  lemma WindowIsNotSigned(f: TranscriptFields, hash: Hash, w: u32)
    requires f.stream.Some? && w != f.stream.value.window
    ensures f.(stream := Some(f.stream.value.(window := w))) != f
    ensures Signed(f.(stream := Some(f.stream.value.(window := w))), hash) == Signed(f, hash)
  {}
}
