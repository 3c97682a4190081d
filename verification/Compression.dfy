/** The codec choice and the bomb guard of src/compression.rs, over an abstract zstd pair. */
module Compression {
  import opened Types
  import opened Crypto

  const COMPRESSION_NONE: u8 := 0
  const COMPRESSION_ZSTD: u8 := 1

  datatype CompressedPayload = CompressedPayload(compression: u8, bytes: Bytes, uncompressedLen: u32)

  function CompressPayload(p: Primitives, payload: Bytes): Result<CompressedPayload> {
    if |payload| > U32_MAX then Err(PayloadTooLarge(|payload|))
    else if |payload| < MIN_COMPRESS_BYTES then Ok(Raw(payload, |payload|))
    else
      match p.zstdCompress(payload)
      case None => Err(MessageError.Codec)
      case Some(z) =>
        if |z| >= |payload| then Ok(Raw(payload, |payload|))
        else Ok(CompressedPayload(COMPRESSION_ZSTD, z, |payload|))
  }

  function Raw(payload: Bytes, len: u32): CompressedPayload {
    CompressedPayload(COMPRESSION_NONE, payload, len)
  }

  function DecompressPayload(p: Primitives, compression: u8, data: Bytes, declared: u32): Result<Bytes> {
    if declared > MAX_DECOMPRESSED_BYTES then Err(DecompressionBomb(declared))
    else if compression == COMPRESSION_NONE then
      if |data| != declared then Err(DecompressedLengthMismatch(declared, |data|)) else Ok(data)
    else if compression == COMPRESSION_ZSTD then
      match p.zstdDecompress(data, declared)
      case None => Err(MessageError.Codec)
      case Some(out) => if |out| != declared then Err(DecompressedLengthMismatch(declared, |out|)) else Ok(out)
    else Err(UnsupportedCompression(compression))
  }

  /**
   What compression emits decompresses to the payload when that is at most 64 MiB, and is refused
   as a bomb otherwise; and it never travels larger than the payload.
   */
  lemma CompressRoundTrip(p: Primitives, payload: Bytes)
    requires Laws(p) && CompressPayload(p, payload).Ok?
    ensures var z := CompressPayload(p, payload).value;
            && |z.bytes| <= |payload| <= U32_MAX
            && (|| z.compression == COMPRESSION_NONE
                || (z.compression == COMPRESSION_ZSTD && |payload| >= MIN_COMPRESS_BYTES && |z.bytes| < |payload|))
            && DecompressPayload(p, z.compression, z.bytes, z.uncompressedLen)
               == if |payload| <= MAX_DECOMPRESSED_BYTES then Ok(payload) else Err(DecompressionBomb(|payload|))
  {
    assert ZstdInverts(p);
    if |payload| >= MIN_COMPRESS_BYTES {
      var z := p.zstdCompress(payload).value;
      assert p.zstdDecompress(z, |payload|) == Some(payload);
    }
  }

  /**
   Which codec is chosen: zstd exactly when the payload has 64 bytes or more and zstd makes it
   smaller; otherwise the payload travels as it is.
   */
  lemma CompressChooses(p: Primitives, payload: Bytes)
    ensures |payload| > 0xFFFF_FFFF <==> CompressPayload(p, payload) == Err(PayloadTooLarge(|payload|))
    ensures CompressPayload(p, payload) == Err(MessageError.Codec)
            <==> 64 <= |payload| <= 0xFFFF_FFFF && p.zstdCompress(payload).None?
    ensures CompressPayload(p, payload).Ok? ==>
              var z := CompressPayload(p, payload).value;
              var packed := p.zstdCompress(payload);
              var shrinks := |payload| >= 64 && packed.Some? && |packed.value| < |payload|;
              && z.uncompressedLen == |payload|
              && (shrinks ==> z.compression == 1 && z.bytes == p.zstdCompress(payload).value)
              && (!shrinks ==> z.compression == 0 && z.bytes == payload)
    ensures CompressPayload(p, payload).Err? ==>
              |payload| > 0xFFFF_FFFF || CompressPayload(p, payload) == Err(MessageError.Codec)
  {}

  /** What decompression returns, in the order of its checks. */
  lemma DecompressExactly(p: Primitives, compression: u8, data: Bytes, declared: u32, out: Bytes)
    ensures DecompressPayload(p, compression, data, declared) == Ok(out)
            <==> && declared <= 64 * 1024 * 1024 && |out| == declared
                 && (|| (compression == 0 && data == out)
                     || (compression == 1 && p.zstdDecompress(data, declared) == Some(out)))
    ensures declared > 64 * 1024 * 1024
            <==> DecompressPayload(p, compression, data, declared) == Err(DecompressionBomb(declared))
    ensures declared <= 64 * 1024 * 1024 && compression > 1
            <==> DecompressPayload(p, compression, data, declared) == Err(UnsupportedCompression(compression))
    ensures declared <= 64 * 1024 * 1024 && compression == 1 && p.zstdDecompress(data, declared).None?
            <==> DecompressPayload(p, compression, data, declared) == Err(MessageError.Codec)
    ensures declared <= 64 * 1024 * 1024 && compression == 0 && |data| != declared ==>
              DecompressPayload(p, compression, data, declared) == Err(DecompressedLengthMismatch(declared, |data|))
    ensures declared <= 64 * 1024 * 1024 && compression == 1 && p.zstdDecompress(data, declared) == Some(out)
            && |out| != declared ==>
              DecompressPayload(p, compression, data, declared) == Err(DecompressedLengthMismatch(declared, |out|))
  {}

  /** Whatever arrives, a success has a known codec and exactly the declared length, within the cap. */
  lemma DecompressBounded(p: Primitives, compression: u8, data: Bytes, declared: u32)
    ensures DecompressPayload(p, compression, data, declared).Ok? ==>
              && |DecompressPayload(p, compression, data, declared).value| == declared <= MAX_DECOMPRESSED_BYTES
              && (compression == COMPRESSION_NONE || compression == COMPRESSION_ZSTD)
  {}
}
