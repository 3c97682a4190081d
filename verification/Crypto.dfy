/**
 The foreign primitives, as a record of functions a caller supplies: G1 Diffie-Hellman, HKDF, the
 AEAD, BLS signatures, SHA-256 and zstd.  `Laws` is all the rest of the model ever assumes of them.
 */
module Crypto {
  import opened Types

  datatype SecretKey = SecretKey(scalar: nat)

  datatype Primitives = Primitives(
    publicKey: SecretKey -> Bytes48,
    inSubgroup: Bytes48 -> bool,
    dh: (SecretKey, Bytes48) -> Option<Bytes48>,
    hkdf: (Bytes, Bytes) -> Bytes,
    aeadSeal: (Bytes, Bytes, Bytes) -> Option<Bytes>,
    aeadOpen: (Bytes, Bytes, Bytes) -> Option<Bytes>,
    sign: (SecretKey, Bytes) -> Bytes96,
    verify: (Bytes48, Bytes, Bytes96) -> bool,
    sha256: Bytes -> Bytes32,
    zstdCompress: Bytes -> Option<Bytes>,
    zstdDecompress: (Bytes, nat) -> Option<Bytes>)

  /** A key whose public point passes the prime-order, non-identity check. */
  predicate ValidKey(p: Primitives, sk: SecretKey) {
    p.inSubgroup(p.publicKey(sk))
  }

  ghost predicate DhCommutes(p: Primitives) {
    forall a, b :: ValidKey(p, a) && ValidKey(p, b) ==>
      p.dh(a, p.publicKey(b)).Some? && p.dh(a, p.publicKey(b)) == p.dh(b, p.publicKey(a))
  }

  ghost predicate AeadInverts(p: Primitives) {
    forall key, aad, m :: p.aeadSeal(key, aad, m).Some? ==>
      p.aeadOpen(key, aad, p.aeadSeal(key, aad, m).value) == Some(m)
  }

  ghost predicate SignatureVerifies(p: Primitives) {
    forall sk, m :: ValidKey(p, sk) ==> p.verify(p.publicKey(sk), m, p.sign(sk, m))
  }

  ghost predicate ZstdInverts(p: Primitives) {
    forall m, cap: nat {:trigger p.zstdDecompress(p.zstdCompress(m).value, cap)} ::
      p.zstdCompress(m).Some? && |m| <= cap ==> p.zstdDecompress(p.zstdCompress(m).value, cap) == Some(m)
  }

  ghost predicate Laws(p: Primitives) {
    DhCommutes(p) && AeadInverts(p) && SignatureVerifies(p) && ZstdInverts(p)
  }

  /** The laws contradict nothing: this degenerate instance has them all. */
  function NullPrimitives(): Primitives {
    var zero32: Bytes32 := seq(32, _ => 0);
    var zero48: Bytes48 := seq(48, _ => 0);
    var zero96: Bytes96 := seq(96, _ => 0);
    Primitives(
      _ => zero48, _ => true, (_, _) => Some(zero48), (z, info) => z + info,
      (k, a, m) => Some(m), (k, a, c) => Some(c),
      (_, _) => zero96, (_, _, _) => true, _ => zero32,
      m => Some(m), (c, cap) => if |c| <= cap then Some(c) else None)
  }

  lemma LawsAreConsistent()
    ensures Laws(NullPrimitives())
  {}
}
