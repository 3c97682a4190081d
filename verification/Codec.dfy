/**
 The byte-level building blocks of the wire format: big-endian fixed-width integers, fixed-length
 byte strings and length-prefixed byte strings.  Each `Put` writes in front of what follows it, and
 each `Get` reads one item off the front, so that `Get` and `Put` are inverse in both directions.
 */
module Codec {
  import opened Types

  /** One more than the largest value that fits `w` bytes. */
  function Limit(w: nat): nat {
    if w == 0 then 1 else 256 * Limit(w - 1)
  }

  lemma Limits()
    ensures Limit(1) == 0x100 && Limit(4) == 0x1_0000_0000 && Limit(8) == 0x1_0000_0000_0000_0000
  {
    assert Limit(2) == 0x1_0000;
    assert Limit(6) == 0x1_0000_0000_0000;
  }

  /** `to_be_bytes` at width `w`. */
  function BigEndian(n: nat, w: nat): (bs: Bytes)
    ensures |bs| == w
  {
    if w == 0 then [] else BigEndian(n / 256, w - 1) + [n % 256]
  }

  lemma MulAtLeast(d: nat, m: nat)
    requires m >= 1
    ensures d * m >= d
  {}

  /** Quotients are unique. */
  lemma QuotientIs(n: nat, d: nat, k: nat, r: nat)
    requires r < d && n == d * k + r
    ensures n / d == k
  {
    var q := n / d;
    if q > k { MulAtLeast(d, q - k); }
    if k > q { MulAtLeast(d, k - q); }
    assert d * q + n % d == d * k + r;
  }

  lemma DivDiv(n: nat, b: nat)
    requires b > 0
    ensures n / 256 / b == n / (256 * b)
  {
    var q := n / 256;
    var k, t := q / b, q % b;
    assert q == b * k + t;
    assert 256 * (b * k) == (256 * b) * k;
    QuotientIs(n, 256 * b, k, 256 * t + n % 256);
  }

  lemma LimitPositive(w: nat)
    ensures Limit(w) > 0
  {}

  /** Most significant byte first: byte `i` of `w` is the base-256 digit of weight 256 to the `w - 1 - i`. */
  lemma {:induction false} BigEndianDigit(n: nat, w: nat, i: nat)
    requires i < w
    ensures Limit(w - 1 - i) > 0 && BigEndian(n, w)[i] == n / Limit(w - 1 - i) % 256
  {
    LimitPositive(w - 1 - i);
    if i < w - 1 {
      BigEndianDigit(n / 256, w - 1, i);
      DivDiv(n, Limit(w - 2 - i));
    }
  }

  function Value(bs: Bytes): nat {
    if bs == [] then 0 else 256 * Value(bs[..|bs| - 1]) + bs[|bs| - 1]
  }

  lemma {:induction false} ValueOfBigEndian(n: nat, w: nat)
    requires n < Limit(w)
    ensures Value(BigEndian(n, w)) == n
  {
    if w > 0 {
      ValueOfBigEndian(n / 256, w - 1);
      var bs := BigEndian(n, w);
      assert bs[..|bs| - 1] == BigEndian(n / 256, w - 1);
    }
  }

  lemma {:induction false} BigEndianOfValue(bs: Bytes)
    ensures Value(bs) < Limit(|bs|)
    ensures BigEndian(Value(bs), |bs|) == bs
  {
    if bs != [] {
      BigEndianOfValue(bs[..|bs| - 1]);
      assert Value(bs) / 256 == Value(bs[..|bs| - 1]) && Value(bs) % 256 == bs[|bs| - 1];
    }
  }

  // ---------------------------------------------------------------- reading off the front

  function GetBytes(bs: Bytes, n: nat): (r: Option<(Bytes, Bytes)>)
    ensures r.Some? ==> |r.value.0| == n
  {
    if |bs| < n then None else Some((bs[..n], bs[n..]))
  }

  function GetUint(bs: Bytes, w: nat): (r: Option<(nat, Bytes)>)
    ensures r.Some? ==> r.value.0 < Limit(w)
  {
    var (front, rest) :- GetBytes(bs, w);
    BigEndianOfValue(front);
    Some((Value(front), rest))
  }

  function GetU8(bs: Bytes): Option<(u8, Bytes)> {
    Limits();
    var (x, rest) :- GetUint(bs, 1);
    Some((x, rest))
  }

  function GetU32(bs: Bytes): Option<(u32, Bytes)> {
    Limits();
    var (x, rest) :- GetUint(bs, 4);
    Some((x, rest))
  }

  function GetU64(bs: Bytes): Option<(u64, Bytes)> {
    Limits();
    var (x, rest) :- GetUint(bs, 8);
    Some((x, rest))
  }

  /** `Vec<u8>`: a four-byte length, then that many bytes. */
  function GetVec(bs: Bytes): Option<(Bytes, Bytes)> {
    var (n, rest) :- GetU32(bs);
    GetBytes(rest, n)
  }

  function PutVec(v: Bytes, rest: Bytes): Bytes {
    BigEndian(|v|, 4) + (v + rest)
  }

  // ---------------------------------------------------------------- Get undoes Put, and back

  lemma GetPutBytes(v: Bytes, rest: Bytes)
    ensures GetBytes(v + rest, |v|) == Some((v, rest))
  {
    assert (v + rest)[..|v|] == v && (v + rest)[|v|..] == rest;
  }

  lemma GetPutUint(n: nat, w: nat, rest: Bytes)
    requires n < Limit(w)
    ensures GetUint(BigEndian(n, w) + rest, w) == Some((n, rest))
  {
    GetPutBytes(BigEndian(n, w), rest);
    ValueOfBigEndian(n, w);
  }

  lemma GetPutVec(v: Bytes, rest: Bytes)
    requires |v| <= U32_MAX
    ensures GetVec(PutVec(v, rest)) == Some((v, rest))
  {
    Limits();
    GetPutUint(|v|, 4, v + rest);
    GetPutBytes(v, rest);
  }

  lemma PutGetBytes(bs: Bytes, n: nat)
    ensures GetBytes(bs, n).Some? ==> bs == GetBytes(bs, n).value.0 + GetBytes(bs, n).value.1
  {}

  lemma PutGetUint(bs: Bytes, w: nat)
    ensures GetUint(bs, w).Some? ==>
              bs == BigEndian(GetUint(bs, w).value.0, w) + GetUint(bs, w).value.1
  {
    if |bs| >= w {
      BigEndianOfValue(bs[..w]);
      PutGetBytes(bs, w);
    }
  }

  lemma PutGetVec(bs: Bytes)
    ensures GetVec(bs).Some? ==>
              |GetVec(bs).value.0| <= U32_MAX && bs == PutVec(GetVec(bs).value.0, GetVec(bs).value.1)
  {
    PutGetUint(bs, 4);
    if GetU32(bs).Some? { PutGetBytes(GetU32(bs).value.1, GetU32(bs).value.0); }
  }

  /** Reading a layout off: the item at position `at` of `b`, and what is left behind it. */
  lemma Slice(b: Bytes, at: nat, item: Bytes, rest: Bytes)
    requires at <= |b| && b[at..] == item + rest
    ensures at + |item| <= |b| && b[at..at + |item|] == item && b[at + |item|..] == rest
  {
    assert b[at..][..|item|] == item && b[at..][|item|..] == rest;
  }
}
