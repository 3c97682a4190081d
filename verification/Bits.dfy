/**
 The three `u64` operators src/replay.rs applies to its bitmap words (`<<`, `>>` and `|`), over
 the unsigned value of a word, and what each does to every single bit.
 */
module Bits {
  import opened Types

  const TWO_63: nat := 0x8000_0000_0000_0000
  const TWO_64: nat := 0x1_0000_0000_0000_0000

  /** Bit `j` of the binary expansion of `w`. */
  predicate WordBit(w: nat, j: nat) {
    if j == 0 then w % 2 == 1 else WordBit(w / 2, j - 1)
  }

  /** `w << s`: `s` doublings modulo 2^64, so bits pushed past bit 63 are lost. */
  function Shl(w: u64, s: nat): u64
    decreases s
  {
    if s == 0 then w else Shl(2 * w % TWO_64, s - 1)
  }

  /** `w >> s`: `s` halvings. */
  function Shr(w: u64, s: nat): u64 {
    if s == 0 then w else Shr(w / 2, s - 1)
  }

  /** `a | b`, bit by bit. */
  function Or(a: nat, b: nat): nat {
    if a == 0 && b == 0 then 0
    else 2 * Or(a / 2, b / 2) + (if a % 2 == 1 || b % 2 == 1 then 1 else 0)
  }

  function OrWord(a: u64, b: u64): u64 {
    Pow2Values();
    OrBound(a, b, 64);
    Or(a, b)
  }

  function Pow2(n: nat): nat {
    if n == 0 then 1 else 2 * Pow2(n - 1)
  }

  lemma Pow2Values()
    ensures Pow2(63) == TWO_63 && Pow2(64) == TWO_64
  {
    assert Pow2(8) == 0x100;
    assert Pow2(16) == 0x1_0000;
    assert Pow2(24) == 0x100_0000;
    assert Pow2(32) == 0x1_0000_0000;
    assert Pow2(40) == 0x100_0000_0000;
    assert Pow2(48) == 0x1_0000_0000_0000;
    assert Pow2(56) == 0x100_0000_0000_0000;
  }

  lemma {:induction false} OrBound(a: nat, b: nat, k: nat)
    requires a < Pow2(k) && b < Pow2(k)
    ensures Or(a, b) < Pow2(k)
  {
    if k > 0 {
      OrBound(a / 2, b / 2, k - 1);
    }
  }

  lemma {:induction false} OrBit(a: nat, b: nat, j: nat)
    ensures WordBit(Or(a, b), j) <==> WordBit(a, j) || WordBit(b, j)
  {
    if a == 0 && b == 0 {
      ZeroBit(j);
    } else if j > 0 {
      OrBit(a / 2, b / 2, j - 1);
    }
  }

  lemma {:induction false} ZeroBit(j: nat)
    ensures !WordBit(0, j)
  {
    if j > 0 { ZeroBit(j - 1); }
  }

  /** The binary expansion of a value below `2^k` has no bit at or above `k`. */
  lemma {:induction false} HighBit(w: nat, k: nat, j: nat)
    requires w < Pow2(k) && k <= j
    ensures !WordBit(w, j)
  {
    if k == 0 {
      ZeroBit(j);
    } else {
      HighBit(w / 2, k - 1, j - 1);
    }
  }

  /** Taking away `2^k` leaves every lower bit as it was. */
  lemma {:induction false} LowBit(w: nat, k: nat, j: nat)
    requires j < k && Pow2(k) <= w
    ensures WordBit(w - Pow2(k), j) <==> WordBit(w, j)
  {
    if j > 0 {
      assert (w - Pow2(k)) / 2 == w / 2 - Pow2(k - 1);
      LowBit(w / 2, k - 1, j - 1);
    }
  }

  lemma DoubleBit(w: u64, j: nat)
    requires j < 64
    ensures WordBit(2 * w % TWO_64, j) <==> j > 0 && WordBit(w, j - 1)
  {
    Pow2Values();
    var low := if w < TWO_63 then w else w - TWO_63;
    assert 2 * w % TWO_64 == 2 * low;
    if j > 0 {
      assert WordBit(2 * low, j) <==> WordBit(low, j - 1);
      if w >= TWO_63 { LowBit(w, 63, j - 1); }
    }
  }

  lemma {:induction false} ShlBit(w: u64, s: nat, j: nat)
    requires j < 64
    ensures WordBit(Shl(w, s), j) <==> j >= s && WordBit(w, j - s)
    decreases s
  {
    if s > 0 {
      var twice := 2 * w % TWO_64;
      ShlBit(twice, s - 1, j);
      if j >= s - 1 { DoubleBit(w, j - (s - 1)); }
    }
  }

  lemma {:induction false} ShiftDownBit(w: u64, s: nat, j: nat)
    ensures WordBit(Shr(w, s), j) <==> WordBit(w, j + s)
  {
    if s > 0 { ShiftDownBit(w / 2, s - 1, j); }
  }

  lemma ShrBit(w: u64, s: nat, j: nat)
    ensures WordBit(Shr(w, s), j) <==> j + s < 64 && WordBit(w, j + s)
  {
    ShiftDownBit(w, s, j);
    Pow2Values();
    if j + s >= 64 { HighBit(w, 64, j + s); }
  }

  lemma OneBit(s: nat, j: nat)
    requires s < 64 && j < 64
    ensures WordBit(Shl(1, s), j) <==> s == j
  {
    ShlBit(1, s, j);
    if j > s { HighBit(1, 1, j - s); }
  }
}
