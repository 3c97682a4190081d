/**
 The per-sender anti-replay window of src/replay.rs: a highest counter and a 1024-bit bitmap held
 in sixteen 64-bit words.  The class works on the words; its contracts speak of the set of offsets
 whose bit is set.  Below it, the window is shown to refine a plain set of accepted counters.
 */
module ReplayWindow {
  import opened Types
  import opened Bits

  const REPLAY_WINDOW: nat := 1024
  const WINDOW_WORDS: nat := 16

  type Words = ws: seq<u64> | |ws| == WINDOW_WORDS witness seq(WINDOW_WORDS, _ => 0)

  predicate Bit(ws: Words, i: nat)
    requires i < REPLAY_WINDOW
  {
    WordBit(ws[i / 64], i % 64)
  }

  /** The offsets below `n` whose bit is set. */
  function OffsetsBelow(ws: Words, n: nat): set<nat>
    requires n <= REPLAY_WINDOW
  {
    if n == 0 then {}
    else OffsetsBelow(ws, n - 1) + (if Bit(ws, n - 1) then {n - 1} else {})
  }

  /** The offsets behind `highest` that the bitmap marks as seen. */
  function Offsets(ws: Words): set<nat> {
    OffsetsBelow(ws, REPLAY_WINDOW)
  }

  lemma {:induction false} InOffsetsBelow(ws: Words, n: nat, i: nat)
    requires n <= REPLAY_WINDOW
    ensures i in OffsetsBelow(ws, n) <==> i < n && Bit(ws, i)
  {
    if n > 0 { InOffsetsBelow(ws, n - 1, i); }
  }

  lemma InOffsets(ws: Words)
    ensures forall i: nat :: i in Offsets(ws) <==> i < REPLAY_WINDOW && Bit(ws, i)
  {
    forall i: nat ensures i in Offsets(ws) <==> i < REPLAY_WINDOW && Bit(ws, i) {
      InOffsetsBelow(ws, REPLAY_WINDOW, i);
    }
  }

  /** The 1024-bit shift: every offset grows by `d`, and those reaching 1024 fall off. */
  function Shift(offsets: set<nat>, d: nat): set<nat> {
    set o | o in offsets && o + d < REPLAY_WINDOW :: o + d
  }

  // ---------------------------------------------------------------- one window as a value

  datatype Window = Window(started: bool, highest: u64, offsets: set<nat>, lastSeen: u64)

  const FRESH := Window(false, 0, {}, 0)

  function TryAdmit(w: Window, counter: u64): (Window, bool) {
    if !w.started then
      (w.(started := true, highest := counter, offsets := w.offsets + {0}), true)
    else if counter > w.highest then
      (w.(highest := counter, offsets := Shift(w.offsets, counter - w.highest) + {0}), true)
    else
      var offset := w.highest - counter;
      if offset >= REPLAY_WINDOW || offset in w.offsets then (w, false)
      else (w.(offsets := w.offsets + {offset}), true)
  }

  function Max(x: u64, y: u64): u64 {
    if x < y then y else x
  }

  /** `TryAdmit`, recording the message's timestamp when it is accepted. */
  function Touch(w: Window, counter: u64, timestamp: u64): (Window, bool) {
    var (w', ok) := TryAdmit(w, counter);
    if ok then (w'.(lastSeen := Max(w'.lastSeen, timestamp)), true) else (w', false)
  }

  // ---------------------------------------------------------------- the window in memory

  lemma NoOffsets(ws: Words)
    requires forall k :: 0 <= k < WINDOW_WORDS ==> ws[k] == 0
    ensures Offsets(ws) == {}
  {
    forall i: nat | i < REPLAY_WINDOW ensures !Bit(ws, i) {
      ZeroBit(i % 64);
    }
    InOffsets(ws);
  }

  lemma SetBitOffsets(ws: Words, i: nat)
    requires i < REPLAY_WINDOW
    ensures Offsets(ws[i / 64 := OrWord(ws[i / 64], Shl(1, i % 64))]) == Offsets(ws) + {i}
  {
    var ws' := ws[i / 64 := OrWord(ws[i / 64], Shl(1, i % 64))];
    forall j: nat | j < REPLAY_WINDOW ensures Bit(ws', j) <==> Bit(ws, j) || j == i {
      if j / 64 == i / 64 {
        OrBit(ws[i / 64], Shl(1, i % 64), j % 64);
        OneBit(i % 64, j % 64);
      }
    }
    InOffsets(ws);
    InOffsets(ws');
  }

  /** Word `i` of the bitmap shifted left by `64 * wordShift + bitShift` bits. */
  function ShiftedWord(ws: Words, wordShift: nat, bitShift: nat, i: nat): u64
    requires i < WINDOW_WORDS && bitShift < 64
  {
    if i < wordShift then 0
    else if bitShift > 0 && i > wordShift then
      OrWord(Shl(ws[i - wordShift], bitShift), Shr(ws[i - wordShift - 1], 64 - bitShift))
    else
      Shl(ws[i - wordShift], bitShift)
  }

  lemma BitAt(ws: Words, k: nat, j: nat)
    requires k < WINDOW_WORDS && j < 64
    ensures Bit(ws, 64 * k + j) <==> WordBit(ws[k], j)
  {
    assert (64 * k + j) / 64 == k && (64 * k + j) % 64 == j;
  }

  /** Bit `j` of output word `i` is the input bit `d` places lower, across the word boundary. */
  lemma ShiftedWordBit(ws: Words, q: nat, r: nat, i: nat, j: nat)
    requires q < WINDOW_WORDS && r < 64 && i < WINDOW_WORDS && j < 64
    ensures WordBit(ShiftedWord(ws, q, r, i), j)
            <==> 64 * i + j >= 64 * q + r && Bit(ws, 64 * i + j - (64 * q + r))
  {
    if i < q {
      ZeroBit(j);
    } else {
      ShlBit(ws[i - q], r, j);
      if j >= r {
        BitAt(ws, i - q, j - r);
        if r > 0 && i > q {
          OrBit(Shl(ws[i - q], r), Shr(ws[i - q - 1], 64 - r), j);
          ShrBit(ws[i - q - 1], 64 - r, j);
        }
      } else if i > q {
        OrBit(Shl(ws[i - q], r), Shr(ws[i - q - 1], 64 - r), j);
        ShrBit(ws[i - q - 1], 64 - r, j);
        BitAt(ws, i - q - 1, 64 + j - r);
      }
    }
  }

  lemma ShiftedOffsets(ws: Words, d: nat, out: Words)
    requires d < REPLAY_WINDOW
    requires forall i :: 0 <= i < WINDOW_WORDS ==> out[i] == ShiftedWord(ws, d / 64, d % 64, i)
    ensures Offsets(out) == Shift(Offsets(ws), d)
  {
    forall k: nat | k < REPLAY_WINDOW ensures Bit(out, k) <==> k >= d && Bit(ws, k - d) {
      ShiftedWordBit(ws, d / 64, d % 64, k / 64, k % 64);
      assert 64 * (k / 64) + k % 64 == k && 64 * (d / 64) + d % 64 == d;
    }
    InOffsets(ws);
    InOffsets(out);
    forall k: nat | k in Offsets(out) ensures k in Shift(Offsets(ws), d) {
      assert k - d in Offsets(ws) && (k - d) + d == k;
    }
  }

  lemma ShiftedOut(offsets: set<nat>, d: nat)
    requires d >= REPLAY_WINDOW
    ensures Shift(offsets, d) == {}
  {}

  /** `[u64; 16]` is held inline in the Rust struct, so here it is a value of the field. */
  class SenderWindow {
    var highest: u64
    var bits: Words
    var lastSeenMs: u64
    var started: bool

    ghost function View(): Window
      reads this
    {
      Window(started, highest, Offsets(bits), lastSeenMs)
    }

    constructor ()
      ensures View() == FRESH
    {
      highest := 0;
      bits := seq(WINDOW_WORDS, _ => 0);
      lastSeenMs := 0;
      started := false;
      new;
      NoOffsets(bits);
    }

    method GetBit(offset: u64) returns (b: bool)
      requires offset < REPLAY_WINDOW
      ensures b <==> offset in View().offsets
    {
      var i := offset;
      var word := Shr(bits[i / 64], i % 64);
      b := word % 2 == 1;
      ShrBit(bits[i / 64], i % 64, 0);
      InOffsets(bits);
    }

    method SetBit(offset: u64)
      requires offset < REPLAY_WINDOW
      modifies this`bits
      ensures View() == old(View()).(offsets := old(View()).offsets + {offset})
    {
      var i := offset;
      SetBitOffsets(bits, i);
      bits := bits[i / 64 := OrWord(bits[i / 64], Shl(1, i % 64))];
    }

    method ShiftLeft(diff: u64)
      modifies this`bits
      ensures View() == old(View()).(offsets := Shift(old(View()).offsets, diff))
    {
      if diff >= REPLAY_WINDOW {
        ShiftedOut(Offsets(bits), diff);
        bits := seq(WINDOW_WORDS, _ => 0);
        NoOffsets(bits);
        return;
      }
      var wordShift := diff / 64;
      var bitShift := diff % 64;
      var out := new u64[WINDOW_WORDS](_ => 0);
      for i := WINDOW_WORDS downto 0
        invariant bits == old(bits)
        invariant forall k :: i <= k < WINDOW_WORDS ==> out[k] == ShiftedWord(bits, wordShift, bitShift, k)
      {
        var v: u64 := 0;
        if i >= wordShift {
          v := Shl(bits[i - wordShift], bitShift);
          if bitShift > 0 && i > wordShift {
            v := OrWord(v, Shr(bits[i - wordShift - 1], 64 - bitShift));
          }
        }
        out[i] := v;
      }
      ShiftedOffsets(bits, diff, out[..]);
      bits := out[..];
    }

    /** The sliding-window check of one counter; a refusal changes nothing. */
    method Admit(counter: u64) returns (ok: bool)
      modifies this
      ensures (View(), ok) == TryAdmit(old(View()), counter)
    {
      if !started {
        started := true;
        highest := counter;
        SetBit(0);
        return true;
      }
      if counter > highest {
        var diff := counter - highest;
        ShiftLeft(diff);
        highest := counter;
        SetBit(0);
        return true;
      }
      var offset := highest - counter;
      if offset >= REPLAY_WINDOW {
        return false;
      }
      var seen := GetBit(offset);
      if seen {
        return false;
      }
      SetBit(offset);
      return true;
    }

    /** `admit`, and on acceptance `last_seen_ms = last_seen_ms.max(timestamp_ms)`. */
    method AdmitAndStamp(counter: u64, timestamp: u64) returns (ok: bool)
      modifies this
      ensures (View(), ok) == Touch(old(View()), counter, timestamp)
    {
      ok := Admit(counter);
      if ok {
        lastSeenMs := Max(lastSeenMs, timestamp);
      }
    }
  }

  // ---------------------------------------------------------------- the window as a set

  /** `w` stands for the set of counters accepted so far. */
  ghost predicate Refines(w: Window, accepted: set<u64>) {
    && (!w.started ==> accepted == {} && w.offsets == {})
    && (w.started ==>
          && w.highest in accepted
          && (forall a :: a in accepted ==> a <= w.highest)
          && (forall i: nat :: i in w.offsets <==>
                i < REPLAY_WINDOW && i <= w.highest && w.highest - i in accepted))
  }

  /** The specification of dedup: never seen, and no seen counter is 1024 or more ahead of it. */
  ghost predicate Acceptable(accepted: set<u64>, counter: u64) {
    counter !in accepted && forall a :: a in accepted ==> a - counter < 1024
  }

  /** One call refines one step of the set: accepted exactly when acceptable, recorded exactly then. */
  lemma AdmitRefines(w: Window, accepted: set<u64>, counter: u64)
    requires Refines(w, accepted)
    ensures var (w', ok) := TryAdmit(w, counter);
            && (ok <==> Acceptable(accepted, counter))
            && (ok ==> Refines(w', accepted + {counter}))
            && (!ok ==> w' == w)
  {
    var (w', ok) := TryAdmit(w, counter);
    if w.started && counter <= w.highest {
      var offset := w.highest - counter;
      assert offset < REPLAY_WINDOW ==> (offset in w.offsets <==> counter in accepted);
    } else if w.started {
      var d := counter - w.highest;
      forall i: nat
        ensures i in w'.offsets <==> i < REPLAY_WINDOW && i <= counter && counter - i in accepted + {counter}
      {
        if d <= i < REPLAY_WINDOW {
          assert i in w'.offsets <==> i - d in w.offsets by {
            if i - d in w.offsets { assert i == (i - d) + d; }
          }
          assert counter - i == w.highest - (i - d);
        }
      }
    }
  }

  /** Feeding a whole sequence of counters: the final window and the verdict on each. */
  function AdmitAll(w: Window, counters: seq<u64>): (Window, seq<bool>) {
    if counters == [] then (w, [])
    else
      var (w1, oks) := AdmitAll(w, counters[..|counters| - 1]);
      var (w2, ok) := TryAdmit(w1, counters[|counters| - 1]);
      (w2, oks + [ok])
  }

  /** The counters of a sequence that were accepted. */
  ghost function Taken(counters: seq<u64>, oks: seq<bool>): set<u64>
    requires |counters| == |oks|
  {
    set i | 0 <= i < |counters| && oks[i] :: counters[i]
  }

  /** After any sequence of calls the window is exactly the set of the counters it accepted. */
  lemma {:induction false} WindowRefinesSet(counters: seq<u64>)
    ensures |AdmitAll(FRESH, counters).1| == |counters|
    ensures Refines(AdmitAll(FRESH, counters).0, Taken(counters, AdmitAll(FRESH, counters).1))
  {
    if counters == [] {
      assert Taken([], []) == {};
    } else {
      var init, last := counters[..|counters| - 1], counters[|counters| - 1];
      var (w1, oks) := AdmitAll(FRESH, init);
      WindowRefinesSet(init);
      AdmitRefines(w1, Taken(init, oks), last);
      var (w2, ok) := TryAdmit(w1, last);
      TakenSnoc(init, oks, last, ok);
      assert counters == init + [last];
    }
  }

  lemma TakenSnoc(counters: seq<u64>, oks: seq<bool>, c: u64, ok: bool)
    requires |counters| == |oks|
    ensures Taken(counters + [c], oks + [ok]) == Taken(counters, oks) + (if ok then {c} else {})
  {
    var cs, ks := counters + [c], oks + [ok];
    forall x | x in Taken(counters, oks) ensures x in Taken(cs, ks) {
      var i :| 0 <= i < |counters| && oks[i] && counters[i] == x;
      assert ks[i] && cs[i] == x;
    }
    if ok { assert ks[|counters|] && cs[|counters|] == c; }
  }

  /** The verdict on call `n` does not depend on the calls after it. */
  lemma {:induction false} VerdictIsFinal(counters: seq<u64>, n: nat)
    requires n < |counters|
    ensures |AdmitAll(FRESH, counters).1| == |counters| && |AdmitAll(FRESH, counters[..n + 1]).1| == n + 1
    ensures AdmitAll(FRESH, counters).1[n] == AdmitAll(FRESH, counters[..n + 1]).1[n]
  {
    var k := |counters| - 1;
    WindowRefinesSet(counters[..k]);
    if n == k {
      assert counters[..n + 1] == counters;
    } else {
      VerdictIsFinal(counters[..k], n);
      assert counters[..k][..n + 1] == counters[..n + 1];
    }
  }

  lemma {:induction false} LastVerdict(counters: seq<u64>, c: u64)
    ensures |AdmitAll(FRESH, counters).1| == |counters| && |AdmitAll(FRESH, counters + [c]).1| == |counters| + 1
    ensures AdmitAll(FRESH, counters + [c]).1[|counters|]
            <==> Acceptable(Taken(counters, AdmitAll(FRESH, counters).1), c)
  {
    WindowRefinesSet(counters);
    assert (counters + [c])[..|counters|] == counters;
    var (w, oks) := AdmitAll(FRESH, counters);
    AdmitRefines(w, Taken(counters, oks), c);
  }

  /** The verdict on call `n` of any sequence, in terms of the counters accepted before it. */
  lemma {:induction false} VerdictIsAcceptable(counters: seq<u64>, n: nat)
    requires n < |counters|
    ensures |AdmitAll(FRESH, counters).1| == |counters|
    ensures |AdmitAll(FRESH, counters[..n]).1| == n
    ensures AdmitAll(FRESH, counters).1[n]
            <==> Acceptable(Taken(counters[..n], AdmitAll(FRESH, counters[..n]).1), counters[n])
  {
    VerdictIsFinal(counters, n);
    LastVerdict(counters[..n], counters[n]);
    assert counters[..n] + [counters[n]] == counters[..n + 1];
  }

  /** No counter is accepted twice, whatever else is fed in between. */
  lemma NeverTwice(counters: seq<u64>, i: nat, j: nat)
    requires i < j < |counters| && counters[i] == counters[j]
    ensures |AdmitAll(FRESH, counters).1| == |counters|
    ensures !(AdmitAll(FRESH, counters).1[i] && AdmitAll(FRESH, counters).1[j])
  {
    VerdictIsAcceptable(counters, i);
    VerdictIsAcceptable(counters, j);
    var before := counters[..j];
    VerdictIsAcceptable(before, i);
    assert before[..i] == counters[..i];
    var oks := AdmitAll(FRESH, before).1;
    if oks[i] { assert before[i] in Taken(before, oks); }
  }

  /**
   Reordering by less than 1024 loses nothing: if all counters differ and none comes after one
   that is 1024 or more above it, every one of them is accepted.
   */
  lemma ReorderLosesNothing(counters: seq<u64>, n: nat)
    requires n < |counters|
    requires forall i, j :: 0 <= i < j < |counters| ==> counters[i] != counters[j]
    requires forall i, j :: 0 <= i < j < |counters| ==> counters[i] as int - counters[j] as int < 1024
    ensures |AdmitAll(FRESH, counters).1| == |counters|
    ensures AdmitAll(FRESH, counters).1[n]
  {
    VerdictIsAcceptable(counters, n);
  }

  // ---------------------------------------------------------------- a refused counter stays refused

  /** The window can never accept `counter` again. */
  predicate Blocks(w: Window, counter: u64) {
    w.started && counter <= w.highest &&
    (w.highest - counter >= REPLAY_WINDOW || w.highest - counter in w.offsets)
  }

  lemma AdmitBlocks(w: Window, counter: u64)
    ensures TryAdmit(w, counter).1 ==> Blocks(TryAdmit(w, counter).0, counter)
    ensures Blocks(w, counter) ==> !TryAdmit(w, counter).1
  {}

  lemma TouchBlocks(w: Window, counter: u64, timestamp: u64)
    ensures Touch(w, counter, timestamp).1 ==> Blocks(Touch(w, counter, timestamp).0, counter)
  {
    AdmitBlocks(w, counter);
  }

  lemma BlocksForever(w: Window, blocked: u64, counter: u64)
    requires Blocks(w, blocked)
    ensures Blocks(TryAdmit(w, counter).0, blocked)
  {
    var w' := TryAdmit(w, counter).0;
    if counter > w.highest {
      var d := counter - w.highest;
      var o := w.highest - blocked;
      if o in w.offsets && o + d < REPLAY_WINDOW {
        assert o + d in Shift(w.offsets, d);
      }
    }
  }
}
