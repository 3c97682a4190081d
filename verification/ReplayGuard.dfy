/**
 The bounded table of sender windows (src/replay.rs): freshness check, dedup, and eviction of a
 least-recently-seen sender when the table is full.  Which of several equally old senders is
 evicted depends on hash-map iteration order, so the choice is a parameter of the value-level step.
 */
module ReplayGuard {
  import opened Types
  import opened ReplayWindow

  datatype SenderKey = SenderKey(sender: Bytes32, epoch: u32)

  type Table = map<SenderKey, Window>

  /** The freshness test as the code computes it, with saturating bounds. */
  predicate Fresh(timestamp: u64, now: u64) {
    SatSub(now, FRESHNESS_WINDOW_MS) <= timestamp <= SatAdd(now, FRESHNESS_WINDOW_MS)
  }

  /** Saturation never changes the answer: fresh means within five minutes either way. */
  lemma FreshIsDistance(timestamp: u64, now: u64)
    ensures Fresh(timestamp, now)
            <==> now - timestamp <= 300_000 && timestamp - now <= 300_000
  {}

  predicate IsLeastRecent(t: Table, victim: SenderKey) {
    victim in t && forall k :: k in t ==> t[victim].lastSeen <= t[k].lastSeen
  }

  /** The table with an entry for `key`: a new sender gets a fresh window, after an eviction if full. */
  function WithEntry(t: Table, key: SenderKey, victim: SenderKey): (t': Table)
    ensures key in t'
  {
    if key in t then t
    else (if |t| >= MAX_TRACKED_SENDERS then t - {victim} else t)[key := FRESH]
  }

  function AdmitAt(t: Table, key: SenderKey, counter: u64, timestamp: u64): (Table, bool)
    requires key in t
  {
    var (w, ok) := Touch(t[key], counter, timestamp);
    (t[key := w], ok)
  }

  /** One `check_and_admit`; `victim` is the entry thrown out should the table be full. */
  function GuardStep(t: Table, key: SenderKey, counter: u64, timestamp: u64, now: u64, victim: SenderKey)
    : (Table, bool)
  {
    if !Fresh(timestamp, now) then (t, false)
    else AdmitAt(WithEntry(t, key, victim), key, counter, timestamp)
  }

  /** Whether this call throws an entry out, so that the choice of victim matters. */
  predicate Evicts(t: Table, key: SenderKey, timestamp: u64, now: u64) {
    Fresh(timestamp, now) && key !in t && |t| >= MAX_TRACKED_SENDERS
  }

  // ---------------------------------------------------------------- the guard in memory

  class ReplayGuard {
    ghost var Model: Table  // the table as a value

    var senders: map<SenderKey, SenderWindow>

    ghost predicate Valid()
      reads this, senders.Values
    {
      && Model.Keys == senders.Keys
      && (forall k :: k in senders ==> senders[k].View() == Model[k])
      && (forall k, l :: k in senders && l in senders && k != l ==> senders[k] != senders[l])
    }

    constructor ()
      ensures Valid() && fresh(senders.Values)
      ensures Model == map[]
    {
      senders := map[];
      Model := map[];
    }

    method TrackedSenders() returns (n: nat)
      requires Valid()
      ensures n == |Model|
    {
      assert |Model| == |Model.Keys| && |senders| == |senders.Keys|;
      n := |senders|;
    }

    /** The first key, in iteration order, whose `last_seen_ms` is minimal. */
    method LeastRecent() returns (oldest: SenderKey)
      requires Valid() && senders.Keys != {}
      ensures IsLeastRecent(Model, oldest)
    {
      var keys := senders.Keys;
      oldest :| oldest in keys;
      keys := keys - {oldest};
      while keys != {}
        invariant keys <= senders.Keys && oldest in senders
        invariant forall k :: k in senders && k !in keys ==> Model[oldest].lastSeen <= Model[k].lastSeen
        decreases keys
      {
        var k :| k in keys;
        assert senders[k].View() == Model[k] && senders[oldest].View() == Model[oldest];
        if senders[k].lastSeenMs < senders[oldest].lastSeenMs {
          oldest := k;
        }
        keys := keys - {k};
      }
    }

    method EvictIfFull() returns (ghost victim: SenderKey)
      requires Valid()
      modifies this
      ensures Valid() && senders.Values <= old(senders.Values)
      ensures |old(Model)| >= MAX_TRACKED_SENDERS ==> IsLeastRecent(old(Model), victim)
      ensures Model == if |old(Model)| < MAX_TRACKED_SENDERS then old(Model) else old(Model) - {victim}
    {
      var zero: Bytes32 := seq(32, _ => 0);
      victim := SenderKey(zero, 0);
      var n := TrackedSenders();
      if n < MAX_TRACKED_SENDERS {
        return;
      }
      assert senders.Keys != {} by {
        assert |Model| == |Model.Keys| == |senders.Keys|;
      }
      var oldest := LeastRecent();
      victim := oldest;
      senders := senders - {oldest};
      Model := Model - {oldest};
    }

    /** Freshness, then dedup; the table moves only when the message is admitted. */
    method CheckAndAdmit(sender: Bytes32, epoch: u32, counter: u64, timestamp: u64, now: u64)
      returns (ok: bool, ghost victim: SenderKey)
      requires Valid()
      modifies this, senders.Values
      ensures Valid() && fresh(senders.Values - old(senders.Values))
      ensures Evicts(old(Model), SenderKey(sender, epoch), timestamp, now) ==> IsLeastRecent(old(Model), victim)
      ensures (Model, ok) == GuardStep(old(Model), SenderKey(sender, epoch), counter, timestamp, now, victim)
    {
      var key := SenderKey(sender, epoch);
      victim := key;
      if !Fresh(timestamp, now) {
        return false, victim;
      }
      victim := EnsureEntry(key);
      ok := AdmitEntry(key, counter, timestamp);
    }

    method EnsureEntry(key: SenderKey) returns (ghost victim: SenderKey)
      requires Valid()
      modifies this
      ensures Valid() && key in senders && fresh(senders.Values - old(senders.Values))
      ensures key !in old(Model) && |old(Model)| >= MAX_TRACKED_SENDERS ==> IsLeastRecent(old(Model), victim)
      ensures Model == WithEntry(old(Model), key, victim)
    {
      victim := key;
      if key !in senders {
        victim := EvictIfFull();
        Insert(key);
      }
    }

    /** `admit` on the entry, then the `last_seen_ms` stamp. */
    method AdmitEntry(key: SenderKey, counter: u64, timestamp: u64) returns (ok: bool)
      requires Valid() && key in senders
      modifies this`Model, senders[key]
      ensures Valid()
      ensures (Model, ok) == AdmitAt(old(Model), key, counter, timestamp)
    {
      var window := senders[key];
      ok := window.AdmitAndStamp(counter, timestamp);
      Model := Model[key := window.View()];
    }

    /** `or_insert_with(SenderWindow::new)`. */
    method Insert(key: SenderKey)
      requires Valid() && key !in senders
      modifies this
      ensures Valid() && fresh(senders.Values - old(senders.Values))
      ensures key in senders && Model == old(Model)[key := FRESH]
    {
      var w := new SenderWindow();
      senders := senders[key := w];
      Model := Model[key := FRESH];
    }
  }

  // ---------------------------------------------------------------- every reachable table

  /** What holds of every table the guard can reach. */
  ghost predicate TableOk(t: Table) {
    |t| <= MAX_TRACKED_SENDERS && forall k :: k in t ==> t[k].started
  }

  /** The freedom hash-map order leaves: when an entry must go, some least-recently-seen one goes. */
  ghost predicate LegalVictim(t: Table, key: SenderKey, timestamp: u64, now: u64, victim: SenderKey) {
    Evicts(t, key, timestamp, now) ==> IsLeastRecent(t, victim)
  }

  lemma TouchStarts(w: Window, counter: u64, timestamp: u64)
    ensures Touch(w, counter, timestamp).0.started
    ensures Touch(w, counter, timestamp).1 ==> Touch(w, counter, timestamp).0.lastSeen >= timestamp
    ensures !w.started ==> Touch(w, counter, timestamp).1
    ensures !Touch(w, counter, timestamp).1 ==> Touch(w, counter, timestamp).0 == w
  {}

  lemma RemoveSize(t: Table, victim: SenderKey)
    requires victim in t
    ensures |t - {victim}| == |t| - 1
  {
    assert (t - {victim}).Keys == t.Keys - {victim};
    assert |t| == |t.Keys| && |t - {victim}| == |(t - {victim}).Keys|;
  }

  lemma InsertSize(t: Table, key: SenderKey, w: Window)
    ensures |t[key := w]| == |t| + (if key in t then 0 else 1)
  {
    assert t[key := w].Keys == t.Keys + {key};
    assert |t| == |t.Keys| && |t[key := w]| == |t[key := w].Keys|;
  }

  /**
   Every step keeps the table within its cap with every window started; a refusal changes nothing
   at all; an admission changes the sender's own entry, drops at most one other, and only a
   least-recently-seen one.
   */
  lemma {:induction false} GuardStepKeeps(t: Table, key: SenderKey, counter: u64, timestamp: u64, now: u64,
                                          victim: SenderKey)
    requires TableOk(t) && LegalVictim(t, key, timestamp, now, victim)
    ensures var (t', ok) := GuardStep(t, key, counter, timestamp, now, victim);
            && TableOk(t')
            && (!ok ==> t' == t)
            && (ok ==> key in t' && Blocks(t'[key], counter) && t'[key].lastSeen >= timestamp)
            && (forall k :: k in t && k !in t' ==>
                  && k == victim && |t| >= 100_000 && key !in t
                  && (forall other :: other in t ==> t[k].lastSeen <= t[other].lastSeen))
            && (forall k :: k in t' && k != key ==> k in t && t'[k] == t[k])
  {
    if Fresh(timestamp, now) {
      var t1 := WithEntry(t, key, victim);
      TouchStarts(t1[key], counter, timestamp);
      TouchBlocks(t1[key], counter, timestamp);
      if Evicts(t, key, timestamp, now) { RemoveSize(t, victim); }
      if key !in t { InsertSize(if |t| >= MAX_TRACKED_SENDERS then t - {victim} else t, key, FRESH); }
      InsertSize(t1, key, Touch(t1[key], counter, timestamp).0);
    }
  }

  /** An admission leaves the counter blocked. */
  lemma {:induction false} GuardStepBlocks(t: Table, key: SenderKey, counter: u64, timestamp: u64, now: u64,
                                           victim: SenderKey)
    ensures var (t', ok) := GuardStep(t, key, counter, timestamp, now, victim);
            ok ==> key in t' && Blocks(t'[key], counter)
  {
    if Fresh(timestamp, now) {
      var t1 := WithEntry(t, key, victim);
      TouchBlocks(t1[key], counter, timestamp);
    }
  }

  /** The table changes exactly when the message is admitted. */
  lemma GuardMovesIffAdmitted(t: Table, key: SenderKey, counter: u64, timestamp: u64, now: u64, victim: SenderKey)
    requires TableOk(t) && LegalVictim(t, key, timestamp, now, victim)
    ensures var (t', ok) := GuardStep(t, key, counter, timestamp, now, victim);
            (ok <==> t' != t) && (ok ==> Fresh(timestamp, now))
  {
    GuardStepKeeps(t, key, counter, timestamp, now, victim);
    GuardStepBlocks(t, key, counter, timestamp, now, victim);
    if key in t && Blocks(t[key], counter) {
      BlockedStep(t, key, counter, Arrival(key, counter, timestamp, now, victim));
    }
  }

  // ---------------------------------------------------------------- whole runs

  datatype Arrival = Arrival(key: SenderKey, counter: u64, timestamp: u64, now: u64, victim: SenderKey)

  /** The table after the first `n` arrivals, from the table `start`. */
  function TableAfter(start: Table, arrivals: seq<Arrival>, n: nat): Table
    requires n <= |arrivals|
  {
    if n == 0 then start
    else
      var a := arrivals[n - 1];
      GuardStep(TableAfter(start, arrivals, n - 1), a.key, a.counter, a.timestamp, a.now, a.victim).0
  }

  predicate AdmittedAt(start: Table, arrivals: seq<Arrival>, n: nat)
    requires n < |arrivals|
  {
    var a := arrivals[n];
    GuardStep(TableAfter(start, arrivals, n), a.key, a.counter, a.timestamp, a.now, a.victim).1
  }

  /** Arrival `n` throws the entry of `key` out of the table. */
  predicate EvictedAt(start: Table, arrivals: seq<Arrival>, n: nat, key: SenderKey)
    requires n < |arrivals|
  {
    var a := arrivals[n];
    Evicts(TableAfter(start, arrivals, n), a.key, a.timestamp, a.now) && a.victim == key
  }

  ghost predicate LegalArrivals(start: Table, arrivals: seq<Arrival>) {
    forall n :: 0 <= n < |arrivals| ==>
      var a := arrivals[n];
      LegalVictim(TableAfter(start, arrivals, n), a.key, a.timestamp, a.now, a.victim)
  }

  lemma {:induction false} ReachableTable(start: Table, arrivals: seq<Arrival>, n: nat)
    requires TableOk(start) && LegalArrivals(start, arrivals) && n <= |arrivals|
    ensures TableOk(TableAfter(start, arrivals, n)) && |TableAfter(start, arrivals, n)| <= 100_000
  {
    if n > 0 {
      ReachableTable(start, arrivals, n - 1);
      var a := arrivals[n - 1];
      GuardStepKeeps(TableAfter(start, arrivals, n - 1), a.key, a.counter, a.timestamp, a.now, a.victim);
    }
  }

  /** A blocked counter of `key` stays blocked through any step that does not evict `key`. */
  lemma BlockedStep(t: Table, key: SenderKey, blocked: u64, a: Arrival)
    requires key in t && Blocks(t[key], blocked)
    requires Evicts(t, a.key, a.timestamp, a.now) ==> a.victim != key
    ensures var t' := GuardStep(t, a.key, a.counter, a.timestamp, a.now, a.victim).0;
            key in t' && Blocks(t'[key], blocked)
    ensures a.key == key && a.counter == blocked ==>
              !GuardStep(t, a.key, a.counter, a.timestamp, a.now, a.victim).1
  {
    BlocksForever(t[key], blocked, a.counter);
    AdmitBlocks(t[key], blocked);
  }

  lemma {:induction false} BlockedUntilEvicted(start: Table, arrivals: seq<Arrival>, i: nat, j: nat)
    requires i < j <= |arrivals| && AdmittedAt(start, arrivals, i)
    requires forall k :: i < k < j ==> !EvictedAt(start, arrivals, k, arrivals[i].key)
    ensures var t := TableAfter(start, arrivals, j);
            arrivals[i].key in t && Blocks(t[arrivals[i].key], arrivals[i].counter)
  {
    var key, counter := arrivals[i].key, arrivals[i].counter;
    if j == i + 1 {
      var a := arrivals[i];
      GuardStepBlocks(TableAfter(start, arrivals, i), a.key, a.counter, a.timestamp, a.now, a.victim);
    } else {
      BlockedUntilEvicted(start, arrivals, i, j - 1);
      assert !EvictedAt(start, arrivals, j - 1, key);
      BlockedStep(TableAfter(start, arrivals, j - 1), key, counter, arrivals[j - 1]);
    }
  }

  /**
   At-most-once over whole runs: admitting the same counter of the same sender and epoch twice
   takes an eviction of that sender in between, and each admission happened within the freshness
   window of its timestamp.
   */
  lemma {:induction false} AtMostOnce(start: Table, arrivals: seq<Arrival>, i: nat, j: nat)
    requires i < j < |arrivals|
    requires arrivals[i].key == arrivals[j].key && arrivals[i].counter == arrivals[j].counter
    ensures AdmittedAt(start, arrivals, i) && AdmittedAt(start, arrivals, j) ==>
              && (exists k :: i < k < j && EvictedAt(start, arrivals, k, arrivals[i].key))
              && (forall n :: n == i || n == j ==>
                    && arrivals[n].now - arrivals[n].timestamp <= FRESHNESS_WINDOW_MS
                    && arrivals[n].timestamp - arrivals[n].now <= FRESHNESS_WINDOW_MS)
  {
    FreshIsDistance(arrivals[i].timestamp, arrivals[i].now);
    FreshIsDistance(arrivals[j].timestamp, arrivals[j].now);
    if AdmittedAt(start, arrivals, i) && AdmittedAt(start, arrivals, j)
       && forall k :: i < k < j ==> !EvictedAt(start, arrivals, k, arrivals[i].key) {
      BlockedUntilEvicted(start, arrivals, i, j);
      var t := TableAfter(start, arrivals, j);
      assert !Evicts(t, arrivals[j].key, arrivals[j].timestamp, arrivals[j].now);
      BlockedStep(t, arrivals[i].key, arrivals[i].counter, arrivals[j]);
      assert false;
    }
  }

  /** A counter a table blocks is refused after any further arrivals that do not evict its sender. */
  lemma {:induction false} BlockedThroughRun(start: Table, arrivals: seq<Arrival>, n: nat, key: SenderKey, blocked: u64)
    requires n <= |arrivals| && key in start && Blocks(start[key], blocked)
    requires forall k :: 0 <= k < n ==> !EvictedAt(start, arrivals, k, key)
    ensures var t := TableAfter(start, arrivals, n); key in t && Blocks(t[key], blocked)
  {
    if n > 0 {
      BlockedThroughRun(start, arrivals, n - 1, key, blocked);
      assert !EvictedAt(start, arrivals, n - 1, key);
      BlockedStep(TableAfter(start, arrivals, n - 1), key, blocked, arrivals[n - 1]);
    }
  }

  /** A message is admitted exactly when it is fresh and its sender's entry does not block its counter. */
  lemma AdmitsUnlessBlocked(t: Table, key: SenderKey, counter: u64, timestamp: u64, now: u64, victim: SenderKey)
    requires TableOk(t)
    ensures GuardStep(t, key, counter, timestamp, now, victim).1
            <==> Fresh(timestamp, now) && !(key in t && Blocks(t[key], counter))
  {
    if key in t { StartedAdmits(t[key], counter); }
  }

  lemma StartedAdmits(w: Window, counter: u64)
    requires w.started
    ensures TryAdmit(w, counter).1 <==> !Blocks(w, counter)
  {}

  /** The greatest timestamp admitted for `key` since it was last evicted. */
  function GreatestAdmitted(arrivals: seq<Arrival>, n: nat, key: SenderKey): u64
    requires n <= |arrivals|
  {
    if n == 0 || EvictedAt(map[], arrivals, n - 1, key) then 0
    else
      var g := GreatestAdmitted(arrivals, n - 1, key);
      if arrivals[n - 1].key == key && AdmittedAt(map[], arrivals, n - 1) then Max(g, arrivals[n - 1].timestamp) else g
  }

  lemma LeavesByEviction(t: Table, a: Arrival, key: SenderKey)
    requires key in t && key !in GuardStep(t, a.key, a.counter, a.timestamp, a.now, a.victim).0
    ensures Evicts(t, a.key, a.timestamp, a.now) && a.victim == key
  {}

  lemma LastSeenStep(t: Table, a: Arrival, key: SenderKey)
    requires key in GuardStep(t, a.key, a.counter, a.timestamp, a.now, a.victim).0
    ensures var (t', ok) := GuardStep(t, a.key, a.counter, a.timestamp, a.now, a.victim);
            var was := if key in t then t[key].lastSeen else 0;
            t'[key].lastSeen == if a.key == key && ok then Max(was, a.timestamp) else was
    ensures key in t ==> !(Evicts(t, a.key, a.timestamp, a.now) && a.victim == key)
  {}

  /**
   In every reachable table an entry's `last_seen_ms` is the greatest timestamp admitted for it, so
   the entry an eviction removes is one whose greatest admitted timestamp is minimal.
   */
  lemma {:induction false} LastSeenIsGreatest(arrivals: seq<Arrival>, n: nat, key: SenderKey)
    requires n <= |arrivals| && LegalArrivals(map[], arrivals)
    ensures key in TableAfter(map[], arrivals, n) ==>
              TableAfter(map[], arrivals, n)[key].lastSeen == GreatestAdmitted(arrivals, n, key)
    ensures key !in TableAfter(map[], arrivals, n) ==> GreatestAdmitted(arrivals, n, key) == 0
  {
    if n > 0 {
      LastSeenIsGreatest(arrivals, n - 1, key);
      var t, a := TableAfter(map[], arrivals, n - 1), arrivals[n - 1];
      assert LegalVictim(t, a.key, a.timestamp, a.now, a.victim);
      if key in TableAfter(map[], arrivals, n) {
        LastSeenStep(t, a, key);
      } else {
        GuardStepBlocks(t, a.key, a.counter, a.timestamp, a.now, a.victim);
        if key in t { LeavesByEviction(t, a, key); }
      }
    }
  }

  lemma {:induction false} HighestWasSeen(arrivals: seq<Arrival>, n: nat, key: SenderKey)
    requires n <= |arrivals| && key in TableAfter(map[], arrivals, n)
    ensures var w := TableAfter(map[], arrivals, n)[key];
            w.started && exists i :: 0 <= i < n && arrivals[i].key == key && arrivals[i].counter == w.highest
  {
    if n > 0 {
      var t, a := TableAfter(map[], arrivals, n - 1), arrivals[n - 1];
      var w := TableAfter(map[], arrivals, n)[key];
      if key in t { HighestWasSeen(arrivals, n - 1, key); }
      TouchHighest(WithEntry(t, a.key, a.victim)[a.key], a.counter, a.timestamp);
      if a.key == key && w.highest == a.counter {
        assert arrivals[n - 1].counter == w.highest;
      }
    }
  }

  lemma TouchHighest(w: Window, counter: u64, timestamp: u64)
    ensures var w' := Touch(w, counter, timestamp).0;
            w'.started && (w'.highest == counter || (w.started && w'.highest == w.highest))
  {}

  /**
   Counters that arrive in increasing order, with or without gaps, are always admitted when timely,
   whatever other senders do and whoever is evicted.
   */
  lemma IncreasingIsAdmitted(arrivals: seq<Arrival>, n: nat)
    requires n < |arrivals| && Fresh(arrivals[n].timestamp, arrivals[n].now)
    requires forall i :: 0 <= i < n && arrivals[i].key == arrivals[n].key ==> arrivals[i].counter < arrivals[n].counter
    ensures AdmittedAt(map[], arrivals, n)
  {
    var t, a := TableAfter(map[], arrivals, n), arrivals[n];
    if a.key in t { HighestWasSeen(arrivals, n, a.key); }
  }
}
