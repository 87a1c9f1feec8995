/** The bounded in-process counter store of failed logins, and the unbounded, never
    swept expiring map that it must be indistinguishable from. */
module AttemptStore {
  import opened Text

  const DEFAULT_MAX_ENTRIES := 100_000

  /** LockoutKey: client address and account. */
  function LockoutKey(clientIP: string, email: string): (key: string)
    ensures key != ""
  {
    var ip := if Trim(clientIP) == "" then "unknown" else Trim(clientIP);
    ip + "|" + Trim(email)
  }

  /** Client and account can be told from the key: an account is never counted under another client or
      another account, white space aside; a blank client is the one named "unknown". */
  lemma LockoutKeyIdentifies(clientIP: string, email: string, clientIP': string, email': string)
    requires '|' !in Trim(clientIP) && '|' !in Trim(clientIP')
    ensures LockoutKey(clientIP, email) == LockoutKey(clientIP', email') <==>
            Trim(email) == Trim(email')
            && (Trim(clientIP) == Trim(clientIP') || (Trim(clientIP) == "" && Trim(clientIP') == "unknown")
                || (Trim(clientIP) == "unknown" && Trim(clientIP') == ""))
  {
    hide Trim;
    var ip := if Trim(clientIP) == "" then "unknown" else Trim(clientIP);
    var ip' := if Trim(clientIP') == "" then "unknown" else Trim(clientIP');
    var a, b := LockoutKey(clientIP, email), LockoutKey(clientIP', email');
    assert a == ip + "|" + Trim(email) && b == ip' + "|" + Trim(email');
    IndexOfIs(a, '|', |ip|);
    IndexOfIs(b, '|', |ip'|);
    assert a[..|ip|] == ip && a[|ip| + 1..] == Trim(email);
    assert b[..|ip'|] == ip' && b[|ip'| + 1..] == Trim(email');
  }

  datatype Entry = Entry(count: int, expires: int)
  type Entries = map<string, Entry>

  datatype Op =
    | Failures(key: string)
    | Increment(key: string, window: int)
    | ResetIf(key: string, expected: int)

  /** The entries that have not expired. */
  function Live(e: Entries, now: int): Entries {
    map k | k in e && now <= e[k].expires :: e[k]
  }

  function CountOf(e: Entries, key: string, now: int): int {
    if key in e && now <= e[key].expires then e[key].count else 0
  }

  /** The plain expiring map: nothing is swept and nothing is evicted. ResetIf answers nothing, here 0. */
  function Plain(e: Entries, op: Op, now: int): (Entries, int) {
    var n := CountOf(e, op.key, now);
    match op
    case Failures(_) => (e, n)
    case Increment(key, window) => (e[key := Entry(n + 1, now + window)], n + 1)
    case ResetIf(key, expected) =>
      if expected <= 0 || key !in Live(e, now) || n < expected then (e, 0)
      else if n == expected then (e - {key}, 0)
      else (e[key := e[key].(count := n - expected)], 0)
  }

  /** What a call means for every later read: an increment adds one and opens a window, a reset takes off
      what was expected if at least that much is there, nothing else changes a count, and a
      count is gone once its window is over. */
  lemma CountAfter(e: Entries, op: Op, now: int, key: string, later: int)
    requires now <= later
    ensures var n, left := CountOf(e, key, now), CountOf(e, key, later);
            CountOf(Plain(e, op, now).0, key, later) ==
              if key != op.key then left
              else match op
                   case Failures(_) => left
                   case Increment(_, window) => if later <= now + window then n + 1 else 0
                   case ResetIf(_, expected) => if 0 < expected <= n && left == n then n - expected else left
    ensures op.Failures? ==> Plain(e, op, now).1 == CountOf(e, op.key, now)
    ensures op.Increment? ==> Plain(e, op, now).1 == CountOf(e, op.key, now) + 1
  {
  }

  /** A new key comes in while as many keys are live as the store may hold. */
  predicate FullOfLive(max: nat, e: Entries, op: Op, now: int) {
    op.Increment? && op.key !in Live(e, now) && |Live(e, now)| >= max
  }

  predicate Oldest(e: Entries, k: string) {
    k in e && forall j :: j in e ==> e[k].expires <= e[j].expires
  }

  /** What one call shows: the answer and the live entries of the plain map, or, at capacity,
      those without one entry of minimal expiry. */
  ghost predicate Behaves(max: nat, e: Entries, op: Op, now: int, answer: Option<int>, e': Entries) {
    if FullOfLive(max, e, op, now) then
      answer == Some(1) && exists k :: Oldest(e, k) && Live(e', now) == Live((e - {k})[op.key := Entry(1, now + op.window)], now)
    else
      answer == Some(Plain(e, op, now).1) && Live(e', now) == Live(Plain(e, op, now).0, now)
  }

  /** Dropping expired entries does not show. */
  lemma PlainSeesLive(a: Entries, b: Entries, op: Op, now: int)
    requires Live(a, now) == Live(b, now)
    ensures Plain(a, op, now).1 == Plain(b, op, now).1
    ensures Live(Plain(a, op, now).0, now) == Live(Plain(b, op, now).0, now)
  {
    assert op.key in Live(a, now) <==> op.key in Live(b, now);
    assert CountOf(a, op.key, now) == CountOf(b, op.key, now) by {
      if op.key in Live(a, now) { assert Live(a, now)[op.key] == Live(b, now)[op.key]; }
    }
    forall k ensures (k in Live(Plain(a, op, now).0, now) <==> k in Live(Plain(b, op, now).0, now))
                     && (k in Live(Plain(a, op, now).0, now) ==> Live(Plain(a, op, now).0, now)[k] == Live(Plain(b, op, now).0, now)[k])
    {
      assert k in Live(a, now) <==> k in Live(b, now);
      if k in Live(a, now) { assert Live(a, now)[k] == Live(b, now)[k]; }
    }
  }

  lemma LiveLater(a: Entries, b: Entries, now: int, later: int)
    requires Live(a, now) == Live(b, now) && now <= later
    ensures Live(a, later) == Live(b, later)
  {
    forall k ensures (k in Live(a, later) <==> k in Live(b, later)) && (k in Live(a, later) ==> Live(a, later)[k] == Live(b, later)[k]) {
      assert k in Live(a, now) <==> k in Live(b, now);
      if k in Live(a, now) { assert Live(a, now)[k] == Live(b, now)[k]; }
    }
  }

  /** The plain map after the first n operations. */
  function PlainRun(ops: seq<Op>, times: seq<int>, n: nat): Entries
    requires n <= |ops| == |times|
  {
    if n == 0 then map[] else Plain(PlainRun(ops, times, n - 1), ops[n - 1], times[n - 1]).0
  }

  /** Calls of the store at non-decreasing times, starting empty. */
  ghost predicate IsRun(max: nat, trace: seq<Entries>, ops: seq<Op>, times: seq<int>, answers: seq<Option<int>>) {
    && |trace| == |ops| + 1 && |times| == |ops| == |answers| && trace[0] == map[]
    && (forall i, j :: 0 <= i < j < |times| ==> times[i] <= times[j])
    && (forall i :: 0 <= i < |ops| ==> Behaves(max, trace[i], ops[i], times[i], answers[i], trace[i + 1]))
  }

  lemma {:induction false} LiveEntriesAgree(max: nat, trace: seq<Entries>, ops: seq<Op>, times: seq<int>, answers: seq<Option<int>>, n: nat, now: int)
    requires IsRun(max, trace, ops, times, answers) && n <= |ops| && (n > 0 ==> times[n - 1] <= now)
    requires forall i :: 0 <= i < n ==> !FullOfLive(max, trace[i], ops[i], times[i])
    ensures Live(trace[n], now) == Live(PlainRun(ops, times, n), now)
  {
    hide Plain, Live, FullOfLive;
    if n > 0 {
      LiveEntriesAgree(max, trace, ops, times, answers, n - 1, times[n - 1]);
      assert Behaves(max, trace[n - 1], ops[n - 1], times[n - 1], answers[n - 1], trace[n - 1 + 1]);
      PlainSeesLive(trace[n - 1], PlainRun(ops, times, n - 1), ops[n - 1], times[n - 1]);
      LiveLater(trace[n], PlainRun(ops, times, n), times[n - 1], now);
    }
  }

  /** As long as no new key arrives while the store is full of live keys, every answer of the
      bounded, lazily swept store is that of the unbounded, unswept map. */
  lemma SweepIsInvisible(max: nat, trace: seq<Entries>, ops: seq<Op>, times: seq<int>, answers: seq<Option<int>>, n: nat)
    requires IsRun(max, trace, ops, times, answers) && n < |ops|
    requires forall i :: 0 <= i <= n ==> !FullOfLive(max, trace[i], ops[i], times[i])
    ensures answers[n] == Some(Plain(PlainRun(ops, times, n), ops[n], times[n]).1)
  {
    hide Plain, Live, FullOfLive;
    LiveEntriesAgree(max, trace, ops, times, answers, n, times[n]);
    assert Behaves(max, trace[n], ops[n], times[n], answers[n], trace[n + 1]);
    PlainSeesLive(trace[n], PlainRun(ops, times, n), ops[n], times[n]);
  }

  /** The condition is exact: a call that finds the store full of live keys forgets one of them. */
  lemma EvictionShows(max: nat, e: Entries, op: Op, now: int, answer: Option<int>, e': Entries)
    requires Behaves(max, e, op, now, answer, e') && |e| <= max && max > 0
    ensures Live(e', now) == Live(Plain(e, op, now).0, now) <==> !FullOfLive(max, e, op, now)
  {
    if FullOfLive(max, e, op, now) {
      AllLive(max, e, now);
      var k :| Oldest(e, k) && Live(e', now) == Live((e - {k})[op.key := Entry(1, now + op.window)], now);
      assert k in Live(e, now) && k != op.key;
      assert k in Live(Plain(e, op, now).0, now);
      assert k !in Live(e', now);
    }
  }

  /** A store with as many live entries as it may hold has no expired ones. */
  lemma AllLive(max: nat, e: Entries, now: int)
    requires |e| <= max && |Live(e, now)| >= max
    ensures Live(e, now) == e
  {
    var l := Live(e, now);
    assert l.Keys <= e.Keys;
    SubsetSize(l.Keys, e.Keys);
    assert |l.Keys| == |l| && |e.Keys| == |e|;
    assert l.Keys == e.Keys;
  }

  // ---- The store ----

  predicate Counted(e: Entries) {
    forall k :: k in e ==> e[k].count > 0
  }

  class MemoryAttemptStore {
    var entries: Entries
    const maxEntries: nat
    var lastSweep: Option<int>
    const sweepEvery: int

    /** Within its bound, every stored count positive, and no key blank, as LockoutKey guarantees. */
    ghost predicate Valid()
      reads this
    {
      maxEntries > 0 && |entries| <= maxEntries && "" !in entries && Counted(entries)
    }

    constructor (max: int, interval: int)
      ensures Valid() && entries == map[] && lastSweep == None && sweepEvery == interval
      ensures maxEntries == if max <= 0 then DEFAULT_MAX_ENTRIES else max
    {
      entries, lastSweep, sweepEvery := map[], None, interval;
      maxEntries := if max <= 0 then DEFAULT_MAX_ENTRIES else max;
    }

    method CountFailures(key: string, now: int) returns (n: int)
      requires Valid()
      modifies this
      ensures Valid() && Behaves(maxEntries, old(entries), Failures(key), now, Some(n), entries)
    {
      MaybeSweep(now);
      PlainSeesLive(old(entries), entries, Failures(key), now);
      if key !in entries || now > entries[key].expires {
        ghost var swept := entries;
        if key in entries {
          ShrinkBound(entries, {key});
          entries := entries - {key};
        }
        assert Live(entries, now) == Live(swept, now);
        return 0;
      }
      n := entries[key].count;
    }

    /** Drops an expired entry of the key, or makes room for a new key. */
    method MakeRoom(key: string, now: int)
      requires Valid()
      modifies this`entries
      ensures Valid() && Room(maxEntries, old(entries), entries, key, now)
      ensures key in entries || |entries| < maxEntries
    {
      if key in entries {
        if now <= entries[key].expires { return; }
        ShrinkBound(entries, {key});
        entries := entries - {key};
      } else if |entries| >= maxEntries {
        var k := EvictOne();
      }
    }

    /** The error at capacity is never returned: one entry can always be evicted. */
    method AddFailure(key: string, window: int, now: int) returns (n: Option<int>)
      requires Valid() && key != ""
      modifies this
      ensures Valid() && Behaves(maxEntries, old(entries), Increment(key, window), now, n, entries)
    {
      hide Behaves, Live, Room;
      MaybeSweep(now);
      ghost var swept := entries;
      MakeRoom(key, now);
      RoomCount(maxEntries, swept, entries, key, now);
      if key !in entries && |entries| >= maxEntries { return None; }
      var count := if key in entries then entries[key].count else 0;
      PutBound(entries, key, Entry(count + 1, now + window));
      AddBehaves(maxEntries, old(entries), swept, entries, key, window, now);
      entries := entries[key := Entry(count + 1, now + window)];
      return Some(count + 1);
    }

    method Reset(key: string, expected: int, now: int)
      requires Valid()
      modifies this
      ensures Valid() && Behaves(maxEntries, old(entries), ResetIf(key, expected), now, Some(0), entries)
    {
      if expected <= 0 { return; }
      ghost var was := entries;
      ShrinkBound(entries, {key});
      if key !in entries || now > entries[key].expires {
        entries := entries - {key};
        assert Live(entries, now) == Live(was, now);
        return;
      }
      var e := entries[key];
      if e.count < expected { return; }
      if e.count - expected == 0 {
        entries := entries - {key};
        return;
      }
      entries := entries[key := e.(count := e.count - expected)];
      PutBound(was, key, entries[key]);
    }

    /** Runs the full sweep at most once per interval. */
    method MaybeSweep(now: int)
      requires Valid()
      modifies this
      ensures Valid() && Live(entries, now) == Live(old(entries), now)
      ensures entries.Keys <= old(entries).Keys && forall k :: k in entries ==> entries[k] == old(entries)[k]
    {
      if sweepEvery > 0 && lastSweep.Some? && now - lastSweep.value < sweepEvery { return; }
      EvictExpired(now);
      lastSweep := Some(now);
    }

    method EvictExpired(now: int)
      requires Valid()
      modifies this`entries
      ensures Valid() && entries == Live(old(entries), now)
    {
      var todo := entries.Keys;
      while todo != {}
        invariant Valid() && todo <= entries.Keys <= old(entries).Keys
        invariant forall k :: k in entries ==> entries[k] == old(entries)[k]
        invariant forall k :: k in old(entries) && k !in todo ==> (k in entries <==> now <= old(entries)[k].expires)
        decreases |todo|
      {
        var k :| k in todo;
        todo := todo - {k};
        if now > entries[k].expires {
          ShrinkBound(entries, {k});
          entries := entries - {k};
        }
      }
    }

    /** Removes one entry that expires first. */
    method EvictOne() returns (oldestKey: string)
      requires Valid() && |entries| > 0
      modifies this`entries
      ensures Oldest(old(entries), oldestKey) && entries == old(entries) - {oldestKey} && |entries| < |old(entries)|
      ensures Valid()
    {
      var todo := entries.Keys;
      assert |todo| == |entries|;
      oldestKey := "";
      var oldestExp := 0;
      var first := true;
      while todo != {}
        invariant todo <= entries.Keys
        invariant first <==> todo == entries.Keys
        invariant !first ==> oldestKey in entries && entries[oldestKey].expires == oldestExp
                             && forall k :: k in entries && k !in todo ==> oldestExp <= entries[k].expires
        decreases |todo|
      {
        var k :| k in todo;
        todo := todo - {k};
        if first || entries[k].expires < oldestExp {
          oldestKey, oldestExp, first := k, entries[k].expires, false;
        }
      }
      ShrinkBound(entries, {oldestKey});
      if oldestKey != "" { entries := entries - {oldestKey}; }
    }
  }

  lemma ShrinkBound(e: Entries, ks: set<string>)
    ensures |e - ks| <= |e|
    ensures (exists k :: k in ks && k in e) ==> |e - ks| < |e|
  {
    var d := e - ks;
    assert d.Keys == e.Keys - ks;
    assert |d| == |d.Keys| && |e| == |e.Keys|;
    SubsetSize(d.Keys, e.Keys);
  }

  lemma PutBound(e: Entries, key: string, v: Entry)
    ensures |e[key := v]| == if key in e then |e| else |e| + 1
  {
    var d := e[key := v];
    assert d.Keys == e.Keys + {key};
    assert |d| == |d.Keys| && |e| == |e.Keys|;
  }

  /** What MakeRoom leaves of the swept entries. */
  ghost predicate Room(max: nat, swept: Entries, room: Entries, key: string, now: int) {
    if key in Live(swept, now) then room == swept
    else if key in swept then room == swept - {key}
    else if |swept| < max then room == swept
    else exists k :: Oldest(swept, k) && room == swept - {k}
  }

  lemma RoomCount(max: nat, swept: Entries, room: Entries, key: string, now: int)
    requires Room(max, swept, room, key, now)
    ensures CountOf(swept, key, now) == if key in room then room[key].count else 0
  {
  }

  lemma AddBehaves(max: nat, e: Entries, swept: Entries, room: Entries, key: string, window: int, now: int)
    requires |e| <= max && Live(swept, now) == Live(e, now) && Room(max, swept, room, key, now)
    requires swept.Keys <= e.Keys && forall j :: j in swept ==> swept[j] == e[j]
    ensures var n := CountOf(swept, key, now) + 1;
            Behaves(max, e, Increment(key, window), now, Some(n), room[key := Entry(n, now + window)])
  {
    hide Live, Plain, FullOfLive, Oldest, CountOf;
    var op := Increment(key, window);
    if key in swept || |swept| < max {
      assert |swept| <= max by { SubsetSize(swept.Keys, e.Keys); assert |swept| == |swept.Keys| && |e| == |e.Keys|; }
      NotFull(max, e, swept, op, now);
      SameCount(e, swept, key, now);
      SameLive(e, swept, room, op, now);
    } else {
      Unknown(swept, key, now);
      var k :| Oldest(swept, k) && room == swept - {k};
      EvictedBehaves(max, e, swept, op, now, k);
    }
  }

  lemma SameCount(e: Entries, swept: Entries, key: string, now: int)
    requires Live(swept, now) == Live(e, now)
    ensures CountOf(e, key, now) == CountOf(swept, key, now)
  {
    PlainSeesLive(e, swept, Failures(key), now);
  }

  lemma Unknown(e: Entries, key: string, now: int)
    requires key !in e
    ensures CountOf(e, key, now) == 0 && key !in Live(e, now)
  {
  }

  lemma SameLive(e: Entries, swept: Entries, room: Entries, op: Op, now: int)
    requires op.Increment? && Live(swept, now) == Live(e, now)
    requires if op.key in swept && op.key !in Live(swept, now) then room == swept - {op.key} else room == swept
    ensures Plain(e, op, now).1 == CountOf(e, op.key, now) + 1
    ensures Live(room[op.key := Entry(CountOf(e, op.key, now) + 1, now + op.window)], now) == Live(Plain(e, op, now).0, now)
  {
    var x, y := Live(room[op.key := Entry(CountOf(e, op.key, now) + 1, now + op.window)], now), Live(Plain(e, op, now).0, now);
    forall k ensures (k in x <==> k in y) && (k in x ==> x[k] == y[k]) {
      assert k in Live(swept, now) <==> k in Live(e, now);
      if k in Live(e, now) { assert Live(swept, now)[k] == Live(e, now)[k]; }
    }
  }

  /** With room, or with the key in store, the call is not one at capacity. */
  lemma NotFull(max: nat, e: Entries, swept: Entries, op: Op, now: int)
    requires Live(swept, now) == Live(e, now) && |swept| <= max && (op.key in swept || |swept| < max)
    ensures !FullOfLive(max, e, op, now)
  {
    SubsetSize(Live(swept, now).Keys, swept.Keys);
    assert |Live(swept, now)| == |Live(swept, now).Keys| && |swept| == |swept.Keys|;
    if |Live(swept, now)| >= max { AllLive(max, swept, now); }
  }

  /** An eviction shows only when every entry is live. */
  lemma EvictedBehaves(max: nat, e: Entries, swept: Entries, op: Op, now: int, k: string)
    requires op.Increment? && op.key !in swept && Live(swept, now) == Live(e, now) && Oldest(swept, k)
    requires swept.Keys <= e.Keys && |e| <= max <= |swept| && forall j :: j in swept ==> swept[j] == e[j]
    ensures Behaves(max, e, op, now, Some(1), (swept - {k})[op.key := Entry(1, now + op.window)])
  {
    hide Live, Plain, FullOfLive, Oldest;
    assert |swept| == |swept.Keys| && |e| == |e.Keys|;
    SubsetSize(swept.Keys, e.Keys);
    assert swept == e;
    if !FullOfLive(max, e, op, now) { ExpiredEvicted(max, e, op, now, k); }
  }

  /** Short of being full of live keys, the evicted entry had expired. */
  lemma ExpiredEvicted(max: nat, e: Entries, op: Op, now: int, k: string)
    requires op.Increment? && op.key !in e && Oldest(e, k) && |e| >= max && !FullOfLive(max, e, op, now)
    ensures Plain(e, op, now).1 == 1
    ensures Live((e - {k})[op.key := Entry(1, now + op.window)], now) == Live(Plain(e, op, now).0, now)
  {
    if k in Live(e, now) { AllKept(e, k, now); }
    assert k !in Live(e, now);
  }

  /** When an oldest entry is live, so are all. */
  lemma AllKept(e: Entries, k: string, now: int)
    requires Oldest(e, k) && k in Live(e, now)
    ensures Live(e, now) == e
  {
  }
}
