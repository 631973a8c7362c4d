/**
  `memory.MemoryCache`: an expiring key-value cache with counters kept as decimal text.
  Times and lifetimes are nanoseconds; each operation is atomic and is told the clock it reads.
 */
module MemoryCaches {
  import opened Basics
  import opened CounterKeys

  /** A zero expiry time in the source, meaning "never", is None here. */
  datatype Entry = Entry(value: string, expireAt: Option<nat>)

  type Entries = map<string, Entry>

  predicate Expired(e: Entry, now: nat) {
    e.expireAt.Some? && now > e.expireAt.value
  }

  /** The entry a reader at the given time can see. */
  function Live(c: Entries, key: string, now: nat): Option<Entry> {
    if key in c && !Expired(c[key], now) then Some(c[key]) else None
  }

  function Fresh(value: string, ttl: int, now: nat): Entry {
    Entry(value, if ttl > 0 then Some(now + ttl) else None)
  }

  /** The counter a reader sees: `getCount`. */
  function Counter(c: Entries, key: string, now: nat): int {
    match Live(c, key, now)
    case None => 0
    case Some(e) => ParseInt(e.value)
  }

  /** What IncrBy stores: an existing entry keeps its expiry, a new one gets its own. */
  function Incremented(c: Entries, key: string, delta: int, ttl: int, now: nat): Entries {
    match Live(c, key, now)
    case None => c[key := Fresh(FormatInt(delta), ttl, now)]
    case Some(e) => c[key := e.(value := FormatInt(ParseInt(e.value) + delta))]
  }

  function Swept(c: Entries, now: nat): Entries {
    map k | k in c && !Expired(c[k], now) :: c[k]
  }

  /** Adding to a counter adds to what readers of that counter see, for as long as it lives,
      and changes no other key. */
  lemma IncrementCounts(c: Entries, key: string, delta: int, ttl: int, now: nat, other: string, later: nat)
    requires now <= later
    ensures var c' := Incremented(c, key, delta, ttl, now);
            && Counter(c', key, now) == Counter(c, key, now) + delta
            && (Live(c', key, later).Some? ==> Counter(c', key, later) == Counter(c, key, now) + delta)
            && (other != key ==> Live(c', other, later) == Live(c, other, later))
  {
    var c' := Incremented(c, key, delta, ttl, now);
    ParseFormat(Counter(c, key, now) + delta);
    assert key in c' && ParseInt(c'[key].value) == Counter(c, key, now) + delta;
  }

  class MemoryCache {
    var entries: Entries

    constructor ()
      ensures entries == map[]
    {
      entries := map[];
    }

    method Get(key: string, now: nat) returns (value: Option<string>)
      ensures value == match Live(entries, key, now) { case None => None case Some(e) => Some(e.value) }
    {
      if key !in entries || Expired(entries[key], now) { return None; }
      value := Some(entries[key].value);
    }

    method Set(key: string, value: string, ttl: int, now: nat)
      modifies this
      ensures entries == old(entries)[key := Fresh(value, ttl, now)]
    {
      var entry := Entry(value, None);
      if ttl > 0 { entry := entry.(expireAt := Some(now + ttl)); }
      entries := entries[key := entry];
    }

    method Delete(key: string)
      modifies this
      ensures entries == old(entries) - {key}
    {
      entries := entries - {key};
    }

    /** Returns the new count, which is also what the counter reads from now on. */
    method IncrBy(key: string, delta: int, ttl: int, now: nat) returns (n: int)
      modifies this
      ensures entries == Incremented(old(entries), key, delta, ttl, now)
      ensures n == Counter(old(entries), key, now) + delta == Counter(entries, key, now)
    {
      IncrementCounts(entries, key, delta, ttl, now, key, now);
      if key !in entries || Expired(entries[key], now) {
        var e := Entry(FormatInt(delta), None);
        if ttl > 0 { e := e.(expireAt := Some(now + ttl)); }
        entries := entries[key := e];
        return delta;
      }
      var e := entries[key];
      var current := 0;
      if |e.value| > 0 { current := ParseInt(e.value); }
      current := current + delta;
      entries := entries[key := e.(value := FormatInt(current))];
      n := current;
    }

    /** One round of `cleanup`: visits the keys in any order and deletes the expired ones. */
    method Sweep(now: nat)
      modifies this
      ensures entries == Swept(old(entries), now)
    {
      var todo := entries.Keys;
      while todo != {}
        invariant todo <= old(entries).Keys
        invariant forall k :: k in entries <==> k in old(entries) && (k in todo || !Expired(old(entries)[k], now))
        invariant forall k :: k in entries ==> entries[k] == old(entries)[k]
        decreases todo
      {
        var k :| k in todo;
        if Expired(entries[k], now) { entries := entries - {k}; }
        todo := todo - {k};
      }
    }
  }

  // ---- Sweeps are invisible ---------------------------------------------------------

  datatype Op = Get(key: string) | Set(key: string, value: string, ttl: int) | Delete(key: string)
              | Incr(key: string, delta: int, ttl: int) | Sweep

  datatype Call = Call(op: Op, now: nat)

  datatype Result = Read(value: Option<Entry>) | Number(n: int) | Nothing

  function Apply(c: Entries, call: Call): (Entries, Result) {
    match call.op
    case Get(k) => (c, Read(Live(c, k, call.now)))
    case Set(k, v, ttl) => (c[k := Fresh(v, ttl, call.now)], Nothing)
    case Delete(k) => (c - {k}, Nothing)
    case Incr(k, d, ttl) => (Incremented(c, k, d, ttl, call.now), Number(Counter(c, k, call.now) + d))
    case Sweep => (Swept(c, call.now), Nothing)
  }

  /** What the callers of the cache get back, in order; sweeps have no caller. */
  function Results(c: Entries, calls: seq<Call>): seq<Result>
    decreases calls
  {
    if calls == [] then []
    else
      var (c', r) := Apply(c, calls[0]);
      (if calls[0].op.Sweep? then [] else [r]) + Results(c', calls[1..])
  }

  function WithoutSweeps(calls: seq<Call>): seq<Call> {
    if calls == [] then []
    else (if calls[0].op.Sweep? then [] else [calls[0]]) + WithoutSweeps(calls[1..])
  }

  /** The clock is monotone: no caller reads a time before one read by an earlier operation.
      A sweep reads its time before it gets the lock, so it may be late. */
  predicate Monotone(calls: seq<Call>) {
    forall i, j :: 0 <= i < j < |calls| && !calls[j].op.Sweep? ==> calls[i].now <= calls[j].now
  }

  /** No reader from time t on can tell c and d apart. */
  ghost predicate SameFrom(c: Entries, d: Entries, t: nat) {
    forall k, now :: t <= now ==> Live(c, k, now) == Live(d, k, now)
  }

  lemma CallKeepsSame(c: Entries, d: Entries, call: Call)
    requires SameFrom(c, d, call.now) && !call.op.Sweep?
    ensures SameFrom(Apply(c, call).0, Apply(d, call).0, call.now)
    ensures Apply(c, call).1 == Apply(d, call).1
  {
    var c', d', key := Apply(c, call).0, Apply(d, call).0, call.op.key;
    assert Live(c, key, call.now) == Live(d, key, call.now);
    forall k, now | call.now <= now ensures Live(c', k, now) == Live(d', k, now) {
      assert Live(c, k, now) == Live(d, k, now);
    }
  }

  /** The cache with background sweeps anywhere gives every caller what the cache without them
      gives: for every sequence of calls under a monotone clock. */
  lemma {:induction false} SweepsAreInvisible(c: Entries, d: Entries, calls: seq<Call>, t: nat)
    requires Monotone(calls) && SameFrom(c, d, t)
    requires forall i :: 0 <= i < |calls| && !calls[i].op.Sweep? ==> t <= calls[i].now
    ensures Results(c, calls) == Results(d, WithoutSweeps(calls))
    decreases calls
  {
    if calls != [] {
      var call := calls[0];
      var t' := if call.now < t then t else call.now;
      assert forall i :: 0 <= i < |calls[1..]| ==> calls[1..][i] == calls[i + 1];
      if call.op.Sweep? {
        SweepsAreInvisible(Apply(c, call).0, d, calls[1..], t');
        assert WithoutSweeps(calls) == WithoutSweeps(calls[1..]);
      } else {
        CallKeepsSame(c, d, call);
        SweepsAreInvisible(Apply(c, call).0, Apply(d, call).0, calls[1..], t');
        assert WithoutSweeps(calls) == [call] + WithoutSweeps(calls[1..]);
        assert WithoutSweeps(calls)[1..] == WithoutSweeps(calls[1..]);
      }
    }
  }

  /** The same, for one cache and sweeps inserted anywhere. */
  lemma SweepRefinement(c: Entries, calls: seq<Call>)
    requires Monotone(calls)
    ensures Results(c, calls) == Results(c, WithoutSweeps(calls))
  {
    SweepsAreInvisible(c, c, calls, 0);
  }

  function Final(c: Entries, calls: seq<Call>): Entries
    decreases calls
  {
    if calls == [] then c else Final(Apply(c, calls[0]).0, calls[1..])
  }

  /** An entry's expiry is the one it was created with, however many increments, reads and
      sweeps it lives through. */
  lemma {:induction false} ExpiryIsFixed(c: Entries, calls: seq<Call>, key: string)
    requires key in c
    requires forall call <- calls :: !Expired(c[key], call.now)
    requires forall call <- calls :: call.op.Get? || call.op.Incr? || call.op.Sweep? || call.op.key != key
    ensures key in Final(c, calls) && Final(c, calls)[key].expireAt == c[key].expireAt
    decreases calls
  {
    if calls != [] {
      assert calls[0] in calls;
      assert forall call <- calls[1..] :: call in calls;
      ExpiryIsFixed(Apply(c, calls[0]).0, calls[1..], key);
    }
  }
}
