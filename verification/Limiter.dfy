/**
  `ratelimit.Limiter`: requests-per-minute and tokens-per-minute budgets in three layers
  (global, per model, per key), counted in the cache. Here one call runs alone at one instant;
  the module LimiterProtocol interleaves many of them. The sliding-window estimate
  curr + prev*(1 - sec/60) is kept exact by multiplying through by 60. A cache write can fail, as it
  can on a remote cache: `fails` tells which of a call's writes do, numbered in the order of the calls.
 */
module Limiters {
  import opened Basics
  import opened CounterKeys
  import opened MemoryCaches

  const SECOND: nat := 1_000_000_000
  const TTL: nat := 61 * SECOND

  function Minute(now: nat): nat {
    now / SECOND / 60
  }

  function SecondOf(now: nat): (s: nat)
    ensures s < 60
  {
    now / SECOND % 60
  }

  datatype Limits = Limits(rpm: int, tpm: int)

  datatype Config = Config(all: Limits, models: map<string, Limits>, keys: map<string, Limits>)

  /** One layer of one budget; a limit that is not positive means no limit. */
  datatype Layer = Layer(scope: Scope, id: string, limit: int)

  function Lookup(m: map<string, Limits>, id: string): Limits {
    if id in m then m[id] else Limits(0, 0)
  }

  function LimitOf(kind: Kind, l: Limits): int {
    match kind case Rpm => l.rpm case Tpm => l.tpm
  }

  /** The three layers that cover a request, in the order they are checked. */
  function Layers(kind: Kind, cfg: Config, model: string, key: string): (ls: seq<Layer>)
    ensures |ls| == 3 && ls[0].scope == Global && ls[1].scope == Model && ls[2].scope == Key
  {
    [Layer(Global, "", LimitOf(kind, cfg.all)),
     Layer(Model, model, LimitOf(kind, Lookup(cfg.models, model))),
     Layer(Key, key, LimitOf(kind, Lookup(cfg.keys, key)))]
  }

  function KeyOf(kind: Kind, l: Layer, minute: int): string {
    CounterKey(kind, l.scope, l.id, minute)
  }

  /** Sixty times the estimated count at second `sec` of the minute. */
  function Estimate(curr: int, prev: int, sec: nat): int
    requires sec < 60
  {
    60 * curr + prev * (60 - sec)
  }

  /** Sixty times what a layer's counters come to, with `extra` added to the current minute. */
  function LayerEstimate(kind: Kind, c: Entries, l: Layer, extra: int, now: nat): int {
    Estimate(Counter(c, KeyOf(kind, l, Minute(now)), now) + extra,
             Counter(c, KeyOf(kind, l, Minute(now) - 1), now), SecondOf(now))
  }

  /** A layer lets one more request through. */
  predicate RpmPasses(c: Entries, l: Layer, now: nat) {
    l.limit <= 0 || LayerEstimate(Rpm, c, l, 1, now) <= 60 * l.limit
  }

  /** A layer still has tokens to spend. */
  predicate TpmPasses(c: Entries, l: Layer, now: nat) {
    l.limit <= 0 || LayerEstimate(Tpm, c, l, 0, now) < 60 * l.limit
  }

  /** The meaning of AllowRequest: every layer of both budgets passes on its own. */
  predicate Admissible(c: Entries, cfg: Config, model: string, key: string, now: nat) {
    && (forall l <- Layers(Rpm, cfg, model, key) :: RpmPasses(c, l, now))
    && (forall l <- Layers(Tpm, cfg, model, key) :: TpmPasses(c, l, now))
  }

  /** The counters an admitted request is charged to. */
  function Charged(ls: seq<Layer>, minute: int): seq<string> {
    if ls == [] then []
    else (if ls[0].limit > 0 then [KeyOf(Rpm, ls[0], minute)] else []) + Charged(ls[1..], minute)
  }

  /** Every reader from `now` on sees c's counter as c0's plus n. */
  ghost predicate Shifted(c0: Entries, c: Entries, key: string, n: int, now: nat) {
    match Live(c0, key, now)
    case Some(e) => key in c && c[key].expireAt == e.expireAt && ParseInt(c[key].value) == ParseInt(e.value) + n
    case None =>
      if Live(c, key, now).Some? then ParseInt(c[key].value) == n && c[key].expireAt == Some(now + TTL) else n == 0
  }

  /** c is c0 with each key's counter shifted by how often it is listed. */
  ghost predicate Tallied(c0: Entries, c: Entries, keys: seq<string>, now: nat) {
    forall k :: Shifted(c0, c, k, multiset(keys)[k], now)
  }

  lemma ShiftedCounter(c0: Entries, c: Entries, key: string, n: int, now: nat, later: nat)
    requires Shifted(c0, c, key, n, now) && now <= later
    ensures Counter(c, key, now) == Counter(c0, key, now) + n
    ensures n == 0 ==> Counter(c, key, later) == Counter(c0, key, later)
  {
  }

  lemma IncrementTallies(c0: Entries, c: Entries, keys: seq<string>, key: string, now: nat)
    requires Tallied(c0, c, keys, now)
    ensures Tallied(c0, Incremented(c, key, 1, TTL, now), keys + [key], now)
  {
    var c' := Incremented(c, key, 1, TTL, now);
    IncrementCounts(c, key, 1, TTL, now, key, now);
    forall k ensures Shifted(c0, c', k, multiset(keys + [key])[k], now) {
      assert Shifted(c0, c, k, multiset(keys)[k], now);
      assert multiset(keys + [key])[k] == multiset(keys)[k] + if k == key then 1 else 0;
    }
  }

  lemma UndoTallies(c0: Entries, c: Entries, keys: seq<string>, key: string, rest: seq<string>, now: nat)
    requires Tallied(c0, c, keys, now) && multiset(keys) == multiset(rest) + multiset{key}
    ensures Tallied(c0, Incremented(c, key, -1, TTL, now), rest, now)
  {
    var c' := Incremented(c, key, -1, TTL, now);
    IncrementCounts(c, key, -1, TTL, now, key, now);
    forall k ensures Shifted(c0, c', k, multiset(rest)[k], now) {
      assert Shifted(c0, c, k, multiset(keys)[k], now);
      assert multiset(keys)[k] == multiset(rest)[k] + if k == key then 1 else 0;
    }
  }

  /** The charges that stay when their undo writes, the first of them numbered `first`, fail. */
  function Leaked(keys: seq<string>, fails: nat -> bool, first: nat): seq<string> {
    if keys == [] then []
    else
      var n := |keys| - 1;
      Leaked(keys[..n], fails, first) + if fails(first + n) then [keys[n]] else []
  }

  /** One turn of the undo loop. */
  lemma UndoesNext(c0: Entries, c: Entries, keys: seq<string>, i: nat, fails: nat -> bool, first: nat, now: nat)
    requires i < |keys| && Tallied(c0, c, Leaked(keys[..i], fails, first) + keys[i..], now)
    ensures Tallied(c0, if fails(first + i) then c else Incremented(c, keys[i], -1, TTL, now),
                    Leaked(keys[..i + 1], fails, first) + keys[i + 1..], now)
  {
    var leaked := Leaked(keys[..i], fails, first);
    assert keys[..i + 1][..i] == keys[..i] && keys[i..] == [keys[i]] + keys[i + 1..];
    if fails(first + i) {
      assert Leaked(keys[..i + 1], fails, first) + keys[i + 1..] == leaked + keys[i..];
    } else {
      assert Leaked(keys[..i + 1], fails, first) == leaked;
      UndoTallies(c0, c, leaked + keys[i..], keys[i], leaked + keys[i + 1..], now);
    }
  }

  lemma {:induction false} NothingLeaked(keys: seq<string>, fails: nat -> bool, first: nat)
    requires forall w :: first <= w < first + |keys| ==> !fails(w)
    ensures Leaked(keys, fails, first) == []
  {
    if keys != [] { NothingLeaked(keys[..|keys| - 1], fails, first); }
  }

  lemma {:induction false} ChargedKeys(ls: seq<Layer>, minute: int, key: string)
    requires key in Charged(ls, minute)
    ensures exists l <- ls :: key == KeyOf(Rpm, l, minute)
  {
    if key != KeyOf(Rpm, ls[0], minute) || ls[0].limit <= 0 {
      ChargedKeys(ls[1..], minute, key);
      var l :| l in ls[1..] && key == KeyOf(Rpm, l, minute);
      assert l in ls;
    }
  }

  lemma {:induction false} ChargedAppend(ls: seq<Layer>, l: Layer, minute: int)
    ensures Charged(ls + [l], minute)
            == Charged(ls, minute) + if l.limit > 0 then [KeyOf(Rpm, l, minute)] else []
  {
    if ls == [] {
      assert ls + [l] == [l] && [l][1..] == [];
    } else {
      ChargedAppend(ls[1..], l, minute);
      assert (ls + [l])[1..] == ls[1..] + [l];
    }
  }

  lemma {:induction false} NothingCharged(ls: seq<Layer>, minute: int)
    requires forall l <- ls :: l.limit <= 0
    ensures Charged(ls, minute) == []
  {
    if ls != [] { NothingCharged(ls[1..], minute); }
  }

  /** A counter of another kind, scope or minute is not among those already charged. */
  lemma NotCharged(ls: seq<Layer>, minute: int, kind: Kind, l: Layer, m: int)
    requires kind != Rpm || m != minute || forall x <- ls :: x.scope != l.scope
    ensures KeyOf(kind, l, m) !in Charged(ls, minute)
  {
    if KeyOf(kind, l, m) in Charged(ls, minute) {
      ChargedKeys(ls, minute, KeyOf(kind, l, m));
      var x :| x in ls && KeyOf(kind, l, m) == KeyOf(Rpm, x, minute);
      KeysAreInjective(kind, l.scope, l.id, m, Rpm, x.scope, x.id, minute);
    }
  }

  /** So the earlier increments of the same call do not disturb what a later layer reads. */
  lemma ReadsThrough(c0: Entries, c: Entries, ls: seq<Layer>, kind: Kind, l: Layer, m: int, now: nat)
    requires Tallied(c0, c, Charged(ls, Minute(now)), now)
    requires kind != Rpm || m != Minute(now) || forall x <- ls :: x.scope != l.scope
    ensures Counter(c, KeyOf(kind, l, m), now) == Counter(c0, KeyOf(kind, l, m), now)
  {
    NotCharged(ls, Minute(now), kind, l, m);
    assert multiset(Charged(ls, Minute(now)))[KeyOf(kind, l, m)] == 0;
    ShiftedCounter(c0, c, KeyOf(kind, l, m), 0, now, now);
  }

  /** The counters that tokens are recorded in, in the order they are written. */
  function TokenKeys(model: string, key: string, minute: int): (ks: seq<string>)
    ensures |ks| == 3 && forall i, j :: 0 <= i < j < 3 ==> ks[i] != ks[j]
  {
    var g, m := CounterKey(Tpm, Global, "", minute), CounterKey(Tpm, Model, model, minute);
    var k := CounterKey(Tpm, Key, key, minute);
    assert g != m by { if g == m { KeysAreInjective(Tpm, Global, "", minute, Tpm, Model, model, minute); } }
    assert g != k by { if g == k { KeysAreInjective(Tpm, Global, "", minute, Tpm, Key, key, minute); } }
    assert m != k by { if m == k { KeysAreInjective(Tpm, Model, model, minute, Tpm, Key, key, minute); } }
    [g, m, k]
  }

  /** c is c0 with n added to the counters of the listed keys. */
  ghost predicate Raised(c0: Entries, c: Entries, keys: seq<string>, n: int, now: nat) {
    forall k :: Shifted(c0, c, k, if k in keys then n else 0, now)
  }

  lemma RaisesNext(c0: Entries, c: Entries, keys: seq<string>, key: string, n: int, now: nat)
    requires Raised(c0, c, keys, n, now) && key !in keys
    ensures Raised(c0, Incremented(c, key, n, TTL, now), keys + [key], n, now)
  {
    var c' := Incremented(c, key, n, TTL, now);
    IncrementCounts(c, key, n, TTL, now, key, now);
    forall k ensures Shifted(c0, c', k, if k in keys + [key] then n else 0, now) {
      assert Shifted(c0, c, k, if k in keys then n else 0, now);
      assert k in keys + [key] <==> k in keys || k == key;
    }
  }

  lemma RecordsNext(c0: Entries, c: Entries, keys: seq<string>, i: nat, n: int, now: nat)
    requires i < |keys| && Raised(c0, c, keys[..i], n, now)
    requires forall j, k :: 0 <= j < k < |keys| ==> keys[j] != keys[k]
    ensures Raised(c0, Incremented(c, keys[i], n, TTL, now), keys[..i + 1], n, now)
  {
    RaisesNext(c0, c, keys[..i], keys[i], n, now);
    assert keys[..i + 1] == keys[..i] + [keys[i]];
  }

  datatype Verdict =
    | Allowed
    | RpmExceeded(current: int, limit: int)
    | TpmExceeded(current: int, limit: int)
    | CacheError

  /** A request layer lets the call pass: it has no limit, or its charge succeeds and it has room. */
  ghost predicate Clear(c: Entries, ls: seq<Layer>, i: nat, fails: nat -> bool, now: nat)
    requires i < |ls|
  {
    ls[i].limit <= 0 || (!fails(|Charged(ls[..i], Minute(now))|) && RpmPasses(c, ls[i], now))
  }

  ghost predicate ClearUpTo(c: Entries, ls: seq<Layer>, n: nat, fails: nat -> bool, now: nat) {
    forall j :: 0 <= j < n && j < |ls| ==> Clear(c, ls, j, fails, now)
  }

  /** The verdict of the first request layer that stops the call: a cache error, or its estimate and limit. */
  ghost predicate BlamesRpm(c: Entries, ls: seq<Layer>, fails: nat -> bool, now: nat, v: Verdict) {
    exists i :: 0 <= i < |ls| && !Clear(c, ls, i, fails, now) && ClearUpTo(c, ls, i, fails, now)
                && v == LayerVerdict(c, ls, i, fails, now)
  }

  ghost function LayerVerdict(c: Entries, ls: seq<Layer>, i: nat, fails: nat -> bool, now: nat): Verdict
    requires i < |ls|
  {
    if fails(|Charged(ls[..i], Minute(now))|) then CacheError
    else if RpmPasses(c, ls[i], now) then Allowed
    else RpmExceeded(LayerEstimate(Rpm, c, ls[i], 1, now) / 60, ls[i].limit)
  }

  ghost predicate BlamesTpm(c: Entries, ls: seq<Layer>, now: nat, v: Verdict) {
    exists i :: 0 <= i < |ls| && !TpmPasses(c, ls[i], now) && (forall j :: 0 <= j < i ==> TpmPasses(c, ls[j], now))
                && v == TpmExceeded(LayerEstimate(Tpm, c, ls[i], 0, now) / 60, ls[i].limit)
  }

  lemma LayerJudged(c: Entries, ls: seq<Layer>, i: nat, fails: nat -> bool, now: nat)
    requires i < |ls| && ls[i].limit > 0 && ClearUpTo(c, ls, i, fails, now)
    ensures var v := LayerVerdict(c, ls, i, fails, now);
            && (v.Allowed? ==> ClearUpTo(c, ls, i + 1, fails, now))
            && (!v.Allowed? ==> !ClearUpTo(c, ls, |ls|, fails, now) && BlamesRpm(c, ls, fails, now, v))
  {
    if !LayerVerdict(c, ls, i, fails, now).Allowed? {
      assert !Clear(c, ls, i, fails, now);
    }
  }

  lemma {:induction false} ChargedPrefix(ls: seq<Layer>, i: nat, minute: int)
    requires i <= |ls|
    ensures Charged(ls[..i], minute) <= Charged(ls, minute)
  {
    if i > 0 {
      ChargedPrefix(ls[1..], i - 1, minute);
      assert ls[..i][1..] == ls[1..][..i - 1];
    }
  }

  lemma ChargedNext(ls: seq<Layer>, i: nat, minute: int)
    requires i < |ls|
    ensures ls[i].limit > 0 ==> Charged(ls[..i + 1], minute) == Charged(ls[..i], minute) + [KeyOf(Rpm, ls[i], minute)]
    ensures ls[i].limit <= 0 ==> Charged(ls[..i + 1], minute) == Charged(ls[..i], minute)
    ensures Charged(ls[..i], minute) <= Charged(ls[..i + 1], minute) <= Charged(ls, minute)
  {
    assert ls[..i + 1] == ls[..i] + [ls[i]];
    ChargedAppend(ls[..i], ls[i], minute);
    ChargedPrefix(ls, i + 1, minute);
  }

  lemma {:induction false} ChargeNumber(ls: seq<Layer>, w: nat, minute: int) returns (i: nat)
    requires w < |Charged(ls, minute)|
    ensures i < |ls| && ls[i].limit > 0 && |Charged(ls[..i], minute)| == w
  {
    var n := |ls| - 1;
    assert ls == ls[..n] + [ls[n]];
    ChargedAppend(ls[..n], ls[n], minute);
    if w < |Charged(ls[..n], minute)| {
      i := ChargeNumber(ls[..n], w, minute);
      assert ls[..n][..i] == ls[..i];
    } else {
      i := n;
    }
  }

  /** All request layers let the call pass if and only if each has room and no charge fails. */
  lemma ClearMeans(c: Entries, ls: seq<Layer>, fails: nat -> bool, now: nat)
    ensures ClearUpTo(c, ls, |ls|, fails, now) <==>
            && (forall l <- ls :: RpmPasses(c, l, now))
            && (forall w :: 0 <= w < |Charged(ls, Minute(now))| ==> !fails(w))
  {
    if ClearUpTo(c, ls, |ls|, fails, now) {
      forall l | l in ls ensures RpmPasses(c, l, now) {
        var i :| 0 <= i < |ls| && ls[i] == l;
        assert Clear(c, ls, i, fails, now);
      }
      forall w | 0 <= w < |Charged(ls, Minute(now))| ensures !fails(w) {
        var i := ChargeNumber(ls, w, Minute(now));
        assert Clear(c, ls, i, fails, now);
      }
    } else {
      var j :| 0 <= j < |ls| && !Clear(c, ls, j, fails, now);
      if RpmPasses(c, ls[j], now) {
        ChargedNext(ls, j, Minute(now));
        assert |Charged(ls[..j], Minute(now))| < |Charged(ls, Minute(now))|;
      }
    }
  }

  /** Charging the request counters does not change what the token layers read. */
  lemma TokensReadThrough(c0: Entries, c: Entries, ls: seq<Layer>, tpm: seq<Layer>, now: nat)
    requires Tallied(c0, c, Charged(ls, Minute(now)), now)
    ensures forall l :: LayerEstimate(Tpm, c, l, 0, now) == LayerEstimate(Tpm, c0, l, 0, now)
    ensures forall v :: BlamesTpm(c, tpm, now, v) ==> BlamesTpm(c0, tpm, now, v)
  {
    forall l ensures LayerEstimate(Tpm, c, l, 0, now) == LayerEstimate(Tpm, c0, l, 0, now) {
      ReadsThrough(c0, c, ls, Tpm, l, Minute(now), now);
      ReadsThrough(c0, c, ls, Tpm, l, Minute(now) as int - 1, now);
    }
    forall v | BlamesTpm(c, tpm, now, v) ensures BlamesTpm(c0, tpm, now, v) {
      var i :| 0 <= i < |tpm| && !TpmPasses(c, tpm[i], now) && (forall j :: 0 <= j < i ==> TpmPasses(c, tpm[j], now))
               && v == TpmExceeded(LayerEstimate(Tpm, c, tpm[i], 0, now) / 60, tpm[i].limit);
      assert !TpmPasses(c0, tpm[i], now) && (forall j :: 0 <= j < i ==> TpmPasses(c0, tpm[j], now));
    }
  }

  /** The number of a refused call's first undo write: a failed charge counts. */
  function FirstUndo(charges: seq<string>, v: Verdict): nat {
    |charges| + if v.CacheError? then 1 else 0
  }

  /** What a call leaves in the cache: its charges when it is admitted, and otherwise those whose undo fails. */
  ghost predicate Settled(c0: Entries, c: Entries, charges: seq<string>, v: Verdict, fails: nat -> bool, now: nat) {
    Tallied(c0, c, if v.Allowed? then charges else Leaked(charges, fails, FirstUndo(charges, v)), now)
  }

  lemma NothingLeft(c0: Entries, c: Entries, charges: seq<string>, v: Verdict, fails: nat -> bool, now: nat)
    requires Settled(c0, c, charges, v, fails, now)
    ensures !v.Allowed? && (forall w :: FirstUndo(charges, v) <= w ==> !fails(w)) ==> Tallied(c0, c, [], now)
  {
    if !v.Allowed? && (forall w :: FirstUndo(charges, v) <= w ==> !fails(w)) {
      NothingLeaked(charges, fails, FirstUndo(charges, v));
    }
  }

  predicate DistinctScopes(ls: seq<Layer>) {
    forall i, j :: 0 <= i < j < |ls| ==> ls[i].scope != ls[j].scope
  }

  /** The meaning of a verdict: admitted exactly when the request is admissible and no charge fails, and
      otherwise the verdict of the first layer that stops the call. */
  ghost predicate Judged(c: Entries, cfg: Config, model: string, key: string, fails: nat -> bool, now: nat,
                         v: Verdict)
  {
    var rpm := Layers(Rpm, cfg, model, key);
    && (v.Allowed? <==>
          && Admissible(c, cfg, model, key, now)
          && forall w :: 0 <= w < |Charged(rpm, Minute(now))| ==> !fails(w))
    && (v.RpmExceeded? || v.CacheError? ==> BlamesRpm(c, rpm, fails, now, v))
    && (v.TpmExceeded? ==>
          (forall l <- rpm :: RpmPasses(c, l, now)) && BlamesTpm(c, Layers(Tpm, cfg, model, key), now, v))
  }

  lemma NoLimits(c: Entries, cfg: Config, model: string, key: string, fails: nat -> bool, now: nat)
    requires forall l <- Layers(Rpm, cfg, model, key) :: l.limit <= 0
    requires forall l <- Layers(Tpm, cfg, model, key) :: l.limit <= 0
    ensures Charged(Layers(Rpm, cfg, model, key), Minute(now)) == []
    ensures Judged(c, cfg, model, key, fails, now, Allowed)
  {
    NothingCharged(Layers(Rpm, cfg, model, key), Minute(now));
  }

  lemma JudgedByRequests(c: Entries, cfg: Config, model: string, key: string, fails: nat -> bool, now: nat, v: Verdict)
    requires var rpm := Layers(Rpm, cfg, model, key);
             !ClearUpTo(c, rpm, |rpm|, fails, now) && BlamesRpm(c, rpm, fails, now, v) && !v.Allowed?
    ensures Judged(c, cfg, model, key, fails, now, v)
  {
    ClearMeans(c, Layers(Rpm, cfg, model, key), fails, now);
  }

  lemma JudgedByTokens(c0: Entries, c: Entries, cfg: Config, model: string, key: string, fails: nat -> bool, now: nat,
                       v: Verdict)
    requires var rpm := Layers(Rpm, cfg, model, key);
             ClearUpTo(c0, rpm, |rpm|, fails, now) && Tallied(c0, c, Charged(rpm, Minute(now)), now)
    requires var tpm := Layers(Tpm, cfg, model, key);
             && (v.Allowed? <==> forall l <- tpm :: TpmPasses(c, l, now))
             && (v.Allowed? || BlamesTpm(c, tpm, now, v))
    ensures Judged(c0, cfg, model, key, fails, now, v)
  {
    var rpm, tpm := Layers(Rpm, cfg, model, key), Layers(Tpm, cfg, model, key);
    ClearMeans(c0, rpm, fails, now);
    TokensReadThrough(c0, c, rpm, tpm, now);
    assert forall l <- tpm :: TpmPasses(c, l, now) <==> TpmPasses(c0, l, now);
  }

  class Limiter {
    const cache: MemoryCache
    const cfg: Config

    constructor (cache: MemoryCache, cfg: Config)
      ensures this.cache == cache && this.cfg == cfg
    {
      this.cache, this.cfg := cache, cfg;
    }

    method GetCount(key: string, now: nat) returns (n: int)
      ensures n == Counter(cache.entries, key, now)
    {
      var v := cache.Get(key, now);
      n := match v case None => 0 case Some(text) => ParseInt(text);
    }

    /** Takes the listed charges back, except those whose write fails; the first has the given number. */
    method Undo(keys: seq<string>, fails: nat -> bool, first: nat, ghost c0: Entries, now: nat)
      requires Tallied(c0, cache.entries, keys, now)
      modifies cache
      ensures Tallied(c0, cache.entries, Leaked(keys, fails, first), now)
    {
      assert [] + keys[0..] == keys;
      for i := 0 to |keys|
        invariant Tallied(c0, cache.entries, Leaked(keys[..i], fails, first) + keys[i..], now)
      {
        UndoesNext(c0, cache.entries, keys, i, fails, first, now);
        if !fails(first + i) {
          var _ := cache.IncrBy(keys[i], -1, TTL, now);
        }
      }
      assert keys[..|keys|] == keys;
      assert Leaked(keys, fails, first) + keys[|keys|..] == Leaked(keys, fails, first);
    }

    /** One turn of the first loop of AllowRequest, for a limited layer: it is judged by the counters
        of the time when the call began, because the layers before it were charged elsewhere. */
    method ChargeLayer(rpm: seq<Layer>, i: nat, fails: nat -> bool, ghost c0: Entries, now: nat)
      returns (verdict: Verdict)
      requires i < |rpm| && rpm[i].limit > 0 && DistinctScopes(rpm)
      requires Tallied(c0, cache.entries, Charged(rpm[..i], Minute(now)), now)
      modifies cache
      ensures verdict == LayerVerdict(c0, rpm, i, fails, now)
      ensures verdict.CacheError? ==> cache.entries == old(cache.entries)
      ensures !verdict.CacheError? ==>
                Tallied(c0, cache.entries, Charged(rpm[..i], Minute(now)) + [KeyOf(Rpm, rpm[i], Minute(now))], now)
    {
      var layer, minute: int := rpm[i], Minute(now);
      ReadsThrough(c0, cache.entries, rpm[..i], Rpm, layer, minute - 1, now);
      ReadsThrough(c0, cache.entries, rpm[..i], Rpm, layer, minute, now);
      IncrementTallies(c0, cache.entries, Charged(rpm[..i], minute), KeyOf(Rpm, layer, minute), now);
      var prev := GetCount(KeyOf(Rpm, layer, minute - 1), now);
      if fails(|Charged(rpm[..i], minute)|) { return CacheError; }
      var curr := cache.IncrBy(KeyOf(Rpm, layer, minute), 1, TTL, now);
      var estimate := Estimate(curr, prev, SecondOf(now));
      verdict := if estimate > 60 * layer.limit then RpmExceeded(estimate / 60, layer.limit) else Allowed;
    }

    /** A refused call takes its charges back. */
    method Settle(charges: seq<string>, verdict: Verdict, fails: nat -> bool, ghost c0: Entries, now: nat)
      requires Tallied(c0, cache.entries, charges, now)
      modifies cache
      ensures Settled(c0, cache.entries, charges, verdict, fails, now)
    {
      if !verdict.Allowed? { Undo(charges, fails, FirstUndo(charges, verdict), c0, now); }
    }

    /** A turn of the loop together with its early returns. */
    method ChargeTurn(rpm: seq<Layer>, i: nat, before: seq<string>, fails: nat -> bool, ghost c0: Entries, now: nat)
      returns (incremented: seq<string>, verdict: Verdict)
      requires i < |rpm| && rpm[i].limit > 0 && DistinctScopes(rpm)
      requires before == Charged(rpm[..i], Minute(now)) && Tallied(c0, cache.entries, before, now)
      requires ClearUpTo(c0, rpm, i, fails, now)
      modifies cache
      ensures incremented <= Charged(rpm, Minute(now)) && Settled(c0, cache.entries, incremented, verdict, fails, now)
      ensures verdict.Allowed? ==>
                ClearUpTo(c0, rpm, i + 1, fails, now) && incremented == Charged(rpm[..i + 1], Minute(now))
      ensures !verdict.Allowed? ==>
                !ClearUpTo(c0, rpm, |rpm|, fails, now) && BlamesRpm(c0, rpm, fails, now, verdict)
    {
      verdict := ChargeLayer(rpm, i, fails, c0, now);
      incremented := if verdict.CacheError? then before else before + [KeyOf(Rpm, rpm[i], Minute(now))];
      assert incremented <= Charged(rpm, Minute(now))
             && (verdict.Allowed? ==> incremented == Charged(rpm[..i + 1], Minute(now))) by {
        ChargedNext(rpm, i, Minute(now));
      }
      assert if verdict.Allowed? then ClearUpTo(c0, rpm, i + 1, fails, now)
             else !ClearUpTo(c0, rpm, |rpm|, fails, now) && BlamesRpm(c0, rpm, fails, now, verdict) by {
        LayerJudged(c0, rpm, i, fails, now);
      }
      Settle(incremented, verdict, fails, c0, now);
    }

    /** The first loop of AllowRequest: charges layer after layer. It ends with the first layer that stops
        the call, and then takes back what it had charged, some prefix of all charges. */
    method ChargeRequest(rpm: seq<Layer>, fails: nat -> bool, now: nat)
      returns (incremented: seq<string>, verdict: Verdict)
      requires DistinctScopes(rpm)
      modifies cache
      ensures verdict.Allowed? <==> old(ClearUpTo(cache.entries, rpm, |rpm|, fails, now))
      ensures verdict.Allowed? || BlamesRpm(old(cache.entries), rpm, fails, now, verdict)
      ensures incremented <= Charged(rpm, Minute(now))
      ensures verdict.Allowed? ==> incremented == Charged(rpm, Minute(now))
      ensures Settled(old(cache.entries), cache.entries, incremented, verdict, fails, now)
    {
      ghost var c0 := cache.entries;
      incremented, verdict := [], Allowed;
      for i := 0 to |rpm|
        invariant incremented == Charged(rpm[..i], Minute(now)) && verdict.Allowed?
        invariant Settled(c0, cache.entries, incremented, verdict, fails, now)
        invariant ClearUpTo(c0, rpm, i, fails, now)
      {
        if rpm[i].limit <= 0 {
          ChargedNext(rpm, i, Minute(now));
          continue;
        }
        incremented, verdict := ChargeTurn(rpm, i, incremented, fails, c0, now);
        if !verdict.Allowed? { return; }
      }
      assert rpm[..|rpm|] == rpm;
    }

    /** The second loop of AllowRequest: only reads. */
    method CheckTokens(tpm: seq<Layer>, now: nat) returns (verdict: Verdict)
      ensures verdict.Allowed? <==> forall l <- tpm :: TpmPasses(cache.entries, l, now)
      ensures verdict.Allowed? || BlamesTpm(cache.entries, tpm, now, verdict)
    {
      var minute: int := Minute(now);
      for i := 0 to |tpm|
        invariant forall j :: 0 <= j < i ==> TpmPasses(cache.entries, tpm[j], now)
      {
        var layer := tpm[i];
        if layer.limit <= 0 { continue; }
        var curr := GetCount(KeyOf(Tpm, layer, minute), now);
        var prev := GetCount(KeyOf(Tpm, layer, minute - 1), now);
        var estimate := Estimate(curr, prev, SecondOf(now));
        if estimate >= 60 * layer.limit {
          assert !TpmPasses(cache.entries, tpm[i], now);
          return TpmExceeded(estimate / 60, layer.limit);
        }
      }
      verdict := Allowed;
    }

    /** Admits exactly the admissible requests whose charges all reach the cache. An admitted one is
        charged once to each limited request counter that covers it. A rejected one leaves behind, as any
        reader from now on sees it, only those charges whose undo fails, so nothing if none does; no other
        key changes. */
    method AllowRequest(model: string, key: string, fails: nat -> bool, now: nat)
      returns (verdict: Verdict, ghost charges: seq<string>)
      modifies cache
      ensures Judged(old(cache.entries), cfg, model, key, fails, now, verdict)
      ensures var all := Charged(Layers(Rpm, cfg, model, key), Minute(now));
              charges <= all && (verdict.Allowed? || verdict.TpmExceeded? ==> charges == all)
      ensures Settled(old(cache.entries), cache.entries, charges, verdict, fails, now)
      ensures !verdict.Allowed? && (forall w :: FirstUndo(charges, verdict) <= w ==> !fails(w)) ==>
                Tallied(old(cache.entries), cache.entries, [], now)
    {
      ghost var c0 := cache.entries;
      var rpm, tpm := Layers(Rpm, cfg, model, key), Layers(Tpm, cfg, model, key);
      if rpm[0].limit <= 0 && tpm[0].limit <= 0 && rpm[1].limit <= 0 && tpm[1].limit <= 0
         && rpm[2].limit <= 0 && tpm[2].limit <= 0 {
        NoLimits(c0, cfg, model, key, fails, now);
        return Allowed, [];
      }
      var incremented;
      incremented, verdict := ChargeRequest(rpm, fails, now);
      charges := incremented;
      if verdict.Allowed? {
        ghost var c1 := cache.entries;
        verdict := CheckTokens(tpm, now);
        JudgedByTokens(c0, c1, cfg, model, key, fails, now, verdict);
        Settle(incremented, verdict, fails, c0, now);
      } else {
        JudgedByRequests(c0, cfg, model, key, fails, now, verdict);
      }
      NothingLeft(c0, cache.entries, charges, verdict, fails, now);
    }

    /** Adds the tokens to the global counter, the model's and the key's of the current minute, in this
        order and up to the first write that fails, and changes no other counter; nothing happens unless the
        number is positive. */
    method RecordTokens(key: string, model: string, tokens: int, fails: nat -> bool, now: nat)
      returns (ok: bool, ghost written: nat)
      modifies cache
      ensures tokens <= 0 ==> ok && cache.entries == old(cache.entries)
      ensures tokens > 0 ==>
                && written <= 3 && (ok <==> written == 3)
                && (forall i :: 0 <= i < written ==> !fails(i)) && (written < 3 ==> fails(written))
                && Raised(old(cache.entries), cache.entries, TokenKeys(model, key, Minute(now))[..written], tokens, now)
    {
      if tokens <= 0 { return true, 0; }
      ghost var c0 := cache.entries;
      var keys := TokenKeys(model, key, Minute(now));
      for i := 0 to 3
        invariant forall j :: 0 <= j < i ==> !fails(j)
        invariant Raised(c0, cache.entries, keys[..i], tokens, now)
      {
        if fails(i) { return false, i; }
        RecordsNext(c0, cache.entries, keys, i, tokens, now);
        var _ := cache.IncrBy(keys[i], tokens, TTL, now);
      }
      return true, 3;
    }
  }
}
