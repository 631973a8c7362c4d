/**
  A call of AllowRequest that runs alone. Its steps in the protocol, one cache operation after another,
  come to the same as the method Limiter.AllowRequest: the same verdict, and the same counters for every
  later reader.
 */
module LimiterAlone {
  import opened Basics
  import opened CounterKeys
  import opened MemoryCaches
  import opened Limiters
  import opened LimiterProtocol

  // ---- Stepping alone ---------------------------------------------------------------------

  predicate Movable(call: Check) {
    (call.pc.Charge? ==> call.rpm != []) && (call.pc.ReadTpmPrev? ==> call.tpm != [])
  }

  function Phase(call: Check): nat {
    if call.pc.Undoing? then 0 else 1
  }

  function StepsIn(call: Check): nat {
    match call.pc
    case ReadPrev => 2 * |call.rpm| + 2 * |call.tpm| + 3
    case Charge(_) => 2 * |call.rpm| + 2 * |call.tpm| + 2
    case ReadTpm => 2 * |call.tpm| + 1
    case ReadTpmPrev(_) => 2 * |call.tpm|
    case Undoing => |call.held|
  }

  function Done(c: Cells, f: Effect, now: nat): Cells {
    if f.Adds? then Bumped(c, f.site, f.delta, now) else c
  }

  /** The counters the call leaves, and whether it is admitted, when it takes all its steps at one
      instant and no other call does anything. */
  ghost function Alone(c: Cells, now: nat, call: Check): (Cells, bool)
    requires Movable(call)
    decreases Phase(call), StepsIn(call)
  {
    var t := Resumed(c, now, call);
    if t.next.Allowing? then Alone(Done(c, t.effect, now), now, t.next.call)
    else (Done(c, t.effect, now), t.note.Admits?)
  }

  /** A stretch of the machine's run in which only process p takes steps. */
  ghost predicate StepsOf(ss: seq<State>, es: seq<Event>, p: nat) {
    && |ss| == |es| + 1
    && forall i :: 0 <= i < |es| ==> es[i] == Advance(p) && Enabled(ss[i], es[i]) && ss[i + 1] == Next(ss[i], es[i])
  }

  lemma StepsFirst(s: State, ss: seq<State>, es: seq<Event>, p: nat)
    requires StepsOf(ss, es, p) && Enabled(s, Advance(p)) && ss[0] == Next(s, Advance(p))
    ensures StepsOf([s] + ss, [Advance(p)] + es, p)
  {
    var ss', es' := [s] + ss, [Advance(p)] + es;
    forall i | 0 <= i < |es'|
      ensures es'[i] == Advance(p) && Enabled(ss'[i], es'[i]) && ss'[i + 1] == Next(ss'[i], es'[i])
    {
      if i > 0 { assert es[i - 1] == Advance(p) && ss[i - 1 + 1] == Next(ss[i - 1], es[i - 1]); }
    }
  }

  lemma AdvanceAlone(s: State, p: nat, call: Check)
    requires p < |s.procs| && s.procs[p] == Allowing(call)
    ensures Enabled(s, Advance(p))
    ensures var t, s' := Resumed(s.cells, s.clock, call), Next(s, Advance(p));
            && s'.cells == Done(s.cells, t.effect, s.clock) && s'.clock == s.clock && s'.procs == s.procs[p := t.next]
            && |s'.admitted| == |s.admitted| + (if t.note.Admits? then 1 else 0)
            && (t.next.Allowing? ==> !t.note.Admits?)
  {
  }

  lemma {:induction false} AloneIsARun(s: State, p: nat, call: Check) returns (ss: seq<State>, es: seq<Event>)
    requires p < |s.procs| && s.procs[p] == Allowing(call) && Movable(call)
    ensures StepsOf(ss, es, p) && ss[0] == s
    ensures var end, r := ss[|es|], Alone(s.cells, s.clock, call);
            && end.cells == r.0 && end.procs == s.procs[p := Idle]
            && |end.admitted| == |s.admitted| + if r.1 then 1 else 0
    decreases Phase(call), StepsIn(call)
  {
    var t, s' := Resumed(s.cells, s.clock, call), Next(s, Advance(p));
    AdvanceAlone(s, p, call);
    if t.next.Allowing? {
      MovesOn(s.cells, s.clock, call);
      ss, es := AloneIsARun(s', p, t.next.call);
      StepsFirst(s, ss, es, p);
      ss, es := [s] + ss, [Advance(p)] + es;
      assert s'.procs[p := Idle] == s.procs[p := Idle];
    } else {
      StepsFirst(s, [s'], [], p);
      ss, es := [s] + [s'], [Advance(p)] + [];
      EndsIdle(s.cells, s.clock, call);
    }
  }

  lemma MovesOn(c: Cells, now: nat, call: Check)
    requires Movable(call) && Resumed(c, now, call).next.Allowing?
    ensures var next := Resumed(c, now, call).next.call;
            && Movable(next)
            && (Phase(next) < Phase(call) || (Phase(next) == Phase(call) && StepsIn(next) < StepsIn(call)))
  {
  }

  lemma EndsIdle(c: Cells, now: nat, call: Check)
    ensures Resumed(c, now, call).next.Allowing? || Resumed(c, now, call).next.Idle?
  {
  }

  // ---- What the counters become ---------------------------------------------------------------

  /** Every reader from `now` on sees d's counter as d0's plus n. */
  ghost predicate CellShifted(d0: Cells, d: Cells, y: Site, n: int, now: nat) {
    if y in d0 && now <= d0[y].expireAt then y in d && d[y] == Cell(d0[y].value + n, d0[y].expireAt)
    else if y in d && now <= d[y].expireAt then d[y] == Cell(n, now + TTL)
    else n == 0
  }

  ghost predicate CellsTallied(d0: Cells, d: Cells, held: seq<Site>, now: nat) {
    forall y :: CellShifted(d0, d, y, multiset(held)[y], now)
  }

  lemma CellsBumped(d0: Cells, d: Cells, held: seq<Site>, x: Site, delta: int, held': seq<Site>, now: nat)
    requires CellsTallied(d0, d, held, now)
    requires forall y :: multiset(held')[y] == multiset(held)[y] + if x == y then delta else 0
    ensures CellsTallied(d0, Bumped(d, x, delta, now), held', now)
  {
    forall y ensures CellShifted(d0, Bumped(d, x, delta, now), y, multiset(held')[y], now) {
      assert CellShifted(d0, d, y, multiset(held)[y], now);
    }
  }

  lemma CountOfTallied(d0: Cells, d: Cells, held: seq<Site>, y: Site, now: nat)
    requires CellsTallied(d0, d, held, now)
    ensures Count(d, y, now) == Count(d0, y, now) + multiset(held)[y]
  {
    assert CellShifted(d0, d, y, multiset(held)[y], now);
  }

  // ---- What the call decides ------------------------------------------------------------------

  predicate PassesRpm(d: Cells, l: Layer, now: nat) {
    Estimate(Count(d, At(Rpm, l, Minute(now)), now) + 1, Count(d, At(Rpm, l, Minute(now) - 1), now), SecondOf(now))
    <= 60 * l.limit
  }

  predicate PassesTpm(d: Cells, l: Layer, now: nat) {
    Estimate(Count(d, At(Tpm, l, Minute(now)), now), Count(d, At(Tpm, l, Minute(now) - 1), now), SecondOf(now))
    < 60 * l.limit
  }

  /** The call, which began on d0, is somewhere on its way: it has read and charged what it should. */
  ghost predicate OnItsWay(d0: Cells, d: Cells, now: nat, call: Check) {
    && call.start == now && Movable(call) && CellsTallied(d0, d, call.held, now)
    && (forall x <- call.held :: x.kind == Rpm && x.minute == Minute(now))
    && (!call.pc.Undoing? ==> call.held + SitesOf(call.rpm, Minute(now)) == SitesOf(call.allRpm, Minute(now)))
    && (forall y :: multiset(SitesOf(call.allRpm, Minute(now)))[y] <= 1)
    && (call.pc.Charge? ==> call.pc.prev == Count(d0, At(Rpm, call.rpm[0], Minute(now) - 1), now))
    && (call.pc.ReadTpm? || call.pc.ReadTpmPrev? ==> call.rpm == [])
    && (call.pc.ReadTpmPrev? ==> call.pc.curr == Count(d0, At(Tpm, call.tpm[0], Minute(now)), now))
  }

  /** What is left of the call will let it pass. */
  ghost predicate WillPass(d0: Cells, now: nat, call: Check) {
    && !call.pc.Undoing?
    && (forall l <- call.rpm :: PassesRpm(d0, l, now)) && (forall l <- call.tpm :: PassesTpm(d0, l, now))
  }

  lemma ReadsAsBegun(d0: Cells, d: Cells, now: nat, call: Check, y: Site)
    requires OnItsWay(d0, d, now, call) && (y.kind == Tpm || y.minute != Minute(now))
    ensures Count(d, y, now) == Count(d0, y, now)
  {
    CountOfTallied(d0, d, call.held, y, now);
    assert y !in call.held;
  }

  lemma FirstOfTheRest(held: seq<Site>, x: Site, rest: seq<Site>, all: seq<Site>)
    requires held + ([x] + rest) == all && multiset(all)[x] <= 1
    ensures held + [x] + rest == all && multiset(held)[x] == 0
  {
    assert held + [x] + rest == all;
    assert multiset(held + [x] + rest)[x] == multiset(held)[x] + 1 + multiset(rest)[x];
  }

  lemma CellsCharged(d0: Cells, d: Cells, held: seq<Site>, x: Site, now: nat)
    requires CellsTallied(d0, d, held, now) && multiset(held)[x] == 0
    ensures CellsTallied(d0, Bumped(d, x, 1, now), held + [x], now)
    ensures Count(Bumped(d, x, 1, now), x, now) == Count(d0, x, now) + 1
  {
    CountOfTallied(d0, d, held, x, now);
    forall y ensures multiset(held + [x])[y] == multiset(held)[y] + if x == y then 1 else 0 {}
    CellsBumped(d0, d, held, x, 1, held + [x], now);
  }

  lemma ChargeTallied(d0: Cells, d: Cells, now: nat, call: Check, x: Site, rest: seq<Site>)
    requires OnItsWay(d0, d, now, call) && call.pc.Charge?
    requires x == At(Rpm, call.rpm[0], Minute(now)) && rest == SitesOf(call.rpm[1..], Minute(now))
    ensures CellsTallied(d0, Bumped(d, x, 1, now), call.held + [x], now)
    ensures Count(Bumped(d, x, 1, now), x, now) == Count(d0, x, now) + 1
    ensures call.held + [x] + rest == SitesOf(call.allRpm, Minute(now))
  {
    FirstOfTheRest(call.held, x, rest, SitesOf(call.allRpm, Minute(now)));
    CellsCharged(d0, d, call.held, x, now);
  }

  lemma ChargeJudges(d0: Cells, d: Cells, now: nat, call: Check, x: Site)
    requires call.start == now && call.pc.Charge? && call.rpm != [] && x == At(Rpm, call.rpm[0], Minute(now))
    requires call.pc.prev == Count(d0, At(Rpm, call.rpm[0], Minute(now) - 1), now)
    requires Count(Bumped(d, x, 1, now), x, now) == Count(d0, x, now) + 1
    ensures Resumed(d, now, call)
            == Turn(Allowing(if PassesRpm(d0, call.rpm[0], now)
                             then call.(held := call.held + [x], pc := ReadPrev, rpm := call.rpm[1..])
                             else call.(held := call.held + [x], pc := Undoing)), Adds(x, 1), NoNote)
  {
  }

  lemma ChargeStep(d0: Cells, d: Cells, now: nat, call: Check)
    requires OnItsWay(d0, d, now, call) && call.pc.Charge?
    ensures var t := Resumed(d, now, call);
            && t.next.Allowing? && OnItsWay(d0, Done(d, t.effect, now), now, t.next.call)
            && (WillPass(d0, now, call) <==> WillPass(d0, now, t.next.call))
            && t.next.call.allRpm == call.allRpm
  {
    var x, rest := At(Rpm, call.rpm[0], Minute(now)), SitesOf(call.rpm[1..], Minute(now));
    ChargeTallied(d0, d, now, call, x, rest);
    ChargeJudges(d0, d, now, call, x);
    assert call.rpm == [call.rpm[0]] + call.rpm[1..];
  }

  lemma UndoStep(d0: Cells, d: Cells, now: nat, call: Check)
    requires OnItsWay(d0, d, now, call) && call.pc.Undoing? && call.held != []
    ensures var t := Resumed(d, now, call);
            t.next.Allowing? && OnItsWay(d0, Done(d, t.effect, now), now, t.next.call) && t.next.call.pc.Undoing?
  {
    assert call.held == [call.held[0]] + call.held[1..];
    forall y ensures multiset(call.held[1..])[y] == multiset(call.held)[y] + if call.held[0] == y then -1 else 0 {}
    CellsBumped(d0, d, call.held, call.held[0], -1, call.held[1..], now);
  }

  /** What a step that only reads comes to. */
  ghost predicate ReadsOn(d0: Cells, d: Cells, now: nat, call: Check, t: Turn) {
    && t.effect == NoWrite && t.next.Allowing?
    && OnItsWay(d0, d, now, t.next.call) && t.next.call.allRpm == call.allRpm
    && (WillPass(d0, now, call) <==> WillPass(d0, now, t.next.call))
  }

  lemma ReadPrevStep(d0: Cells, d: Cells, now: nat, call: Check)
    requires OnItsWay(d0, d, now, call) && call.pc.ReadPrev?
    ensures ReadsOn(d0, d, now, call, Resumed(d, now, call))
  {
    if call.rpm != [] { ReadsAsBegun(d0, d, now, call, At(Rpm, call.rpm[0], Minute(now) - 1)); }
  }

  lemma ReadTpmStep(d0: Cells, d: Cells, now: nat, call: Check)
    requires OnItsWay(d0, d, now, call) && call.pc.ReadTpm? && call.tpm != []
    ensures ReadsOn(d0, d, now, call, Resumed(d, now, call))
  {
    ReadsAsBegun(d0, d, now, call, At(Tpm, call.tpm[0], Minute(now)));
  }

  lemma TokensJudge(d0: Cells, d: Cells, now: nat, call: Check)
    requires call.start == now && call.pc.ReadTpmPrev? && call.tpm != []
    requires call.pc.curr == Count(d0, At(Tpm, call.tpm[0], Minute(now)), now)
    requires var y := At(Tpm, call.tpm[0], Minute(now) - 1); Count(d, y, now) == Count(d0, y, now)
    ensures Resumed(d, now, call)
            == Turn(Allowing(if PassesTpm(d0, call.tpm[0], now)
                             then call.(pc := ReadTpm, tpm := call.tpm[1..], passed := call.passed + [call.tpm[0]])
                             else call.(pc := Undoing)), NoWrite, NoNote)
  {
  }

  lemma StillOnItsWay(d0: Cells, d: Cells, now: nat, call: Check, next: Check)
    requires OnItsWay(d0, d, now, call) && call.pc.ReadTpmPrev? && (next.pc.ReadTpm? || next.pc.Undoing?)
    requires next.start == call.start && next.held == call.held && next.rpm == call.rpm && next.allRpm == call.allRpm
    ensures OnItsWay(d0, d, now, next)
  {
  }

  lemma TokenLayersLeft(d0: Cells, now: nat, tpm: seq<Layer>)
    requires tpm != []
    ensures (forall l <- tpm :: PassesTpm(d0, l, now))
            <==> PassesTpm(d0, tpm[0], now) && forall l <- tpm[1..] :: PassesTpm(d0, l, now)
  {
    assert tpm == [tpm[0]] + tpm[1..];
    assert tpm[0] in tpm;
  }

  /** Past its look at the tokens, the call has the first token layer off its list, or undoes. */
  lemma WillPassOn(d0: Cells, now: nat, call: Check, next: Check)
    requires call.pc.ReadTpmPrev? && call.tpm != [] && next.rpm == call.rpm
    requires if PassesTpm(d0, call.tpm[0], now) then next.pc.ReadTpm? && next.tpm == call.tpm[1..] else next.pc.Undoing?
    ensures WillPass(d0, now, call) <==> WillPass(d0, now, next)
  {
    TokenLayersLeft(d0, now, call.tpm);
  }

  lemma ReadTpmPrevStep(d0: Cells, d: Cells, now: nat, call: Check)
    requires OnItsWay(d0, d, now, call) && call.pc.ReadTpmPrev?
    ensures ReadsOn(d0, d, now, call, Resumed(d, now, call))
  {
    var next := if PassesTpm(d0, call.tpm[0], now)
                then call.(pc := ReadTpm, tpm := call.tpm[1..], passed := call.passed + [call.tpm[0]])
                else call.(pc := Undoing);
    ReadsAsBegun(d0, d, now, call, At(Tpm, call.tpm[0], Minute(now) - 1));
    TokensJudge(d0, d, now, call);
    StillOnItsWay(d0, d, now, call, next);
    WillPassOn(d0, now, call, next);
  }

  /** Alone, the call is admitted exactly when every layer still ahead of it has room, and leaves its
      charges then and nothing otherwise. */
  lemma {:induction false} AloneMeans(d0: Cells, d: Cells, now: nat, call: Check)
    requires OnItsWay(d0, d, now, call)
    ensures Alone(d, now, call).1 <==> WillPass(d0, now, call)
    ensures CellsTallied(d0, Alone(d, now, call).0,
                         if WillPass(d0, now, call) then SitesOf(call.allRpm, Minute(now)) else [], now)
    decreases Phase(call), StepsIn(call)
  {
    var t := Resumed(d, now, call);
    if call.pc.Charge? {
      ChargeStep(d0, d, now, call);
      AloneMeans(d0, Done(d, t.effect, now), now, t.next.call);
    } else if call.pc.Undoing? {
      if call.held != [] {
        UndoStep(d0, d, now, call);
        AloneMeans(d0, Done(d, t.effect, now), now, t.next.call);
      }
    } else if call.pc.ReadTpm? && call.tpm == [] {
      assert call.held + [] == call.held;
    } else {
      if call.pc.ReadPrev? { ReadPrevStep(d0, d, now, call); }
      else if call.pc.ReadTpm? { ReadTpmStep(d0, d, now, call); }
      else { ReadTpmPrevStep(d0, d, now, call); }
      MovesOn(d, now, call);
      AloneMeans(d0, d, now, t.next.call);
    }
  }

  // ---- Against the method -----------------------------------------------------------------------

  lemma BegunIsOnItsWay(cfg: Config, d: Cells, now: nat, model: string, key: string)
    ensures OnItsWay(d, d, now, Begun(cfg, d, now, model, key))
  {
    var call := Begun(cfg, d, now, model, key);
    var a := Admission(now, model, key, d);
    forall y ensures multiset(SitesOf(call.allRpm, Minute(now)))[y] <= 1 {
      ChargedOnce(cfg, a, y);
    }
    assert [] + SitesOf(call.rpm, Minute(now)) == SitesOf(call.allRpm, Minute(now));
  }

  lemma SameReadings(c: Entries, d: Cells, kind: Kind, l: Layer, minute: int, now: nat)
    requires Represents(c, d)
    ensures Counter(c, KeyOf(kind, l, minute), now) == Count(d, At(kind, l, minute), now)
  {
    CacheRepresents(c, d, At(kind, l, minute), 0, now);
  }

  /** The call will pass exactly when the request is admissible. */
  lemma WillPassMeans(c: Entries, d: Cells, cfg: Config, model: string, key: string, now: nat)
    requires Represents(c, d)
    ensures WillPass(d, now, Begun(cfg, d, now, model, key)) <==> Admissible(c, cfg, model, key, now)
  {
    forall l: Layer | l.limit > 0
      ensures RpmPasses(c, l, now) <==> PassesRpm(d, l, now)
      ensures TpmPasses(c, l, now) <==> PassesTpm(d, l, now)
    {
      SameJudgement(c, d, l, now);
    }
  }

  lemma SameJudgement(c: Entries, d: Cells, l: Layer, now: nat)
    requires Represents(c, d) && l.limit > 0
    ensures RpmPasses(c, l, now) <==> PassesRpm(d, l, now)
    ensures TpmPasses(c, l, now) <==> PassesTpm(d, l, now)
  {
    SameReadings(c, d, Rpm, l, Minute(now), now);
    SameReadings(c, d, Rpm, l, Minute(now) as int - 1, now);
    SameReadings(c, d, Tpm, l, Minute(now), now);
    SameReadings(c, d, Tpm, l, Minute(now) as int - 1, now);
  }

  lemma {:induction false} SameCharges(ls: seq<Layer>, minute: int, y: Site)
    ensures multiset(Charged(ls, minute))[SiteKey(y)] == multiset(SitesOf(Limited(ls), minute))[y]
  {
    if ls != [] {
      SameCharges(ls[1..], minute, y);
      SitesOfLimited(ls, minute, y);
      if ls[0].limit > 0 && KeyOf(Rpm, ls[0], minute) == SiteKey(y) {
        KeysAreInjective(Rpm, ls[0].scope, ls[0].id, minute, y.kind, y.scope, y.id, y.minute);
      }
    }
  }

  lemma SameCounters(c: Entries, c': Entries, d: Cells, d': Cells, y: Site, n: int, now: nat, later: nat)
    requires Represents(c, d) && Shifted(c, c', SiteKey(y), n, now) && CellShifted(d, d', y, n, now) && now <= later
    ensures Counter(c', SiteKey(y), later) == Count(d', y, later)
  {
    assert y in d <==> SiteKey(y) in c;
  }

  /** Alone, the protocol's call and the method agree: on a cache that represents the counters, the call
      is admitted if and only if the request is admissible, and any cache that meets the method's
      contract for that verdict reads, for every counter and at every later time, what the call's counters
      read. */
  lemma AloneIsTheMethod(c: Entries, d: Cells, cfg: Config, model: string, key: string, now: nat,
                         c': Entries, y: Site, later: nat)
    requires Represents(c, d) && now <= later
    requires var charges := if Admissible(c, cfg, model, key, now)
                            then Charged(Layers(Rpm, cfg, model, key), Minute(now)) else [];
             Tallied(c, c', charges, now)
    ensures var r := Alone(d, now, Begun(cfg, d, now, model, key));
            && (r.1 <==> Admissible(c, cfg, model, key, now))
            && Counter(c', SiteKey(y), later) == Count(r.0, y, later)
  {
    var call := Begun(cfg, d, now, model, key);
    BegunIsOnItsWay(cfg, d, now, model, key);
    AloneMeans(d, d, now, call);
    WillPassMeans(c, d, cfg, model, key, now);
    SameCharges(Layers(Rpm, cfg, model, key), Minute(now), y);
    var r := Alone(d, now, call);
    var n := if r.1 then multiset(SitesOf(call.allRpm, Minute(now)))[y] else 0;
    assert CellShifted(d, r.0, y, n, now);
    assert Shifted(c, c', SiteKey(y), n, now);
    SameCounters(c, c', d, r.0, y, n, now, later);
  }

  /** The method itself, on a cache that represents the counters and whose writes succeed: the verdict and
      all readings afterwards are those of the protocol's call. */
  method AllowAlone(limiter: Limiter, ghost d: Cells, model: string, key: string, now: nat) returns (verdict: Verdict)
    requires Represents(limiter.cache.entries, d)
    modifies limiter.cache
    ensures var r := Alone(d, now, Begun(limiter.cfg, d, now, model, key));
            && (verdict.Allowed? <==> r.1)
            && forall y, later: nat :: now <= later ==>
                 Counter(limiter.cache.entries, SiteKey(y), later) == Count(r.0, y, later)
  {
    ghost var c, cfg := limiter.cache.entries, limiter.cfg;
    ghost var charges;
    verdict, charges := limiter.AllowRequest(model, key, w => false, now);
    forall y, later: nat | now <= later
      ensures var r := Alone(d, now, Begun(cfg, d, now, model, key));
              && (verdict.Allowed? <==> r.1)
              && Counter(limiter.cache.entries, SiteKey(y), later) == Count(r.0, y, later)
    {
      AloneIsTheMethod(c, d, cfg, model, key, now, limiter.cache.entries, y, later);
    }
    ghost var any := Site(Rpm, Global, "", 0);
    AloneIsTheMethod(c, d, cfg, model, key, now, limiter.cache.entries, any, now);
  }
}
