/**
  Runs of the interleaved rate limiter measured by the lag of their steps and by the time of their
  admissions, and the building blocks of runs that show what can happen: a limiter with a global request
  limit only, stepped from state to state.
 */
module LimiterRuns {
  import opened Basics
  import opened CounterKeys
  import opened Limiters
  import opened LimiterProtocol

  // ---- Lag -----------------------------------------------------------------------------------

  /** The step comes no later than b after the start of the minute that its call read. */
  predicate Prompt(s: State, e: Event, b: int)
    requires Enabled(s, e)
  {
    e.Advance? || e.WriteRecord? ==> s.clock - 60 * Minute(StartOf(s.procs[e.p])) * SECOND <= b
  }

  ghost predicate PromptRun(ss: seq<State>, es: seq<Event>, b: int) {
    Run(ss, es) && forall i :: 0 <= i < |es| ==> Prompt(ss[i], es[i], b)
  }

  lemma PromptIsTimely(ss: seq<State>, es: seq<Event>, b: int)
    requires PromptRun(ss, es, b) && b <= 61 * SECOND
    ensures TimelyRun(ss, es)
  {
    forall i | 0 <= i < |es| ensures InTime(ss[i], es[i]) {
      assert Prompt(ss[i], es[i], b);
    }
  }

  lemma MorePrompt(ss: seq<State>, es: seq<Event>, b: int, b': int)
    requires PromptRun(ss, es, b) && b <= b'
    ensures PromptRun(ss, es, b')
  {
    forall i | 0 <= i < |es| ensures Prompt(ss[i], es[i], b') {
      assert Prompt(ss[i], es[i], b);
    }
  }

  // ---- Admissions by the time they are made -----------------------------------------------------

  function Layered(scope: Scope, id: string, minute: int): Site {
    Site(Rpm, scope, id, minute)
  }

  /** The step from s to s' admits a call of the layer, within the sixty seconds from t. */
  ghost predicate AdmitsIn(s: State, s': State, scope: Scope, id: string, t: nat) {
    && |s'.admitted| > |s.admitted| && t <= s.clock < t + 60 * SECOND
    && var a := s'.admitted[|s'.admitted| - 1]; Covers(s.cfg, a, Layered(scope, id, Minute(a.start)))
  }

  /** How many admissions of one layer the first n steps make within the sixty seconds from t. */
  ghost function MadeIn(ss: seq<State>, n: nat, scope: Scope, id: string, t: nat): nat
    requires n < |ss|
  {
    if n == 0 then 0
    else MadeIn(ss, n - 1, scope, id, t) + if AdmitsIn(ss[n - 1], ss[n], scope, id, t) then 1 else 0
  }

  lemma {:induction false} MadeInPrefix(ss: seq<State>, s': State, n: nat, scope: Scope, id: string, t: nat)
    requires n < |ss|
    ensures MadeIn(ss + [s'], n, scope, id, t) == MadeIn(ss, n, scope, id, t)
  {
    if n > 0 { MadeInPrefix(ss, s', n - 1, scope, id, t); }
  }

  // ---- Building runs --------------------------------------------------------------------------------

  ghost predicate LeadsTo(ss: seq<State>, es: seq<Event>, b: int, t: nat, s: State, n: nat) {
    PromptRun(ss, es, b) && ss[|es|] == s && MadeIn(ss, |es|, Global, "", t) == n
  }

  /** Some run with the given lag leads to s and makes n global admissions in the sixty seconds from t. */
  ghost predicate Reachable(lag: int, t: nat, s: State, n: nat) {
    exists ss, es :: LeadsTo(ss, es, lag, t, s, n)
  }

  /** So does one for every lag of at least b. */
  ghost predicate CanReach(b: int, t: nat, s: State, n: nat) {
    forall lag :: b <= lag ==> Reachable(lag, t, s, n)
  }

  lemma CanStart(b: int, t: nat, s: State)
    requires Init(s)
    ensures CanReach(b, t, s, 0)
  {
    forall lag | b <= lag ensures Reachable(lag, t, s, 0) {
      assert LeadsTo([s], [], lag, t, s, 0);
    }
  }

  lemma RunGrows(ss: seq<State>, es: seq<Event>, b: int, e: Event, s': State)
    requires PromptRun(ss, es, b) && Enabled(ss[|es|], e) && Prompt(ss[|es|], e, b) && s' == Next(ss[|es|], e)
    ensures PromptRun(ss + [s'], es + [e], b)
  {
    var ss', es' := ss + [s'], es + [e];
    forall i | 0 <= i < |es'|
      ensures Enabled(ss'[i], es'[i]) && ss'[i + 1] == Next(ss'[i], es'[i]) && Prompt(ss'[i], es'[i], b)
    {
      if i < |es| {
        assert Enabled(ss[i], es[i]) && ss[i + 1] == Next(ss[i], es[i]) && Prompt(ss[i], es[i], b);
      }
    }
  }

  lemma MadeInGrows(ss: seq<State>, s': State, scope: Scope, id: string, t: nat)
    requires ss != []
    ensures MadeIn(ss + [s'], |ss|, scope, id, t)
            == MadeIn(ss, |ss| - 1, scope, id, t) + if AdmitsIn(ss[|ss| - 1], s', scope, id, t) then 1 else 0
  {
    MadeInPrefix(ss, s', |ss| - 1, scope, id, t);
  }

  lemma LeadsFurther(ss: seq<State>, es: seq<Event>, lag: int, t: nat, s: State, n: nat, e: Event, s': State, n': nat)
    requires LeadsTo(ss, es, lag, t, s, n) && Enabled(s, e) && Prompt(s, e, lag) && s' == Next(s, e)
    requires n' == n + if AdmitsIn(s, s', Global, "", t) then 1 else 0
    ensures LeadsTo(ss + [s'], es + [e], lag, t, s', n')
  {
    RunGrows(ss, es, lag, e, s');
    MadeInGrows(ss, s', Global, "", t);
  }

  lemma CanStepWithLag(lag: int, t: nat, s: State, n: nat, e: Event, s': State, n': nat)
    requires Reachable(lag, t, s, n) && Enabled(s, e) && Prompt(s, e, lag) && s' == Next(s, e)
    requires n' == n + if AdmitsIn(s, s', Global, "", t) then 1 else 0
    ensures Reachable(lag, t, s', n')
  {
    var ss, es :| LeadsTo(ss, es, lag, t, s, n);
    LeadsFurther(ss, es, lag, t, s, n, e, s', n');
  }

  lemma LongerLag(s: State, e: Event, b: int, lag: int)
    requires Enabled(s, e) && Prompt(s, e, b) && b <= lag
    ensures Prompt(s, e, lag)
  {
  }

  lemma CanStep(b: int, t: nat, s: State, n: nat, e: Event, s': State)
    requires CanReach(b, t, s, n) && Enabled(s, e) && Prompt(s, e, b) && s' == Next(s, e)
    ensures CanReach(b, t, s', n + if AdmitsIn(s, s', Global, "", t) then 1 else 0)
  {
    var n' := n + if AdmitsIn(s, s', Global, "", t) then 1 else 0;
    forall lag | b <= lag ensures Reachable(lag, t, s', n') {
      assert Reachable(lag, t, s, n);
      LongerLag(s, e, b, lag);
      CanStepWithLag(lag, t, s, n, e, s', n');
    }
  }

  // ---- A global limit -----------------------------------------------------------------------------------

  function OnlyGlobal(limit: Positive): Config {
    Config(Limits(limit, 0), map[], map[])
  }

  function Room(limit: Positive): seq<Layer> {
    [Layer(Global, "", limit)]
  }

  function Only(minute: int): Site {
    Site(Rpm, Global, "", minute)
  }

  lemma OneLayer(limit: Positive)
    ensures LimitedLayers(Rpm, OnlyGlobal(limit), "", "") == Room(limit)
    ensures LimitedLayers(Tpm, OnlyGlobal(limit), "", "") == []
  {
    var g, m, k := Layer(Global, "", limit), Layer(Model, "", 0), Layer(Key, "", 0);
    assert Layers(Rpm, OnlyGlobal(limit), "", "") == [g, m, k];
    assert [g, m, k][1..] == [m, k] && [m, k][1..] == [k] && [k][1..] == [];
    assert Limited([k]) == [] + Limited([k][1..]) == [];
    assert Limited([m, k]) == [] + Limited([m, k][1..]) == [];
    var g' := Layer(Global, "", 0);
    assert Layers(Tpm, OnlyGlobal(limit), "", "") == [g', m, k];
    assert [g', m, k][1..] == [m, k];
  }

  /** A call that began at `start`, when the counters were `atStart`. */
  datatype Caller = Caller(limit: Positive, start: nat, atStart: Cells) {
    /** The call at a later point. */
    function At(rpm: seq<Layer>, held: seq<Site>, pc: Pc): Proc {
      Allowing(Check(start, "", "", Room(limit), [], rpm, [], held, [], pc, atStart))
    }
    function First(): Proc {
      At(Room(limit), [], ReadPrev)
    }
    /** It has found nothing in the minute before its own. */
    function Ready(): Proc {
      At(Room(limit), [], Charge(0))
    }
    function Admission(): Admission {
      LimiterProtocol.Admission(start, "", "", atStart)
    }
    function Counter(): Site {
      Only(Minute(start))
    }
    predicate Lags(clock: nat, b: int) {
      clock - 60 * Minute(start) * SECOND <= b
    }
  }

  lemma CanTick(b: int, t: nat, s: State, n: nat, now: nat)
    requires CanReach(b, t, s, n) && s.clock <= now
    ensures CanReach(b, t, s.(clock := now), n)
  {
    CanStep(b, t, s, n, Tick(now), s.(clock := now));
  }

  lemma CanBegin(b: int, t: nat, s: State, n: nat, p: nat, call: Caller)
    requires CanReach(b, t, s, n) && p < |s.procs| && s.procs[p] == Idle
    requires s.cfg == OnlyGlobal(call.limit) && call.start == s.clock && call.atStart == s.cells
    ensures CanReach(b, t, s.(procs := s.procs[p := call.First()]), n)
  {
    OneLayer(call.limit);
    assert Allowing(Begun(s.cfg, s.cells, s.clock, "", "")) == call.First();
    CanStep(b, t, s, n, Begin(p, "", ""), s.(procs := s.procs[p := call.First()]));
  }

  lemma CanRead(b: int, t: nat, s: State, n: nat, p: nat, call: Caller)
    requires CanReach(b, t, s, n) && p < |s.procs| && s.procs[p] == call.First() && call.Lags(s.clock, b)
    requires Count(s.cells, Only(Minute(call.start) - 1), s.clock) == 0
    ensures CanReach(b, t, s.(procs := s.procs[p := call.Ready()]), n)
  {
    assert Resumed(s.cells, s.clock, call.First().call) == Turn(call.Ready(), NoWrite, NoNote);
    CanStep(b, t, s, n, Advance(p), s.(procs := s.procs[p := call.Ready()]));
  }

  /** The steps of a call that finds room: it charges, passes, and is admitted. */
  lemma ChargesAndPasses(clock: nat, cells: Cells, call: Caller)
    requires 0 <= Count(cells, call.Counter(), clock) < call.limit
    ensures var x, full := call.Counter(), Bumped(cells, call.Counter(), 1, clock);
            && Resumed(cells, clock, call.Ready().call) == Turn(call.At([], [x], ReadPrev), Adds(x, 1), NoNote)
            && Resumed(full, clock, call.At([], [x], ReadPrev).call) == Turn(call.At([], [x], ReadTpm), NoWrite, NoNote)
            && Resumed(full, clock, call.At([], [x], ReadTpm).call) == Turn(Idle, NoWrite, Admits(call.Admission()))
  {
    var x := call.Counter();
    assert [] + [x] == [x];
    assert Count(Bumped(cells, x, 1, clock), x, clock) == Count(cells, x, clock) + 1;
    assert Room(call.limit)[1..] == [];
  }

  /** After them. */
  function Admitting(s: State, p: nat, call: Caller): State
    requires p < |s.procs|
  {
    s.(cells := Bumped(s.cells, call.Counter(), 1, s.clock), procs := s.procs[p := Idle],
       admitted := s.admitted + [call.Admission()])
  }

  lemma CanAdmit(b: int, t: nat, s: State, n: nat, p: nat, call: Caller)
    requires CanReach(b, t, s, n) && p < |s.procs| && s.procs[p] == call.Ready() && call.Lags(s.clock, b)
    requires s.cfg == OnlyGlobal(call.limit) && 0 <= Count(s.cells, call.Counter(), s.clock) < call.limit
    ensures CanReach(b, t, Admitting(s, p, call), n + if t <= s.clock < t + 60 * SECOND then 1 else 0)
  {
    var x := call.Counter();
    var full := Bumped(s.cells, x, 1, s.clock);
    ChargesAndPasses(s.clock, s.cells, call);
    var s1 := s.(cells := full, procs := s.procs[p := call.At([], [x], ReadPrev)]);
    CanStep(b, t, s, n, Advance(p), s1);
    var s2 := s.(cells := full, procs := s.procs[p := call.At([], [x], ReadTpm)]);
    assert s1.procs[p := call.At([], [x], ReadTpm)] == s2.procs;
    CanStep(b, t, s1, n, Advance(p), s2);
    assert s2.procs[p := Idle] == s.procs[p := Idle];
    CanStep(b, t, s2, n, Advance(p), Admitting(s, p, call));
  }

  // ---- Many calls at once ----------------------------------------------------------------------------------

  function Filled(ps: seq<Proc>, lo: nat, hi: nat, x: Proc): (r: seq<Proc>)
    ensures |r| == |ps|
  {
    seq(|ps|, i requires 0 <= i < |ps| => if lo <= i < hi then x else ps[i])
  }

  lemma {:induction false} AllBegin(b: int, t: nat, s: State, n: nat, lo: nat, hi: nat, call: Caller)
    requires CanReach(b, t, s, n) && lo <= hi <= |s.procs| && forall i :: lo <= i < hi ==> s.procs[i] == Idle
    requires s.cfg == OnlyGlobal(call.limit) && call.start == s.clock && call.atStart == s.cells
    ensures CanReach(b, t, s.(procs := Filled(s.procs, lo, hi, call.First())), n)
    decreases hi
  {
    if lo == hi {
      assert Filled(s.procs, lo, hi, call.First()) == s.procs;
    } else {
      var before := Filled(s.procs, lo, hi - 1, call.First());
      AllBegin(b, t, s, n, lo, hi - 1, call);
      CanBegin(b, t, s.(procs := before), n, hi - 1, call);
      assert before[hi - 1 := call.First()] == Filled(s.procs, lo, hi, call.First());
    }
  }

  lemma {:induction false} AllRead(b: int, t: nat, s: State, n: nat, lo: nat, hi: nat, call: Caller)
    requires CanReach(b, t, s, n) && lo <= hi <= |s.procs| && forall i :: lo <= i < hi ==> s.procs[i] == call.First()
    requires Count(s.cells, Only(Minute(call.start) - 1), s.clock) == 0 && call.Lags(s.clock, b)
    ensures CanReach(b, t, s.(procs := Filled(s.procs, lo, hi, call.Ready())), n)
    decreases hi
  {
    if lo == hi {
      assert Filled(s.procs, lo, hi, call.Ready()) == s.procs;
    } else {
      var before := Filled(s.procs, lo, hi - 1, call.Ready());
      AllRead(b, t, s, n, lo, hi - 1, call);
      CanRead(b, t, s.(procs := before), n, hi - 1, call);
      assert before[hi - 1 := call.Ready()] == Filled(s.procs, lo, hi, call.Ready());
    }
  }

  function BumpedTimes(c: Cells, x: Site, k: nat, now: nat): Cells {
    if k == 0 then c else Bumped(BumpedTimes(c, x, k - 1, now), x, 1, now)
  }

  lemma {:induction false} CountOfTimes(c: Cells, x: Site, k: nat, now: nat, y: Site)
    ensures Count(BumpedTimes(c, x, k, now), y, now) == Count(c, y, now) + if x == y then k else 0
  {
    if k > 0 { CountOfTimes(c, x, k - 1, now, y); }
  }

  function Repeated(a: Admission, k: nat): (log: seq<Admission>)
    ensures |log| == k
  {
    seq(k, _ => a)
  }

  /** The state after the calls of processes lo to hi have been admitted. */
  function AdmittingAll(s: State, lo: nat, hi: nat, call: Caller): State
    requires lo <= hi
  {
    s.(cells := BumpedTimes(s.cells, call.Counter(), hi - lo, s.clock), procs := Filled(s.procs, lo, hi, Idle),
       admitted := s.admitted + Repeated(call.Admission(), hi - lo))
  }

  lemma AdmittingOneMore(s: State, lo: nat, hi: nat, call: Caller)
    requires lo < hi <= |s.procs|
    ensures Admitting(AdmittingAll(s, lo, hi - 1, call), hi - 1, call) == AdmittingAll(s, lo, hi, call)
  {
    assert Filled(s.procs, lo, hi - 1, Idle)[hi - 1 := Idle] == Filled(s.procs, lo, hi, Idle);
    var a := call.Admission();
    assert Repeated(a, hi - 1 - lo) + [a] == Repeated(a, hi - lo);
    assert s.admitted + Repeated(a, hi - 1 - lo) + [a] == s.admitted + (Repeated(a, hi - 1 - lo) + [a]);
  }

  lemma {:induction false} AllAdmit(b: int, t: nat, s: State, n: nat, lo: nat, hi: nat, call: Caller)
    requires CanReach(b, t, s, n) && lo <= hi <= |s.procs| && forall i :: lo <= i < hi ==> s.procs[i] == call.Ready()
    requires s.cfg == OnlyGlobal(call.limit) && call.Lags(s.clock, b)
    requires 0 <= Count(s.cells, call.Counter(), s.clock) <= call.limit - (hi - lo)
    ensures CanReach(b, t, AdmittingAll(s, lo, hi, call), n + if t <= s.clock < t + 60 * SECOND then hi - lo else 0)
    decreases hi
  {
    if lo == hi {
      assert Filled(s.procs, lo, hi, Idle) == s.procs && s.admitted + Repeated(call.Admission(), 0) == s.admitted;
    } else {
      AllAdmit(b, t, s, n, lo, hi - 1, call);
      CountOfTimes(s.cells, call.Counter(), hi - 1 - lo, s.clock, call.Counter());
      CanAdmit(b, t, AdmittingAll(s, lo, hi - 1, call),
               n + if t <= s.clock < t + 60 * SECOND then hi - 1 - lo else 0, hi - 1, call);
      AdmittingOneMore(s, lo, hi, call);
    }
  }
}
