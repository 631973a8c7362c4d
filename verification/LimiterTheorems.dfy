/**
  What the interleaved rate limiter guarantees over a minute, over sixty seconds and for tokens, and how much
  a call may lag behind its minute for each: the bounds on the lag are exact.
 */
module LimiterTheorems {
  import opened Basics
  import opened CounterKeys
  import opened Limiters
  import opened LimiterProtocol
  import opened LimiterRuns

  // ---- Sixty-second windows -----------------------------------------------------------

  /** The admissions of one layer whose calls began within the sixty seconds from t. */
  ghost function InWindow(log: seq<Admission>, cfg: Config, scope: Scope, id: string, t: nat): nat {
    if log == [] then 0
    else
      var a := log[|log| - 1];
      (if t <= a.start < t + 60 * SECOND && Covers(cfg, a, Layered(scope, id, Minute(a.start))) then 1 else 0)
      + InWindow(log[..|log| - 1], cfg, scope, id, t)
  }

  lemma WindowSpansTwoMinutes(t: nat, now: nat)
    requires t <= now < t + 60 * SECOND
    ensures Minute(now) == Minute(t) || Minute(now) == Minute(t) + 1
  {
  }

  lemma {:induction false} WindowWithinMinutes(log: seq<Admission>, cfg: Config, scope: Scope, id: string, t: nat)
    ensures InWindow(log, cfg, scope, id, t)
            <= Admitted(log, cfg, Layered(scope, id, Minute(t))) + Admitted(log, cfg, Layered(scope, id, Minute(t) + 1))
  {
    if log != [] {
      var a := log[|log| - 1];
      WindowWithinMinutes(log[..|log| - 1], cfg, scope, id, t);
      ChargedOnce(cfg, a, Layered(scope, id, Minute(t)));
      ChargedOnce(cfg, a, Layered(scope, id, Minute(t) + 1));
      if t <= a.start < t + 60 * SECOND {
        WindowSpansTwoMinutes(t, a.start);
      }
    }
  }

  lemma SameLimitEveryMinute(cfg: Config, scope: Scope, id: string, m: int, n: int)
    ensures LimitFor(cfg, Layered(scope, id, m)) == LimitFor(cfg, Layered(scope, id, n))
  {
  }

  /** Of the calls that began within any sixty seconds, at most twice a layer's limit are admitted. */
  lemma AtMostTwiceTheLimit(ss: seq<State>, es: seq<Event>, i: nat, scope: Scope, id: string, t: nat)
    requires TimelyRun(ss, es) && i < |ss| && LimitFor(ss[0].cfg, Layered(scope, id, 0)) > 0
    ensures InWindow(ss[i].admitted, ss[0].cfg, scope, id, t) <= 2 * LimitFor(ss[0].cfg, Layered(scope, id, 0))
  {
    SameLimitEveryMinute(ss[0].cfg, scope, id, 0, Minute(t));
    SameLimitEveryMinute(ss[0].cfg, scope, id, 0, Minute(t) + 1);
    AdmissionsWithinLimit(ss, es, i, Layered(scope, id, Minute(t)));
    AdmissionsWithinLimit(ss, es, i, Layered(scope, id, Minute(t) + 1));
    WindowWithinMinutes(ss[i].admitted, ss[0].cfg, scope, id, t);
  }

  // ---- Tokens ---------------------------------------------------------------------------

  /** The call began in one of the states before the bound. */
  ghost predicate BeganBefore(ss: seq<State>, bound: nat, atStart: Cells, start: nat) {
    exists k :: 0 <= k < bound && k < |ss| && ss[k].cells == atStart && ss[k].clock == start
  }

  lemma BeganLater(ss: seq<State>, b: nat, b': nat, atStart: Cells, start: nat)
    requires BeganBefore(ss, b, atStart, start) && b <= b'
    ensures BeganBefore(ss, b', atStart, start)
  {
  }

  /** So did every call that s has in progress or admitted. */
  ghost predicate CallsBegan(ss: seq<State>, s: State, bound: nat) {
    && (forall p :: 0 <= p < |s.procs| && s.procs[p].Allowing? ==>
          BeganBefore(ss, bound, s.procs[p].call.atStart, s.procs[p].call.start))
    && (forall a <- s.admitted :: BeganBefore(ss, bound, a.atStart, a.start))
  }

  lemma CallsBeganLater(ss: seq<State>, s: State, b: nat, b': nat)
    requires CallsBegan(ss, s, b) && b <= b'
    ensures CallsBegan(ss, s, b')
  {
    forall p | 0 <= p < |s.procs| && s.procs[p].Allowing?
      ensures BeganBefore(ss, b', s.procs[p].call.atStart, s.procs[p].call.start)
    {
      BeganLater(ss, b, b', s.procs[p].call.atStart, s.procs[p].call.start);
    }
    forall a | a in s.admitted ensures BeganBefore(ss, b', a.atStart, a.start) {
      BeganLater(ss, b, b', a.atStart, a.start);
    }
  }

  lemma TurnBegan(ss: seq<State>, i: nat, e: Event)
    requires i < |ss| && CallsBegan(ss, ss[i], i) && Enabled(ss[i], e) && !e.Tick? && !e.SweepAt?
    ensures var t := TurnOf(ss[i], e);
            && (t.next.Allowing? ==> BeganBefore(ss, i + 1, t.next.call.atStart, t.next.call.start))
            && (t.note.Admits? ==> BeganBefore(ss, i + 1, t.note.a.atStart, t.note.a.start))
  {
    if e.Advance? || e.WriteFails? {
      ResumedSameCall(ss[i].cells, ss[i].clock, ss[i].procs[e.p].call);
      BeganLater(ss, i, i + 1, ss[i].procs[e.p].call.atStart, ss[i].procs[e.p].call.start);
    }
  }

  lemma {:induction false} EveryCallBegan(ss: seq<State>, es: seq<Event>, i: nat)
    requires Run(ss, es) && i < |ss|
    ensures CallsBegan(ss, ss[i], i)
    decreases i
  {
    if i > 0 {
      EveryCallBegan(ss, es, i - 1);
      CallsBeganLater(ss, ss[i - 1], i - 1, i);
      var e := es[i - 1];
      assert Enabled(ss[i - 1], e) && ss[i - 1 + 1] == Next(ss[i - 1], e);
      if !e.Tick? && !e.SweepAt? { TurnBegan(ss, i - 1, e); }
    }
  }

  lemma StepAt(ss: seq<State>, es: seq<Event>, k: nat)
    requires TimelyRun(ss, es) && k < |es|
    ensures Enabled(ss[k], es[k]) && InTime(ss[k], es[k]) && ss[k + 1] == Next(ss[k], es[k])
    ensures ProcsOk(ss[k])
  {
    InvInEveryState(ss, es, k);
  }

  lemma {:induction false} TokensOnlyGrow(ss: seq<State>, es: seq<Event>, i: nat, j: nat, y: Site)
    requires TimelyRun(ss, es) && i <= j < |ss| && y.kind == Tpm
    ensures Tally(ss[i], y) <= Tally(ss[j], y)
    decreases j - i
  {
    if i < j {
      StepAt(ss, es, i);
      TokensNeverFall(ss[i], es[i], y);
      TokensOnlyGrow(ss, es, i + 1, j, y);
    }
  }

  /** A spent token budget stays spent: once a limited token counter has reached its limit, every
      call of that minute that the layer covers and that was admitted at all had begun earlier. */
  lemma ExhaustedLayerAdmitsNobody(ss: seq<State>, es: seq<Event>, i: nat, j: nat, a: Admission, l: Layer)
    requires TimelyRun(ss, es) && i < |ss| && j < |ss| && a in ss[j].admitted
    requires l in LimitedLayers(Tpm, ss[0].cfg, a.model, a.key)
    requires Count(ss[i].cells, At(Tpm, l, Minute(a.start)), ss[i].clock) >= l.limit
    ensures BeganBefore(ss, i, a.atStart, a.start)
  {
    var y := At(Tpm, l, Minute(a.start));
    InvInEveryState(ss, es, j);
    assert HadTokens(ss[j].cfg, a);
    EveryCallBegan(ss, es, j);
    assert BeganBefore(ss, j, a.atStart, a.start);
    var k :| 0 <= k < j && k < |ss| && ss[k].cells == a.atStart && ss[k].clock == a.start;
    if i <= k {
      InvInEveryState(ss, es, i);
      assert Counted(ss[i], y);
      AccurateRead(ss[i].cells, ss[i].clock, y, Tally(ss[i], y));
      TokensOnlyGrow(ss, es, i, k, y);
      CountersAreExact(ss, es, k, y);
      assert false;
    }
  }

  /** Whenever no AllowRequest is under way and no undo has failed, a request counter within its
      horizon reads exactly the calls admitted in its minute: rejections and cache errors, in any
      interleaving, have left no trace. */
  lemma RejectionsLeaveNoTrace(ss: seq<State>, es: seq<Event>, i: nat, y: Site)
    requires TimelyRun(ss, es) && i < |ss| && y.kind == Rpm && ss[i].clock <= Horizon(y.minute)
    requires ss[i].leaked == multiset{} && forall p <- ss[i].procs :: !p.Allowing?
    ensures Count(ss[i].cells, y, ss[i].clock) == Admitted(ss[i].admitted, ss[i].cfg, y)
  {
    CountersAreExact(ss, es, i, y);
    TotalWithin(ss[i].procs, By(Holds(y)), 0);
  }

  // ---- The three token counters agree -------------------------------------------------------

  function IdOf(scope: Scope, r: Record): string {
    match scope case Global => "" case Model => r.model case Key => r.key
  }

  function Tokens(scope: Scope, id: string, minute: int): Site {
    Site(Tpm, scope, id, minute)
  }

  ghost function SumRecorded(rs: seq<Record>, scope: Scope, ids: seq<string>, minute: int): nat {
    if ids == [] then 0 else Recorded(rs, Tokens(scope, ids[0], minute)) + SumRecorded(rs, scope, ids[1..], minute)
  }

  /** The sum of the counters of the given models or keys, as they read now. */
  ghost function SumCounts(s: State, scope: Scope, ids: seq<string>, minute: int): int {
    if ids == [] then 0
    else Count(s.cells, Tokens(scope, ids[0], minute), s.clock) + SumCounts(s, scope, ids[1..], minute)
  }

  predicate Distinct(ids: seq<string>) {
    forall i, j :: 0 <= i < j < |ids| ==> ids[i] != ids[j]
  }

  /** The recording got as far as the counter of the scope. */
  predicate Reaches(r: Record, scope: Scope) {
    match scope case Global => r.written >= 1 case Model => r.written >= 2 case Key => r.written >= 3
  }

  /** A record adds its tokens to the counter of its own minute and ID, in each scope it reaches. */
  lemma SpentOn(r: Record, scope: Scope, id: string, minute: int)
    ensures r.Spent(Tokens(scope, id, minute))
            == if Minute(r.start) == minute && IdOf(scope, r) == id && Reaches(r, scope) then r.delta else 0
  {
    var xs := r.AllSites();
    var y := Tokens(scope, id, minute);
    if r.written == 0 {
      assert r.Sites() == [];
    } else if r.written == 1 {
      assert r.Sites() == [xs[0]];
    } else if r.written == 2 {
      assert r.Sites() == [xs[0], xs[1]];
    } else {
      assert r.Sites() == [xs[0], xs[1], xs[2]];
    }
    var n := multiset(r.Sites())[y];
    assert n == if Minute(r.start) == minute && IdOf(scope, r) == id && Reaches(r, scope) then 1 else 0;
    if n == 1 { assert r.delta * n == r.delta; }
  }

  lemma RecordedAppend(rs: seq<Record>, r: Record, y: Site)
    ensures Recorded(rs + [r], y) == Recorded(rs, y) + r.Spent(y)
  {
    assert (rs + [r])[..|rs|] == rs;
  }

  lemma RecordedNext(rs: seq<Record>, r: Record, scope: Scope, id: string, minute: int)
    ensures Recorded(rs + [r], Tokens(scope, id, minute))
            == Recorded(rs, Tokens(scope, id, minute))
               + if Minute(r.start) == minute && IdOf(scope, r) == id && Reaches(r, scope) then r.delta else 0
  {
    RecordedAppend(rs, r, Tokens(scope, id, minute));
    SpentOn(r, scope, id, minute);
  }

  lemma {:induction false} SumRecordedNext(rs: seq<Record>, r: Record, scope: Scope, ids: seq<string>, minute: int)
    requires Distinct(ids)
    ensures SumRecorded(rs + [r], scope, ids, minute)
            == SumRecorded(rs, scope, ids, minute)
               + if Minute(r.start) == minute && IdOf(scope, r) in ids && Reaches(r, scope) then r.delta else 0
  {
    if ids != [] {
      RecordedNext(rs, r, scope, ids[0], minute);
      SumRecordedNext(rs, r, scope, ids[1..], minute);
      assert ids == [ids[0]] + ids[1..];
    }
  }

  lemma {:induction false} NothingRecorded(scope: Scope, ids: seq<string>, minute: int)
    ensures SumRecorded([], scope, ids, minute) == 0
  {
    if ids != [] { NothingRecorded(scope, ids[1..], minute); }
  }

  /** The list names every model, or every key, that the records of the minute mention. */
  predicate Named(r: Record, scope: Scope, ids: seq<string>, minute: int) {
    Minute(r.start) == minute ==> IdOf(scope, r) in ids
  }

  /** The recording broke off after the global counter and before that of the scope. */
  predicate BreaksOff(r: Record, scope: Scope, minute: int) {
    Minute(r.start) == minute && Reaches(r, Global) && !Reaches(r, scope)
  }

  /** The tokens that such recordings put into the global counter only. */
  ghost function Missing(rs: seq<Record>, scope: Scope, minute: int): nat {
    if rs == [] then 0
    else (if BreaksOff(rs[|rs| - 1], scope, minute) then rs[|rs| - 1].delta else 0)
         + Missing(rs[..|rs| - 1], scope, minute)
  }

  lemma {:induction false} NothingMissing(rs: seq<Record>, scope: Scope, minute: int)
    ensures Missing(rs, scope, minute) == 0 <==> forall r <- rs :: !BreaksOff(r, scope, minute)
  {
    if rs != [] {
      NothingMissing(rs[..|rs| - 1], scope, minute);
      assert rs == rs[..|rs| - 1] + [rs[|rs| - 1]];
    }
  }

  lemma AddUpNext(rs: seq<Record>, r: Record, scope: Scope, ids: seq<string>, minute: int)
    requires Distinct(ids) && Named(r, scope, ids, minute)
    requires SumRecorded(rs, scope, ids, minute) + Missing(rs, scope, minute)
             == Recorded(rs, Tokens(Global, "", minute))
    ensures SumRecorded(rs + [r], scope, ids, minute) + Missing(rs + [r], scope, minute)
            == Recorded(rs + [r], Tokens(Global, "", minute))
  {
    assert (rs + [r])[..|rs|] == rs;
    SumRecordedNext(rs, r, scope, ids, minute);
    RecordedNext(rs, r, Global, "", minute);
  }

  lemma {:induction false} RecordsAddUp(rs: seq<Record>, scope: Scope, ids: seq<string>, minute: int)
    requires Distinct(ids) && forall r <- rs :: Named(r, scope, ids, minute)
    ensures SumRecorded(rs, scope, ids, minute) + Missing(rs, scope, minute) == Recorded(rs, Tokens(Global, "", minute))
  {
    if rs == [] {
      NothingRecorded(scope, ids, minute);
    } else {
      var init, last := rs[..|rs| - 1], rs[|rs| - 1];
      assert forall r <- init :: r in rs;
      assert rs == init + [last] && last in rs;
      RecordsAddUp(init, scope, ids, minute);
      AddUpNext(init, last, scope, ids, minute);
    }
  }

  lemma QuietCounter(ss: seq<State>, es: seq<Event>, i: nat, y: Site)
    requires TimelyRun(ss, es) && i < |ss| && y.kind == Tpm && ss[i].clock <= Horizon(y.minute)
    requires forall p <- ss[i].procs :: !p.Recording?
    ensures Count(ss[i].cells, y, ss[i].clock) == Recorded(ss[i].recorded, y)
  {
    CountersAreExact(ss, es, i, y);
    TotalWithin(ss[i].procs, By(Spends(y)), 0);
  }

  lemma {:induction false} QuietSums(ss: seq<State>, es: seq<Event>, i: nat, scope: Scope, ids: seq<string>,
                                     minute: int)
    requires TimelyRun(ss, es) && i < |ss| && ss[i].clock <= Horizon(minute)
    requires forall p <- ss[i].procs :: !p.Recording?
    ensures SumCounts(ss[i], scope, ids, minute) == SumRecorded(ss[i].recorded, scope, ids, minute)
    decreases ids
  {
    if ids != [] {
      QuietCounter(ss, es, i, Tokens(scope, ids[0], minute));
      QuietSums(ss, es, i, scope, ids[1..], minute);
    }
  }

  /** Whenever no RecordTokens is under way, the global token counter of a minute exceeds the sum of
      the model counters, or of the key counters, over any list that names each model (each key) with
      tokens in that minute once, by what broken-off recordings put only there. So the two agree if and
      only if no recording of the minute broke off in between. */
  lemma TokenCountersAgree(ss: seq<State>, es: seq<Event>, i: nat, scope: Scope, ids: seq<string>, minute: int)
    requires TimelyRun(ss, es) && i < |ss| && ss[i].clock <= Horizon(minute)
    requires forall p <- ss[i].procs :: !p.Recording?
    requires Distinct(ids) && forall r <- ss[i].recorded :: Named(r, scope, ids, minute)
    ensures var total := Count(ss[i].cells, Tokens(Global, "", minute), ss[i].clock);
            && total == SumCounts(ss[i], scope, ids, minute) + Missing(ss[i].recorded, scope, minute)
            && (total == SumCounts(ss[i], scope, ids, minute) <==>
                  forall r <- ss[i].recorded :: !BreaksOff(r, scope, minute))
  {
    NothingMissing(ss[i].recorded, scope, minute);
    QuietSums(ss, es, i, scope, ids, minute);
    QuietCounter(ss, es, i, Tokens(Global, "", minute));
    RecordsAddUp(ss[i].recorded, scope, ids, minute);
  }

  // ---- How timely the steps must be ------------------------------------------------------------

  /** No request layer has admitted more than its limit in any minute. */
  ghost predicate LimitsKept(s: State) {
    forall y: Site :: y.kind == Rpm && LimitFor(s.cfg, y) > 0 ==> Admitted(s.admitted, s.cfg, y) <= LimitFor(s.cfg, y)
  }

  function AllIdle(limit: Positive, clock: nat, n: nat): (s: State)
    ensures Init(s) && |s.procs| == n
  {
    State(OnlyGlobal(limit), clock, map[], seq(n, _ => Idle), [], [], multiset{})
  }

  /** The first moment at which a counter created with its minute has expired. */
  const LATE: nat := 61 * SECOND + 1

  /** Two calls begin at time zero; one runs through at once, the other when it is late. */
  lemma LateRun() returns (s: State)
    ensures CanReach(LATE, 0, s, 1) && s.cfg == OnlyGlobal(1)
    ensures s.admitted == [Admission(0, "", "", map[]), Admission(0, "", "", map[])]
  {
    var call := Caller(1, 0, map[]);
    s := AllIdle(1, 0, 2);
    CanStart(LATE, 0, s);
    CanBegin(LATE, 0, s, 0, 0, call);
    s := s.(procs := s.procs[0 := call.First()]);
    CanBegin(LATE, 0, s, 0, 1, call);
    s := s.(procs := s.procs[1 := call.First()]);
    CanRead(LATE, 0, s, 0, 0, call);
    s := s.(procs := s.procs[0 := call.Ready()]);
    CanAdmit(LATE, 0, s, 0, 0, call);
    s := Admitting(s, 0, call);
    CanTick(LATE, 0, s, 1, LATE);
    s := s.(clock := LATE);
    CanRead(LATE, 0, s, 1, 1, call);
    s := s.(procs := s.procs[1 := call.Ready()]);
    CanAdmit(LATE, 0, s, 1, 1, call);
    s := Admitting(s, 1, call);
  }

  /** A call held up until the counter of its minute has expired starts the count afresh: with a
      limit of one, two are admitted. */
  lemma LateStepsBreakTheLimit() returns (ss: seq<State>, es: seq<Event>)
    ensures PromptRun(ss, es, LATE) && !LimitsKept(ss[|es|])
  {
    var s := LateRun();
    assert Reachable(LATE, 0, s, 1);
    ss, es :| LeadsTo(ss, es, LATE, 0, s, 1);
    var a, x := Admission(0, "", "", map[]), Only(0);
    assert Covers(s.cfg, a, x);
    ChargedOnce(s.cfg, a, x);
    assert s.admitted[..1] == [a] && [a][..0] == [];
    assert Admitted([a], s.cfg, x) == 1 + Admitted([a][..0], s.cfg, x);
    assert Admitted(s.admitted, s.cfg, x) == 1 + Admitted(s.admitted[..1], s.cfg, x) == 2;
    assert LimitFor(s.cfg, x) == 1;
  }

  /** The limits hold in all runs whose calls take no step later than b into their minute if and
      only if b is at most the 61 seconds that a counter is kept. */
  lemma SixtyOneSecondsExactly(b: int)
    ensures (forall ss, es :: PromptRun(ss, es, b) ==> LimitsKept(ss[|es|])) <==> b <= 61 * SECOND
  {
    if b <= 61 * SECOND {
      forall ss, es | PromptRun(ss, es, b) ensures LimitsKept(ss[|es|]) {
        PromptIsTimely(ss, es, b);
        KeptInTime(ss, es);
      }
    } else {
      var ss, es := LateStepsBreakTheLimit();
      MorePrompt(ss, es, LATE, b);
    }
  }

  lemma KeptInTime(ss: seq<State>, es: seq<Event>)
    requires TimelyRun(ss, es)
    ensures LimitsKept(ss[|es|])
  {
    InvInEveryState(ss, es, |es|);
    forall y: Site | y.kind == Rpm && LimitFor(ss[|es|].cfg, y) > 0
      ensures Admitted(ss[|es|].admitted, ss[|es|].cfg, y) <= LimitFor(ss[|es|].cfg, y)
    {
      AdmissionsWithinLimit(ss, es, |es|, y);
    }
  }

  // ---- Sixty seconds of admissions ------------------------------------------------------------------

  /** The call began no later than now, and its minute no earlier than b ago. */
  predicate Recent(a: Admission, clock: nat, b: int) {
    a.start <= clock <= 60 * Minute(a.start) * SECOND + b
  }

  /** Calls admitted within the sixty seconds from t belong to minute m or the next, if none lags more than
      sixty seconds. */
  ghost predicate SpanMeets(t: nat, m: int) {
    forall a, clock: nat :: t <= clock < t + 60 * SECOND && Recent(a, clock, 60 * SECOND) ==>
      Minute(a.start) == m || Minute(a.start) == m + 1
  }

  lemma SpanMeetsTwoMinutes(t: nat) returns (m: int)
    ensures SpanMeets(t, m)
  {
    var minute := 60 * SECOND;
    m := if t % minute == 0 then t / minute - 1 else t / minute;
    forall a, clock: nat | t <= clock < t + minute && Recent(a, clock, minute)
      ensures Minute(a.start) == m || Minute(a.start) == m + 1
    {
      MinuteOfAdmission(t, clock, a.start, m);
    }
  }

  lemma MinuteOfAdmission(t: nat, clock: nat, start: nat, m: int)
    requires t <= clock < t + 60 * SECOND && start <= clock <= 60 * Minute(start) * SECOND + 60 * SECOND
    requires m == if t % (60 * SECOND) == 0 then t / (60 * SECOND) - 1 else t / (60 * SECOND)
    ensures Minute(start) == m || Minute(start) == m + 1
  {
    var minute := 60 * SECOND;
    assert Minute(start) == start / minute;
    assert t == t / minute * minute + t % minute && 0 <= t % minute < minute;
    assert start == Minute(start) * minute + start % minute && 0 <= start % minute < minute;
  }

  /** From s to s' at most one call is admitted, and that is recent. */
  ghost predicate AdmitsRecent(s: State, s': State, b: int) {
    s'.cfg == s.cfg
    && (s'.admitted == s.admitted || exists a :: s'.admitted == s.admitted + [a] && Recent(a, s.clock, b))
  }

  lemma AdmissionOfStep(s: State, e: Event, b: int)
    requires Enabled(s, e) && Prompt(s, e, b) && ProcsOk(s)
    ensures AdmitsRecent(s, Next(s, e), b)
  {
    if e.Advance? {
      assert ProcOk(s.cfg, s.clock, s.procs[e.p]);
      AdmissionOfCall(s.cells, s.clock, s.procs[e.p].call);
    } else if !e.Tick? && !e.SweepAt? {
      OnlyAdvanceAdmits(s, e);
    }
  }

  lemma AdmissionOfCall(c: Cells, now: nat, call: Check)
    ensures Resumed(c, now, call).note.Admits? ==> Resumed(c, now, call).note.a.start == call.start
  {
  }

  lemma AdmittedAppend(log: seq<Admission>, a: Admission, cfg: Config, y: Site)
    ensures Admitted(log + [a], cfg, y) == Admitted(log, cfg, y) + if Covers(cfg, a, y) then 1 else 0
  {
    assert (log + [a])[..|log|] == log;
    ChargedOnce(cfg, a, y);
  }

  ghost function InTwoMinutes(s: State, scope: Scope, id: string, m: int): nat {
    Admitted(s.admitted, s.cfg, Layered(scope, id, m)) + Admitted(s.admitted, s.cfg, Layered(scope, id, m + 1))
  }

  lemma AdmissionMadeWithin(s: State, s': State, a: Admission, scope: Scope, id: string, t: nat, m: int)
    requires s'.cfg == s.cfg && s'.admitted == s.admitted + [a]
    requires t <= s.clock < t + 60 * SECOND ==> Minute(a.start) == m || Minute(a.start) == m + 1
    ensures InTwoMinutes(s, scope, id, m) + (if AdmitsIn(s, s', scope, id, t) then 1 else 0)
            <= InTwoMinutes(s', scope, id, m)
  {
    AdmittedAppend(s.admitted, a, s.cfg, Layered(scope, id, m));
    AdmittedAppend(s.admitted, a, s.cfg, Layered(scope, id, m + 1));
  }

  lemma StepMadeWithin(s: State, s': State, scope: Scope, id: string, t: nat, m: int)
    requires AdmitsRecent(s, s', 60 * SECOND) && SpanMeets(t, m)
    ensures InTwoMinutes(s, scope, id, m) + (if AdmitsIn(s, s', scope, id, t) then 1 else 0)
            <= InTwoMinutes(s', scope, id, m)
  {
    if s'.admitted != s.admitted {
      var a :| s'.admitted == s.admitted + [a] && Recent(a, s.clock, 60 * SECOND);
      AdmissionMadeWithin(s, s', a, scope, id, t, m);
    }
  }

  /** Step k of the run adds to the two minutes at least what it admits in the sixty seconds from t. */
  ghost predicate StepFits(ss: seq<State>, k: nat, scope: Scope, id: string, t: nat, m: int) {
    k < |ss| - 1 ==>
      InTwoMinutes(ss[k], scope, id, m) + (if AdmitsIn(ss[k], ss[k + 1], scope, id, t) then 1 else 0)
      <= InTwoMinutes(ss[k + 1], scope, id, m)
  }

  lemma PromptStepFits(ss: seq<State>, es: seq<Event>, k: nat, scope: Scope, id: string, t: nat, m: int)
    requires PromptRun(ss, es, 60 * SECOND) && SpanMeets(t, m)
    ensures StepFits(ss, k, scope, id, t, m)
  {
    if k < |es| {
      AdmissionAt(ss, es, k);
      StepMadeWithin(ss[k], ss[k + 1], scope, id, t, m);
    }
  }

  lemma AdmissionAt(ss: seq<State>, es: seq<Event>, k: nat)
    requires PromptRun(ss, es, 60 * SECOND) && k < |es|
    ensures AdmitsRecent(ss[k], ss[k + 1], 60 * SECOND)
  {
    PromptIsTimely(ss, es, 60 * SECOND);
    StepAt(ss, es, k);
    AdmissionOfStep(ss[k], es[k], 60 * SECOND);
  }

  lemma {:induction false} MadeWithinMinutes(ss: seq<State>, n: nat, scope: Scope, id: string, t: nat, m: int)
    requires n < |ss| && forall k: nat :: StepFits(ss, k, scope, id, t, m)
    ensures MadeIn(ss, n, scope, id, t) <= InTwoMinutes(ss[n], scope, id, m)
  {
    if n > 0 {
      MadeWithinMinutes(ss, n - 1, scope, id, t, m);
      assert StepFits(ss, n - 1, scope, id, t, m);
    }
  }

  /** Any sixty seconds of the run make at most twice a layer's limit of admissions. */
  ghost predicate SpansKept(ss: seq<State>) {
    forall scope, id, t :: SpanKept(ss, scope, id, t)
  }

  ghost predicate SpanKept(ss: seq<State>, scope: Scope, id: string, t: nat) {
    ss != [] && LimitFor(ss[0].cfg, Layered(scope, id, 0)) > 0 ==>
      MadeIn(ss, |ss| - 1, scope, id, t) <= 2 * LimitFor(ss[0].cfg, Layered(scope, id, 0))
  }

  lemma SpanKeptInTime(ss: seq<State>, es: seq<Event>, scope: Scope, id: string, t: nat)
    requires PromptRun(ss, es, 60 * SECOND)
    ensures SpanKept(ss, scope, id, t)
  {
    if LimitFor(ss[0].cfg, Layered(scope, id, 0)) <= 0 { return; }
    var m := SpanMeetsTwoMinutes(t);
    forall k: nat ensures StepFits(ss, k, scope, id, t, m) {
      PromptStepFits(ss, es, k, scope, id, t, m);
    }
    MadeWithinMinutes(ss, |es|, scope, id, t, m);
    PromptIsTimely(ss, es, 60 * SECOND);
    ConfigStays(ss, es, |es|);
    SameLimitEveryMinute(ss[0].cfg, scope, id, 0, m);
    SameLimitEveryMinute(ss[0].cfg, scope, id, 0, m + 1);
    AdmissionsWithinLimit(ss, es, |es|, Layered(scope, id, m));
    AdmissionsWithinLimit(ss, es, |es|, Layered(scope, id, m + 1));
  }

  const LAST_SECOND: nat := 59 * SECOND
  const NEXT_MINUTE: nat := 60 * SECOND
  const MINUTE_AFTER: nat := 120 * SECOND

  /** How three calls get through under a limit of one: the first is admitted a nanosecond late, the second
      sixty seconds after it began, together with a third of the next minute; each looked at the minute
      before its own too early to see the others. */
  lemma ThreeInSixtySeconds() returns (s: State)
    ensures CanReach(60 * SECOND + 1, NEXT_MINUTE + 1, s, 3) && s.cfg == OnlyGlobal(1)
  {
    var b, t := 60 * SECOND + 1, NEXT_MINUTE + 1;
    var first, second := Caller(1, LAST_SECOND, map[]), Caller(1, NEXT_MINUTE, map[]);
    s := AllIdle(1, LAST_SECOND, 3);
    CanStart(b, t, s);
    CanBegin(b, t, s, 0, 0, first);
    s := s.(procs := s.procs[0 := first.First()]);
    CanRead(b, t, s, 0, 0, first);
    s := s.(procs := s.procs[0 := first.Ready()]);
    CanTick(b, t, s, 0, NEXT_MINUTE);
    s := s.(clock := NEXT_MINUTE);
    CanBegin(b, t, s, 0, 1, second);
    s := s.(procs := s.procs[1 := second.First()]);
    CanRead(b, t, s, 0, 1, second);
    s := s.(procs := s.procs[1 := second.Ready()]);
    CanTick(b, t, s, 0, t);
    s := s.(clock := t);
    CanAdmit(b, t, s, 0, 0, first);
    s := Admitting(s, 0, first);
    s := ThirdCall(s, second);
  }

  lemma ThirdCall(s0: State, second: Caller) returns (s: State)
    requires CanReach(60 * SECOND + 1, NEXT_MINUTE + 1, s0, 1) && s0.cfg == OnlyGlobal(1) && s0.clock == NEXT_MINUTE + 1
    requires |s0.procs| == 3 && s0.procs[1] == second.Ready() && s0.procs[2] == Idle
    requires second.limit == 1 && second.start == NEXT_MINUTE && forall y <- s0.cells.Keys :: y.minute == 0
    ensures CanReach(60 * SECOND + 1, NEXT_MINUTE + 1, s, 3) && s.cfg == OnlyGlobal(1)
  {
    var b, t := 60 * SECOND + 1, NEXT_MINUTE + 1;
    CanTick(b, t, s0, 1, MINUTE_AFTER);
    s := s0.(clock := MINUTE_AFTER);
    var third := Caller(1, MINUTE_AFTER, s.cells);
    CanBegin(b, t, s, 1, 2, third);
    s := s.(procs := s.procs[2 := third.First()]);
    CanRead(b, t, s, 1, 2, third);
    s := s.(procs := s.procs[2 := third.Ready()]);
    CanAdmit(b, t, s, 1, 1, second);
    s := Admitting(s, 1, second);
    CanAdmit(b, t, s, 2, 2, third);
    s := Admitting(s, 2, third);
  }

  /** Every sixty seconds make at most twice a layer's limit of admissions, in all runs whose calls take no
      step later than b into their minute, if and only if b is at most sixty seconds. */
  lemma SixtySecondsExactly(b: int)
    ensures (forall ss, es :: PromptRun(ss, es, b) ==> SpansKept(ss)) <==> b <= 60 * SECOND
  {
    if b <= 60 * SECOND {
      forall ss: seq<State>, es | PromptRun(ss, es, b) ensures SpansKept(ss) {
        MorePrompt(ss, es, b, 60 * SECOND);
        forall scope, id, t: nat ensures SpanKept(ss, scope, id, t) {
          SpanKeptInTime(ss, es, scope, id, t);
        }
      }
    } else {
      var s := ThreeInSixtySeconds();
      assert Reachable(b, NEXT_MINUTE + 1, s, 3);
      var ss: seq<State>, es :| LeadsTo(ss, es, b, NEXT_MINUTE + 1, s, 3);
      ConfigStays(ss, es, |es|);
      assert LimitFor(ss[0].cfg, Layered(Global, "", 0)) == 1;
      assert !SpanKept(ss, Global, "", NEXT_MINUTE + 1);
    }
  }

  lemma {:induction false} ConfigStays(ss: seq<State>, es: seq<Event>, i: nat)
    requires Run(ss, es) && i < |ss|
    ensures ss[i].cfg == ss[0].cfg
  {
    if i > 0 {
      ConfigStays(ss, es, i - 1);
      assert ss[i - 1 + 1] == Next(ss[i - 1], es[i - 1]);
    }
  }

  // ---- Twice the limit happens --------------------------------------------------------------------

  lemma {:induction false} AllInWindow(log: seq<Admission>, cfg: Config, t: nat)
    requires forall a <- log :: t <= a.start < t + 60 * SECOND && Covers(cfg, a, Only(Minute(a.start)))
    ensures InWindow(log, cfg, Global, "", t) == |log|
  {
    if log != [] {
      var init, last := log[..|log| - 1], log[|log| - 1];
      assert log == init + [last];
      AllInWindow(init, cfg, t);
    }
  }

  /** As many calls as the limit allows begin in the last second of a minute and as many in the first of
      the next; the second half looks at the previous minute before the first half has charged it. */
  lemma EdgeRun(limit: Positive) returns (s: State)
    ensures CanReach(60 * SECOND, NEXT_MINUTE, s, 2 * limit) && s.cfg == OnlyGlobal(limit)
    ensures s.admitted == Repeated(Admission(LAST_SECOND, "", "", map[]), limit)
                          + Repeated(Admission(NEXT_MINUTE, "", "", map[]), limit)
  {
    var b, t := 60 * SECOND, NEXT_MINUTE;
    var first, second := Caller(limit, LAST_SECOND, map[]), Caller(limit, NEXT_MINUTE, map[]);
    s := AllIdle(limit, LAST_SECOND, 2 * limit);
    CanStart(b, t, s);
    AllBegin(b, t, s, 0, 0, limit, first);
    s := s.(procs := Filled(s.procs, 0, limit, first.First()));
    CanTick(b, t, s, 0, NEXT_MINUTE);
    s := s.(clock := NEXT_MINUTE);
    AllBegin(b, t, s, 0, limit, 2 * limit, second);
    s := s.(procs := Filled(s.procs, limit, 2 * limit, second.First()));
    AllRead(b, t, s, 0, limit, 2 * limit, second);
    s := s.(procs := Filled(s.procs, limit, 2 * limit, second.Ready()));
    AllRead(b, t, s, 0, 0, limit, first);
    s := s.(procs := Filled(s.procs, 0, limit, first.Ready()));
    AllAdmit(b, t, s, 0, 0, limit, first);
    CountOfTimes(s.cells, first.Counter(), limit, s.clock, second.Counter());
    s := AdmittingAll(s, 0, limit, first);
    AllAdmit(b, t, s, limit, limit, 2 * limit, second);
    s := AdmittingAll(s, limit, 2 * limit, second);
    assert [] + Repeated(first.Admission(), limit) == Repeated(first.Admission(), limit);
  }

  /** Twice the limit within sixty seconds does happen, for every limit and in a timely run, whether the
      calls are counted by when they began or by when they were admitted. */
  lemma TwiceTheLimitHappens(limit: Positive) returns (ss: seq<State>, es: seq<Event>)
    ensures PromptRun(ss, es, 60 * SECOND) && LimitFor(ss[|es|].cfg, Only(0)) == limit
    ensures InWindow(ss[|es|].admitted, ss[|es|].cfg, Global, "", LAST_SECOND) == 2 * limit
    ensures MadeIn(ss, |es|, Global, "", NEXT_MINUTE) == 2 * limit
  {
    var s := EdgeRun(limit);
    assert Reachable(60 * SECOND, NEXT_MINUTE, s, 2 * limit);
    ss, es :| LeadsTo(ss, es, 60 * SECOND, NEXT_MINUTE, s, 2 * limit);
    AllInWindow(s.admitted, s.cfg, LAST_SECOND);
  }
}
