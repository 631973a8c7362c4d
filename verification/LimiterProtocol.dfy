/**
  Many calls of AllowRequest and RecordTokens at once over one shared cache. A step is one
  cache operation of one call (the cache is atomic), a sweep, or the clock moving, so a run
  interleaves the calls in any way. A cache write may fail, as it can on a remote cache.
 */
module LimiterProtocol {
  import opened Basics
  import opened CounterKeys
  import opened MemoryCaches
  import opened Limiters

  // ---- Counters in the cache ------------------------------------------------------------

  /** One counter of one minute. */
  datatype Site = Site(kind: Kind, scope: Scope, id: string, minute: int)

  function SiteKey(x: Site): string {
    CounterKey(x.kind, x.scope, x.id, x.minute)
  }

  /** A counter with its expiry. */
  datatype Cell = Cell(value: int, expireAt: nat)

  /** The counters in the cache, by what they count rather than by the text of their key. */
  type Cells = map<Site, Cell>

  function Count(c: Cells, x: Site, now: nat): int {
    if x in c && now <= c[x].expireAt then c[x].value else 0
  }

  /** IncrBy with a lifetime of 61 seconds. */
  function Bumped(c: Cells, x: Site, delta: int, now: nat): Cells {
    if x in c && now <= c[x].expireAt then c[x := c[x].(value := c[x].value + delta)]
    else c[x := Cell(delta, now + TTL)]
  }

  function Cleaned(c: Cells, now: nat): Cells {
    map x | x in c && now <= c[x].expireAt :: c[x]
  }

  /** The cache c, keyed by text, holds exactly the counters d. */
  ghost predicate Represents(c: Entries, d: Cells) {
    forall x :: (x in d <==> SiteKey(x) in c)
                && (x in d ==> ParseInt(c[SiteKey(x)].value) == d[x].value
                               && c[SiteKey(x)].expireAt == Some(d[x].expireAt))
  }

  /** Every operation of the cache on the text keys is the operation on the counters. */
  lemma CacheRepresents(c: Entries, d: Cells, x: Site, delta: int, now: nat)
    requires Represents(c, d)
    ensures Counter(c, SiteKey(x), now) == Count(d, x, now)
    ensures Represents(Incremented(c, SiteKey(x), delta, TTL, now), Bumped(d, x, delta, now))
    ensures Represents(Swept(c, now), Cleaned(d, now))
  {
    var c', d' := Incremented(c, SiteKey(x), delta, TTL, now), Bumped(d, x, delta, now);
    IncrementCounts(c, SiteKey(x), delta, TTL, now, SiteKey(x), now);
    forall y ensures y in d' <==> SiteKey(y) in c'
             ensures y in d' ==> ParseInt(c'[SiteKey(y)].value) == d'[y].value
                                 && c'[SiteKey(y)].expireAt == Some(d'[y].expireAt)
    {
      if SiteKey(x) == SiteKey(y) {
        KeysAreInjective(x.kind, x.scope, x.id, x.minute, y.kind, y.scope, y.id, y.minute);
      }
    }
  }

  // ---- The calls ------------------------------------------------------------------------

  function At(kind: Kind, l: Layer, minute: int): Site {
    Site(kind, l.scope, l.id, minute)
  }

  function LimitFor(cfg: Config, x: Site): int {
    LimitOf(x.kind, match x.scope
                    case Global => cfg.all
                    case Model => Lookup(cfg.models, x.id)
                    case Key => Lookup(cfg.keys, x.id))
  }

  /** The layers that are checked at all. */
  function Limited(ls: seq<Layer>): (r: seq<Layer>)
    ensures forall l <- r :: l in ls && l.limit > 0
    ensures forall l <- ls :: l.limit > 0 ==> l in r
  {
    if ls == [] then [] else (if ls[0].limit > 0 then [ls[0]] else []) + Limited(ls[1..])
  }

  function LimitedLayers(kind: Kind, cfg: Config, model: string, key: string): seq<Layer> {
    Limited(Layers(kind, cfg, model, key))
  }

  function SitesOf(ls: seq<Layer>, minute: int): seq<Site> {
    if ls == [] then [] else [At(Rpm, ls[0], minute)] + SitesOf(ls[1..], minute)
  }

  /** The next cache operation of a call of AllowRequest. */
  datatype Pc = ReadPrev | Charge(prev: int) | ReadTpm | ReadTpmPrev(curr: int) | Undoing

  /** A call of AllowRequest that read the clock at `start`: the layers it checks, those it has yet
      to check, the counters it has charged, and the token layers it has passed. `atStart` remembers the
      counters as they were when the call began. */
  datatype Check = Check(start: nat, model: string, key: string, allRpm: seq<Layer>, allTpm: seq<Layer>,
                         rpm: seq<Layer>, tpm: seq<Layer>, held: seq<Site>, passed: seq<Layer>, pc: Pc, atStart: Cells)

  type Positive = n: nat | n > 0 witness 1

  type UpToThree = n: nat | n <= 3

  /** Tokens spent by one request, to be added to three counters, in this order; `written` of them have
      been written. */
  datatype Record = Record(start: nat, delta: Positive, model: string, key: string, written: UpToThree) {
    function AllSites(): (xs: seq<Site>)
      ensures |xs| == 3
    {
      [Site(Tpm, Global, "", Minute(start)), Site(Tpm, Model, model, Minute(start)), Site(Tpm, Key, key, Minute(start))]
    }
    /** The counters that hold the tokens. */
    function Sites(): seq<Site> {
      AllSites()[..written]
    }
    function Spent(x: Site): nat {
      delta * multiset(Sites())[x]
    }
  }

  datatype Proc = Idle | Allowing(call: Check) | Recording(record: Record)

  datatype Admission = Admission(start: nat, model: string, key: string, atStart: Cells) {
    /** The request counters this admission is charged to. */
    function Sites(cfg: Config): seq<Site> {
      SitesOf(LimitedLayers(Rpm, cfg, model, key), Minute(start))
    }
  }

  datatype Effect = NoWrite | Adds(site: Site, delta: int)

  datatype Note = NoNote | Admits(a: Admission) | Records(r: Record) | Leaks(x: Site)

  /** What one step of a call does: where it leaves the call, which counter it writes, and what
      it adds to the history. */
  datatype Turn = Turn(next: Proc, effect: Effect, note: Note)

  /** One cache operation of AllowRequest, with the local decision that follows it. */
  function Resumed(c: Cells, now: nat, call: Check): Turn {
    var minute: int := Minute(call.start);
    match call.pc
    case ReadPrev =>
      if call.rpm == [] then Turn(Allowing(call.(pc := ReadTpm)), NoWrite, NoNote)
      else Turn(Allowing(call.(pc := Charge(Count(c, At(Rpm, call.rpm[0], minute - 1), now)))), NoWrite, NoNote)
    case Charge(prev) =>
      if call.rpm == [] then Turn(Allowing(call), NoWrite, NoNote)
      else
        var x := At(Rpm, call.rpm[0], minute);
        var curr := Count(Bumped(c, x, 1, now), x, now);
        if Estimate(curr, prev, SecondOf(call.start)) > 60 * call.rpm[0].limit
        then Turn(Allowing(call.(held := call.held + [x], pc := Undoing)), Adds(x, 1), NoNote)
        else Turn(Allowing(call.(held := call.held + [x], pc := ReadPrev, rpm := call.rpm[1..])), Adds(x, 1), NoNote)
    case ReadTpm =>
      if call.tpm == [] then Turn(Idle, NoWrite, Admits(Admission(call.start, call.model, call.key, call.atStart)))
      else Turn(Allowing(call.(pc := ReadTpmPrev(Count(c, At(Tpm, call.tpm[0], minute), now)))), NoWrite, NoNote)
    case ReadTpmPrev(curr) =>
      if call.tpm == [] then Turn(Allowing(call), NoWrite, NoNote)
      else
        var prev := Count(c, At(Tpm, call.tpm[0], minute - 1), now);
        if Estimate(curr, prev, SecondOf(call.start)) >= 60 * call.tpm[0].limit
        then Turn(Allowing(call.(pc := Undoing)), NoWrite, NoNote)
        else Turn(Allowing(call.(pc := ReadTpm, tpm := call.tpm[1..], passed := call.passed + [call.tpm[0]])),
                  NoWrite, NoNote)
    case Undoing =>
      if call.held == [] then Turn(Idle, NoWrite, NoNote)
      else Turn(Allowing(call.(held := call.held[1..])), Adds(call.held[0], -1), NoNote)
  }

  /** A cache write that fails: a charge gives up and undoes the earlier ones; an undo is skipped. */
  function Failed(call: Check): Turn {
    if call.pc.Charge? then Turn(Allowing(call.(pc := Undoing)), NoWrite, NoNote)
    else if call.pc.Undoing? && call.held != [] then
      Turn(Allowing(call.(held := call.held[1..])), NoWrite, Leaks(call.held[0]))
    else Turn(Allowing(call), NoWrite, NoNote)
  }

  /** One write of RecordTokens; after the third the call is done. */
  function Written(r: Record): Turn
    requires r.written < 3
  {
    var r' := r.(written := r.written + 1);
    if r'.written == 3 then Turn(Idle, Adds(r.AllSites()[r.written], r.delta), Records(r'))
    else Turn(Recording(r'), Adds(r.AllSites()[r.written], r.delta), NoNote)
  }

  function Begun(cfg: Config, c: Cells, now: nat, model: string, key: string): Check {
    var rpm, tpm := LimitedLayers(Rpm, cfg, model, key), LimitedLayers(Tpm, cfg, model, key);
    Check(now, model, key, rpm, tpm, rpm, tpm, [], [], ReadPrev, c)
  }

  // ---- The machine ----------------------------------------------------------------------

  datatype State = State(
    cfg: Config,
    clock: nat,
    cells: Cells,
    procs: seq<Proc>,
    admitted: seq<Admission>,
    recorded: seq<Record>,       // calls of RecordTokens that are over, as far as they got
    leaked: multiset<Site>)      // charges whose undo failed

  datatype Event =
    | Tick(now: nat)
    | SweepAt(now: nat)
    | Begin(p: nat, model: string, key: string)
    | Advance(p: nat)
    | WriteFails(p: nat)
    | BeginRecord(p: nat, delta: nat, model: string, key: string)
    | WriteRecord(p: nat)
    | RecordFails(p: nat)

  predicate Enabled(s: State, e: Event) {
    match e
    case Tick(now) => s.clock <= now
    case SweepAt(now) => now <= s.clock
    case Begin(p, _, _) => p < |s.procs| && s.procs[p] == Idle
    case BeginRecord(p, delta, _, _) => p < |s.procs| && s.procs[p] == Idle && delta > 0
    case WriteRecord(p) => p < |s.procs| && s.procs[p].Recording? && s.procs[p].record.written < 3
    case RecordFails(p) => p < |s.procs| && s.procs[p].Recording?
    case _ => e.p < |s.procs| && s.procs[e.p].Allowing?
  }

  function TurnOf(s: State, e: Event): Turn
    requires Enabled(s, e) && !e.Tick? && !e.SweepAt?
  {
    match e
    case Begin(_, model, key) => Turn(Allowing(Begun(s.cfg, s.cells, s.clock, model, key)), NoWrite, NoNote)
    case Advance(p) => Resumed(s.cells, s.clock, s.procs[p].call)
    case WriteFails(p) => Failed(s.procs[p].call)
    case BeginRecord(_, delta, model, key) =>
      Turn(Recording(Record(s.clock, delta, model, key, 0)), NoWrite, NoNote)
    case WriteRecord(p) => Written(s.procs[p].record)
    case RecordFails(p) => Turn(Idle, NoWrite, Records(s.procs[p].record))
  }

  function Performed(s: State, p: nat, t: Turn): State
    requires p < |s.procs|
  {
    State(s.cfg, s.clock,
          if t.effect.Adds? then Bumped(s.cells, t.effect.site, t.effect.delta, s.clock) else s.cells,
          s.procs[p := t.next],
          if t.note.Admits? then s.admitted + [t.note.a] else s.admitted,
          if t.note.Records? then s.recorded + [t.note.r] else s.recorded,
          if t.note.Leaks? then s.leaked + multiset{t.note.x} else s.leaked)
  }

  function Next(s: State, e: Event): State
    requires Enabled(s, e)
  {
    if e.Tick? then s.(clock := e.now)
    else if e.SweepAt? then s.(cells := Cleaned(s.cells, e.now))
    else Performed(s, e.p, TurnOf(s, e))
  }

  ghost predicate Init(s: State) {
    && s.cells == map[] && s.admitted == [] && s.recorded == [] && s.leaked == multiset{}
    && forall i :: 0 <= i < |s.procs| ==> s.procs[i] == Idle
  }

  /** The last instant at which every counter of a minute is certain to be alive: 61 seconds
      after the minute began. */
  function Horizon(minute: int): int {
    (60 * minute + 61) * SECOND
  }

  function StartOf(p: Proc): nat
    requires !p.Idle?
  {
    match p case Allowing(call) => call.start case Recording(r) => r.start
  }

  /** A step of a call comes no later than 61 seconds after the start of the minute it read. */
  predicate InTime(s: State, e: Event)
    requires Enabled(s, e)
  {
    e.Advance? || e.WriteRecord? ==> s.clock <= Horizon(Minute(StartOf(s.procs[e.p])))
  }

  /** A run of any number of calls, interleaved in any order. */
  ghost predicate Run(ss: seq<State>, es: seq<Event>) {
    && |ss| == |es| + 1 && Init(ss[0])
    && forall i :: 0 <= i < |es| ==> Enabled(ss[i], es[i]) && ss[i + 1] == Next(ss[i], es[i])
  }

  ghost predicate TimelyRun(ss: seq<State>, es: seq<Event>) {
    Run(ss, es) && forall i :: 0 <= i < |es| ==> InTime(ss[i], es[i])
  }

  // ---- Tallies ------------------------------------------------------------------------

  datatype Measure = Holds(site: Site) | Passes(site: Site) | Spends(site: Site)

  function Weigh(m: Measure, p: Proc): nat {
    match m
    case Holds(x) => if p.Allowing? then multiset(p.call.held)[x] else 0
    case Passes(x) => if p.Allowing? && !p.call.pc.Undoing? then multiset(p.call.held)[x] else 0
    case Spends(x) => if p.Recording? then p.record.Spent(x) else 0
  }

  function By(m: Measure): Proc -> nat {
    p => Weigh(m, p)
  }

  /** How often the admissions so far were charged to x. */
  ghost function Admitted(log: seq<Admission>, cfg: Config, x: Site): nat {
    if log == [] then 0
    else multiset(log[|log| - 1].Sites(cfg))[x] + Admitted(log[..|log| - 1], cfg, x)
  }

  ghost function Recorded(rs: seq<Record>, x: Site): nat {
    if rs == [] then 0
    else rs[|rs| - 1].Spent(x) + Recorded(rs[..|rs| - 1], x)
  }

  /** The part of a tally that sits in the calls in progress. */
  function Pending(y: Site): Measure {
    match y.kind case Rpm => Holds(y) case Tpm => Spends(y)
  }

  /** The part of a tally that is settled. */
  ghost function Settled(s: State, y: Site): nat {
    match y.kind
    case Rpm => Admitted(s.admitted, s.cfg, y) + s.leaked[y]
    case Tpm => Recorded(s.recorded, y)
  }

  /** What a counter ought to read: for requests, the admitted, the leaked and the tentatively
      charged ones; for tokens, everything written so far. */
  ghost function Tally(s: State, y: Site): nat {
    Settled(s, y) + Total(s.procs, By(Pending(y)))
  }

  /** What a note adds to the settled part of y's tally. */
  function Amount(cfg: Config, note: Note, y: Site): nat {
    match note
    case NoNote => 0
    case Admits(a) => if y.kind == Rpm then multiset(a.Sites(cfg))[y] else 0
    case Leaks(x) => if y.kind == Rpm && x == y then 1 else 0
    case Records(r) => if y.kind == Tpm then r.Spent(y) else 0
  }

  function Delta(f: Effect, y: Site): int {
    if f.Adds? && f.site == y then f.delta else 0
  }

  lemma TallyOfPerformed(s: State, p: nat, t: Turn, y: Site)
    requires p < |s.procs|
    ensures Tally(Performed(s, p, t), y)
            == Tally(s, y) + Amount(s.cfg, t.note, y) - Weigh(Pending(y), s.procs[p]) + Weigh(Pending(y), t.next)
  {
    var s' := Performed(s, p, t);
    TotalOfUpdate(s.procs, p, t.next, By(Pending(y)));
    if t.note.Admits? {
      assert s'.admitted[..|s.admitted|] == s.admitted;
    } else if t.note.Records? {
      assert s'.recorded[..|s.recorded|] == s.recorded;
    }
  }

  // ---- Calls stay well formed, and every step balances the books ---------------------------

  /** What the call's token counter for a layer read when the call began. */
  function Floor(call: Check, l: Layer): int {
    Count(call.atStart, At(Tpm, l, Minute(call.start)), call.start)
  }

  ghost predicate CallOk(clock: nat, call: Check) {
    && call.start <= clock
    && (forall x <- call.held :: x.kind == Rpm && x.minute == Minute(call.start))
    && (!call.pc.Undoing? ==> OnTrack(call))
    && (call.pc.Charge? ==> call.pc.prev >= 0 && call.rpm != [])
    && (call.pc.ReadTpm? || call.pc.ReadTpmPrev? ==> call.rpm == [])
    && (call.pc.ReadTpmPrev? ==> call.tpm != [] && Floor(call, call.tpm[0]) <= call.pc.curr)
  }

  /** A call that has not been refused: charged and uncharged layers together are the layers it
      checks, and every token layer it passed had tokens left when it began. */
  ghost predicate OnTrack(call: Check) {
    && call.held + SitesOf(call.rpm, Minute(call.start)) == SitesOf(call.allRpm, Minute(call.start))
    && (forall l <- call.rpm :: l in call.allRpm)
    && call.passed + call.tpm == call.allTpm
    && (forall l <- call.passed :: Floor(call, l) < l.limit)
  }

  /** The layers a call checks are the limited layers of its request. */
  ghost predicate FromRequest(cfg: Config, call: Check) {
    && call.allRpm == LimitedLayers(Rpm, cfg, call.model, call.key)
    && call.allTpm == LimitedLayers(Tpm, cfg, call.model, call.key)
  }

  ghost predicate ProcOk(cfg: Config, clock: nat, p: Proc) {
    match p
    case Idle => true
    case Allowing(call) => CallOk(clock, call) && FromRequest(cfg, call)
    case Recording(r) => r.written < 3 && r.start <= clock
  }

  ghost predicate Balances(cfg: Config, p: Proc, t: Turn, y: Site) {
    Amount(cfg, t.note, y) - Weigh(Pending(y), p) + Weigh(Pending(y), t.next) == Delta(t.effect, y)
  }

  lemma ChargeBalances(cfg: Config, call: Check, next: Check, x: Site, y: Site)
    requires x.kind == Rpm && next.held == call.held + [x]
    ensures Balances(cfg, Allowing(call), Turn(Allowing(next), Adds(x, 1), NoNote), y)
  {
    assert multiset(call.held + [x])[y] == multiset(call.held)[y] + if x == y then 1 else 0;
  }

  lemma UndoBalances(cfg: Config, call: Check, next: Check, y: Site)
    requires call.held != [] && call.held[0].kind == Rpm && next.held == call.held[1..]
    ensures Balances(cfg, Allowing(call), Turn(Allowing(next), Adds(call.held[0], -1), NoNote), y)
    ensures Balances(cfg, Allowing(call), Turn(Allowing(next), NoWrite, Leaks(call.held[0])), y)
  {
    assert call.held == [call.held[0]] + call.held[1..];
    assert multiset(call.held)[y] == multiset(call.held[1..])[y] + if call.held[0] == y then 1 else 0;
  }

  lemma AdmissionBalances(cfg: Config, call: Check, a: Admission, y: Site)
    requires call.held == a.Sites(cfg) && (forall x <- call.held :: x.kind == Rpm)
    ensures Balances(cfg, Allowing(call), Turn(Idle, NoWrite, Admits(a)), y)
  {
    assert y in call.held <==> multiset(call.held)[y] > 0;
  }

  lemma ReadBalances(cfg: Config, call: Check, next: Check, y: Site)
    requires next.held == call.held
    ensures Balances(cfg, Allowing(call), Turn(Allowing(next), NoWrite, NoNote), y)
  {
  }

  /** A call that has come through every layer holds exactly what its admission is charged. */
  lemma HeldIsCharged(cfg: Config, now: nat, call: Check)
    requires CallOk(now, call) && FromRequest(cfg, call) && call.pc.ReadTpm?
    ensures call.held == Admission(call.start, call.model, call.key, call.atStart).Sites(cfg)
  {
    assert call.held + SitesOf(call.rpm, Minute(call.start)) == call.held;
  }

  lemma ResumedCharge(cfg: Config, c: Cells, now: nat, call: Check, y: Site)
    requires call.pc.Charge? && call.rpm != []
    ensures Balances(cfg, Allowing(call), Resumed(c, now, call), y)
  {
    var t := Resumed(c, now, call);
    ChargeBalances(cfg, call, t.next.call, t.effect.site, y);
  }

  lemma AdmittedBalances(cfg: Config, c: Cells, now: nat, call: Check, y: Site)
    requires CallOk(now, call) && FromRequest(cfg, call) && call.pc.ReadTpm? && call.tpm == []
    ensures Balances(cfg, Allowing(call), Resumed(c, now, call), y)
  {
    HeldIsCharged(cfg, now, call);
    AdmissionBalances(cfg, call, Admission(call.start, call.model, call.key, call.atStart), y);
  }

  lemma ResumedBalances(cfg: Config, c: Cells, now: nat, call: Check, y: Site)
    requires CallOk(now, call) && FromRequest(cfg, call)
    ensures Balances(cfg, Allowing(call), Resumed(c, now, call), y)
  {
    var t := Resumed(c, now, call);
    if call.pc.Charge? {
      ResumedCharge(cfg, c, now, call, y);
    } else if call.pc.Undoing? && call.held != [] {
      UndoBalances(cfg, call, t.next.call, y);
    } else if call.pc.ReadTpm? && call.tpm == [] {
      AdmittedBalances(cfg, c, now, call, y);
    } else if !call.pc.Undoing? {
      ReadBalances(cfg, call, t.next.call, y);
    }
  }

  lemma FailedBalances(cfg: Config, now: nat, call: Check, y: Site)
    requires CallOk(now, call)
    ensures Balances(cfg, Allowing(call), Failed(call), y)
  {
    if call.pc.Undoing? && call.held != [] {
      UndoBalances(cfg, call, Failed(call).next.call, y);
    }
  }

  lemma SpentOnce(sites: seq<Site>, n: nat, delta: nat, y: Site)
    requires n < |sites|
    ensures delta * multiset(sites[..n + 1])[y] == delta * multiset(sites[..n])[y] + if sites[n] == y then delta else 0
  {
    assert sites[..n + 1] == sites[..n] + [sites[n]];
    assert multiset(sites[..n + 1])[y] == multiset(sites[..n])[y] + if sites[n] == y then 1 else 0;
  }

  lemma WrittenBalances(cfg: Config, r: Record, y: Site)
    requires r.written < 3
    ensures Balances(cfg, Recording(r), Written(r), y)
  {
    SpentOnce(r.AllSites(), r.written, r.delta, y);
  }

  ghost predicate ProcsOk(s: State) {
    forall i :: 0 <= i < |s.procs| ==> ProcOk(s.cfg, s.clock, s.procs[i])
  }

  lemma FreshBalances(cfg: Config, next: Proc, y: Site)
    requires (next.Allowing? && next.call.held == []) || (next.Recording? && next.record.written == 0)
    ensures Balances(cfg, Idle, Turn(next, NoWrite, NoNote), y)
  {
    if next.Recording? {
      assert next.record.Sites() == [];
    }
  }

  lemma TurnBalances(s: State, e: Event, y: Site)
    requires Enabled(s, e) && !e.Tick? && !e.SweepAt? && ProcsOk(s)
    ensures Balances(s.cfg, s.procs[e.p], TurnOf(s, e), y)
  {
    assert ProcOk(s.cfg, s.clock, s.procs[e.p]);
    match e
    case Advance(p) => ResumedBalances(s.cfg, s.cells, s.clock, s.procs[p].call, y);
    case WriteFails(p) => FailedBalances(s.cfg, s.clock, s.procs[p].call, y);
    case WriteRecord(p) => WrittenBalances(s.cfg, s.procs[p].record, y);
    case RecordFails(p) =>
    case Begin(_, model, key) => FreshBalances(s.cfg, Allowing(Begun(s.cfg, s.cells, s.clock, model, key)), y);
    case BeginRecord(_, delta, model, key) =>
      FreshBalances(s.cfg, Recording(Record(s.clock, delta, model, key, 0)), y);
  }

  /** The tallies change by exactly what is written to the cache. */
  lemma TallyOfNext(s: State, e: Event, y: Site)
    requires Enabled(s, e) && ProcsOk(s)
    ensures e.Tick? || e.SweepAt? ==> Tally(Next(s, e), y) == Tally(s, y)
    ensures !e.Tick? && !e.SweepAt? ==> Tally(Next(s, e), y) == Tally(s, y) + Delta(TurnOf(s, e).effect, y)
  {
    if !e.Tick? && !e.SweepAt? {
      TurnBalances(s, e, y);
      TallyOfPerformed(s, e.p, TurnOf(s, e), y);
    }
  }

  // ---- Counters are accurate ---------------------------------------------------------------

  /** The stored counter is n for as long as it exists, and it exists, if n is not zero, until
      the horizon of its minute. */
  ghost predicate Accurate(c: Cells, clock: nat, x: Site, n: int) {
    if x in c then c[x].value == n && Horizon(x.minute) <= c[x].expireAt
    else n == 0 || clock > Horizon(x.minute)
  }

  /** A write within the horizon of the counter's minute finds the counter alive or not yet
      created, so it keeps it accurate. */
  lemma WriteKeepsAccurate(c: Cells, clock: nat, x: Site, delta: int, y: Site, n: int)
    requires Accurate(c, clock, y, n)
    requires clock <= Horizon(x.minute) <= clock + TTL
    ensures Accurate(Bumped(c, x, delta, clock), clock, y, n + if x == y then delta else 0)
    ensures x == y ==> Count(Bumped(c, x, delta, clock), x, clock) == n + delta
  {
  }

  lemma AccurateRead(c: Cells, clock: nat, y: Site, n: nat)
    requires Accurate(c, clock, y, n)
    ensures 0 <= Count(c, y, clock) <= n
    ensures clock <= Horizon(y.minute) ==> Count(c, y, clock) == n
  {
  }

  ghost predicate Counted(s: State, y: Site) {
    Accurate(s.cells, s.clock, y, Tally(s, y))
  }

  /** The effect is a write to a counter of the given minute; token writes only add. */
  predicate WritesTo(f: Effect, minute: int) {
    f.Adds? ==> f.site.minute == minute && (f.site.kind == Tpm ==> f.delta > 0)
  }

  lemma ResumedWrites(c: Cells, now: nat, call: Check)
    requires CallOk(now, call)
    ensures WritesTo(Resumed(c, now, call).effect, Minute(call.start))
  {
    if call.held != [] { assert call.held[0] in call.held; }
  }

  lemma InTimeWindow(s: State, start: nat)
    requires start <= s.clock <= Horizon(Minute(start))
    ensures s.clock <= Horizon(Minute(start)) <= s.clock + TTL
  {
    assert 60 * Minute(start) * SECOND <= start;
  }

  /** A timely step writes within the horizon of the counter. */
  ghost predicate TimelyEffect(clock: nat, f: Effect) {
    f.Adds? ==> clock <= Horizon(f.site.minute) <= clock + TTL && (f.site.kind == Tpm ==> f.delta > 0)
  }

  lemma AdvanceInTime(s: State, call: Check)
    requires CallOk(s.clock, call) && s.clock <= Horizon(Minute(call.start))
    ensures TimelyEffect(s.clock, Resumed(s.cells, s.clock, call).effect)
  {
    ResumedWrites(s.cells, s.clock, call);
    InTimeWindow(s, call.start);
  }

  lemma RecordInTime(s: State, r: Record)
    requires r.written < 3 && r.start <= s.clock <= Horizon(Minute(r.start))
    ensures TimelyEffect(s.clock, Written(r).effect)
  {
    var x := r.AllSites()[r.written];
    assert x.minute == Minute(r.start);
    InTimeWindow(s, r.start);
  }

  lemma OthersWriteNothing(s: State, e: Event)
    requires Enabled(s, e) && !e.Tick? && !e.SweepAt? && !e.Advance? && !e.WriteRecord?
    ensures TurnOf(s, e).effect == NoWrite
  {
  }

  lemma WritesInTime(s: State, e: Event)
    requires Enabled(s, e) && !e.Tick? && !e.SweepAt? && InTime(s, e) && ProcsOk(s)
    ensures TimelyEffect(s.clock, TurnOf(s, e).effect)
  {
    assert ProcOk(s.cfg, s.clock, s.procs[e.p]);
    match e
    case Advance(p) => AdvanceInTime(s, s.procs[p].call);
    case WriteRecord(p) => RecordInTime(s, s.procs[p].record);
    case _ => OthersWriteNothing(s, e);
  }

  lemma EffectKeepsAccurate(c: Cells, clock: nat, f: Effect, y: Site, n: int)
    requires Accurate(c, clock, y, n) && TimelyEffect(clock, f)
    ensures Accurate(if f.Adds? then Bumped(c, f.site, f.delta, clock) else c, clock, y, n + Delta(f, y))
  {
    if f.Adds? {
      WriteKeepsAccurate(c, clock, f.site, f.delta, y, n);
    }
  }

  lemma TurnKeepsCounted(s: State, p: nat, t: Turn, y: Site)
    requires p < |s.procs| && Counted(s, y) && TimelyEffect(s.clock, t.effect)
    requires Balances(s.cfg, s.procs[p], t, y)
    ensures Counted(Performed(s, p, t), y)
  {
    TallyOfPerformed(s, p, t, y);
    EffectKeepsAccurate(s.cells, s.clock, t.effect, y, Tally(s, y));
  }

  lemma StepKeepsCounted(s: State, e: Event, y: Site)
    requires Enabled(s, e) && InTime(s, e) && ProcsOk(s) && Counted(s, y)
    ensures Counted(Next(s, e), y)
  {
    if !e.Tick? && !e.SweepAt? {
      TurnBalances(s, e, y);
      WritesInTime(s, e);
      TurnKeepsCounted(s, e.p, TurnOf(s, e), y);
    }
  }

  // ---- Calls stay well formed ---------------------------------------------------------------

  /** The token counters have not fallen since a call in progress began. */
  ghost predicate FloorsKept(s: State) {
    forall i :: 0 <= i < |s.procs| && s.procs[i].Allowing? ==> FloorKept(s, s.procs[i].call)
  }

  lemma ChargeOk(now: nat, call: Check)
    requires CallOk(now, call) && call.pc.Charge?
    ensures var x := At(Rpm, call.rpm[0], Minute(call.start));
            && CallOk(now, call.(held := call.held + [x], pc := Undoing))
            && CallOk(now, call.(held := call.held + [x], pc := ReadPrev, rpm := call.rpm[1..]))
  {
    var minute: int, x := Minute(call.start), At(Rpm, call.rpm[0], Minute(call.start));
    assert SitesOf(call.rpm, minute) == [x] + SitesOf(call.rpm[1..], minute);
    assert call.held + [x] + SitesOf(call.rpm[1..], minute) == call.held + SitesOf(call.rpm, minute);
  }

  lemma PassOk(now: nat, call: Check, prev: int)
    requires CallOk(now, call) && call.pc.ReadTpmPrev? && prev >= 0
    requires Estimate(call.pc.curr, prev, SecondOf(call.start)) < 60 * call.tpm[0].limit
    ensures CallOk(now, call.(pc := ReadTpm, tpm := call.tpm[1..], passed := call.passed + [call.tpm[0]]))
  {
    assert call.passed + [call.tpm[0]] + call.tpm[1..] == call.passed + call.tpm;
    assert prev * (60 - SecondOf(call.start)) >= 0;
    assert Floor(call, call.tpm[0]) < call.tpm[0].limit;
  }

  lemma MoveOk(now: nat, call: Check, pc: Pc)
    requires CallOk(now, call) && (pc.Undoing? || !call.pc.Undoing?)
    requires pc.Charge? ==> pc.prev >= 0 && call.rpm != []
    requires pc.ReadTpm? || pc.ReadTpmPrev? ==> call.rpm == []
    requires pc.ReadTpmPrev? ==> call.tpm != [] && Floor(call, call.tpm[0]) <= pc.curr
    ensures CallOk(now, call.(pc := pc))
  {
  }

  lemma UndoOk(now: nat, call: Check)
    requires CallOk(now, call) && call.pc.Undoing? && call.held != []
    ensures CallOk(now, call.(held := call.held[1..]))
  {
    assert forall x <- call.held[1..] :: x in call.held;
  }

  /** The counters a call reads never run ahead of what is safe to conclude from them. */
  ghost predicate ReadsOk(c: Cells, now: nat, call: Check) {
    && (forall y: Site :: Count(c, y, now) >= 0)
    && (forall l: Layer :: Floor(call, l) <= Count(c, At(Tpm, l, Minute(call.start)), now))
  }

  lemma ResumedOk(c: Cells, now: nat, call: Check)
    requires CallOk(now, call) && ReadsOk(c, now, call)
    ensures Resumed(c, now, call).next.Allowing? ==> CallOk(now, Resumed(c, now, call).next.call)
  {
    var minute: int := Minute(call.start);
    match call.pc
    case ReadPrev =>
      if call.rpm == [] { MoveOk(now, call, ReadTpm); }
      else { MoveOk(now, call, Charge(Count(c, At(Rpm, call.rpm[0], minute - 1), now))); }
    case Charge(_) => ChargeOk(now, call);
    case ReadTpm =>
      if call.tpm != [] { MoveOk(now, call, ReadTpmPrev(Count(c, At(Tpm, call.tpm[0], minute), now))); }
    case ReadTpmPrev(curr) =>
      var prev := Count(c, At(Tpm, call.tpm[0], minute - 1), now);
      if Estimate(curr, prev, SecondOf(call.start)) < 60 * call.tpm[0].limit { PassOk(now, call, prev); }
      else { MoveOk(now, call, Undoing); }
    case Undoing =>
      if call.held != [] { UndoOk(now, call); }
  }

  lemma FailedOk(now: nat, call: Check)
    requires CallOk(now, call)
    ensures CallOk(now, Failed(call).next.call)
  {
    if call.pc.Charge? { MoveOk(now, call, Undoing); }
    else if call.pc.Undoing? && call.held != [] { UndoOk(now, call); }
  }

  lemma BegunOk(cfg: Config, c: Cells, now: nat, model: string, key: string)
    ensures CallOk(now, Begun(cfg, c, now, model, key)) && FromRequest(cfg, Begun(cfg, c, now, model, key))
  {
    var rpm, tpm := LimitedLayers(Rpm, cfg, model, key), LimitedLayers(Tpm, cfg, model, key);
    assert [] + SitesOf(rpm, Minute(now)) == SitesOf(rpm, Minute(now)) && [] + tpm == tpm;
  }

  /** A later step of a call leaves its identity alone. */
  ghost predicate SameCall(before: Check, after: Proc) {
    after.Allowing? ==>
      && after.call.start == before.start && after.call.atStart == before.atStart
      && after.call.model == before.model && after.call.key == before.key
      && after.call.allRpm == before.allRpm && after.call.allTpm == before.allTpm
  }

  lemma ResumedSameCall(c: Cells, now: nat, call: Check)
    ensures SameCall(call, Resumed(c, now, call).next) && SameCall(call, Failed(call).next)
    ensures !Resumed(c, now, call).next.Recording? && Failed(call).next.Allowing?
  {
  }

  ghost predicate AllCounted(s: State) {
    forall y :: Counted(s, y)
  }

  lemma CountsReadOk(s: State, i: nat)
    requires AllCounted(s) && FloorsKept(s)
    requires i < |s.procs| && s.procs[i].Allowing? && s.clock <= Horizon(Minute(s.procs[i].call.start))
    ensures ReadsOk(s.cells, s.clock, s.procs[i].call)
  {
    var call := s.procs[i].call;
    forall y: Site ensures Count(s.cells, y, s.clock) >= 0 {
      assert Counted(s, y);
      AccurateRead(s.cells, s.clock, y, Tally(s, y));
    }
    forall l: Layer ensures Floor(call, l) <= Count(s.cells, At(Tpm, l, Minute(call.start)), s.clock) {
      var y := At(Tpm, l, Minute(call.start));
      assert Counted(s, y);
      AccurateRead(s.cells, s.clock, y, Tally(s, y));
    }
  }

  /** Whatever a step makes of the call that takes it is well formed again. */
  lemma TurnOk(s: State, e: Event)
    requires Enabled(s, e) && !e.Tick? && !e.SweepAt? && InTime(s, e)
    requires ProcsOk(s) && AllCounted(s) && FloorsKept(s)
    ensures ProcOk(s.cfg, s.clock, TurnOf(s, e).next)
  {
    assert ProcOk(s.cfg, s.clock, s.procs[e.p]);
    match e
    case Begin(_, model, key) => BegunOk(s.cfg, s.cells, s.clock, model, key);
    case Advance(p) =>
      CountsReadOk(s, p);
      ResumedOk(s.cells, s.clock, s.procs[p].call);
      ResumedSameCall(s.cells, s.clock, s.procs[p].call);
    case WriteFails(p) =>
      FailedOk(s.clock, s.procs[p].call);
      ResumedSameCall(s.cells, s.clock, s.procs[p].call);
    case BeginRecord(_, _, _, _) =>
    case WriteRecord(p) =>
    case RecordFails(p) =>
  }

  lemma StepKeepsProcsOk(s: State, e: Event)
    requires Enabled(s, e) && InTime(s, e) && ProcsOk(s) && AllCounted(s) && FloorsKept(s)
    ensures ProcsOk(Next(s, e))
  {
    if !e.Tick? && !e.SweepAt? {
      TurnOk(s, e);
    }
  }

  /** The floor of a call against the tallies. */
  ghost predicate FloorKept(s: State, call: Check) {
    forall l: Layer :: Floor(call, l) <= Tally(s, At(Tpm, l, Minute(call.start)))
  }

  lemma BegunFloor(s: State, model: string, key: string)
    requires AllCounted(s)
    ensures FloorKept(s, Begun(s.cfg, s.cells, s.clock, model, key))
  {
    var call := Begun(s.cfg, s.cells, s.clock, model, key);
    forall l: Layer ensures Floor(call, l) <= Tally(s, At(Tpm, l, Minute(call.start))) {
      var y := At(Tpm, l, Minute(s.clock));
      assert Counted(s, y);
      AccurateRead(s.cells, s.clock, y, Tally(s, y));
    }
  }

  lemma NextFloor(s: State, e: Event)
    requires Enabled(s, e) && !e.Tick? && !e.SweepAt?
    requires AllCounted(s) && FloorsKept(s)
    ensures TurnOf(s, e).next.Allowing? ==> FloorKept(s, TurnOf(s, e).next.call)
  {
    match e
    case Begin(_, model, key) => BegunFloor(s, model, key);
    case Advance(p) => ResumedSameCall(s.cells, s.clock, s.procs[p].call);
    case WriteFails(p) => ResumedSameCall(s.cells, s.clock, s.procs[p].call);
    case _ =>
  }

  lemma TokensNeverFall(s: State, e: Event, y: Site)
    requires Enabled(s, e) && InTime(s, e) && ProcsOk(s) && y.kind == Tpm
    ensures Tally(Next(s, e), y) >= Tally(s, y)
  {
    TallyOfNext(s, e, y);
    if !e.Tick? && !e.SweepAt? { WritesInTime(s, e); }
  }

  /** The calls of the next state are known, or begin, with their floors kept. */
  lemma ProcFloor(s: State, e: Event, i: nat)
    requires Enabled(s, e) && AllCounted(s) && FloorsKept(s)
    requires i < |Next(s, e).procs| && Next(s, e).procs[i].Allowing?
    ensures FloorKept(s, Next(s, e).procs[i].call)
  {
    if !e.Tick? && !e.SweepAt? && i == e.p {
      NextFloor(s, e);
    } else {
      assert Next(s, e).procs[i] == s.procs[i];
    }
  }

  lemma FloorStays(s: State, e: Event, call: Check)
    requires Enabled(s, e) && InTime(s, e) && ProcsOk(s) && FloorKept(s, call)
    ensures FloorKept(Next(s, e), call)
  {
    forall l: Layer ensures Floor(call, l) <= Tally(Next(s, e), At(Tpm, l, Minute(call.start))) {
      TokensNeverFall(s, e, At(Tpm, l, Minute(call.start)));
    }
  }

  lemma StepKeepsFloors(s: State, e: Event)
    requires Enabled(s, e) && InTime(s, e) && ProcsOk(s) && AllCounted(s) && FloorsKept(s)
    ensures FloorsKept(Next(s, e))
  {
    var s' := Next(s, e);
    forall i | 0 <= i < |s'.procs| && s'.procs[i].Allowing? ensures FloorKept(s', s'.procs[i].call) {
      ProcFloor(s, e, i);
      FloorStays(s, e, s'.procs[i].call);
    }
  }

  // ---- The request limits hold -------------------------------------------------------------

  /** The admissions charged to y and the calls in progress that y's layer has let through. */
  ghost function LetThrough(s: State, y: Site): nat {
    Admitted(s.admitted, s.cfg, y) + Total(s.procs, By(Passes(y)))
  }

  ghost predicate Bounded(s: State, y: Site) {
    y.kind == Rpm && LimitFor(s.cfg, y) > 0 ==> LetThrough(s, y) <= LimitFor(s.cfg, y)
  }

  lemma PassesAreHeld(ps: seq<Proc>, y: Site)
    ensures Total(ps, By(Passes(y))) <= Total(ps, By(Holds(y)))
  {
    TotalAtMost(ps, By(Passes(y)), By(Holds(y)));
  }

  lemma LetThroughOfPerformed(s: State, p: nat, t: Turn, y: Site)
    requires p < |s.procs| && y.kind == Rpm
    ensures LetThrough(Performed(s, p, t), y)
            == LetThrough(s, y) + (if t.note.Admits? then Amount(s.cfg, t.note, y) else 0)
               - Weigh(Passes(y), s.procs[p]) + Weigh(Passes(y), t.next)
  {
    TotalOfUpdate(s.procs, p, t.next, By(Passes(y)));
    if t.note.Admits? {
      assert Performed(s, p, t).admitted[..|s.admitted|] == s.admitted;
    }
  }

  /** The turn lets y's layer pass no call that had not passed it before. */
  ghost predicate PassesNoMore(cfg: Config, p: Proc, t: Turn, y: Site) {
    (if t.note.Admits? then Amount(cfg, t.note, y) else 0) + Weigh(Passes(y), t.next) <= Weigh(Passes(y), p)
  }

  /** The turn charges y and passes: the count it gets back is within the limit. */
  predicate PassesAt(c: Cells, now: nat, cfg: Config, t: Turn, y: Site) {
    t.effect == Adds(y, 1) && Count(Bumped(c, y, 1, now), y, now) <= LimitFor(cfg, y)
  }

  lemma LayerLimit(cfg: Config, call: Check, l: Layer)
    requires FromRequest(cfg, call) && l in call.allRpm
    ensures LimitFor(cfg, At(Rpm, l, Minute(call.start))) == l.limit
  {
  }

  /** The estimate is at least the current count. */
  lemma EstimateBounds(curr: int, prev: int, sec: nat, limit: int)
    requires sec < 60 && prev >= 0
    ensures Estimate(curr, prev, sec) <= 60 * limit ==> curr <= limit
  {
    assert prev * (60 - sec) >= 0;
  }

  lemma ChargePasses(cfg: Config, c: Cells, now: nat, call: Check, y: Site)
    requires CallOk(now, call) && FromRequest(cfg, call) && call.pc.Charge? && y.kind == Rpm
    ensures var t := Resumed(c, now, call);
            PassesNoMore(cfg, Allowing(call), t, y) || PassesAt(c, now, cfg, t, y)
  {
    var l, x := call.rpm[0], At(Rpm, call.rpm[0], Minute(call.start));
    var curr, prev, sec := Count(Bumped(c, x, 1, now), x, now), call.pc.prev, SecondOf(call.start);
    LayerLimit(cfg, call, l);
    assert multiset(call.held + [x])[y] == multiset(call.held)[y] + if x == y then 1 else 0;
    EstimateBounds(curr, prev, sec, l.limit);
  }

  lemma AdmissionPasses(cfg: Config, c: Cells, now: nat, call: Check, y: Site)
    requires CallOk(now, call) && FromRequest(cfg, call) && y.kind == Rpm && call.pc.ReadTpm? && call.tpm == []
    ensures PassesNoMore(cfg, Allowing(call), Resumed(c, now, call), y)
  {
    HeldIsCharged(cfg, now, call);
  }

  lemma OthersPassNothing(cfg: Config, c: Cells, now: nat, call: Check, y: Site)
    requires !call.pc.Charge? && !(call.pc.ReadTpm? && call.tpm == [])
    ensures PassesNoMore(cfg, Allowing(call), Resumed(c, now, call), y)
  {
  }

  lemma ResumedPasses(cfg: Config, c: Cells, now: nat, call: Check, y: Site)
    requires CallOk(now, call) && FromRequest(cfg, call) && y.kind == Rpm
    ensures var t := Resumed(c, now, call);
            PassesNoMore(cfg, Allowing(call), t, y) || PassesAt(c, now, cfg, t, y)
  {
    if call.pc.Charge? {
      ChargePasses(cfg, c, now, call, y);
    } else if call.pc.ReadTpm? && call.tpm == [] {
      AdmissionPasses(cfg, c, now, call, y);
    } else {
      OthersPassNothing(cfg, c, now, call, y);
    }
  }

  lemma TurnPasses(s: State, e: Event, y: Site)
    requires Enabled(s, e) && !e.Tick? && !e.SweepAt? && ProcsOk(s) && y.kind == Rpm
    ensures PassesNoMore(s.cfg, s.procs[e.p], TurnOf(s, e), y) || PassesAt(s.cells, s.clock, s.cfg, TurnOf(s, e), y)
  {
    assert ProcOk(s.cfg, s.clock, s.procs[e.p]);
    match e
    case Advance(p) => ResumedPasses(s.cfg, s.cells, s.clock, s.procs[p].call, y);
    case _ => OnlyAdvancePasses(s, e, y);
  }

  lemma OnlyAdvancePasses(s: State, e: Event, y: Site)
    requires Enabled(s, e) && !e.Tick? && !e.SweepAt? && !e.Advance? && y.kind == Rpm
    ensures PassesNoMore(s.cfg, s.procs[e.p], TurnOf(s, e), y)
  {
  }

  lemma TurnKeepsBounded(s: State, p: nat, t: Turn, y: Site)
    requires p < |s.procs| && y.kind == Rpm && Counted(s, y) && Bounded(s, y)
    requires Balances(s.cfg, s.procs[p], t, y) && TimelyEffect(s.clock, t.effect)
    requires PassesNoMore(s.cfg, s.procs[p], t, y) || PassesAt(s.cells, s.clock, s.cfg, t, y)
    ensures Bounded(Performed(s, p, t), y)
  {
    if PassesNoMore(s.cfg, s.procs[p], t, y) {
      LetThroughOfPerformed(s, p, t, y);
    } else {
      TallyOfPerformed(s, p, t, y);
      WriteKeepsAccurate(s.cells, s.clock, y, 1, y, Tally(s, y));
      PassesAreHeld(Performed(s, p, t).procs, y);
    }
  }

  lemma StepKeepsBounded(s: State, e: Event, y: Site)
    requires Enabled(s, e) && InTime(s, e) && ProcsOk(s) && Counted(s, y) && Bounded(s, y)
    ensures Bounded(Next(s, e), y)
  {
    if !e.Tick? && !e.SweepAt? && y.kind == Rpm {
      TurnBalances(s, e, y);
      WritesInTime(s, e);
      TurnPasses(s, e, y);
      TurnKeepsBounded(s, e.p, TurnOf(s, e), y);
    }
  }

  // ---- Token layers had tokens left ----------------------------------------------------------

  /** When the admitted call began, every limited token counter that covers it was below its limit. */
  ghost predicate HadTokens(cfg: Config, a: Admission) {
    forall l <- LimitedLayers(Tpm, cfg, a.model, a.key) ::
      Count(a.atStart, At(Tpm, l, Minute(a.start)), a.start) < l.limit
  }

  ghost predicate AdmissionsOk(s: State) {
    forall a <- s.admitted :: HadTokens(s.cfg, a)
  }

  lemma AdmissionHadTokens(cfg: Config, c: Cells, now: nat, call: Check)
    requires CallOk(now, call) && FromRequest(cfg, call)
    ensures Resumed(c, now, call).note.Admits? ==> HadTokens(cfg, Resumed(c, now, call).note.a)
  {
    if call.pc.ReadTpm? && call.tpm == [] {
      assert call.passed + call.tpm == call.passed;
      forall l | l in call.passed ensures Count(call.atStart, At(Tpm, l, Minute(call.start)), call.start) < l.limit {
        assert Floor(call, l) < l.limit;
      }
    }
  }

  lemma OnlyAdvanceAdmits(s: State, e: Event)
    requires Enabled(s, e) && !e.Tick? && !e.SweepAt? && !e.Advance?
    ensures !TurnOf(s, e).note.Admits?
  {
  }

  lemma PerformedAdmissions(s: State, p: nat, t: Turn)
    requires p < |s.procs| && AdmissionsOk(s) && (t.note.Admits? ==> HadTokens(s.cfg, t.note.a))
    ensures AdmissionsOk(Performed(s, p, t))
  {
  }

  lemma StepKeepsAdmissions(s: State, e: Event)
    requires Enabled(s, e) && ProcsOk(s) && AdmissionsOk(s)
    ensures AdmissionsOk(Next(s, e))
  {
    if !e.Tick? && !e.SweepAt? {
      if e.Advance? {
        assert ProcOk(s.cfg, s.clock, s.procs[e.p]);
        AdmissionHadTokens(s.cfg, s.cells, s.clock, s.procs[e.p].call);
      } else {
        OnlyAdvanceAdmits(s, e);
      }
      PerformedAdmissions(s, e.p, TurnOf(s, e));
    }
  }

  // ---- Whole runs ------------------------------------------------------------------------------

  ghost predicate Inv(s: State) {
    && ProcsOk(s) && AllCounted(s) && FloorsKept(s) && AdmissionsOk(s)
    && (forall y :: Bounded(s, y))
  }

  lemma InitInv(s: State)
    requires Init(s)
    ensures Inv(s)
  {
    forall y ensures Counted(s, y) && Bounded(s, y) {
      TotalWithin(s.procs, By(Pending(y)), 0);
      TotalWithin(s.procs, By(Passes(y)), 0);
    }
  }

  lemma StepKeepsInv(s: State, e: Event)
    requires Inv(s) && Enabled(s, e) && InTime(s, e)
    ensures Inv(Next(s, e))
  {
    StepKeepsProcsOk(s, e);
    StepKeepsFloors(s, e);
    StepKeepsAdmissions(s, e);
    forall y ensures Counted(Next(s, e), y) && Bounded(Next(s, e), y) {
      assert Counted(s, y) && Bounded(s, y);
      StepKeepsCounted(s, e, y);
      StepKeepsBounded(s, e, y);
    }
  }

  lemma {:induction false} InvInEveryState(ss: seq<State>, es: seq<Event>, i: nat)
    requires TimelyRun(ss, es) && i < |ss|
    ensures Inv(ss[i]) && ss[i].cfg == ss[0].cfg
    decreases i
  {
    if i == 0 {
      InitInv(ss[0]);
    } else {
      InvInEveryState(ss, es, i - 1);
      assert Enabled(ss[i - 1], es[i - 1]) && ss[i - 1 + 1] == Next(ss[i - 1], es[i - 1]);
      assert InTime(ss[i - 1], es[i - 1]);
      StepKeepsInv(ss[i - 1], es[i - 1]);
    }
  }

  /** In every state of every timely run, a counter within the horizon of its minute reads exactly
      its tally: a request counter the admitted, leaked and tentatively charged calls, a token
      counter all tokens written. A rejected call therefore leaves no trace. */
  lemma CountersAreExact(ss: seq<State>, es: seq<Event>, i: nat, y: Site)
    requires TimelyRun(ss, es) && i < |ss| && ss[i].clock <= Horizon(y.minute)
    ensures Count(ss[i].cells, y, ss[i].clock) == Tally(ss[i], y)
  {
    InvInEveryState(ss, es, i);
    assert Counted(ss[i], y);
    AccurateRead(ss[i].cells, ss[i].clock, y, Tally(ss[i], y));
  }

  /** However the calls interleave, the admissions charged to a limited counter in its minute
      never exceed the limit. */
  lemma AdmissionsWithinLimit(ss: seq<State>, es: seq<Event>, i: nat, y: Site)
    requires TimelyRun(ss, es) && i < |ss| && y.kind == Rpm && LimitFor(ss[0].cfg, y) > 0
    ensures Admitted(ss[i].admitted, ss[0].cfg, y) <= LimitFor(ss[0].cfg, y)
  {
    InvInEveryState(ss, es, i);
    assert Bounded(ss[i], y);
  }

  /** The request is covered by this counter's layer. */
  predicate Covers(cfg: Config, a: Admission, y: Site) {
    && y.kind == Rpm && y.minute == Minute(a.start) && LimitFor(cfg, y) > 0
    && y.id == match y.scope case Global => "" case Model => a.model case Key => a.key
  }

  function Charges(l: Layer, minute: int, y: Site): nat {
    if l.limit > 0 && At(Rpm, l, minute) == y then 1 else 0
  }

  lemma {:induction false} SitesOfLimited(ls: seq<Layer>, minute: int, y: Site)
    ensures multiset(SitesOf(Limited(ls), minute))[y]
            == if ls == [] then 0
               else Charges(ls[0], minute, y) + multiset(SitesOf(Limited(ls[1..]), minute))[y]
  {
    if ls != [] && ls[0].limit > 0 {
      var rest := Limited(ls[1..]);
      assert ([ls[0]] + rest)[1..] == rest;
    } else if ls != [] {
      assert [] + Limited(ls[1..]) == Limited(ls[1..]);
    }
  }

  lemma SitesOfThree(f: Layer, g: Layer, h: Layer, minute: int, y: Site)
    ensures multiset(SitesOf(Limited([f, g, h]), minute))[y]
            == Charges(f, minute, y) + Charges(g, minute, y) + Charges(h, minute, y)
  {
    SitesOfLimited([f, g, h], minute, y);
    SitesOfLimited([g, h], minute, y);
    SitesOfLimited([h], minute, y);
    SitesOfLimited([], minute, y);
    assert [f, g, h][1..] == [g, h] && [g, h][1..] == [h] && [h][1..] == [];
  }

  /** Every admission is charged once to each counter that covers it, and to no other. */
  lemma ChargedOnce(cfg: Config, a: Admission, y: Site)
    ensures multiset(a.Sites(cfg))[y] == if Covers(cfg, a, y) then 1 else 0
  {
    var ls := Layers(Rpm, cfg, a.model, a.key);
    SitesOfThree(ls[0], ls[1], ls[2], Minute(a.start), y);
    assert ls == [ls[0], ls[1], ls[2]];
  }
}
