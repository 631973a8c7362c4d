/**
  `logging.AsyncLogger` over `sqlite.SQLiteLogger`: senders drop entries into a bounded channel, a
  worker collects them into batches and writes them to the table, Flush drains the channel on its
  own, and Close lets the worker drain what is left. One tier is modelled; the other has the same
  shape with another batch limit (256 for request logs, 64 for detail logs).
 */
module AsyncLogger {
  import opened Basics

  /** A log entry: its primary key and the rest of its columns. */
  datatype Entry = Entry(id: string, columns: string)

  /** A table with the ID as primary key. */
  type Table = map<string, Entry>

  // ---- Insert or ignore ----------------------------------------------------------------

  function Inserted(t: Table, e: Entry): Table {
    if e.id in t then t else t[e.id := e]
  }

  function InsertedAll(t: Table, es: seq<Entry>): Table {
    if es == [] then t else Inserted(InsertedAll(t, es[..|es| - 1]), es[|es| - 1])
  }

  /** A bulk insert adds exactly the IDs of its entries, and never changes a row that is there. */
  lemma {:induction false} InsertKeepsRows(t: Table, es: seq<Entry>)
    ensures InsertedAll(t, es).Keys == t.Keys + set e | e in es :: e.id
    ensures forall id <- t.Keys :: InsertedAll(t, es)[id] == t[id]
    ensures forall id <- InsertedAll(t, es).Keys :: id !in t ==>
              InsertedAll(t, es)[id] in es && InsertedAll(t, es)[id].id == id
  {
    if es != [] {
      var n := |es| - 1;
      InsertKeepsRows(t, es[..n]);
      assert es == es[..n] + [es[n]];
    }
  }

  /** The transaction of BulkInsertRequestLogs: `failsAt` is the statement whose error rolls the
      transaction back, if it is one of them, or the commit, if it is the number of entries. */
  method BulkInsert(t: Table, logs: seq<Entry>, failsAt: nat) returns (t': Table, ok: bool)
    ensures ok <==> logs == [] || failsAt > |logs|
    ensures t' == if ok then InsertedAll(t, logs) else t
  {
    if |logs| == 0 { return t, true; }
    var tx := t;
    for i := 0 to |logs|
      invariant tx == InsertedAll(t, logs[..i]) && failsAt >= i
    {
      assert logs[..i + 1][..i] == logs[..i];
      if failsAt == i { return t, false; }
      tx := Inserted(tx, logs[i]);
    }
    assert logs[..|logs|] == logs;
    if failsAt == |logs| { return t, false; }
    return tx, true;
  }

  // ---- The machine --------------------------------------------------------------------------

  /** Where the worker is: in its select loop, draining after the stop, about to write the last
      batch, or gone. */
  datatype Phase = Running | Draining | LastFlush | Exited

  /** A call of Flush: the slice it collects, until it finds the channel empty. */
  datatype Flusher = Flusher(slice: seq<Entry>, emptied: bool)

  datatype State = State(
    capacity: nat,             // of the channel
    limit: nat,                // batch size that triggers an early write
    channel: seq<Entry>,
    stopped: bool,             // stopCh is closed
    phase: Phase,
    batch: seq<Entry>,         // the worker's
    flushers: seq<Flusher>,    // the calls of Flush in progress
    table: Table,
    // what happened so far
    accepted: multiset<Entry>,
    written: multiset<Entry>,  // handed to an insert that succeeded
    lost: multiset<Entry>,     // handed to an insert that failed
    late: multiset<Entry>,     // accepted after the worker had found the channel empty for the last time
    rescued: multiset<Entry>)  // taken out by a Flush after that

  datatype Event =
    | Log(e: Entry)            // accepted by the channel
    | Drop(e: Entry)           // channel full
    | Collect(ok: bool)        // the worker receives an entry; writes the batch if it is full
    | Tick(ok: bool)
    | SeeStop
    | Drain
    | DrainEnds
    | WriteLast(ok: bool)
    | StartFlush
    | FlushTakes(f: nat)
    | FlushEnds(f: nat)
    | FlushWrites(f: nat, ok: bool)
    | Stop

  /** The worker has found the channel empty and will not look at it again. */
  predicate PastLastLook(s: State) {
    s.phase == LastFlush || s.phase == Exited
  }

  /** Writes some entries: into the table, or nowhere if the insert fails. */
  function Write(s: State, es: seq<Entry>, ok: bool): State {
    if ok || es == [] then s.(table := InsertedAll(s.table, es), written := s.written + multiset(es))
    else s.(lost := s.lost + multiset(es))
  }

  predicate Enabled(s: State, e: Event) {
    match e
    case Log(_) => |s.channel| < s.capacity
    case Drop(_) => |s.channel| >= s.capacity
    case Collect(_) => s.phase == Running && s.channel != []
    case Tick(_) => s.phase == Running
    case SeeStop => s.phase == Running && s.stopped
    case Drain => s.phase == Draining && s.channel != []
    case DrainEnds => s.phase == Draining && s.channel == []
    case WriteLast(_) => s.phase == LastFlush
    case StartFlush => true
    case FlushTakes(f) => f < |s.flushers| && !s.flushers[f].emptied && s.channel != []
    case FlushEnds(f) => f < |s.flushers| && !s.flushers[f].emptied && s.channel == []
    case FlushWrites(f, _) => f < |s.flushers| && s.flushers[f].emptied
    case Stop => true
  }

  function Receive(s: State): State
    requires s.channel != []
  {
    s.(channel := s.channel[1..], batch := s.batch + [s.channel[0]])
  }

  function Next(s: State, e: Event): State
    requires Enabled(s, e)
  {
    match e
    case Log(x) =>
      s.(channel := s.channel + [x], accepted := s.accepted + multiset{x},
         late := if PastLastLook(s) then s.late + multiset{x} else s.late)
    case Drop(_) => s
    case Collect(ok) =>
      var s1 := Receive(s);
      if |s1.batch| >= s.limit then Write(s1, s1.batch, ok).(batch := []) else s1
    case Tick(ok) => Write(s, s.batch, ok).(batch := [])
    case SeeStop => s.(phase := Draining)
    case Drain => Receive(s)
    case DrainEnds => s.(phase := LastFlush)
    case WriteLast(ok) => Write(s, s.batch, ok).(batch := [], phase := Exited)
    case StartFlush => s.(flushers := s.flushers + [Flusher([], false)])
    case FlushTakes(f) =>
      s.(channel := s.channel[1..], flushers := s.flushers[f := Flusher(s.flushers[f].slice + [s.channel[0]], false)],
         rescued := if PastLastLook(s) then s.rescued + multiset{s.channel[0]} else s.rescued)
    case FlushEnds(f) => s.(flushers := s.flushers[f := s.flushers[f].(emptied := true)])
    case FlushWrites(f, ok) => Write(s, s.flushers[f].slice, ok).(flushers := s.flushers[..f] + s.flushers[f + 1..])
    case Stop => s.(stopped := true)
  }

  ghost predicate Init(s: State) {
    && s.limit > 0 && s.channel == [] && !s.stopped && s.phase == Running && s.batch == [] && s.flushers == []
    && s.table == map[] && s.accepted == s.written == s.lost == s.late == s.rescued == multiset{}
  }

  /** A run: any number of senders and calls of Flush, the worker, ticks and Close, in any order. */
  ghost predicate Run(ss: seq<State>, es: seq<Event>) {
    && |ss| == |es| + 1 && Init(ss[0])
    && forall i :: 0 <= i < |es| ==> Enabled(ss[i], es[i]) && ss[i + 1] == Next(ss[i], es[i])
  }

  // ---- Conservation -----------------------------------------------------------------------

  function Holding(x: Entry): Flusher -> nat {
    (f: Flusher) => multiset(f.slice)[x]
  }

  ghost function InFlushers(fs: seq<Flusher>, x: Entry): nat {
    Total(fs, Holding(x))
  }

  /** How many times x is somewhere, `flushing` times in a Flush: in the channel, the batch,
      written or lost. */
  ghost function Count(s: State, x: Entry, flushing: nat): nat {
    multiset(s.channel)[x] + multiset(s.batch)[x] + flushing + s.written[x] + s.lost[x]
  }

  ghost function Places(s: State, x: Entry): nat {
    Count(s, x, InFlushers(s.flushers, x))
  }

  lemma FirstOut(channel: seq<Entry>, x: Entry)
    requires channel != []
    ensures multiset(channel)[x] == multiset(channel[1..])[x] + if channel[0] == x then 1 else 0
  {
    assert channel == [channel[0]] + channel[1..];
  }

  ghost predicate Conserved(s: State, x: Entry) {
    Places(s, x) == s.accepted[x]
  }

  predicate ByFlush(e: Event) {
    e.StartFlush? || e.FlushTakes? || e.FlushEnds? || e.FlushWrites?
  }

  lemma CountOfWrite(s: State, es: seq<Entry>, ok: bool, x: Entry, flushing: nat)
    ensures Count(Write(s, es, ok), x, flushing) == Count(s, x, flushing) + multiset(es)[x]
    ensures Write(s, es, ok).accepted == s.accepted
  {
  }

  lemma CountOfReceive(s: State, x: Entry, flushing: nat)
    requires s.channel != []
    ensures Count(Receive(s), x, flushing) == Count(s, x, flushing)
  {
    FirstOut(s.channel, x);
  }

  lemma LogConserves(s: State, y: Entry, x: Entry, flushing: nat)
    requires Enabled(s, Log(y)) && Count(s, x, flushing) == s.accepted[x]
    ensures Count(Next(s, Log(y)), x, flushing) == Next(s, Log(y)).accepted[x]
  {
    assert multiset(s.channel + [y])[x] == multiset(s.channel)[x] + if x == y then 1 else 0;
  }

  /** Writing a batch out and starting a new one. */
  lemma BatchOut(s: State, ok: bool, phase: Phase, x: Entry, flushing: nat)
    ensures Count(Write(s, s.batch, ok).(batch := [], phase := phase), x, flushing) == Count(s, x, flushing)
  {
    CountOfWrite(s, s.batch, ok, x, flushing);
  }

  lemma OtherStepConserves(s: State, e: Event, x: Entry, flushing: nat)
    requires Enabled(s, e) && !ByFlush(e) && Count(s, x, flushing) == s.accepted[x]
    ensures Count(Next(s, e), x, flushing) == Next(s, e).accepted[x]
  {
    match e
    case Log(y) => LogConserves(s, y, x, flushing);
    case Collect(ok) =>
      CountOfReceive(s, x, flushing);
      BatchOut(Receive(s), ok, s.phase, x, flushing);
    case Tick(ok) => BatchOut(s, ok, s.phase, x, flushing);
    case Drain => CountOfReceive(s, x, flushing);
    case WriteLast(ok) => BatchOut(s, ok, Exited, x, flushing);
    case _ =>
  }

  lemma FlushTakesConserves(s: State, f: nat, x: Entry)
    requires Enabled(s, FlushTakes(f)) && Conserved(s, x)
    ensures Conserved(Next(s, FlushTakes(f)), x)
  {
    FirstOut(s.channel, x);
    TotalOfUpdate(s.flushers, f, Flusher(s.flushers[f].slice + [s.channel[0]], false), Holding(x));
  }

  lemma FlushWritesConserves(s: State, f: nat, ok: bool, x: Entry)
    requires Enabled(s, FlushWrites(f, ok)) && Conserved(s, x)
    ensures Conserved(Next(s, FlushWrites(f, ok)), x)
  {
    TotalOfRemoval(s.flushers, f, Holding(x));
    CountOfWrite(s, s.flushers[f].slice, ok, x, 0);
  }

  lemma FlushStepConserves(s: State, e: Event, x: Entry)
    requires Enabled(s, e) && ByFlush(e) && Conserved(s, x)
    ensures Conserved(Next(s, e), x)
  {
    match e
    case StartFlush => TotalOfAppend(s.flushers, Flusher([], false), Holding(x));
    case FlushTakes(f) => FlushTakesConserves(s, f, x);
    case FlushEnds(f) => TotalOfUpdate(s.flushers, f, s.flushers[f].(emptied := true), Holding(x));
    case FlushWrites(f, ok) => FlushWritesConserves(s, f, ok, x);
  }

  lemma StepConserves(s: State, e: Event, x: Entry)
    requires Enabled(s, e) && Conserved(s, x)
    ensures Conserved(Next(s, e), x)
  {
    if ByFlush(e) { FlushStepConserves(s, e, x); }
    else {
      OtherStepConserves(s, e, x, InFlushers(s.flushers, x));
      assert Next(s, e).flushers == s.flushers;
    }
  }

  // ---- Batches, the table, and the end ---------------------------------------------------------

  /** The batch stays below its limit while the worker is in its loop, and is gone once it exits. */
  ghost predicate BatchKept(s: State) {
    s.limit > 0 && (s.phase == Running ==> |s.batch| < s.limit) && (s.phase == Exited ==> s.batch == [])
  }

  /** The table holds the IDs of the written entries. */
  ghost predicate TableKept(t: Table, written: multiset<Entry>) {
    && (forall id :: id in t <==> exists x <- written :: x.id == id)
    && (forall id <- t.Keys :: t[id].id == id && t[id] in written)
  }

  /** After the worker's last look, the late entries are in the channel or a Flush has taken them. */
  ghost predicate LateKept(s: State) {
    if PastLastLook(s) then multiset(s.channel) + s.rescued == s.late else s.late == s.rescued == multiset{}
  }

  lemma WriteKeepsTable(s: State, es: seq<Entry>, ok: bool)
    requires TableKept(s.table, s.written)
    ensures TableKept(Write(s, es, ok).table, Write(s, es, ok).written)
  {
    var s' := Write(s, es, ok);
    InsertKeepsRows(s.table, es);
    if ok || es == [] {
      forall id ensures id in s'.table <==> exists x <- s'.written :: x.id == id {
        if id in s'.table && id !in s.table {
          assert s'.table[id] in es && s'.table[id] in multiset(es);
        }
        if x :| x in s'.written && x.id == id {
          assert x in s.written || x in multiset(es);
        }
      }
      forall id | id in s'.table ensures s'.table[id].id == id && s'.table[id] in s'.written {
        if id !in s.table { assert s'.table[id] in multiset(es); }
      }
    }
  }

  lemma StepKeepsTable(s: State, e: Event)
    requires Enabled(s, e) && TableKept(s.table, s.written)
    ensures TableKept(Next(s, e).table, Next(s, e).written)
  {
    match e
    case Collect(ok) => WriteKeepsTable(Receive(s), Receive(s).batch, ok);
    case Tick(ok) => WriteKeepsTable(s, s.batch, ok);
    case WriteLast(ok) => WriteKeepsTable(s, s.batch, ok);
    case FlushWrites(f, ok) => WriteKeepsTable(s, s.flushers[f].slice, ok);
    case _ =>
  }

  lemma StepKeepsBatch(s: State, e: Event)
    requires Enabled(s, e) && BatchKept(s)
    ensures BatchKept(Next(s, e))
  {
  }

  ghost predicate KeepsChannel(s: State, s': State) {
    && s'.late == s.late && s'.rescued == s.rescued && (PastLastLook(s) ==> PastLastLook(s'))
    && (PastLastLook(s') ==> s'.channel == s.channel && (PastLastLook(s) || s.channel == []))
  }

  predicate Writes(e: Event) {
    e.Tick? || e.WriteLast? || e.FlushWrites?
  }

  lemma WritesKeepChannel(s: State, e: Event)
    requires Enabled(s, e) && Writes(e)
    ensures KeepsChannel(s, Next(s, e))
  {
    match e
    case Tick(ok) => WriteFrame(s, s.batch, ok);
    case WriteLast(ok) => WriteFrame(s, s.batch, ok);
    case FlushWrites(f, ok) => WriteFrame(s, s.flushers[f].slice, ok);
  }

  lemma CollectKeepsChannel(s: State, ok: bool)
    requires Enabled(s, Collect(ok))
    ensures KeepsChannel(s, Next(s, Collect(ok)))
  {
    WriteFrame(Receive(s), Receive(s).batch, ok);
  }

  lemma ChannelKept(s: State, e: Event)
    requires Enabled(s, e) && !e.Log? && !e.FlushTakes?
    ensures KeepsChannel(s, Next(s, e))
  {
    if Writes(e) { WritesKeepChannel(s, e); }
    else if e.Collect? { CollectKeepsChannel(s, e.ok); }
  }

  lemma WriteFrame(s: State, es: seq<Entry>, ok: bool)
    ensures var s' := Write(s, es, ok);
            s'.channel == s.channel && s'.phase == s.phase && s'.late == s.late && s'.rescued == s.rescued
  {
  }

  lemma LogKeepsLate(s: State, x: Entry)
    requires Enabled(s, Log(x)) && LateKept(s)
    ensures LateKept(Next(s, Log(x)))
  {
    assert multiset(s.channel + [x]) == multiset(s.channel) + multiset{x};
  }

  lemma FlushTakesKeepsLate(s: State, f: nat)
    requires Enabled(s, FlushTakes(f)) && LateKept(s)
    ensures LateKept(Next(s, FlushTakes(f)))
  {
    assert s.channel == [s.channel[0]] + s.channel[1..];
  }

  lemma StepKeepsLate(s: State, e: Event)
    requires Enabled(s, e) && LateKept(s)
    ensures LateKept(Next(s, e))
  {
    match e
    case Log(y) => LogKeepsLate(s, y);
    case FlushTakes(f) => FlushTakesKeepsLate(s, f);
    case _ => ChannelKept(s, e);
  }

  // ---- Whole runs ----------------------------------------------------------------------------------

  ghost predicate Inv(s: State) {
    BatchKept(s) && TableKept(s.table, s.written) && LateKept(s) && forall x :: Conserved(s, x)
  }

  lemma StepKeepsInv(s: State, e: Event)
    requires Inv(s) && Enabled(s, e)
    ensures Inv(Next(s, e))
  {
    StepKeepsBatch(s, e);
    StepKeepsTable(s, e);
    StepKeepsLate(s, e);
    forall x ensures Conserved(Next(s, e), x) {
      StepConserves(s, e, x);
    }
  }

  lemma {:induction false} InvInEveryState(ss: seq<State>, es: seq<Event>, i: nat)
    requires Run(ss, es) && i < |ss|
    ensures Inv(ss[i])
    decreases i
  {
    if i > 0 {
      InvInEveryState(ss, es, i - 1);
      assert Enabled(ss[i - 1], es[i - 1]) && ss[i - 1 + 1] == Next(ss[i - 1], es[i - 1]);
      StepKeepsInv(ss[i - 1], es[i - 1]);
    }
  }

  /** In every interleaving each accepted entry is in exactly one place, and batches stay below
      their limit until the stop. */
  lemma EntriesAreConserved(ss: seq<State>, es: seq<Event>, i: nat, x: Entry)
    requires Run(ss, es) && i < |ss|
    ensures multiset(ss[i].channel)[x] + multiset(ss[i].batch)[x] + InFlushers(ss[i].flushers, x)
            + ss[i].written[x] + ss[i].lost[x] == ss[i].accepted[x]
    ensures ss[i].phase == Running ==> |ss[i].batch| < ss[i].limit
  {
    InvInEveryState(ss, es, i);
    assert Conserved(ss[i], x);
  }

  /** Once Close has returned and no Flush is under way: what arrived after the worker's last look at
      the channel is still there or was taken by a Flush since, and every accepted entry has been
      written if and only if no insert failed and a Flush took every late entry. */
  lemma AllWrittenAfterClose(ss: seq<State>, es: seq<Event>, i: nat)
    requires Run(ss, es) && i < |ss| && ss[i].phase == Exited && ss[i].flushers == []
    ensures multiset(ss[i].channel) + ss[i].rescued == ss[i].late
    ensures ss[i].accepted == ss[i].written <==> ss[i].lost == multiset{} && ss[i].rescued == ss[i].late
  {
    var s := ss[i];
    InvInEveryState(ss, es, i);
    NotEmpty(s.channel);
    forall x ensures s.accepted[x] == multiset(s.channel)[x] + s.written[x] + s.lost[x] {
      assert Conserved(s, x);
    }
    assert s.rescued == s.late <==> s.channel == [] by {
      assert |multiset(s.channel)| == |s.channel|;
    }
  }

  lemma NotEmpty(channel: seq<Entry>)
    ensures (forall x :: multiset(channel)[x] == 0) ==> channel == []
  {
    if channel != [] { assert multiset(channel)[channel[0]] > 0; }
  }

  /** The table has one row for each ID written, under that ID, and it is one of the entries written. */
  lemma TableHoldsTheWritten(ss: seq<State>, es: seq<Event>, i: nat, x: Entry)
    requires Run(ss, es) && i < |ss|
    ensures x in ss[i].written ==> x.id in ss[i].table && ss[i].table[x.id].id == x.id
    ensures x.id in ss[i].table ==> ss[i].table[x.id] in ss[i].accepted
  {
    InvInEveryState(ss, es, i);
    if x.id in ss[i].table {
      assert Conserved(ss[i], ss[i].table[x.id]);
    }
  }

  /** Then the table has a row for every accepted ID and for no other. */
  lemma TableIsComplete(ss: seq<State>, es: seq<Event>, i: nat, id: string)
    requires Run(ss, es) && i < |ss| && ss[i].phase == Exited && ss[i].flushers == []
    requires ss[i].lost == multiset{} && ss[i].rescued == ss[i].late
    ensures id in ss[i].table <==> exists x <- ss[i].accepted :: x.id == id
  {
    AllWrittenAfterClose(ss, es, i);
    InvInEveryState(ss, es, i);
  }

  // ---- Late entries ----------------------------------------------------------------------------

  lemma Extends(ss: seq<State>, es: seq<Event>, e: Event, s': State) returns (ss': seq<State>, es': seq<Event>)
    requires Run(ss, es) && Enabled(ss[|es|], e) && s' == Next(ss[|es|], e)
    ensures Run(ss', es') && ss'[|es'|] == s'
  {
    ss', es' := ss + [s'], es + [e];
    forall i | 0 <= i < |es'| ensures Enabled(ss'[i], es'[i]) && ss'[i + 1] == Next(ss'[i], es'[i]) {
      if i < |es| { StepAt(ss, es, i); }
    }
  }

  lemma NothingToWrite(s: State)
    requires s.batch == []
    ensures Write(s, s.batch, true) == s
  {
    assert s.written + multiset(s.batch) == s.written;
  }

  /** A logger that is closed before anything was logged. */
  lemma Closes(s: State) returns (ss: seq<State>, es: seq<Event>)
    requires Init(s)
    ensures Run(ss, es) && ss[|es|] == s.(stopped := true, phase := Exited)
  {
    var s1 := s.(stopped := true);
    ss, es := Extends([s], [], Stop, s1);
    ss, es := Extends(ss, es, SeeStop, s1.(phase := Draining));
    ss, es := Extends(ss, es, DrainEnds, s1.(phase := LastFlush));
    NothingToWrite(s1.(phase := LastFlush));
    ss, es := Extends(ss, es, WriteLast(true), s1.(phase := Exited));
  }

  /** An entry that arrives after the worker's last look is accepted, stays in the channel, and is never
      written by Close. */
  lemma LateEntryIsStranded(x: Entry, capacity: nat, limit: nat) returns (ss: seq<State>, es: seq<Event>)
    requires capacity > 0 && limit > 0
    ensures Run(ss, es) && ss[|es|].phase == Exited && ss[|es|].flushers == []
    ensures ss[|es|].accepted == multiset{x} && ss[|es|].channel == [x] && ss[|es|].table == map[]
  {
    var none: multiset<Entry> := multiset{};
    ss, es := Closes(State(capacity, limit, [], false, Running, [], [], map[], none, none, none, none, none));
    var s := ss[|es|];
    assert [] + [x] == [x];
    ss, es := Extends(ss, es, Log(x), s.(channel := [x], accepted := multiset{x}, late := multiset{x}));
  }

  /** x is in the channel and the worker will not look at it again. */
  predicate Stranded(s: State, x: Entry) {
    PastLastLook(s) && x in s.channel
  }

  lemma StepStrands(s: State, e: Event, s': State, x: Entry)
    requires Enabled(s, e) && s' == Next(s, e) && Stranded(s, x) && !e.FlushTakes?
    ensures Stranded(s', x)
  {
    if !e.Log? { ChannelKept(s, e); }
  }

  /** And only a Flush ever takes it out again. */
  lemma {:induction false} OnlyFlushRescues(ss: seq<State>, es: seq<Event>, i: nat, j: nat, x: Entry)
    requires Run(ss, es) && i <= j < |ss| && Stranded(ss[i], x)
    requires forall e <- es[i..j] :: !e.FlushTakes?
    ensures Stranded(ss[j], x)
    decreases j - i
  {
    if i < j {
      assert es[i..j] == es[i..j - 1] + [es[j - 1]];
      OnlyFlushRescues(ss, es, i, j - 1, x);
      StrandedNext(ss, es, j - 1, x);
    }
  }

  lemma StrandedNext(ss: seq<State>, es: seq<Event>, k: nat, x: Entry)
    requires Run(ss, es) && k < |es| && Stranded(ss[k], x) && !es[k].FlushTakes?
    ensures Stranded(ss[k + 1], x)
  {
    StepAt(ss, es, k);
    StepStrands(ss[k], es[k], ss[k + 1], x);
  }

  lemma StepAt(ss: seq<State>, es: seq<Event>, k: nat)
    requires Run(ss, es) && k < |es|
    ensures Enabled(ss[k], es[k]) && ss[k + 1] == Next(ss[k], es[k])
  {
  }
}
