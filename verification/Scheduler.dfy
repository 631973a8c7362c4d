/**
  The request path as one state machine: HTTP handlers, the request queue with its condition
  variable, N workers, the monitor, the back-off goroutines of rate-limited requests, and shutdown.

  Every step is one critical section of the queue's mutex, or one action between critical
  sections, so a run is an arbitrary interleaving of them. The sections themselves are those
  that the methods of RequestQueues.RequestQueue are proved to perform.
 */
module Scheduler {
  import opened Basics
  import opened PriorityHeap
  import opened RequestQueues

  /** Where a worker goroutine is in its loop. */
  datatype Worker =
    | AtTop                      // about to look at stopCh
    | Entering                   // about to lock the queue in DequeueBlocking
    | Asleep                     // in cond.Wait, not signalled yet
    | Signalled                  // signalled, about to lock the queue again
    | Holding(request: Request)  // dequeued a request, about to ask the rate limiter
    | Forwarding(request: Request)
    | Sending(request: Request)  // about to send the result on the request's channel
    | Stopped

  /** What can be added up over the workers. */
  datatype Measure =
    | Woken
    | Holds(r: Request)
    | InFlight(r: Request)
    | StepsLeft            // to the worker's exit, once the pool has stopped
    | Busy                 // until the worker is at the queue

  function Weigh(m: Measure, w: Worker): nat {
    match m
    case Woken => if w == Signalled then 1 else 0
    case Holds(r) => if (w.Holding? || w.Forwarding? || w.Sending?) && w.request == r then 1 else 0
    case InFlight(r) => if (w.Forwarding? || w.Sending?) && w.request == r then 1 else 0
    case StepsLeft => ToGo(w, 5)
    case Busy => ToGo(w, 0)
  }

  /** How many steps take a worker back to the top of its loop and past the look at stopCh; a worker
      at the queue counts as told. */
  function ToGo(w: Worker, atQueue: nat): nat {
    match w
    case Stopped => 0
    case AtTop => 1
    case Sending(_) => 2
    case Forwarding(_) => 3
    case Holding(_) => 4
    case _ => atQueue
  }

  datatype State = State(
    max: int,                        // queue capacity, unbounded unless positive
    heap: seq<Request>,
    closed: bool,
    broadcast: bool,                 // a Close has reached its Broadcast
    stopping: bool,                  // stopCh is closed
    workers: seq<Worker>,
    monitoring: bool,                // the monitor goroutine has not returned
    cancelled: set<nat>,             // contexts that are done
    backoff: multiset<Request>,      // goroutines sleeping before a re-enqueue
    buffered: multiset<Request>,     // results waiting in result channels of capacity one
    // what happened so far
    accepted: set<Request>,          // requests whose first Enqueue succeeded
    forwarded: multiset<Request>,    // calls of forwardWithRetry
    answered: multiset<Request>,     // workers done with the request after forwarding it
    discarded: multiset<Request>,    // popped while cancelled
    dropped: multiset<Request>,      // not re-enqueued after the back-off
    removed: multiset<Request>)      // taken out by Remove

  /** What a worker can do next. */
  datatype Action =
    | CheckStop
    | Dequeue(heap': seq<Request>, gone: seq<Request>, out: Outcome)
    | Admit
    | Throttle
    | Finish
    | Send
    | SkipSend

  datatype Event =
    | Turn(w: nat, action: Action)
    | Submit(r: Request, heap': seq<Request>, wakes: nat)
    | Reenqueue(r: Request, heap': seq<Request>, wakes: nat)
    | GiveUp(r: Request)
    | Receive(r: Request)
    | Cancel(context: nat)
    | Remove(slot: nat, heap': seq<Request>)
    | CloseQueue
    | Broadcast
    | CloseStopCh
    | MonitorExits

  predicate Refuses(s: State) {
    s.closed || (s.max > 0 && |s.heap| >= s.max)
  }

  /** cond.Signal: wakes some sleeper, if there is one. */
  predicate Signals(ws: seq<Worker>, wakes: nat, ws': seq<Worker>) {
    if wakes < |ws| && ws[wakes] == Asleep then ws' == ws[wakes := Signalled]
    else Asleep !in ws && ws' == ws
  }

  function WakeAll(ws: seq<Worker>): (r: seq<Worker>)
    ensures |r| == |ws| && Asleep !in r
    ensures forall i :: 0 <= i < |ws| ==> r[i] == if ws[i] == Asleep then Signalled else ws[i]
  {
    seq(|ws|, i requires 0 <= i < |ws| => if ws[i] == Asleep then Signalled else ws[i])
  }

  /** The critical section of Enqueue when it accepts. */
  ghost predicate Enqueues(s: State, r: Request, heap': seq<Request>, wakes: nat, ws': seq<Worker>) {
    && !Refuses(s)
    && IsHeap(heap') && multiset(heap') == multiset(s.heap) + multiset{r}
    && Signals(s.workers, wakes, ws')
  }

  function After(out: Outcome): Worker {
    match out
    case Delivered(r) => Holding(r)
    case Sleeps => Asleep
    case Ends => Stopped
  }

  /** A critical section of DequeueBlocking run by worker w. */
  ghost predicate DequeueStep(s: State, w: nat, a: Action, s': State)
    requires w < |s.workers| && a.Dequeue?
  {
    && (s.workers[w] == Entering || s.workers[w] == Signalled)
    && DequeueSection(s.heap, s.closed, s.cancelled, a.heap', a.gone, a.out)
    && s' == s.(heap := a.heap', workers := s.workers[w := After(a.out)],
                discarded := s.discarded + multiset(a.gone))
  }

  /** What a move of a worker outside the queue does: where it takes the worker, and the request it
      sends to back off, forwards, sends a result for, or is done with. */
  datatype Move = Move(to: Worker, backsOff: multiset<Request>, forwards: multiset<Request>,
                       sends: multiset<Request>, answers: multiset<Request>)

  predicate MayMove(s: State, here: Worker, a: Action)
    requires !a.Dequeue?
  {
    match a
    case CheckStop => here == AtTop
    case Admit => here.Holding?
    case Throttle => here.Holding?
    case Finish => here.Forwarding?
    case Send => here.Sending? && here.request !in s.buffered
    case SkipSend => here.Sending? && here.request.context in s.cancelled
  }

  function MoveOf(here: Worker, a: Action, stopping: bool): Move
    requires !a.Dequeue? && (a.CheckStop? || here.Holding? || here.Forwarding? || here.Sending?)
  {
    var none: multiset<Request> := multiset{};
    match a
    case CheckStop => Move(if stopping then Stopped else Entering, none, none, none, none)
    case Admit => Move(Forwarding(here.request), none, multiset{here.request}, none, none)
    case Throttle => Move(AtTop, multiset{here.request}, none, none, none)
    case Finish => Move(Sending(here.request), none, none, none, none)
    case Send => Move(AtTop, none, none, multiset{here.request}, multiset{here.request})
    case SkipSend => Move(AtTop, none, none, none, multiset{here.request})
  }

  function Moved(s: State, w: nat, m: Move): State
    requires w < |s.workers|
  {
    s.(workers := s.workers[w := m.to], backoff := s.backoff + m.backsOff, forwarded := s.forwarded + m.forwards,
       buffered := s.buffered + m.sends, answered := s.answered + m.answers)
  }

  ghost predicate MoveStep(s: State, w: nat, a: Action, s': State)
    requires w < |s.workers| && !a.Dequeue?
  {
    MayMove(s, s.workers[w], a) && s' == Moved(s, w, MoveOf(s.workers[w], a, s.stopping))
  }

  /** A step that touches neither a worker's position nor the set of accepted requests by
      itself, except that Broadcast wakes every sleeper. */
  ghost predicate OtherStep(s: State, e: Event, s': State)
    requires !e.Turn? && !e.Submit? && !e.Reenqueue?
  {
    match e
    case GiveUp(r) =>
      && r in s.backoff && (r.context in s.cancelled || Refuses(s))
      && s' == s.(backoff := s.backoff - multiset{r}, dropped := s.dropped + multiset{r})
    case Receive(r) =>
      && r in s.buffered
      && s' == s.(buffered := s.buffered - multiset{r})
    case Cancel(context) =>
      s' == s.(cancelled := s.cancelled + {context})
    case Remove(slot, heap') =>
      && slot < |s.heap|
      && IsHeap(heap') && multiset(s.heap) == multiset(heap') + multiset{s.heap[slot]}
      && s' == s.(heap := heap', removed := s.removed + multiset{s.heap[slot]})
    case CloseQueue =>
      s' == s.(closed := true)
    case Broadcast =>
      && s.closed
      && s' == s.(broadcast := true, workers := WakeAll(s.workers))
    case CloseStopCh =>
      s' == s.(stopping := true)
    case MonitorExits =>
      && s.stopping && s.monitoring
      && s' == s.(monitoring := false)
  }

  ghost predicate Init(s: State) {
    && s.heap == [] && !s.closed && !s.broadcast && !s.stopping && s.monitoring
    && (forall i :: 0 <= i < |s.workers| ==> s.workers[i] == AtTop)
    && s.backoff == s.buffered == s.forwarded == s.answered == s.discarded == s.dropped == s.removed == multiset{}
    && s.accepted == {}
  }

  ghost predicate Step(s: State, e: Event, s': State) {
    match e
    case Turn(w, a) =>
      w < |s.workers| && if a.Dequeue? then DequeueStep(s, w, a, s') else MoveStep(s, w, a, s')
    case Submit(r, heap', wakes) =>
      && r !in s.accepted
      && Enqueues(s, r, heap', wakes, s'.workers)
      && s' == s.(heap := heap', workers := s'.workers, accepted := s.accepted + {r})
    case Reenqueue(r, heap', wakes) =>
      && r in s.backoff && r.context !in s.cancelled
      && Enqueues(s, r, heap', wakes, s'.workers)
      && s' == s.(heap := heap', workers := s'.workers, backoff := s.backoff - multiset{r})
    case _ => OtherStep(s, e, s')
  }

  // ---- Sums over the workers ------------------------------------------------------

  function By(m: Measure): Worker -> nat {
    w => Weigh(m, w)
  }

  // ---- No lost wake-ups -----------------------------------------------------------

  /** Whenever a worker sleeps unsignalled, every queued request has a signalled worker on its
      way to it; and after a broadcast nobody sleeps unsignalled. */
  ghost predicate WakeupsKept(s: State) {
    && (Asleep in s.workers ==> |s.heap| <= Total(s.workers, By(Woken)))
    && (s.broadcast ==> s.closed && Asleep !in s.workers)
  }

  lemma SignalKeepsWakeups(s: State, r: Request, heap': seq<Request>, wakes: nat, s': State)
    requires WakeupsKept(s) && Enqueues(s, r, heap', wakes, s'.workers)
    requires s'.heap == heap' && s'.closed == s.closed && s'.broadcast == s.broadcast
    ensures WakeupsKept(s')
  {
    assert |multiset(heap')| == |heap'| && |multiset(s.heap)| == |s.heap|;
    if wakes < |s.workers| && s.workers[wakes] == Asleep {
      TotalOfUpdate(s.workers, wakes, Signalled, By(Woken));
    }
  }

  lemma SectionShrinksHeap(h: seq<Request>, closed: bool, cancelled: set<nat>,
                           h': seq<Request>, gone: seq<Request>, out: Outcome)
    requires DequeueSection(h, closed, cancelled, h', gone, out)
    ensures h' == [] || |h'| < |h|
  {
    var pops := gone + out.Taken();
    assert |multiset(h)| == |h| && |multiset(h')| == |h'| && |multiset(pops)| == |pops|;
  }

  lemma SectionKeepsWakeups(s: State, w: nat, a: Action, s': State)
    requires w < |s.workers| && a.Dequeue?
    requires WakeupsKept(s) && DequeueStep(s, w, a, s')
    ensures WakeupsKept(s')
  {
    SectionShrinksHeap(s.heap, s.closed, s.cancelled, a.heap', a.gone, a.out);
    TotalOfUpdate(s.workers, w, After(a.out), By(Woken));
    if s'.heap != [] && Asleep in s'.workers {
      var i :| 0 <= i < |s'.workers| && s'.workers[i] == Asleep;
      assert s.workers[i] == Asleep;
    }
  }

  lemma MoveKeepsWakeups(s: State, w: nat, a: Action, s': State)
    requires w < |s.workers| && !a.Dequeue?
    requires WakeupsKept(s) && MoveStep(s, w, a, s')
    ensures WakeupsKept(s')
  {
    TotalOfUpdate(s.workers, w, s'.workers[w], By(Woken));
    if Asleep in s'.workers {
      var i :| 0 <= i < |s'.workers| && s'.workers[i] == Asleep;
      assert s.workers[i] == Asleep;
    }
  }

  lemma OtherKeepsWakeups(s: State, e: Event, s': State)
    requires !e.Turn? && !e.Submit? && !e.Reenqueue?
    requires WakeupsKept(s) && OtherStep(s, e, s')
    ensures WakeupsKept(s')
  {
    if e.Remove? {
      assert |multiset(e.heap')| == |e.heap'| && |multiset(s.heap)| == |s.heap|;
    }
  }

  lemma StepKeepsWakeups(s: State, e: Event, s': State)
    requires WakeupsKept(s) && Step(s, e, s')
    ensures WakeupsKept(s')
  {
    match e
    case Turn(w, a) =>
      if a.Dequeue? { SectionKeepsWakeups(s, w, a, s'); } else { MoveKeepsWakeups(s, w, a, s'); }
    case Submit(r, heap', wakes) => SignalKeepsWakeups(s, r, heap', wakes, s');
    case Reenqueue(r, heap', wakes) => SignalKeepsWakeups(s, r, heap', wakes, s');
    case _ => OtherKeepsWakeups(s, e, s');
  }

  // ---- Conservation and the life of a request ------------------------------------------

  /** How many places hold r, of which `held` workers: the queue, a worker, a back-off
      goroutine, or one of the ways its life can end. */
  ghost function Count(s: State, r: Request, held: nat): nat {
    multiset(s.heap)[r] + held + s.backoff[r] + s.answered[r] + s.discarded[r] + s.dropped[r] + s.removed[r]
  }

  ghost function Places(s: State, r: Request): nat {
    Count(s, r, Total(s.workers, By(Holds(r))))
  }

  /** With `held` workers holding r and `flying` of them past the rate limiter: an accepted
      request is in exactly one place; it was forwarded once when it is in flight or answered
      and not at all before; its channel holds a result only once it is answered. */
  ghost predicate Kept(s: State, r: Request, held: nat, flying: nat) {
    && Count(s, r, held) == (if r in s.accepted then 1 else 0)
    && s.forwarded[r] == flying + s.answered[r]
    && s.buffered[r] <= s.answered[r]
  }

  ghost predicate RequestKept(s: State, r: Request) {
    Kept(s, r, Total(s.workers, By(Holds(r))), Total(s.workers, By(InFlight(r))))
  }

  lemma SignalKeepsRequest(s: State, r: Request, heap': seq<Request>, wakes: nat, s': State, q: Request)
    requires RequestKept(s, q) && Enqueues(s, r, heap', wakes, s'.workers)
    requires || (r !in s.accepted
                 && s' == s.(heap := heap', workers := s'.workers, accepted := s.accepted + {r}))
             || (r in s.backoff
                 && s' == s.(heap := heap', workers := s'.workers, backoff := s.backoff - multiset{r}))
    ensures RequestKept(s', q)
  {
    TotalOfSimilar(s.workers, s'.workers, By(Holds(q)));
    TotalOfSimilar(s.workers, s'.workers, By(InFlight(q)));
    assert multiset(heap')[q] == multiset(s.heap)[q] + if q == r then 1 else 0;
  }

  /** The sums over the workers when one of them moves. */
  lemma SumsOfMove(ws: seq<Worker>, w: nat, ws': seq<Worker>, m: Measure)
    requires w < |ws| == |ws'| && ws' == ws[w := ws'[w]]
    ensures Total(ws', By(m)) == Total(ws, By(m)) - Weigh(m, ws[w]) + Weigh(m, ws'[w])
    ensures Total(ws, By(m)) >= Weigh(m, ws[w])
  {
    TotalOfUpdate(ws, w, ws'[w], By(m));
  }

  lemma SectionKeeps(s: State, w: nat, a: Action, s': State, q: Request, held: nat, flying: nat)
    requires w < |s.workers| && a.Dequeue?
    requires Kept(s, q, held, flying) && DequeueStep(s, w, a, s')
    ensures Kept(s', q, held + Weigh(Holds(q), After(a.out)), flying)
  {
    assert multiset(a.gone + a.out.Taken())[q] == multiset(a.gone)[q] + multiset(a.out.Taken())[q];
    assert multiset(s.heap)[q] == multiset(s'.heap)[q] + multiset(a.gone + a.out.Taken())[q];
  }

  /** Where a move puts the request it takes from the worker. */
  lemma MovePuts(s: State, here: Worker, a: Action, q: Request)
    requires !a.Dequeue? && MayMove(s, here, a)
    ensures var m := MoveOf(here, a, s.stopping);
            Weigh(Holds(q), m.to) + m.backsOff[q] + m.answers[q] == Weigh(Holds(q), here)
  {
  }

  lemma MoveForwards(s: State, here: Worker, a: Action, q: Request)
    requires !a.Dequeue? && MayMove(s, here, a)
    ensures var m := MoveOf(here, a, s.stopping);
            && Weigh(InFlight(q), m.to) + m.answers[q] == Weigh(InFlight(q), here) + m.forwards[q]
            && m.sends[q] <= m.answers[q]
  {
  }

  lemma MoveKeeps(s: State, w: nat, m: Move, q: Request, held: nat, flying: nat, held': nat, flying': nat)
    requires w < |s.workers| && Kept(s, q, held, flying)
    requires held' + m.backsOff[q] + m.answers[q] == held && flying' + m.answers[q] == flying + m.forwards[q]
    requires m.sends[q] <= m.answers[q]
    ensures Kept(Moved(s, w, m), q, held', flying')
  {
  }

  lemma SectionKeepsRequest(s: State, w: nat, a: Action, s': State, q: Request)
    requires w < |s.workers| && a.Dequeue?
    requires RequestKept(s, q) && DequeueStep(s, w, a, s')
    ensures RequestKept(s', q)
  {
    SumsOfMove(s.workers, w, s'.workers, Holds(q));
    SumsOfMove(s.workers, w, s'.workers, InFlight(q));
    SectionKeeps(s, w, a, s', q, Total(s.workers, By(Holds(q))), Total(s.workers, By(InFlight(q))));
  }

  lemma MoveKeepsRequest(s: State, w: nat, a: Action, s': State, q: Request)
    requires w < |s.workers| && !a.Dequeue?
    requires RequestKept(s, q) && MoveStep(s, w, a, s')
    ensures RequestKept(s', q)
  {
    var m := MoveOf(s.workers[w], a, s.stopping);
    SumsOfMove(s.workers, w, s'.workers, Holds(q));
    SumsOfMove(s.workers, w, s'.workers, InFlight(q));
    MovePuts(s, s.workers[w], a, q);
    MoveForwards(s, s.workers[w], a, q);
    MoveKeeps(s, w, m, q, Total(s.workers, By(Holds(q))), Total(s.workers, By(InFlight(q))),
              Total(s'.workers, By(Holds(q))), Total(s'.workers, By(InFlight(q))));
  }

  lemma OtherKeeps(s: State, e: Event, s': State, q: Request, held: nat, flying: nat)
    requires !e.Turn? && !e.Submit? && !e.Reenqueue?
    requires Kept(s, q, held, flying) && OtherStep(s, e, s')
    ensures Kept(s', q, held, flying)
  {
    if e.Remove? {
      RemoveKeeps(s, e.slot, s'.heap, q, held, flying);
    }
  }

  lemma RemoveKeeps(s: State, slot: nat, heap': seq<Request>, q: Request, held: nat, flying: nat)
    requires Kept(s, q, held, flying) && slot < |s.heap|
    requires multiset(s.heap) == multiset(heap') + multiset{s.heap[slot]}
    ensures Kept(s.(heap := heap', removed := s.removed + multiset{s.heap[slot]}), q, held, flying)
  {
    assert multiset(s.heap)[q] == multiset(heap')[q] + multiset{s.heap[slot]}[q];
  }

  lemma OtherKeepsRequest(s: State, e: Event, s': State, q: Request)
    requires !e.Turn? && !e.Submit? && !e.Reenqueue?
    requires RequestKept(s, q) && OtherStep(s, e, s')
    ensures RequestKept(s', q)
  {
    OtherKeeps(s, e, s', q, Total(s.workers, By(Holds(q))), Total(s.workers, By(InFlight(q))));
    TotalOfSimilar(s.workers, s'.workers, By(Holds(q)));
    TotalOfSimilar(s.workers, s'.workers, By(InFlight(q)));
  }

  lemma StepKeepsRequest(s: State, e: Event, s': State, q: Request)
    requires RequestKept(s, q) && Step(s, e, s')
    ensures RequestKept(s', q)
  {
    match e
    case Turn(w, a) =>
      if a.Dequeue? { SectionKeepsRequest(s, w, a, s', q); } else { MoveKeepsRequest(s, w, a, s', q); }
    case Submit(r, heap', wakes) => SignalKeepsRequest(s, r, heap', wakes, s', q);
    case Reenqueue(r, heap', wakes) => SignalKeepsRequest(s, r, heap', wakes, s', q);
    case _ => OtherKeepsRequest(s, e, s', q);
  }

  // ---- Whole runs -----------------------------------------------------------------------

  ghost predicate Inv(s: State) {
    && QueueKept(s)
    && WakeupsKept(s)
    && StopsKept(s)
    && (forall r :: RequestKept(s, r))
  }

  /** A run: any number of steps of any of the parties, in any order. */
  ghost predicate Run(ss: seq<State>, es: seq<Event>) {
    && |ss| == |es| + 1
    && Init(ss[0])
    && (forall i :: 0 <= i < |es| ==> Step(ss[i], es[i], ss[i + 1]))
  }

  ghost predicate QueueKept(s: State) {
    IsHeap(s.heap) && (s.max > 0 ==> |s.heap| <= s.max)
  }

  /** Of all steps, only a dequeue, an enqueue or a Remove touches the queue. */
  lemma QueueUntouched(s: State, e: Event, s': State)
    requires Step(s, e, s')
    requires !e.Submit? && !e.Reenqueue? && !e.Remove? && !(e.Turn? && e.action.Dequeue?)
    ensures s'.heap == s.heap && s'.accepted == s.accepted && s'.max == s.max && (s.closed ==> s'.closed)
  {
  }

  lemma StepKeepsQueue(s: State, e: Event, s': State)
    requires QueueKept(s) && Step(s, e, s')
    ensures QueueKept(s')
  {
    if e.Submit? || e.Reenqueue? || e.Remove? {
      assert |multiset(s.heap)| == |s.heap| && |multiset(e.heap')| == |e.heap'|;
    } else if e.Turn? && e.action.Dequeue? {
      var a := e.action;
      SectionShrinksHeap(s.heap, s.closed, s.cancelled, a.heap', a.gone, a.out);
    } else {
      QueueUntouched(s, e, s');
    }
  }

  /** A worker stops only when stopCh is closed, or the queue is closed and has run empty. */
  ghost predicate StopsKept(s: State) {
    Stopped in s.workers ==> s.stopping || (s.closed && s.heap == [])
  }

  lemma SectionKeepsStops(s: State, w: nat, a: Action, s': State)
    requires w < |s.workers| && a.Dequeue?
    requires StopsKept(s) && DequeueStep(s, w, a, s')
    ensures StopsKept(s')
  {
    SectionShrinksHeap(s.heap, s.closed, s.cancelled, a.heap', a.gone, a.out);
    if Stopped in s'.workers && !a.out.Ends? {
      var i :| 0 <= i < |s'.workers| && s'.workers[i] == Stopped;
      assert s.workers[i] == Stopped;
    }
  }

  lemma MoveStopsNobody(s: State, w: nat, a: Action, s': State)
    requires w < |s.workers| && !a.Dequeue? && MoveStep(s, w, a, s') && Stopped in s'.workers
    ensures Stopped in s.workers || s'.stopping
  {
    var i :| 0 <= i < |s'.workers| && s'.workers[i] == Stopped;
    if i != w { assert s.workers[i] == Stopped; }
  }

  lemma WakingStopsNobody(s: State, e: Event, s': State)
    requires Step(s, e, s') && !e.Turn? && Stopped in s'.workers
    ensures Stopped in s.workers
  {
    var i :| 0 <= i < |s'.workers| && s'.workers[i] == Stopped;
    assert s.workers[i] == Stopped;
  }

  lemma OthersKeepStops(s: State, e: Event, s': State)
    requires StopsKept(s) && Step(s, e, s') && !(e.Turn? && e.action.Dequeue?)
    ensures StopsKept(s')
  {
    if Stopped in s'.workers && !s'.stopping {
      if e.Turn? { MoveStopsNobody(s, e.w, e.action, s'); } else { WakingStopsNobody(s, e, s'); }
      if !e.Submit? && !e.Reenqueue? && !e.Remove? { QueueUntouched(s, e, s'); }
    }
  }

  lemma StepKeepsStops(s: State, e: Event, s': State)
    requires StopsKept(s) && Step(s, e, s')
    ensures StopsKept(s')
  {
    if e.Turn? && e.action.Dequeue? {
      SectionKeepsStops(s, e.w, e.action, s');
    } else {
      OthersKeepStops(s, e, s');
    }
  }

  lemma InitInv(s: State)
    requires Init(s)
    ensures Inv(s)
  {
    forall r ensures RequestKept(s, r) {
      TotalWithin(s.workers, By(Holds(r)), 0);
      TotalWithin(s.workers, By(InFlight(r)), 0);
    }
  }

  lemma StepKeepsInv(s: State, e: Event, s': State)
    requires Inv(s) && Step(s, e, s')
    ensures Inv(s')
  {
    StepKeepsQueue(s, e, s');
    StepKeepsWakeups(s, e, s');
    StepKeepsStops(s, e, s');
    forall r ensures RequestKept(s', r) {
      StepKeepsRequest(s, e, s', r);
    }
  }

  lemma {:induction false} InvInEveryState(ss: seq<State>, es: seq<Event>, i: nat)
    requires Run(ss, es) && i < |ss|
    ensures Inv(ss[i])
    decreases i
  {
    if i == 0 {
      InitInv(ss[0]);
    } else {
      InvInEveryState(ss, es, i - 1);
      assert Step(ss[i - 1], es[i - 1], ss[i - 1 + 1]);
      StepKeepsInv(ss[i - 1], es[i - 1], ss[i]);
    }
  }

  /** No lost wake-ups: in every state of every run, if a request is queued while some worker
      sleeps unsignalled, another worker has been signalled and is on its way. */
  lemma NoLostWakeup(ss: seq<State>, es: seq<Event>, i: nat)
    requires Run(ss, es) && i < |ss|
    ensures Asleep in ss[i].workers ==> |ss[i].heap| <= Total(ss[i].workers, By(Woken))
    ensures Asleep in ss[i].workers && ss[i].heap != [] ==> Signalled in ss[i].workers
    ensures ss[i].broadcast ==> Asleep !in ss[i].workers
  {
    InvInEveryState(ss, es, i);
    if Total(ss[i].workers, By(Woken)) > 0 {
      var w := PositiveWeight(ss[i].workers, By(Woken));
      assert ss[i].workers[w] == Signalled;
    }
  }

  /** In every state of every run each accepted request is in exactly one place, nothing else is
      anywhere, it has been forwarded at most once, and the queue is a heap within its capacity. */
  lemma OnePlaceEach(ss: seq<State>, es: seq<Event>, i: nat, r: Request)
    requires Run(ss, es) && i < |ss|
    ensures Places(ss[i], r) == if r in ss[i].accepted then 1 else 0
    ensures ss[i].forwarded[r] <= 1
    ensures IsHeap(ss[i].heap) && (ss[i].max > 0 ==> |ss[i].heap| <= ss[i].max)
  {
    InvInEveryState(ss, es, i);
    assert RequestKept(ss[i], r);
    TotalAtMost(ss[i].workers, By(InFlight(r)), By(Holds(r)));
  }

  /** A worker about to send a result finds the channel of capacity one empty. */
  lemma ResultSendNeverBlocks(ss: seq<State>, es: seq<Event>, i: nat, w: nat)
    requires Run(ss, es) && i < |ss| && w < |ss[i].workers| && ss[i].workers[w].Sending?
    ensures ss[i].workers[w].request !in ss[i].buffered
  {
    InvInEveryState(ss, es, i);
    var r := ss[i].workers[w].request;
    assert RequestKept(ss[i], r);
    TotalOfUpdate(ss[i].workers, w, ss[i].workers[w], By(Holds(r)));
  }

  /** Nothing joins the queue once it is closed. */
  lemma NothingAddedAfterClose(s: State, e: Event, s': State, r: Request)
    requires Step(s, e, s') && s.closed
    ensures s'.closed && s'.accepted == s.accepted
    ensures multiset(s'.heap)[r] <= multiset(s.heap)[r]
  {
    if e.Remove? {
      assert multiset(s.heap)[r] == multiset(s'.heap)[r] + multiset{s.heap[e.slot]}[r];
    } else if e.Turn? && e.action.Dequeue? {
      var pops := e.action.gone + e.action.out.Taken();
      assert multiset(s.heap)[r] == multiset(s'.heap)[r] + multiset(pops)[r];
    } else {
      QueueUntouched(s, e, s');
    }
  }

  // ---- Shutdown ---------------------------------------------------------------------------

  /** `Stop` has closed stopCh, closed the queue, and its broadcast has gone out. */
  predicate PoolStopped(s: State) {
    s.stopping && s.closed && s.broadcast
  }

  lemma MoveNearsExit(s: State, here: Worker, a: Action)
    requires !a.Dequeue? && MayMove(s, here, a) && s.stopping
    ensures Weigh(StepsLeft, MoveOf(here, a, s.stopping).to) < Weigh(StepsLeft, here)
  {
  }

  lemma SectionNearsExit(s: State, w: nat, a: Action, s': State)
    requires w < |s.workers| && a.Dequeue? && s.closed && DequeueStep(s, w, a, s')
    ensures Weigh(StepsLeft, s'.workers[w]) < Weigh(StepsLeft, s.workers[w])
  {
  }

  lemma TurnNearsExit(s: State, w: nat, a: Action, s': State)
    requires PoolStopped(s) && Step(s, Turn(w, a), s')
    ensures |s'.workers| == |s.workers| && s'.workers == s.workers[w := s'.workers[w]]
    ensures Weigh(StepsLeft, s'.workers[w]) < Weigh(StepsLeft, s.workers[w])
    ensures PoolStopped(s') && s'.monitoring == s.monitoring
  {
    if a.Dequeue? { SectionNearsExit(s, w, a, s'); } else { MoveNearsExit(s, s.workers[w], a); }
  }

  lemma OtherMovesNobody(s: State, e: Event, s': State)
    requires WakeupsKept(s) && PoolStopped(s) && Step(s, e, s') && !e.Turn?
    ensures s'.workers == s.workers && PoolStopped(s')
    ensures s'.monitoring == (s.monitoring && !e.MonitorExits?) && (e.MonitorExits? ==> s.monitoring)
  {
  }

  /** A step of one of the goroutines that `Stop` waits for. */
  predicate OfPool(e: Event) {
    e.Turn? || e.MonitorExits?
  }

  /** How many more steps those goroutines can take once the pool has stopped. */
  ghost function ToExit(s: State): nat {
    Total(s.workers, By(StepsLeft)) + if s.monitoring then 1 else 0
  }

  /** After Stop's broadcast every step of a worker or the monitor brings the pool closer to its exit,
      and nothing else takes it back. */
  lemma ShutdownProgress(s: State, e: Event, s': State)
    requires WakeupsKept(s) && PoolStopped(s) && Step(s, e, s')
    ensures PoolStopped(s')
    ensures ToExit(s') <= ToExit(s) - if OfPool(e) then 1 else 0
  {
    if e.Turn? {
      TurnNearsExit(s, e.w, e.action, s');
      SumsOfMove(s.workers, e.w, s'.workers, StepsLeft);
    } else {
      OtherMovesNobody(s, e, s');
    }
  }

  ghost function PoolSteps(es: seq<Event>): nat {
    if es == [] then 0 else (if OfPool(es[0]) then 1 else 0) + PoolSteps(es[1..])
  }

  /** From the broadcast on, the workers together take at most five turns each and the monitor one
      step, in any interleaving with anything else, and no worker is asleep. */
  lemma {:induction false} ShutdownTerminates(ss: seq<State>, es: seq<Event>)
    requires |ss| == |es| + 1 && Inv(ss[0]) && PoolStopped(ss[0])
    requires forall i :: 0 <= i < |es| ==> Step(ss[i], es[i], ss[i + 1])
    ensures PoolSteps(es) + ToExit(ss[|es|]) <= ToExit(ss[0]) <= 5 * |ss[0].workers| + 1
    ensures Asleep !in ss[|es|].workers
    decreases |es|
  {
    TotalWithin(ss[0].workers, By(StepsLeft), 5);
    if es != [] {
      assert Step(ss[0], es[0], ss[0 + 1]);
      ShutdownProgress(ss[0], es[0], ss[1]);
      StepKeepsInv(ss[0], es[0], ss[1]);
      forall i | 0 <= i < |es[1..]| ensures Step(ss[1..][i], es[1..][i], ss[1..][i + 1]) {
        assert Step(ss[i + 1], es[i + 1], ss[i + 1 + 1]);
      }
      ShutdownTerminates(ss[1..], es[1..]);
    }
  }
}
