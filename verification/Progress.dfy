/**
  Nothing in the request path gets stuck: from every reachable state, every worker that is neither
  asleep nor stopped can take its next step. With the absence of lost wake-ups this gives that a
  queued request always has a worker that can move, and that Stop returns.
 */
module Progress {
  import opened Basics
  import opened PriorityHeap
  import opened RequestQueues
  import opened Scheduler

  // ---- A critical section of DequeueBlocking is always possible -----------------------

  /** Some entry precedes no other. */
  lemma {:induction false} HasLast(m: multiset<Request>) returns (x: Request)
    requires m != multiset{}
    ensures x in m && forall y :: y in m ==> !Precedes(x, y)
    decreases |m|
  {
    var z :| z in m;
    var rest := m - multiset{z};
    x := z;
    if rest != multiset{} {
      var y := HasLast(rest);
      if Precedes(z, y) { x := y; }
    }
    forall y | y in m ensures !Precedes(x, y) {
      assert y == z || y in rest;
    }
  }

  /** The entries can be laid out as a heap. */
  lemma {:induction false} HasHeap(m: multiset<Request>) returns (h: seq<Request>)
    ensures IsHeap(h) && multiset(h) == m
    decreases |m|
  {
    if m == multiset{} {
      h := [];
    } else {
      var x := HasLast(m);
      var init := HasHeap(m - multiset{x});
      forall y | y in init ensures !Precedes(x, y) {
        assert y in multiset(init);
      }
      h := init + [x];
    }
  }

  lemma PopsFirst(h: seq<Request>, x: Request, h1: seq<Request>, pops: seq<Request>, rest: multiset<Request>)
    requires Pops(h, x, h1) && PopRun(multiset(h1), pops, rest)
    ensures PopRun(multiset(h), [x] + pops, rest)
  {
    var all := [x] + pops;
    assert multiset(all) == multiset{x} + multiset(pops);
    forall y | y in multiset(pops) || y in rest ensures !Precedes(y, x) {
      assert y in multiset(h1);
      assert y in multiset(h);
    }
    forall i, k | 0 <= i < k < |all| ensures !Precedes(all[k], all[i]) {
      assert all[k] == pops[k - 1] && pops[k - 1] in multiset(pops);
    }
  }

  lemma PopPossible(h: seq<Request>) returns (h1: seq<Request>)
    requires IsHeap(h) && h != []
    ensures Pops(h, h[0], h1) && |h1| < |h|
  {
    h1 := HasHeap(multiset(h) - multiset{h[0]});
    assert |multiset(h1)| == |h1| && |multiset(h)| == |h|;
    forall j | 0 <= j < |h| ensures !Precedes(h[j], h[0]) {
      RootIsFirst(h, |h|, j);
    }
  }

  lemma {:induction false} SectionPossible(h: seq<Request>, closed: bool, cancelled: set<nat>)
    returns (h': seq<Request>, gone: seq<Request>, out: Outcome)
    requires IsHeap(h)
    ensures DequeueSection(h, closed, cancelled, h', gone, out)
    decreases |h|
  {
    if h == [] {
      h', gone, out := [], [], if closed then Ends else Sleeps;
    } else {
      var h1 := PopPossible(h);
      if h[0].context in cancelled {
        h', gone, out := SectionPossible(h1, closed, cancelled);
        PopsFirst(h, h[0], h1, gone + out.Taken(), multiset(h'));
        assert [h[0]] + (gone + out.Taken()) == [h[0]] + gone + out.Taken();
        gone := [h[0]] + gone;
      } else {
        h', gone, out := h1, [], Delivered(h[0]);
        PopsFirst(h, h[0], h1, [], multiset(h1));
        assert [h[0]] + [] == [] + [h[0]];
      }
    }
  }

  // ---- Every worker can move -----------------------------------------------------------

  ghost predicate CanMove(s: State, w: nat) {
    exists a, s' :: Step(s, Turn(w, a), s')
  }

  lemma QueuerCanMove(s: State, w: nat)
    requires Inv(s) && w < |s.workers| && (s.workers[w] == Entering || s.workers[w] == Signalled)
    ensures CanMove(s, w)
  {
    var h', gone, out := SectionPossible(s.heap, s.closed, s.cancelled);
    assert Step(s, Turn(w, Dequeue(h', gone, out)),
                s.(heap := h', workers := s.workers[w := After(out)], discarded := s.discarded + multiset(gone)));
  }

  lemma MoverCanMove(s: State, w: nat, a: Action)
    requires w < |s.workers| && !a.Dequeue? && MayMove(s, s.workers[w], a)
    ensures CanMove(s, w)
  {
    assert Step(s, Turn(w, a), Moved(s, w, MoveOf(s.workers[w], a, s.stopping)));
  }

  lemma SenderCanMove(s: State, w: nat)
    requires Inv(s) && w < |s.workers| && s.workers[w].Sending?
    ensures CanMove(s, w)
  {
    var r := s.workers[w].request;
    assert RequestKept(s, r);
    TotalOfUpdate(s.workers, w, s.workers[w], By(Holds(r)));
    MoverCanMove(s, w, Send);
  }

  lemma AwakeCanMove(s: State, w: nat)
    requires Inv(s) && w < |s.workers| && s.workers[w] != Asleep && s.workers[w] != Stopped
    ensures CanMove(s, w)
  {
    var here := s.workers[w];
    if here == AtTop {
      MoverCanMove(s, w, CheckStop);
    } else if here.Holding? {
      MoverCanMove(s, w, Admit);
    } else if here.Forwarding? {
      MoverCanMove(s, w, Finish);
    } else if here.Sending? {
      SenderCanMove(s, w);
    } else {
      QueuerCanMove(s, w);
    }
  }

  /** In every state of every run with a queued request, a worker that has not stopped means that
      some worker can move, if only to its exit. */
  lemma SomeWorkerCanMove(ss: seq<State>, es: seq<Event>, i: nat, w: nat)
    requires Run(ss, es) && i < |ss| && ss[i].heap != []
    requires w < |ss[i].workers| && ss[i].workers[w] != Stopped
    ensures exists v :: 0 <= v < |ss[i].workers| && CanMove(ss[i], v)
  {
    InvInEveryState(ss, es, i);
    if ss[i].workers[w] == Asleep {
      NoLostWakeup(ss, es, i);
      var v :| 0 <= v < |ss[i].workers| && ss[i].workers[v] == Signalled;
      AwakeCanMove(ss[i], v);
    } else {
      AwakeCanMove(ss[i], w);
    }
  }

  // ---- Queued requests are served ---------------------------------------------------------

  predicate Dequeues(e: Event) {
    e.Turn? && e.action.Dequeue?
  }

  predicate Arrives(e: Event) {
    e.Submit? || e.Reenqueue?
  }

  /** While the pool is not stopping, every turn that is not a dequeue brings the workers closer to the
      queue, a dequeue puts one of them at most four steps away, and no other step matters. */
  lemma StepNearsQueue(s: State, e: Event, s': State)
    requires Step(s, e, s') && !s.stopping
    ensures e.Turn? && !Dequeues(e) ==> Total(s'.workers, By(Busy)) < Total(s.workers, By(Busy))
    ensures Dequeues(e) ==> Total(s'.workers, By(Busy)) <= Total(s.workers, By(Busy)) + 4
    ensures !e.Turn? ==> Total(s'.workers, By(Busy)) == Total(s.workers, By(Busy))
  {
    if e.Turn? {
      TurnNearsQueue(s, e.w, e.action, s');
      SumsOfMove(s.workers, e.w, s'.workers, Busy);
    } else {
      OthersKeepPlaces(s, e, s');
      TotalOfSimilar(s.workers, s'.workers, By(Busy));
    }
  }

  lemma MoveNearsQueue(s: State, here: Worker, a: Action)
    requires !a.Dequeue? && MayMove(s, here, a) && !s.stopping
    ensures Weigh(Busy, MoveOf(here, a, s.stopping).to) < Weigh(Busy, here)
  {
  }

  lemma TurnNearsQueue(s: State, w: nat, a: Action, s': State)
    requires Step(s, Turn(w, a), s') && !s.stopping
    ensures |s'.workers| == |s.workers| && s'.workers == s.workers[w := s'.workers[w]]
    ensures !a.Dequeue? ==> Weigh(Busy, s'.workers[w]) < Weigh(Busy, s.workers[w])
    ensures a.Dequeue? ==> Weigh(Busy, s'.workers[w]) <= 4
  {
    if !a.Dequeue? { MoveNearsQueue(s, s.workers[w], a); }
  }

  lemma OthersKeepPlaces(s: State, e: Event, s': State)
    requires Step(s, e, s') && !e.Turn?
    ensures |s'.workers| == |s.workers|
    ensures forall i :: 0 <= i < |s.workers| ==> Weigh(Busy, s'.workers[i]) == Weigh(Busy, s.workers[i])
  {
    if e.Submit? || e.Reenqueue? {
      assert Signals(s.workers, e.wakes, s'.workers);
    } else {
      assert s'.workers == s.workers || s'.workers == WakeAll(s.workers);
    }
  }

  /** When no worker has anything to do before its next dequeue and a request is queued, a worker is
      at the queue and can dequeue. */
  lemma IdleWorkersDequeue(s: State)
    requires Inv(s) && !s.stopping && s.heap != [] && s.workers != [] && Total(s.workers, By(Busy)) == 0
    ensures exists w, a: Action, s' :: a.Dequeue? && Step(s, Turn(w, a), s')
  {
    TotalOfUpdate(s.workers, 0, s.workers[0], By(Busy));
    assert s.workers[0] != Stopped;
    var w := 0;
    if s.workers[0] == Asleep {
      w := PositiveWeight(s.workers, By(Woken));
    }
    var h', gone, out := SectionPossible(s.heap, s.closed, s.cancelled);
    assert Step(s, Turn(w, Dequeue(h', gone, out)),
                s.(heap := h', workers := s.workers[w := After(out)], discarded := s.discarded + multiset(gone)));
  }

  /** A stretch of a run, from a reachable state, during which stopCh stays open. */
  ghost predicate Stretch(ss: seq<State>, es: seq<Event>) {
    && |ss| == |es| + 1 && Inv(ss[0])
    && (forall i :: 0 <= i < |es| ==> Step(ss[i], es[i], ss[i + 1]) && !ss[i].stopping)
  }

  ghost function Turns(es: seq<Event>): nat {
    if es == [] then 0 else (if es[0].Turn? then 1 else 0) + Turns(es[1..])
  }

  ghost function Arrivals(es: seq<Event>): nat {
    if es == [] then 0 else (if Arrives(es[0]) then 1 else 0) + Arrivals(es[1..])
  }

  lemma StretchTail(ss: seq<State>, es: seq<Event>)
    requires Stretch(ss, es) && es != []
    ensures Step(ss[0], es[0], ss[1]) && !ss[0].stopping && Stretch(ss[1..], es[1..])
  {
    assert Step(ss[0], es[0], ss[0 + 1]);
    StepKeepsInv(ss[0], es[0], ss[1]);
    forall i | 0 <= i < |es[1..]| ensures Step(ss[1..][i], es[1..][i], ss[1..][i + 1]) && !ss[1..][i].stopping {
      assert Step(ss[i + 1], es[i + 1], ss[i + 1 + 1]) && !ss[i + 1].stopping;
    }
  }

  /** At most four turns per worker pass before one of them dequeues. */
  lemma {:induction false} DequeueComesSoon(ss: seq<State>, es: seq<Event>)
    requires Stretch(ss, es) && forall e <- es :: !Dequeues(e)
    ensures Turns(es) + Total(ss[|es|].workers, By(Busy)) <= Total(ss[0].workers, By(Busy)) <= 4 * |ss[0].workers|
    decreases |es|
  {
    TotalWithin(ss[0].workers, By(Busy), 4);
    if es != [] {
      assert es[0] in es;
      StretchTail(ss, es);
      StepNearsQueue(ss[0], es[0], ss[1]);
      DequeueComesSoon(ss[1..], es[1..]);
    }
  }

  /** What keeps a queued request waiting: the workers' way back to the queue, and the queue itself. */
  ghost function Waiting(s: State): nat {
    Total(s.workers, By(Busy)) + 5 * |s.heap|
  }

  ghost predicate StaysQueued(ss: seq<State>, r: Request) {
    forall i :: 0 <= i < |ss| ==> r in ss[i].heap
  }

  lemma StepShortensWait(s: State, e: Event, s': State, r: Request)
    requires Step(s, e, s') && !s.stopping && r in s.heap && r in s'.heap
    ensures Waiting(s') + (if e.Turn? then 1 else 0) <= Waiting(s) + if Arrives(e) then 5 else 0
  {
    StepNearsQueue(s, e, s');
    if Dequeues(e) {
      SectionShrinksHeap(s.heap, s.closed, s.cancelled, e.action.heap', e.action.gone, e.action.out);
    } else if e.Submit? || e.Reenqueue? || e.Remove? {
      assert |multiset(s'.heap)| == |s'.heap| && |multiset(s.heap)| == |s.heap|;
    } else {
      QueueUntouched(s, e, s');
    }
  }

  /** A queued request is served: however the run goes on, while stopCh is open it stays in the queue
      for at most four turns per worker, five per queued request, itself included, and five per later arrival. */
  lemma {:induction false} QueuedRequestsAreServed(ss: seq<State>, es: seq<Event>, r: Request)
    requires Stretch(ss, es) && StaysQueued(ss, r)
    ensures Turns(es) + Waiting(ss[|es|]) <= Waiting(ss[0]) + 5 * Arrivals(es)
    ensures Waiting(ss[0]) <= 4 * |ss[0].workers| + 5 * |ss[0].heap|
    decreases |es|
  {
    TotalWithin(ss[0].workers, By(Busy), 4);
    if es != [] {
      StretchTail(ss, es);
      assert r in ss[0].heap && r in ss[1].heap;
      StepShortensWait(ss[0], es[0], ss[1], r);
      assert StaysQueued(ss[1..], r) by {
        assert forall i :: 0 <= i < |ss[1..]| ==> ss[1..][i] == ss[i + 1];
      }
      QueuedRequestsAreServed(ss[1..], es[1..], r);
      ServedNext(ss, es);
    }
  }

  lemma ServedNext(ss: seq<State>, es: seq<Event>)
    requires es != [] && |ss| == |es| + 1
    requires Turns(es[1..]) + Waiting(ss[1..][|es[1..]|]) <= Waiting(ss[1..][0]) + 5 * Arrivals(es[1..])
    requires Waiting(ss[1]) + (if es[0].Turn? then 1 else 0) <= Waiting(ss[0]) + if Arrives(es[0]) then 5 else 0
    ensures Turns(es) + Waiting(ss[|es|]) <= Waiting(ss[0]) + 5 * Arrivals(es)
  {
  }

  /** Meanwhile some worker can always move. */
  lemma QueuedRequestsAreAttended(ss: seq<State>, es: seq<Event>, i: nat)
    requires Run(ss, es) && i < |ss| && ss[i].heap != [] && ss[i].workers != [] && !ss[i].stopping
    ensures exists v :: 0 <= v < |ss[i].workers| && CanMove(ss[i], v)
  {
    InvInEveryState(ss, es, i);
    assert ss[i].workers[0] in ss[i].workers;
    SomeWorkerCanMove(ss, es, i, 0);
  }

  /** The condition is needed: a worker that finds stopCh closed leaves a queued request behind. */
  lemma AbandonedAtStop(r: Request, max: int) returns (ss: seq<State>, es: seq<Event>)
    ensures Run(ss, es) && ss[|es|].heap == [r] && ss[|es|].workers == [Stopped]
  {
    var none: multiset<Request> := multiset{};
    var s0 := State(max, [], false, false, false, [AtTop], true, {}, none, none, {}, none, none, none, none, none);
    var s1 := s0.(heap := [r], accepted := {r});
    var s2 := s1.(stopping := true);
    var s3 := s2.(workers := [Stopped]);
    ss, es := [s0, s1, s2, s3], [Submit(r, [r], 0), CloseStopCh, Turn(0, CheckStop)];
    assert multiset([r]) == multiset([]) + multiset{r};
    assert Step(s0, es[0], s1);
    assert Moved(s2, 0, MoveOf(AtTop, CheckStop, true)) == s3;
    assert Step(s2, es[2], s3);
  }

  /** And nothing else does it: in every state of every run, requests are left in the queue with all
      workers stopped only after stopCh was closed. */
  lemma OnlyStopAbandons(ss: seq<State>, es: seq<Event>, i: nat)
    requires Run(ss, es) && i < |ss| && ss[i].heap != [] && ss[i].workers != []
    requires forall w <- ss[i].workers :: w == Stopped
    ensures ss[i].stopping
  {
    InvInEveryState(ss, es, i);
    assert ss[i].workers[0] in ss[i].workers;
  }

  // ---- Stop ----------------------------------------------------------------------------------

  /** Every goroutine that `Stop` waits for has returned. */
  predicate PoolGone(s: State) {
    !s.monitoring && forall w <- s.workers :: w == Stopped
  }

  ghost predicate PoolCanMove(s: State) {
    || (exists w :: 0 <= w < |s.workers| && CanMove(s, w))
    || (exists s' :: Step(s, MonitorExits, s'))
  }

  /** `Stop` returns: once its broadcast is out, workers and monitor have all returned if and only if
      none of them can move any more. */
  lemma StopReturns(ss: seq<State>, es: seq<Event>, i: nat)
    requires Run(ss, es) && i < |ss| && PoolStopped(ss[i])
    ensures PoolGone(ss[i]) <==> !PoolCanMove(ss[i])
  {
    var s := ss[i];
    InvInEveryState(ss, es, i);
    forall w | 0 <= w < |s.workers| ensures CanMove(s, w) <==> s.workers[w] != Stopped {
      if s.workers[w] != Stopped { AwakeCanMove(s, w); }
    }
    if s.monitoring {
      assert Step(s, MonitorExits, s.(monitoring := false));
    }
    if !PoolCanMove(s) {
      forall x | x in s.workers ensures x == Stopped {
        var w :| 0 <= w < |s.workers| && s.workers[w] == x;
        assert !CanMove(s, w);
      }
    } else if w :| 0 <= w < |s.workers| && CanMove(s, w) {
      assert s.workers[w] in s.workers;
    }
  }
}
