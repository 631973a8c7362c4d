/**
  `RequestQueue`: a bounded priority queue with lazy deletion of cancelled requests.
  Each method is one critical section of the queue's mutex. `DequeueBlocking` runs from
  the moment it holds the mutex until it returns or falls asleep in `cond.Wait`; the
  module Scheduler puts these sections together with the condition variable.
 */
module RequestQueues {
  import opened PriorityHeap

  /** How a critical section of DequeueBlocking ends: with a request, asleep in
      `cond.Wait`, or with nil. */
  datatype Outcome = Delivered(request: Request) | Sleeps | Ends {
    function Taken(): seq<Request> {
      if Delivered? then [request] else []
    }
  }

  /** One critical section of DequeueBlocking on the heap h, leaving h'. `cancelled` holds the
      contexts whose Err() is set when their request comes off the heap. */
  ghost predicate DequeueSection(h: seq<Request>, closed: bool, cancelled: set<nat>,
                                 h': seq<Request>, discarded: seq<Request>, out: Outcome)
  {
    && IsHeap(h')
    && PopRun(multiset(h), discarded + out.Taken(), multiset(h'))
    && (forall d <- discarded :: d.context in cancelled)
    && (out.Delivered? ==> out.request.context !in cancelled)
    && (out.Sleeps? ==> h' == [] && !closed)
    && (out.Ends? ==> h' == [] && closed)
  }

  /** A delivered request is live, and no live request in the queue precedes it. */
  lemma DeliversTheFirstLive(h: seq<Request>, closed: bool, cancelled: set<nat>,
                             h': seq<Request>, discarded: seq<Request>, out: Outcome)
    requires DequeueSection(h, closed, cancelled, h', discarded, out) && out.Delivered?
    ensures out.request in h && out.request.context !in cancelled
    ensures forall y <- h :: y.context !in cancelled ==> !Precedes(y, out.request)
    ensures forall y <- h' :: !Precedes(y, out.request)
  {
    var pops := discarded + [out.request];
    assert pops[|discarded|] == out.request && out.request in multiset(pops);
    assert out.request in multiset(h);
    forall y | y in h ensures y in h' || y in discarded || y == out.request {
      assert y in multiset(h);
      assert y in multiset(pops) || y in multiset(h');
    }
    forall y | y in h' ensures !Precedes(y, out.request) {
      assert y in multiset(h');
    }
  }

  lemma {:induction false} RankOfAppend(h: seq<Request>, y: Request, x: Request)
    ensures Rank(h + [y], x) == Rank(h, x) + if Precedes(y, x) then 1 else 0
  {
    if h != [] {
      RankOfAppend(h[1..], y, x);
      assert (h + [y])[1..] == h[1..] + [y];
    } else {
      assert h + [y] == [y];
    }
  }

  class RequestQueue {
    var heap: seq<Request>
    const max: int
    var closed: bool

    ghost predicate Valid()
      reads this
    {
      IsHeap(heap) && (max > 0 ==> |heap| <= max)
    }

    constructor (max: int)
      ensures Valid() && heap == [] && !closed && this.max == max
    {
      this.max, heap, closed := max, [], false;
    }

    /** The first critical section of Close; the broadcast follows once the mutex is free. */
    method Close()
      requires Valid()
      modifies this`closed
      ensures Valid() && closed
    {
      closed := true;
    }

    /** Refuses when closed or full; otherwise adds the request and reports its rank. */
    method Enqueue(req: Request) returns (position: int, length: int)
      requires Valid()
      modifies this`heap
      ensures Valid()
      ensures position == -1 <==> old(closed || (max > 0 && |heap| >= max))
      ensures position == -1 ==> length == -1 && heap == old(heap)
      ensures position != -1 ==>
                && multiset(heap) == old(multiset(heap)) + multiset{req}
                && length == |heap| == old(|heap|) + 1
                && position == Rank(heap, req)
    {
      if closed || (max > 0 && |heap| >= max) { return -1, -1; }
      heap := Push(heap, req);
      assert |multiset(heap)| == |heap| && old(|multiset(heap)| == |heap|);
      length := |heap|;
      position := 0;
      var h := heap;
      for i := 0 to |h|
        invariant heap == h && position == Rank(h[..i], req)
      {
        assert h[..i + 1] == h[..i] + [h[i]];
        RankOfAppend(h[..i], h[i], req);
        if Precedes(h[i], req) { position := position + 1; }
      }
      assert h[..|h|] == h;
    }

    /** One critical section of DequeueBlocking; the heap length is its measure. */
    method Dequeue(cancelled: set<nat>) returns (discarded: seq<Request>, out: Outcome)
      requires Valid()
      modifies this`heap
      ensures Valid()
      ensures DequeueSection(old(heap), closed, cancelled, heap, discarded, out)
      ensures |heap| <= old(|heap|)
    {
      discarded := [];
      while heap != []
        invariant IsHeap(heap) && |heap| <= old(|heap|)
        invariant PopRun(old(multiset(heap)), discarded, multiset(heap))
        invariant forall d <- discarded :: d.context in cancelled
        decreases |heap|
      {
        ghost var before := heap;
        var item;
        item, heap := Pop(heap);
        PopsNext(old(multiset(heap)), discarded, before, item, heap);
        if item.context !in cancelled {
          return discarded, Delivered(item);
        }
        discarded := discarded + [item];
      }
      assert discarded + [] == discarded;
      out := if closed then Ends else Sleeps;
    }

    /** Takes out the first slot holding the given ID and reports that slot, or -1. */
    method Remove(requestID: string) returns (slot: int)
      requires Valid()
      modifies this`heap
      ensures Valid()
      ensures slot == -1 <==> forall r <- old(heap) :: r.id != requestID
      ensures slot == -1 ==> heap == old(heap)
      ensures slot != -1 ==>
                && 0 <= slot < old(|heap|) && old(heap)[slot].id == requestID
                && (forall k :: 0 <= k < slot ==> old(heap)[k].id != requestID)
                && old(multiset(heap)) == multiset(heap) + multiset{old(heap)[slot]}
    {
      for i := 0 to |heap|
        invariant heap == old(heap)
        invariant forall k :: 0 <= k < i ==> heap[k].id != requestID
      {
        if heap[i].id == requestID {
          heap := RemoveAt(heap, i);
          assert |old(multiset(heap))| == old(|heap|) && |multiset(heap)| == |heap|;
          return i;
        }
      }
      return -1;
    }
  }
}
