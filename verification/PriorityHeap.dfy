/**
  The binary heap under the request queue: the ordering of `priorityHeap.Less`
  and the sift algorithms of Go's `container/heap`, which the queue calls.
  A Go slice is modelled as a sequence that each operation hands back updated.
 */
module PriorityHeap {

  /** A pending request. `context` stands for the identity of the request and its
      cancellation context: two live requests never share it, even when their fields agree. */
  datatype Request = Request(id: string, priority: int, timestamp: int, context: nat)

  /** `priorityHeap.Less`: higher priority first, then the earlier timestamp. */
  predicate Precedes(a: Request, b: Request) {
    if a.priority == b.priority then a.timestamp < b.timestamp else a.priority > b.priority
  }

  function Parent(j: int): int {
    if j <= 0 then j else (j - 1) / 2
  }

  /** The heap order: no entry of the first n precedes its parent. */
  predicate Ordered(h: seq<Request>, n: nat)
    requires n <= |h|
  {
    forall j :: 0 < j < n ==> !Precedes(h[j], h[Parent(j)])
  }

  predicate IsHeap(h: seq<Request>) {
    Ordered(h, |h|)
  }

  /** Heap order everywhere except between k and its parent. */
  ghost predicate OrderedExceptAbove(h: seq<Request>, n: nat, k: nat)
    requires k < n <= |h|
  {
    && (forall j :: 0 < j < n && j != k ==> !Precedes(h[j], h[Parent(j)]))
    && (forall j :: 0 < j < n && Parent(j) == k ==> !Precedes(h[j], h[Parent(k)]))
  }

  /** Heap order everywhere except between k and its neighbours; the neighbours agree among themselves. */
  ghost predicate OrderedExceptAt(h: seq<Request>, n: nat, k: nat)
    requires k <= n <= |h|
  {
    && (forall j :: 0 < j < n && j != k && Parent(j) != k ==> !Precedes(h[j], h[Parent(j)]))
    && (forall j :: 0 < j < n && Parent(j) == k && 0 < k ==> !Precedes(h[j], h[Parent(k)]))
  }

  function Swap(h: seq<Request>, i: nat, j: nat): (r: seq<Request>)
    requires i < |h| && j < |h|
    ensures |r| == |h|
    ensures multiset(r) == multiset(h)
  {
    h[i := h[j]][j := h[i]]
  }

  /** No entry of a heap precedes the root. */
  lemma {:induction false} RootIsFirst(h: seq<Request>, n: nat, j: nat)
    requires j < n <= |h| && Ordered(h, n)
    ensures !Precedes(h[j], h[0])
    decreases j
  {
    if j > 0 {
      RootIsFirst(h, n, Parent(j));
    }
  }

  /** One exchange of `heap.up`: the misplaced entry moves from j to its parent. */
  lemma SiftsUp(h: seq<Request>, n: nat, j: nat)
    requires 0 < j < n <= |h| && OrderedExceptAbove(h, n, j)
    requires Precedes(h[j], h[Parent(j)])
    ensures OrderedExceptAbove(Swap(h, Parent(j), j), n, Parent(j))
  {
    var i := Parent(j);
    var g := Swap(h, i, j);
    forall k | 0 < k < n && k != i
      ensures !Precedes(g[k], g[Parent(k)])
      ensures Parent(k) == i ==> !Precedes(g[k], g[Parent(i)])
    {
      if k != j {
        assert !Precedes(h[k], h[Parent(k)]);
      }
      if 0 < i {
        assert !Precedes(h[i], h[Parent(i)]);
      }
    }
  }

  /** `heap.up`, within the first n entries. */
  method Up(h0: seq<Request>, j0: nat, n: nat) returns (h: seq<Request>)
    requires j0 < n <= |h0| && OrderedExceptAbove(h0, n, j0)
    ensures |h| == |h0| && h[n..] == h0[n..] && multiset(h) == multiset(h0)
    ensures Ordered(h, n)
  {
    h := h0;
    var j := j0;
    while Parent(j) != j && Precedes(h[j], h[Parent(j)])
      invariant 0 <= j < n <= |h| == |h0|
      invariant h[n..] == h0[n..] && multiset(h) == multiset(h0)
      invariant OrderedExceptAbove(h, n, j)
      decreases j
    {
      SiftsUp(h, n, j);
      h := Swap(h, Parent(j), j);
      j := Parent(j);
    }
  }

  /** The child that `heap.down` compares with: the right one only when it precedes the left one. */
  function FirstChild(h: seq<Request>, n: nat, i: nat): (c: nat)
    requires n <= |h| && 2 * i + 1 < n
    ensures i < c < n && Parent(c) == i
    ensures forall k :: 0 < k < n && Parent(k) == i ==> !Precedes(h[k], h[c])
  {
    var j1, j2 := 2 * i + 1, 2 * i + 2;
    assert forall k :: 0 < k < n && Parent(k) == i ==> k == j1 || k == j2;
    if j2 < n && Precedes(h[j2], h[j1]) then j2 else j1
  }

  /** One exchange of `heap.down`: the hole moves from i to its first child. */
  lemma SiftsDown(h: seq<Request>, n: nat, i: nat)
    requires n <= |h| && 2 * i + 1 < n && OrderedExceptAt(h, n, i)
    requires Precedes(h[FirstChild(h, n, i)], h[i])
    ensures OrderedExceptAt(Swap(h, i, FirstChild(h, n, i)), n, FirstChild(h, n, i))
  {
    var j := FirstChild(h, n, i);
    var g := Swap(h, i, j);
    forall k | 0 < k < n && k != j && Parent(k) != j
      ensures !Precedes(g[k], g[Parent(k)])
    {
      if k != i && Parent(k) != i {
        assert g[k] == h[k] && g[Parent(k)] == h[Parent(k)];
      }
    }
    forall k | 0 < k < n && Parent(k) == j
      ensures !Precedes(g[k], g[Parent(j)])
    {
      assert !Precedes(h[k], h[Parent(k)]);
    }
  }

  /** Where `heap.down` stops, only the edge above the hole can still be out of order. */
  lemma SettlesDown(h: seq<Request>, n: nat, i: nat)
    requires i < n <= |h| && OrderedExceptAt(h, n, i)
    requires 2 * i + 1 < n ==> !Precedes(h[FirstChild(h, n, i)], h[i])
    ensures OrderedExceptAbove(h, n, i)
  {
    forall k | 0 < k < n && Parent(k) == i
      ensures !Precedes(h[k], h[i])
    {
      assert !Precedes(h[k], h[FirstChild(h, n, i)]);
    }
  }

  /** `heap.down`: sifts the entry at i0 down within the first n, and says whether it moved. */
  method Down(h0: seq<Request>, i0: nat, n: nat) returns (h: seq<Request>, moved: bool)
    requires i0 < n <= |h0| && OrderedExceptAt(h0, n, i0)
    ensures |h| == |h0| && h[n..] == h0[n..] && multiset(h) == multiset(h0)
    ensures moved || i0 == 0 ==> Ordered(h, n)
    ensures !moved ==> OrderedExceptAbove(h, n, i0)
  {
    h := h0;
    var i := i0;
    while 2 * i + 1 < n && Precedes(h[FirstChild(h, n, i)], h[i])
      invariant i0 <= i < n <= |h| == |h0|
      invariant h[n..] == h0[n..] && multiset(h) == multiset(h0)
      invariant OrderedExceptAt(h, n, i)
      invariant i0 < i ==> !Precedes(h[i], h[Parent(i)])
      decreases n - i
    {
      var j := FirstChild(h, n, i);
      SiftsDown(h, n, i);
      h := Swap(h, i, j);
      i := j;
    }
    SettlesDown(h, n, i);
    moved := i > i0;
  }

  /** `priorityHeap.Pop` takes the last slot off the slice. */
  lemma DropsLast(h: seq<Request>, last: seq<Request>)
    requires h != [] && Ordered(h, |h| - 1) && h[|h| - 1..] == last
    ensures IsHeap(h[..|h| - 1])
    ensures last == [h[|h| - 1]] && multiset(h) == multiset(h[..|h| - 1]) + multiset(last)
  {
    assert h == h[..|h| - 1] + last;
  }

  /** `heap.Push`. */
  method Push(h0: seq<Request>, x: Request) returns (h: seq<Request>)
    requires IsHeap(h0)
    ensures IsHeap(h)
    ensures multiset(h) == multiset(h0) + multiset{x}
  {
    h := h0 + [x];
    assert forall j :: 0 < j < |h| && j != |h0| ==> Parent(j) < |h0|;
    h := Up(h, |h0|, |h0| + 1);
  }

  /** What taking x off the heap h means: x was one of the first, and the rest stays, as a heap. */
  ghost predicate Pops(h: seq<Request>, x: Request, h': seq<Request>) {
    && IsHeap(h')
    && multiset(h) == multiset(h') + multiset{x}
    && (forall y <- h :: !Precedes(y, x))
  }

  /** `heap.Pop`. */
  method Pop(h0: seq<Request>) returns (x: Request, h: seq<Request>)
    requires IsHeap(h0) && h0 != []
    ensures Pops(h0, x, h) && |h| == |h0| - 1
  {
    forall j | 0 <= j < |h0| ensures !Precedes(h0[j], h0[0]) {
      RootIsFirst(h0, |h0|, j);
    }
    var n := |h0| - 1;
    h := Swap(h0, 0, n);
    assert h[n..] == [h0[0]];
    if n > 0 {
      assert OrderedExceptAt(h, n, 0);
      var moved;
      h, moved := Down(h, 0, n);
    }
    DropsLast(h, [h0[0]]);
    x, h := h[n], h[..n];
  }

  /** After exchanging slot i with the last one, only slot i is out of place. */
  lemma HoleAt(h: seq<Request>, i: nat)
    requires IsHeap(h) && i < |h| - 1
    ensures OrderedExceptAt(Swap(h, i, |h| - 1), |h| - 1, i)
    ensures Swap(h, i, |h| - 1)[|h| - 1..] == [h[i]]
  {
    forall k | 0 < k < |h| - 1 && Parent(k) == i && 0 < i
      ensures !Precedes(h[k], h[Parent(i)])
    {
      assert !Precedes(h[k], h[i]) && !Precedes(h[i], h[Parent(i)]);
    }
  }

  /** Exchanges slot i with the last one and repairs the others: down, or else up. */
  method MoveOut(h0: seq<Request>, i: nat) returns (h: seq<Request>)
    requires IsHeap(h0) && i < |h0| - 1
    ensures h != [] && Ordered(h, |h| - 1) && h[|h| - 1..] == [h0[i]] && multiset(h) == multiset(h0)
  {
    var n := |h0| - 1;
    HoleAt(h0, i);
    var moved;
    h, moved := Down(Swap(h0, i, n), i, n);
    if !moved { h := Up(h, i, n); }
  }

  /** `heap.Remove`: takes out the entry at slot i. */
  method RemoveAt(h0: seq<Request>, i: nat) returns (h: seq<Request>)
    requires IsHeap(h0) && i < |h0|
    ensures IsHeap(h)
    ensures multiset(h0) == multiset(h) + multiset{h0[i]}
  {
    h := h0;
    if i != |h0| - 1 { h := MoveOut(h0, i); }
    DropsLast(h, [h0[i]]);
    h := h[..|h| - 1];
  }

  // ---- Rank -------------------------------------------------------------------

  /** How many entries strictly precede x: the position that Enqueue reports. */
  function Rank(h: seq<Request>, x: Request): nat {
    if h == [] then 0 else (if Precedes(h[0], x) then 1 else 0) + Rank(h[1..], x)
  }

  /** The entries that strictly precede x, with their multiplicities. */
  ghost function Ahead(h: seq<Request>, x: Request): (a: seq<Request>)
    ensures |a| == Rank(h, x)
    ensures forall y :: multiset(a)[y] == if Precedes(y, x) then multiset(h)[y] else 0
  {
    if h == [] then [] else
      assert h == [h[0]] + h[1..];
      if Precedes(h[0], x) then [h[0]] + Ahead(h[1..], x) else Ahead(h[1..], x)
  }

  /** Repeated popping takes `pops` out of m, in this order, and leaves `rest`: what comes
      out is sorted, and nothing left behind precedes anything that came out. */
  ghost predicate PopRun(m: multiset<Request>, pops: seq<Request>, rest: multiset<Request>) {
    && m == multiset(pops) + rest
    && (forall i, k :: 0 <= i < k < |pops| ==> !Precedes(pops[k], pops[i]))
    && (forall i, y :: 0 <= i < |pops| && y in rest ==> !Precedes(y, pops[i]))
  }

  /** One more pop at the end of a run. */
  lemma PopsNext(m: multiset<Request>, pops: seq<Request>, h: seq<Request>, x: Request, h': seq<Request>)
    requires PopRun(m, pops, multiset(h)) && Pops(h, x, h')
    ensures PopRun(m, pops + [x], multiset(h'))
  {
    assert x in multiset(h);
    forall y | y in multiset(h') ensures y in multiset(h) && y in h {
      assert multiset(h)[y] == (multiset(h') + multiset{x})[y];
    }
  }

  /** Popping k times from a heap, for any k the heap can serve, is such a run. */
  method PopMany(h0: seq<Request>, k: nat) returns (pops: seq<Request>, h: seq<Request>)
    requires IsHeap(h0) && k <= |h0|
    ensures |pops| == k && IsHeap(h)
    ensures PopRun(multiset(h0), pops, multiset(h))
  {
    h, pops := h0, [];
    while |pops| < k
      invariant |pops| <= k && |pops| + |h| == |h0| && IsHeap(h)
      invariant PopRun(multiset(h0), pops, multiset(h))
    {
      ghost var before := h;
      var x;
      x, h := Pop(h);
      PopsNext(multiset(h0), pops, before, x, h);
      pops := pops + [x];
    }
  }

  lemma SubsetIsShorter(a: seq<Request>, b: seq<Request>)
    requires forall y :: multiset(a)[y] <= multiset(b)[y]
    ensures |a| <= |b|
  {
    assert multiset(b) == multiset(a) + (multiset(b) - multiset(a));
    assert |multiset(a)| == |a| && |multiset(b)| == |b|;
  }

  ghost predicate NoTies(h: seq<Request>, x: Request) {
    forall y <- h :: y != x ==> Precedes(x, y) || Precedes(y, x)
  }

  /** Whatever precedes x is popped before it. */
  lemma AheadComesBefore(h: seq<Request>, x: Request, pops: seq<Request>, rest: multiset<Request>, i: nat)
    requires PopRun(multiset(h), pops, rest) && i < |pops| && pops[i] == x
    ensures forall y :: multiset(Ahead(h, x))[y] <= multiset(pops[..i])[y] <= multiset(h)[y]
  {
    var before, after := pops[..i], pops[i..];
    assert pops == before + after;
    assert forall y :: y in multiset(after) ==> !Precedes(y, x);
    forall y ensures multiset(Ahead(h, x))[y] <= multiset(before)[y] <= multiset(h)[y] {
      assert multiset(h)[y] == multiset(before)[y] + multiset(after)[y] + rest[y];
    }
  }

  /** The position reported by Enqueue is the request's rank in the order of service: with no
      further arrivals or removals at least that many pops come before it, and exactly that
      many when no other entry ties with it, whatever the layout of the heap. */
  lemma RankIsPopsBefore(h: seq<Request>, x: Request, pops: seq<Request>, rest: multiset<Request>, i: nat)
    requires PopRun(multiset(h), pops, rest) && i < |pops| && pops[i] == x
    ensures Rank(h, x) <= i
    ensures NoTies(h, x) && x !in pops[..i] ==> Rank(h, x) == i
  {
    var ahead, before := Ahead(h, x), pops[..i];
    AheadComesBefore(h, x, pops, rest, i);
    SubsetIsShorter(ahead, before);
    if NoTies(h, x) && x !in before {
      forall y ensures multiset(before)[y] <= multiset(ahead)[y] {
        assert multiset(before)[y] <= multiset(h)[y];
        if y in before {
          assert y in multiset(h) && y in h;
        }
      }
      SubsetIsShorter(before, ahead);
    }
  }
}
