/**
  What several modules share: optional values, sums over sequences, and the size of a subset.
 */
module Basics {

  datatype Option<+T> = None | Some(value: T)

  /** The sum of the weights of the elements. */
  ghost function Total<T>(xs: seq<T>, weigh: T -> nat): nat {
    if xs == [] then 0 else weigh(xs[0]) + Total(xs[1..], weigh)
  }

  lemma {:induction false} TotalOfUpdate<T>(xs: seq<T>, i: nat, x: T, weigh: T -> nat)
    requires i < |xs|
    ensures Total(xs[i := x], weigh) + weigh(xs[i]) == Total(xs, weigh) + weigh(x)
    ensures weigh(xs[i]) <= Total(xs, weigh)
  {
    if i == 0 {
      assert xs[i := x][1..] == xs[1..];
    } else {
      TotalOfUpdate(xs[1..], i - 1, x, weigh);
      assert xs[i := x][1..] == xs[1..][i - 1 := x];
    }
  }

  lemma {:induction false} TotalOfAppend<T>(xs: seq<T>, x: T, weigh: T -> nat)
    ensures Total(xs + [x], weigh) == Total(xs, weigh) + weigh(x)
  {
    if xs == [] {
      assert xs + [x] == [x];
    } else {
      TotalOfAppend(xs[1..], x, weigh);
      assert (xs + [x])[1..] == xs[1..] + [x];
    }
  }

  lemma {:induction false} TotalOfRemoval<T>(xs: seq<T>, i: nat, weigh: T -> nat)
    requires i < |xs|
    ensures Total(xs[..i] + xs[i + 1..], weigh) + weigh(xs[i]) == Total(xs, weigh)
  {
    if i == 0 {
      assert xs[..i] + xs[i + 1..] == xs[1..];
    } else {
      TotalOfRemoval(xs[1..], i - 1, weigh);
      assert (xs[..i] + xs[i + 1..])[1..] == xs[1..][..i - 1] + xs[1..][i..];
    }
  }

  /** Sequences that look alike to the weight have the same total. */
  lemma {:induction false} TotalOfSimilar<T>(xs: seq<T>, ys: seq<T>, weigh: T -> nat)
    requires |xs| == |ys| && forall i :: 0 <= i < |xs| ==> weigh(xs[i]) == weigh(ys[i])
    ensures Total(xs, weigh) == Total(ys, weigh)
  {
    if xs != [] { TotalOfSimilar(xs[1..], ys[1..], weigh); }
  }

  lemma {:induction false} TotalAtMost<T>(xs: seq<T>, less: T -> nat, more: T -> nat)
    requires forall i :: 0 <= i < |xs| ==> less(xs[i]) <= more(xs[i])
    ensures Total(xs, less) <= Total(xs, more)
  {
    if xs != [] { TotalAtMost(xs[1..], less, more); }
  }

  lemma {:induction false} TotalWithin<T>(xs: seq<T>, weigh: T -> nat, bound: nat)
    requires forall i :: 0 <= i < |xs| ==> weigh(xs[i]) <= bound
    ensures Total(xs, weigh) <= bound * |xs|
  {
    if xs != [] { TotalWithin(xs[1..], weigh, bound); }
  }

  lemma {:induction false} PositiveWeight<T>(xs: seq<T>, weigh: T -> nat) returns (i: nat)
    requires Total(xs, weigh) > 0
    ensures i < |xs| && weigh(xs[i]) > 0
  {
    if weigh(xs[0]) > 0 {
      i := 0;
    } else {
      i := PositiveWeight(xs[1..], weigh);
      i := i + 1;
    }
  }

  lemma SubsetIsSmaller<T>(a: set<T>, b: set<T>)
    requires a <= b
    ensures |a| <= |b|
    ensures |a| == |b| ==> a == b
  {
    assert b == a + (b - a);
    assert |a + (b - a)| == |a| + |b - a|;
  }

  lemma HasMore<T>(a: set<T>, b: set<T>) returns (x: T)
    requires a <= b && |a| < |b|
    ensures x in b && x !in a
  {
    assert b == a + (b - a);
    x :| x in b - a;
  }
}
