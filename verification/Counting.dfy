/** Sums over a sequence of a weight per element, and how one update changes them. */
module Counting {

  function Total<T>(xs: seq<T>, w: T -> nat): nat {
    if xs == [] then 0 else w(xs[0]) + Total(xs[1..], w)
  }

  lemma {:induction false} TotalUpdate<T>(xs: seq<T>, i: nat, x: T, w: T -> nat)
    requires i < |xs|
    ensures Total(xs[i := x], w) == Total(xs, w) - w(xs[i]) + w(x)
  {
    if i == 0 {
      assert xs[i := x][1..] == xs[1..];
    } else {
      TotalUpdate(xs[1..], i - 1, x, w);
      assert xs[i := x][1..] == xs[1..][i - 1 := x];
    }
  }

  lemma {:induction false} TotalAtMost<T>(xs: seq<T>, v: T -> nat, w: T -> nat)
    requires forall i :: 0 <= i < |xs| ==> v(xs[i]) <= w(xs[i])
    ensures Total(xs, v) <= Total(xs, w)
  {
    if xs != [] {
      TotalAtMost(xs[1..], v, w);
    }
  }

  lemma {:induction false} TotalOf<T>(xs: seq<T>, w: T -> nat, each: nat)
    requires forall i :: 0 <= i < |xs| ==> w(xs[i]) == each
    ensures Total(xs, w) == each * |xs|
  {
    if xs != [] {
      TotalOf(xs[1..], w, each);
    }
  }

  lemma {:induction false} TotalCapped<T>(xs: seq<T>, w: T -> nat)
    requires forall k :: 0 <= k < |xs| ==> w(xs[k]) <= 1
    ensures Total(xs, w) <= |xs|
  {
    if xs != [] {
      TotalCapped(xs[1..], w);
    }
  }

  /** A positive sum has a positive term. */
  lemma {:induction false} TotalWitness<T>(xs: seq<T>, w: T -> nat) returns (i: nat)
    requires Total(xs, w) > 0
    ensures i < |xs| && w(xs[i]) > 0
  {
    if w(xs[0]) > 0 {
      i := 0;
    } else {
      i := TotalWitness(xs[1..], w);
      i := i + 1;
    }
  }

  lemma {:induction false} TotalConcat<T>(xs: seq<T>, ys: seq<T>, w: T -> nat)
    ensures Total(xs + ys, w) == Total(xs, w) + Total(ys, w)
  {
    if xs == [] {
      assert xs + ys == ys;
    } else {
      TotalConcat(xs[1..], ys, w);
      assert (xs + ys)[1..] == xs[1..] + ys;
    }
  }

  lemma {:induction false} TotalMember<T>(xs: seq<T>, i: nat, w: T -> nat)
    requires i < |xs|
    ensures w(xs[i]) <= Total(xs, w)
  {
    if i > 0 {
      TotalMember(xs[1..], i - 1, w);
    }
  }

  /** Two sequences whose elements weigh alike, one by one, have the same sum. */
  lemma {:induction false} TotalAlike<S, T>(xs: seq<S>, v: S -> nat, ys: seq<T>, w: T -> nat)
    requires |xs| == |ys|
    requires forall i :: 0 <= i < |xs| ==> v(xs[i]) == w(ys[i])
    ensures Total(xs, v) == Total(ys, w)
  {
    if xs != [] {
      TotalAlike(xs[1..], v, ys[1..], w);
    }
  }

  lemma {:induction false} TotalSum<T>(xs: seq<T>, u: T -> nat, v: T -> nat, w: T -> nat)
    requires forall i :: 0 <= i < |xs| ==> w(xs[i]) == u(xs[i]) + v(xs[i])
    ensures Total(xs, w) == Total(xs, u) + Total(xs, v)
  {
    if xs != [] {
      TotalSum(xs[1..], u, v, w);
    }
  }
}
