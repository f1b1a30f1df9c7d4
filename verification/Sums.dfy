/** Weighted sums over sequences: the counting tool behind every conservation law in this project. */
module Sums {

  function Total<T>(xs: seq<T>, w: T -> nat): nat
  {
    if xs == [] then 0 else w(xs[0]) + Total(xs[1..], w)
  }

  lemma {:induction false} TotalAppend<T>(xs: seq<T>, ys: seq<T>, w: T -> nat)
    ensures Total(xs + ys, w) == Total(xs, w) + Total(ys, w)
  {
    if xs == [] {
      assert xs + ys == ys;
    } else {
      assert (xs + ys)[1..] == xs[1..] + ys;
      TotalAppend(xs[1..], ys, w);
    }
  }

  lemma TotalSnoc<T>(xs: seq<T>, x: T, w: T -> nat)
    ensures Total(xs + [x], w) == Total(xs, w) + w(x)
  {
    TotalAppend(xs, [x], w);
  }

  lemma {:induction false} TotalUpdate<T>(xs: seq<T>, i: nat, x: T, w: T -> nat)
    requires i < |xs|
    ensures Total(xs[i := x], w) + w(xs[i]) == Total(xs, w) + w(x)
  {
    if i > 0 {
      assert xs[i := x][1..] == xs[1..][i - 1 := x];
      TotalUpdate(xs[1..], i - 1, x, w);
    } else {
      assert xs[i := x][1..] == xs[1..];
    }
  }

  lemma {:induction false} TotalAtLeast<T>(xs: seq<T>, x: T, w: T -> nat)
    requires x in xs
    ensures Total(xs, w) >= w(x)
  {
    if xs[0] != x {
      TotalAtLeast(xs[1..], x, w);
    }
  }

  /** Two sequences whose elements weigh the same, place by place, have the same total. */
  lemma {:induction false} TotalPointwise<S, T>(xs: seq<S>, v: S -> nat, ys: seq<T>, w: T -> nat)
    requires |xs| == |ys| && forall i :: 0 <= i < |xs| ==> v(xs[i]) == w(ys[i])
    ensures Total(xs, v) == Total(ys, w)
  {
    if xs != [] {
      assert forall i :: 0 <= i < |xs| - 1 ==> xs[1..][i] == xs[i + 1] && ys[1..][i] == ys[i + 1];
      TotalPointwise(xs[1..], v, ys[1..], w);
    }
  }

  /** A sequence in which nothing weighs anything weighs nothing. */
  lemma {:induction false} TotalZero<T>(xs: seq<T>, w: T -> nat)
    requires forall x :: x in xs ==> w(x) == 0
    ensures Total(xs, w) == 0
  {
    if xs != [] {
      TotalZero(xs[1..], w);
    }
  }
}
