/** Lists built by consing come out reversed. */
module Lists {

  function Reversed<T>(xs: seq<T>): seq<T>
  {
    if xs == [] then [] else Reversed(xs[1..]) + [xs[0]]
  }

  lemma {:induction false} ReversedSize<T>(xs: seq<T>)
    ensures |Reversed(xs)| == |xs| && forall x :: x in Reversed(xs) <==> x in xs
  {
    if xs != [] {
      ReversedSize(xs[1..]);
    }
  }

  lemma ReversedOnto<T>(x: T, xs: seq<T>, tail: seq<T>)
    ensures Reversed([x] + xs) + tail == Reversed(xs) + ([x] + tail)
  {
    assert ([x] + xs)[1..] == xs;
  }
}
