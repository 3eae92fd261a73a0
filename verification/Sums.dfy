/** The sum of a sequence of counters. */
module Sums {
  function Total(xs: seq<nat>): nat { if xs == [] then 0 else Total(xs[..|xs| - 1]) + xs[|xs| - 1] }

  lemma {:induction false} TotalUpdate(xs: seq<nat>, d: nat, x: nat)
    requires d < |xs|
    ensures Total(xs[d := x]) == Total(xs) - xs[d] + x
  {
    var n := |xs| - 1;
    if d == n {
      assert xs[d := x][..n] == xs[..n];
    } else {
      assert xs[d := x][..n] == xs[..n][d := x];
      TotalUpdate(xs[..n], d, x);
    }
  }

  lemma {:induction false} TotalOfZeros(xs: seq<nat>)
    requires forall i :: 0 <= i < |xs| ==> xs[i] == 0
    ensures Total(xs) == 0
  {
    if xs != [] {
      TotalOfZeros(xs[..|xs| - 1]);
    }
  }
}
