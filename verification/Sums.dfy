/** Sums over sequences of natural numbers. */
module Sums {
  function Sum(xs: seq<nat>): nat {
    if xs == [] then 0 else Sum(xs[..|xs| - 1]) + xs[|xs| - 1]
  }

  lemma {:induction false} SumOfZeros(xs: seq<nat>)
    requires forall i :: 0 <= i < |xs| ==> xs[i] == 0
    ensures Sum(xs) == 0
  {
    if xs != [] {
      SumOfZeros(xs[..|xs| - 1]);
    }
  }

  lemma {:induction false} SumUpdate(xs: seq<nat>, i: nat, v: nat)
    requires i < |xs|
    ensures Sum(xs[i := v]) == Sum(xs) - xs[i] + v
  {
    var ys := xs[i := v];
    if i == |xs| - 1 {
      assert ys[..i] == xs[..i];
    } else {
      assert ys[..|xs| - 1] == xs[..|xs| - 1][i := v];
      SumUpdate(xs[..|xs| - 1], i, v);
    }
  }

  lemma {:induction false} SumOfEqual(xs: seq<nat>, v: nat)
    requires forall i :: 0 <= i < |xs| ==> xs[i] == v
    ensures Sum(xs) == |xs| * v
  {
    if xs != [] {
      SumOfEqual(xs[..|xs| - 1], v);
    }
  }
}
