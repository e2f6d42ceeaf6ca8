// Sums of counters, one per process.
module Sums {
  function Sum(ns: seq<nat>): nat {
    if ns == [] then 0 else Sum(ns[..|ns| - 1]) + ns[|ns| - 1]
  }

  lemma {:induction false} SumUpdate(ns: seq<nat>, i: nat, n: nat)
    requires i < |ns|
    ensures Sum(ns[i := n]) == Sum(ns) - ns[i] + n
    decreases |ns|
  {
    var k := |ns| - 1;
    if i < k {
      SumUpdate(ns[..k], i, n);
      assert ns[i := n][..k] == ns[..k][i := n];
    } else {
      assert ns[i := n][..k] == ns[..k];
    }
  }

  lemma OneMoreTimes(k: nat, n: nat)
    ensures (k + 1) * n == k * n + n
  {}

  lemma {:induction false} SumBound(ns: seq<nat>, n: nat)
    requires forall i :: 0 <= i < |ns| ==> ns[i] <= n
    ensures Sum(ns) <= |ns| * n
    ensures Sum(ns) == |ns| * n <==> forall i :: 0 <= i < |ns| ==> ns[i] == n
  {
    if ns != [] {
      var init := ns[..|ns| - 1];
      SumBound(init, n);
      assert ns == init + [ns[|ns| - 1]];
      OneMoreTimes(|init|, n);
    }
  }

  lemma {:induction false} InitSum(n: nat)
    ensures Sum(seq(n, _ => 0)) == 0
  {
    if n > 0 {
      InitSum(n - 1);
      assert seq(n, _ => 0 as nat)[..n - 1] == seq(n - 1, _ => 0 as nat);
    }
  }
}
