/** Counting the threads that are in a given phase. */
module Threads {

  /** How many entries of `ks` equal `k`. */
  function Count<K(==)>(ks: seq<K>, k: K): nat {
    if ks == [] then 0 else Count(ks[..|ks| - 1], k) + if ks[|ks| - 1] == k then 1 else 0
  }

  lemma {:induction false} CountUpdate<K>(ks: seq<K>, i: nat, x: K, k: K)
    requires i < |ks|
    ensures Count(ks[i := x], k) == Count(ks, k) - (if ks[i] == k then 1 else 0) + (if x == k then 1 else 0)
  {
    var n := |ks| - 1;
    if i < n {
      CountUpdate(ks[..n], i, x, k);
      assert ks[i := x][..n] == ks[..n][i := x];
    } else {
      assert ks[i := x][..n] == ks[..n];
    }
  }

  lemma {:induction false} CountPositive<K>(ks: seq<K>, i: nat, k: K)
    requires i < |ks| && ks[i] == k
    ensures Count(ks, k) > 0
  {
    var n := |ks| - 1;
    if i < n {
      CountPositive(ks[..n], i, k);
    }
  }

  lemma {:induction false} CountWitness<K>(ks: seq<K>, k: K) returns (i: nat)
    requires Count(ks, k) > 0
    ensures i < |ks| && ks[i] == k
  {
    var n := |ks| - 1;
    if ks[n] == k {
      i := n;
    } else {
      i := CountWitness(ks[..n], k);
    }
  }
}
