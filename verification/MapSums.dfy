/** Sums over the values of a finite map. */
module MapSums {

  ghost function MapSum(m: map<nat, nat>): nat
    decreases m.Keys
  {
    if m == map[] then 0
    else
      var k := Pick(m.Keys);
      m[k] + MapSum(m - {k})
  }

  ghost function Pick(s: set<nat>): (k: nat)
    requires s != {}
    ensures k in s
  {
    var k :| k in s;
    k
  }

  function At(m: map<nat, nat>, k: nat): nat {
    if k in m then m[k] else 0
  }

  /** Any key may be split off first. */
  lemma {:induction false} MapSumSplit(m: map<nat, nat>, k: nat)
    requires k in m
    ensures MapSum(m) == m[k] + MapSum(m - {k})
    decreases m.Keys
  {
    var j := Pick(m.Keys);
    if j != k {
      MapSumSplit(m - {j}, k);
      assert m - {j} - {k} == m - {k} - {j};
      MapSumSplit(m - {k}, j);
    }
  }

  /** Writing one key changes the sum by the difference at that key. */
  lemma {:induction false} MapSumUpdate(m: map<nat, nat>, k: nat, v: nat)
    ensures MapSum(m[k := v]) + At(m, k) == MapSum(m) + v
  {
    MapSumSplit(m[k := v], k);
    assert m[k := v] - {k} == m - {k};
    if k in m { MapSumSplit(m, k); } else { assert m - {k} == m; }
  }

  lemma {:induction false} MapSumAtLeast(m: map<nat, nat>, k: nat)
    ensures At(m, k) <= MapSum(m)
  {
    if k in m { MapSumSplit(m, k); }
  }

  lemma {:induction false} MapSumZero(m: map<nat, nat>)
    requires forall k :: k in m ==> m[k] == 0
    ensures MapSum(m) == 0
    decreases m.Keys
  {
    if m != map[] { MapSumZero(m - {Pick(m.Keys)}); }
  }

  lemma {:induction false} MapSumMono(m: map<nat, nat>, n: map<nat, nat>)
    requires m.Keys == n.Keys && forall k :: k in m ==> m[k] <= n[k]
    ensures MapSum(m) <= MapSum(n)
    decreases m.Keys
  {
    if m != map[] {
      var k := Pick(m.Keys);
      MapSumMono(m - {k}, n - {k});
    }
  }
}
