/** Sums of counters held in a map, in whatever order the map is walked. */
module Counting {
  ghost function Sum<K>(m: map<K, nat>): nat {
    if m == map[] then 0
    else
      var k :| k in m;
      m[k] + Sum(m - {k})
  }

  lemma {:induction false} SumSplit<K>(m: map<K, nat>, k: K)
    requires k in m
    ensures Sum(m) == m[k] + Sum(m - {k})
    decreases |m|
  {
    var first :| k in m && first in m && Sum(m) == m[first] + Sum(m - {first});
    if first != k {
      SumSplit(m - {first}, k);
      SumSplit(m - {k}, first);
      assert m - {first} - {k} == m - {k} - {first};
    }
  }

  lemma SumUpdate<K>(m: map<K, nat>, k: K, v: nat)
    requires k in m
    ensures Sum(m[k := v]) == Sum(m) - m[k] + v
  {
    SumSplit(m, k);
    SumSplit(m[k := v], k);
    assert m[k := v] - {k} == m - {k};
  }

  /** A sum is zero exactly when every counter is. */
  lemma {:induction false} SumZero<K>(m: map<K, nat>)
    ensures Sum(m) == 0 <==> forall k :: k in m ==> m[k] == 0
    decreases |m|
  {
    if m != map[] {
      var k :| k in m;
      SumSplit(m, k);
      SumZero(m - {k});
      if Sum(m) == 0 {
        forall k' | k' in m ensures m[k'] == 0 {
          if k' != k { assert k' in m - {k}; }
        }
      }
    }
  }
}
