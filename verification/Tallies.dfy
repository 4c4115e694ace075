/** Counters: how often each key was seen. */
module Tallies {
  import Picking

  type Tally<K> = map<K, nat>

  function Get<K>(m: Tally<K>, k: K): nat {
    if k in m then m[k] else 0
  }

  function Bump<K>(m: Tally<K>, k: K): Tally<K> {
    m[k := Get(m, k) + 1]
  }

  /** The sum of all counts. */
  ghost function Total<K>(m: Tally<K>): nat {
    if m == map[] then 0
    else
      var k :| k in m;
      m[k] + Total(m - {k})
  }

  lemma {:induction false} TotalWithout<K>(m: Tally<K>, k: K)
    requires k in m
    ensures Total(m) == m[k] + Total(m - {k})
    decreases m
  {
    var first :| first in m && Total(m) == m[first] + Total(m - {first});
    if first != k {
      TotalWithout(m - {first}, k);
      TotalWithout(m - {k}, first);
      assert m - {first} - {k} == m - {k} - {first};
    }
  }

  lemma BumpAddsOne<K>(m: Tally<K>, k: K)
    ensures Total(Bump(m, k)) == Total(m) + 1
  {
    TotalWithout(Bump(m, k), k);
    assert Bump(m, k) - {k} == m - {k};
    if k in m {
      TotalWithout(m, k);
    } else {
      assert m - {k} == m;
    }
  }

  method Sum<K(==)>(m: Tally<K>) returns (sum: nat)
    ensures sum == Total(m)
  {
    sum := 0;
    var rest := m;
    while rest.Keys != {}
      invariant sum + Total(rest) == Total(m)
      decreases rest.Keys
    {
      var k := Picking.Any(rest.Keys);
      TotalWithout(rest, k);
      sum := sum + rest[k];
      rest := rest - {k};
    }
    assert rest == map[];
  }
}
