/** Sums over finite maps, independent of iteration order. */
module Collections {

  ghost function MapTotal<K>(m: map<K, nat>): nat
    decreases |m|
  {
    if m == map[] then 0
    else
      var k :| k in m;
      m[k] + MapTotal(m - {k})
  }

  /** Any key may be taken out first. */
  lemma {:induction false} TakeOut<K>(m: map<K, nat>, k: K)
    requires k in m
    ensures MapTotal(m) == m[k] + MapTotal(m - {k})
    decreases |m|
  {
    var first :| first in m && MapTotal(m) == m[first] + MapTotal(m - {first});
    if first != k {
      var rest := m - {first};
      TakeOut(rest, k);
      TakeOut(m - {k}, first);
      assert m - {first} - {k} == m - {k} - {first};
    }
  }

  lemma PutIn<K>(m: map<K, nat>, k: K, v: nat)
    ensures MapTotal(m[k := v]) == v + MapTotal(m - {k})
  {
    TakeOut(m[k := v], k);
    assert m[k := v] - {k} == m - {k};
  }

  lemma OneMoreTimes(x: nat, n: nat)
    ensures x * (n + 1) == x * n + x
  {
  }

  lemma {:induction false} TotalAtMost<K>(m: map<K, nat>, bound: nat)
    requires forall k :: k in m ==> m[k] <= bound
    ensures MapTotal(m) <= bound * |m|
    decreases |m|
  {
    if m != map[] {
      var k :| k in m;
      TakeOut(m, k);
      var n := |m - {k}|;
      TotalAtMost(m - {k}, bound);
      assert (m - {k}).Keys == m.Keys - {k};
      assert |m| == n + 1;
      OneMoreTimes(bound, n);
    }
  }

  lemma {:induction false} TotalIsZeroOnlyWhen<K>(m: map<K, nat>)
    ensures MapTotal(m) == 0 <==> forall k :: k in m ==> m[k] == 0
    decreases |m|
  {
    if m != map[] {
      var k :| k in m;
      TakeOut(m, k);
      TotalIsZeroOnlyWhen(m - {k});
      if MapTotal(m) == 0 {
        forall j | j in m ensures m[j] == 0 {
          if j != k {
            assert j in m - {k};
          }
        }
      }
    }
  }
}
