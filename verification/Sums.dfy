/** Sums over finite maps. */
module Sums {

  ghost function Sum(m: map<nat, int>): int
    decreases |m|
  {
    if m == map[] then 0 else
      var k :| k in m;
      assert (m - {k}).Keys == m.Keys - {k};
      m[k] + Sum(m - {k})
  }

  function At(m: map<nat, int>, k: nat): int {
    if k in m then m[k] else 0
  }

  lemma {:induction false} SumWithout(m: map<nat, int>, k: nat)
    requires k in m
    ensures Sum(m) == m[k] + Sum(m - {k})
    decreases |m|
  {
    var first :| first in m && Sum(m) == m[first] + Sum(m - {first});
    if first != k {
      var rest := m - {first};
      assert rest.Keys == m.Keys - {first};
      SumWithout(rest, k);
      assert (m - {k}).Keys == m.Keys - {k};
      SumWithout(m - {k}, first);
      assert rest - {k} == (m - {k}) - {first};
    }
  }

  lemma SumUpdate(m: map<nat, int>, k: nat, v: int)
    ensures Sum(m[k := v]) == Sum(m) + v - At(m, k)
  {
    var updated := m[k := v];
    SumWithout(updated, k);
    if k in m {
      SumWithout(m, k);
      assert updated - {k} == m - {k};
    } else {
      assert updated - {k} == m;
    }
  }

  lemma {:induction false} SumOfParts(a: map<nat, int>, b: map<nat, int>, c: map<nat, int>)
    requires a.Keys == b.Keys == c.Keys && forall k :: k in a ==> a[k] == b[k] + c[k]
    ensures Sum(a) == Sum(b) + Sum(c)
    decreases |a|
  {
    if a != map[] {
      var k :| k in a;
      SumWithout(a, k);
      SumWithout(b, k);
      SumWithout(c, k);
      assert (a - {k}).Keys == a.Keys - {k};
      SumOfParts(a - {k}, b - {k}, c - {k});
    } else {
      assert b == map[] && c == map[];
    }
  }

  lemma {:induction false} SumIsZeroIff(m: map<nat, int>)
    requires forall k :: k in m ==> m[k] >= 0
    ensures Sum(m) >= 0
    ensures Sum(m) == 0 <==> forall k :: k in m ==> m[k] == 0
    decreases |m|
  {
    if m != map[] {
      var k :| k in m;
      SumWithout(m, k);
      var rest := m - {k};
      assert rest.Keys == m.Keys - {k};
      SumIsZeroIff(rest);
      assert forall j :: j in m ==> (j == k || (j in rest && rest[j] == m[j]));
    }
  }
}
