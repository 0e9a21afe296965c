/** Sums over the entries of a map, in whatever order they are visited. */
module MapSum {

  ghost function Sum<K>(m: map<K, int>): int
  {
    if m == map[] then 0
    else
      var k :| k in m;
      m[k] + Sum(m - {k})
  }

  /** Any entry may be taken out first. */
  lemma {:induction false} SumWithout<K>(m: map<K, int>, k: K)
    requires k in m
    ensures Sum(m) == m[k] + Sum(m - {k})
  {
    var j :| j in m && Sum(m) == m[j] + Sum(m - {j});
    if j != k {
      SumWithout(m - {j}, k);
      assert m - {j} - {k} == m - {k} - {j};
      SumWithout(m - {k}, j);
    }
  }

  lemma SumPut<K>(m: map<K, int>, k: K, v: int)
    ensures Sum(m[k := v]) == Sum(m) - (if k in m then m[k] else 0) + v
  {
    SumWithout(m[k := v], k);
    if k in m {
      SumWithout(m, k);
      assert m[k := v] - {k} == m - {k};
    } else {
      assert m[k := v] - {k} == m;
    }
  }

  lemma {:induction false} SumNonNegative<K>(m: map<K, int>)
    requires forall k :: k in m ==> m[k] >= 0
    ensures Sum(m) >= 0
    ensures forall k :: k in m ==> m[k] <= Sum(m)
    decreases m
  {
    if m != map[] {
      var j :| j in m && Sum(m) == m[j] + Sum(m - {j});
      SumNonNegative(m - {j});
      forall k | k in m
        ensures m[k] <= Sum(m)
      {
        if k != j {
          assert k in m - {j};
        }
      }
    }
  }

  lemma {:induction false} SumPart<K>(a: map<K, int>, b: map<K, int>)
    requires forall k :: k in a ==> k in b && a[k] == b[k]
    requires forall k :: k in b ==> b[k] >= 0
    ensures Sum(a) <= Sum(b)
    decreases a
  {
    if a == map[] {
      SumNonNegative(b);
    } else {
      var k :| k in a;
      SumWithout(a, k);
      SumWithout(b, k);
      SumPart(a - {k}, b - {k});
    }
  }
}
