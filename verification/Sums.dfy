/** Finite sums over the values of a map, and the smaller and larger of two numbers. */
module Sums {
  function Min(a: int, b: int): int { if a < b then a else b }

  function Max(a: int, b: int): int { if a < b then b else a }

  ghost predicate Distinct<T>(s: seq<T>) {
    forall i, j :: 0 <= i < j < |s| ==> s[i] != s[j]
  }

  ghost function Total<K>(m: map<K, int>): int {
    if m == map[] then 0
    else
      var k :| k in m;
      m[k] + Total(m - {k})
  }

  /** The choice of element inside Total does not matter. */
  lemma {:induction false} TotalRemove<K>(m: map<K, int>, k: K)
    requires k in m
    ensures Total(m) == m[k] + Total(m - {k})
    decreases |m|
  {
    var j :| j in m && Total(m) == m[j] + Total(m - {j});
    if j != k {
      TotalRemove(m - {j}, k);
      TotalRemove(m - {k}, j);
      assert m - {j} - {k} == m - {k} - {j};
    }
  }

  lemma TotalUpdate<K>(m: map<K, int>, k: K, v: int)
    ensures Total(m[k := v]) == Total(m) - (if k in m then m[k] else 0) + v
  {
    TotalRemove(m[k := v], k);
    assert m[k := v] - {k} == m - {k};
    if k in m {
      TotalRemove(m, k);
    } else {
      assert m - {k} == m;
    }
  }

  lemma {:induction false} TotalNonNegative<K>(m: map<K, int>)
    requires forall k :: k in m ==> m[k] >= 0
    ensures Total(m) >= 0
    ensures forall k :: k in m ==> m[k] <= Total(m)
    decreases |m|
  {
    if m != map[] {
      var k :| k in m && Total(m) == m[k] + Total(m - {k});
      TotalNonNegative(m - {k});
      forall j | j in m ensures m[j] <= Total(m) {
        if j != k {
          assert j in m - {k};
        }
      }
    }
  }

  /** The part of a map whose keys are in a set. */
  ghost function Restrict<K>(m: map<K, int>, keys: set<K>): map<K, int> {
    map k | k in m && k in keys :: m[k]
  }

  /** A total splits over any set of keys. */
  lemma {:induction false} TotalSplit<K>(m: map<K, int>, keys: set<K>)
    ensures Total(m) == Total(Restrict(m, keys)) + Total(m - keys)
    decreases |m|
  {
    var inside := Restrict(m, keys);
    if m == map[] {
      assert inside == map[];
    } else {
      var k :| k in m;
      var rest := m - {k};
      TotalSplit(rest, keys);
      TotalRemove(m, k);
      var insideRest := Restrict(rest, keys);
      if k in keys {
        TotalRemove(inside, k);
        assert inside - {k} == insideRest;
        assert rest - keys == m - keys;
      } else {
        TotalRemove(m - keys, k);
        assert m - keys - {k} == rest - keys;
        assert inside == insideRest;
      }
    }
  }

  /** Totals subtract pointwise. */
  lemma {:induction false} TotalMinus<K>(a: map<K, int>, b: map<K, int>, d: map<K, int>)
    requires a.Keys == b.Keys == d.Keys
    requires forall k :: k in d ==> d[k] == a[k] - b[k]
    ensures Total(d) == Total(a) - Total(b)
    decreases |d|
  {
    if d == map[] {
      assert a == map[] && b == map[];
    } else {
      var k :| k in d;
      TotalRemove(a, k);
      TotalRemove(b, k);
      TotalRemove(d, k);
      TotalMinus(a - {k}, b - {k}, d - {k});
    }
  }
}
