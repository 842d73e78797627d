/** Sums over the values of a finite map, independent of the order of the keys. */
module Sums {

  ghost function Pick(m: map<string, int>): (k: string)
    requires |m| != 0
    ensures k in m
  {
    var k :| k in m; k
  }

  ghost function Sum(m: map<string, int>): int
    decreases |m|
  {
    if |m| == 0 then 0 else m[Pick(m)] + Sum(m - {Pick(m)})
  }

  lemma {:induction false} SumRemove(m: map<string, int>, k: string)
    requires k in m
    ensures Sum(m) == m[k] + Sum(m - {k})
    decreases |m|
  {
    var j := Pick(m);
    if j != k {
      var a, b := m - {j}, m - {k};
      SumRemove(a, k);
      SumRemove(b, j);
      assert a - {k} == b - {j};
    }
  }

  /** Writing one key changes the sum by the difference at that key. */
  lemma SumUpdate(m: map<string, int>, k: string, v: int)
    ensures k in m ==> Sum(m[k := v]) == Sum(m) - m[k] + v
    ensures k !in m ==> Sum(m[k := v]) == Sum(m) + v
  {
    var m' := m[k := v];
    SumRemove(m', k);
    if k in m {
      SumRemove(m, k);
      assert m' - {k} == m - {k};
    } else {
      assert m' - {k} == m;
    }
  }

  lemma SumEmpty()
    ensures Sum(map[]) == 0
  {
  }

  lemma {:induction false} SumZero(m: map<string, int>)
    requires forall k :: k in m ==> m[k] == 0
    ensures Sum(m) == 0
    decreases |m|
  {
    if |m| != 0 {
      SumZero(m - {Pick(m)});
    }
  }

  lemma {:induction false} SumNonNegative(m: map<string, int>)
    requires forall k :: k in m ==> m[k] >= 0
    ensures Sum(m) >= 0
    decreases |m|
  {
    if |m| != 0 {
      SumNonNegative(m - {Pick(m)});
    }
  }

  /** In a sum of non-negative terms, no one or two terms exceed the total. */
  lemma SumDominates(m: map<string, int>, j: string, k: string)
    requires forall i :: i in m ==> m[i] >= 0
    requires j in m && k in m
    ensures m[j] <= Sum(m)
    ensures j != k ==> m[j] + m[k] <= Sum(m)
  {
    SumRemove(m, j);
    SumNonNegative(m - {j});
    if j != k {
      SumRemove(m - {j}, k);
      SumNonNegative(m - {j} - {k});
    }
  }

  /** Sums of maps with the same keys add pointwise. */
  lemma {:induction false} SumAdd(a: map<string, int>, b: map<string, int>, c: map<string, int>)
    requires a.Keys == b.Keys == c.Keys
    requires forall k :: k in a ==> c[k] == a[k] + b[k]
    ensures Sum(c) == Sum(a) + Sum(b)
    decreases |a|
  {
    if |a| == 0 {
      assert a.Keys == {};
      assert |b.Keys| == 0 && |c.Keys| == 0;
    } else {
      var k :| k in a;
      SumRemove(a, k);
      SumRemove(b, k);
      SumRemove(c, k);
      SumAdd(a - {k}, b - {k}, c - {k});
    }
  }
}
