/** Option, and sums over finite maps. */
module Basics {
  datatype Option<+T> = None | Some(value: T)

  /** The sum of a map's values. */
  ghost function Sum(m: map<nat, nat>): nat
  {
    if m == map[] then 0
    else
      var k: nat :| k in m;
      m[k] + Sum(m - {k})
  }

  /** Taking one key out of a sum, whichever key the definition happens to pick. */
  lemma {:induction false} SumRemove(m: map<nat, nat>, k: nat)
    requires k in m
    ensures Sum(m) == m[k] + Sum(m - {k})
    decreases |m|
  {
    var j: nat :| j in m && Sum(m) == m[j] + Sum(m - {j});
    if j != k {
      SumRemove(m - {j}, k);
      SumRemove(m - {k}, j);
      assert m - {j} - {k} == m - {k} - {j};
    }
  }

  lemma SumPut(m: map<nat, nat>, k: nat, w: nat)
    ensures k !in m ==> Sum(m[k := w]) == Sum(m) + w
    ensures k in m ==> Sum(m[k := w]) + m[k] == Sum(m) + w
  {
    SumRemove(m[k := w], k);
    if k in m {
      SumRemove(m, k);
      assert m[k := w] - {k} == m - {k};
    } else {
      assert m[k := w] - {k} == m;
    }
  }
}
