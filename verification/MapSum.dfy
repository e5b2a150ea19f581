/** The sum of the values of a finite map. */
module MapSum {

  ghost function SumOf(m: map<string, real>): real {
    if m == map[] then 0.0
    else
      var k :| k in m;
      SumOf(m - {k}) + m[k]
  }

  lemma {:induction false} SumAdd(m: map<string, real>, k: string, v: real)
    requires k !in m
    ensures SumOf(m[k := v]) == SumOf(m) + v
    decreases m.Keys
  {
    var all := m[k := v];
    assert all != map[] by { assert k in all; }
    var x :| x in all && SumOf(all) == SumOf(all - {x}) + all[x];
    if x == k {
      assert all - {k} == m;
    } else {
      assert all - {x} == (m - {x})[k := v];
      SumAdd(m - {x}, k, v);
      SumAdd(m - {x}, x, m[x]);
      assert (m - {x})[x := m[x]] == m;
    }
  }

  lemma SumRemove(m: map<string, real>, k: string)
    requires k in m
    ensures SumOf(m) == SumOf(m - {k}) + m[k]
  {
    SumAdd(m - {k}, k, m[k]);
    assert (m - {k})[k := m[k]] == m;
  }

  lemma SumUpdate(m: map<string, real>, k: string, v: real)
    ensures SumOf(m[k := v]) == SumOf(m) - (if k in m then m[k] else 0.0) + v
  {
    var rest := m - {k};
    SumAdd(rest, k, v);
    assert rest[k := v] == m[k := v];
    if k in m {
      SumRemove(m, k);
    } else {
      assert rest == m;
    }
  }
}
