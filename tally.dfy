/** Category count tables: Python dicts from a label to how many process
    executions carry it, and sum(table.values()). */
module Tally {

  type Table = map<string, nat>

  ghost function PickKey(m: Table): (k: string)
    requires m != map[]
    ensures k in m
  {
    var k :| k in m; k
  }

  /** The sum of a table's values, independent of iteration order (see
      TotalRemove). */
  ghost function Total(m: Table): nat
    decreases |m|
  {
    if m == map[] then 0
    else
      var k := PickKey(m);
      assert (m - {k}).Keys == m.Keys - {k};
      m[k] + Total(m - {k})
  }

  /** Any key can be taken out first: the sum does not depend on the order
      in which a dict's values are visited. */
  lemma {:induction false} TotalRemove(m: Table, k: string)
    requires k in m
    ensures Total(m) == m[k] + Total(m - {k})
    decreases |m|
  {
    var p := PickKey(m);
    if p != k {
      assert (m - {p}).Keys == m.Keys - {p};
      TotalRemove(m - {p}, k);
      assert (m - {k}).Keys == m.Keys - {k};
      TotalRemove(m - {k}, p);
      assert m - {p} - {k} == m - {k} - {p};
    }
  }

  /** Overwriting one entry changes the sum by the difference. */
  lemma TotalUpdate(m: Table, k: string, v: nat)
    ensures Total(m[k := v]) == Total(m) - (if k in m then m[k] else 0) + v
  {
    TotalRemove(m[k := v], k);
    if k in m {
      TotalRemove(m, k);
      assert m[k := v] - {k} == m - {k};
    } else {
      assert m[k := v] - {k} == m;
    }
  }

  /** A table whose values are all zero sums to zero. */
  lemma {:induction false} TotalZero(m: Table)
    requires forall k :: k in m ==> m[k] == 0
    ensures Total(m) == 0
    decreases |m|
  {
    if m != map[] {
      var k := PickKey(m);
      assert (m - {k}).Keys == m.Keys - {k};
      TotalZero(m - {k});
    }
  }

  /** sum(table.values()): visits the entries in whatever order the dict
      yields them. */
  method SumValues(m: Table) returns (total: nat)
    ensures total == Total(m)
  {
    total := 0;
    var rest := m;
    while rest != map[]
      invariant total + Total(rest) == Total(m)
      decreases rest.Keys
    {
      var k :| k in rest;
      TotalRemove(rest, k);
      total := total + rest[k];
      assert (rest - {k}).Keys == rest.Keys - {k};
      rest := rest - {k};
    }
  }
}
