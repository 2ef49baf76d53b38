/**
 Bulk operations on finite maps, as a database statement performs them on the rows
 of a table: change every value, keep some of the entries. They are defined by
 recursion rather than by map comprehension, so that nothing is ever said about
 keys outside the resulting map.
 */
module Maps {

  /** Every key keeps its place; its value becomes f of what it was. */
  ghost function Transform<K(!new), V>(m: map<K, V>, f: V -> V): (r: map<K, V>)
    ensures r.Keys == m.Keys
    ensures forall k :: k in m ==> r[k] == f(m[k])
    decreases |m|
  {
    if m == map[] then map[]
    else
      var k :| k in m;
      assert |m - {k}| < |m| by { FewerKeys(m, k); }
      var rest := Transform(m - {k}, f);
      assert m.Keys == (m - {k}).Keys + {k};
      rest[k := f(m[k])]
  }

  /** The entries whose value satisfies p. */
  ghost function Filter<K(!new), V>(m: map<K, V>, p: V -> bool): (r: map<K, V>)
    ensures forall k :: k in r <==> k in m && p(m[k])
    ensures forall k :: k in r ==> r[k] == m[k]
    decreases |m|
  {
    if m == map[] then map[]
    else
      var k :| k in m;
      assert |m - {k}| < |m| by { FewerKeys(m, k); }
      var rest := Filter(m - {k}, p);
      if p(m[k]) then rest[k := m[k]] else rest
  }

  lemma FewerKeys<K, V>(m: map<K, V>, k: K)
    requires k in m
    ensures |m - {k}| == |m| - 1
  {
    assert |m| == |m.Keys| && |m - {k}| == |(m - {k}).Keys|;
    assert (m - {k}).Keys == m.Keys - {k};
  }

  lemma {:induction false} SmallerSet<K>(a: set<K>, b: set<K>)
    requires a <= b
    ensures |a| <= |b|
    decreases |a|
  {
    if a == {} {
    } else {
      var k :| k in a;
      SmallerSet(a - {k}, b - {k});
    }
  }

  lemma SmallerMap<K, V>(a: map<K, V>, b: map<K, V>)
    requires a.Keys <= b.Keys
    ensures |a| <= |b|
  {
    SmallerSet(a.Keys, b.Keys);
    assert |a| == |a.Keys| && |b| == |b.Keys|;
  }
}
