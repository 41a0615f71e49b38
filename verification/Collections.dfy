/** Facts about maps that several components share. */
module Collections {
  import opened Schema

  function Lookup<K, V>(m: map<K, V>, k: K): Option<V> {
    if k in m then Some(m[k]) else None
  }

  /** One key moves from the rest to the part of a map already gone through. */
  lemma OneMoreKey<K, V>(m: map<K, V>, todo: set<K>, k: K)
    requires todo <= m.Keys && k in todo
    ensures k !in m - todo && (m - todo)[k := m[k]] == m - (todo - {k})
  {
  }

  lemma AllAndNone<K, V>(m: map<K, V>)
    ensures m - m.Keys == map[] && m - {} == m
  {
  }
}
