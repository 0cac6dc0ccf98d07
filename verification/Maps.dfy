/** Maps looked up key by key. */
module Maps {
  import opened Wrappers

  function Get<K, V>(m: map<K, V>, k: K): Option<V> {
    if k in m then Some(m[k]) else None
  }

  /** Maps that answer alike are equal. */
  lemma SameMap<K(!new), V(!new)>(m: map<K, V>, m': map<K, V>)
    requires forall k :: Get(m, k) == Get(m', k)
    ensures m == m'
  {
    forall k ensures k in m <==> k in m' { assert Get(m, k) == Get(m', k); }
    forall k | k in m ensures m[k] == m'[k] { assert Get(m, k) == Get(m', k); }
  }
}
