/** Small shared vocabulary: optional values, Python truthiness of strings,
    the status codes `requests` raises for, and map helpers for document upserts. */
module Common {

  datatype Option<T> = None | Some(value: T)

  /** Python truthiness of an optional string field: `None` and `""` are false. */
  predicate Truthy(s: Option<string>) {
    s.Some? && s.value != ""
  }

  /** `Response.raise_for_status()` raises exactly for client (4xx) and server (5xx) errors. */
  predicate RaisesForStatus(status: int) {
    400 <= status < 600
  }

  /** `collection.find_one({key: k})` on an in-memory keyed collection. */
  function Get<K, V>(m: map<K, V>, k: K): Option<V> {
    if k in m then Some(m[k]) else None
  }

  /** Upsert `w` under `k` when there is something to write; otherwise the collection is unchanged. */
  function StoreEntry<K, V>(m: map<K, V>, k: K, w: Option<V>): (r: map<K, V>)
    ensures w.Some? ==> k in r && r[k] == w.value
    ensures w.None? ==> r == m
    ensures forall k' :: k' in m && k' != k ==> k' in r && r[k'] == m[k']
    ensures r.Keys == if w.Some? then m.Keys + {k} else m.Keys
  {
    if w.Some? then m[k := w.value] else m
  }
}
