/** The browser's key-value store as the two stores use it: one typed value
    per key (JSON serialisation is taken to be the identity) and a write that
    either lands or throws. */
module LocalStorage {
  import opened ErrorHandler

  /** What `localStorage.setItem` did. */
  datatype Write = Written | WriteThrows(error: ThrownError)

  /** `localStorage.setItem(key, v)`: on success `key` holds `v` and no other
      key changes; a throwing write changes nothing. */
  function SetItem<V>(m: map<string, V>, key: string, v: V, w: Write): (r: map<string, V>)
    ensures w.Written? ==> key in r && r[key] == v
    ensures w.Written? ==> r.Keys == m.Keys + {key}
    ensures forall k :: k in m && k != key ==> k in r && r[k] == m[k]
    ensures w.WriteThrows? ==> r == m
  {
    if w.Written? then m[key := v] else m
  }
}
