/**
 The part of Redis the services use: a map from keys to values, where a key may
 carry the instant at which it vanishes. A key whose instant has passed reads as
 absent, whether or not the server has reclaimed it yet.
 */
module Redis {
  import opened Prelude

  datatype Entry<+V> = Entry(value: V, expiresAt: Option<int>)

  type Store<K(==), +V> = map<K, Entry<V>>

  predicate Visible<K, V>(store: Store<K, V>, key: K, now: int) {
    key in store && (store[key].expiresAt.Some? ==> now < store[key].expiresAt.value)
  }

  /** GET: the value, unless the key is absent or has vanished. */
  function Get<K, V>(store: Store<K, V>, key: K, now: int): Option<V> {
    if Visible(store, key, now) then Some(store[key].value) else None
  }

  /** SET with EX: the key vanishes `ttl` after `now`. */
  function SetEx<K, V>(store: Store<K, V>, key: K, value: V, now: int, ttl: int): Store<K, V> {
    store[key := Entry(value, Some(now + ttl))]
  }

  /** DEL. */
  function Delete<K, V>(store: Store<K, V>, key: K): Store<K, V> {
    store - {key}
  }
}
