/** The four Redis commands the explain feature issues, on a keyspace whose entries may carry a
    deadline. From the deadline on an entry behaves as if it had been deleted. */
module RedisStore {
  import opened Options

  datatype Entry<+V> = Entry(value: V, deadline: Option<real>)

  type Keyspace<K, +V> = map<K, Entry<V>>

  predicate Live<K, V>(store: Keyspace<K, V>, key: K, now: real)
  {
    key in store && (store[key].deadline.Some? ==> now < store[key].deadline.value)
  }

  function Get<K, V>(store: Keyspace<K, V>, key: K, now: real): Option<V>
  {
    if Live(store, key, now) then Some(store[key].value) else None
  }

  /** The value INCR returns: a missing or expired counter starts again from zero. */
  function Incremented<K>(store: Keyspace<K, nat>, key: K, now: real): nat
  {
    if Live(store, key, now) then store[key].value + 1 else 1
  }

  /** INCR keeps the deadline of a live counter; a fresh counter has none. */
  function Incr<K>(store: Keyspace<K, nat>, key: K, now: real): Keyspace<K, nat>
  {
    store[key := Entry(Incremented(store, key, now), if Live(store, key, now) then store[key].deadline else None)]
  }

  /** EXPIRE does nothing to a key that is not there any more. */
  function Expire<K, V>(store: Keyspace<K, V>, key: K, ttl: real, now: real): Keyspace<K, V>
  {
    if Live(store, key, now) then store[key := store[key].(deadline := Some(now + ttl))] else store
  }

  /** SET key value EX ttl. */
  function SetEx<K, V>(store: Keyspace<K, V>, key: K, value: V, ttl: real, now: real): Keyspace<K, V>
  {
    store[key := Entry(value, Some(now + ttl))]
  }
}
