/**
 * A Redis key space: string keys with optional expiry, each command atomic. Times are whole
 * seconds; a key with expiry `e` answers as absent from instant `e` on.
 */
module RedisStore {
  import opened Common

  datatype Entry<+V> = Entry(value: V, expires: Option<int>)

  type Store<+V> = map<string, Entry<V>>

  predicate Live<V>(store: Store<V>, now: int, key: string) {
    key in store && (store[key].expires.None? || now < store[key].expires.value)
  }

  function Get<V>(store: Store<V>, now: int, key: string): Option<V> {
    if Live(store, now, key) then Some(store[key].value) else None
  }

  /** `SET key value EX ttl` */
  function SetEx<V>(store: Store<V>, now: int, key: string, value: V, ttl: int): Store<V> {
    store[key := Entry(value, Some(now + ttl))]
  }

  function Del<V>(store: Store<V>, key: string): Store<V> {
    store - {key}
  }

  /** `INCR key`: a live key keeps its expiry, an absent one starts from 0 without any. */
  function Incr(store: Store<int>, now: int, key: string): Store<int> {
    if Live(store, now, key)
    then store[key := store[key].(value := store[key].value + 1)]
    else store[key := Entry(1, None)]
  }

  /** `EXPIRE key ttl` */
  function Expire<V>(store: Store<V>, now: int, key: string, ttl: int): Store<V> {
    if Live(store, now, key) then store[key := store[key].(expires := Some(now + ttl))] else store
  }
}
