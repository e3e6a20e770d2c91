/**
 * Per-connection application state: a store of values under string keys.
 * The read-write lock around it is not modelled; each call is one atomic step.
 */
module ConnState {
  import opened Wrappers

  class State<V> {
    var store: map<string, V>

    /** `NewState`: an empty store, in which every lookup misses. */
    constructor ()
      ensures store == map[]
      ensures forall key: string :: key !in store
    {
      store := map[];
    }

    /**
     * Looks `key` up. `value` is `None` (Go's nil) exactly when the key is
     * unbound; the store is only read.
     */
    method Get(key: string) returns (value: Option<V>, ok: bool)
      ensures ok <==> key in store
      ensures ok ==> value == Some(store[key])
      ensures !ok ==> value == None
    {
      ok := key in store;
      value := if ok then Some(store[key]) else None;
    }

    /**
     * Binds `key` to `value`, replacing any earlier binding, and leaves every
     * other key as it was.
     */
    method Set(key: string, value: V)
      modifies this
      ensures store == old(store)[key := value]
      ensures key in store && store[key] == value
      ensures forall k :: k in old(store) && k != key ==> k in store && store[k] == old(store)[k]
      ensures forall k :: k in store && k != key ==> k in old(store)
    {
      store := store[key := value];
    }
  }

  /** A binding is read back as it was set, and a second `Set` of the same key overwrites it. */
  method SetThenGet<V>(s: State<V>, key: string, first: V, second: V) returns (value: Option<V>, ok: bool)
    modifies s
    ensures ok && value == Some(second)
  {
    s.Set(key, first);
    s.Set(key, second);
    value, ok := s.Get(key);
  }
}
