/** The result store shared between agent operations: a dictionary from keys
    to results, which Python keeps in insertion order. */
module ContextStore {
  import opened Wrappers

  predicate NoDuplicates(s: seq<string>)
  {
    forall i, j :: 0 <= i < j < |s| ==> s[i] != s[j]
  }

  class ContextManager<V> {
    /** The keys in the order they were first stored. */
    var order: seq<string>
    /** The stored results. */
    var store: map<string, V>

    /** The key order lists exactly the stored keys, once each. */
    ghost predicate Valid()
      reads this
    {
      NoDuplicates(order) && forall k :: k in store <==> k in order
    }

    constructor ()
      ensures Valid() && order == [] && store == map[]
    {
      order := [];
      store := map[];
    }

    /** `store_result`: the last write to a key wins; a new key goes last. */
    method StoreResult(key: string, value: V)
      requires Valid()
      modifies this
      ensures Valid()
      ensures store == old(store)[key := value]
      ensures order == if key in old(store) then old(order) else old(order) + [key]
    {
      if key !in store {
        order := order + [key];
      }
      store := store[key := value];
    }

    /** `get_result`: the stored value, which may be empty or None, or a
        `KeyError` for a key never stored. */
    method GetResult(key: string) returns (r: Result<V, string>)
      ensures key in store ==> r == Ok(store[key])
      ensures key !in store ==> r == Err("Result with key '" + key + "' not found in context manager.")
    {
      if key in store {
        r := Ok(store[key]);
      } else {
        r := Err("Result with key '" + key + "' not found in context manager.");
      }
    }

    /** `has_result` */
    function HasResult(key: string): (b: bool)
      reads this
      requires Valid()
      ensures b <==> key in order
    {
      key in store
    }

    /** `clear_results` */
    method ClearResults()
      modifies this
      ensures Valid() && order == [] && store == map[]
    {
      order := [];
      store := map[];
    }

    /** `get_all_keys`: every stored key once, in insertion order. */
    method GetAllKeys() returns (keys: seq<string>)
      requires Valid()
      ensures keys == order
      ensures NoDuplicates(keys) && forall k :: k in keys <==> k in store
    {
      keys := order;
    }
  }

  /** A store then a read of the same key gives the value back; a store
      under another key leaves a key's result and presence alone; a cleared
      store has no keys. */
  method StoreScenario<V>(k: string, other: string, v: V, w: V) returns (first: Result<V, string>, second: Result<V, string>, keys: seq<string>)
    requires k != other
    ensures first == Ok(w)
    ensures second.Err?
    ensures keys == []
  {
    var cm := new ContextManager<V>();
    cm.StoreResult(k, v);
    cm.StoreResult(k, w);
    cm.StoreResult(other, v);
    first := cm.GetResult(k);
    assert cm.order == [k, other];
    cm.ClearResults();
    second := cm.GetResult(k);
    keys := cm.GetAllKeys();
  }
}
