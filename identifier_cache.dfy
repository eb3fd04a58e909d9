/**
 * A registry that hands out a short string handle per distinct value. Values
 * are told apart by a serialisation key (`JSON.stringify` in the system);
 * the first value registered under a key keeps its handle, and handles are
 * "0", "1", "2", … in registration order.
 */
module IdentifierCaches {
  import opened Wrappers
  import opened Decimal

  class IdentifierCache<T> {
    /** The serialisation that decides whether two values are the same. */
    const keyOf: T -> string
    /** Serialised value to handle. */
    var intermediate: map<string, string>
    /** Handle to the value first registered under it. */
    var cache: map<string, T>
    var nextIndex: nat

    /** The handles issued so far: "0" … "nextIndex-1". */
    ghost function Issued(): set<string>
      reads this
    {
      set n | 0 <= n < nextIndex :: NatToString(n)
    }

    /** Every issued handle is cached, and the two maps are inverse to each other. */
    ghost predicate Valid()
      reads this
    {
      && cache.Keys == Issued()
      && (forall key | key in intermediate :: intermediate[key] in cache && keyOf(cache[intermediate[key]]) == key)
      && (forall id | id in cache :: keyOf(cache[id]) in intermediate && intermediate[keyOf(cache[id])] == id)
    }

    constructor(keyOf: T -> string)
      ensures Valid()
      ensures this.keyOf == keyOf && intermediate == map[] && cache == map[] && nextIndex == 0
    {
      this.keyOf := keyOf;
      intermediate := map[];
      cache := map[];
      nextIndex := 0;
    }

    /**
     * register: the handle of an already-registered key is returned unchanged;
     * otherwise the next number becomes the handle of this value.
     */
    method Register(value: T) returns (id: string)
      requires Valid()
      modifies this
      ensures Valid()
      ensures id in cache && keyOf(cache[id]) == keyOf(value)
      ensures keyOf(value) in old(intermediate) ==>
        id == old(intermediate[keyOf(value)]) && cache == old(cache) && intermediate == old(intermediate)
        && nextIndex == old(nextIndex)
      ensures keyOf(value) !in old(intermediate) ==>
        id == NatToString(old(nextIndex)) && nextIndex == old(nextIndex) + 1
        && cache == old(cache)[id := value] && intermediate == old(intermediate)[keyOf(value) := id]
    {
      var key := keyOf(value);
      if key in intermediate {
        id := intermediate[key];
        return;
      }
      id := NatToString(nextIndex);
      assert id !in cache by {
        forall n | 0 <= n < nextIndex ensures id != NatToString(n) {
          NatToStringInjective(n, nextIndex);
        }
      }
      ghost var before := Issued();
      nextIndex := nextIndex + 1;
      intermediate := intermediate[key := id];
      cache := cache[id := value];
      assert Issued() == before + {id};
    }

    /** get: the value registered under a handle, or nothing for a handle never issued. */
    method Get(id: string) returns (r: Option<T>)
      requires Valid()
      ensures r.Some? <==> id in Issued()
      ensures r.Some? ==> id in cache && r.value == cache[id]
      ensures r.Some? ==> keyOf(r.value) in intermediate && intermediate[keyOf(r.value)] == id
    {
      if id in cache {
        r := Some(cache[id]);
      } else {
        r := None;
      }
    }
  }
}
