/** The reference-counted payload store (crates/core/src/data.rs). */
module DataStore {
  import opened Prelude

  /** A random UUID in the program: here a number never handed out before. */
  type DataId = nat

  /** `remaining` is an AtomicUsize. */
  datatype Entry = Entry(payload: Value, remaining: nat)

  type Entries = map<DataId, Entry>

  datatype StoreError = CapacityExceeded(capacity: nat) | DataNotFound(id: DataId)

  function Remaining(m: Entries, id: DataId): nat {
    if id in m then m[id].remaining else 0
  }

  /** No entry sits at zero. */
  predicate WellCounted(m: Entries) {
    forall id :: id in m ==> m[id].remaining >= 1
  }

  predicate AtCapacity(m: Entries, capacity: nat) {
    capacity > 0 && |m| >= capacity
  }

  /** `fetch_sub(1)` on a `usize` wraps below zero. */
  function Decremented(n: nat): nat {
    if n == 0 then USIZE_RANGE - 1 else n - 1
  }

  /** `remove_if(id, fetch_sub(1) == 1)`: an absent id is a no-op. */
  function Released(m: Entries, id: DataId): Entries {
    if id !in m then m
    else if m[id].remaining == 1 then m - {id}
    else m[id := m[id].(remaining := Decremented(m[id].remaining))]
  }

  function ReleasedTimes(m: Entries, id: DataId, n: nat): Entries {
    if n == 0 then m else Released(ReleasedTimes(m, id, n - 1), id)
  }

  /** Releasing n shares takes exactly n off the count, stops at removal, and touches nothing else. */
  lemma {:induction false} ReleasedTimesCounts(m: Entries, id: DataId, n: nat)
    requires WellCounted(m)
    ensures var m' := ReleasedTimes(m, id, n);
            && WellCounted(m')
            && Remaining(m', id) == Max(0, Remaining(m, id) - n)
            && m'.Keys <= m.Keys
            && (forall k :: k in m && k != id ==> k in m' && m'[k] == m[k])
            && (id in m' ==> m'[id].payload == m[id].payload)
  {
    if n > 0 {
      ReleasedTimesCounts(m, id, n - 1);
    }
  }

  lemma {:induction false} ReleasedTimesAdd(m: Entries, id: DataId, a: nat, b: nat)
    ensures ReleasedTimes(ReleasedTimes(m, id, a), id, b) == ReleasedTimes(m, id, a + b)
  {
    if b > 0 {
      ReleasedTimesAdd(m, id, a, b - 1);
    }
  }

  class ArenaDataStore {
    var entries: Entries
    const capacity: nat
    /** Ids from here on have never been handed out. */
    var nextId: DataId

    ghost predicate Valid()
      reads this
    {
      WellCounted(entries) && forall id :: id in entries ==> id < nextId
    }

    constructor (capacity: nat)
      ensures Valid() && entries == map[] && this.capacity == capacity
    {
      this.capacity := capacity;
      entries := map[];
      nextId := 0;
    }

    /** Stores a payload for `consumers` readers (at least one), or refuses when full. */
    method Write(payload: Value, consumers: nat) returns (r: Result<DataId, StoreError>)
      requires Valid()
      modifies this
      ensures Valid()
      ensures r.Err? <==> AtCapacity(old(entries), capacity)
      ensures r.Err? ==> r.error == CapacityExceeded(capacity) && entries == old(entries) && nextId == old(nextId)
      ensures r.Ok? ==> r.value !in old(entries) && entries == old(entries)[r.value := Entry(payload, Max(consumers, 1))]
      ensures r.Ok? ==> r.value == old(nextId) && nextId == old(nextId) + 1
    {
      if capacity > 0 && |entries| >= capacity {
        return Err(CapacityExceeded(capacity));
      }
      var id := nextId;
      nextId := nextId + 1;
      entries := entries[id := Entry(payload, Max(consumers, 1))];
      return Ok(id);
    }

    /** A shared read and a copying read return the same payload: both succeed iff the entry is alive. */
    method Read(id: DataId) returns (r: Result<Value, StoreError>)
      ensures r == if id in entries then Ok(entries[id].payload) else Err(DataNotFound(id))
    {
      if id in entries {
        return Ok(entries[id].payload);
      }
      return Err(DataNotFound(id));
    }

    method Release(id: DataId)
      requires Valid()
      modifies this`entries
      ensures Valid()
      ensures entries == Released(old(entries), id)
    {
      if id in entries {
        var before := entries[id].remaining;
        entries := entries[id := entries[id].(remaining := Decremented(before))];
        if before == 1 {
          entries := entries - {id};
        }
      }
      assert entries == Released(old(entries), id);
    }
  }
}
