/** The output slots of one node (crates/core/src/cache.rs). */
module OutputCache {
  import opened Prelude

  /** Times are milliseconds. */
  datatype CachedOutput = CachedOutput(value: Value, producedAt: int, trace: nat)

  type Slots = map<string, Option<CachedOutput>>

  /** Only a prepared slot takes a value. */
  function Written(slots: Slots, pin: string, out: CachedOutput): Slots {
    if pin in slots then slots[pin := Some(out)] else slots
  }

  class OutputCache {
    var slots: Slots

    constructor ()
      ensures slots == map[]
    {
      slots := map[];
    }

    /** Preparing twice keeps what the slot holds. */
    method PrepareSlot(pin: string)
      modifies this
      ensures slots == if pin in old(slots) then old(slots) else old(slots)[pin := None]
    {
      if pin !in slots {
        slots := slots[pin := None];
      }
    }

    /** True exactly when the slot exists and its value is new or different. */
    method Write(pin: string, out: CachedOutput) returns (changed: bool)
      modifies this
      ensures slots == Written(old(slots), pin, out)
      ensures changed <==> pin in old(slots) && (old(slots)[pin].None? || old(slots)[pin].value.value != out.value)
    {
      if pin !in slots {
        return false;
      }
      changed := slots[pin].None? || slots[pin].value.value != out.value;
      slots := slots[pin := Some(out)];
    }

    method Read(pin: string, ttl: Option<nat>, now: int) returns (r: Option<CachedOutput>)
      ensures r.Some? <==> pin in slots && slots[pin].Some?
                           && (ttl.Some? ==> var at := slots[pin].value.producedAt; now - at <= ttl.value && at - now <= ttl.value)
      ensures r.Some? ==> r == slots[pin]
    {
      if pin !in slots || slots[pin].None? {
        return None;
      }
      if ttl.Some? {
        var age := now - slots[pin].value.producedAt;
        if (if age < 0 then -age else age) > ttl.value {
          return None;
        }
      }
      return slots[pin];
    }
  }
}
