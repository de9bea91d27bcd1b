/** The registry as an object updated in place, with the slot loop of erase_session. */
module GenerationRegistry {
  import opened Common
  import opened ObjectIdentity
  import opened Operations = Registry

  class GenerationRegistry<R> {
    const kind: nat
    const initialGeneration: nat
    var slots: seq<Slot<R>>
    var freeSlots: seq<nat>
    var liveCount: int
    ghost var issued: set<nat>

    ghost function Value(): Registry<R> reads this { Registry(kind, initialGeneration, slots, freeSlots, liveCount) }

    ghost predicate Valid() reads this { Ok(Value(), issued) }

    constructor (kind: nat, initial: nat)
      requires 0 < kind < 256 && initial <= MAX_GENERATION
      ensures Valid() && Value() == Empty(kind, initial) && issued == {}
    {
      this.kind, initialGeneration := kind, if initial == 0 then 1 else initial;
      slots, freeSlots, liveCount, issued := [], [], 0, {};
    }

    /** The last freed slot, else a new one while slots remain. */
    method ClaimSlot() returns (k: Option<nat>)
      requires Valid()
      modifies this`slots, this`freeSlots
      ensures k.None? ==> Value() == old(Value()) && Claim(old(Value())).None?
      ensures k.Some? ==> Claim(old(Value())) == Some((Value(), k.value))
    {
      hide Ok;
      if freeSlots != [] {
        k := Some(freeSlots[|freeSlots| - 1]);
        freeSlots := freeSlots[..|freeSlots| - 1];
      } else {
        if |slots| > MAX_SLOT { return None; }
        k := Some(|slots|);
        slots := slots + [Slot(initialGeneration, 0, None, false)];
      }
    }

    method Insert(owner: nat, record: R) returns (identity: Option<nat>)
      requires Valid()
      modifies this
      ensures Valid() && (identity.Some? ==> identity.value !in old(issued) && issued == old(issued) + {identity.value})
      ensures (Value(), identity) == Operations.Insert(old(Value()), owner, record)
    {
      hide Ok, Live, Identities, Pack, CountLive, Claim, SlotIdentity;
      ClaimFree(Value(), issued);
      InsertIsFresh(Value(), issued, owner, record);
      var claimed := ClaimSlot();
      if claimed.None? { return None; }
      var k := claimed.value;
      identity := Encode(Parts(kind, slots[k].generation, k));
      if identity.None? { assert false; }  // the source's roll-back: a claimed slot always encodes
      slots := slots[k := slots[k].(owner := owner, value := Some(record))];
      liveCount := liveCount + 1;
      issued := issued + {identity.value};
    }

    method ReleaseSlot(k: nat)
      requires Valid() && k < |slots| && SlotLive(slots[k])
      modifies this`slots, this`freeSlots, this`liveCount
      ensures Valid() && Value() == Release(old(Value()), k)
    {
      hide Ok, Live, Identities, SlotIdentity;
      ReleaseRemoves(Value(), issued, k);
      ghost var released := Release(Value(), k);
      var slot := slots[k].(value := None, owner := 0);
      liveCount := liveCount - 1;
      if slot.generation == MAX_GENERATION {
        slots := slots[k := slot.(retired := true)];
        assert Value() == released;
        return;
      }
      slots := slots[k := slot.(generation := slot.generation + 1)];
      freeSlots := freeSlots + [k];
      assert Value() == released;
    }

    /** The loop over all slots releases every live slot of the session. */
    method EraseSession(owner: nat) returns (erased: nat)
      requires Valid()
      modifies this`slots, this`freeSlots, this`liveCount
      ensures Valid() && Value() == Operations.EraseSession(old(Value()), owner)
      ensures erased == old(liveCount) - liveCount
    {
      hide Ok;
      ghost var g := Value();
      erased := 0;
      for index := 0 to |slots|
        modifies this`slots, this`freeSlots, this`liveCount
        invariant Valid() && |slots| == |g.slots| && Value() == EraseOwner(g, owner, index)
        invariant erased == g.live - liveCount
      {
        if slots[index].value.Some? && slots[index].owner == owner {
          ReleaseSlot(index);
          erased := erased + 1;
        }
      }
    }
  }
}
