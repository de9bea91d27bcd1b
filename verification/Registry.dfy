/**
  The generation registry (src/control/object_registry.hpp): a slot table whose
  identities carry a generation, so that an identity once issued names at most
  one object for ever.
 */
module Registry {
  import opened Common
  import opened ObjectIdentity

  datatype Slot<R> = Slot(generation: nat, owner: nat, value: Option<R>, retired: bool)

  datatype Registry<R> = Registry(kind: nat, initial: nat, slots: seq<Slot<R>>, free: seq<nat>, live: int)

  datatype Owned<R> = Owned(owner: nat, record: R)

  predicate SlotLive<R>(slot: Slot<R>) { slot.value.Some? }

  // ----- operations

  function Empty<R>(kind: nat, initial: nat): Registry<R> {
    Registry(kind, if initial == 0 then 1 else initial, [], [], 0)
  }

  /** The slot insert takes: the last freed one, else a new one while slots remain. */
  function Claim<R>(g: Registry<R>): Option<(Registry<R>, nat)> {
    if g.free != [] then Some((g.(free := g.free[..|g.free| - 1]), g.free[|g.free| - 1]))
    else if |g.slots| > MAX_SLOT then None
    else Some((g.(slots := g.slots + [Slot(g.initial, 0, None, false)]), |g.slots|))
  }

  function Insert<R>(g: Registry<R>, owner: nat, record: R): (Registry<R>, Option<nat>)
    requires forall i :: 0 <= i < |g.free| ==> g.free[i] < |g.slots|
  {
    match Claim(g)
    case None => (g, None)
    case Some((g1, k)) =>
      var slot := g1.slots[k];
      match Encode(Parts(g.kind, slot.generation, k))
      case None => (g1.(slots := g1.slots[k := slot.(value := None, owner := 0, retired := true)]), None)
      case Some(identity) =>
        (g1.(slots := g1.slots[k := slot.(owner := owner, value := Some(record))], live := g.live + 1), Some(identity))
  }

  /** The slot an identity names, if it names a live object of this registry. */
  function Find<R>(g: Registry<R>, identity: nat): Option<nat> {
    match Decode(identity)
    case None => None
    case Some(p) =>
      if p.kind != g.kind || p.slot >= |g.slots| then None
      else
        var slot := g.slots[p.slot];
        if slot.retired || slot.value.None? || slot.generation != p.generation then None else Some(p.slot)
  }

  function Resolve<R>(g: Registry<R>, owner: nat, identity: nat): Option<R> {
    match Find(g, identity)
    case None => None
    case Some(k) => if k < |g.slots| && g.slots[k].owner == owner then g.slots[k].value else None
  }

  function ResolveAny<R>(g: Registry<R>, identity: nat): Option<R> {
    match Find(g, identity)
    case None => None
    case Some(k) => if k < |g.slots| then g.slots[k].value else None
  }

  /** A field update through a resolved pointer. */
  function Update<R>(g: Registry<R>, identity: nat, record: R): Registry<R> {
    match Find(g, identity)
    case None => g
    case Some(k) => if k < |g.slots| then g.(slots := g.slots[k := g.slots[k].(value := Some(record))]) else g
  }

  function Release<R>(g: Registry<R>, k: nat): Registry<R>
    requires k < |g.slots|
  {
    var slot := g.slots[k].(value := None, owner := 0);
    if slot.generation == MAX_GENERATION then g.(slots := g.slots[k := slot.(retired := true)], live := g.live - 1)
    else g.(slots := g.slots[k := slot.(generation := slot.generation + 1)], live := g.live - 1, free := g.free + [k])
  }

  function Erase<R>(g: Registry<R>, owner: nat, identity: nat): (Registry<R>, int)
  {
    match Find(g, identity)
    case None => (g, EINVAL)
    case Some(k) => if k < |g.slots| && g.slots[k].owner == owner && g.slots[k].value.Some? then (Release(g, k), 0) else (g, EINVAL)
  }

  /** erase_session after its first n slots. */
  function EraseOwner<R>(g: Registry<R>, owner: nat, n: nat): Registry<R> {
    if n == 0 then g
    else
      var h := EraseOwner(g, owner, n - 1);
      if n - 1 < |h.slots| && SlotLive(h.slots[n - 1]) && h.slots[n - 1].owner == owner then Release(h, n - 1) else h
  }

  function EraseSession<R>(g: Registry<R>, owner: nat): Registry<R> { EraseOwner(g, owner, |g.slots|) }

  // ----- the map a registry stands for

  function SlotIdentity(kind: nat, generation: nat, k: nat): nat { Pack(Parts(kind, generation, k)) }

  function Identities<R>(g: Registry<R>): set<nat> {
    set k | 0 <= k < |g.slots| && SlotLive(g.slots[k]) :: SlotIdentity(g.kind, g.slots[k].generation, k)
  }

  function CountLive<R>(slots: seq<Slot<R>>): nat {
    if slots == [] then 0 else CountLive(slots[..|slots| - 1]) + (if SlotLive(slots[|slots| - 1]) then 1 else 0)
  }

  /** The well-formed registries; `issued` is every identity insert ever returned. */
  ghost predicate Ok<R>(g: Registry<R>, issued: set<nat>) {
    && 0 < g.kind < 256 && 0 < g.initial <= MAX_GENERATION
    && |g.slots| <= MAX_SLOT + 1
    && (forall k :: 0 <= k < |g.slots| ==>
          && g.initial <= g.slots[k].generation <= MAX_GENERATION
          && (g.slots[k].retired ==> g.slots[k].value.None?))
    && FreeOk(g)
    && g.live == CountLive(g.slots)
    && IssuedOk(g, issued)
  }

  /** Free slots are exactly the ones neither live nor retired, without repeats. */
  ghost predicate FreeOk<R>(g: Registry<R>) {
    && (forall i, j :: 0 <= i < j < |g.free| ==> g.free[i] != g.free[j])
    && (forall i :: 0 <= i < |g.free| ==> g.free[i] < |g.slots|)
    && (forall k :: 0 <= k < |g.slots| ==> (k in g.free <==> !SlotLive(g.slots[k]) && !g.slots[k].retired))
  }

  /** Live identities were issued; an issued one is live, or its slot moved on or retired. */
  ghost predicate IssuedOk<R>(g: Registry<R>, issued: set<nat>) {
    && (forall k :: 0 <= k < |g.slots| && SlotLive(g.slots[k]) ==>
          SlotIdentity(g.kind, g.slots[k].generation, k) in issued)
    && (forall id :: id in issued ==>
          var p := Unpack(id);
          && p.kind == g.kind && p.slot < |g.slots| && 0 < p.generation <= g.slots[p.slot].generation
          && id == Pack(p)
          && (p.generation == g.slots[p.slot].generation ==> SlotLive(g.slots[p.slot]) || g.slots[p.slot].retired))
  }

  /** The live objects by identity. */
  ghost function Live<R>(g: Registry<R>): map<nat, Owned<R>> {
    map id | id in Identities(g) && Unpack(id).slot < |g.slots| && SlotLive(g.slots[Unpack(id).slot]) ::
      Owned(g.slots[Unpack(id).slot].owner, g.slots[Unpack(id).slot].value.value)
  }

  // ----- lemmas

  lemma IdentityFacts(kind: nat, generation: nat, k: nat)
    requires 0 < kind < 256 && 0 < generation <= MAX_GENERATION && k <= MAX_SLOT
    ensures var id := SlotIdentity(kind, generation, k); var p := Parts(kind, generation, k);
            id < TWO_64 && Unpack(id) == p && Decode(id) == Some(p) && Encode(p) == Some(id)
  {
    DecodeEncode(Parts(kind, generation, k));
  }

  lemma LiveIsFound<R>(g: Registry<R>, issued: set<nat>, id: nat)
    requires Ok(g, issued) && id in Live(g)
    ensures id < TWO_64 && Find(g, id) == Some(Unpack(id).slot)
  {
    hide Pack, Unpack, Decode, FreeOk, IssuedOk, CountLive;
    var k :| 0 <= k < |g.slots| && SlotLive(g.slots[k]) && id == SlotIdentity(g.kind, g.slots[k].generation, k);
    IdentityFacts(g.kind, g.slots[k].generation, k);
  }

  lemma FoundIsLive<R>(g: Registry<R>, issued: set<nat>, id: nat)
    requires Ok(g, issued) && Find(g, id).Some? && id < TWO_64
    ensures id in Live(g) && Find(g, id).value == Unpack(id).slot < |g.slots|
  {
    EncodeDecode(id);
    assert Decode(id).value == Unpack(id);
    hide Pack, Unpack, Decode, FreeOk, IssuedOk, CountLive;
    var k := Find(g, id).value;
    assert id == SlotIdentity(g.kind, g.slots[k].generation, k);
  }

  /** Resolving is looking up the map, for the owner only. */
  lemma ResolveIsLookup<R>(g: Registry<R>, issued: set<nat>, owner: nat, id: nat)
    requires Ok(g, issued) && id < TWO_64
    ensures Resolve(g, owner, id)
            == if id in Live(g) && Live(g)[id].owner == owner then Some(Live(g)[id].record) else None
    ensures ResolveAny(g, id) == if id in Live(g) then Some(Live(g)[id].record) else None
  {
    hide Pack, Unpack, Decode, Ok, Identities;
    if id in Live(g) { LiveIsFound(g, issued, id); }
    if Find(g, id).Some? { FoundIsLive(g, issued, id); }
  }

  lemma {:induction false} CountUpdate<R>(slots: seq<Slot<R>>, k: nat, slot: Slot<R>)
    requires k < |slots|
    ensures CountLive(slots[k := slot])
            == CountLive(slots) - (if SlotLive(slots[k]) then 1 else 0) + (if SlotLive(slot) then 1 else 0)
  {
    var init := slots[..|slots| - 1];
    if k == |slots| - 1 {
      assert slots[k := slot][..|slots| - 1] == init;
    } else {
      assert slots[k := slot][..|slots| - 1] == init[k := slot];
      CountUpdate(init, k, slot);
    }
  }

  lemma LiveSlot<R>(g: Registry<R>, issued: set<nat>, k: nat)
    requires Ok(g, issued) && k < |g.slots| && SlotLive(g.slots[k])
    ensures var id := SlotIdentity(g.kind, g.slots[k].generation, k);
            id in Live(g) && Live(g)[id] == Owned(g.slots[k].owner, g.slots[k].value.value) && Unpack(id).slot == k
  {
    IdentityFacts(g.kind, g.slots[k].generation, k);
  }

  lemma LiveInverse<R>(g: Registry<R>, issued: set<nat>, id: nat) returns (k: nat)
    requires Ok(g, issued) && id in Live(g)
    ensures k < |g.slots| && SlotLive(g.slots[k]) && id == SlotIdentity(g.kind, g.slots[k].generation, k)
    ensures k == Unpack(id).slot && id in issued
  {
    k :| 0 <= k < |g.slots| && SlotLive(g.slots[k]) && id == SlotIdentity(g.kind, g.slots[k].generation, k);
    IdentityFacts(g.kind, g.slots[k].generation, k);
  }

  /** Two registries that differ in one slot differ in that slot's identity. */
  lemma LiveAfter<R>(g: Registry<R>, h: Registry<R>, issued: set<nat>, issued': set<nat>, k: nat)
    requires Ok(g, issued) && Ok(h, issued') && g.kind == h.kind
    requires k < |h.slots| && |g.slots| <= |h.slots| <= |g.slots| + 1 && (|h.slots| == |g.slots| + 1 ==> k == |g.slots|)
    requires forall i :: 0 <= i < |g.slots| && i != k ==> h.slots[i] == g.slots[i]
    ensures forall id :: id in Live(g) && Unpack(id).slot != k ==> id in Live(h) && Live(h)[id] == Live(g)[id]
    ensures forall id :: id in Live(h) && Unpack(id).slot != k ==> id in Live(g)
  {
    hide Ok, Live, Identities, Unpack, Pack;
    forall id | id in Live(g) && Unpack(id).slot != k ensures id in Live(h) && Live(h)[id] == Live(g)[id] {
      var i := LiveInverse(g, issued, id);
      LiveSlot(g, issued, i);
      LiveSlot(h, issued', i);
    }
    forall id | id in Live(h) && Unpack(id).slot != k ensures id in Live(g) {
      var i := LiveInverse(h, issued', id);
      LiveSlot(g, issued, i);
    }
  }

  // ----- insert

  lemma ClaimFree<R>(g: Registry<R>, issued: set<nat>)
    requires Ok(g, issued)
    ensures Claim(g).None? <==> g.free == [] && |g.slots| == MAX_SLOT + 1
    ensures Claim(g).Some? ==>
              var (g1, k) := Claim(g).value;
              && k <= MAX_SLOT && k < |g1.slots| && g1.kind == g.kind && g1.initial == g.initial && g1.live == g.live
              && !SlotLive(g1.slots[k]) && !g1.slots[k].retired && g.initial <= g1.slots[k].generation <= MAX_GENERATION
              && |g.slots| <= |g1.slots| <= |g.slots| + 1 && (|g1.slots| == |g.slots| + 1 ==> k == |g.slots|)
              && (forall i :: 0 <= i < |g.slots| ==> g1.slots[i] == g.slots[i])
              && CountLive(g1.slots) == CountLive(g.slots)
              && SlotIdentity(g.kind, g1.slots[k].generation, k) !in issued
  {
    hide Pack, Unpack;
    if g.free != [] {
      var k := g.free[|g.free| - 1];
      assert k in g.free;
      IdentityFacts(g.kind, g.slots[k].generation, k);
    } else if |g.slots| <= MAX_SLOT {
      var slot := Slot(g.initial, 0, None, false);
      assert (g.slots + [slot])[..|g.slots|] == g.slots;
      IdentityFacts(g.kind, g.initial, |g.slots|);
    }
  }

  lemma FreeAfterClaim<R>(g: Registry<R>, owner: nat, record: R)
    requires FreeOk(g) && Claim(g).Some?
    requires var (g1, k) := Claim(g).value; k < |g1.slots|
    ensures var (g1, k) := Claim(g).value; FreeOk(Filled(g, g1, k, owner, record))
  {
    var (g1, k) := Claim(g).value;
    var slots := g1.slots[k := g1.slots[k].(owner := owner, value := Some(record))];
    if g.free != [] {
      forall i | 0 <= i < |slots| ensures i in g1.free <==> !SlotLive(slots[i]) && !slots[i].retired {
        assert g.free == g1.free + [k];
        if i in g1.free {
          var j :| 0 <= j < |g1.free| && g1.free[j] == i;
          assert g.free[j] == i && g.free[|g.free| - 1] == k;
        }
      }
    }
  }

  /** A new identity was never issued before; it is the one addition to the map. */
  lemma InsertIsFresh<R>(g: Registry<R>, issued: set<nat>, owner: nat, record: R)
    requires Ok(g, issued)
    ensures var (g', id) := Insert(g, owner, record);
            && (id.None? <==> g.free == [] && |g.slots| == MAX_SLOT + 1)
            && (id.None? ==> g' == g)
            && (id.Some? ==>
                  && id.value !in issued && id.value < TWO_64 && Ok(g', issued + {id.value})
                  && Live(g') == Live(g)[id.value := Owned(owner, record)])
  {
    hide Ok, Live, Claim, Insert, CountLive, Pack;
    FreeInside(g, issued);
    ClaimFree(g, issued);
    InsertDoes(g, issued, owner, record);
    if Claim(g).Some? { InsertKeeps(g, issued, owner, record); }
  }

  lemma FreeInside<R>(g: Registry<R>, issued: set<nat>)
    requires Ok(g, issued)
    ensures forall i :: 0 <= i < |g.free| ==> g.free[i] < |g.slots|
  {
  }

  /** The registry after the claimed slot k of g1 was filled. */
  function Filled<R>(g: Registry<R>, g1: Registry<R>, k: nat, owner: nat, record: R): Registry<R>
    requires k < |g1.slots|
  {
    g1.(slots := g1.slots[k := g1.slots[k].(owner := owner, value := Some(record))], live := g.live + 1)
  }

  /** Encoding the identity of a claimed slot never fails. */
  lemma InsertDoes<R>(g: Registry<R>, issued: set<nat>, owner: nat, record: R)
    requires Ok(g, issued) && forall i :: 0 <= i < |g.free| ==> g.free[i] < |g.slots|
    ensures Claim(g).None? ==> Insert(g, owner, record) == (g, None)
    ensures Claim(g).Some? ==>
              var (g1, k) := Claim(g).value;
              && k < |g1.slots|
              && (var id := SlotIdentity(g.kind, g1.slots[k].generation, k);
                  id < TWO_64 && Insert(g, owner, record) == (Filled(g, g1, k, owner, record), Some(id)))
  {
    hide FreeOk, IssuedOk, CountLive, Claim, Encode, Pack;
    ClaimFree(g, issued);
    if Claim(g).Some? {
      var (g1, k) := Claim(g).value;
      IdentityFacts(g.kind, g1.slots[k].generation, k);
    }
  }

  lemma InsertKeeps<R>(g: Registry<R>, issued: set<nat>, owner: nat, record: R)
    requires Ok(g, issued) && Claim(g).Some?
    ensures var (g1, k) := Claim(g).value;
            && k < |g1.slots|
            && (var id, h := SlotIdentity(g.kind, g1.slots[k].generation, k), Filled(g, g1, k, owner, record);
                && id !in issued && Ok(h, issued + {id}) && Live(h) == Live(g)[id := Owned(owner, record)])
  {
    hide FreeOk, IssuedOk, Live, Identities, Pack, Unpack, CountLive, Claim;
    ClaimFree(g, issued);
    var (g1, k) := Claim(g).value;
    var h := Filled(g, g1, k, owner, record);
    FreeAfterClaim(g, owner, record);
    CountUpdate(g1.slots, k, h.slots[k]);
    InsertKeepsIssued(g, h, issued, k);
    InsertKeepsOk(g, h, issued, k);
    InsertLive(g, h, issued, k);
  }

  lemma InsertKeepsOk<R>(g: Registry<R>, h: Registry<R>, issued: set<nat>, k: nat)
    requires Ok(g, issued) && g.kind == h.kind && g.initial == h.initial && k < |h.slots| <= MAX_SLOT + 1
    requires g.initial <= h.slots[k].generation <= MAX_GENERATION && !h.slots[k].retired
    requires forall i :: 0 <= i < |h.slots| && i != k ==> i < |g.slots| && h.slots[i] == g.slots[i]
    requires FreeOk(h) && h.live == CountLive(h.slots)
    requires IssuedOk(h, issued + {SlotIdentity(h.kind, h.slots[k].generation, k)})
    ensures Ok(h, issued + {SlotIdentity(h.kind, h.slots[k].generation, k)})
  {
    hide FreeOk, IssuedOk, CountLive, SlotIdentity;
  }

  lemma InsertKeepsIssued<R>(g: Registry<R>, h: Registry<R>, issued: set<nat>, k: nat)
    requires IssuedOk(g, issued) && g.kind == h.kind && 0 < g.kind < 256
    requires k < |h.slots| && k <= MAX_SLOT && |g.slots| <= |h.slots| && SlotLive(h.slots[k])
    requires 0 < h.slots[k].generation <= MAX_GENERATION
    requires forall i :: 0 <= i < |h.slots| && i != k ==> i < |g.slots| && h.slots[i] == g.slots[i]
    requires k < |g.slots| ==> g.slots[k].generation == h.slots[k].generation
    ensures IssuedOk(h, issued + {SlotIdentity(h.kind, h.slots[k].generation, k)})
  {
    hide Pack, Unpack;
    IdentityFacts(h.kind, h.slots[k].generation, k);
  }

  lemma InsertLive<R>(g: Registry<R>, h: Registry<R>, issued: set<nat>, k: nat)
    requires Ok(g, issued) && g.kind == h.kind && k < |h.slots| && SlotLive(h.slots[k])
    requires Ok(h, issued + {SlotIdentity(h.kind, h.slots[k].generation, k)})
    requires |g.slots| <= |h.slots| <= |g.slots| + 1 && (|h.slots| == |g.slots| + 1 ==> k == |g.slots|)
    requires forall i :: 0 <= i < |g.slots| && i != k ==> h.slots[i] == g.slots[i]
    requires k < |g.slots| ==> !SlotLive(g.slots[k])
    ensures Live(h) == Live(g)[SlotIdentity(h.kind, h.slots[k].generation, k)
                               := Owned(h.slots[k].owner, h.slots[k].value.value)]
  {
    hide Ok, Live, Identities, Unpack, Pack;
    var id := SlotIdentity(h.kind, h.slots[k].generation, k);
    LiveAfter(g, h, issued, issued + {id}, k);
    LiveSlot(h, issued + {id}, k);
    forall x | x in Live(g) ensures Unpack(x).slot != k {
      var i := LiveInverse(g, issued, x);
    }
    forall x | x in Live(h) && Unpack(x).slot == k ensures x == id {
      var i := LiveInverse(h, issued + {id}, x);
    }
    assert Live(h).Keys == Live(g).Keys + {id};
  }

  // ----- update, release, erase

  lemma UpdateKeepsOk<R>(g: Registry<R>, issued: set<nat>, id: nat, record: R)
    requires Ok(g, issued) && id in Live(g)
    ensures Ok(Update(g, id, record), issued)
    ensures Live(Update(g, id, record)) == Live(g)[id := Owned(Live(g)[id].owner, record)]
  {
    hide FreeOk, IssuedOk, Live, Identities, Pack, Unpack, CountLive, Decode, Find;
    LiveIsFound(g, issued, id);
    var k := LiveInverse(g, issued, id);
    var h := Update(g, id, record);
    CountUpdate(g.slots, k, h.slots[k]);
    UpdateKeepsParts(g, h, issued, k);
    assert Ok(h, issued);
    UpdateLive(g, h, issued, id, k);
  }

  lemma UpdateKeepsParts<R>(g: Registry<R>, h: Registry<R>, issued: set<nat>, k: nat)
    requires FreeOk(g) && IssuedOk(g, issued) && g.kind == h.kind && |g.slots| == |h.slots| && k < |g.slots| && h.free == g.free
    requires SlotLive(g.slots[k]) && SlotLive(h.slots[k]) && h.slots[k].generation == g.slots[k].generation
    requires forall i :: 0 <= i < |g.slots| && i != k ==> h.slots[i] == g.slots[i]
    ensures FreeOk(h) && IssuedOk(h, issued)
  {
    hide Pack, Unpack;
  }

  lemma UpdateLive<R>(g: Registry<R>, h: Registry<R>, issued: set<nat>, id: nat, k: nat)
    requires Ok(g, issued) && Ok(h, issued) && g.kind == h.kind && |g.slots| == |h.slots| && k < |g.slots|
    requires SlotLive(g.slots[k]) && SlotLive(h.slots[k]) && h.slots[k].generation == g.slots[k].generation
    requires h.slots[k].owner == g.slots[k].owner && id == SlotIdentity(g.kind, g.slots[k].generation, k)
    requires forall i :: 0 <= i < |g.slots| && i != k ==> h.slots[i] == g.slots[i]
    ensures id in Live(g)
    ensures Live(h) == Live(g)[id := Owned(Live(g)[id].owner, h.slots[k].value.value)]
  {
    hide Ok, Live, Identities, Unpack, Pack;
    LiveAfter(g, h, issued, issued, k);
    LiveSlot(g, issued, k);
    LiveSlot(h, issued, k);
    forall x | x in Live(g) && Unpack(x).slot == k ensures x == id {
      var i := LiveInverse(g, issued, x);
    }
    forall x | x in Live(h) && Unpack(x).slot == k ensures x == id {
      var i := LiveInverse(h, issued, x);
    }
    assert Live(h).Keys == Live(g).Keys;
  }

  lemma FreeAfterRelease<R>(g: Registry<R>, k: nat)
    requires FreeOk(g) && k < |g.slots| && SlotLive(g.slots[k]) && !g.slots[k].retired
    ensures FreeOk(Release(g, k))
  {
    var h := Release(g, k);
    assert k !in g.free;
    if h.free == g.free + [k] {
      forall i | 0 <= i < |h.slots| ensures i in h.free <==> !SlotLive(h.slots[i]) && !h.slots[i].retired {
        assert i in h.free <==> i in g.free || i == k;
      }
    }
  }

  /** Releasing a slot removes its identity from the map, for ever. */
  lemma ReleaseRemoves<R>(g: Registry<R>, issued: set<nat>, k: nat)
    requires Ok(g, issued) && k < |g.slots| && SlotLive(g.slots[k])
    ensures Ok(Release(g, k), issued)
    ensures Live(Release(g, k)) == Live(g) - {SlotIdentity(g.kind, g.slots[k].generation, k)}
    ensures |Release(g, k).slots| == |g.slots|
    ensures forall i :: 0 <= i < |g.slots| && i != k ==> Release(g, k).slots[i] == g.slots[i]
  {
    hide FreeOk, IssuedOk, Live, Identities, Pack, Unpack, CountLive;
    var h := Release(g, k);
    FreeAfterRelease(g, k);
    CountUpdate(g.slots, k, h.slots[k]);
    ReleaseKeepsIssued(g, h, issued, k);
    assert Ok(h, issued);
    ReleaseLive(g, h, issued, k);
  }

  lemma ReleaseKeepsIssued<R>(g: Registry<R>, h: Registry<R>, issued: set<nat>, k: nat)
    requires IssuedOk(g, issued) && g.kind == h.kind && |h.slots| == |g.slots| && k < |g.slots|
    requires !SlotLive(h.slots[k]) && g.slots[k].generation <= h.slots[k].generation
    requires g.slots[k].generation == h.slots[k].generation ==> h.slots[k].retired
    requires forall i :: 0 <= i < |g.slots| && i != k ==> h.slots[i] == g.slots[i]
    ensures IssuedOk(h, issued)
  {
    hide Pack, Unpack;
  }

  lemma ReleaseLive<R>(g: Registry<R>, h: Registry<R>, issued: set<nat>, k: nat)
    requires Ok(g, issued) && Ok(h, issued) && g.kind == h.kind && |g.slots| == |h.slots| && k < |g.slots|
    requires SlotLive(g.slots[k]) && !SlotLive(h.slots[k])
    requires forall i :: 0 <= i < |g.slots| && i != k ==> h.slots[i] == g.slots[i]
    ensures Live(h) == Live(g) - {SlotIdentity(g.kind, g.slots[k].generation, k)}
  {
    hide Ok, Live, Identities, Unpack, Pack;
    var id := SlotIdentity(g.kind, g.slots[k].generation, k);
    LiveAfter(g, h, issued, issued, k);
    LiveSlot(g, issued, k);
    forall x | x in Live(g) && Unpack(x).slot == k ensures x == id {
      var i := LiveInverse(g, issued, x);
    }
    forall x | x in Live(h) ensures Unpack(x).slot != k {
      var i := LiveInverse(h, issued, x);
    }
    assert Live(h).Keys == Live(g).Keys - {id};
  }

  /** Erasing succeeds exactly for the owner of a live object, and removes just that one. */
  lemma EraseRemoves<R>(g: Registry<R>, issued: set<nat>, owner: nat, id: nat)
    requires Ok(g, issued) && id < TWO_64
    ensures var (g', status) := Erase(g, owner, id);
            var found := id in Live(g) && Live(g)[id].owner == owner;
            && Ok(g', issued) && status == (if found then 0 else EINVAL)
            && Live(g') == if found then Live(g) - {id} else Live(g)
  {
    ResolveIsLookup(g, issued, owner, id);
    if id in Live(g) {
      LiveIsFound(g, issued, id);
      var k := LiveInverse(g, issued, id);
      ReleaseRemoves(g, issued, k);
      LiveSlot(g, issued, k);
    } else if Find(g, id).Some? {
      FoundIsLive(g, issued, id);
    }
    hide Ok, Identities, Decode, Pack, Unpack;
  }

  // ----- session erase

  /** The objects left after the session's first n slots were erased. */
  ghost predicate Erased<R>(g: Registry<R>, h: Registry<R>, owner: nat, n: nat) {
    && (forall id :: id in Live(h) <==> id in Live(g) && !(Live(g)[id].owner == owner && Unpack(id).slot < n))
    && (forall id :: id in Live(h) ==> Live(h)[id] == Live(g)[id])
  }

  lemma {:induction false} EraseOwnerStep<R>(g: Registry<R>, issued: set<nat>, owner: nat, n: nat)
    requires Ok(g, issued) && n <= |g.slots|
    ensures var h := EraseOwner(g, owner, n);
            && Ok(h, issued) && h.kind == g.kind && |h.slots| == |g.slots|
            && (forall i :: n <= i < |g.slots| ==> h.slots[i] == g.slots[i])
            && Erased(g, h, owner, n)
  {
    hide Ok, Live, Identities, Pack, Unpack;
    if n != 0 {
      EraseOwnerStep(g, issued, owner, n - 1);
      var h := EraseOwner(g, owner, n - 1);
      var k := n - 1;
      assert h.slots[k] == g.slots[k];
      if SlotLive(h.slots[k]) {
        LiveSlot(g, issued, k);
        LiveSlot(h, issued, k);
        if h.slots[k].owner == owner { ReleaseRemoves(h, issued, k); }
      }
      forall id | id in Live(g) && Unpack(id).slot == k
        ensures SlotLive(g.slots[k]) && id == SlotIdentity(g.kind, g.slots[k].generation, k)
      {
        var i := LiveInverse(g, issued, id);
      }
    }
  }

  /** erase_session removes exactly the session's objects. */
  lemma EraseSessionRemoves<R>(g: Registry<R>, issued: set<nat>, owner: nat)
    requires Ok(g, issued)
    ensures var h := EraseSession(g, owner);
            && Ok(h, issued)
            && (forall id :: id in Live(h) <==> id in Live(g) && Live(g)[id].owner != owner)
            && (forall id :: id in Live(h) ==> Live(h)[id] == Live(g)[id])
  {
    EraseOwnerStep(g, issued, owner, |g.slots|);
    hide Ok, Live, Identities, Pack, Unpack, EraseOwner;
    forall id | id in Live(g) ensures Unpack(id).slot < |g.slots| {
      var k := LiveInverse(g, issued, id);
    }
  }

  // ----- runs

  datatype Op<R> =
    | OpInsert(owner: nat, record: R)
    | OpUpdate(id: nat, record: R)
    | OpErase(owner: nat, id: nat)
    | OpEraseSession(owner: nat)

  /** A registry and the identities it has issued. */
  datatype State<R> = State(g: Registry<R>, issued: set<nat>)

  ghost predicate Enabled<R>(s: State<R>, op: Op<R>) {
    match op
    case OpInsert(_, _) => forall i :: 0 <= i < |s.g.free| ==> s.g.free[i] < |s.g.slots|
    case OpUpdate(id, _) => id in Live(s.g)
    case OpErase(_, id) => id < TWO_64
    case OpEraseSession(_) => true
  }

  ghost function Step<R>(s: State<R>, op: Op<R>): State<R>
    requires Enabled(s, op)
  {
    match op
    case OpInsert(owner, record) =>
      var (g, id) := Insert(s.g, owner, record);
      State(g, if id.Some? then s.issued + {id.value} else s.issued)
    case OpUpdate(id, record) => s.(g := Update(s.g, id, record))
    case OpErase(owner, id) => s.(g := Erase(s.g, owner, id).0)
    case OpEraseSession(owner) => s.(g := EraseSession(s.g, owner))
  }

  /** The identity a step returned. */
  ghost function Issued<R>(s: State<R>, op: Op<R>): Option<nat>
    requires Enabled(s, op)
  {
    match op
    case OpInsert(owner, record) => Insert(s.g, owner, record).1
    case _ => None
  }

  ghost predicate IsRun<R>(ss: seq<State<R>>, ops: seq<Op<R>>, kind: nat, initial: nat) {
    && |ss| == |ops| + 1 && ss[0] == State(Empty(kind, initial), {}) && 0 < kind < 256 && initial <= MAX_GENERATION
    && (forall t :: 0 <= t < |ops| ==> Enabled(ss[t], ops[t]) && ss[t + 1] == Step(ss[t], ops[t]))
  }

  /** One step: well-formedness, and the only identities that appear are new ones. */
  lemma StepKeepsOk<R>(s: State<R>, op: Op<R>)
    requires Ok(s.g, s.issued) && Enabled(s, op)
    ensures var s' := Step(s, op);
            && Ok(s'.g, s'.issued) && s.issued <= s'.issued
            && (Issued(s, op).Some? ==> Issued(s, op).value !in s.issued && Issued(s, op).value in s'.issued)
            && (forall id :: id in Live(s'.g) && id in s.issued ==> id in Live(s.g))
  {
    hide Ok, Live, Identities, Update, Erase, EraseSession;
    match op
    case OpInsert(owner, record) =>
      InsertIsFresh(s.g, s.issued, owner, record);
      hide Insert;
      var (g, id) := Insert(s.g, owner, record);
      assert Step(s, op) == State(g, if id.Some? then s.issued + {id.value} else s.issued);
    case OpUpdate(id, record) => UpdateKeepsOk(s.g, s.issued, id, record);
    case OpErase(owner, id) => EraseRemoves(s.g, s.issued, owner, id);
    case OpEraseSession(owner) => EraseSessionRemoves(s.g, s.issued, owner);
  }

  lemma {:induction false} RunKeepsOk<R>(ss: seq<State<R>>, ops: seq<Op<R>>, kind: nat, initial: nat, t: nat)
    requires IsRun(ss, ops, kind, initial) && t < |ss|
    ensures Ok(ss[t].g, ss[t].issued)
  {
    if t != 0 {
      RunKeepsOk(ss, ops, kind, initial, t - 1);
      hide Ok, Step, Enabled;
      assert ss[t - 1 + 1] == Step(ss[t - 1], ops[t - 1]);
      StepKeepsOk(ss[t - 1], ops[t - 1]);
    }
  }

  /** Between two moments of a run, issued identities stay issued and dead ones stay dead. */
  lemma {:induction false} IdentitiesAge<R>(ss: seq<State<R>>, ops: seq<Op<R>>, kind: nat, initial: nat, t: nat, u: nat)
    requires IsRun(ss, ops, kind, initial) && t <= u < |ss|
    ensures ss[t].issued <= ss[u].issued
    ensures forall id :: id in ss[t].issued && id in Live(ss[u].g) ==> id in Live(ss[t].g)
    decreases u
  {
    hide Ok, Live, Step, Enabled;
    if t < u {
      IdentitiesAge(ss, ops, kind, initial, t, u - 1);
      RunKeepsOk(ss, ops, kind, initial, u - 1);
      assert ss[u - 1 + 1] == Step(ss[u - 1], ops[u - 1]);
      StepKeepsOk(ss[u - 1], ops[u - 1]);
    }
  }

  /**
    Freshness over every run: no identity is returned twice, an identity that
    was issued and is no longer live never resolves again, and the live count
    counts the live slots.
   */
  lemma IdentitiesAreNeverReused<R>(ss: seq<State<R>>, ops: seq<Op<R>>, kind: nat, initial: nat, t: nat, u: nat, id: nat, owner: nat)
    requires IsRun(ss, ops, kind, initial) && t < u < |ss|
    ensures Enabled(ss[t], ops[t]) && (u < |ops| ==> Enabled(ss[u], ops[u]))
    ensures u < |ops| && Issued(ss[t], ops[t]).Some? ==> Issued(ss[u], ops[u]) != Issued(ss[t], ops[t])
    ensures id < TWO_64 && id in ss[t].issued && id !in Live(ss[t].g) ==>
              Resolve(ss[u].g, owner, id).None? && ResolveAny(ss[u].g, id).None?
    ensures ss[u].g.live == CountLive(ss[u].g.slots) && FreeOk(ss[u].g)
  {
    RunKeepsOk(ss, ops, kind, initial, t);
    RunKeepsOk(ss, ops, kind, initial, u);
    assert ss[u].g.live == CountLive(ss[u].g.slots) && FreeOk(ss[u].g);
    hide Ok, Live, Step, Enabled, FreeOk, CountLive, Resolve, ResolveAny, Issued;
    StepKeepsOk(ss[t], ops[t]);
    IdentitiesAge(ss, ops, kind, initial, t + 1, u);
    IdentitiesAge(ss, ops, kind, initial, t, u);
    if u < |ops| { StepKeepsOk(ss[u], ops[u]); }
    if id < TWO_64 { ResolveIsLookup(ss[u].g, ss[u].issued, owner, id); }
  }
}
