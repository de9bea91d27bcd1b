/**
  The daemon's service object: five generation registries, the queue pair number
  index and the two counters, updated in place by the request handlers
  (src/control/device_context.cpp, src/control/pd_mr_cq.cpp, src/control/qp.cpp).
  Every handler is proved to take the step of Control on the live objects and to
  keep the invariant.
 */
module ControlService {
  import opened Common
  import opened ObjectIdentity
  import opened Registry
  import opened ControlPlane
  import Keep = ControlKeeps
  import Runs = ControlRuns
  import opened ControlInv

  /** Every identity each registry has issued. */
  datatype Issued = Issued(contexts: set<nat>, pds: set<nat>, mrs: set<nat>, cqs: set<nat>, qps: set<nat>)

  class QpService {
    const catalog: seq<nat>
    var contexts: Registry<ContextRecord>
    var pds: Registry<PdRecord>
    var mrs: Registry<MrRecord>
    var cqs: Registry<CqRecord>
    var qps: Registry<QpRecord>
    var qpIndex: map<nat, nat>
    var nextKey: nat
    var nextQpNum: nat
    ghost var heldMappings: int
    ghost var issued: Issued

    constructor (catalog: seq<nat>)
      ensures Valid() && State() == Runs.InitialControl && this.catalog == catalog
    {
      hide Ok, Live, Inv, Empty;
      this.catalog := catalog;
      contexts, pds, mrs := Empty(TYPE_CONTEXT, 1), Empty(TYPE_PD, 1), Empty(TYPE_MR, 1);
      cqs, qps := Empty(TYPE_CQ, 1), Empty(TYPE_QP, 1);
      qpIndex, nextKey, nextQpNum := map[], 1, 1;
      heldMappings, issued := 0, Issued({}, {}, {}, {}, {});
      new;
      EmptyIsOk<ContextRecord>(TYPE_CONTEXT);
      EmptyIsOk<PdRecord>(TYPE_PD);
      EmptyIsOk<MrRecord>(TYPE_MR);
      EmptyIsOk<CqRecord>(TYPE_CQ);
      EmptyIsOk<QpRecord>(TYPE_QP);
      Runs.InitialKeeps();
      assert State() == Runs.InitialControl;
    }

    /** The live objects. */
    ghost function State(): Control
      reads this
    {
      Control(Live(contexts), Live(pds), Live(mrs), Live(cqs), Live(qps), qpIndex, nextKey, nextQpNum, heldMappings)
    }

    ghost predicate Registries()
      reads this
    {
      && Ok(contexts, issued.contexts) && Ok(pds, issued.pds) && Ok(mrs, issued.mrs)
      && Ok(cqs, issued.cqs) && Ok(qps, issued.qps)
    }

    ghost predicate Valid()
      reads this
    {
      Registries() && Inv(State())
    }

    // ----- contexts

    method HandleCreateContext(session: nat, shaped: bool, device: U64) returns (status: int, id: nat, ghost given: Option<nat>)
      requires Valid()
      modifies this`contexts, this`issued
      ensures Valid() && (given.Some? ==> given.value !in old(issued.contexts))
      ensures Reply(State(), status, id) == CreateContext(old(State()), session, shaped, device, device in catalog, given)
    {
      hide Ok, Live, Inv;
      given := None;
      if !shaped { return EINVAL, 0, given; }
      if device !in catalog { return EINVAL, 0, given; }
      var g, identity := InsertInto(contexts, issued.contexts, session, ContextRecord(device, 0));
      given := identity;
      if identity.None? { return ENOSPC, 0, given; }
      CreateContextKeeps(State(), session, shaped, device, true, given);
      contexts, issued := g, issued.(contexts := issued.contexts + {identity.value});
      return 0, identity.value, given;
    }

    method HandleDestroyContext(session: nat, shaped: bool, id: U64) returns (status: int)
      requires Valid()
      modifies this`contexts
      ensures Valid() && Reply(State(), status, 0) == DestroyContext(old(State()), session, shaped, id)
    {
      hide Ok, Live, Inv;
      if !shaped { return EINVAL; }
      var context := ResolveIn(contexts, issued.contexts, session, id);
      if context.None? { return EINVAL; }
      if context.value.childCount != 0 { return EBUSY; }
      DestroyContextKeeps(State(), session, shaped, id);
      contexts, status := EraseFrom(contexts, issued.contexts, session, id);
    }

    // ----- protection domains

    method HandleCreatePd(session: nat, shaped: bool, context: U64) returns (status: int, id: nat, ghost given: Option<nat>)
      requires Valid()
      modifies this`contexts, this`pds, this`issued
      ensures Valid() && (given.Some? ==> given.value !in old(issued.pds))
      ensures Reply(State(), status, id) == CreatePd(old(State()), session, shaped, context, given)
    {
      hide Ok, Live, Inv;
      given := None;
      if !shaped { return EINVAL, 0, given; }
      var parent := ResolveIn(contexts, issued.contexts, session, context);
      if parent.None? { return EINVAL, 0, given; }
      var g, identity := InsertInto(pds, issued.pds, session, PdRecord(context, {}, map[], map[], 0));
      given := identity;
      if identity.None? { return ENOSPC, 0, given; }
      CreatePdKeeps(State(), session, shaped, context, given);
      pds, issued := g, issued.(pds := issued.pds + {identity.value});
      contexts := UpdateIn(contexts, issued.contexts, context, parent.value.(childCount := parent.value.childCount + 1));
      return 0, identity.value, given;
    }

    method HandleDestroyPd(session: nat, shaped: bool, id: U64) returns (status: int)
      requires Valid()
      modifies this`contexts, this`pds
      ensures Valid() && Reply(State(), status, 0) == DestroyPd(old(State()), session, shaped, id)
    {
      hide Ok, Live, Inv;
      if !shaped { return EINVAL; }
      var pd := ResolveIn(pds, issued.pds, session, id);
      if pd.None? { return EINVAL; }
      if pd.value.mrs != {} || pd.value.qpCount != 0 { return EBUSY; }
      var context := ResolveStored(contexts, issued.contexts, session, pd.value.context);
      if context.None? || context.value.childCount == 0 { return EINVAL; }
      DestroyPdKeeps(State(), session, shaped, id);
      pds, status := EraseFrom(pds, issued.pds, session, id);
      contexts := UpdateIn(contexts, issued.contexts, pd.value.context,
                           context.value.(childCount := context.value.childCount - 1));
    }

    // ----- completion queues

    method HandleCreateCq(session: nat, shaped: bool, context: U64, cqe: nat, ringStatus: int)
      returns (status: int, id: nat, ghost given: Option<nat>)
      requires Valid()
      modifies this`contexts, this`cqs, this`issued
      ensures Valid() && (given.Some? ==> given.value !in old(issued.cqs))
      ensures Reply(State(), status, id) == CreateCq(old(State()), session, shaped, context, cqe, ringStatus, given)
    {
      hide Ok, Live, Inv;
      given := None;
      if !shaped || cqe == 0 || cqe > U32_MAX { return EINVAL, 0, given; }
      var parent := ResolveIn(contexts, issued.contexts, session, context);
      if parent.None? { return EINVAL, 0, given; }
      if ringStatus != 0 { return ringStatus, 0, given; }
      var g, identity := InsertInto(cqs, issued.cqs, session, CqRecord(context, cqe, 0));
      given := identity;
      if identity.None? { return ENOSPC, 0, given; }
      CreateCqKeeps(State(), session, shaped, context, cqe, ringStatus, given);
      cqs, issued := g, issued.(cqs := issued.cqs + {identity.value});
      contexts := UpdateIn(contexts, issued.contexts, context, parent.value.(childCount := parent.value.childCount + 1));
      return 0, identity.value, given;
    }

    method HandleDestroyCq(session: nat, shaped: bool, id: U64) returns (status: int)
      requires Valid()
      modifies this`contexts, this`cqs
      ensures Valid() && Reply(State(), status, 0) == DestroyCq(old(State()), session, shaped, id)
    {
      hide Ok, Live, Inv;
      if !shaped { return EINVAL; }
      var cq := ResolveIn(cqs, issued.cqs, session, id);
      if cq.None? { return EINVAL; }
      if cq.value.qpReferences != 0 { return EBUSY; }
      var context := ResolveStored(contexts, issued.contexts, session, cq.value.context);
      if context.None? || context.value.childCount == 0 { return EINVAL; }
      DestroyCqKeeps(State(), session, shaped, id);
      cqs, status := EraseFrom(cqs, issued.cqs, session, id);
      contexts := UpdateIn(contexts, issued.contexts, cq.value.context,
                           context.value.(childCount := context.value.childCount - 1));
    }

    // ----- memory regions

    method HandleRegisterMr(session: nat, shaped: bool, access: nat, pd: U64, memory: Payload<Memory>, mapping: Opened)
      returns (status: int, id: nat, ghost given: Option<nat>)
      requires Valid()
      modifies this`pds, this`mrs, this`nextKey, this`heldMappings, this`issued
      ensures Valid() && (given.Some? ==> given.value !in old(issued.mrs))
      ensures Reply(State(), status, id) == RegisterMr(old(State()), session, shaped, access, pd, memory, mapping, given)
    {
      hide Ok, Live, Inv;
      given := None;
      if !shaped || !ValidAccess(access) { return EINVAL, 0, given; }
      var domain := ResolveIn(pds, issued.pds, session, pd);
      if domain.None? { return EINVAL, 0, given; }
      if memory.Malformed? { return memory.status, 0, given; }
      if !ValidMemory(memory.value) { return EINVAL, 0, given; }
      if mapping.OpenFailed? { return mapping.status, 0, given; }
      if mapping.base == 0 || !mapping.sameGpu || mapping.base > U64_MAX - memory.value.allocationOffset {
        return EPROTO, 0, given;
      }
      if nextKey == 0 || nextKey > U32_MAX - 1 { return ENOSPC, 0, given; }
      var lkey, rkey := nextKey, nextKey + 1;
      var m, d := memory.value, domain.value;
      var record := MrRecord(d.context, pd, m.clientAddress, mapping.base + m.allocationOffset, m.length, access, lkey, rkey, 0);
      var g, identity := InsertInto(mrs, issued.mrs, session, record);
      given := identity;
      Keep.RegisterMrKeeps(State(), session, shaped, access, pd, memory, mapping, given);
      nextKey := nextKey + 2;
      if identity.None? { return ENOSPC, 0, given; }
      mrs, issued := g, issued.(mrs := issued.mrs + {identity.value});
      heldMappings := heldMappings + 1;
      pds := UpdateIn(pds, issued.pds, pd, d.(mrs := d.mrs + {identity.value}, localKeys := d.localKeys[lkey := identity.value],
                                              remoteKeys := d.remoteKeys[rkey := identity.value]));
      return 0, identity.value, given;
    }

    method HandleDeregisterMr(session: nat, shaped: bool, id: U64, closeStatus: int) returns (status: int)
      requires Valid()
      modifies this`pds, this`mrs, this`heldMappings
      ensures Valid() && Reply(State(), status, 0) == DeregisterMr(old(State()), session, shaped, id, closeStatus)
    {
      hide Ok, Live, Inv;
      if !shaped { return EINVAL; }
      var mr := ResolveIn(mrs, issued.mrs, session, id);
      if mr.None? { return EINVAL; }
      if mr.value.workReferences != 0 { return EBUSY; }
      if closeStatus != 0 { return closeStatus; }
      Keep.DeregisterMrKeeps(State(), session, shaped, id, closeStatus);
      heldMappings := heldMappings - 1;
      var pd := ResolveStored(pds, issued.pds, session, mr.value.pd);
      if pd.None? { return EINVAL; }
      var d := pd.value;
      pds := UpdateIn(pds, issued.pds, mr.value.pd,
                      d.(mrs := d.mrs - {id}, localKeys := d.localKeys - {mr.value.lkey},
                         remoteKeys := d.remoteKeys - {mr.value.rkey}));
      mrs, status := EraseFrom(mrs, issued.mrs, session, id);
    }

    /** resolve_key through the domain's index. */
    method ResolveRegion(session: nat, pd: U64, key: nat, address: nat, length: nat, remote: bool) returns (r: Resolved)
      requires Valid()
      ensures r == ResolveKey(State(), session, pd, key, address, length, remote)
    {
      hide Ok, Live, Inv;
      if key == 0 || length == 0 { return Refused(EINVAL); }
      var domain := ResolveIn(pds, issued.pds, session, pd);
      if domain.None? { return Refused(EINVAL); }
      var index := if remote then domain.value.remoteKeys else domain.value.localKeys;
      if key !in index { return Refused(EINVAL); }
      var mr := ResolveStored(mrs, issued.mrs, session, index[key]);
      if mr.None? || mr.value.pd != pd { return Refused(EINVAL); }
      r := Translate(mr.value, address, length, remote);
    }

    // ----- queue pairs

    method HandleCreateQp(session: nat, shaped: bool, pd: U64, attributes: Payload<QpCreate>, ringStatus: int)
      returns (status: int, id: nat, ghost given: Option<nat>)
      requires Valid()
      modifies this`pds, this`cqs, this`qps, this`qpIndex, this`nextQpNum, this`issued
      ensures Valid() && (given.Some? ==> given.value !in old(issued.qps))
      ensures Reply(State(), status, id) == CreateQp(old(State()), session, shaped, pd, attributes, ringStatus, given)
    {
      hide Ok, Live, Inv, ValidCreate, NextQpNum, AddReference, DropReference;
      NumberIsNew();
      given := None;
      if !shaped { return EINVAL, 0, given; }
      if attributes.Malformed? { return attributes.status, 0, given; }
      var a := attributes.value;
      if !ValidCreate(a) { return EINVAL, 0, given; }
      var domain := ResolveIn(pds, issued.pds, session, pd);
      var sendCq := ResolveStored(cqs, issued.cqs, session, a.sendCq);
      var recvCq := ResolveStored(cqs, issued.cqs, session, a.recvCq);
      if domain.None? || sendCq.None? || recvCq.None?
         || domain.value.context != sendCq.value.context || domain.value.context != recvCq.value.context {
        return EINVAL, 0, given;
      }
      if ringStatus != 0 { return ringStatus, 0, given; }
      if nextQpNum == 0 { return ENOSPC, 0, given; }
      var d, n := domain.value, nextQpNum;
      var record := QpRecord(d.context, pd, a.sendCq, a.recvCq, n, RESET, 0, 0, 0, Retry(0, 0, 0, 0));
      var g, identity := InsertInto(qps, issued.qps, session, record);
      given := identity;
      Keep.CreateQpKeeps(State(), session, shaped, pd, attributes, ringStatus, given);
      nextQpNum := NextQpNum(n);
      if identity.None? { return ENOSPC, 0, given; }
      IndexQp(pd, d, a, g, n, identity.value);
      status, id := 0, identity.value;
      assert Reply(State(), status, id) == CreateQp(old(State()), session, shaped, pd, attributes, ringStatus, given);
    }

    /** The new queue pair is stored, indexed by its number, and counted by its parents. */
    method IndexQp(pd: nat, d: PdRecord, a: QpCreate, g: Registry<QpRecord>, n: nat, id: nat)
      requires Registries() && Ok(g, issued.qps + {id})
      requires pd in Live(pds) && a.sendCq in Live(cqs) && a.recvCq in Live(cqs)
      modifies this`pds, this`cqs, this`qps, this`qpIndex, this`issued
      ensures Registries() && qps == g && qpIndex == old(qpIndex)[n := id]
      ensures issued == old(issued).(qps := old(issued.qps) + {id})
      ensures Live(pds) == Put(old(Live(pds)), pd, d.(qpCount := d.qpCount + 1))
      ensures Live(cqs) == AddReference(old(Live(cqs)), a.sendCq, a.recvCq)
    {
      hide Ok, Live, AddReference, DropReference;
      pds := UpdateIn(pds, issued.pds, pd, d.(qpCount := d.qpCount + 1));
      cqs := CountReference(cqs, issued.cqs, a.sendCq, a.recvCq, 1);
      qps, qpIndex := g, qpIndex[n := id];
      issued := issued.(qps := issued.qps + {id});
    }

    lemma NumberIsNew()
      requires Valid()
      ensures nextQpNum !in qpIndex
    {
      hide Ok, Live, ContextCounts, PdCounts, CqCounts, ContextParents, QpParents, MrRelation, KeysDistinct, QpStates;
    }

    method HandleDestroyQp(session: nat, shaped: bool, id: U64) returns (status: int)
      requires Valid()
      modifies this`pds, this`cqs, this`qps, this`qpIndex
      ensures Valid() && Reply(State(), status, 0) == DestroyQp(old(State()), session, shaped, id)
    {
      hide Ok, Live, Inv;
      if !shaped { return EINVAL; }
      var found := ResolveIn(qps, issued.qps, session, id);
      if found.None? { return EINVAL; }
      var qp := found.value;
      var domain := ResolveStored(pds, issued.pds, session, qp.pd);
      var sendCq := ResolveStored(cqs, issued.cqs, session, qp.sendCq);
      var recvCq := ResolveStored(cqs, issued.cqs, session, qp.recvCq);
      if domain.None? || sendCq.None? || recvCq.None? || domain.value.qpCount == 0
         || sendCq.value.qpReferences == 0 || recvCq.value.qpReferences == 0 {
        return EINVAL;
      }
      Keep.DestroyQpKeeps(State(), session, shaped, id);
      pds := UpdateIn(pds, issued.pds, qp.pd, domain.value.(qpCount := domain.value.qpCount - 1));
      cqs := CountReference(cqs, issued.cqs, qp.sendCq, qp.recvCq, -1);
      qps, status := EraseFrom(qps, issued.qps, session, id);
      qpIndex := qpIndex - {qp.qpNum};
    }

    method HandleModifyQp(session: nat, shaped: bool, id: U64, payload: Payload<QpModify>) returns (status: int)
      requires Valid()
      modifies this`qps
      ensures Valid() && Reply(State(), status, 0) == ModifyQp(old(State()), session, shaped, id, payload)
    {
      hide Ok, Live, Inv, QpStates, QpIndexed, QpStateOk, Keep.Move;
      QpFacts();
      Keep.ModifyQpMoves(State(), session, shaped, id, payload);
      if !shaped { return EINVAL; }
      if payload.Malformed? { return payload.status; }
      var found := ResolveIn(qps, issued.qps, session, id);
      if found.None? { return EINVAL; }
      var changed := ModifiedQp(found.value, payload.value);
      if changed.Malformed? { return changed.status; }
      Keep.MovedKeeps(State(), ModifyQp(State(), session, shaped, id, payload).s, session, id);
      qps := UpdateIn(qps, issued.qps, id, changed.value);
      return 0;
    }

    method HandleConnectQp(session: nat, shaped: bool, id: U64, payload: Payload<QpConnect>) returns (status: int)
      requires Valid()
      modifies this`qps
      ensures Valid() && Reply(State(), status, 0) == ConnectQp(old(State()), session, shaped, id, payload)
    {
      hide Ok, Live, Inv, QpStates, QpIndexed, QpStateOk, Keep.Move;
      QpFacts();
      Keep.ConnectQpMoves(State(), session, shaped, id, payload);
      if !shaped { return EINVAL; }
      if payload.Malformed? { return payload.status; }
      var a := payload.value;
      var found := ResolveIn(qps, issued.qps, session, id);
      if found.None? || a.remoteQpNum == 0 || !a.exactMask || !ValidRetry(a.retry) { return EINVAL; }
      var local := found.value;
      if local.peerQpNum != 0 && local.peerQpNum != a.remoteQpNum { return EBUSY; }
      if local.state != INIT { return EINVAL; }
      if a.remoteQpNum !in qpIndex { return ENOENT; }
      var remote := ResolveAnyStored(qps, issued.qps, qpIndex[a.remoteQpNum]);
      if remote.None? { return ENOENT; }
      if remote.value.state != INIT && remote.value.state != RTR && remote.value.state != RTS { return EINVAL; }
      Keep.MovedKeeps(State(), ConnectQp(State(), session, shaped, id, payload).s, session, id);
      qps := UpdateIn(qps, issued.qps, id, local.(peerQpNum := a.remoteQpNum, peer := qpIndex[a.remoteQpNum],
                                                  retry := a.retry, state := RTS));
      return 0;
    }

    lemma QpFacts()
      requires Valid()
      ensures QpStates(Live(qps)) && QpIndexed(Live(qps), qpIndex, nextQpNum)
    {
      hide Ok, Live, ContextCounts, PdCounts, CqCounts, ContextParents, QpParents, MrRelation, KeysDistinct, QpStates, QpIndexed;
    }

    // ----- disconnect

    /** The numbers of the session's queue pairs leave the index, slot by slot. */
    method UnindexSession(session: nat)
      requires Valid()
      modifies this`qpIndex
      ensures qpIndex == old(qpIndex) - (set id | id in Live(qps) && Live(qps)[id].owner == session :: Live(qps)[id].record.qpNum)
    {
      hide Ok, Live, Inv, NumbersBelow;
      ghost var start := qpIndex;
      NumbersNone(qps, session);
      for index := 0 to |qps.slots|
        modifies this`qpIndex
        invariant qpIndex == start - NumbersBelow(qps, session, index)
      {
        var slot := qps.slots[index];
        NumbersNext(qps, session, index);
        if !slot.retired && slot.value.Some? && slot.owner == session {
          qpIndex := qpIndex - {slot.value.value.qpNum};
        }
      }
      NumbersAll(qps, issued.qps, session);
    }

    method OnDisconnect(session: nat)
      requires Valid()
      modifies this
      ensures Valid() && State() == Disconnect(old(State()), session)
    {
      hide Ok, Live, Inv, Without, OwnedBy;
      Runs.DisconnectKeeps(State(), session);
      UnindexSession(session);
      qps := EraseSessionFrom(qps, issued.qps, session);
      heldMappings := heldMappings - |OwnedBy(Live(mrs), session)|;
      mrs := EraseSessionFrom(mrs, issued.mrs, session);
      cqs := EraseSessionFrom(cqs, issued.cqs, session);
      pds := EraseSessionFrom(pds, issued.pds, session);
      contexts := EraseSessionFrom(contexts, issued.contexts, session);
    }
  }

  // ----- registry calls, in terms of the live objects

  method InsertInto<R>(g: Registry<R>, ghost issued: set<nat>, owner: nat, record: R) returns (h: Registry<R>, id: Option<nat>)
    requires Ok(g, issued)
    ensures id.None? ==> h == g
    ensures id.Some? ==> id.value !in issued && id.value !in Live(g) && Ok(h, issued + {id.value})
                         && Live(h) == Live(g)[id.value := Owned(owner, record)]
  {
    InsertIsFresh(g, issued, owner, record);
    FreeInside(g, issued);
    hide Ok, Live, Insert;
    var (h', id') := Insert(g, owner, record);
    if id'.Some? { NotIssuedNotLive(g, issued, id'.value); }
    return h', id';
  }

  method ResolveIn<R>(g: Registry<R>, ghost issued: set<nat>, owner: nat, id: U64) returns (r: Option<R>)
    requires Ok(g, issued)
    ensures r == Lookup(Live(g), owner, id)
  {
    ResolveIsLookup(g, issued, owner, id);
    r := Resolve(g, owner, id);
  }

  /** Resolving an identity stored in a record; one that is no 64-bit value names nothing. */
  method ResolveStored<R>(g: Registry<R>, ghost issued: set<nat>, owner: nat, id: nat) returns (r: Option<R>)
    requires Ok(g, issued)
    ensures r == Lookup(Live(g), owner, id)
  {
    if id in Live(g) { LiveIsFound(g, issued, id); }
    if id >= TWO_64 { return None; }
    ResolveIsLookup(g, issued, owner, id);
    r := Resolve(g, owner, id);
  }

  method UpdateIn<R>(g: Registry<R>, ghost issued: set<nat>, id: nat, record: R) returns (h: Registry<R>)
    requires Ok(g, issued) && id in Live(g)
    ensures Ok(h, issued) && Live(h) == Put(Live(g), id, record)
  {
    UpdateKeepsOk(g, issued, id, record);
    h := Update(g, id, record);
  }

  method EraseFrom<R>(g: Registry<R>, ghost issued: set<nat>, owner: nat, id: U64) returns (h: Registry<R>, status: int)
    requires Ok(g, issued)
    ensures var found := Lookup(Live(g), owner, id).Some?;
            && Ok(h, issued) && status == (if found then 0 else EINVAL) && Live(h) == if found then Live(g) - {id} else Live(g)
  {
    EraseRemoves(g, issued, owner, id);
    hide Ok, Live, Erase;
    var (h', s) := Erase(g, owner, id);
    return h', s;
  }

  method ResolveAnyStored<R>(g: Registry<R>, ghost issued: set<nat>, id: nat) returns (r: Option<R>)
    requires Ok(g, issued)
    ensures r == if id in Live(g) then Some(Live(g)[id].record) else None
  {
    if id in Live(g) { LiveIsFound(g, issued, id); }
    if id >= TWO_64 { return None; }
    ResolveIsLookup(g, issued, 0, id);
    r := ResolveAny(g, id);
  }

  method EraseSessionFrom<R>(g: Registry<R>, ghost issued: set<nat>, session: nat) returns (h: Registry<R>)
    requires Ok(g, issued)
    ensures Ok(h, issued) && Live(h) == Without(Live(g), session)
  {
    EraseSessionRemoves(g, issued, session);
    hide Ok, Live, EraseSession;
    h := EraseSession(g, session);
    assert Live(h) == Without(Live(g), session);
  }

  /** Count a queue pair in or out of its completion queues, once each. */
  method CountReference(g: Registry<CqRecord>, ghost issued: set<nat>, a: nat, b: nat, delta: int) returns (h: Registry<CqRecord>)
    requires Ok(g, issued) && a in Live(g) && b in Live(g) && (delta == 1 || delta == -1)
    requires delta == -1 ==> Live(g)[a].record.qpReferences != 0 && Live(g)[b].record.qpReferences != 0
    ensures Ok(h, issued)
    ensures Live(h) == if delta == 1 then AddReference(Live(g), a, b) else DropReference(Live(g), a, b)
  {
    hide Ok, Live;
    var r := ResolveAnyStored(g, issued, a);
    h := UpdateIn(g, issued, a, r.value.(qpReferences := r.value.qpReferences + delta));
    if b != a {
      r := ResolveAnyStored(h, issued, b);
      h := UpdateIn(h, issued, b, r.value.(qpReferences := r.value.qpReferences + delta));
    }
  }

  ghost function NumbersBelow(g: Registry<QpRecord>, session: nat, k: nat): set<nat>
    requires k <= |g.slots|
  {
    set i | 0 <= i < k && SlotLive(g.slots[i]) && !g.slots[i].retired && g.slots[i].owner == session :: g.slots[i].value.value.qpNum
  }

  lemma NumbersNone(g: Registry<QpRecord>, session: nat)
    ensures NumbersBelow(g, session, 0) == {}
  {
  }

  lemma NumbersNext(g: Registry<QpRecord>, session: nat, k: nat)
    requires k < |g.slots|
    ensures NumbersBelow(g, session, k + 1)
            == NumbersBelow(g, session, k)
               + (if SlotLive(g.slots[k]) && !g.slots[k].retired && g.slots[k].owner == session
                  then {g.slots[k].value.value.qpNum} else {})
  {
  }

  lemma NumbersAll(g: Registry<QpRecord>, issued: set<nat>, session: nat)
    requires Ok(g, issued)
    ensures NumbersBelow(g, session, |g.slots|)
            == set id | id in Live(g) && Live(g)[id].owner == session :: Live(g)[id].record.qpNum
  {
    var numbers := set id | id in Live(g) && Live(g)[id].owner == session :: Live(g)[id].record.qpNum;
    assert forall k :: 0 <= k < |g.slots| && g.slots[k].retired ==> g.slots[k].value.None?;
    hide Ok, Live, Identities, Pack, Unpack;
    forall n | n in NumbersBelow(g, session, |g.slots|) ensures n in numbers {
      var i :| 0 <= i < |g.slots| && SlotLive(g.slots[i]) && g.slots[i].owner == session && g.slots[i].value.value.qpNum == n;
      LiveSlot(g, issued, i);
    }
    forall n | n in numbers ensures n in NumbersBelow(g, session, |g.slots|) {
      var id :| id in Live(g) && Live(g)[id].owner == session && Live(g)[id].record.qpNum == n;
      var k := LiveInverse(g, issued, id);
      LiveSlot(g, issued, k);
    }
  }

  lemma EmptyIsOk<R>(kind: nat)
    requires 0 < kind < 256
    ensures Ok(Empty<R>(kind, 1), {}) && Live(Empty<R>(kind, 1)) == map[]
  {
    assert Identities(Empty<R>(kind, 1)) == {};
  }

  lemma NotIssuedNotLive<R>(g: Registry<R>, issued: set<nat>, id: nat)
    requires Ok(g, issued) && id !in issued
    ensures id !in Live(g)
  {
    if id in Live(g) { var k := LiveInverse(g, issued, id); }
  }
}
