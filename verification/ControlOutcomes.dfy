/**
  When each control request succeeds, what it is refused with, and what it
  leaves behind, in terms of the live objects and with the statuses written out
  (2 ENOENT, 13 EACCES, 16 EBUSY, 22 EINVAL, 28 ENOSPC, 71 EPROTO, 95 EOPNOTSUPP).
 */
module ControlOutcomes {
  import opened Common
  import Registry
  import opened ControlPlane
  import opened ControlInv
  import opened ControlKeeps
  import opened ControlRuns
  import opened ControlTheorems

  /** The session owns live object id. */
  predicate Owns<R>(m: map<nat, Registry.Owned<R>>, session: nat, id: nat) { id in m && m[id].owner == session }

  // ----- contexts and domains

  /** A live domain or completion queue names the context. */
  ghost predicate ContextInUse(s: Control, id: nat) {
    (exists p :: p in s.pds && s.pds[p].record.context == id) || (exists q :: q in s.cqs && s.cqs[q].record.context == id)
  }

  lemma ContextUse(s: Control, id: nat)
    requires ContextCounts(s.contexts, s.pds, s.cqs) && id in s.contexts
    ensures s.contexts[id].record.childCount != 0 <==> ContextInUse(s, id)
  {
    if s.contexts[id].record.childCount != 0 {
      var p, q := PdsOf(s.pds, id), CqsOf(s.cqs, id);
      if p != {} { var x :| x in p; } else { assert q != {}; var x :| x in q; }
    }
    if p :| p in s.pds && s.pds[p].record.context == id { PdsOfNone(s.pds, p, id); }
    if q :| q in s.cqs && s.cqs[q].record.context == id { CqsOfNone(s.cqs, q, id); }
  }

  /** A context opened for a known device is new, empty and the session's; no other object changes. */
  lemma CreateContextOutcome(s: Control, session: nat, shaped: bool, device: nat, known: bool, given: Option<nat>)
    requires given.Some? ==> given.value !in s.contexts
    ensures var a := CreateContext(s, session, shaped, device, known, given);
            && a.status == (if !(shaped && known) then 22 else if given.None? then 28 else 0)
            && (a.status != 0 ==> a.s == s)
            && (a.status == 0 ==>
                  && Owns(a.s.contexts, session, a.id) && a.s.contexts[a.id].record == ContextRecord(device, 0)
                  && a.s == s.(contexts := a.s.contexts) && a.s.contexts - {a.id} == s.contexts)
  {
  }

  /** A context is destroyed exactly when the session owns it and nothing live names it. */
  lemma DestroyContextOutcome(s: Control, session: nat, shaped: bool, id: nat)
    requires Inv(s)
    ensures var a := DestroyContext(s, session, shaped, id);
            && a.status == (if !(shaped && Owns(s.contexts, session, id)) then 22 else if ContextInUse(s, id) then 16 else 0)
            && a.s == (if a.status == 0 then s.(contexts := s.contexts - {id}) else s)
  {
    hide ContextCounts, PdCounts, CqCounts, ContextParents, QpParents, MrRelation, KeysDistinct, QpIndexed, QpStates, ContextInUse;
    if id in s.contexts { ContextUse(s, id); }
  }

  lemma CreatePdOutcome(s: Control, session: nat, shaped: bool, context: nat, given: Option<nat>)
    requires given.Some? ==> given.value !in s.pds
    ensures var a := CreatePd(s, session, shaped, context, given);
            && a.status == (if !(shaped && Owns(s.contexts, session, context)) then 22 else if given.None? then 28 else 0)
            && (a.status != 0 ==> a.s == s)
            && (a.status == 0 ==>
                  && Owns(a.s.pds, session, a.id) && a.s.pds[a.id].record == PdRecord(context, {}, map[], map[], 0)
                  && a.s == s.(pds := a.s.pds, contexts := a.s.contexts) && a.s.pds - {a.id} == s.pds)
  {
  }

  /** A live region or queue pair names the domain. */
  ghost predicate PdInUse(s: Control, id: nat) {
    (exists m :: m in s.mrs && s.mrs[m].record.pd == id) || (exists q :: q in s.qps && s.qps[q].record.pd == id)
  }

  lemma PdUse(s: Control, id: nat)
    requires PdCounts(s.pds, s.qps) && MrRelation(s.pds, s.mrs) && id in s.pds
    ensures s.pds[id].record.mrs != {} || s.pds[id].record.qpCount != 0 <==> PdInUse(s, id)
  {
    hide MrRelation, PdCounts;
    PdRegions(s, id);
    PdQueuePairs(s, id);
  }

  lemma PdRegions(s: Control, id: nat)
    requires MrRelation(s.pds, s.mrs) && id in s.pds
    ensures s.pds[id].record.mrs != {} <==> exists m :: m in s.mrs && s.mrs[m].record.pd == id
  {
    assert IndexSound(s.mrs, id, s.pds[id]);
    if s.pds[id].record.mrs != {} { var m :| m in s.pds[id].record.mrs; }
    if m :| m in s.mrs && s.mrs[m].record.pd == id { assert MrIndexed(s.pds, m, s.mrs[m]); }
  }

  lemma PdQueuePairs(s: Control, id: nat)
    requires PdCounts(s.pds, s.qps) && id in s.pds
    ensures s.pds[id].record.qpCount != 0 <==> exists q :: q in s.qps && s.qps[q].record.pd == id
  {
    if s.pds[id].record.qpCount != 0 { assert QpsOfPd(s.qps, id) != {}; var q :| q in QpsOfPd(s.qps, id); }
    if q :| q in s.qps && s.qps[q].record.pd == id { QpsOfPdNone(s.qps, q, id); }
  }

  /** A domain is destroyed exactly when the session owns it and no live region or queue pair names it. */
  lemma DestroyPdOutcome(s: Control, session: nat, shaped: bool, id: nat)
    requires Inv(s)
    ensures var a := DestroyPd(s, session, shaped, id);
            && a.status == (if !(shaped && Owns(s.pds, session, id)) then 22 else if PdInUse(s, id) then 16 else 0)
            && (a.status != 0 ==> a.s == s)
            && (a.status == 0 ==> a.s == s.(pds := s.pds - {id}, contexts := a.s.contexts))
  {
    hide ContextCounts, PdCounts, CqCounts, ContextParents, QpParents, MrRelation, KeysDistinct, QpIndexed, QpStates, PdInUse;
    if id in s.pds {
      PdUse(s, id);
      ContextOf(s, s.pds[id].owner, s.pds[id].record.context, id);
    }
  }

  // ----- completion queues

  lemma CreateCqOutcome(s: Control, session: nat, shaped: bool, context: nat, cqe: nat, ringStatus: int, given: Option<nat>)
    requires given.Some? ==> given.value !in s.cqs
    ensures var a := CreateCq(s, session, shaped, context, cqe, ringStatus, given);
            && a.status == (if !(shaped && 0 < cqe < 0x1_0000_0000 && Owns(s.contexts, session, context)) then 22
                            else if ringStatus != 0 then ringStatus else if given.None? then 28 else 0)
            && (a.status != 0 ==> a.s == s)
            && (a.status == 0 ==>
                  && Owns(a.s.cqs, session, a.id) && a.s.cqs[a.id].record == CqRecord(context, cqe, 0)
                  && a.s == s.(cqs := a.s.cqs, contexts := a.s.contexts) && a.s.cqs - {a.id} == s.cqs)
  {
  }

  /** A live queue pair sends to or receives from the completion queue. */
  ghost predicate CqInUse(s: Control, id: nat) {
    exists q :: q in s.qps && (s.qps[q].record.sendCq == id || s.qps[q].record.recvCq == id)
  }

  lemma CqUse(s: Control, id: nat)
    requires CqCounts(s.cqs, s.qps) && id in s.cqs
    ensures s.cqs[id].record.qpReferences != 0 <==> CqInUse(s, id)
  {
    if s.cqs[id].record.qpReferences != 0 { assert QpsOfCq(s.qps, id) != {}; var q :| q in QpsOfCq(s.qps, id); }
    if q :| q in s.qps && Uses(s.qps[q].record, id) { QpsOfCqNone(s.qps, q, id); }
  }

  /** A completion queue is destroyed exactly when the session owns it and no live queue pair uses it. */
  lemma DestroyCqOutcome(s: Control, session: nat, shaped: bool, id: nat)
    requires Inv(s)
    ensures var a := DestroyCq(s, session, shaped, id);
            && a.status == (if !(shaped && Owns(s.cqs, session, id)) then 22 else if CqInUse(s, id) then 16 else 0)
            && (a.status != 0 ==> a.s == s)
            && (a.status == 0 ==> a.s == s.(cqs := s.cqs - {id}, contexts := a.s.contexts))
  {
    hide ContextCounts, PdCounts, CqCounts, ContextParents, QpParents, MrRelation, KeysDistinct, QpIndexed, QpStates, CqInUse;
    if id in s.cqs {
      CqUse(s, id);
      ContextOf(s, s.cqs[id].owner, s.cqs[id].record.context, id);
    }
  }

  // ----- memory regions

  /** Memory a client may register: a nonempty range inside its allocation. */
  predicate Registrable(m: Memory) {
    && 0 < m.clientAddress < 0x1_0000_0000_0000_0000 && 0 < m.length && 0 < m.allocationSize < 0x1_0000_0000_0000_0000
    && m.allocationOffset + m.length <= m.allocationSize && m.allocationOffset <= m.clientAddress
  }

  /** The exact status of a registration, the first reason that applies. */
  function RegisterStatus(s: Control, session: nat, shaped: bool, access: nat, pd: nat, memory: Payload<Memory>, mapping: Opened,
                          given: Option<nat>): int
  {
    if !(shaped && (access == 0 || access == 1 || access == 3) && Owns(s.pds, session, pd)) then 22
    else if memory.Malformed? then memory.status
    else if !Registrable(memory.value) then 22
    else if mapping.OpenFailed? then mapping.status
    else if mapping.base == 0 || !mapping.sameGpu || mapping.base + memory.value.allocationOffset >= 0x1_0000_0000_0000_0000 then 71
    else if s.nextKey >= 0xFFFF_FFFF || given.None? then 28
    else 0
  }

  /** Keys were allocated and then no slot was left for the region. */
  predicate UsedUpKeys(s: Control, session: nat, shaped: bool, access: nat, pd: nat, memory: Payload<Memory>, mapping: Opened,
                       given: Option<nat>)
  {
    given.None? && s.nextKey < 0xFFFF_FFFF && RegisterStatus(s, session, shaped, access, pd, memory, mapping, Some(0)) == 0
  }

  /** The record of a registered region: where the client sees it, where the daemon mapped it, and under which keys. */
  predicate RegisteredAs(mr: MrRecord, context: nat, pd: nat, m: Memory, base: nat, access: nat, lkey: nat) {
    && mr.context == context && mr.pd == pd && mr.clientAddress == m.clientAddress && mr.length == m.length
    && mr.daemonAddress == base + m.allocationOffset && mr.access == access && mr.lkey == lkey && mr.rkey == lkey + 1
  }

  /** A registration succeeds exactly when nothing refuses it, and records the region where it was mapped. */
  lemma RegisterMrOutcome(s: Control, session: nat, shaped: bool, access: nat, pd: nat, memory: Payload<Memory>, mapping: Opened,
                          given: Option<nat>)
    requires KeysDistinct(s.mrs, s.nextKey) && (given.Some? ==> given.value !in s.mrs)
    ensures var a := RegisterMr(s, session, shaped, access, pd, memory, mapping, given);
            && a.status == RegisterStatus(s, session, shaped, access, pd, memory, mapping, given)
            && (a.status != 0 ==> a.s == s.(nextKey := s.nextKey + if UsedUpKeys(s, session, shaped, access, pd, memory, mapping, given) then 2 else 0))
            && (a.status == 0 ==>
                  && given == Some(a.id) && Owns(a.s.mrs, session, a.id) && a.s.mrs - {a.id} == s.mrs
                  && RegisteredAs(a.s.mrs[a.id].record, s.pds[pd].record.context, pd, memory.value, mapping.base, access, s.nextKey)
                  && a.s == s.(mrs := a.s.mrs, pds := a.s.pds, nextKey := s.nextKey + 2, heldMappings := s.heldMappings + 1))
  {
    assert 0 < s.nextKey;
    hide KeysDistinct;
  }

  /** A region is deregistered exactly when the session owns it and closing its mapping works. */
  lemma DeregisterMrOutcome(s: Control, session: nat, shaped: bool, id: nat, closeStatus: int)
    requires Inv(s)
    ensures var a := DeregisterMr(s, session, shaped, id, closeStatus);
            && a.status == (if !(shaped && Owns(s.mrs, session, id)) then 22 else closeStatus)
            && (a.status != 0 ==> a.s == s)
            && (a.status == 0 ==>
                  a.s == s.(mrs := s.mrs - {id}, pds := a.s.pds, heldMappings := s.heldMappings - 1))
  {
    hide ContextCounts, PdCounts, CqCounts, ContextParents, QpParents, MrRelation, KeysDistinct, QpIndexed, QpStates;
    if id in s.mrs { MrHasPd(s.pds, s.mrs, s.nextKey, id); }
  }

  // ----- queue pairs

  /** A domain and two completion queues of the session, all in one context. */
  ghost predicate ParentsFit(s: Control, session: nat, pd: nat, sendCq: nat, recvCq: nat) {
    && Owns(s.pds, session, pd) && Owns(s.cqs, session, sendCq) && Owns(s.cqs, session, recvCq)
    && s.cqs[sendCq].record.context == s.pds[pd].record.context == s.cqs[recvCq].record.context
  }

  /** The exact status of a creation, the first reason that applies. */
  ghost function CreateStatus(s: Control, session: nat, shaped: bool, pd: nat, attributes: Payload<QpCreate>, ringStatus: int,
                              given: Option<nat>): int
  {
    if !shaped then 22
    else if attributes.Malformed? then attributes.status
    else
      var q := attributes.value;
      if !(q.sendCq != 0 && q.recvCq != 0 && 0 < q.maxSendWr && 0 < q.maxRecvWr && 0 < q.maxSendSge && 0 < q.maxRecvSge
           && q.reliable && q.sqSigAll <= 1 && ParentsFit(s, session, pd, q.sendCq, q.recvCq)) then 22
      else if ringStatus != 0 then ringStatus
      else if s.nextQpNum == 0 || given.None? then 28
      else 0
  }

  /** The number after n, or 0 when 32 bits are used up. */
  function Following(n: nat): nat { if n == 0xFFFF_FFFF then 0 else n + 1 }

  /** A queue pair is created in RESET, with the parents asked for and the next number; a number is used up even if no slot is left. */
  lemma CreateQpOutcome(s: Control, session: nat, shaped: bool, pd: nat, attributes: Payload<QpCreate>, ringStatus: int,
                        given: Option<nat>)
    requires QpIndexed(s.qps, s.qpIndex, s.nextQpNum) && (given.Some? ==> given.value !in s.qps)
    ensures var a := CreateQp(s, session, shaped, pd, attributes, ringStatus, given);
            && a.status == CreateStatus(s, session, shaped, pd, attributes, ringStatus, given)
            && (a.status != 0 ==>
                  var used := given.None? && s.nextQpNum != 0 && CreateStatus(s, session, shaped, pd, attributes, ringStatus, Some(0)) == 0;
                  a.s == s.(nextQpNum := if used then Following(s.nextQpNum) else s.nextQpNum))
            && (a.status == 0 ==>
                  && given == Some(a.id) && Owns(a.s.qps, session, a.id) && a.s.qps - {a.id} == s.qps
                  && (var qp := a.s.qps[a.id].record;
                      && qp.pd == pd && qp.sendCq == attributes.value.sendCq && qp.recvCq == attributes.value.recvCq
                      && qp.context == s.pds[pd].record.context && qp.qpNum == s.nextQpNum && qp.state == 0 && qp.peerQpNum == 0)
                  && a.s == s.(qps := a.s.qps, qpIndex := s.qpIndex[s.nextQpNum := a.id], pds := a.s.pds, cqs := a.s.cqs,
                               nextQpNum := Following(s.nextQpNum)))
  {
    assert s.nextQpNum < 0x1_0000_0000;
    hide AddReference, QpIndexed;
    if 0 < s.nextQpNum { NumbersAdvance(s.qps, s.qpIndex, s.nextQpNum); }
  }

  /** The move a modify request asks for is one the service makes: RESET to INIT with remote write, or any live state to ERR. */
  predicate MayModify(qp: QpRecord, m: QpModify) {
    && m.mask.state && !m.mask.other && (m.mask.current ==> m.current == qp.state)
    && ((qp.state == 0 && m.state == 1 && m.mask.access && m.access == 2)
        || (qp.state <= 3 && m.state == 6 && !m.mask.access))
  }

  /** modify_qp succeeds exactly for these moves; states 4 and 5 (SQD, SQE) are not supported. */
  lemma ModifyQpOutcome(s: Control, session: nat, shaped: bool, id: nat, payload: Payload<QpModify>)
    ensures var a := ModifyQp(s, session, shaped, id, payload);
            && a.status == (if !shaped then 22
                            else if payload.Malformed? then payload.status
                            else if !Owns(s.qps, session, id) then 22
                            else if MayModify(s.qps[id].record, payload.value) then 0
                            else if payload.value.mask.state && !payload.value.mask.other
                                    && (payload.value.state == 4 || payload.value.state == 5) then 95
                            else 22)
            && (a.status != 0 ==> a.s == s)
            && (a.status == 0 ==>
                  && a.s == s.(qps := a.s.qps) && a.s.qps - {id} == s.qps - {id} && Owns(a.s.qps, session, id)
                  && (var m := payload.value;
                      a.s.qps[id].record
                      == s.qps[id].record.(state := m.state, access := if m.state == 1 then 2 else s.qps[id].record.access)))
  {
    if id in s.qps && payload.Decoded? { ModifiedIs(s.qps[id].record, payload.value); }
    hide ModifiedQp, MayModify;
    if Owns(s.qps, session, id) { assert Lookup(s.qps, session, id) == Some(s.qps[id].record); }
  }

  lemma ModifiedIs(qp: QpRecord, m: QpModify)
    ensures MayModify(qp, m) ==> ModifiedQp(qp, m) == Decoded(qp.(state := m.state, access := if m.state == 1 then 2 else qp.access))
    ensures !MayModify(qp, m) ==>
              ModifiedQp(qp, m) == Malformed(if m.mask.state && !m.mask.other && (m.state == 4 || m.state == 5) then 95 else 22)
  {
  }

  /** connect_qp succeeds exactly from INIT, with retry attributes in range, to a live queue pair in INIT or RTS. */
  lemma ConnectQpOutcome(s: Control, session: nat, shaped: bool, id: nat, payload: Payload<QpConnect>)
    requires QpStates(s.qps) && QpIndexed(s.qps, s.qpIndex, s.nextQpNum)
    ensures var a := ConnectQp(s, session, shaped, id, payload);
            && a.status == (if !shaped then 22
                            else if payload.Malformed? then payload.status
                            else ConnectStatus(s, session, id, payload.value))
            && (a.status != 0 ==> a.s == s)
            && (a.status == 0 ==>
                  && a.s == s.(qps := a.s.qps) && a.s.qps - {id} == s.qps - {id} && Owns(a.s.qps, session, id)
                  && a.s.qps[id].record.peer in s.qps
                  && s.qps[a.s.qps[id].record.peer].record.qpNum == payload.value.remoteQpNum
                  && a.s.qps[id].record == s.qps[id].record.(state := 3, peerQpNum := payload.value.remoteQpNum,
                                                             peer := a.s.qps[id].record.peer, retry := payload.value.retry))
  {
    if id in s.qps { StateOfQp(s.qps, id); }
    if payload.Decoded? { NumberIsIndexed(s, payload.value.remoteQpNum); }
    hide QpStates, QpIndexed, QpStateOk;
  }

  lemma StateOfQp(qps: map<nat, Registry.Owned<QpRecord>>, id: nat)
    requires QpStates(qps) && id in qps
    ensures QpStateOk(qps[id].record)
  {
  }

  /** The live queue pair with this number, through the index. */
  lemma NumberIsIndexed(s: Control, n: nat)
    requires QpStates(s.qps) && QpIndexed(s.qps, s.qpIndex, s.nextQpNum)
    ensures n in s.qpIndex <==> exists q :: q in s.qps && s.qps[q].record.qpNum == n
    ensures forall q :: q in s.qps && s.qps[q].record.qpNum == n ==> n in s.qpIndex && s.qpIndex[n] == q
    ensures n in s.qpIndex ==> s.qpIndex[n] in s.qps && s.qps[s.qpIndex[n]].record.qpNum == n && s.qps[s.qpIndex[n]].record.state != 2
  {
    if n in s.qpIndex { assert QpStateOk(s.qps[s.qpIndex[n]].record); }
  }

  /** The first reason that applies. */
  ghost function ConnectStatus(s: Control, session: nat, id: nat, a: QpConnect): int {
    if !(Owns(s.qps, session, id) && a.remoteQpNum != 0 && a.exactMask && a.retry.retryCount <= 7 && a.retry.rnrRetry <= 7
         && a.retry.timeout <= 31 && a.retry.minRnrTimer <= 31) then 22
    else if s.qps[id].record.peerQpNum != 0 && s.qps[id].record.peerQpNum != a.remoteQpNum then 16
    else if s.qps[id].record.state != 1 then 22
    else if forall q :: q in s.qps ==> s.qps[q].record.qpNum != a.remoteQpNum then 2
    else if exists q :: q in s.qps && s.qps[q].record.qpNum == a.remoteQpNum
                        && (s.qps[q].record.state == 1 || s.qps[q].record.state == 3) then 0
    else 22
  }

  // ----- disconnect

  /** m' is m without the objects of the session. */
  ghost predicate Forgets<R>(m: map<nat, Registry.Owned<R>>, m': map<nat, Registry.Owned<R>>, session: nat) {
    && (forall id :: id in m' <==> id in m && m[id].owner != session)
    && (forall id :: id in m' ==> m'[id] == m[id])
  }

  /** A disconnect removes every object of the session and changes no other; keys and numbers are not given back. */
  lemma DisconnectOutcome(s: Control, session: nat)
    requires Inv(s)
    ensures var d := Disconnect(s, session);
            && Forgets(s.contexts, d.contexts, session) && Forgets(s.pds, d.pds, session) && Forgets(s.mrs, d.mrs, session)
            && Forgets(s.cqs, d.cqs, session) && Forgets(s.qps, d.qps, session)
            && (forall n :: n in d.qpIndex <==> n in s.qpIndex && s.qpIndex[n] in d.qps)
            && d.nextKey == s.nextKey && d.nextQpNum == s.nextQpNum && d.heldMappings == |d.mrs|
  {
    hide ContextCounts, PdCounts, CqCounts, ContextParents, QpParents, MrRelation, KeysDistinct, QpStates, QpIndexed, Without,
      Forgets, OwnedBy;
    DisconnectKeeps(s, session);
    WithoutForgets(s.contexts, session);
    WithoutForgets(s.pds, session);
    WithoutForgets(s.mrs, session);
    WithoutForgets(s.cqs, session);
    WithoutForgets(s.qps, session);
    NumbersForgotten(s, session);
  }

  lemma WithoutForgets<R>(m: map<nat, Registry.Owned<R>>, session: nat)
    ensures Forgets(m, Without(m, session), session)
  {
  }

  lemma NumbersForgotten(s: Control, session: nat)
    requires QpIndexed(s.qps, s.qpIndex, s.nextQpNum)
    ensures forall n :: n in Disconnect(s, session).qpIndex <==> n in s.qpIndex && s.qpIndex[n] in Disconnect(s, session).qps
  {
    var gone := set id | id in s.qps && s.qps[id].owner == session :: s.qps[id].record.qpNum;
    forall n | n in s.qpIndex ensures n in gone <==> s.qps[s.qpIndex[n]].owner == session { }
  }

  // ----- regions over runs

  /** A successful registration of region id, at step t of a run. */
  ghost predicate RegisteredAt(ws: seq<World>, actions: seq<Action>, t: nat, id: nat) {
    && t < |actions| && t < |ws| && actions[t].Call? && actions[t].request.DoRegisterMr?
    && actions[t].request.given == Some(id) && actions[t].request.memory.Decoded? && actions[t].request.mapping.Mapped?
    && Handle(ws[t].s, actions[t].session, actions[t].shaped, actions[t].request).status == 0
  }

  /** What a region registered at step t is. */
  ghost predicate IsRegistration(ws: seq<World>, actions: seq<Action>, t: nat, id: nat, o: Registry.Owned<MrRecord>) {
    && RegisteredAt(ws, actions, t, id)
    && (var q := actions[t].request;
        && q.pd in ws[t].s.pds && o.owner == actions[t].session
        && RegisteredAs(o.record, ws[t].s.pds[q.pd].record.context, q.pd, q.memory.value, q.mapping.base, q.access, ws[t].s.nextKey))
  }

  lemma MrsUntouched(s: Control, session: nat, shaped: bool, q: Request)
    requires !q.DoRegisterMr? && !q.DoDeregisterMr?
    ensures Handle(s, session, shaped, q).s.mrs == s.mrs
  {
    hide ValidCreate, ValidRetry, ModifiedQp, AddReference, DropReference, NextQpNum;
  }

  /** A request keeps every region it does not remove, and adds only the one it registers. */
  lemma RegionsEvolve(w: World, session: nat, shaped: bool, q: Request)
    requires Inv(w.s) && AllIssued(w) && Enabled(w, Call(session, shaped, q))
    ensures var a := Handle(w.s, session, shaped, q);
            forall id :: id in a.s.mrs ==>
              || (id in w.s.mrs && a.s.mrs[id] == w.s.mrs[id])
              || (&& q.DoRegisterMr? && a.status == 0 && q.given == Some(id) && q.memory.Decoded? && q.mapping.Mapped?
                  && q.pd in w.s.pds && a.s.mrs[id].owner == session
                  && RegisteredAs(a.s.mrs[id].record, w.s.pds[q.pd].record.context, q.pd, q.memory.value, q.mapping.base,
                                  q.access, w.s.nextKey))
  {
    hide ContextCounts, PdCounts, CqCounts, ContextParents, QpParents, MrRelation, KeysDistinct, QpIndexed, QpStates, RegisterMr,
      DeregisterMr, RegisteredAs;
    match q
    case DoRegisterMr(access, pd, memory, mapping, given) =>
      RegisterMrOutcome(w.s, session, shaped, access, pd, memory, mapping, given);
      var a := RegisterMr(w.s, session, shaped, access, pd, memory, mapping, given);
      forall id | id in a.s.mrs && (a.status != 0 || id != a.id) ensures id in w.s.mrs && a.s.mrs[id] == w.s.mrs[id] {
        if a.status == 0 { assert id in a.s.mrs - {a.id}; }
      }
    case DoDeregisterMr(id, closeStatus) => DeregisterMrOutcome(w.s, session, shaped, id, closeStatus);
    case _ => MrsUntouched(w.s, session, shaped, q);
  }

  /** A step keeps a region or is its registration. */
  lemma RegionStep(ws: seq<World>, actions: seq<Action>, t: nat, id: nat)
    requires IsRun(ws, actions) && t < |actions| && id in ws[t + 1].s.mrs
    ensures || (id in ws[t].s.mrs && ws[t + 1].s.mrs[id] == ws[t].s.mrs[id])
            || IsRegistration(ws, actions, t, id, ws[t + 1].s.mrs[id])
  {
    RunKeeps(ws, actions, t);
    hide Inv, AllIssued, Handle, Disconnect, RegisteredAs;
    var a := actions[t];
    assert Enabled(ws[t], a) && ws[t + 1] == Step(ws[t], a);
    hide Enabled, IsRun;
    match a
    case Call(session, shaped, q) => RegionsEvolve(ws[t], session, shaped, q);
    case Leave(session) => RegionLeft(ws[t].s, session, id);
  }

  /** Every live region is what its registration said, for as long as it lives. */
  lemma {:induction false} RegionsAreAsRegistered(ws: seq<World>, actions: seq<Action>, u: nat, id: nat) returns (t: nat)
    requires IsRun(ws, actions) && u < |ws| && id in ws[u].s.mrs
    ensures t < u && IsRegistration(ws, actions, t, id, ws[u].s.mrs[id])
  {
    hide Step, Enabled, IsRegistration;
    assert u != 0;
    RegionStep(ws, actions, u - 1, id);
    if IsRegistration(ws, actions, u - 1, id, ws[u].s.mrs[id]) {
      t := u - 1;
    } else {
      t := RegionsAreAsRegistered(ws, actions, u - 1, id);
    }
  }

  lemma RegionLeft(s: Control, session: nat, id: nat)
    requires id in Disconnect(s, session).mrs
    ensures id in s.mrs && Disconnect(s, session).mrs[id] == s.mrs[id]
  {
  }

  /** A registered identity stays issued. */
  lemma RegisteredIsIssued(ws: seq<World>, actions: seq<Action>, t: nat, u: nat, id: nat)
    requires IsRun(ws, actions) && t < u < |ws| && RegisteredAt(ws, actions, t, id)
    ensures id in ws[u].issued
  {
    hide Handle, Disconnect;
    assert ws[t + 1] == Step(ws[t], actions[t]);
    IssuedAlong(ws, actions, t + 1, u);
  }

  /** An identity is registered at most once in a run. */
  lemma OneRegistration(ws: seq<World>, actions: seq<Action>, t: nat, u: nat, id: nat)
    requires IsRun(ws, actions) && RegisteredAt(ws, actions, t, id) && RegisteredAt(ws, actions, u, id)
    ensures t == u
  {
    hide Handle, Disconnect;
    assert id !in ws[t].issued && id !in ws[u].issued;
    hide IsRun, RegisteredAt;
    if t < u { RegisteredIsIssued(ws, actions, t, u, id); }
    if u < t { RegisteredIsIssued(ws, actions, u, t, id); }
  }

  /** The n bytes at client address a lie in the registered memory, and their client and daemon addresses within 64 bits. */
  predicate RangeMapped(m: Memory, base: nat, a: nat, n: nat) {
    && m.clientAddress <= a && a + n <= m.clientAddress + m.length < 0x1_0000_0000_0000_0000
    && base + m.allocationOffset + (a - m.clientAddress) < 0x1_0000_0000_0000_0000
  }

  /**
    A region's keys lead to where its memory was mapped, in every later state in
    which it lives: byte a of the client is byte a - clientAddress past the
    allocation offset of the mapping.  The remote key works exactly for access 3.
   */
  lemma RegisteredKeysResolve(ws: seq<World>, actions: seq<Action>, t: nat, u: nat, id: nat, a: nat, n: nat)
    requires IsRun(ws, actions) && t < u < |ws| && RegisteredAt(ws, actions, t, id) && id in ws[u].s.mrs && 0 < n
    ensures var q, session, lkey := actions[t].request, actions[t].session, ws[t].s.nextKey;
            var m, base := q.memory.value, q.mapping.base;
            var found := if RangeMapped(m, base, a, n) then Address(base + m.allocationOffset + (a - m.clientAddress)) else Refused(22);
            && ResolveKey(ws[u].s, session, q.pd, lkey, a, n, false) == found
            && ResolveKey(ws[u].s, session, q.pd, lkey + 1, a, n, true) == (if q.access == 3 then found else Refused(13))
  {
    hide Inv, AllIssued, Handle, IsRun, ResolveKey, Translate, KeysDistinct;
    RunKeeps(ws, actions, u);
    var v := RegionsAreAsRegistered(ws, actions, u, id);
    OneRegistration(ws, actions, t, v, id);
    var q, session, lkey := actions[t].request, actions[t].session, ws[t].s.nextKey;
    KeysOf(ws[u].s, id);
    assert Names(ws[u].s, session, q.pd, lkey, false, id) && Names(ws[u].s, session, q.pd, lkey + 1, true, id);
    ResolveKeyIsScan(ws[u].s, session, q.pd, lkey, a, n, false);
    ResolveKeyIsScan(ws[u].s, session, q.pd, lkey + 1, a, n, true);
    TranslateRegistered(ws[u].s.mrs[id].record, ws[t].s.pds[q.pd].record.context, q.pd, q.memory.value, q.mapping.base, q.access, lkey, a, n);
  }

  lemma KeysOf(s: Control, id: nat)
    requires Inv(s) && id in s.mrs
    ensures 0 < s.mrs[id].record.lkey && s.mrs[id].record.access in {0, 1, 3}
  {
    hide ContextCounts, PdCounts, CqCounts, ContextParents, QpParents, MrRelation, QpIndexed, QpStates;
  }

  lemma TranslateRegistered(mr: MrRecord, context: nat, pd: nat, m: Memory, base: nat, access: nat, lkey: nat, a: nat, n: nat)
    requires RegisteredAs(mr, context, pd, m, base, access, lkey) && access in {0, 1, 3} && 0 < n
    ensures var found := if RangeMapped(m, base, a, n) then Address(base + m.allocationOffset + (a - m.clientAddress)) else Refused(22);
            && Translate(mr, a, n, false) == found
            && Translate(mr, a, n, true) == (if access == 3 then found else Refused(13))
  {
  }
}
