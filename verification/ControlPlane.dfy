/**
  The daemon's control plane on values: contexts, protection domains, memory
  regions, completion queues and queue pairs as maps from identity to record
  (src/control/device_context.cpp, src/control/pd_mr_cq.cpp, src/control/qp.cpp).
  Each handler is a function; what it takes from outside (a new identity, the
  outcome of opening memory or creating a ring) is an argument.
 */
module ControlPlane {
  import opened Common
  import opened Registry

  const RESET: nat := 0
  const INIT: nat := 1
  const RTR: nat := 2
  const RTS: nat := 3
  const SQD: nat := 4
  const SQE: nat := 5
  const ERR: nat := 6
  const ACCESS_LOCAL_WRITE: nat := 1
  const ACCESS_REMOTE_WRITE: nat := 2

  // ----- records

  datatype ContextRecord = ContextRecord(device: nat, childCount: nat)

  datatype PdRecord = PdRecord(
    context: nat, mrs: set<nat>, localKeys: map<nat, nat>, remoteKeys: map<nat, nat>, qpCount: nat)

  datatype MrRecord = MrRecord(
    context: nat, pd: nat, clientAddress: nat, daemonAddress: nat, length: nat, access: nat,
    lkey: nat, rkey: nat, workReferences: nat)

  datatype CqRecord = CqRecord(context: nat, cqe: nat, qpReferences: nat)

  datatype Retry = Retry(timeout: nat, retryCount: nat, rnrRetry: nat, minRnrTimer: nat)

  datatype QpRecord = QpRecord(
    context: nat, pd: nat, sendCq: nat, recvCq: nat, qpNum: nat, state: nat, access: nat,
    peerQpNum: nat, peer: nat, retry: Retry)

  /** heldMappings: mappings opened and not yet handed back; a hand-back on rollback or disconnect counts whatever close says. */
  datatype Control = Control(
    contexts: map<nat, Owned<ContextRecord>>, pds: map<nat, Owned<PdRecord>>, mrs: map<nat, Owned<MrRecord>>,
    cqs: map<nat, Owned<CqRecord>>, qps: map<nat, Owned<QpRecord>>,
    qpIndex: map<nat, nat>, nextKey: nat, nextQpNum: nat, heldMappings: int)

  datatype Reply = Reply(s: Control, status: int, id: nat)

  type Errno = x: int | x != 0 witness 22

  /** A decoded payload, or the status its decoder returned. */
  datatype Payload<+T> = Decoded(value: T) | Malformed(status: Errno)

  function Lookup<R>(m: map<nat, Owned<R>>, session: nat, id: nat): Option<R> {
    if id in m && m[id].owner == session then Some(m[id].record) else None
  }

  /** A field update through a resolved pointer. */
  function Put<R>(m: map<nat, Owned<R>>, id: nat, r: R): map<nat, Owned<R>>
    requires id in m
  {
    m[id := Owned(m[id].owner, r)]
  }

  function Fail(s: Control, status: int): Reply { Reply(s, status, 0) }

  // ----- contexts

  function CreateContext(s: Control, session: nat, shaped: bool, device: nat, known: bool, given: Option<nat>): Reply {
    if !shaped || !known then Fail(s, EINVAL)
    else if given.None? then Fail(s, ENOSPC)
    else Reply(s.(contexts := s.contexts[given.value := Owned(session, ContextRecord(device, 0))]), 0, given.value)
  }

  function DestroyContext(s: Control, session: nat, shaped: bool, id: nat): Reply {
    var context := Lookup(s.contexts, session, id);
    if !shaped || context.None? then Fail(s, EINVAL)
    else if context.value.childCount != 0 then Fail(s, EBUSY)
    else Reply(s.(contexts := s.contexts - {id}), 0, 0)
  }

  function AddChild(s: Control, context: nat): map<nat, Owned<ContextRecord>>
    requires context in s.contexts
  {
    var r := s.contexts[context].record;
    Put(s.contexts, context, r.(childCount := r.childCount + 1))
  }

  function DropChild(s: Control, context: nat): map<nat, Owned<ContextRecord>>
    requires context in s.contexts && s.contexts[context].record.childCount != 0
  {
    var r := s.contexts[context].record;
    Put(s.contexts, context, r.(childCount := r.childCount - 1))
  }

  // ----- protection domains

  function CreatePd(s: Control, session: nat, shaped: bool, context: nat, given: Option<nat>): Reply {
    if !shaped || Lookup(s.contexts, session, context).None? then Fail(s, EINVAL)
    else if given.None? then Fail(s, ENOSPC)
    else Reply(s.(pds := s.pds[given.value := Owned(session, PdRecord(context, {}, map[], map[], 0))],
                  contexts := AddChild(s, context)), 0, given.value)
  }

  function DestroyPd(s: Control, session: nat, shaped: bool, id: nat): Reply {
    var pd := Lookup(s.pds, session, id);
    if !shaped || pd.None? then Fail(s, EINVAL)
    else if pd.value.mrs != {} || pd.value.qpCount != 0 then Fail(s, EBUSY)
    else
      var context := Lookup(s.contexts, session, pd.value.context);
      if context.None? || context.value.childCount == 0 then Fail(s, EINVAL)
      else Reply(s.(pds := s.pds - {id}, contexts := DropChild(s, pd.value.context)), 0, 0)
  }

  // ----- memory regions

  datatype Memory = Memory(clientAddress: nat, length: nat, allocationSize: nat, allocationOffset: nat)

  /** valid_memory, on the fields that take part in address arithmetic; each of them is a 64-bit value. */
  predicate ValidMemory(m: Memory) {
    && 0 < m.clientAddress <= U64_MAX && 0 < m.length && 0 < m.allocationSize <= U64_MAX
    && m.allocationOffset <= m.allocationSize && m.length <= m.allocationSize - m.allocationOffset
    && m.allocationOffset <= m.clientAddress
  }

  predicate ValidAccess(access: nat) {
    access == 0 || access == ACCESS_LOCAL_WRITE || access == ACCESS_LOCAL_WRITE + ACCESS_REMOTE_WRITE
  }

  predicate RemoteWritable(access: nat) { access / ACCESS_REMOTE_WRITE % 2 == 1 }

  /** What opening the exported memory gave: a status, or a base address and whether the GPU matches. */
  datatype Opened = OpenFailed(status: Errno) | Mapped(base: nat, sameGpu: bool)

  /** allocate_keys: two consecutive keys, never 0, never beyond 32 bits. */
  function AllocateKeys(nextKey: nat): Option<(nat, nat)> {
    if nextKey == 0 || nextKey > U32_MAX - 1 then None else Some((nextKey, nextKey + 1))
  }

  function RegisterMr(s: Control, session: nat, shaped: bool, access: nat, pd: nat, memory: Payload<Memory>, mapping: Opened,
                      given: Option<nat>): Reply
  {
    var domain := Lookup(s.pds, session, pd);
    if !shaped || !ValidAccess(access) || domain.None? then Fail(s, EINVAL)
    else if memory.Malformed? then Fail(s, memory.status)
    else if !ValidMemory(memory.value) then Fail(s, EINVAL)
    else if mapping.OpenFailed? then Fail(s, mapping.status)
    else if mapping.base == 0 || !mapping.sameGpu || mapping.base > U64_MAX - memory.value.allocationOffset then Fail(s, EPROTO)
    else
      var keys := AllocateKeys(s.nextKey);
      if keys.None? then Fail(s, ENOSPC)
      else
        var (lkey, rkey) := keys.value;
        var s1 := s.(nextKey := s.nextKey + 2);
        if given.None? then Fail(s1, ENOSPC)
        else
          var m, d := memory.value, domain.value;
          var record := MrRecord(d.context, pd, m.clientAddress, mapping.base + m.allocationOffset, m.length, access,
                                 lkey, rkey, 0);
          Reply(s1.(mrs := s.mrs[given.value := Owned(session, record)],
                    pds := Put(s.pds, pd, d.(mrs := d.mrs + {given.value}, localKeys := d.localKeys[lkey := given.value],
                                             remoteKeys := d.remoteKeys[rkey := given.value])),
                    heldMappings := s.heldMappings + 1), 0, given.value)
  }

  function DeregisterMr(s: Control, session: nat, shaped: bool, id: nat, closeStatus: int): Reply {
    var mr := Lookup(s.mrs, session, id);
    if !shaped || mr.None? then Fail(s, EINVAL)
    else if mr.value.workReferences != 0 then Fail(s, EBUSY)
    else if closeStatus != 0 then Fail(s, closeStatus)
    else
      var s1 := s.(heldMappings := s.heldMappings - 1);
      var pd := Lookup(s.pds, session, mr.value.pd);
      if pd.None? then Fail(s1, EINVAL)
      else
        var d := pd.value;
        Reply(s1.(mrs := s.mrs - {id},
                  pds := Put(s.pds, mr.value.pd,
                             d.(mrs := d.mrs - {id}, localKeys := d.localKeys - {mr.value.lkey},
                                remoteKeys := d.remoteKeys - {mr.value.rkey}))), 0, 0)
  }

  datatype Resolved = Address(daemon: nat) | Refused(status: int)

  /** The range check and translation of resolve_key, on one region. */
  function Translate(mr: MrRecord, address: nat, length: nat, remote: bool): Resolved {
    if remote && !RemoteWritable(mr.access) then Refused(EACCES)
    else if address < mr.clientAddress || address > U64_MAX - length || mr.clientAddress > U64_MAX - mr.length
            || address + length > mr.clientAddress + mr.length then Refused(EINVAL)
    else if mr.daemonAddress > U64_MAX - (address - mr.clientAddress) then Refused(EINVAL)
    else Address(mr.daemonAddress + (address - mr.clientAddress))
  }

  /** resolve_key, through the index of the protection domain. */
  function ResolveKey(s: Control, session: nat, pd: nat, key: nat, address: nat, length: nat, remote: bool): Resolved {
    if key == 0 || length == 0 then Refused(EINVAL)
    else
      var domain := Lookup(s.pds, session, pd);
      if domain.None? then Refused(EINVAL)
      else
        var index := if remote then domain.value.remoteKeys else domain.value.localKeys;
        if key !in index then Refused(EINVAL)
        else
          var mr := Lookup(s.mrs, session, index[key]);
          if mr.None? || mr.value.pd != pd then Refused(EINVAL)
          else Translate(mr.value, address, length, remote)
  }

  // ----- completion queues

  function CreateCq(s: Control, session: nat, shaped: bool, context: nat, cqe: nat, ringStatus: int, given: Option<nat>): Reply {
    if !shaped || cqe == 0 || cqe > U32_MAX || Lookup(s.contexts, session, context).None? then Fail(s, EINVAL)
    else if ringStatus != 0 then Fail(s, ringStatus)
    else if given.None? then Fail(s, ENOSPC)
    else Reply(s.(cqs := s.cqs[given.value := Owned(session, CqRecord(context, cqe, 0))],
                  contexts := AddChild(s, context)), 0, given.value)
  }

  function DestroyCq(s: Control, session: nat, shaped: bool, id: nat): Reply {
    var cq := Lookup(s.cqs, session, id);
    if !shaped || cq.None? then Fail(s, EINVAL)
    else if cq.value.qpReferences != 0 then Fail(s, EBUSY)
    else
      var context := Lookup(s.contexts, session, cq.value.context);
      if context.None? || context.value.childCount == 0 then Fail(s, EINVAL)
      else Reply(s.(cqs := s.cqs - {id}, contexts := DropChild(s, cq.value.context)), 0, 0)
  }

  // ----- queue pairs

  datatype QpCreate = QpCreate(
    sendCq: nat, recvCq: nat, maxSendWr: nat, maxRecvWr: nat, maxSendSge: nat, maxRecvSge: nat, reliable: bool,
    sqSigAll: nat)

  predicate ValidCreate(a: QpCreate) {
    && a.sendCq != 0 && a.recvCq != 0 && a.maxSendWr != 0 && a.maxRecvWr != 0 && a.maxSendSge != 0 && a.maxRecvSge != 0
    && a.reliable && a.sqSigAll <= 1
  }

  /** A completion queue counts a queue pair once, whether it serves one or both directions. */
  function AddReference(cqs: map<nat, Owned<CqRecord>>, sendCq: nat, recvCq: nat): map<nat, Owned<CqRecord>>
    requires sendCq in cqs && recvCq in cqs
  {
    var a := cqs[sendCq].record;
    var m := Put(cqs, sendCq, a.(qpReferences := a.qpReferences + 1));
    if recvCq == sendCq then m
    else var b := m[recvCq].record; Put(m, recvCq, b.(qpReferences := b.qpReferences + 1))
  }

  function DropReference(cqs: map<nat, Owned<CqRecord>>, sendCq: nat, recvCq: nat): map<nat, Owned<CqRecord>>
    requires sendCq in cqs && recvCq in cqs
    requires cqs[sendCq].record.qpReferences != 0 && cqs[recvCq].record.qpReferences != 0
  {
    var a := cqs[sendCq].record;
    var m := Put(cqs, sendCq, a.(qpReferences := a.qpReferences - 1));
    if recvCq == sendCq then m
    else var b := m[recvCq].record; Put(m, recvCq, b.(qpReferences := b.qpReferences - 1))
  }

  /** The 32-bit number after n; 0 means none is left. */
  function NextQpNum(n: nat): nat { (n + 1) % 0x1_0000_0000 }

  function CreateQp(s: Control, session: nat, shaped: bool, pd: nat, attributes: Payload<QpCreate>, ringStatus: int,
                    given: Option<nat>): Reply
  {
    if !shaped then Fail(s, EINVAL)
    else if attributes.Malformed? then Fail(s, attributes.status)
    else if !ValidCreate(attributes.value) then Fail(s, EINVAL)
    else
      var a := attributes.value;
      var domain := Lookup(s.pds, session, pd);
      var sendCq := Lookup(s.cqs, session, a.sendCq);
      var recvCq := Lookup(s.cqs, session, a.recvCq);
      if domain.None? || sendCq.None? || recvCq.None?
         || domain.value.context != sendCq.value.context || domain.value.context != recvCq.value.context then Fail(s, EINVAL)
      else if ringStatus != 0 then Fail(s, ringStatus)
      else if s.nextQpNum == 0 then Fail(s, ENOSPC)
      else
        var s1 := s.(nextQpNum := NextQpNum(s.nextQpNum));
        if given.None? || s.nextQpNum in s.qpIndex then Fail(s1, ENOSPC)
        else
          var d := domain.value;
          var record := QpRecord(d.context, pd, a.sendCq, a.recvCq, s.nextQpNum, RESET, 0, 0, 0, Retry(0, 0, 0, 0));
          Reply(s1.(qps := s.qps[given.value := Owned(session, record)],
                    qpIndex := s.qpIndex[s.nextQpNum := given.value],
                    pds := Put(s.pds, pd, d.(qpCount := d.qpCount + 1)),
                    cqs := AddReference(s.cqs, a.sendCq, a.recvCq)), 0, given.value)
  }

  function DestroyQp(s: Control, session: nat, shaped: bool, id: nat): Reply {
    var found := Lookup(s.qps, session, id);
    if !shaped || found.None? then Fail(s, EINVAL)
    else
      var qp := found.value;
      var domain := Lookup(s.pds, session, qp.pd);
      var sendCq := Lookup(s.cqs, session, qp.sendCq);
      var recvCq := Lookup(s.cqs, session, qp.recvCq);
      if domain.None? || sendCq.None? || recvCq.None? || domain.value.qpCount == 0
         || sendCq.value.qpReferences == 0 || recvCq.value.qpReferences == 0 then Fail(s, EINVAL)
      else
        var d := domain.value;
        Reply(s.(qps := s.qps - {id}, qpIndex := s.qpIndex - {qp.qpNum},
                 pds := Put(s.pds, qp.pd, d.(qpCount := d.qpCount - 1)),
                 cqs := DropReference(s.cqs, qp.sendCq, qp.recvCq)), 0, 0)
  }

  /** The bits of an attribute mask. */
  datatype Mask = Mask(state: bool, current: bool, access: bool, other: bool)

  datatype QpModify = QpModify(mask: Mask, state: nat, current: nat, access: nat)

  /** What modify_qp makes of a state: the new record, or a status. */
  function ModifiedQp(qp: QpRecord, m: QpModify): Payload<QpRecord> {
    if !m.mask.state || m.mask.other then Malformed(EINVAL)
    else if m.state == SQD || m.state == SQE then Malformed(EOPNOTSUPP)
    else if m.mask.current && m.current != qp.state then Malformed(EINVAL)
    else if qp.state == RESET && m.state == INIT && m.mask.access && m.access == ACCESS_REMOTE_WRITE then
      Decoded(qp.(access := m.access, state := INIT))
    else if (qp.state == RESET || qp.state == INIT || qp.state == RTR || qp.state == RTS)
            && m.state == ERR && !m.mask.access then Decoded(qp.(state := ERR))
    else Malformed(EINVAL)
  }

  function ModifyQp(s: Control, session: nat, shaped: bool, id: nat, payload: Payload<QpModify>): Reply {
    if !shaped then Fail(s, EINVAL)
    else if payload.Malformed? then Fail(s, payload.status)
    else
      var qp := Lookup(s.qps, session, id);
      if qp.None? then Fail(s, EINVAL)
      else
        match ModifiedQp(qp.value, payload.value)
        case Malformed(status) => Fail(s, status)
        case Decoded(r) => Reply(s.(qps := Put(s.qps, id, r)), 0, 0)
  }

  predicate ValidRetry(r: Retry) { r.retryCount <= 7 && r.rnrRetry <= 7 && r.timeout <= 31 && r.minRnrTimer <= 31 }

  datatype QpConnect = QpConnect(remoteQpNum: nat, exactMask: bool, retry: Retry)

  function ConnectQp(s: Control, session: nat, shaped: bool, id: nat, payload: Payload<QpConnect>): Reply {
    if !shaped then Fail(s, EINVAL)
    else if payload.Malformed? then Fail(s, payload.status)
    else
      var a := payload.value;
      var found := Lookup(s.qps, session, id);
      if found.None? || a.remoteQpNum == 0 || !a.exactMask || !ValidRetry(a.retry) then Fail(s, EINVAL)
      else
        var local := found.value;
        if local.peerQpNum != 0 && local.peerQpNum != a.remoteQpNum then Fail(s, EBUSY)
        else if local.state != INIT then Fail(s, EINVAL)
        else if a.remoteQpNum !in s.qpIndex || s.qpIndex[a.remoteQpNum] !in s.qps then Fail(s, ENOENT)
        else
          var remote := s.qps[s.qpIndex[a.remoteQpNum]].record;
          if remote.state != INIT && remote.state != RTR && remote.state != RTS then Fail(s, EINVAL)
          else Reply(s.(qps := Put(s.qps, id, local.(peerQpNum := a.remoteQpNum, peer := s.qpIndex[a.remoteQpNum],
                                                     retry := a.retry, state := RTS))), 0, 0)
  }

  // ----- disconnect and the worker's view

  function Without<R>(m: map<nat, Owned<R>>, session: nat): map<nat, Owned<R>> {
    map id | id in m && m[id].owner != session :: m[id]
  }

  function OwnedBy<R>(m: map<nat, Owned<R>>, session: nat): set<nat> { set id | id in m && m[id].owner == session }

  function Disconnect(s: Control, session: nat): Control {
    s.(contexts := Without(s.contexts, session), pds := Without(s.pds, session), mrs := Without(s.mrs, session),
       cqs := Without(s.cqs, session), qps := Without(s.qps, session),
       qpIndex := s.qpIndex - (set id | id in s.qps && s.qps[id].owner == session :: s.qps[id].record.qpNum),
       heldMappings := s.heldMappings - |OwnedBy(s.mrs, session)|)
  }

  /** The queue pair a worker serves, with its completion queues; None for its error statuses. */
  function WorkerQpView(s: Control, qpNum: nat): Option<(nat, QpRecord)> {
    if qpNum == 0 || qpNum !in s.qpIndex || s.qpIndex[qpNum] !in s.qps then None
    else
      var o := s.qps[s.qpIndex[qpNum]];
      if Lookup(s.cqs, o.owner, o.record.sendCq).None? || Lookup(s.cqs, o.owner, o.record.recvCq).None? then None
      else Some((o.owner, o.record))
  }
}
