/** Memory regions, queue pairs and disconnects keep the control plane's invariant; runs of requests. */
module ControlKeeps {
  import opened Common
  import opened Registry
  import opened ControlPlane
  import opened ControlInv

  // ----- memory regions

  /** Changing a domain's regions and keys touches nothing the other objects depend on. */
  lemma PdRecordSwap(s: Control, pd: nat, r: PdRecord)
    requires ContextCounts(s.contexts, s.pds, s.cqs) && ContextParents(s.contexts, s.pds, s.cqs)
    requires QpParents(s.pds, s.cqs, s.qps) && PdCounts(s.pds, s.qps)
    requires pd in s.pds && r.context == s.pds[pd].record.context && r.qpCount == s.pds[pd].record.qpCount
    ensures ContextCounts(s.contexts, Put(s.pds, pd, r), s.cqs) && ContextParents(s.contexts, Put(s.pds, pd, r), s.cqs)
    ensures QpParents(Put(s.pds, pd, r), s.cqs, s.qps) && PdCounts(Put(s.pds, pd, r), s.qps)
  {
    hide ContextCounts, ContextParents, QpParents, QpsOfPd;
    SameChildren(s, Put(s.pds, pd, r), s.cqs);
  }

  lemma RegisterMrKeeps(s: Control, session: nat, shaped: bool, access: nat, pd: nat, memory: Payload<Memory>, mapping: Opened,
                        given: Option<nat>)
    requires Inv(s) && (given.Some? ==> given.value !in s.mrs)
    ensures Inv(RegisterMr(s, session, shaped, access, pd, memory, mapping, given).s)
  {
    hide QpParents, ContextParents, MrRelation, QpIndexed, QpStates, PdCounts, CqCounts, ContextCounts, KeysDistinct;
    var s' := RegisterMr(s, session, shaped, access, pd, memory, mapping, given).s;
    if s'.nextKey != s.nextKey {
      KeysAdvance(s.mrs, s.nextKey);
      if s'.mrs != s.mrs {
        var o := s'.mrs[given.value];
        PdRecordSwap(s, pd, s'.pds[pd].record);
        AddMr(s.pds, s.mrs, s.nextKey, given.value, o);
        assert |s'.mrs| == |s.mrs| + 1;
      }
    }
  }

  lemma KeysAdvance(mrs: map<nat, Owned<MrRecord>>, nextKey: nat)
    requires KeysDistinct(mrs, nextKey)
    ensures KeysDistinct(mrs, nextKey + 2)
  {
  }

  /** The domain's record with one more region in its set and indices. */
  function WithMr(d: PdRecord, id: nat, mr: MrRecord): PdRecord {
    d.(mrs := d.mrs + {id}, localKeys := d.localKeys[mr.lkey := id], remoteKeys := d.remoteKeys[mr.rkey := id])
  }

  lemma AddMr(pds: map<nat, Owned<PdRecord>>, mrs: map<nat, Owned<MrRecord>>, nextKey: nat, id: nat, o: Owned<MrRecord>)
    requires MrRelation(pds, mrs) && KeysDistinct(mrs, nextKey) && id !in mrs
    requires o.record.pd in pds && pds[o.record.pd].owner == o.owner && pds[o.record.pd].record.context == o.record.context
    requires o.record.lkey == nextKey && o.record.rkey == nextKey + 1 && o.record.workReferences == 0 && 0 < nextKey
    requires ValidAccess(o.record.access)
    ensures MrRelation(Put(pds, o.record.pd, WithMr(pds[o.record.pd].record, id, o.record)), mrs[id := o])
    ensures KeysDistinct(mrs[id := o], nextKey + 2)
  {
    hide MrsIndexed, IndicesSound, KeysDistinct;
    AddMrIndexed(pds, mrs, nextKey, id, o);
    AddMrSound(pds, mrs, id, o);
    AddMrKeys(mrs, nextKey, id, o);
  }

  lemma AddMrKeys(mrs: map<nat, Owned<MrRecord>>, nextKey: nat, id: nat, o: Owned<MrRecord>)
    requires KeysDistinct(mrs, nextKey) && id !in mrs
    requires o.record.lkey == nextKey && o.record.rkey == nextKey + 1 && o.record.workReferences == 0 && 0 < nextKey
    requires ValidAccess(o.record.access)
    ensures KeysDistinct(mrs[id := o], nextKey + 2)
  {
  }

  lemma AddMrIndexed(pds: map<nat, Owned<PdRecord>>, mrs: map<nat, Owned<MrRecord>>, nextKey: nat, id: nat, o: Owned<MrRecord>)
    requires MrsIndexed(pds, mrs) && KeysDistinct(mrs, nextKey) && id !in mrs
    requires o.record.pd in pds && pds[o.record.pd].owner == o.owner && pds[o.record.pd].record.context == o.record.context
    requires o.record.lkey == nextKey && o.record.rkey == nextKey + 1
    ensures MrsIndexed(Put(pds, o.record.pd, WithMr(pds[o.record.pd].record, id, o.record)), mrs[id := o])
  {
    var pds', mrs' := Put(pds, o.record.pd, WithMr(pds[o.record.pd].record, id, o.record)), mrs[id := o];
    hide MrIndexed;
    assert MrIndexed(pds', id, o) by { NewMrIndexed(pds, id, o); }
    forall x | x in mrs' ensures MrIndexed(pds', x, mrs'[x]) {
      if x != id { OldMrIndexed(pds, x, mrs[x], id, o); }
    }
  }

  lemma NewMrIndexed(pds: map<nat, Owned<PdRecord>>, id: nat, o: Owned<MrRecord>)
    requires o.record.pd in pds && pds[o.record.pd].owner == o.owner && pds[o.record.pd].record.context == o.record.context
    ensures MrIndexed(Put(pds, o.record.pd, WithMr(pds[o.record.pd].record, id, o.record)), id, o)
  {
  }

  lemma OldMrIndexed(pds: map<nat, Owned<PdRecord>>, x: nat, m: Owned<MrRecord>, id: nat, o: Owned<MrRecord>)
    requires MrIndexed(pds, x, m) && o.record.pd in pds && m.record.lkey != o.record.lkey && m.record.rkey != o.record.rkey
    ensures MrIndexed(Put(pds, o.record.pd, WithMr(pds[o.record.pd].record, id, o.record)), x, m)
  {
  }

  lemma AddMrSound(pds: map<nat, Owned<PdRecord>>, mrs: map<nat, Owned<MrRecord>>, id: nat, o: Owned<MrRecord>)
    requires IndicesSound(pds, mrs) && id !in mrs && o.record.pd in pds
    ensures IndicesSound(Put(pds, o.record.pd, WithMr(pds[o.record.pd].record, id, o.record)), mrs[id := o])
  {
    var pds' := Put(pds, o.record.pd, WithMr(pds[o.record.pd].record, id, o.record));
    hide IndexSound;
    forall p | p in pds' ensures IndexSound(mrs[id := o], p, pds'[p]) { StillSound(mrs, p, pds[p], id, o); }
  }

  lemma StillSound(mrs: map<nat, Owned<MrRecord>>, p: nat, d: Owned<PdRecord>, id: nat, o: Owned<MrRecord>)
    requires IndexSound(mrs, p, d) && id !in mrs
    ensures IndexSound(mrs[id := o], p, d)
    ensures p == o.record.pd ==> IndexSound(mrs[id := o], p, Owned(d.owner, WithMr(d.record, id, o.record)))
  {
  }

  function WithoutMr(d: PdRecord, id: nat, mr: MrRecord): PdRecord {
    d.(mrs := d.mrs - {id}, localKeys := d.localKeys - {mr.lkey}, remoteKeys := d.remoteKeys - {mr.rkey})
  }

  /** A live region's domain is live: deregistration fails only when closing the mapping fails. */
  lemma DeregisterMrKeeps(s: Control, session: nat, shaped: bool, id: nat, closeStatus: int)
    requires Inv(s)
    ensures Inv(DeregisterMr(s, session, shaped, id, closeStatus).s)
    ensures Lookup(s.mrs, session, id).Some? && shaped ==> DeregisterMr(s, session, shaped, id, closeStatus).status == closeStatus
  {
    hide QpParents, ContextParents, MrRelation, QpIndexed, QpStates, PdCounts, CqCounts, ContextCounts, KeysDistinct;
    if id in s.mrs { MrHasPd(s.pds, s.mrs, s.nextKey, id); }
    var s' := DeregisterMr(s, session, shaped, id, closeStatus).s;
    if s' != s {
      PdRecordSwap(s, s.mrs[id].record.pd, WithoutMr(s.pds[s.mrs[id].record.pd].record, id, s.mrs[id].record));
      DropMr(s.pds, s.mrs, s.nextKey, id);
      assert |s.mrs - {id}| == |s.mrs| - 1;
    }
  }

  lemma MrHasPd(pds: map<nat, Owned<PdRecord>>, mrs: map<nat, Owned<MrRecord>>, nextKey: nat, id: nat)
    requires MrRelation(pds, mrs) && KeysDistinct(mrs, nextKey) && id in mrs
    ensures mrs[id].record.pd in pds && pds[mrs[id].record.pd].owner == mrs[id].owner && mrs[id].record.workReferences == 0
  {
    assert MrIndexed(pds, id, mrs[id]);
  }

  lemma DropMr(pds: map<nat, Owned<PdRecord>>, mrs: map<nat, Owned<MrRecord>>, nextKey: nat, id: nat)
    requires MrRelation(pds, mrs) && KeysDistinct(mrs, nextKey) && id in mrs && mrs[id].record.pd in pds
    ensures MrRelation(Put(pds, mrs[id].record.pd, WithoutMr(pds[mrs[id].record.pd].record, id, mrs[id].record)), mrs - {id})
    ensures KeysDistinct(mrs - {id}, nextKey)
  {
    hide MrsIndexed, IndicesSound, KeysDistinct;
    DropMrIndexed(pds, mrs, nextKey, id);
    DropMrSound(pds, mrs, nextKey, id);
    DropMrKeys(mrs, nextKey, id);
  }

  lemma DropMrKeys(mrs: map<nat, Owned<MrRecord>>, nextKey: nat, id: nat)
    requires KeysDistinct(mrs, nextKey)
    ensures KeysDistinct(mrs - {id}, nextKey)
  {
  }

  lemma DropMrIndexed(pds: map<nat, Owned<PdRecord>>, mrs: map<nat, Owned<MrRecord>>, nextKey: nat, id: nat)
    requires MrsIndexed(pds, mrs) && KeysDistinct(mrs, nextKey) && id in mrs && mrs[id].record.pd in pds
    ensures MrsIndexed(Put(pds, mrs[id].record.pd, WithoutMr(pds[mrs[id].record.pd].record, id, mrs[id].record)), mrs - {id})
  {
    hide MrIndexed;
    var pds', mrs' := Put(pds, mrs[id].record.pd, WithoutMr(pds[mrs[id].record.pd].record, id, mrs[id].record)), mrs - {id};
    forall x | x in mrs' ensures MrIndexed(pds', x, mrs'[x]) { KeptMrIndexed(pds, x, mrs[x], id, mrs[id]); }
  }

  lemma KeptMrIndexed(pds: map<nat, Owned<PdRecord>>, x: nat, m: Owned<MrRecord>, id: nat, o: Owned<MrRecord>)
    requires MrIndexed(pds, x, m) && o.record.pd in pds && x != id
    requires m.record.lkey != o.record.lkey && m.record.rkey != o.record.rkey
    ensures MrIndexed(Put(pds, o.record.pd, WithoutMr(pds[o.record.pd].record, id, o.record)), x, m)
  {
  }

  lemma DropMrSound(pds: map<nat, Owned<PdRecord>>, mrs: map<nat, Owned<MrRecord>>, nextKey: nat, id: nat)
    requires IndicesSound(pds, mrs) && KeysDistinct(mrs, nextKey) && id in mrs && mrs[id].record.pd in pds
    ensures IndicesSound(Put(pds, mrs[id].record.pd, WithoutMr(pds[mrs[id].record.pd].record, id, mrs[id].record)), mrs - {id})
  {
    hide IndexSound, KeysDistinct;
    var pds' := Put(pds, mrs[id].record.pd, WithoutMr(pds[mrs[id].record.pd].record, id, mrs[id].record));
    forall p | p in pds' ensures IndexSound(mrs - {id}, p, pds'[p]) { SoundWithout(mrs, p, pds[p], id); }
  }

  lemma SoundWithout(mrs: map<nat, Owned<MrRecord>>, p: nat, d: Owned<PdRecord>, id: nat)
    requires IndexSound(mrs, p, d) && id in mrs
    ensures p != mrs[id].record.pd ==> IndexSound(mrs - {id}, p, d)
    ensures p == mrs[id].record.pd ==> IndexSound(mrs - {id}, p, Owned(d.owner, WithoutMr(d.record, id, mrs[id].record)))
  {
  }

  // ----- queue pairs

  lemma CreateQpKeeps(s: Control, session: nat, shaped: bool, pd: nat, attributes: Payload<QpCreate>, ringStatus: int,
                      given: Option<nat>)
    requires Inv(s) && (given.Some? ==> given.value !in s.qps)
    ensures Inv(CreateQp(s, session, shaped, pd, attributes, ringStatus, given).s)
  {
    hide QpParents, ContextParents, MrRelation, QpIndexed, QpStates, PdCounts, CqCounts, ContextCounts, KeysDistinct, ValidCreate,
      NextQpNum, AddReference;
    var s' := CreateQp(s, session, shaped, pd, attributes, ringStatus, given).s;
    if s'.nextQpNum != s.nextQpNum { NumbersAdvance(s.qps, s.qpIndex, s.nextQpNum); }
    if s'.qps != s.qps {
      var id, a := given.value, attributes.value;
      var o := s'.qps[id];
      NumbersAdvance(s.qps, s.qpIndex, s.nextQpNum);
      AddQp(s, id, o);
      AddQpIndex(s.qps, s.qpIndex, s.nextQpNum, id, o);
      AddQpState(s.qps, id, o);
      QpCountPd(s, pd, s.pds[pd].record.qpCount + 1);
    }
  }

  lemma NumbersAdvance(qps: map<nat, Owned<QpRecord>>, index: map<nat, nat>, n: nat)
    requires QpIndexed(qps, index, n) && 0 < n
    ensures QpIndexed(qps, index, NextQpNum(n)) && n !in index
  {
  }

  lemma AddQpIndex(qps: map<nat, Owned<QpRecord>>, index: map<nat, nat>, n: nat, id: nat, o: Owned<QpRecord>)
    requires QpIndexed(qps, index, n) && 0 < n && id !in qps && o.record.qpNum == n
    ensures QpIndexed(qps[id := o], index[n := id], NextQpNum(n))
  {
  }

  lemma AddQpState(qps: map<nat, Owned<QpRecord>>, id: nat, o: Owned<QpRecord>)
    requires QpStates(qps) && QpStateOk(o.record)
    ensures QpStates(qps[id := o])
  {
    hide QpStateOk;
  }

  /** The references after one more queue pair, count by count. */
  lemma ReferencesAdded(cqs: map<nat, Owned<CqRecord>>, a: nat, b: nat)
    requires a in cqs && b in cqs
    ensures var m := AddReference(cqs, a, b);
            && SameCqs(cqs, m)
            && (forall q :: q in m ==>
                  m[q].record.qpReferences == cqs[q].record.qpReferences + (if q == a || q == b then 1 else 0))
  {
  }

  lemma ReferencesDropped(cqs: map<nat, Owned<CqRecord>>, a: nat, b: nat)
    requires a in cqs && b in cqs && cqs[a].record.qpReferences != 0 && cqs[b].record.qpReferences != 0
    ensures var m := DropReference(cqs, a, b);
            && SameCqs(cqs, m)
            && (forall q :: q in m ==>
                  m[q].record.qpReferences == cqs[q].record.qpReferences - (if q == a || q == b then 1 else 0))
  {
  }

  /** Everything but the new domain's own count, when a queue pair is added. */
  lemma AddQp(s: Control, id: nat, o: Owned<QpRecord>)
    requires CqCounts(s.cqs, s.qps) && QpParents(s.pds, s.cqs, s.qps) && PdCounts(s.pds, s.qps) && id !in s.qps
    requires ContextCounts(s.contexts, s.pds, s.cqs) && ContextParents(s.contexts, s.pds, s.cqs)
    requires QpParentOk(s.pds, s.cqs, o)
    ensures var cqs' := AddReference(s.cqs, o.record.sendCq, o.record.recvCq); var d := s.pds[o.record.pd].record;
            var pds' := Put(s.pds, o.record.pd, d.(qpCount := d.qpCount + 1));
            && CqCounts(cqs', s.qps[id := o]) && PdCounts(pds', s.qps[id := o])
            && QpParents(pds', cqs', s.qps[id := o])
            && ContextCounts(s.contexts, pds', cqs') && ContextParents(s.contexts, pds', cqs')
  {
    hide QpsOfCq, QpsOfPd, ContextCounts, ContextParents, QpParents, AddReference;
    var qps', cqs' := s.qps[id := o], AddReference(s.cqs, o.record.sendCq, o.record.recvCq);
    var d := s.pds[o.record.pd].record;
    var pds' := Put(s.pds, o.record.pd, d.(qpCount := d.qpCount + 1));
    ReferencesAdded(s.cqs, o.record.sendCq, o.record.recvCq);
    forall q | q in cqs' ensures cqs'[q].record.qpReferences == |QpsOfCq(qps', q)| { QpsOfCqAdd(s.qps, id, o, q); }
    forall p | p in pds' ensures pds'[p].record.qpCount == |QpsOfPd(qps', p)| { QpsOfPdAdd(s.qps, id, o, p); }
    SameChildren(s, pds', cqs');
    AddQpParent(s, pds', cqs', id, o);
  }

  lemma AddQpParent(s: Control, pds: map<nat, Owned<PdRecord>>, cqs: map<nat, Owned<CqRecord>>, id: nat, o: Owned<QpRecord>)
    requires QpParents(pds, cqs, s.qps) && QpParentOk(s.pds, s.cqs, o) && SamePds(s.pds, pds) && SameCqs(s.cqs, cqs)
    ensures QpParents(pds, cqs, s.qps[id := o])
  {
    assert QpParentOk(pds, cqs, o);
    hide QpParentOk;
  }

  lemma QpCountPd(s: Control, pd: nat, n: nat)
    requires MrRelation(s.pds, s.mrs) && pd in s.pds
    ensures MrRelation(Put(s.pds, pd, s.pds[pd].record.(qpCount := n)), s.mrs)
  {
    var pds' := Put(s.pds, pd, s.pds[pd].record.(qpCount := n));
    forall id | id in s.mrs ensures MrIndexed(pds', id, s.mrs[id]) { assert MrIndexed(s.pds, id, s.mrs[id]); }
    forall p | p in pds' ensures IndexSound(s.mrs, p, pds'[p]) { assert IndexSound(s.mrs, p, s.pds[p]); }
    hide MrIndexed, IndexSound;
  }

  /** Destroying a live queue pair never fails. */
  lemma DestroyQpKeeps(s: Control, session: nat, shaped: bool, id: nat)
    requires Inv(s)
    ensures Inv(DestroyQp(s, session, shaped, id).s)
    ensures DestroyQp(s, session, shaped, id).status == 0 <==> shaped && Lookup(s.qps, session, id).Some?
  {
    hide QpParents, ContextParents, MrRelation, QpIndexed, QpStates, PdCounts, CqCounts, ContextCounts, KeysDistinct,
      DropReference;
    if id in s.qps { QpHasParents(s, id); }
    var s' := DestroyQp(s, session, shaped, id).s;
    if s' != s {
      DropQp(s, id);
      DropQpIndex(s.qps, s.qpIndex, s.nextQpNum, id);
      QpCountPd(s, s.qps[id].record.pd, s.pds[s.qps[id].record.pd].record.qpCount - 1);
    }
  }

  lemma QpHasParents(s: Control, id: nat)
    requires CqCounts(s.cqs, s.qps) && QpParents(s.pds, s.cqs, s.qps) && PdCounts(s.pds, s.qps) && id in s.qps
    ensures QpParentOk(s.pds, s.cqs, s.qps[id])
    ensures s.pds[s.qps[id].record.pd].record.qpCount != 0
    ensures s.cqs[s.qps[id].record.sendCq].record.qpReferences != 0 && s.cqs[s.qps[id].record.recvCq].record.qpReferences != 0
  {
    var qp := s.qps[id].record;
    QpsOfPdNone(s.qps, id, qp.pd);
    QpsOfCqNone(s.qps, id, qp.sendCq);
    QpsOfCqNone(s.qps, id, qp.recvCq);
  }

  lemma DropQp(s: Control, id: nat)
    requires CqCounts(s.cqs, s.qps) && QpParents(s.pds, s.cqs, s.qps) && PdCounts(s.pds, s.qps) && id in s.qps
    requires ContextCounts(s.contexts, s.pds, s.cqs) && ContextParents(s.contexts, s.pds, s.cqs) && QpStates(s.qps)
    requires QpParentOk(s.pds, s.cqs, s.qps[id]) && s.pds[s.qps[id].record.pd].record.qpCount != 0
    requires s.cqs[s.qps[id].record.sendCq].record.qpReferences != 0 && s.cqs[s.qps[id].record.recvCq].record.qpReferences != 0
    ensures var qp := s.qps[id].record; var d := s.pds[qp.pd].record;
            var cqs' := DropReference(s.cqs, qp.sendCq, qp.recvCq);
            var pds' := Put(s.pds, qp.pd, d.(qpCount := d.qpCount - 1));
            && CqCounts(cqs', s.qps - {id}) && PdCounts(pds', s.qps - {id})
            && QpParents(pds', cqs', s.qps - {id}) && QpStates(s.qps - {id})
            && ContextCounts(s.contexts, pds', cqs') && ContextParents(s.contexts, pds', cqs')
  {
    hide QpsOfCq, QpsOfPd, ContextCounts, ContextParents, QpParents, DropReference, QpStates;
    var qp := s.qps[id].record;
    var qps', cqs' := s.qps - {id}, DropReference(s.cqs, qp.sendCq, qp.recvCq);
    var d := s.pds[qp.pd].record;
    var pds' := Put(s.pds, qp.pd, d.(qpCount := d.qpCount - 1));
    ReferencesDropped(s.cqs, qp.sendCq, qp.recvCq);
    forall q | q in cqs' ensures cqs'[q].record.qpReferences == |QpsOfCq(qps', q)| { QpsOfCqDrop(s.qps, id, q); }
    forall p | p in pds' ensures pds'[p].record.qpCount == |QpsOfPd(qps', p)| { QpsOfPdDrop(s.qps, id, p); }
    SameChildren(s, pds', cqs');
    FewerQps(pds', cqs', s.qps, id);
  }

  lemma FewerQps(pds: map<nat, Owned<PdRecord>>, cqs: map<nat, Owned<CqRecord>>, qps: map<nat, Owned<QpRecord>>, id: nat)
    requires QpParents(pds, cqs, qps) && QpStates(qps)
    ensures QpParents(pds, cqs, qps - {id}) && QpStates(qps - {id})
  {
    hide QpParentOk, QpStateOk;
  }

  lemma DropQpIndex(qps: map<nat, Owned<QpRecord>>, index: map<nat, nat>, n: nat, id: nat)
    requires QpIndexed(qps, index, n) && id in qps
    ensures QpIndexed(qps - {id}, index - {qps[id].record.qpNum}, n)
  {
  }

  // ----- queue pair states

  /** The moves a queue pair may make, its number and its parents staying the same. */
  predicate Move(a: QpRecord, b: QpRecord) {
    && b.qpNum == a.qpNum && b.pd == a.pd && b.sendCq == a.sendCq && b.recvCq == a.recvCq && b.context == a.context
    && (a == b
        || (a.state == RESET && b.state == INIT && b.peerQpNum == a.peerQpNum && b.retry == a.retry)
        || (a.state == INIT && b.state == RTS && b.peerQpNum != 0)
        || (a.state != ERR && b.state == ERR && b.peerQpNum == a.peerQpNum && b.retry == a.retry))
  }

  lemma SwapQp(s: Control, id: nat, r: QpRecord)
    requires Inv(s) && id in s.qps && QpStateOk(r) && Move(s.qps[id].record, r)
    ensures Inv(s.(qps := Put(s.qps, id, r)))
  {
    hide ContextParents, MrRelation, ContextCounts, KeysDistinct;
    var qps' := Put(s.qps, id, r);
    SwapQpCounts(s, id, r);
    SwapQpRest(s, id, r);
    hide QpParents, QpIndexed, QpStates, PdCounts, CqCounts;
  }

  lemma SwapQpCounts(s: Control, id: nat, r: QpRecord)
    requires id in s.qps && Move(s.qps[id].record, r) && PdCounts(s.pds, s.qps) && CqCounts(s.cqs, s.qps)
    ensures PdCounts(s.pds, Put(s.qps, id, r)) && CqCounts(s.cqs, Put(s.qps, id, r))
  {
    var qps' := Put(s.qps, id, r);
    forall p | p in s.pds ensures QpsOfPd(qps', p) == QpsOfPd(s.qps, p) { }
    forall q | q in s.cqs ensures QpsOfCq(qps', q) == QpsOfCq(s.qps, q) { }
  }

  lemma SwapQpRest(s: Control, id: nat, r: QpRecord)
    requires id in s.qps && Move(s.qps[id].record, r) && QpStateOk(r)
    requires QpParents(s.pds, s.cqs, s.qps) && QpIndexed(s.qps, s.qpIndex, s.nextQpNum) && QpStates(s.qps)
    ensures QpParents(s.pds, s.cqs, Put(s.qps, id, r)) && QpIndexed(Put(s.qps, id, r), s.qpIndex, s.nextQpNum)
    ensures QpStates(Put(s.qps, id, r))
  {
    hide QpStateOk;
  }

  /** Only the record of this queue pair changed, by a legal move. */
  predicate Moved(s: Control, s': Control, session: nat, id: nat) {
    && id in s.qps && id in s'.qps && s.qps[id].owner == session
    && s' == s.(qps := Put(s.qps, id, s'.qps[id].record)) && Move(s.qps[id].record, s'.qps[id].record)
    && QpStateOk(s'.qps[id].record)
  }

  /** modify_qp makes a legal move, and on success the state is the one asked for. */
  lemma ModifyQpMoves(s: Control, session: nat, shaped: bool, id: nat, payload: Payload<QpModify>)
    requires QpStates(s.qps)
    ensures var a := ModifyQp(s, session, shaped, id, payload);
            && (a.status != 0 ==> a.s == s)
            && (a.status == 0 ==>
                  && Moved(s, a.s, session, id)
                  && payload.Decoded? && payload.value.mask.state && a.s.qps[id].record.state == payload.value.state)
  {
    if id in s.qps { assert QpStateOk(s.qps[id].record); }
    hide QpStates;
  }

  /** connect_qp moves INIT to RTS with a peer that is live at that moment. */
  lemma ConnectQpMoves(s: Control, session: nat, shaped: bool, id: nat, payload: Payload<QpConnect>)
    requires QpStates(s.qps) && QpIndexed(s.qps, s.qpIndex, s.nextQpNum)
    ensures var a := ConnectQp(s, session, shaped, id, payload);
            && (a.status != 0 ==> a.s == s)
            && (a.status == 0 ==>
                  && Moved(s, a.s, session, id) && payload.Decoded?
                  && a.s.qps[id].record.state == RTS && a.s.qps[id].record.peerQpNum == payload.value.remoteQpNum
                  && s.qps[id].record.state == INIT && a.s.qps[id].record.peer in s.qps
                  && s.qps[a.s.qps[id].record.peer].record.qpNum == payload.value.remoteQpNum)
  {
    if id in s.qps { assert QpStateOk(s.qps[id].record); }
    if payload.Decoded? && payload.value.remoteQpNum in s.qpIndex {
      assert s.qps[s.qpIndex[payload.value.remoteQpNum]].record.qpNum == payload.value.remoteQpNum;
    }
    hide QpStates, QpIndexed;
  }

  lemma MovedKeeps(s: Control, s': Control, session: nat, id: nat)
    requires Inv(s) && Moved(s, s', session, id)
    ensures Inv(s')
  {
    hide Inv, Move, QpStateOk;
    SwapQp(s, id, s'.qps[id].record);
  }
}
