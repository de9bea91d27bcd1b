/** The control plane's invariant, part by part, and that every request and disconnect keeps it. */
module ControlInv {
  import opened Common
  import opened Registry
  import opened ControlPlane

  // ----- who refers to whom

  function PdsOf(pds: map<nat, Owned<PdRecord>>, context: nat): set<nat> {
    set id | id in pds && pds[id].record.context == context
  }

  function CqsOf(cqs: map<nat, Owned<CqRecord>>, context: nat): set<nat> {
    set id | id in cqs && cqs[id].record.context == context
  }

  function QpsOfPd(qps: map<nat, Owned<QpRecord>>, pd: nat): set<nat> {
    set id | id in qps && qps[id].record.pd == pd
  }

  predicate Uses(qp: QpRecord, cq: nat) { qp.sendCq == cq || qp.recvCq == cq }

  function QpsOfCq(qps: map<nat, Owned<QpRecord>>, cq: nat): set<nat> {
    set id | id in qps && Uses(qps[id].record, cq)
  }

  // ----- parts of the invariant

  /** child_count counts the live domains and completion queues of a context. */
  ghost predicate ContextCounts(contexts: map<nat, Owned<ContextRecord>>, pds: map<nat, Owned<PdRecord>>,
                                cqs: map<nat, Owned<CqRecord>>)
  {
    forall c :: c in contexts ==> contexts[c].record.childCount == |PdsOf(pds, c)| + |CqsOf(cqs, c)|
  }

  /** qp_count counts the live queue pairs of a domain. */
  ghost predicate PdCounts(pds: map<nat, Owned<PdRecord>>, qps: map<nat, Owned<QpRecord>>) {
    forall p :: p in pds ==> pds[p].record.qpCount == |QpsOfPd(qps, p)|
  }

  /** qp_references counts the live queue pairs that use a completion queue, each once. */
  ghost predicate CqCounts(cqs: map<nat, Owned<CqRecord>>, qps: map<nat, Owned<QpRecord>>) {
    forall q :: q in cqs ==> cqs[q].record.qpReferences == |QpsOfCq(qps, q)|
  }

  /** Domains and completion queues live inside a live context of the same session. */
  ghost predicate ContextParents(contexts: map<nat, Owned<ContextRecord>>, pds: map<nat, Owned<PdRecord>>,
                                 cqs: map<nat, Owned<CqRecord>>)
  {
    && (forall p :: p in pds ==>
          pds[p].record.context in contexts && contexts[pds[p].record.context].owner == pds[p].owner)
    && (forall q :: q in cqs ==>
          cqs[q].record.context in contexts && contexts[cqs[q].record.context].owner == cqs[q].owner)
  }

  ghost predicate QpParentOk(pds: map<nat, Owned<PdRecord>>, cqs: map<nat, Owned<CqRecord>>, o: Owned<QpRecord>) {
    var qp := o.record;
    && qp.pd in pds && pds[qp.pd].owner == o.owner && pds[qp.pd].record.context == qp.context
    && qp.sendCq in cqs && cqs[qp.sendCq].owner == o.owner && cqs[qp.sendCq].record.context == qp.context
    && qp.recvCq in cqs && cqs[qp.recvCq].owner == o.owner && cqs[qp.recvCq].record.context == qp.context
  }

  /** Queue pairs name a live domain and live completion queues of the same session and context. */
  ghost predicate QpParents(pds: map<nat, Owned<PdRecord>>, cqs: map<nat, Owned<CqRecord>>, qps: map<nat, Owned<QpRecord>>) {
    forall id :: id in qps ==> QpParentOk(pds, cqs, qps[id])
  }

  ghost predicate MrIndexed(pds: map<nat, Owned<PdRecord>>, id: nat, o: Owned<MrRecord>) {
    var mr := o.record;
    && mr.pd in pds && pds[mr.pd].owner == o.owner && pds[mr.pd].record.context == mr.context
    && id in pds[mr.pd].record.mrs
    && mr.lkey in pds[mr.pd].record.localKeys && pds[mr.pd].record.localKeys[mr.lkey] == id
    && mr.rkey in pds[mr.pd].record.remoteKeys && pds[mr.pd].record.remoteKeys[mr.rkey] == id
  }

  ghost predicate IndexSound(mrs: map<nat, Owned<MrRecord>>, p: nat, o: Owned<PdRecord>) {
    && (forall id :: id in o.record.mrs ==> id in mrs && mrs[id].record.pd == p)
    && (forall k :: k in o.record.localKeys ==>
          var id := o.record.localKeys[k]; id in mrs && mrs[id].record.pd == p && mrs[id].record.lkey == k)
    && (forall k :: k in o.record.remoteKeys ==>
          var id := o.record.remoteKeys[k]; id in mrs && mrs[id].record.pd == p && mrs[id].record.rkey == k)
  }

  /** Each domain's region set and key indices hold exactly its live regions. */
  ghost predicate MrRelation(pds: map<nat, Owned<PdRecord>>, mrs: map<nat, Owned<MrRecord>>) {
    MrsIndexed(pds, mrs) && IndicesSound(pds, mrs)
  }

  ghost predicate MrsIndexed(pds: map<nat, Owned<PdRecord>>, mrs: map<nat, Owned<MrRecord>>) {
    forall id :: id in mrs ==> MrIndexed(pds, id, mrs[id])
  }

  ghost predicate IndicesSound(pds: map<nat, Owned<PdRecord>>, mrs: map<nat, Owned<MrRecord>>) {
    forall p :: p in pds ==> IndexSound(mrs, p, pds[p])
  }

  /** Keys in use were handed out before, come in pairs, and no two regions share one; access is none, local or local and remote. */
  ghost predicate KeysDistinct(mrs: map<nat, Owned<MrRecord>>, nextKey: nat) {
    && nextKey % 2 == 1
    && (forall id :: id in mrs ==>
          && 0 < mrs[id].record.lkey && mrs[id].record.rkey == mrs[id].record.lkey + 1 < nextKey
          && mrs[id].record.lkey % 2 == 1 && mrs[id].record.workReferences == 0
          && (mrs[id].record.access == 0 || mrs[id].record.access == 1 || mrs[id].record.access == 3))
    && (forall i, j :: i in mrs && j in mrs && i != j ==> mrs[i].record.lkey != mrs[j].record.lkey)
  }

  /** Numbers handed out so far are below this one. */
  function NumLimit(nextQpNum: nat): nat { if nextQpNum == 0 then 0x1_0000_0000 else nextQpNum }

  /** qp_num_index_ holds exactly the live queue pairs. */
  ghost predicate QpIndexed(qps: map<nat, Owned<QpRecord>>, index: map<nat, nat>, nextQpNum: nat) {
    && nextQpNum < 0x1_0000_0000
    && (forall id :: id in qps ==>
          && 0 < qps[id].record.qpNum < NumLimit(nextQpNum)
          && qps[id].record.qpNum in index && index[qps[id].record.qpNum] == id)
    && (forall n :: n in index ==> index[n] in qps && qps[index[n]].record.qpNum == n)
  }

  /** A queue pair is in one of four states; a peer is set exactly when it was connected. */
  predicate QpStateOk(qp: QpRecord) {
    && (qp.state == RESET || qp.state == INIT || qp.state == RTS || qp.state == ERR)
    && (qp.state == RTS ==> qp.peerQpNum != 0)
    && (qp.state == RESET || qp.state == INIT ==> qp.peerQpNum == 0)
    && ValidRetry(qp.retry)
  }

  ghost predicate QpStates(qps: map<nat, Owned<QpRecord>>) {
    forall id :: id in qps ==> QpStateOk(qps[id].record)
  }

  ghost predicate Inv(s: Control) {
    && ContextCounts(s.contexts, s.pds, s.cqs)
    && PdCounts(s.pds, s.qps)
    && CqCounts(s.cqs, s.qps)
    && ContextParents(s.contexts, s.pds, s.cqs)
    && QpParents(s.pds, s.cqs, s.qps)
    && MrRelation(s.pds, s.mrs)
    && KeysDistinct(s.mrs, s.nextKey)
    && QpIndexed(s.qps, s.qpIndex, s.nextQpNum)
    && QpStates(s.qps)
    && s.heldMappings == |s.mrs|
  }

  lemma QpsWellFormed(s: Control)
    requires Inv(s)
    ensures QpStates(s.qps) && QpIndexed(s.qps, s.qpIndex, s.nextQpNum)
  {
    hide QpStates, QpIndexed, ContextCounts, PdCounts, CqCounts, ContextParents, QpParents, MrRelation, KeysDistinct;
  }

  // ----- the parts depend on few fields

  /** The same identities with the same owner and the same context. */
  ghost predicate SamePds(a: map<nat, Owned<PdRecord>>, b: map<nat, Owned<PdRecord>>) {
    a.Keys == b.Keys && forall p :: p in a ==> a[p].owner == b[p].owner && a[p].record.context == b[p].record.context
  }

  ghost predicate SameCqs(a: map<nat, Owned<CqRecord>>, b: map<nat, Owned<CqRecord>>) {
    a.Keys == b.Keys && forall q :: q in a ==> a[q].owner == b[q].owner && a[q].record.context == b[q].record.context
  }

  lemma SameChildren(s: Control, pds: map<nat, Owned<PdRecord>>, cqs: map<nat, Owned<CqRecord>>)
    requires SamePds(s.pds, pds) && SameCqs(s.cqs, cqs)
    requires ContextCounts(s.contexts, s.pds, s.cqs) && ContextParents(s.contexts, s.pds, s.cqs)
    requires QpParents(s.pds, s.cqs, s.qps)
    ensures ContextCounts(s.contexts, pds, cqs) && ContextParents(s.contexts, pds, cqs) && QpParents(pds, cqs, s.qps)
  {
    forall c | c in s.contexts ensures PdsOf(pds, c) == PdsOf(s.pds, c) && CqsOf(cqs, c) == CqsOf(s.cqs, c) { }
  }

  // ----- counting

  lemma PdsOfAdd(m: map<nat, Owned<PdRecord>>, id: nat, o: Owned<PdRecord>, context: nat)
    requires id !in m
    ensures |PdsOf(m[id := o], context)| == |PdsOf(m, context)| + (if o.record.context == context then 1 else 0)
  {
    assert PdsOf(m[id := o], context) == PdsOf(m, context) + (if o.record.context == context then {id} else {});
  }

  lemma PdsOfDrop(m: map<nat, Owned<PdRecord>>, id: nat, context: nat)
    requires id in m
    ensures |PdsOf(m - {id}, context)| == |PdsOf(m, context)| - (if m[id].record.context == context then 1 else 0)
  {
    assert PdsOf(m - {id}, context) == PdsOf(m, context) - {id};
    assert id in PdsOf(m, context) <==> m[id].record.context == context;
  }

  lemma PdsOfNone(m: map<nat, Owned<PdRecord>>, id: nat, context: nat)
    requires id in m && m[id].record.context == context
    ensures |PdsOf(m, context)| != 0
  {
    assert id in PdsOf(m, context);
  }

  lemma CqsOfAdd(m: map<nat, Owned<CqRecord>>, id: nat, o: Owned<CqRecord>, context: nat)
    requires id !in m
    ensures |CqsOf(m[id := o], context)| == |CqsOf(m, context)| + (if o.record.context == context then 1 else 0)
  {
    assert CqsOf(m[id := o], context) == CqsOf(m, context) + (if o.record.context == context then {id} else {});
  }

  lemma CqsOfDrop(m: map<nat, Owned<CqRecord>>, id: nat, context: nat)
    requires id in m
    ensures |CqsOf(m - {id}, context)| == |CqsOf(m, context)| - (if m[id].record.context == context then 1 else 0)
  {
    assert CqsOf(m - {id}, context) == CqsOf(m, context) - {id};
    assert id in CqsOf(m, context) <==> m[id].record.context == context;
  }

  lemma CqsOfNone(m: map<nat, Owned<CqRecord>>, id: nat, context: nat)
    requires id in m && m[id].record.context == context
    ensures |CqsOf(m, context)| != 0
  {
    assert id in CqsOf(m, context);
  }

  lemma QpsOfPdAdd(m: map<nat, Owned<QpRecord>>, id: nat, o: Owned<QpRecord>, pd: nat)
    requires id !in m
    ensures |QpsOfPd(m[id := o], pd)| == |QpsOfPd(m, pd)| + (if o.record.pd == pd then 1 else 0)
  {
    assert QpsOfPd(m[id := o], pd) == QpsOfPd(m, pd) + (if o.record.pd == pd then {id} else {});
  }

  lemma QpsOfPdDrop(m: map<nat, Owned<QpRecord>>, id: nat, pd: nat)
    requires id in m
    ensures |QpsOfPd(m - {id}, pd)| == |QpsOfPd(m, pd)| - (if m[id].record.pd == pd then 1 else 0)
  {
    assert QpsOfPd(m - {id}, pd) == QpsOfPd(m, pd) - {id};
    assert id in QpsOfPd(m, pd) <==> m[id].record.pd == pd;
  }

  lemma QpsOfPdNone(m: map<nat, Owned<QpRecord>>, id: nat, pd: nat)
    requires id in m && m[id].record.pd == pd
    ensures |QpsOfPd(m, pd)| != 0
  {
    assert id in QpsOfPd(m, pd);
  }

  lemma QpsOfCqAdd(m: map<nat, Owned<QpRecord>>, id: nat, o: Owned<QpRecord>, cq: nat)
    requires id !in m
    ensures |QpsOfCq(m[id := o], cq)| == |QpsOfCq(m, cq)| + (if Uses(o.record, cq) then 1 else 0)
  {
    assert QpsOfCq(m[id := o], cq) == QpsOfCq(m, cq) + (if Uses(o.record, cq) then {id} else {});
  }

  lemma QpsOfCqDrop(m: map<nat, Owned<QpRecord>>, id: nat, cq: nat)
    requires id in m
    ensures |QpsOfCq(m - {id}, cq)| == |QpsOfCq(m, cq)| - (if Uses(m[id].record, cq) then 1 else 0)
  {
    assert QpsOfCq(m - {id}, cq) == QpsOfCq(m, cq) - {id};
    assert id in QpsOfCq(m, cq) <==> Uses(m[id].record, cq);
  }

  lemma QpsOfCqNone(m: map<nat, Owned<QpRecord>>, id: nat, cq: nat)
    requires id in m && Uses(m[id].record, cq)
    ensures |QpsOfCq(m, cq)| != 0
  {
    assert id in QpsOfCq(m, cq);
  }

  /** A name that no object uses as its parent has no children. */
  lemma NoOrphans(s: Control, x: nat)
    requires ContextParents(s.contexts, s.pds, s.cqs) && QpParents(s.pds, s.cqs, s.qps)
    ensures x !in s.contexts ==> |PdsOf(s.pds, x)| == 0 && |CqsOf(s.cqs, x)| == 0
    ensures x !in s.pds ==> |QpsOfPd(s.qps, x)| == 0
    ensures x !in s.cqs ==> |QpsOfCq(s.qps, x)| == 0
  {
    if x !in s.contexts { assert PdsOf(s.pds, x) == {} && CqsOf(s.cqs, x) == {}; }
    if x !in s.pds { assert QpsOfPd(s.qps, x) == {}; }
    if x !in s.cqs { assert QpsOfCq(s.qps, x) == {}; }
  }

  // ----- contexts

  lemma CreateContextKeeps(s: Control, session: nat, shaped: bool, device: nat, known: bool, given: Option<nat>)
    requires Inv(s) && (given.Some? ==> given.value !in s.contexts)
    ensures Inv(CreateContext(s, session, shaped, device, known, given).s)
  {
    hide QpParents, MrRelation, KeysDistinct, QpIndexed, QpStates, PdCounts, CqCounts, PdsOf, CqsOf;
    if given.Some? { NoOrphans(s, given.value); }
  }

  lemma DestroyContextKeeps(s: Control, session: nat, shaped: bool, id: nat)
    requires Inv(s)
    ensures Inv(DestroyContext(s, session, shaped, id).s)
  {
    hide ContextCounts, ContextParents, QpParents, MrRelation, KeysDistinct, QpIndexed, QpStates, PdCounts, CqCounts;
    if id in s.contexts && s.contexts[id].record.childCount == 0 { NoChildren(s, id); }
  }

  lemma NoChildren(s: Control, id: nat)
    requires ContextCounts(s.contexts, s.pds, s.cqs) && ContextParents(s.contexts, s.pds, s.cqs)
    requires id in s.contexts && s.contexts[id].record.childCount == 0
    ensures ContextCounts(s.contexts - {id}, s.pds, s.cqs) && ContextParents(s.contexts - {id}, s.pds, s.cqs)
  {
    hide PdsOf, CqsOf;
    forall p | p in s.pds ensures s.pds[p].record.context != id {
      if s.pds[p].record.context == id { PdsOfNone(s.pds, p, id); }
    }
    forall q | q in s.cqs ensures s.cqs[q].record.context != id {
      if s.cqs[q].record.context == id { CqsOfNone(s.cqs, q, id); }
    }
  }

  // ----- protection domains

  lemma CreatePdKeeps(s: Control, session: nat, shaped: bool, context: nat, given: Option<nat>)
    requires Inv(s) && (given.Some? ==> given.value !in s.pds)
    ensures Inv(CreatePd(s, session, shaped, context, given).s)
  {
    hide QpParents, ContextParents, MrRelation, KeysDistinct, QpIndexed, QpStates, PdCounts, CqCounts, ContextCounts;
    var s' := CreatePd(s, session, shaped, context, given).s;
    if s' != s {
      var p, o := given.value, Owned(session, PdRecord(context, {}, map[], map[], 0));
      AddPdCounts(s, s', p, o);
      AddPdParents(s, s', p, o);
      AddPdMrs(s.pds, s.mrs, p, o);
    }
  }

  lemma AddPdCounts(s: Control, s': Control, p: nat, o: Owned<PdRecord>)
    requires ContextCounts(s.contexts, s.pds, s.cqs) && PdCounts(s.pds, s.qps)
    requires ContextParents(s.contexts, s.pds, s.cqs) && QpParents(s.pds, s.cqs, s.qps)
    requires p !in s.pds && o.record.qpCount == 0 && o.record.context in s.contexts
    requires s'.contexts == AddChild(s, o.record.context) && s'.cqs == s.cqs && s'.pds == s.pds[p := o]
    ensures ContextCounts(s'.contexts, s'.pds, s'.cqs) && PdCounts(s'.pds, s.qps)
  {
    hide PdsOf, CqsOf, QpsOfPd, ContextParents, QpParents;
    forall c | c in s'.contexts ensures s'.contexts[c].record.childCount == |PdsOf(s'.pds, c)| + |CqsOf(s'.cqs, c)| {
      PdsOfAdd(s.pds, p, o, c);
    }
    NoOrphans(s, p);
  }

  lemma AddPdParents(s: Control, s': Control, p: nat, o: Owned<PdRecord>)
    requires ContextParents(s.contexts, s.pds, s.cqs) && QpParents(s.pds, s.cqs, s.qps) && p !in s.pds
    requires o.record.context in s.contexts && s.contexts[o.record.context].owner == o.owner
    requires s'.contexts == AddChild(s, o.record.context) && s'.cqs == s.cqs && s'.pds == s.pds[p := o]
    ensures ContextParents(s'.contexts, s'.pds, s'.cqs) && QpParents(s'.pds, s'.cqs, s.qps)
  {
    forall id | id in s.qps ensures QpParentOk(s'.pds, s'.cqs, s.qps[id]) { assert QpParentOk(s.pds, s.cqs, s.qps[id]); }
    hide QpParentOk;
  }

  lemma AddPdMrs(pds: map<nat, Owned<PdRecord>>, mrs: map<nat, Owned<MrRecord>>, p: nat, o: Owned<PdRecord>)
    requires MrRelation(pds, mrs) && p !in pds && o.record.mrs == {} && o.record.localKeys == map[] && o.record.remoteKeys == map[]
    ensures MrRelation(pds[p := o], mrs)
  {
    var pds' := pds[p := o];
    forall id | id in mrs ensures MrIndexed(pds', id, mrs[id]) { assert MrIndexed(pds, id, mrs[id]); }
    forall q | q in pds' ensures IndexSound(mrs, q, pds'[q]) { assert q != p ==> IndexSound(mrs, q, pds[q]); }
    hide MrIndexed, IndexSound;
  }

  /** A domain without regions and queue pairs can always be destroyed. */
  lemma DestroyPdKeeps(s: Control, session: nat, shaped: bool, id: nat)
    requires Inv(s)
    ensures Inv(DestroyPd(s, session, shaped, id).s)
    ensures Lookup(s.pds, session, id).Some? && shaped && s.pds[id].record.mrs == {} && s.pds[id].record.qpCount == 0 ==>
              DestroyPd(s, session, shaped, id).status == 0
  {
    hide QpParents, ContextParents, MrRelation, KeysDistinct, QpIndexed, QpStates, PdCounts, CqCounts, ContextCounts;
    if id in s.pds && s.pds[id].owner == session && s.pds[id].record.mrs == {} && s.pds[id].record.qpCount == 0 {
      ContextOf(s, s.pds[id].owner, s.pds[id].record.context, id);
    }
    var s' := DestroyPd(s, session, shaped, id).s;
    if s' != s {
      DropPdCounts(s, s', id);
      DropPdParents(s, s', id);
      DropPdMrs(s.pds, s.mrs, id);
    }
  }

  lemma ContextOf(s: Control, owner: nat, c: nat, id: nat)
    requires ContextCounts(s.contexts, s.pds, s.cqs) && ContextParents(s.contexts, s.pds, s.cqs)
    requires (id in s.pds && s.pds[id].owner == owner && s.pds[id].record.context == c)
             || (id in s.cqs && s.cqs[id].owner == owner && s.cqs[id].record.context == c)
    ensures c in s.contexts && s.contexts[c].owner == owner && s.contexts[c].record.childCount != 0
  {
    if id in s.pds && s.pds[id].record.context == c { PdsOfNone(s.pds, id, c); }
    if id in s.cqs && s.cqs[id].record.context == c { CqsOfNone(s.cqs, id, c); }
    hide PdsOf, CqsOf;
  }

  lemma DropPdCounts(s: Control, s': Control, id: nat)
    requires ContextCounts(s.contexts, s.pds, s.cqs) && PdCounts(s.pds, s.qps) && id in s.pds
    requires s.pds[id].record.context in s.contexts && s.contexts[s.pds[id].record.context].record.childCount != 0
    requires s'.contexts == DropChild(s, s.pds[id].record.context) && s'.cqs == s.cqs && s'.pds == s.pds - {id}
    ensures ContextCounts(s'.contexts, s'.pds, s'.cqs) && PdCounts(s'.pds, s.qps)
  {
    hide PdsOf, CqsOf, QpsOfPd;
    forall c | c in s'.contexts ensures s'.contexts[c].record.childCount == |PdsOf(s'.pds, c)| + |CqsOf(s'.cqs, c)| {
      PdsOfDrop(s.pds, id, c);
    }
  }

  lemma DropPdParents(s: Control, s': Control, id: nat)
    requires ContextParents(s.contexts, s.pds, s.cqs) && QpParents(s.pds, s.cqs, s.qps) && PdCounts(s.pds, s.qps)
    requires id in s.pds && s.pds[id].record.qpCount == 0 && s.pds[id].record.context in s.contexts
    requires s.contexts[s.pds[id].record.context].record.childCount != 0
    requires s'.contexts == DropChild(s, s.pds[id].record.context) && s'.cqs == s.cqs && s'.pds == s.pds - {id}
    ensures ContextParents(s'.contexts, s'.pds, s'.cqs) && QpParents(s'.pds, s'.cqs, s.qps)
  {
    hide QpsOfPd;
    forall q | q in s.qps ensures QpParentOk(s'.pds, s'.cqs, s.qps[q]) {
      assert QpParentOk(s.pds, s.cqs, s.qps[q]);
      if s.qps[q].record.pd == id { QpsOfPdNone(s.qps, q, id); }
    }
    hide QpParentOk;
  }

  lemma DropPdMrs(pds: map<nat, Owned<PdRecord>>, mrs: map<nat, Owned<MrRecord>>, p: nat)
    requires MrRelation(pds, mrs) && p in pds && pds[p].record.mrs == {}
    ensures MrRelation(pds - {p}, mrs)
  {
    forall id | id in mrs ensures MrIndexed(pds - {p}, id, mrs[id]) { assert MrIndexed(pds, id, mrs[id]); }
    forall q | q in pds - {p} ensures IndexSound(mrs, q, pds[q]) { assert IndexSound(mrs, q, pds[q]); }
    hide MrIndexed, IndexSound;
  }

  // ----- completion queues

  lemma CreateCqKeeps(s: Control, session: nat, shaped: bool, context: nat, cqe: nat, ringStatus: int, given: Option<nat>)
    requires Inv(s) && (given.Some? ==> given.value !in s.cqs)
    ensures Inv(CreateCq(s, session, shaped, context, cqe, ringStatus, given).s)
  {
    hide QpParents, ContextParents, MrRelation, KeysDistinct, QpIndexed, QpStates, PdCounts, CqCounts, ContextCounts;
    var s' := CreateCq(s, session, shaped, context, cqe, ringStatus, given).s;
    if s' != s {
      var o := Owned(session, CqRecord(context, cqe, 0));
      AddCqCounts(s, s', given.value, o);
      AddCqParents(s, s', given.value, o);
    }
  }

  lemma AddCqCounts(s: Control, s': Control, q: nat, o: Owned<CqRecord>)
    requires ContextCounts(s.contexts, s.pds, s.cqs) && CqCounts(s.cqs, s.qps)
    requires ContextParents(s.contexts, s.pds, s.cqs) && QpParents(s.pds, s.cqs, s.qps)
    requires q !in s.cqs && o.record.qpReferences == 0 && o.record.context in s.contexts
    requires s'.contexts == AddChild(s, o.record.context) && s'.pds == s.pds && s'.cqs == s.cqs[q := o]
    ensures ContextCounts(s'.contexts, s'.pds, s'.cqs) && CqCounts(s'.cqs, s.qps)
  {
    hide PdsOf, CqsOf, QpsOfCq, ContextParents, QpParents;
    forall c | c in s'.contexts ensures s'.contexts[c].record.childCount == |PdsOf(s'.pds, c)| + |CqsOf(s'.cqs, c)| {
      CqsOfAdd(s.cqs, q, o, c);
    }
    NoOrphans(s, q);
  }

  lemma AddCqParents(s: Control, s': Control, q: nat, o: Owned<CqRecord>)
    requires ContextParents(s.contexts, s.pds, s.cqs) && QpParents(s.pds, s.cqs, s.qps) && q !in s.cqs
    requires o.record.context in s.contexts && s.contexts[o.record.context].owner == o.owner
    requires s'.contexts == AddChild(s, o.record.context) && s'.pds == s.pds && s'.cqs == s.cqs[q := o]
    ensures ContextParents(s'.contexts, s'.pds, s'.cqs) && QpParents(s'.pds, s'.cqs, s.qps)
  {
    forall id | id in s.qps ensures QpParentOk(s'.pds, s'.cqs, s.qps[id]) { assert QpParentOk(s.pds, s.cqs, s.qps[id]); }
    hide QpParentOk;
  }

  /** A completion queue no queue pair uses can always be destroyed. */
  lemma DestroyCqKeeps(s: Control, session: nat, shaped: bool, id: nat)
    requires Inv(s)
    ensures Inv(DestroyCq(s, session, shaped, id).s)
    ensures Lookup(s.cqs, session, id).Some? && shaped && s.cqs[id].record.qpReferences == 0 ==>
              DestroyCq(s, session, shaped, id).status == 0
  {
    hide QpParents, ContextParents, MrRelation, KeysDistinct, QpIndexed, QpStates, PdCounts, CqCounts, ContextCounts;
    if id in s.cqs && s.cqs[id].owner == session { ContextOf(s, s.cqs[id].owner, s.cqs[id].record.context, id); }
    var s' := DestroyCq(s, session, shaped, id).s;
    if s' != s {
      DropCqCounts(s, s', id);
      DropCqParents(s, s', id);
    }
  }

  lemma DropCqCounts(s: Control, s': Control, id: nat)
    requires ContextCounts(s.contexts, s.pds, s.cqs) && CqCounts(s.cqs, s.qps) && id in s.cqs
    requires s.cqs[id].record.context in s.contexts && s.contexts[s.cqs[id].record.context].record.childCount != 0
    requires s'.contexts == DropChild(s, s.cqs[id].record.context) && s'.pds == s.pds && s'.cqs == s.cqs - {id}
    ensures ContextCounts(s'.contexts, s'.pds, s'.cqs) && CqCounts(s'.cqs, s.qps)
  {
    hide PdsOf, CqsOf, QpsOfCq;
    forall c | c in s'.contexts ensures s'.contexts[c].record.childCount == |PdsOf(s'.pds, c)| + |CqsOf(s'.cqs, c)| {
      CqsOfDrop(s.cqs, id, c);
    }
  }

  lemma DropCqParents(s: Control, s': Control, id: nat)
    requires ContextParents(s.contexts, s.pds, s.cqs) && QpParents(s.pds, s.cqs, s.qps) && CqCounts(s.cqs, s.qps)
    requires id in s.cqs && s.cqs[id].record.qpReferences == 0 && s.cqs[id].record.context in s.contexts
    requires s.contexts[s.cqs[id].record.context].record.childCount != 0
    requires s'.contexts == DropChild(s, s.cqs[id].record.context) && s'.pds == s.pds && s'.cqs == s.cqs - {id}
    ensures ContextParents(s'.contexts, s'.pds, s'.cqs) && QpParents(s'.pds, s'.cqs, s.qps)
  {
    hide QpsOfCq;
    forall q | q in s.qps ensures QpParentOk(s'.pds, s'.cqs, s.qps[q]) {
      assert QpParentOk(s.pds, s.cqs, s.qps[q]);
      if Uses(s.qps[q].record, id) { QpsOfCqNone(s.qps, q, id); }
    }
    hide QpParentOk;
  }
}
