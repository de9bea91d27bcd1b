/** What the control plane's invariant means for every state of every run. */
module ControlTheorems {
  import opened Common
  import Registry
  import opened ControlPlane
  import opened ControlInv
  import opened ControlKeeps
  import opened ControlRuns

  /**
    Exact reference counts, across all requests and disconnects: each count is
    the number of live children, a completion queue used in both directions is
    counted once, the number index holds exactly the live queue pairs, no live
    object names a dead parent, and the mappings held are those of live regions.
   */
  lemma ReferenceCountsAreExact(ws: seq<World>, actions: seq<Action>, t: nat)
    requires IsRun(ws, actions) && t < |ws|
    ensures var s := ws[t].s;
            && (forall c :: c in s.contexts ==> s.contexts[c].record.childCount == |PdsOf(s.pds, c)| + |CqsOf(s.cqs, c)|)
            && (forall p :: p in s.pds ==> s.pds[p].record.qpCount == |QpsOfPd(s.qps, p)|)
            && (forall q :: q in s.cqs ==> s.cqs[q].record.qpReferences == |QpsOfCq(s.qps, q)|)
            && (forall p :: p in s.pds ==> s.pds[p].record.context in s.contexts)
            && (forall q :: q in s.cqs ==> s.cqs[q].record.context in s.contexts)
            && (forall id :: id in s.qps ==> QpParentOk(s.pds, s.cqs, s.qps[id]))
            && (forall id :: id in s.mrs ==> s.mrs[id].record.pd in s.pds && id in s.pds[s.mrs[id].record.pd].record.mrs)
            && (forall id :: id in s.qps ==> s.qps[id].record.qpNum in s.qpIndex && s.qpIndex[s.qps[id].record.qpNum] == id)
            && (forall n :: n in s.qpIndex ==> s.qpIndex[n] in s.qps && s.qps[s.qpIndex[n]].record.qpNum == n)
            && s.heldMappings == |s.mrs|
  {
    RunKeeps(ws, actions, t);
    hide PdsOf, CqsOf, QpsOfPd, QpsOfCq, QpParentOk, KeysDistinct, QpStates, IsRun, AllIssued;
    MrsHavePds(ws[t].s);
  }

  lemma MrsHavePds(s: Control)
    requires MrsIndexed(s.pds, s.mrs)
    ensures forall id :: id in s.mrs ==> s.mrs[id].record.pd in s.pds && id in s.pds[s.mrs[id].record.pd].record.mrs
  {
    forall id | id in s.mrs ensures s.mrs[id].record.pd in s.pds && id in s.pds[s.mrs[id].record.pd].record.mrs {
      assert MrIndexed(s.pds, id, s.mrs[id]);
    }
  }

  // ----- keys

  /** The region a scan of all live regions finds for a key of a domain. */
  predicate Names(s: Control, session: nat, pd: nat, key: nat, remote: bool, id: nat) {
    && id in s.mrs && s.mrs[id].owner == session && s.mrs[id].record.pd == pd
    && key == (if remote then s.mrs[id].record.rkey else s.mrs[id].record.lkey)
  }

  /** At most one live region has a key. */
  lemma OneRegionPerKey(s: Control, session: nat, pd: nat, key: nat, remote: bool, i: nat, j: nat)
    requires KeysDistinct(s.mrs, s.nextKey) && Names(s, session, pd, key, remote, i) && Names(s, session, pd, key, remote, j)
    ensures i == j
  {
  }

  lemma IndexFinds(s: Control, session: nat, pd: nat, key: nat, remote: bool, id: nat)
    requires MrRelation(s.pds, s.mrs)
    ensures Names(s, session, pd, key, remote, id) ==>
              && Lookup(s.pds, session, pd).Some?
              && (var index := if remote then s.pds[pd].record.remoteKeys else s.pds[pd].record.localKeys;
                  key in index && index[key] == id)
    ensures Lookup(s.pds, session, pd).Some? ==>
              (var index := if remote then s.pds[pd].record.remoteKeys else s.pds[pd].record.localKeys;
               key in index ==> Names(s, session, pd, key, remote, index[key]))
  {
    hide MrsIndexed, IndicesSound;
    if Names(s, session, pd, key, remote, id) { IndexedAt(s, id); }
    if Lookup(s.pds, session, pd).Some? {
      SoundAt(s, pd);
      var index := if remote then s.pds[pd].record.remoteKeys else s.pds[pd].record.localKeys;
      if key in index { IndexedAt(s, index[key]); }
    }
  }

  lemma IndexedAt(s: Control, id: nat)
    requires MrsIndexed(s.pds, s.mrs) && id in s.mrs
    ensures MrIndexed(s.pds, id, s.mrs[id])
  {
  }

  lemma SoundAt(s: Control, p: nat)
    requires IndicesSound(s.pds, s.mrs) && p in s.pds
    ensures IndexSound(s.mrs, p, s.pds[p])
  {
  }

  /**
    Key index refinement: resolving a key through the domain's index answers as
    scanning all live regions of the domain does.
   */
  lemma ResolveKeyIsScan(s: Control, session: nat, pd: nat, key: nat, address: nat, length: nat, remote: bool)
    requires Inv(s) && key != 0 && length != 0
    ensures forall id :: Names(s, session, pd, key, remote, id) ==>
              ResolveKey(s, session, pd, key, address, length, remote) == Translate(s.mrs[id].record, address, length, remote)
    ensures (forall id :: !Names(s, session, pd, key, remote, id)) ==>
              ResolveKey(s, session, pd, key, address, length, remote) == Refused(EINVAL)
    ensures forall i, j :: Names(s, session, pd, key, remote, i) && Names(s, session, pd, key, remote, j) ==> i == j
  {
    hide ContextCounts, PdCounts, CqCounts, ContextParents, QpParents, MrRelation, KeysDistinct, QpIndexed, QpStates, Translate;
    forall i, j | Names(s, session, pd, key, remote, i) && Names(s, session, pd, key, remote, j) ensures i == j {
      OneRegionPerKey(s, session, pd, key, remote, i, j);
    }
    forall id | Names(s, session, pd, key, remote, id)
      ensures ResolveKey(s, session, pd, key, address, length, remote) == Translate(s.mrs[id].record, address, length, remote)
    {
      IndexFinds(s, session, pd, key, remote, id);
    }
    IndexFinds(s, session, pd, key, remote, 0);
  }

  /**
    A translation maps the whole requested range inside the region's daemon
    range, when and only when it fits; remotely only for a region with the
    remote write bit, which is otherwise refused with 13 (EACCES), and 22
    (EINVAL) refuses whatever does not fit.
   */
  lemma TranslateInsideRegion(mr: MrRecord, address: nat, length: nat, remote: bool)
    ensures Translate(mr, address, length, remote) == Refused(13) <==> remote && mr.access / 2 % 2 == 0
    ensures Translate(mr, address, length, remote).Refused? ==> Translate(mr, address, length, remote).status in {13, 22}
    ensures Translate(mr, address, length, remote).Address? <==>
              && (remote ==> mr.access / 2 % 2 == 1)
              && mr.clientAddress <= address && address + length <= mr.clientAddress + mr.length
              && address + length <= U64_MAX && mr.clientAddress + mr.length <= U64_MAX
              && mr.daemonAddress + (address - mr.clientAddress) <= U64_MAX
    ensures Translate(mr, address, length, remote).Address? ==>
              var d := Translate(mr, address, length, remote).daemon;
              && d - mr.daemonAddress == address - mr.clientAddress
              && mr.daemonAddress <= d && d + length <= mr.daemonAddress + mr.length
  {
  }

  /**
    The end of a translated range is not checked against 64 bits: all of them
    fit exactly when the region's daemon range does.
   */
  lemma DaemonRangesFit(mr: MrRecord)
    requires mr.clientAddress + mr.length <= U64_MAX && mr.daemonAddress <= U64_MAX
    ensures (forall address, length, remote :: Translate(mr, address, length, remote).Address? ==>
               Translate(mr, address, length, remote).daemon + length <= U64_MAX + 1)
            <==> mr.daemonAddress + mr.length <= U64_MAX + 1
  {
    forall address, length, remote | Translate(mr, address, length, remote).Address?
      ensures Translate(mr, address, length, remote).daemon + length <= mr.daemonAddress + mr.length
    {
      TranslateInsideRegion(mr, address, length, remote);
    }
    TranslateInsideRegion(mr, mr.clientAddress, mr.length, false);
  }

  /**
    Such a region can be registered: after context 1 and domain 2, region 3 is
    registered with a mapping that opened at the end of the address space, and
    its key resolves to a range that ends beyond 64 bits.
   */
  lemma WrappingRegionExample() returns (ws: seq<World>, actions: seq<Action>)
    ensures IsRun(ws, actions) && |ws| == 4
    ensures 3 in ws[3].s.mrs && ws[3].s.mrs[3].record.daemonAddress + ws[3].s.mrs[3].record.length > U64_MAX + 1
    ensures ResolveKey(ws[3].s, 1, 2, 1, 4096, 4096, false) == Address(U64_MAX)
  {
    actions := [Call(1, true, DoCreateContext(1, true, Some(1))), Call(1, true, DoCreatePd(1, Some(2))),
                Call(1, true, DoRegisterMr(1, 2, Decoded(Memory(4096, 4096, 4096, 0)), Mapped(U64_MAX, true), Some(3)))];
    var w0 := World(InitialControl, {});
    var w1 := Step(w0, actions[0]);
    var w2 := Step(w1, actions[1]);
    ws := [w0, w1, w2, Step(w2, actions[2])];
  }

  /** The keys a registration handed out, if it succeeded. */
  function KeysGiven(w: World, a: Action): Option<nat> {
    if a.Call? && a.request.DoRegisterMr? && Handle(w.s, a.session, a.shaped, a.request).status == 0
    then Some(w.s.nextKey) else None
  }

  lemma {:induction false} KeysAdvanceAlong(ws: seq<World>, actions: seq<Action>, t: nat, u: nat)
    requires IsRun(ws, actions) && t <= u < |ws|
    ensures ws[t].s.nextKey <= ws[u].s.nextKey
    decreases u
  {
    hide Inv, AllIssued, Step, Enabled, QpsEvolve;
    if t < u {
      KeysAdvanceAlong(ws, actions, t, u - 1);
      RunKeeps(ws, actions, u - 1);
      assert ws[u - 1 + 1] == Step(ws[u - 1], actions[u - 1]);
      StepKeeps(ws[u - 1], actions[u - 1]);
    }
  }

  lemma RegistrationUsesNextKeys(w: World, session: nat, shaped: bool, q: Request)
    requires q.DoRegisterMr? && Handle(w.s, session, shaped, q).status == 0
    ensures q.given.Some? && q.given.value in Handle(w.s, session, shaped, q).s.mrs
    ensures var mr := Handle(w.s, session, shaped, q).s.mrs[q.given.value].record;
            mr.lkey == w.s.nextKey && mr.rkey == w.s.nextKey + 1
    ensures Handle(w.s, session, shaped, q).s.nextKey == w.s.nextKey + 2
  {
  }

  /** Keys are never reused: a later registration's keys are greater than any earlier one's. */
  lemma KeysAreNeverReused(ws: seq<World>, actions: seq<Action>, t: nat, u: nat)
    requires IsRun(ws, actions) && t < u < |actions|
    requires KeysGiven(ws[t], actions[t]).Some? && KeysGiven(ws[u], actions[u]).Some?
    ensures KeysGiven(ws[t], actions[t]).value + 1 < KeysGiven(ws[u], actions[u]).value
  {
    var a := actions[t];
    RegistrationUsesNextKeys(ws[t], a.session, a.shaped, a.request);
    KeysAdvanceAlong(ws, actions, t + 1, u);
    hide Handle, Enabled;
    assert ws[t + 1] == Step(ws[t], a);
  }

  // ----- queue pairs over runs

  function StateRank(state: nat): nat { if state == RESET then 0 else if state == INIT then 1 else if state == RTS then 2 else 3 }

  /** What a queue pair keeps: its number and parents, its peer once set; its state only moves on. */
  predicate Later(a: QpRecord, b: QpRecord) {
    && b.qpNum == a.qpNum && b.pd == a.pd && b.sendCq == a.sendCq && b.recvCq == a.recvCq && b.context == a.context
    && StateRank(a.state) <= StateRank(b.state)
    && (a.peerQpNum != 0 ==> b.peerQpNum == a.peerQpNum && b.retry == a.retry)
  }

  lemma MoveIsLater(a: QpRecord, b: QpRecord, c: QpRecord)
    requires Later(a, b) && Move(b, c) && QpStateOk(b)
    ensures Later(a, c)
  {
  }

  /**
    Over any run a queue pair that is still live moved only forward: RESET,
    INIT, RTS, ERR, with a fixed number and a peer that never changes once set.
   */
  lemma {:induction false} QueuePairsOnlyAdvance(ws: seq<World>, actions: seq<Action>, t: nat, u: nat, id: nat)
    requires IsRun(ws, actions) && t <= u < |ws| && id in ws[t].issued && id in ws[u].s.qps
    ensures id in ws[t].s.qps && Later(ws[t].s.qps[id].record, ws[u].s.qps[id].record)
    decreases u
  {
    hide Later, Move, Step, Enabled, QpStateOk, Inv, AllIssued;
    if t < u {
      RunKeeps(ws, actions, u - 1);
      StatesAt(ws, actions, u - 1);
      IssuedAlong(ws, actions, t, u - 1);
      assert ws[u - 1 + 1] == Step(ws[u - 1], actions[u - 1]);
      StepKeeps(ws[u - 1], actions[u - 1]);
      QueuePairsOnlyAdvance(ws, actions, t, u - 1, id);
      MoveIsLater(ws[t].s.qps[id].record, ws[u - 1].s.qps[id].record, ws[u].s.qps[id].record);
    } else {
      LaterSelf(ws[t].s.qps[id].record);
    }
  }

  lemma LaterSelf(a: QpRecord)
    ensures Later(a, a)
  {
  }

  lemma {:induction false} IssuedAlong(ws: seq<World>, actions: seq<Action>, t: nat, u: nat)
    requires IsRun(ws, actions) && t <= u < |ws|
    ensures ws[t].issued <= ws[u].issued
    decreases u
  {
    hide Handle, Disconnect;
    if t < u { IssuedAlong(ws, actions, t, u - 1); assert ws[u - 1 + 1] == Step(ws[u - 1], actions[u - 1]); }
  }

  /** In every state of a run: one of four states, RTS with a peer, retry attributes in range. */
  lemma StatesAt(ws: seq<World>, actions: seq<Action>, t: nat)
    requires IsRun(ws, actions) && t < |ws|
    ensures forall id :: id in ws[t].s.qps ==> QpStateOk(ws[t].s.qps[id].record)
  {
    RunKeeps(ws, actions, t);
    hide ContextCounts, PdCounts, CqCounts, ContextParents, QpParents, MrRelation, KeysDistinct, QpIndexed, QpStateOk, IsRun;
  }

  /** A worker finds exactly the live queue pairs, each with live completion queues. */
  lemma WorkerFindsLiveQueuePairs(s: Control, n: nat)
    requires Inv(s)
    ensures WorkerQpView(s, n).Some? <==> exists id :: id in s.qps && s.qps[id].record.qpNum == n
    ensures forall id :: id in s.qps && s.qps[id].record.qpNum == n ==>
              WorkerQpView(s, n) == Some((s.qps[id].owner, s.qps[id].record))
  {
    hide ContextCounts, PdCounts, CqCounts, ContextParents, MrRelation, KeysDistinct, QpStates;
    forall id | id in s.qps ensures QpParentOk(s.pds, s.cqs, s.qps[id]) { }
  }
}
