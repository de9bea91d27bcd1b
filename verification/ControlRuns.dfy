/** Disconnects, whole runs of control requests, and what holds in every state of them. */
module ControlRuns {
  import opened Common
  import opened Registry
  import opened ControlPlane
  import opened ControlInv
  import opened ControlKeeps

  // ----- disconnect

  lemma ChildrenStay(s: Control, session: nat, c: nat)
    requires ContextParents(s.contexts, s.pds, s.cqs) && c in s.contexts && s.contexts[c].owner != session
    ensures PdsOf(Without(s.pds, session), c) == PdsOf(s.pds, c) && CqsOf(Without(s.cqs, session), c) == CqsOf(s.cqs, c)
  {
  }

  lemma QpsStay(s: Control, session: nat, x: nat)
    requires QpParents(s.pds, s.cqs, s.qps)
    ensures x in s.pds && s.pds[x].owner != session ==> QpsOfPd(Without(s.qps, session), x) == QpsOfPd(s.qps, x)
    ensures x in s.cqs && s.cqs[x].owner != session ==> QpsOfCq(Without(s.qps, session), x) == QpsOfCq(s.qps, x)
  {
    forall q | q in s.qps ensures QpParentOk(s.pds, s.cqs, s.qps[q]) { }
  }

  lemma DisconnectCounts(s: Control, session: nat)
    requires ContextCounts(s.contexts, s.pds, s.cqs) && ContextParents(s.contexts, s.pds, s.cqs)
    requires PdCounts(s.pds, s.qps) && CqCounts(s.cqs, s.qps) && QpParents(s.pds, s.cqs, s.qps)
    ensures var d := Disconnect(s, session);
            ContextCounts(d.contexts, d.pds, d.cqs) && PdCounts(d.pds, d.qps) && CqCounts(d.cqs, d.qps)
  {
    hide PdsOf, CqsOf, QpsOfPd, QpsOfCq, QpParents, ContextParents;
    var d := Disconnect(s, session);
    forall c | c in d.contexts ensures d.contexts[c].record.childCount == |PdsOf(d.pds, c)| + |CqsOf(d.cqs, c)| {
      ChildrenStay(s, session, c);
    }
    forall p | p in d.pds ensures d.pds[p].record.qpCount == |QpsOfPd(d.qps, p)| { QpsStay(s, session, p); }
    forall q | q in d.cqs ensures d.cqs[q].record.qpReferences == |QpsOfCq(d.qps, q)| { QpsStay(s, session, q); }
  }

  lemma DisconnectParents(s: Control, session: nat)
    requires ContextParents(s.contexts, s.pds, s.cqs) && QpParents(s.pds, s.cqs, s.qps) && QpStates(s.qps)
    ensures var d := Disconnect(s, session);
            ContextParents(d.contexts, d.pds, d.cqs) && QpParents(d.pds, d.cqs, d.qps) && QpStates(d.qps)
  {
    var d := Disconnect(s, session);
    forall id | id in d.qps ensures QpParentOk(d.pds, d.cqs, d.qps[id]) { assert QpParentOk(s.pds, s.cqs, s.qps[id]); }
    hide QpParentOk, QpStateOk;
  }

  lemma DisconnectIndexed(s: Control, session: nat)
    requires MrsIndexed(s.pds, s.mrs)
    ensures MrsIndexed(Without(s.pds, session), Without(s.mrs, session))
  {
    var pds, mrs := Without(s.pds, session), Without(s.mrs, session);
    forall id | id in mrs ensures MrIndexed(pds, id, mrs[id]) { assert MrIndexed(s.pds, id, s.mrs[id]); }
    hide MrIndexed;
  }

  lemma DisconnectSound(s: Control, session: nat)
    requires MrsIndexed(s.pds, s.mrs) && IndicesSound(s.pds, s.mrs)
    ensures IndicesSound(Without(s.pds, session), Without(s.mrs, session))
  {
    hide IndexSound;
    var pds, mrs := Without(s.pds, session), Without(s.mrs, session);
    forall p | p in pds ensures IndexSound(mrs, p, pds[p]) {
      forall id | id in s.mrs && s.mrs[id].record.pd == p ensures id in mrs && mrs[id] == s.mrs[id] {
        assert MrIndexed(s.pds, id, s.mrs[id]);
      }
      SoundOn(s.mrs, mrs, p, s.pds[p]);
    }
  }

  lemma SoundOn(mrs: map<nat, Owned<MrRecord>>, kept: map<nat, Owned<MrRecord>>, p: nat, d: Owned<PdRecord>)
    requires IndexSound(mrs, p, d)
    requires forall id :: id in mrs && mrs[id].record.pd == p ==> id in kept && kept[id] == mrs[id]
    ensures IndexSound(kept, p, d)
  {
  }

  lemma WithoutSize<R>(m: map<nat, Owned<R>>, session: nat)
    ensures |Without(m, session)| == |m| - |OwnedBy(m, session)|
  {
    var kept, gone := Without(m, session).Keys, OwnedBy(m, session);
    assert m.Keys == kept + gone && kept !! gone;
    assert |m| == |m.Keys| && |Without(m, session)| == |kept|;
  }

  lemma DisconnectKeys(mrs: map<nat, Owned<MrRecord>>, nextKey: nat, session: nat)
    requires KeysDistinct(mrs, nextKey)
    ensures KeysDistinct(Without(mrs, session), nextKey)
  {
  }

  lemma DisconnectIndex(s: Control, session: nat)
    requires QpIndexed(s.qps, s.qpIndex, s.nextQpNum)
    ensures QpIndexed(Disconnect(s, session).qps, Disconnect(s, session).qpIndex, s.nextQpNum)
  {
    var gone := set id | id in s.qps && s.qps[id].owner == session :: s.qps[id].record.qpNum;
    forall id | id in s.qps && s.qps[id].owner != session ensures s.qps[id].record.qpNum !in gone { }
    forall n | n in s.qpIndex - gone ensures s.qps[s.qpIndex[n]].owner != session { }
  }

  lemma DisconnectKeeps(s: Control, session: nat)
    requires Inv(s)
    ensures Inv(Disconnect(s, session))
  {
    hide QpParents, ContextParents, MrsIndexed, IndicesSound, QpIndexed, QpStates, PdCounts, CqCounts, ContextCounts,
      KeysDistinct, Without;
    DisconnectCounts(s, session);
    DisconnectParents(s, session);
    DisconnectIndexed(s, session);
    DisconnectSound(s, session);
    WithoutSize(s.mrs, session);
    DisconnectKeys(s.mrs, s.nextKey, session);
    DisconnectIndex(s, session);
  }

  // ----- runs

  datatype Request =
    | DoCreateContext(device: nat, known: bool, given: Option<nat>)
    | DoDestroyContext(id: nat)
    | DoCreatePd(context: nat, given: Option<nat>)
    | DoDestroyPd(id: nat)
    | DoRegisterMr(access: nat, pd: nat, memory: Payload<Memory>, mapping: Opened, given: Option<nat>)
    | DoDeregisterMr(id: nat, closeStatus: int)
    | DoCreateCq(context: nat, cqe: nat, ringStatus: int, given: Option<nat>)
    | DoDestroyCq(id: nat)
    | DoCreateQp(pd: nat, attributes: Payload<QpCreate>, ringStatus: int, given: Option<nat>)
    | DoDestroyQp(id: nat)
    | DoModifyQp(id: nat, change: Payload<QpModify>)
    | DoConnectQp(id: nat, connect: Payload<QpConnect>)
    | DoQuery

  /** A request of a session, well or ill shaped, or the session's disconnect. */
  datatype Action = Call(session: nat, shaped: bool, request: Request) | Leave(session: nat)

  function Handle(s: Control, session: nat, shaped: bool, q: Request): Reply {
    match q
    case DoCreateContext(device, known, given) => CreateContext(s, session, shaped, device, known, given)
    case DoDestroyContext(id) => DestroyContext(s, session, shaped, id)
    case DoCreatePd(context, given) => CreatePd(s, session, shaped, context, given)
    case DoDestroyPd(id) => DestroyPd(s, session, shaped, id)
    case DoRegisterMr(access, pd, memory, mapping, given) =>
      RegisterMr(s, session, shaped, access, pd, memory, mapping, given)
    case DoDeregisterMr(id, closeStatus) => DeregisterMr(s, session, shaped, id, closeStatus)
    case DoCreateCq(context, cqe, ringStatus, given) => CreateCq(s, session, shaped, context, cqe, ringStatus, given)
    case DoDestroyCq(id) => DestroyCq(s, session, shaped, id)
    case DoCreateQp(pd, attributes, ringStatus, given) => CreateQp(s, session, shaped, pd, attributes, ringStatus, given)
    case DoDestroyQp(id) => DestroyQp(s, session, shaped, id)
    case DoModifyQp(id, change) => ModifyQp(s, session, shaped, id, change)
    case DoConnectQp(id, connect) => ConnectQp(s, session, shaped, id, connect)
    case DoQuery => Reply(s, 0, 0)
  }

  function Given(q: Request): Option<nat> {
    match q
    case DoCreateContext(_, _, given) => given
    case DoCreatePd(_, given) => given
    case DoRegisterMr(_, _, _, _, given) => given
    case DoCreateCq(_, _, _, given) => given
    case DoCreateQp(_, _, _, given) => given
    case _ => None
  }

  /** A state and every identity the registries have issued. */
  datatype World = World(s: Control, issued: set<nat>)

  /** Identities are new (Registry.IdentitiesAreNeverReused). */
  predicate Enabled(w: World, a: Action) {
    a.Call? && Given(a.request).Some? ==> Given(a.request).value !in w.issued
  }

  function Step(w: World, a: Action): World {
    match a
    case Call(session, shaped, q) =>
      World(Handle(w.s, session, shaped, q).s, if Given(q).Some? then w.issued + {Given(q).value} else w.issued)
    case Leave(session) => w.(s := Disconnect(w.s, session))
  }

  ghost predicate AllIssued(w: World) {
    && w.s.contexts.Keys <= w.issued && w.s.pds.Keys <= w.issued && w.s.mrs.Keys <= w.issued
    && w.s.cqs.Keys <= w.issued && w.s.qps.Keys <= w.issued
  }

  const InitialControl := Control(map[], map[], map[], map[], map[], map[], 1, 1, 0)

  ghost predicate IsRun(ws: seq<World>, actions: seq<Action>) {
    && |ws| == |actions| + 1 && ws[0] == World(InitialControl, {})
    && (forall t :: 0 <= t < |actions| ==> Enabled(ws[t], actions[t]) && ws[t + 1] == Step(ws[t], actions[t]))
  }

  /** How a request may change the queue pairs: new identity, removal, or one legal move. */
  predicate QpsEvolve(before: map<nat, Owned<QpRecord>>, after: map<nat, Owned<QpRecord>>, issued: set<nat>) {
    forall id :: id in after && id in issued ==>
      id in before && after[id].owner == before[id].owner && Move(before[id].record, after[id].record)
  }

  lemma HandleKeeps(w: World, session: nat, shaped: bool, q: Request)
    requires Inv(w.s) && AllIssued(w) && Enabled(w, Call(session, shaped, q))
    ensures Inv(Handle(w.s, session, shaped, q).s)
  {
    hide Inv, CreateContext, DestroyContext, CreatePd, DestroyPd, RegisterMr, DeregisterMr, CreateCq, DestroyCq, CreateQp,
      DestroyQp, ModifyQp, ConnectQp, QpStates, QpIndexed, Moved;
    QpsWellFormed(w.s);
    match q
    case DoCreateContext(device, known, given) => CreateContextKeeps(w.s, session, shaped, device, known, given);
    case DoDestroyContext(id) => DestroyContextKeeps(w.s, session, shaped, id);
    case DoCreatePd(context, given) => CreatePdKeeps(w.s, session, shaped, context, given);
    case DoDestroyPd(id) => DestroyPdKeeps(w.s, session, shaped, id);
    case DoRegisterMr(access, pd, memory, mapping, given) =>
      RegisterMrKeeps(w.s, session, shaped, access, pd, memory, mapping, given);
    case DoDeregisterMr(id, closeStatus) => DeregisterMrKeeps(w.s, session, shaped, id, closeStatus);
    case DoCreateCq(context, cqe, ringStatus, given) => CreateCqKeeps(w.s, session, shaped, context, cqe, ringStatus, given);
    case DoDestroyCq(id) => DestroyCqKeeps(w.s, session, shaped, id);
    case DoCreateQp(pd, attributes, ringStatus, given) => CreateQpKeeps(w.s, session, shaped, pd, attributes, ringStatus, given);
    case DoDestroyQp(id) => DestroyQpKeeps(w.s, session, shaped, id);
    case DoModifyQp(id, change) =>
      ModifyQpMoves(w.s, session, shaped, id, change);
      var s' := ModifyQp(w.s, session, shaped, id, change).s;
      if s' != w.s { MovedKeeps(w.s, s', session, id); }
    case DoConnectQp(id, connect) =>
      ConnectQpMoves(w.s, session, shaped, id, connect);
      var s' := ConnectQp(w.s, session, shaped, id, connect).s;
      if s' != w.s { MovedKeeps(w.s, s', session, id); }
    case DoQuery =>
  }

  lemma HandleEvolves(w: World, session: nat, shaped: bool, q: Request)
    requires QpStates(w.s.qps) && QpIndexed(w.s.qps, w.s.qpIndex, w.s.nextQpNum)
    requires AllIssued(w) && Enabled(w, Call(session, shaped, q))
    ensures QpsEvolve(w.s.qps, Handle(w.s, session, shaped, q).s.qps, w.issued)
  {
    hide QpStates, QpIndexed, CreateContext, DestroyContext, CreatePd, DestroyPd, RegisterMr, DeregisterMr, CreateCq, DestroyCq,
      ModifyQp, ConnectQp, CreateQp, DestroyQp;
    match q
    case DoModifyQp(id, change) => ModifyQpMoves(w.s, session, shaped, id, change);
    case DoConnectQp(id, connect) => ConnectQpMoves(w.s, session, shaped, id, connect);
    case DoCreateQp(pd, attributes, ringStatus, given) => QpCreated(w.s, session, shaped, pd, attributes, ringStatus, given);
    case DoDestroyQp(id) => QpDestroyed(w.s, session, shaped, id);
    case _ => QpsUntouched(w.s, session, shaped, q);
  }

  lemma QpsUntouched(s: Control, session: nat, shaped: bool, q: Request)
    requires !q.DoCreateQp? && !q.DoDestroyQp? && !q.DoModifyQp? && !q.DoConnectQp?
    ensures Handle(s, session, shaped, q).s.qps == s.qps
  {
  }

  lemma QpCreated(s: Control, session: nat, shaped: bool, pd: nat, attributes: Payload<QpCreate>, ringStatus: int,
                  given: Option<nat>)
    ensures forall id :: id in CreateQp(s, session, shaped, pd, attributes, ringStatus, given).s.qps ==>
              given == Some(id) || (id in s.qps && CreateQp(s, session, shaped, pd, attributes, ringStatus, given).s.qps[id] == s.qps[id])
  {
  }

  lemma QpDestroyed(s: Control, session: nat, shaped: bool, id: nat)
    ensures forall x :: x in DestroyQp(s, session, shaped, id).s.qps ==>
              x in s.qps && DestroyQp(s, session, shaped, id).s.qps[x] == s.qps[x]
  {
  }

  /** The identities of s' are those of s and possibly the given one; keys only advance. */
  predicate Grows(s: Control, s': Control, given: Option<nat>) {
    var added := if given.Some? then {given.value} else {};
    && s'.contexts.Keys <= s.contexts.Keys + added && s'.pds.Keys <= s.pds.Keys + added && s'.mrs.Keys <= s.mrs.Keys + added
    && s'.cqs.Keys <= s.cqs.Keys + added && s'.qps.Keys <= s.qps.Keys + added && s.nextKey <= s'.nextKey
  }

  lemma ObjectsGrow(s: Control, session: nat, shaped: bool, q: Request)
    requires !q.DoCreateQp? && !q.DoDestroyQp? && !q.DoModifyQp? && !q.DoConnectQp? && !q.DoRegisterMr? && !q.DoDeregisterMr?
    ensures Grows(s, Handle(s, session, shaped, q).s, Given(q))
  {
    hide Grows, Handle;
    if q.DoCreateContext? || q.DoDestroyContext? || q.DoQuery? { ContextsGrow(s, session, shaped, q); }
    else if q.DoCreatePd? || q.DoDestroyPd? { PdsGrow(s, session, shaped, q); }
    else { CqsGrow(s, session, shaped, q); }
  }

  lemma ContextsGrow(s: Control, session: nat, shaped: bool, q: Request)
    requires q.DoCreateContext? || q.DoDestroyContext? || q.DoQuery?
    ensures Grows(s, Handle(s, session, shaped, q).s, Given(q))
  {
    hide CreatePd, DestroyPd, CreateCq, DestroyCq, RegisterMr, DeregisterMr, CreateQp, DestroyQp, ModifyQp, ConnectQp;
  }

  lemma PdsGrow(s: Control, session: nat, shaped: bool, q: Request)
    requires q.DoCreatePd? || q.DoDestroyPd?
    ensures Grows(s, Handle(s, session, shaped, q).s, Given(q))
  {
    hide CreateContext, DestroyContext, CreateCq, DestroyCq, RegisterMr, DeregisterMr, CreateQp, DestroyQp, ModifyQp, ConnectQp;
  }

  lemma CqsGrow(s: Control, session: nat, shaped: bool, q: Request)
    requires q.DoCreateCq? || q.DoDestroyCq?
    ensures Grows(s, Handle(s, session, shaped, q).s, Given(q))
  {
    hide CreateContext, DestroyContext, CreatePd, DestroyPd, RegisterMr, DeregisterMr, CreateQp, DestroyQp, ModifyQp, ConnectQp;
  }

  lemma MrsGrow(s: Control, session: nat, shaped: bool, q: Request)
    requires q.DoRegisterMr? || q.DoDeregisterMr?
    ensures Grows(s, Handle(s, session, shaped, q).s, Given(q))
  {
    hide CreateContext, DestroyContext, CreatePd, DestroyPd, CreateCq, DestroyCq, ModifyQp, ConnectQp, CreateQp, DestroyQp,
      RegisterMr, DeregisterMr, Grows;
    match q
    case DoRegisterMr(access, pd, memory, mapping, given) => RegisterGrows(s, session, shaped, access, pd, memory, mapping, given);
    case DoDeregisterMr(id, closeStatus) => DeregisterGrows(s, session, shaped, id, closeStatus);
  }

  lemma RegisterGrows(s: Control, session: nat, shaped: bool, access: nat, pd: nat, memory: Payload<Memory>, mapping: Opened,
                      given: Option<nat>)
    ensures Grows(s, RegisterMr(s, session, shaped, access, pd, memory, mapping, given).s, given)
  {
    hide ValidMemory, ValidAccess;
  }

  lemma DeregisterGrows(s: Control, session: nat, shaped: bool, id: nat, closeStatus: int)
    ensures Grows(s, DeregisterMr(s, session, shaped, id, closeStatus).s, None)
  {
  }

  lemma QpsGrow(s: Control, session: nat, shaped: bool, q: Request)
    requires q.DoCreateQp? || q.DoDestroyQp?
    ensures Grows(s, Handle(s, session, shaped, q).s, Given(q))
  {
    hide CreateContext, DestroyContext, CreatePd, DestroyPd, CreateCq, DestroyCq, ModifyQp, ConnectQp, RegisterMr, DeregisterMr,
      ValidCreate, NextQpNum, AddReference, DropReference;
    ReferencesKeepQueues(s.cqs);
  }

  lemma ReferencesKeepQueues(cqs: map<nat, Owned<CqRecord>>)
    ensures forall a, b :: a in cqs && b in cqs ==> AddReference(cqs, a, b).Keys == cqs.Keys
    ensures forall a, b :: a in cqs && b in cqs && cqs[a].record.qpReferences != 0 && cqs[b].record.qpReferences != 0 ==>
              DropReference(cqs, a, b).Keys == cqs.Keys
  {
  }

  /** A request adds at most the identity it was given. */
  lemma HandleIssues(w: World, session: nat, shaped: bool, q: Request)
    requires AllIssued(w) && QpStates(w.s.qps) && QpIndexed(w.s.qps, w.s.qpIndex, w.s.nextQpNum)
    requires Enabled(w, Call(session, shaped, q))
    ensures AllIssued(Step(w, Call(session, shaped, q)))
    ensures w.s.nextKey <= Handle(w.s, session, shaped, q).s.nextKey
  {
    hide QpStates, QpIndexed, Handle;
    if q.DoModifyQp? || q.DoConnectQp? { MovesGrow(w.s, session, shaped, q); }
    else if q.DoCreateQp? || q.DoDestroyQp? { QpsGrow(w.s, session, shaped, q); }
    else if q.DoRegisterMr? || q.DoDeregisterMr? { MrsGrow(w.s, session, shaped, q); }
    else { ObjectsGrow(w.s, session, shaped, q); }
  }

  lemma MovesGrow(s: Control, session: nat, shaped: bool, q: Request)
    requires QpStates(s.qps) && QpIndexed(s.qps, s.qpIndex, s.nextQpNum) && (q.DoModifyQp? || q.DoConnectQp?)
    ensures Grows(s, Handle(s, session, shaped, q).s, Given(q))
  {
    hide QpStates, QpIndexed, ModifyQp, ConnectQp, Move, QpStateOk;
    if q.DoModifyQp? { ModifyQpMoves(s, session, shaped, q.id, q.change); }
    else { ConnectQpMoves(s, session, shaped, q.id, q.connect); }
  }

  lemma StepKeeps(w: World, a: Action)
    requires Inv(w.s) && AllIssued(w) && Enabled(w, a)
    ensures Inv(Step(w, a).s) && AllIssued(Step(w, a)) && w.issued <= Step(w, a).issued
    ensures QpsEvolve(w.s.qps, Step(w, a).s.qps, w.issued) && w.s.nextKey <= Step(w, a).s.nextKey
  {
    hide Inv, QpStates, QpIndexed, Handle, QpsEvolve, AllIssued;
    QpsWellFormed(w.s);
    match a
    case Call(session, shaped, q) =>
      HandleKeeps(w, session, shaped, q);
      HandleEvolves(w, session, shaped, q);
      HandleIssues(w, session, shaped, q);
    case Leave(session) =>
      DisconnectKeeps(w.s, session);
      DisconnectIssues(w, session);
  }

  lemma DisconnectIssues(w: World, session: nat)
    requires AllIssued(w)
    ensures AllIssued(Step(w, Leave(session))) && QpsEvolve(w.s.qps, Disconnect(w.s, session).qps, w.issued)
  {
  }

  lemma {:induction false} RunKeeps(ws: seq<World>, actions: seq<Action>, t: nat)
    requires IsRun(ws, actions) && t < |ws|
    ensures Inv(ws[t].s) && AllIssued(ws[t])
  {
    if t == 0 {
      InitialKeeps();
    } else {
      RunKeeps(ws, actions, t - 1);
      hide Inv, AllIssued, Step, Enabled, QpsEvolve;
      assert ws[t - 1 + 1] == Step(ws[t - 1], actions[t - 1]);
      StepKeeps(ws[t - 1], actions[t - 1]);
    }
  }

  lemma InitialKeeps()
    ensures Inv(InitialControl) && AllIssued(World(InitialControl, {}))
  {
  }
}
