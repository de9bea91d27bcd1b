/**
  Request ids over whole runs (src/worker/worker.cpp:392-523): the 32-bit
  sequence skips 0, so parent j gets sequence j mod (2^32 - 1) + 1, and the id
  of the next parent is unused in flight exactly when no parent a multiple of
  2^32 - 1 before it is still in flight.
 */
module ProtocolIds {
  import opened Common
  import opened WorkerTypes
  import opened Fragments
  import opened WorkerSteps
  import opened Protocol
  import opened ProtocolRuns
  import opened ProtocolOrder
  import ProtocolSend
  import ProtocolComplete
  import ProtocolRequest
  import ProtocolBackend

  function SequenceOf(j: nat): nat { j % U32_MAX + 1 }

  lemma NextSequenceStep(n: nat)
    ensures NextSequence(SequenceOf(n)) == SequenceOf(n + 1)
  {
    assert (n + 1) % U32_MAX == if n % U32_MAX + 1 == U32_MAX then 0 else n % U32_MAX + 1;
  }

  /** Parents taken and fully pushed. */
  function Pushed(parents: seq<Parent>, pending: Option<PendingSend>): nat {
    if pending.Some? && parents != [] then |parents| - 1 else |parents|
  }

  ghost predicate InvIds(c: Config, parents: seq<Parent>, pending: Option<PendingSend>, nextSequence: nat) {
    && nextSequence == SequenceOf(Pushed(parents, pending))
    && forall j :: 0 <= j < |parents| ==> parents[j].id == NextRequestId(c, SequenceOf(j))
  }

  ghost predicate IdsOk(c: Config, w: World) { InvIds(c, w.h.core.parents, w.r.pendingSend, w.r.nextSequence) }

  // ----- steps other than try_send

  predicate SameSender(w: World, w': World) {
    w'.h.core.parents == w.h.core.parents && w'.r.pendingSend == w.r.pendingSend && w'.r.nextSequence == w.r.nextSequence
  }

  lemma ResponseAside(c: Config, w: World)
    ensures SameSender(w, ProtocolComplete.ResponseWorld(c, w))
  {
  }

  lemma PayloadAside(w: World, loaded: bool)
    requires w.s.pendingRequest.Some? && w.s.pendingRequest.value.id in w.s.inflight
    ensures SameSender(w, ProtocolRequest.PayloadWorld(w, loaded))
  {
    hide AcceptPayload;
  }

  lemma RejectAside(c: Config, w: World, loaded: bool, result: DatagramResult)
    requires w.s.pendingRequest.Some?
    ensures SameSender(w, ProtocolRequest.RejectWorld(c, w, loaded, result))
  {
    hide RejectRequest;
  }

  lemma HandleAside(c: Config, w: World, loaded: bool)
    requires w.s.pendingRequest.Some?
    ensures SameSender(w, ProtocolRequest.HandleRequestWorld(c, w, loaded))
  {
    hide ProtocolRequest.PayloadWorld, ProtocolRequest.RejectWorld, OpenParent, ValidFirst, CanPeek;
    RejectAside(c, w, loaded, RemoteInvalidRequest);
    RejectAside(c, w, loaded, RemoteAccessError);
    var q := w.s.pendingRequest.value;
    if q.id in w.s.inflight {
      PayloadAside(w, loaded);
    } else if q.opcode != RdmaWriteWithImmediate || CanPeek(w.s.receiveQueue) {
      var target := c.resolveRkey(q.rkey, q.remoteAddress, q.totalLength);
      if target.Some? { PayloadAside(ProtocolRequest.OpenWorld(w, target.value), loaded); }
    }
  }

  lemma RequestAside(c: Config, w: World)
    ensures SameSender(w, ProtocolRequest.RequestWorld(c, w))
  {
    hide ProtocolRequest.HandleRequestWorld;
    if w.s.pendingRequest.Some? {
      HandleAside(c, w, false);
    } else if w.t.requests != [] {
      HandleAside(c, ProtocolRequest.LoadRequest(w), true);
    }
  }

  lemma AnswerAside(c: Config, w: World)
    ensures SameSender(w, ProtocolBackend.AnswerWorld(c, w))
  {
    hide ParentResponseStep, AcceptedBelow;
  }

  lemma OthersAside(c: Config, w: World, a: Action)
    requires ValidConfig(c) && Enabled(c, w, a) && !a.TrySend?
    ensures SameSender(w, Step(c, w, a))
  {
    hide ProtocolComplete.ResponseWorld, ProtocolRequest.RequestWorld, ProtocolBackend.AnswerWorld, ApplyCompletions;
    match a
    case TryResponse => ResponseAside(c, w);
    case TryRequest => RequestAside(c, w);
    case TryParentResponse => AnswerAside(c, w);
    case _ =>
  }

  // ----- try_send

  lemma PushIds(c: Config, w: World)
    requires Inv(c, w) && IdsOk(c, w) && w.r.pendingSend.Some? && CursorInRange(w.r.pendingSend.value)
    ensures IdsOk(c, ProtocolSend.PushWorld(c, w))
  {
    hide InvCut, InvFate, InvWire, InvWindow, InvRecords, InvPipe, InvRequests, InvCopyLog, InvCompleted, InvTerminal,
      InvWaiting, InvCopyBound, InvAnswers, InvResponses, InvInflight, InvDone, InvSendCq, InvUnique, InvReceive,
      InvReceiveCq, ProtocolSend.PushWorld, ProtocolSend.PushesLast, CursorInRange, SequenceOf, NextSequence;
    ProtocolSend.CutIsReady(c, w.h.core.parents, w.r.pendingSend, w.r.sendQueue);
    if |w.t.requests| < c.requestCapacity {
      ProtocolSend.PushFields(c, w);
      NextSequenceStep(|w.h.core.parents| - 1);
    } else {
      ProtocolSend.PushRefused(c, w);
    }
  }

  lemma StopIds(c: Config, w: World)
    requires ValidConfig(c) && IdsOk(c, w) && TakeSend(c, w.r).Stopped?
    ensures IdsOk(c, ProtocolSend.StopWorld(c, w))
  {
    hide Prepare, SequenceOf;
  }

  lemma TakeIds(c: Config, w: World)
    requires ValidConfig(c) && IdsOk(c, w) && w.r.pendingSend.None?
    requires TakeSend(c, w.r).Taken? && TakeSend(c, w.r).r.pendingSend.Some?
    ensures IdsOk(c, ProtocolSend.TakeWorld(c, w))
  {
    hide Prepare, SequenceOf, TakeSend, ProtocolSend.TakeWorld, NextRequestId, WellFormed;
    ProtocolSend.TakeShape(c, w);
  }

  lemma SendIds(c: Config, w: World)
    requires Inv(c, w) && IdsOk(c, w) && Enabled(c, w, TrySend)
    ensures IdsOk(c, Step(c, w, TrySend))
  {
    hide Inv, IdsOk, ValidConfig, CursorInRange, TakeSend, ProtocolSend.FreshId, ProtocolSend.PushWorld, ProtocolSend.StopWorld;
    InvConfig(c, w);
    if w.r.pendingSend.Some? {
      PushIds(c, w);
    } else if TakeSend(c, w.r).Stopped? {
      StopIds(c, w);
    } else {
      TakenInRange(c, w.r);
      TakeIds(c, w);
      ProtocolSend.TakeKeepsInv(c, w);
      PushIds(c, ProtocolSend.TakeWorld(c, w));
    }
  }

  // ----- runs

  lemma InitialIds(c: Config, m: nat, n: nat)
    ensures IdsOk(c, InitialWorld(m, n))
  {
  }

  lemma {:induction false} RunKeepsIds(c: Config, ws: seq<World>, actions: seq<Action>, t: nat)
    requires IsRun(c, ws, actions) && t < |ws|
    ensures IdsOk(c, ws[t])
  {
    hide Inv, Step, Enabled, InitialWorld, SequenceOf, InvIds, ValidConfig;
    if t == 0 {
      var m, n :| ws[0] == InitialWorld(m, n);
      InitialIds(c, m, n);
    } else {
      RunKeepsIds(c, ws, actions, t - 1);
      RunKeepsInv(c, ws, actions, t - 1);
      assert ws[t - 1 + 1] == Step(c, ws[t - 1], actions[t - 1]);
      if actions[t - 1].TrySend? { SendIds(c, ws[t - 1]); } else { OthersAside(c, ws[t - 1], actions[t - 1]); }
    }
  }

  /** In every reachable state parent j has the id with sequence j mod (2^32 - 1) + 1. */
  lemma RequestIdsFollowTheSequence(c: Config, w: World)
    requires Reachable(c, w)
    ensures w.r.nextSequence == Pushed(w.h.core.parents, w.r.pendingSend) % 0xFFFF_FFFF + 1
    ensures forall j :: 0 <= j < |w.h.core.parents| ==>
              w.h.core.parents[j].id == c.qpNum * 0x1_0000_0000 + j % 0xFFFF_FFFF + 1
  {
    hide IsRun, Pushed;
    var ws, actions, t :| 0 <= t < |ws| && IsRun(c, ws, actions) && ws[t] == w;
    RunKeepsIds(c, ws, actions, t);
  }

  // ----- freshness

  /** No parent that would share its id with the next one is still in flight. */
  ghost predicate NoAliasInFlight(c: Config, w: World) {
    forall j :: 0 <= j < |w.h.core.parents| && Live(c, w.h.core, w.h.done, w.h.respTags, j) ==>
      j % U32_MAX != |w.h.core.parents| % U32_MAX
  }

  /** Every id in flight is the id of a parent that is live. */
  lemma InFlightIsLive(c: Config, w: World, id: nat) returns (j: nat)
    requires Inv(c, w)
    requires id in w.r.inflight || id in w.s.inflight
             || (exists x :: 0 <= x < |Incoming(w.s, w.t)| && Incoming(w.s, w.t)[x].id == id)
             || (exists x :: 0 <= x < |Outgoing(w.r, w.t)| && Outgoing(w.r, w.t)[x].id == id)
    ensures j < |w.h.core.parents| && Live(c, w.h.core, w.h.done, w.h.respTags, j) && w.h.core.parents[j].id == id
  {
    hide InvCut, InvFate, InvRecords, InvPipe, InvRequests, InvCopyLog, InvCompleted, InvTerminal, InvWaiting,
      InvCopyBound, InvAnswers, InvDone, InvSendCq, InvUnique, InvReceive, InvReceiveCq, Incoming, Outgoing, Rank,
      AcceptedBelow, Accepts, Answered, Chain, SenderPos;
    var h, k := w.h, w.h.core;
    if id in w.r.inflight {
      j := h.taker[id];
    } else if id in w.s.inflight {
      j := h.owner[id];
    } else if x :| 0 <= x < |Incoming(w.s, w.t)| && Incoming(w.s, w.t)[x].id == id {
      j := h.wire[x].j;
      assert IsDatagram(c, k.parents, h.wire[x], Incoming(w.s, w.t)[x]);
      WireIsAhead(k.parents, k.rpos, h.wire, SenderPos(k.parents, w.r.pendingSend), x);
    } else {
      var x :| 0 <= x < |Outgoing(w.r, w.t)| && Outgoing(w.r, w.t)[x].id == id;
      j := h.respTags[x];
      assert ResponseOk(c, k, h.done, h.respTags, x, Outgoing(w.r, w.t)[x]);
    }
  }

  lemma {:induction false} WireIsAhead(parents: seq<Parent>, a: Coord, wire: seq<Coord>, b: Coord, x: nat)
    requires Chain(parents, a, wire, b) && x < |wire|
    ensures a.j <= wire[x].j
    decreases x
  {
    if x != 0 {
      ChainPop(parents, a, wire, b);
      WireIsAhead(parents, Succ(parents, a), wire[1..], b, x - 1);
    }
  }

  /** The next id is unused in flight exactly when no parent that would share it is still in flight. */
  lemma FreshExactlyWhenNoAlias(c: Config, w: World)
    requires Reachable(c, w) && w.r.pendingSend.None?
    ensures ProtocolSend.FreshId(c, w) <==> NoAliasInFlight(c, w)
  {
    hide Inv, Reachable, Live;
    ReachableInv(c, w);
    RequestIdsFollowTheSequence(c, w);
    if ProtocolSend.FreshId(c, w) { FreshMeansNoAlias(c, w); }
    if NoAliasInFlight(c, w) {
      hide Incoming, Outgoing;
      var id := NextRequestId(c, w.r.nextSequence);
      if !ProtocolSend.FreshId(c, w) { var j := InFlightIsLive(c, w, id); }
    }
  }

  lemma FreshMeansNoAlias(c: Config, w: World)
    requires Inv(c, w) && IdsOk(c, w) && w.r.pendingSend.None? && ProtocolSend.FreshId(c, w)
    ensures NoAliasInFlight(c, w)
  {
    hide InvCut, InvFate, InvWire, InvWindow, InvRecords, InvPipe, InvRequests, InvCopyLog, InvCompleted, InvTerminal,
      InvWaiting, InvCopyBound, InvAnswers, InvResponses, InvInflight, InvDone, InvSendCq, InvUnique, InvReceive,
      InvReceiveCq, ProtocolSend.FreshId, Live;
    forall j | 0 <= j < |w.h.core.parents| && Live(c, w.h.core, w.h.done, w.h.respTags, j)
      ensures j % U32_MAX != |w.h.core.parents| % U32_MAX
    {
      ProtocolSend.LiveIsInFlight(c, w, j);
    }
  }

  /** Parents closer than the period of the sequence do not share an id. */
  lemma NearbyDiffer(i: nat, n: nat)
    requires i < n < i + U32_MAX
    ensures i % U32_MAX != n % U32_MAX
  {
    var a, b := i / U32_MAX, n / U32_MAX;
    assert i == a * U32_MAX + i % U32_MAX && n == b * U32_MAX + n % U32_MAX;
  }

  /**
    Freshness is a theorem, not an assumption, as long as the parents in flight
    lie within the last 2^32 - 2: no step asks for anything then.
   */
  lemma EveryStepEnabled(c: Config, w: World, a: Action)
    requires Reachable(c, w)
    requires forall j :: 0 <= j < |w.h.core.parents| && Live(c, w.h.core, w.h.done, w.h.respTags, j) ==>
               |w.h.core.parents| < j + U32_MAX
    requires a.Finish? ==> a.x < |w.b.outstanding|
    ensures Enabled(c, w, a)
  {
    hide Inv, Reachable, Live, Enabled, ProtocolSend.FreshId;
    ReachableInv(c, w);
    if w.r.pendingSend.None? {
      forall j | 0 <= j < |w.h.core.parents| && Live(c, w.h.core, w.h.done, w.h.respTags, j)
        ensures j % U32_MAX != |w.h.core.parents| % U32_MAX
      {
        NearbyDiffer(j, |w.h.core.parents|);
      }
      FreshExactlyWhenNoAlias(c, w);
    }
    OnlyFreshIdsAssumed(c, w, a);
  }

  /** A run that has taken fewer than 2^32 - 1 parents can take any step. */
  lemma ShortRunsNeedNoAssumption(c: Config, w: World, a: Action)
    requires Reachable(c, w) && |w.h.core.parents| < U32_MAX && (a.Finish? ==> a.x < |w.b.outstanding|)
    ensures Enabled(c, w, a)
  {
    hide Reachable, Live, Enabled;
    EveryStepEnabled(c, w, a);
  }
}
