/**
  From the worker object to the protocol: what a worker's calls do to its own
  view is a run of the protocol in which only that worker acts, so a reachable
  state stays reachable and the protocol theorems hold of what the object does.
 */
module WorkerRuns {
  import opened Common
  import opened WorkerTypes
  import opened WorkerSteps
  import opened Protocol
  import opened ProtocolRuns
  import opened LoopWorker
  import ProtocolIds
  import ProtocolSend
  import ProtocolComplete
  import ProtocolRequest
  import ProtocolBackend

  ghost function RequesterPart(w: World): RequesterView { RequesterView(w.r, w.t) }

  ghost function ResponderPart(w: World): ResponderView { ResponderView(w.s, w.t, w.b.outstanding, w.b.completions) }

  // ----- requester

  /** Where try_send would take a new WQE, its id is unused in flight. */
  ghost predicate MayTake(c: Config, w: World) { w.r.pendingSend.None? ==> ProtocolSend.FreshId(c, w) }

  lemma RequesterStepLifts(c: Config, w: World, y: RequesterView) returns (w': World)
    requires Reachable(c, w) && ValidConfig(c) && MayTake(c, w) && RequesterStep(c, RequesterPart(w), y)
    ensures Reachable(c, w') && RequesterPart(w') == y && w'.s == w.s && w'.b == w.b
    ensures |w'.h.core.parents| <= |w.h.core.parents| + 1
  {
    hide ResponseStep, SendStep, CursorInRange, Reachable, ProtocolSend.FreshId, ProtocolSend.SendWorld,
      ProtocolComplete.ResponseWorld;
    if p :| ResponseStep(c, w.r, w.t) == RequesterOut(y.r, y.t, p) {
      w' := Step(c, w, TryResponse);
      ReachableStep(c, w, TryResponse);
      ProtocolComplete.ResponseWorldIsResponseStep(c, w);
      ProtocolIds.ResponseAside(c, w);
    } else {
      w' := Step(c, w, TrySend);
      ReachableStep(c, w, TrySend);
      ProtocolSend.SendWorldIsSendStep(c, w);
      OneParentTaken(c, w);
    }
  }

  lemma OneParentTaken(c: Config, w: World)
    requires ValidConfig(c) && (w.r.pendingSend.Some? ==> CursorInRange(w.r.pendingSend.value))
    ensures |ProtocolSend.SendWorld(c, w).h.core.parents| <= |w.h.core.parents| + 1
  {
    hide TakeSend, PushSend;
  }

  /** Along a requester's trace every WQE is taken under an id unused in flight. */
  ghost predicate TakesFresh(c: Config, w: World, trace: seq<RequesterView>) {
    forall i :: 0 <= i < |trace| - 1 ==> MayTake(c, w.(r := trace[i].r, t := trace[i].t))
  }

  /** A requester's trace is a run of the protocol, each WQE taken under an id unused in flight. */
  lemma {:induction false} RequesterTraceLifts(c: Config, w: World, trace: seq<RequesterView>) returns (w': World)
    requires Reachable(c, w) && ValidConfig(c) && RequesterTrace(c, trace) && trace[0] == RequesterPart(w)
    requires TakesFresh(c, w, trace)
    ensures Reachable(c, w') && RequesterPart(w') == trace[|trace| - 1] && w'.s == w.s && w'.b == w.b
    decreases |trace|
  {
    hide RequesterStep, Reachable, ValidConfig;
    var n := |trace| - 1;
    if n == 0 {
      w' := w;
    } else {
      var v := RequesterTraceLifts(c, w, trace[..n]);
      assert RequesterStep(c, trace[n - 1], trace[n]);
      SameFreshness(c, w.(r := trace[n - 1].r, t := trace[n - 1].t), v);
      w' := RequesterStepLifts(c, v, trace[n]);
    }
  }

  lemma SameFreshness(c: Config, w: World, v: World)
    requires MayTake(c, w) && v.r == w.r && v.t == w.t && v.s == w.s
    ensures MayTake(c, v)
  {
  }

  /** While fewer than 2^32 - 1 parents were taken, nothing needs to be assumed of ids. */
  lemma {:induction false} ShortRequesterTraceLifts(c: Config, w: World, trace: seq<RequesterView>) returns (w': World)
    requires Reachable(c, w) && ValidConfig(c) && RequesterTrace(c, trace) && trace[0] == RequesterPart(w)
    requires |w.h.core.parents| + |trace| <= U32_MAX
    ensures Reachable(c, w') && RequesterPart(w') == trace[|trace| - 1] && w'.s == w.s && w'.b == w.b
    ensures |w'.h.core.parents| < |w.h.core.parents| + |trace|
    decreases |trace|
  {
    hide RequesterStep, Reachable, ValidConfig, MayTake;
    var n := |trace| - 1;
    if n == 0 {
      w' := w;
    } else {
      var v := ShortRequesterTraceLifts(c, w, trace[..n]);
      assert RequesterStep(c, trace[n - 1], trace[n]);
      ShortMayTake(c, v);
      w' := RequesterStepLifts(c, v, trace[n]);
    }
  }

  lemma ShortMayTake(c: Config, w: World)
    requires Reachable(c, w) && |w.h.core.parents| < U32_MAX
    ensures MayTake(c, w)
  {
    hide Reachable, ProtocolSend.FreshId, CursorInRange;
    ProtocolIds.ShortRunsNeedNoAssumption(c, w, TrySend);
  }

  // ----- responder

  lemma ResponderStepLifts(c: Config, w: World, y: ResponderView) returns (w': World)
    requires Reachable(c, w) && ValidConfig(c) && ResponderStep(c, ResponderPart(w), y)
    ensures Reachable(c, w') && ResponderPart(w') == y && w'.r == w.r
  {
    hide RequestStep, ParentResponseStep, Reachable, ApplyCompletions, ProtocolRequest.RequestWorld, ProtocolBackend.AnswerWorld;
    var x := ResponderPart(w);
    if p :| RequestStep(c, w.s, w.t) == ResponderOut(y.s, y.t, p) && y == x.(s := y.s, t := y.t) {
      w' := Step(c, w, TryRequest);
      ReachableStep(c, w, TryRequest);
      ProtocolRequest.RequestWorldIsRequestStep(c, w);
    } else if p :| ParentResponseStep(c, w.s, w.t) == ResponderOut(y.s, y.t, p) && y == x.(s := y.s, t := y.t) {
      w' := Step(c, w, TryParentResponse);
      ReachableStep(c, w, TryParentResponse);
      ProtocolBackend.AnswerWorldIsParentResponseStep(c, w);
    } else if n: nat :| FlushOf(x, y, n) {
      w' := Step(c, w, TryFlush(n));
      ReachableStep(c, w, TryFlush(n));
    } else {
      var popped :| CompletionsOf(x, y, popped);
      w' := Step(c, w, TryCompletions(|popped|));
      ReachableStep(c, w, TryCompletions(|popped|));
      assert w.b.completions[..|popped|] == popped && w.b.completions[|popped|..] == y.completions;
    }
  }

  /** A responder's trace is a run of the protocol. */
  lemma {:induction false} ResponderTraceLifts(c: Config, w: World, trace: seq<ResponderView>) returns (w': World)
    requires Reachable(c, w) && ValidConfig(c) && ResponderTrace(c, trace) && trace[0] == ResponderPart(w)
    ensures Reachable(c, w') && ResponderPart(w') == trace[|trace| - 1] && w'.r == w.r
    decreases |trace|
  {
    hide ResponderStep, Reachable, ValidConfig;
    var n := |trace| - 1;
    if n == 0 {
      w' := w;
    } else {
      var v := ResponderTraceLifts(c, w, trace[..n]);
      assert ResponderStep(c, trace[n - 1], trace[n]);
      w' := ResponderStepLifts(c, v, trace[n]);
    }
  }

  // ----- the object

  /**
    A call of the requester half takes a worker from a reachable state to a
    reachable state: always while fewer than 2^32 - 1 parents were taken, and
    beyond that as long as every WQE is taken under an unused id.
   */
  method RunRequester(worker: Worker, v: QpView, ghost w: World)
    returns (progressed: bool, ghost trace: seq<RequesterView>, ghost w': World)
    requires worker.Configured() && worker.SendReady(v)
    requires Reachable(worker.c, w) && worker.RequesterNow(v) == RequesterPart(w)
    modifies worker`pendingSend, worker`pendingResponse, worker`requesterInflight, worker`nextSequence
    modifies worker.transport`requests, worker.transport`responses
    modifies v.sendQueue`head, v.sendQueue`peeked, v.sendCq`log, v.sendCq`reserved
    ensures worker.SendReady(v) && RequesterStuck(worker.c, worker.RequesterNow(v))
    ensures RequesterTrace(worker.c, trace) && trace[0] == RequesterPart(w) && trace[|trace| - 1] == worker.RequesterNow(v)
    ensures |w.h.core.parents| + |trace| <= U32_MAX || TakesFresh(worker.c, w, trace) ==>
              Reachable(worker.c, w') && worker.RequesterNow(v) == RequesterPart(w') && w'.s == w.s && w'.b == w.b
  {
    hide Reachable, RequesterStuck, RequesterTrace, TakesFresh;
    progressed, trace := worker.ProgressRequester(v);
    w' := w;
    if |w.h.core.parents| + |trace| <= U32_MAX {
      w' := ShortRequesterTraceLifts(worker.c, w, trace);
    } else if TakesFresh(worker.c, w, trace) {
      w' := RequesterTraceLifts(worker.c, w, trace);
    }
  }

  /** A call of the responder half takes a worker from a reachable state to a reachable state. */
  method RunResponder(worker: Worker, v: QpView, ghost w: World) returns (progressed: bool, ghost w': World)
    requires worker.Configured() && worker.BatchOk()
    requires Reachable(worker.c, w) && worker.ResponderNow(v) == ResponderPart(w)
    modifies worker`pendingRequest, worker`responderInflight, worker`responderOrder, worker`pendingBackendRequestCount
    modifies worker.pendingBackendRequests, worker.transport`requests, worker.transport`responses
    modifies worker.backend`outstanding, worker.backend`completions
    modifies v.receiveQueue`head, v.receiveQueue`peeked, v.receiveCq`log, v.receiveCq`reserved
    ensures worker.BatchOk()
    ensures Reachable(worker.c, w') && worker.ResponderNow(v) == ResponderPart(w') && w'.r == w.r
  {
    hide Reachable, ResponderTrace;
    ghost var trace;
    progressed, trace := worker.ProgressResponder(v);
    w' := ResponderTraceLifts(worker.c, w, trace);
  }
}
