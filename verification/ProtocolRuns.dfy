/**
  Whole runs of the data plane: any interleaving of the two workers, the
  backend and the client from the initial state keeps the invariant.
 */
module ProtocolRuns {
  import opened Common
  import opened WorkerTypes
  import opened Fragments
  import opened WorkerSteps
  import opened Protocol
  import opened ProtocolOrder
  import ProtocolSend
  import ProtocolComplete
  import ProtocolRequest
  import ProtocolBackend

  datatype Action =
    | PostSend(send: SendWqe)                 // client publishes a send WQE
    | PostReceive(receive: ReceiveWqe)        // client publishes a receive WQE
    | PollSend                                // client releases a send completion
    | PollReceive                             // client releases a receive completion
    | TrySend                                 // requester
    | TryResponse                             // requester
    | TryRequest                              // responder
    | TryFlush(accepted: nat)                 // responder; the backend takes the first `accepted`
    | TryCompletions(count: nat)              // responder; the backend hands over `count`
    | TryParentResponse                       // responder
    | Finish(x: nat, result: DatagramResult, scribble: seq<int>)  // backend completes outstanding[x]

  function Polled(q: CompletionQueue): CompletionQueue {
    if q.polled < |q.log| then q.(polled := q.polled + 1) else q
  }

  /** try_send must not reuse an id that is still in flight; the backend completes what it holds. */
  ghost predicate Enabled(c: Config, w: World, a: Action) {
    match a
    case TrySend =>
      if w.r.pendingSend.Some? then CursorInRange(w.r.pendingSend.value) else ProtocolSend.FreshId(c, w)
    case Finish(x, _, _) => x < |w.b.outstanding| && w.b.outstanding[x].id in w.h.owner
    case _ => true
  }

  ghost function Step(c: Config, w: World, a: Action): World
    requires ValidConfig(c) && Enabled(c, w, a)
  {
    match a
    case PostSend(send) =>
      w.(r := w.r.(sendQueue := w.r.sendQueue.(log := w.r.sendQueue.log + [send])))
    case PostReceive(receive) =>
      w.(s := w.s.(receiveQueue := w.s.receiveQueue.(log := w.s.receiveQueue.log + [receive])))
    case PollSend => w.(r := w.r.(sendCq := Polled(w.r.sendCq)))
    case PollReceive => w.(s := w.s.(receiveCq := Polled(w.s.receiveCq)))
    case TrySend => ProtocolSend.SendWorld(c, w)
    case TryResponse => ProtocolComplete.ResponseWorld(c, w)
    case TryRequest => ProtocolRequest.RequestWorld(c, w)
    case TryFlush(n) => ProtocolBackend.FlushWorld(w, n)
    case TryCompletions(n) => ProtocolBackend.CompletionsWorld(w, n)
    case TryParentResponse => ProtocolBackend.AnswerWorld(c, w)
    case Finish(x, result, scribble) => ProtocolBackend.FinishWorld(w, x, result, scribble)
  }

  function InitialWorld(sendCapacity: nat, receiveCapacity: nat): World {
    World(
      Requester(None, None, map[], 1, WorkQueue([], 0, false), CompletionQueue([], 0, sendCapacity, false)),
      Transport([], []),
      Responder(None, map[], [], [], WorkQueue([], 0, false), CompletionQueue([], 0, receiveCapacity, false)),
      Backend([], []),
      History(Core([], Coord(0, 0), 0, []), [], [], [], map[], [], [], map[], [], CopyLog([], map[])))
  }

  /** ws is a run: it starts in an initial state and every step is some enabled action. */
  ghost predicate IsRun(c: Config, ws: seq<World>, actions: seq<Action>) {
    && ValidConfig(c)
    && |ws| == |actions| + 1
    && (exists m, n :: ws[0] == InitialWorld(m, n))
    && (forall t :: 0 <= t < |actions| ==> Enabled(c, ws[t], actions[t]) && ws[t + 1] == Step(c, ws[t], actions[t]))
  }

  lemma InitialRequester(c: Config, m: nat, n: nat)
    requires ValidConfig(c)
    ensures var w := InitialWorld(m, n); var h, k := w.h, w.h.core;
            && InvCut(c, k.parents, w.r.pendingSend, w.r.sendQueue)
            && InvFate(c, k.parents, h.wqeOf, h.fate, w.r.pendingSend, w.r.sendQueue)
            && InvWire(c, k.parents, k.rpos, h.wire, SenderPos(k.parents, w.r.pendingSend), Incoming(w.s, w.t))
            && InvInflight(k.parents, h.done, h.taker, w.r.inflight) && InvDone(c, k, h.done)
            && InvSendCq(c, w.r.sendQueue.log, k.parents, h.fate, h.done, h.sendTags, w.r.sendCq)
  {
  }

  lemma InitialResponder(c: Config, m: nat, n: nat)
    requires ValidConfig(c)
    ensures var w := InitialWorld(m, n); var h, k := w.h, w.h.core;
            && InvPending(k, w.s.pendingRequest)
            && InvWindow(c, k, h.owner, w.s.order, w.s.inflight) && InvRecords(c, k, w.s.inflight)
            && InvReceive(c, k, w.s.inflight, w.s.receiveQueue)
            && InvReceiveCq(c, k.parents, k.decided, k.answers, w.s.receiveQueue.log, w.s.receiveCq)
            && InvResponses(c, k, h.done, h.respTags, Outgoing(w.r, w.t)) && InvUnique(c, k, h.done, h.respTags)
  {
  }

  lemma InitialBackend(c: Config, m: nat, n: nat)
    requires ValidConfig(c)
    ensures var w := InitialWorld(m, n); var h, k := w.h, w.h.core;
            && InvPipe(w.s.inflight, Pipe(w.s.batch, w.b))
            && InvRequests(c, k.parents, h.owner, w.s.batch) && InvRequests(c, k.parents, h.owner, w.b.outstanding)
            && InvCopyLog(c, k.parents, h.copies) && InvCompleted(h.owner, h.copies, w.b.completions)
            && InvTerminal(h.owner, h.copies, w.s.inflight) && InvWaiting(h.owner, h.copies, w.s.batch)
            && InvWaiting(h.owner, h.copies, w.b.outstanding) && InvCopyBound(k, h.copies)
            && InvAnswers(c, k.parents, k.answers, h.copies)
  {
    assert RequestKeys([]) == [] && CompletionKeys([]) == [];
  }

  lemma InitialInv(c: Config, m: nat, n: nat)
    requires ValidConfig(c)
    ensures Inv(c, InitialWorld(m, n))
  {
    hide InvCut, InvFate, InvWire, InvWindow, InvRecords, InvPipe, InvRequests, InvCopyLog, InvCompleted, InvTerminal,
      InvWaiting, InvCopyBound, InvAnswers, InvResponses, InvInflight, InvDone, InvUnique, InvReceive, InvReceiveCq,
      InvSendCq;
    InitialRequester(c, m, n);
    InitialResponder(c, m, n);
    InitialBackend(c, m, n);
  }

  // ----- client steps

  lemma PostSendKeepsInv(c: Config, w: World, send: SendWqe)
    requires Inv(c, w)
    ensures Inv(c, Step(c, w, PostSend(send)))
  {
    hide InvWire, InvWindow, InvRecords, InvPipe, InvRequests, InvCopyLog, InvCompleted, InvTerminal,
      InvWaiting, InvCopyBound, InvAnswers, InvResponses, InvInflight, InvDone, InvUnique, InvReceive,
      InvReceiveCq, Prepare, WellFormed, CursorAt, RejectedLocally, InvSendCq;
    var h, k, q := w.h, w.h.core, w.r.sendQueue;
    PostSendCq(c, q, send, k.parents, h.wqeOf, h.fate, w.r.pendingSend, h.done, h.sendTags, w.r.sendCq);
  }

  lemma PostSendCq(c: Config, q: WorkQueue<SendWqe>, send: SendWqe, parents: seq<Parent>, wqeOf: seq<nat>, fate: seq<Fate>,
                   pending: Option<PendingSend>, done: seq<Option<DatagramResult>>, tags: seq<nat>, cq: CompletionQueue)
    requires 0 < c.payloadBytes && InvFate(c, parents, wqeOf, fate, pending, q)
    requires InvSendCq(c, q.log, parents, fate, done, tags, cq)
    ensures InvSendCq(c, q.log + [send], parents, fate, done, tags, cq)
  {
    hide Prepare, RejectedLocally;
    forall k: nat ensures Due(c, q.log + [send], parents, fate, done, k) == Due(c, q.log, parents, fate, done, k) { }
  }

  /** Polling takes nothing back: what was produced stays the same. */
  lemma PolledKeeps(c: Config, w: World)
    ensures var h, k := w.h, w.h.core;
            && (InvSendCq(c, w.r.sendQueue.log, k.parents, h.fate, h.done, h.sendTags, w.r.sendCq) ==>
                  InvSendCq(c, w.r.sendQueue.log, k.parents, h.fate, h.done, h.sendTags, Polled(w.r.sendCq)))
            && (InvReceiveCq(c, k.parents, k.decided, k.answers, w.s.receiveQueue.log, w.s.receiveCq) ==>
                  InvReceiveCq(c, k.parents, k.decided, k.answers, w.s.receiveQueue.log, Polled(w.s.receiveCq)))
  {
    hide Due, ReceiveEntries, AcceptedBelow;
  }

  lemma PollKeepsInv(c: Config, w: World)
    requires Inv(c, w)
    ensures Inv(c, Step(c, w, PollSend)) && Inv(c, Step(c, w, PollReceive))
  {
    hide InvCut, InvFate, InvWire, InvWindow, InvRecords, InvPipe, InvRequests, InvCopyLog, InvCompleted, InvTerminal,
      InvWaiting, InvCopyBound, InvAnswers, InvResponses, InvInflight, InvDone, InvUnique, InvReceive, InvSendCq,
      InvReceiveCq, Polled;
    PolledKeeps(c, w);
  }

  /** An answered parent lies behind the responder's position. */
  lemma AnsweredBehind(c: Config, k: Core, owner: map<nat, nat>, order: seq<nat>, inflight: map<nat, ResponderInflight>, x: nat)
    requires InvWindow(c, k, owner, order, inflight) && x < |k.answers|
    ensures x < |AcceptedBelow(c, k.parents, k.decided)|
    ensures AcceptedBelow(c, k.parents, k.decided)[x] < k.rpos.j
  {
    RankOfAccepted(c, k.parents, k.decided, x);
  }

  lemma {:induction false} ImmRankStep(c: Config, parents: seq<Parent>, i: nat, n: nat)
    requires i < n <= |parents|
    ensures ImmRank(c, parents, i) <= ImmRank(c, parents, n)
    ensures Accepts(c, parents[i]) && IsImm(parents[i]) ==> ImmRank(c, parents, i) < ImmRank(c, parents, n)
  {
    if i + 1 < n { ImmRankStep(c, parents, i, n - 1); }
  }

  lemma {:induction false} EntriesPost(c: Config, parents: seq<Parent>, acc: seq<nat>, answers: seq<DatagramResult>,
                                       log: seq<ReceiveWqe>, e: ReceiveWqe, n: nat)
    requires n <= |answers| && n <= |acc| && (forall x :: 0 <= x < n ==> acc[x] < |parents|)
    requires forall x :: 0 <= x < n && IsImm(parents[acc[x]]) ==> ImmRank(c, parents, acc[x]) < |log|
    ensures ReceiveEntries(c, parents, acc, answers, log + [e], n) == ReceiveEntries(c, parents, acc, answers, log, n)
  {
    if n != 0 { EntriesPost(c, parents, acc, answers, log, e, n - 1); }
  }

  lemma PostReceiveCq(c: Config, k: Core, owner: map<nat, nat>, order: seq<nat>, inflight: map<nat, ResponderInflight>,
                      queue: WorkQueue<ReceiveWqe>, cq: CompletionQueue, e: ReceiveWqe)
    requires InvWindow(c, k, owner, order, inflight) && InvReceive(c, k, inflight, queue)
    requires InvReceiveCq(c, k.parents, k.decided, k.answers, queue.log, cq)
    ensures InvReceiveCq(c, k.parents, k.decided, k.answers, queue.log + [e], cq)
  {
    hide InWindow;
    var acc := AcceptedBelow(c, k.parents, k.decided);
    forall x | 0 <= x < |k.answers| && IsImm(k.parents[acc[x]]) ensures ImmRank(c, k.parents, acc[x]) < |queue.log| {
      AnsweredBehind(c, k, owner, order, inflight, x);
      ImmRankStep(c, k.parents, acc[x], k.rpos.j);
    }
    EntriesPost(c, k.parents, acc, k.answers, queue.log, e, |k.answers|);
  }

  lemma PostReceiveQueue(c: Config, k: Core, inflight: map<nat, ResponderInflight>, queue: WorkQueue<ReceiveWqe>, e: ReceiveWqe)
    requires InvReceive(c, k, inflight, queue)
    ensures InvReceive(c, k, inflight, queue.(log := queue.log + [e]))
  {
    hide InWindow, ImmRank, Accepts;
  }

  lemma PostReceiveKeepsInv(c: Config, w: World, e: ReceiveWqe)
    requires Inv(c, w)
    ensures Inv(c, Step(c, w, PostReceive(e)))
  {
    hide InvCut, InvFate, InvWire, InvWindow, InvRecords, InvPipe, InvRequests, InvCopyLog, InvCompleted, InvTerminal,
      InvWaiting, InvCopyBound, InvAnswers, InvResponses, InvInflight, InvDone, InvUnique, InvReceive, InvReceiveCq,
      InvSendCq;
    PostReceiveQueue(c, w.h.core, w.s.inflight, w.s.receiveQueue, e);
    PostReceiveCq(c, w.h.core, w.h.owner, w.s.order, w.s.inflight, w.s.receiveQueue, w.s.receiveCq, e);
    assert Incoming(Step(c, w, PostReceive(e)).s, w.t) == Incoming(w.s, w.t);
  }

  // ----- runs

  lemma InvConfig(c: Config, w: World)
    requires Inv(c, w)
    ensures ValidConfig(c)
  {
  }

  lemma StepKeepsInv(c: Config, w: World, a: Action)
    requires Inv(c, w) && Enabled(c, w, a)
    ensures Inv(c, Step(c, w, a))
  {
    hide Inv, ValidConfig, ProtocolSend.SendWorld, ProtocolSend.FreshId, ProtocolComplete.ResponseWorld,
      ProtocolRequest.RequestWorld, ProtocolBackend.FlushWorld, ProtocolBackend.CompletionsWorld, ProtocolBackend.AnswerWorld,
      ProtocolBackend.FinishWorld, CursorInRange, Polled;
    InvConfig(c, w);
    match a
    case PostSend(send) => PostSendKeepsInv(c, w, send);
    case PostReceive(e) => PostReceiveKeepsInv(c, w, e);
    case PollSend => PollKeepsInv(c, w);
    case PollReceive => PollKeepsInv(c, w);
    case TrySend => ProtocolSend.SendKeepsInv(c, w);
    case TryResponse => ProtocolComplete.ResponseKeepsInv(c, w);
    case TryRequest => ProtocolRequest.RequestKeepsInv(c, w);
    case TryFlush(n) => ProtocolBackend.FlushKeepsInv(c, w, n);
    case TryCompletions(n) => ProtocolBackend.CompletionsKeepInv(c, w, n);
    case TryParentResponse => ProtocolBackend.AnswerKeepsInv(c, w);
    case Finish(x, result, scribble) => ProtocolBackend.FinishKeepsInv(c, w, x, result, scribble);
  }

  /** Every state of every run satisfies the invariant. */
  lemma {:induction false} RunKeepsInv(c: Config, ws: seq<World>, actions: seq<Action>, t: nat)
    requires IsRun(c, ws, actions) && t < |ws|
    ensures Inv(c, ws[t])
  {
    hide Inv, Step, Enabled, InitialWorld;
    if t == 0 {
      var m, n :| ws[0] == InitialWorld(m, n);
      InitialInv(c, m, n);
    } else {
      RunKeepsInv(c, ws, actions, t - 1);
      assert ws[t - 1 + 1] == Step(c, ws[t - 1], actions[t - 1]);
      StepKeepsInv(c, ws[t - 1], actions[t - 1]);
    }
  }

  /** w is a state of some run. */
  ghost predicate Reachable(c: Config, w: World) {
    exists ws, actions, t :: 0 <= t < |ws| && IsRun(c, ws, actions) && ws[t] == w
  }

  /** An enabled step leads from a reachable state to a reachable one. */
  lemma ReachableStep(c: Config, w: World, a: Action)
    requires Reachable(c, w) && ValidConfig(c) && Enabled(c, w, a)
    ensures Reachable(c, Step(c, w, a))
  {
    hide Step, Enabled, InitialWorld;
    var ws, actions, t :| 0 <= t < |ws| && IsRun(c, ws, actions) && ws[t] == w;
    var ws', actions' := ws[..t + 1] + [Step(c, w, a)], actions[..t] + [a];
    forall u | 0 <= u < |actions'| ensures Enabled(c, ws'[u], actions'[u]) && ws'[u + 1] == Step(c, ws'[u], actions'[u]) {
      if u < t { assert ws[u + 1] == Step(c, ws[u], actions[u]); }
    }
    assert IsRun(c, ws', actions') && ws'[t + 1] == Step(c, w, a);
  }

  lemma ReachableInv(c: Config, w: World)
    requires Reachable(c, w)
    ensures Inv(c, w)
  {
    hide IsRun, Inv;
    var ws, actions, t :| 0 <= t < |ws| && IsRun(c, ws, actions) && ws[t] == w;
    RunKeepsInv(c, ws, actions, t);
  }

  /**
    Enabled asks nothing of the code beyond fresh ids: in a reachable state a
    pending send's cursor is in range and every outstanding payload has an owner.
   */
  lemma OnlyFreshIdsAssumed(c: Config, w: World, a: Action)
    requires Inv(c, w)
    requires a.TrySend? && w.r.pendingSend.None? ==> ProtocolSend.FreshId(c, w)
    requires a.Finish? ==> a.x < |w.b.outstanding|
    ensures Enabled(c, w, a)
  {
    hide InvFate, InvWire, InvWindow, InvRecords, InvPipe, InvCopyLog, InvCompleted, InvTerminal,
      InvWaiting, InvCopyBound, InvAnswers, InvResponses, InvInflight, InvDone, InvUnique, InvReceive, InvReceiveCq,
      InvSendCq, ProtocolSend.FreshId;
    if a.TrySend? && w.r.pendingSend.Some? { ProtocolSend.CutInRange(c, w); }
    if a.Finish? { assert RequestOk(c, w.h.core.parents, w.h.owner, w.b.outstanding[a.x]); }
  }
}
