/** try_send keeps the protocol invariant (src/worker/worker.cpp:392-523). */
module ProtocolSend {
  import opened Common
  import opened WorkerTypes
  import opened Fragments
  import opened WorkerSteps
  import opened Protocol
  import opened ProtocolOrder

  /** The id the next WQE would get is not used by anything in flight. */
  ghost predicate FreshId(c: Config, w: World) {
    var id := NextRequestId(c, w.r.nextSequence);
    && id !in w.r.inflight && id !in w.s.inflight
    && (forall x :: 0 <= x < |Incoming(w.s, w.t)| ==> Incoming(w.s, w.t)[x].id != id)
    && (forall x :: 0 <= x < |Outgoing(w.r, w.t)| ==> Outgoing(w.r, w.t)[x].id != id)
  }

  /** A WQE taken: it becomes the last parent. */
  function TakeWorld(c: Config, w: World): World
    requires 0 < c.payloadBytes && TakeSend(c, w.r).Taken? && TakeSend(c, w.r).r.pendingSend.Some?
  {
    var r := TakeSend(c, w.r).r;
    var p := r.pendingSend.value.parent;
    var n := |w.h.core.parents|;
    w.(r := r,
       h := w.h.(core := w.h.core.(parents := w.h.core.parents + [p]), wqeOf := w.h.wqeOf + [w.r.sendQueue.head],
                 fate := w.h.fate + [TakenAs(n)], done := w.h.done + [None], taker := w.h.taker[p.id := n]))
  }

  /** No WQE taken: nothing to take, no room for the error completion, or a local rejection. */
  function StopWorld(c: Config, w: World): World
    requires 0 < c.payloadBytes && TakeSend(c, w.r).Stopped?
  {
    var o := TakeSend(c, w.r);
    if !o.progressed then w.(r := o.r)
    else
      var send := w.r.sendQueue.log[w.r.sendQueue.head];
      var status := Prepare(c, send, NextRequestId(c, w.r.nextSequence)).status;
      w.(r := o.r,
         h := w.h.(fate := w.h.fate + [LocalReject(status)], sendTags := w.h.sendTags + [w.r.sendQueue.head]))
  }

  function PushWorld(c: Config, w: World): World
    requires w.r.pendingSend.Some? && CursorInRange(w.r.pendingSend.value)
  {
    var o := PushSend(c, w.r, w.t);
    w.(r := o.r, t := o.t,
       h := if |o.t.requests| == |w.t.requests| then w.h
            else w.h.(wire := w.h.wire + [SenderPos(w.h.core.parents, w.r.pendingSend)]))
  }

  /** One call of try_send. */
  function SendWorld(c: Config, w: World): World
    requires ValidConfig(c)
    requires w.r.pendingSend.Some? ==> CursorInRange(w.r.pendingSend.value)
  {
    if w.r.pendingSend.Some? then PushWorld(c, w)
    else if TakeSend(c, w.r).Stopped? then StopWorld(c, w)
    else TakenInRange(c, w.r); PushWorld(c, TakeWorld(c, w))
  }

  /** The concrete part of SendWorld is the worker's step function. */
  lemma SendWorldIsSendStep(c: Config, w: World)
    requires ValidConfig(c)
    requires w.r.pendingSend.Some? ==> CursorInRange(w.r.pendingSend.value)
    ensures var o, w' := SendStep(c, w.r, w.t), SendWorld(c, w);
            w'.r == o.r && w'.t == o.t && w'.s == w.s && w'.b == w.b
  {
  }

  // ----- taking a WQE

  /** Parent p appended, made from the WQE at the head of the send queue. */
  ghost predicate Took(c: Config, r: Requester, h: History, r': Requester, h': History, p: Parent)
    requires 0 < c.payloadBytes
  {
    var n := |h.core.parents|;
    && CanPeek(r.sendQueue) && r.pendingSend.None?
    && Prepare(c, r.sendQueue.log[r.sendQueue.head], p.id) == Accept(p)
    && WellFormed(c, p)
    && p.id !in r.inflight
    && r' == r.(sendQueue := r.sendQueue.(peeked := true),
                inflight := r.inflight[p.id := InflightOf(p)], pendingSend := Some(Fresh(p)))
    && h' == h.(core := h.core.(parents := h.core.parents + [p]), wqeOf := h.wqeOf + [r.sendQueue.head],
                fate := h.fate + [TakenAs(n)], done := h.done + [None], taker := h.taker[p.id := n])
  }

  lemma TakeShape(c: Config, w: World)
    requires ValidConfig(c) && w.r.pendingSend.None?
    requires TakeSend(c, w.r).Taken? && TakeSend(c, w.r).r.pendingSend.Some?
    ensures var w' := TakeWorld(c, w);
            && w'.r.pendingSend.Some?
            && w'.r.pendingSend.value.parent.id == NextRequestId(c, w.r.nextSequence)
            && Took(c, w.r, w.h, w'.r, w'.h, w'.r.pendingSend.value.parent)
            && w'.t == w.t && w'.s == w.s && w'.b == w.b
  {
    PrepareFacts(c, w.r.sendQueue.log[w.r.sendQueue.head], NextRequestId(c, w.r.nextSequence));
  }

  lemma TookCut(c: Config, r: Requester, h: History, r': Requester, h': History, p: Parent)
    requires 0 < c.payloadBytes && Took(c, r, h, r', h', p)
    requires InvCut(c, h.core.parents, r.pendingSend, r.sendQueue)
    ensures InvCut(c, h'.core.parents, r'.pendingSend, r'.sendQueue)
  {
    FreshCursor(c, p);
    ParentFacts(c, p);
  }

  lemma TookFate(c: Config, r: Requester, h: History, r': Requester, h': History, p: Parent)
    requires 0 < c.payloadBytes && Took(c, r, h, r', h', p)
    requires InvFate(c, h.core.parents, h.wqeOf, h.fate, r.pendingSend, r.sendQueue)
    ensures InvFate(c, h'.core.parents, h'.wqeOf, h'.fate, r'.pendingSend, r'.sendQueue)
  {
    hide Prepare, WellFormed, RejectedLocally;
    var ps, ps' := h.core.parents, h'.core.parents;
    assert forall j :: 0 <= j < |ps| ==> ps'[j] == ps[j] && h'.wqeOf[j] == h.wqeOf[j];
    assert forall k :: 0 <= k < |h.fate| ==> h'.fate[k] == h.fate[k];
    assert forall k :: 0 <= k < |h'.fate| && h'.fate[k].TakenAs? ==>
             h'.fate[k].j < |ps'| && h'.wqeOf[h'.fate[k].j] == k;
  }

  /** Core k with one more parent: no earlier parent moves in or out of the window or gets answered. */
  ghost predicate Extension(c: Config, k: Core, k': Core) {
    var n := |k.parents|;
    && |k'.parents| == n + 1
    && k' == k.(parents := k'.parents)
    && (forall j :: 0 <= j < n ==> k'.parents[j] == k.parents[j])
    && k.decided <= n && k.rpos.j <= n && (k.rpos.j == n ==> k.rpos.i == 0)
    && (forall m: nat :: m <= n ==>
          && Rank(c, k'.parents, m) == Rank(c, k.parents, m)
          && ImmRank(c, k'.parents, m) == ImmRank(c, k.parents, m)
          && AcceptedBelow(c, k'.parents, m) == AcceptedBelow(c, k.parents, m))
    && |k.answers| <= Rank(c, k.parents, n)
  }

  lemma TookExtension(c: Config, k: Core, k': Core, p: Parent, owner: map<nat, nat>, order: seq<nat>,
                      inflight: map<nat, ResponderInflight>, wire: seq<Coord>, incoming: seq<RequestDatagram>)
    requires 0 < c.payloadBytes && k' == k.(parents := k.parents + [p])
    requires InvWindow(c, k, owner, order, inflight)
    requires InvWire(c, k.parents, k.rpos, wire, Coord(|k.parents|, 0), incoming)
    ensures Extension(c, k, k')
  {
    ChainOrder(k.parents, k.rpos, wire, Coord(|k.parents|, 0));
    ExtendAll(c, k.parents, p);
    RankStep(c, k.parents, k.decided, |k.parents|);
  }

  lemma ExtensionKeeps(c: Config, k: Core, k': Core)
    requires Extension(c, k, k')
    ensures forall j: nat :: InWindow(c, k', j) <==> InWindow(c, k, j)
    ensures forall j: nat, res :: j < |k.parents| ==> (Answered(c, k', j, res) <==> Answered(c, k, j, res))
    ensures forall res :: !Answered(c, k', |k.parents|, res)
    ensures forall j: nat :: j < |k.parents| ==> Progress(k', j) == Progress(k, j)
  {
    hide Rank, ImmRank, AcceptedBelow, Accepts;
  }

  lemma ExtendWire(c: Config, parents: seq<Parent>, p: Parent, rpos: Coord, wire: seq<Coord>, spos: Coord,
                   incoming: seq<RequestDatagram>)
    requires 0 < c.payloadBytes && InvWire(c, parents, rpos, wire, spos, incoming)
    ensures InvWire(c, parents + [p], rpos, wire, spos, incoming)
  {
    ChainExtend(parents, p, rpos, wire, spos);
    forall x | 0 <= x < |wire| ensures IsDatagram(c, parents + [p], wire[x], incoming[x]) {
      assert IsDatagram(c, parents, wire[x], incoming[x]);
    }
  }

  lemma ExtendWindow(c: Config, k: Core, k': Core, owner: map<nat, nat>, order: seq<nat>,
                     inflight: map<nat, ResponderInflight>)
    requires 0 < c.payloadBytes && Extension(c, k, k')
    requires InvWindow(c, k, owner, order, inflight) && InvRecords(c, k, inflight)
    ensures InvWindow(c, k', owner, order, inflight) && InvRecords(c, k', inflight)
  {
    hide Rank, ImmRank, AcceptedBelow, Accepts, RecordOk, Progress;
    ExtensionKeeps(c, k, k');
  }

  lemma ExtendRequests(c: Config, parents: seq<Parent>, p: Parent, owner: map<nat, nat>, q: seq<BackendRequest>)
    requires 0 < c.payloadBytes && InvRequests(c, parents, owner, q)
    ensures InvRequests(c, parents + [p], owner, q)
  {
    hide PayloadRequest, Pieces, Accepts;
    forall x | 0 <= x < |q| ensures RequestOk(c, parents + [p], owner, q[x]) {
      assert RequestOk(c, parents, owner, q[x]);
    }
  }

  lemma ExtendCopies(c: Config, k: Core, k': Core, p: Parent, copies: CopyLog)
    requires 0 < c.payloadBytes && Extension(c, k, k') && k'.parents == k.parents + [p]
    requires InvCopyLog(c, k.parents, copies) && InvCopyBound(k, copies)
    ensures InvCopyLog(c, k'.parents, copies) && InvCopyBound(k', copies)
  {
    hide Rank, ImmRank, AcceptedBelow, Accepts, PayloadRequest, Pieces, InWindow, Answered;
    ExtensionKeeps(c, k, k');
  }

  lemma ExtendAnswers(c: Config, k: Core, k': Core, copies: CopyLog)
    requires Extension(c, k, k') && InvAnswers(c, k.parents, k.answers, copies)
    ensures InvAnswers(c, k'.parents, k'.answers, copies)
  {
    hide Rank, ImmRank, AcceptedBelow, AnswerOk;
  }

  lemma ExtendResponses(c: Config, k: Core, k': Core, done: seq<Option<DatagramResult>>, respTags: seq<nat>,
                        taker: map<nat, nat>, inflight: map<nat, RequesterInflight>, outgoing: seq<ResponseDatagram>)
    requires Extension(c, k, k') && InvInflight(k.parents, done, taker, inflight)
    requires InvResponses(c, k, done, respTags, outgoing) && InvDone(c, k, done)
    ensures InvResponses(c, k', done + [None], respTags, outgoing) && InvDone(c, k', done + [None])
  {
    hide Rank, ImmRank, AcceptedBelow, Accepts, Answered, InWindow;
    ExtensionKeeps(c, k, k');
  }

  lemma TookInflight(parents: seq<Parent>, p: Parent, done: seq<Option<DatagramResult>>, taker: map<nat, nat>,
                     inflight: map<nat, RequesterInflight>)
    requires InvInflight(parents, done, taker, inflight) && p.id !in inflight
    ensures InvInflight(parents + [p], done + [None], taker[p.id := |parents|], inflight[p.id := InflightOf(p)])
  {
  }

  lemma TookSendCq(c: Config, r: Requester, h: History, r': Requester, h': History, p: Parent)
    requires 0 < c.payloadBytes && Took(c, r, h, r', h', p)
    requires InvSendCq(c, r.sendQueue.log, h.core.parents, h.fate, h.done, h.sendTags, r.sendCq)
    requires InvInflight(h.core.parents, h.done, h.taker, r.inflight)
    requires InvFate(c, h.core.parents, h.wqeOf, h.fate, r.pendingSend, r.sendQueue)
    ensures InvSendCq(c, r'.sendQueue.log, h'.core.parents, h'.fate, h'.done, h'.sendTags, r'.sendCq)
  {
    hide Prepare, WellFormed;
    var log := r.sendQueue.log;
    forall k: nat
      ensures Due(c, log, h'.core.parents, h'.fate, h'.done, k) == Due(c, log, h.core.parents, h.fate, h.done, k)
    {
      if k < |h.fate| { assert h'.fate[k] == h.fate[k]; }
    }
  }

  lemma TookUnique(c: Config, w: World, k': Core, p: Parent)
    requires 0 < c.payloadBytes && k' == w.h.core.(parents := w.h.core.parents + [p]) && Extension(c, w.h.core, k')
    requires FreshId(c, w) && p.id == NextRequestId(c, w.r.nextSequence)
    requires InvUnique(c, w.h.core, w.h.done, w.h.respTags)
    requires InvWindow(c, w.h.core, w.h.owner, w.s.order, w.s.inflight)
    requires InvInflight(w.h.core.parents, w.h.done, w.h.taker, w.r.inflight)
    requires InvResponses(c, w.h.core, w.h.done, w.h.respTags, Outgoing(w.r, w.t))
    requires InvWire(c, w.h.core.parents, w.h.core.rpos, w.h.wire, Coord(|w.h.core.parents|, 0), Incoming(w.s, w.t))
    ensures InvUnique(c, k', w.h.done + [None], w.h.respTags)
  {
    hide Rank, ImmRank, AcceptedBelow, Accepts, InWindow, Answered, InvWindow, InvResponses, InvWire, FreshId;
    var k := w.h.core;
    ExtensionKeeps(c, k, k');
    forall i | 0 <= i < |k.parents| && Live(c, k', w.h.done + [None], w.h.respTags, i)
      ensures Live(c, k, w.h.done, w.h.respTags, i) && k.parents[i].id != p.id
    {
      LiveIsInFlight(c, w, i);
    }
  }

  /** Whatever is in flight of a parent can be seen by FreshId. */
  lemma LiveIsInFlight(c: Config, w: World, i: nat)
    requires 0 < c.payloadBytes && FreshId(c, w) && Live(c, w.h.core, w.h.done, w.h.respTags, i)
    requires InvWindow(c, w.h.core, w.h.owner, w.s.order, w.s.inflight)
    requires InvInflight(w.h.core.parents, w.h.done, w.h.taker, w.r.inflight)
    requires InvResponses(c, w.h.core, w.h.done, w.h.respTags, Outgoing(w.r, w.t))
    requires InvWire(c, w.h.core.parents, w.h.core.rpos, w.h.wire, Coord(|w.h.core.parents|, 0), Incoming(w.s, w.t))
    ensures w.h.core.parents[i].id != NextRequestId(c, w.r.nextSequence)
  {
    hide Rank, ImmRank, AcceptedBelow, Accepts, Answered;
    var h, k := w.h, w.h.core;
    if k.rpos.j <= i {
      var x := ChainCovers(k.parents, k.rpos, h.wire, Coord(|k.parents|, 0), i);
      assert IsDatagram(c, k.parents, h.wire[x], Incoming(w.s, w.t)[x]);
    } else if i in h.respTags {
      var x :| 0 <= x < |h.respTags| && h.respTags[x] == i;
      assert Outgoing(w.r, w.t)[x].id == k.parents[i].id;
    }
  }

  lemma ExtendReceive(c: Config, k: Core, k': Core, p: Parent, inflight: map<nat, ResponderInflight>,
                      queue: WorkQueue<ReceiveWqe>, cq: CompletionQueue)
    requires Extension(c, k, k') && k'.parents == k.parents + [p]
    requires InvReceive(c, k, inflight, queue) && InvReceiveCq(c, k.parents, k.decided, k.answers, queue.log, cq)
    ensures InvReceive(c, k', inflight, queue) && InvReceiveCq(c, k'.parents, k'.decided, k'.answers, queue.log, cq)
  {
    hide Rank, ImmRank, AcceptedBelow, Accepts, ReceiveEntries;
    ExtensionKeeps(c, k, k');
    ExtendEntries(c, k.parents, p, AcceptedBelow(c, k.parents, k.decided), k.answers, queue.log, |k.answers|);
  }

  lemma {:induction false} ExtendEntries(c: Config, parents: seq<Parent>, p: Parent, acc: seq<nat>,
                                         answers: seq<DatagramResult>, log: seq<ReceiveWqe>, n: nat)
    requires n <= |answers| && n <= |acc| && (forall x :: 0 <= x < n ==> acc[x] < |parents|)
    ensures ReceiveEntries(c, parents + [p], acc, answers, log, n) == ReceiveEntries(c, parents, acc, answers, log, n)
  {
    if n != 0 {
      ExtendEntries(c, parents, p, acc, answers, log, n - 1);
      ExtendOne(c, parents, p, acc[n - 1]);
    }
  }

  lemma TakeKeepsInv(c: Config, w: World)
    requires Inv(c, w) && w.r.pendingSend.None? && FreshId(c, w)
    requires TakeSend(c, w.r).Taken? && TakeSend(c, w.r).r.pendingSend.Some?
    ensures Inv(c, TakeWorld(c, w))
  {
    hide InvCut, InvFate, InvWire, InvWindow, InvRecords, InvPipe, InvRequests, InvCopyLog, InvCompleted, InvTerminal,
      InvWaiting, InvCopyBound, InvAnswers, InvResponses, InvInflight, InvDone, InvSendCq, InvUnique, InvReceive,
      InvReceiveCq, Extension, FreshId, TakeSend, TakeWorld;
    TakeShape(c, w);
    var w', k := TakeWorld(c, w), w.h.core;
    var k', p := w'.h.core, w'.r.pendingSend.value.parent;
    TookCut(c, w.r, w.h, w'.r, w'.h, p);
    TookFate(c, w.r, w.h, w'.r, w'.h, p);
    TookExtension(c, k, k', p, w.h.owner, w.s.order, w.s.inflight, w.h.wire, Incoming(w.s, w.t));
    ExtendWire(c, k.parents, p, k.rpos, w.h.wire, Coord(|k.parents|, 0), Incoming(w.s, w.t));
    ExtendWindow(c, k, k', w.h.owner, w.s.order, w.s.inflight);
    ExtendRequests(c, k.parents, p, w.h.owner, w.s.batch);
    ExtendRequests(c, k.parents, p, w.h.owner, w.b.outstanding);
    ExtendCopies(c, k, k', p, w.h.copies);
    ExtendAnswers(c, k, k', w.h.copies);
    ExtendResponses(c, k, k', w.h.done, w.h.respTags, w.h.taker, w.r.inflight, Outgoing(w.r, w.t));
    TookInflight(k.parents, p, w.h.done, w.h.taker, w.r.inflight);
    TookSendCq(c, w.r, w.h, w'.r, w'.h, p);
    TookUnique(c, w, k', p);
    ExtendReceive(c, k, k', p, w.s.inflight, w.s.receiveQueue, w.s.receiveCq);
  }

  // ----- refusing a WQE

  lemma RejectIsStable(c: Config, send: SendWqe, id: nat)
    requires 0 < c.payloadBytes && Prepare(c, send, id).Reject?
    ensures RejectedLocally(c, send, Prepare(c, send, id).status)
  {
    hide Gather;
  }

  lemma StopShape(c: Config, w: World)
    requires ValidConfig(c) && w.r.pendingSend.None? && FreshId(c, w) && !w.r.sendQueue.peeked
    requires TakeSend(c, w.r).Stopped?
    ensures var w' := StopWorld(c, w);
            || w' == w
            || (&& CanPeek(w.r.sendQueue) && CanReserve(w.r.sendCq)
                && var send := w.r.sendQueue.log[w.r.sendQueue.head];
                exists status ::
                  && RejectedLocally(c, send, status)
                  && w' == w.(r := w.r.(sendCq := Produced(w.r.sendCq, SendCompletion(send.wrId, c.qpNum, status)),
                                        sendQueue := Released(w.r.sendQueue)),
                              h := w.h.(fate := w.h.fate + [LocalReject(status)],
                                        sendTags := w.h.sendTags + [w.r.sendQueue.head])))
  {
    hide RejectedLocally, Gather;
    if CanPeek(w.r.sendQueue) {
      var send := w.r.sendQueue.log[w.r.sendQueue.head];
      var id := NextRequestId(c, w.r.nextSequence);
      if Prepare(c, send, id).Reject? {
        RejectIsStable(c, send, id);
      }
    }
  }

  lemma RejectFate(c: Config, parents: seq<Parent>, wqeOf: seq<nat>, fate: seq<Fate>, queue: WorkQueue<SendWqe>, status: nat)
    requires 0 < c.payloadBytes && CanPeek(queue) && RejectedLocally(c, queue.log[queue.head], status)
    requires InvFate(c, parents, wqeOf, fate, None, queue)
    ensures InvFate(c, parents, wqeOf, fate + [LocalReject(status)], None, Released(queue))
  {
    hide Prepare, RejectedLocally;
    assert forall k :: 0 <= k < |fate| ==> (fate + [LocalReject(status)])[k] == fate[k];
  }

  lemma RejectSendCq(c: Config, parents: seq<Parent>, wqeOf: seq<nat>, fate: seq<Fate>, done: seq<Option<DatagramResult>>,
                     tags: seq<nat>, cq: CompletionQueue, queue: WorkQueue<SendWqe>, status: nat)
    requires 0 < c.payloadBytes && CanPeek(queue)
    requires InvFate(c, parents, wqeOf, fate, None, queue)
    requires InvSendCq(c, queue.log, parents, fate, done, tags, cq)
    ensures InvSendCq(c, queue.log, parents, fate + [LocalReject(status)], done, tags + [queue.head],
                      Produced(cq, SendCompletion(queue.log[queue.head].wrId, c.qpNum, status)))
  {
    hide Prepare, RejectedLocally;
    var fate' := fate + [LocalReject(status)];
    forall k: nat | k != queue.head
      ensures Due(c, queue.log, parents, fate', done, k) == Due(c, queue.log, parents, fate, done, k)
    {
      if k < |fate| { assert fate'[k] == fate[k]; }
    }
    assert queue.head == |fate|;
    assert forall x :: 0 <= x < |tags| ==> tags[x] < |fate|;
  }

  lemma StopKeepsInv(c: Config, w: World)
    requires Inv(c, w) && w.r.pendingSend.None? && FreshId(c, w) && TakeSend(c, w.r).Stopped?
    ensures Inv(c, StopWorld(c, w))
  {
    hide InvFate, InvWire, InvWindow, InvRecords, InvPipe, InvRequests, InvCopyLog, InvCompleted, InvTerminal,
      InvWaiting, InvCopyBound, InvAnswers, InvResponses, InvInflight, InvDone, InvSendCq, InvUnique, InvReceive,
      InvReceiveCq, FreshId, TakeSend, StopWorld, RejectedLocally, WellFormed, CursorAt;
    StopShape(c, w);
    var w', q, h := StopWorld(c, w), w.r.sendQueue, w.h;
    if w' != w {
      var status := w'.h.fate[|h.fate|].status;
      RejectFate(c, h.core.parents, h.wqeOf, h.fate, q, status);
      RejectSendCq(c, h.core.parents, h.wqeOf, h.fate, h.done, h.sendTags, w.r.sendCq, q, status);
    }
  }

  // ----- pushing a datagram

  lemma CutInRange(c: Config, w: World)
    requires ValidConfig(c) && w.r.pendingSend.Some?
    requires InvCut(c, w.h.core.parents, w.r.pendingSend, w.r.sendQueue)
    ensures CursorInRange(w.r.pendingSend.value)
  {
    var p := w.r.pendingSend.value;
    if p.parent.totalLength != 0 { CursorStep(c, p); }
  }

  lemma CutIsReady(c: Config, parents: seq<Parent>, pending: Option<PendingSend>, queue: WorkQueue<SendWqe>)
    requires 0 < c.payloadBytes && pending.Some? && InvCut(c, parents, pending, queue)
    ensures CursorReady(c, pending.value) && parents != [] && pending.value.parent == parents[|parents| - 1]
    ensures queue.peeked && queue.head < |queue.log|
  {
    hide WellFormed, CursorAt;
  }

  /** The datagram at the cursor is the reference datagram; the cursor moves on by one or past the last. */
  lemma PushCursor(c: Config, p: PendingSend)
    requires 0 < c.payloadBytes && CursorReady(c, p) && CursorInRange(p)
    ensures p.payloadIndex < FragmentCount(p.parent)
    ensures p.parent.totalLength != 0 ==> p.payloadIndex < |Pieces(c, p.parent)|
    ensures NextDatagram(c, p) == DatagramAt(c, p.parent, p.payloadIndex)
    ensures var q := Advance(p, NextDatagram(c, p).payloadLength);
            && q.parent == p.parent
            && (p.parent.totalLength != 0 ==> q.payloadIndex == p.payloadIndex + 1)
            && (p.parent.totalLength != 0 && q.payloadIndex != p.parent.payloadCount ==> CursorReady(c, q))
  {
    hide WellFormed, CursorAt, Pieces, Offset;
    ParentFacts(c, p.parent);
    if p.parent.totalLength != 0 { CursorStep(c, p); }
  }

  /** The last datagram of a pending send goes out next. */
  predicate PushesLast(c: Config, p: PendingSend)
    requires CursorInRange(p)
  {
    p.parent.totalLength == 0 || Advance(p, NextDatagram(c, p).payloadLength).payloadIndex == p.parent.payloadCount
  }

  /** The fields a push that finds room changes. */
  lemma PushFields(c: Config, w: World)
    requires w.r.pendingSend.Some? && CursorInRange(w.r.pendingSend.value) && !w.r.pendingSend.value.zeroPayloadSent
    requires w.r.sendQueue.peeked && |w.t.requests| < c.requestCapacity
    ensures var p := w.r.pendingSend.value; var d := NextDatagram(c, p); var last := PushesLast(c, p);
            PushWorld(c, w) == w.(
              r := w.r.(pendingSend := if last then None else Some(Advance(p, d.payloadLength)),
                        sendQueue := if last then Released(w.r.sendQueue) else w.r.sendQueue,
                        nextSequence := if last then NextSequence(w.r.nextSequence) else w.r.nextSequence),
              t := w.t.(requests := w.t.requests + [d]),
              h := w.h.(wire := w.h.wire + [SenderPos(w.h.core.parents, w.r.pendingSend)]))
  {
    hide NextDatagram, Advance, NextSequence, SenderPos, CursorInRange;
  }

  /** After a push the requester stands at the next datagram, with a cursor that is ready for it. */
  lemma PushPosition(c: Config, parents: seq<Parent>, pending: Option<PendingSend>, queue: WorkQueue<SendWqe>)
    requires 0 < c.payloadBytes && pending.Some? && CursorInRange(pending.value) && InvCut(c, parents, pending, queue)
    ensures var p := pending.value; var d := NextDatagram(c, p); var last := PushesLast(c, p);
            var pending' := if last then None else Some(Advance(p, d.payloadLength));
            var queue' := if last then Released(queue) else queue;
            var spos := SenderPos(parents, pending);
            && ValidCoord(parents, spos) && IsDatagram(c, parents, spos, d)
            && SenderPos(parents, pending') == Succ(parents, spos)
            && InvCut(c, parents, pending', queue')
  {
    hide NextDatagram, Advance, DatagramAt, CursorInRange, WellFormed, CursorAt, Pieces, FragmentCount;
    CutIsReady(c, parents, pending, queue);
    PushCursor(c, pending.value);
    FragmentCountIs(pending.value.parent);
  }

  lemma FragmentCountIs(p: Parent)
    ensures FragmentCount(p) == if p.totalLength == 0 then 1 else p.payloadCount
  {
  }

  lemma PushFate(c: Config, parents: seq<Parent>, wqeOf: seq<nat>, fate: seq<Fate>, pending: Option<PendingSend>,
                 queue: WorkQueue<SendWqe>, pending': Option<PendingSend>, queue': WorkQueue<SendWqe>)
    requires 0 < c.payloadBytes && pending.Some? && InvFate(c, parents, wqeOf, fate, pending, queue)
    requires queue'.log == queue.log && queue'.head + (if pending'.Some? then 1 else 0) == queue.head + 1
    requires pending'.Some? ==> queue' == queue
    ensures InvFate(c, parents, wqeOf, fate, pending', queue')
  {
    hide Prepare, RejectedLocally;
  }

  lemma PushWire(c: Config, parents: seq<Parent>, rpos: Coord, wire: seq<Coord>, spos: Coord,
                 incoming: seq<RequestDatagram>, d: RequestDatagram)
    requires 0 < c.payloadBytes && InvWire(c, parents, rpos, wire, spos, incoming)
    requires ValidCoord(parents, spos) && IsDatagram(c, parents, spos, d)
    ensures InvWire(c, parents, rpos, wire + [spos], Succ(parents, spos), incoming + [d])
  {
    hide IsDatagram;
    ChainPush(parents, rpos, wire, spos);
  }

  lemma PushKeepsInv(c: Config, w: World)
    requires Inv(c, w) && w.r.pendingSend.Some? && CursorInRange(w.r.pendingSend.value)
    ensures Inv(c, PushWorld(c, w))
  {
    hide InvCut, InvFate, InvWire, InvWindow, InvRecords, InvPipe, InvRequests, InvCopyLog, InvCompleted, InvTerminal,
      InvWaiting, InvCopyBound, InvAnswers, InvResponses, InvInflight, InvDone, InvSendCq, InvUnique, InvReceive,
      InvReceiveCq, IsDatagram, CursorAt, WellFormed, PushWorld, PushesLast, NextDatagram, Advance;
    var k, p, q := w.h.core, w.r.pendingSend, w.r.sendQueue;
    CutIsReady(c, k.parents, p, q);
    if |w.t.requests| < c.requestCapacity {
      PushFields(c, w);
      PushPosition(c, k.parents, p, q);
      var w', d := PushWorld(c, w), NextDatagram(c, p.value);
      PushFate(c, k.parents, w.h.wqeOf, w.h.fate, p, q, w'.r.pendingSend, w'.r.sendQueue);
      PushWire(c, k.parents, k.rpos, w.h.wire, SenderPos(k.parents, p), Incoming(w.s, w.t), d);
      assert Incoming(w'.s, w'.t) == Incoming(w.s, w.t) + [d];
    } else {
      PushRefused(c, w);
    }
  }

  /** Back-pressure: a full request queue changes nothing. */
  lemma PushRefused(c: Config, w: World)
    requires w.r.pendingSend.Some? && CursorInRange(w.r.pendingSend.value) && c.requestCapacity <= |w.t.requests|
    ensures PushWorld(c, w) == w
  {
    hide NextDatagram, Advance, CursorInRange;
  }

  lemma SendKeepsInv(c: Config, w: World)
    requires Inv(c, w) && (w.r.pendingSend.None? ==> FreshId(c, w))
    ensures w.r.pendingSend.Some? ==> CursorInRange(w.r.pendingSend.value)
    ensures Inv(c, SendWorld(c, w))
  {
    hide InvCut, InvFate, InvWire, InvWindow, InvRecords, InvPipe, InvRequests, InvCopyLog, InvCompleted, InvTerminal,
      InvWaiting, InvCopyBound, InvAnswers, InvResponses, InvInflight, InvDone, InvSendCq, InvUnique, InvReceive,
      InvReceiveCq, FreshId, StopWorld, PushWorld, CursorInRange, TakeSend;
    if w.r.pendingSend.Some? {
      CutInRange(c, w);
      PushKeepsInv(c, w);
    } else if TakeSend(c, w.r).Stopped? {
      StopKeepsInv(c, w);
    } else {
      TakenInRange(c, w.r);
      TakeKeepsInv(c, w);
      PushKeepsInv(c, TakeWorld(c, w));
    }
  }
}
