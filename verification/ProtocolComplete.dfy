/** try_response keeps the protocol invariant (src/worker/worker.cpp:210-243). */
module ProtocolComplete {
  import opened Common
  import opened WorkerTypes
  import opened Fragments
  import opened WorkerSteps
  import opened Protocol
  import opened ProtocolOrder

  function LoadResponse(w: World): World
    requires w.r.pendingResponse.None? && w.t.responses != []
  {
    w.(r := w.r.(pendingResponse := Some(w.t.responses[0])), t := w.t.(responses := w.t.responses[1..]))
  }

  /** try_response with a response pending; its first tag names the parent. */
  function HandleResponseWorld(c: Config, w: World, loaded: bool): World
    requires w.r.pendingResponse.Some?
  {
    var o := HandleResponse(c, w.r, w.t, loaded);
    if o.r.pendingResponse.Some? || w.h.respTags == [] then w.(r := o.r, t := o.t)
    else
      var j := w.h.respTags[0];
      var response := w.r.pendingResponse.value;
      var h := w.h.(respTags := w.h.respTags[1..]);
      if response.id !in w.r.inflight || j >= |h.done| || j >= |h.wqeOf| then w.(r := o.r, t := o.t, h := h)
      else
        w.(r := o.r, t := o.t,
           h := h.(done := h.done[j := Some(response.result)],
                   sendTags := if |o.r.sendCq.log| == |w.r.sendCq.log| then h.sendTags else h.sendTags + [h.wqeOf[j]]))
  }

  /** One call of try_response. */
  function ResponseWorld(c: Config, w: World): World {
    if w.r.pendingResponse.Some? then HandleResponseWorld(c, w, false)
    else if w.t.responses == [] then w
    else HandleResponseWorld(c, LoadResponse(w), true)
  }

  lemma ResponseWorldIsResponseStep(c: Config, w: World)
    ensures var o, w' := ResponseStep(c, w.r, w.t), ResponseWorld(c, w);
            w'.r == o.r && w'.t == o.t && w'.s == w.s && w'.b == w.b
  {
  }

  lemma LoadKeepsInv(c: Config, w: World)
    requires Inv(c, w) && w.r.pendingResponse.None? && w.t.responses != []
    ensures Inv(c, LoadResponse(w))
  {
    hide InvCut, InvFate, InvWire, InvWindow, InvRecords, InvPipe, InvRequests, InvCopyLog, InvCompleted, InvTerminal,
      InvWaiting, InvCopyBound, InvAnswers, InvResponses, InvInflight, InvDone, InvSendCq, InvUnique, InvReceive,
      InvReceiveCq;
    assert Outgoing(LoadResponse(w).r, LoadResponse(w).t) == Outgoing(w.r, w.t);
  }

  /** The response at the head belongs to parent respTags[0]; in flight, that parent is the one on record. */
  lemma HeadParent(c: Config, k: Core, done: seq<Option<DatagramResult>>, respTags: seq<nat>, taker: map<nat, nat>,
                   inflight: map<nat, RequesterInflight>, outgoing: seq<ResponseDatagram>)
    requires outgoing != [] && InvResponses(c, k, done, respTags, outgoing)
    requires InvInflight(k.parents, done, taker, inflight) && InvUnique(c, k, done, respTags)
    ensures |respTags| == |outgoing| && respTags[0] < |k.parents| == |done|
    ensures outgoing[0].id == k.parents[respTags[0]].id
    ensures outgoing[0].id in inflight ==>
              && done[respTags[0]].None? && taker[outgoing[0].id] == respTags[0]
              && inflight[outgoing[0].id] == InflightOf(k.parents[respTags[0]])
    ensures outgoing[0].id !in inflight ==> done[respTags[0]].Some?
  {
    hide InWindow, Answered;
    var j, id := respTags[0], outgoing[0].id;
    assert ResponseOk(c, k, done, respTags, 0, outgoing[0]);
    assert j in respTags;
    if id in inflight {
      var i := taker[id];
      assert Live(c, k, done, respTags, i) && Live(c, k, done, respTags, j);
    }
  }

  lemma DropResponses(c: Config, k: Core, done: seq<Option<DatagramResult>>, respTags: seq<nat>, outgoing: seq<ResponseDatagram>)
    requires outgoing != [] && InvResponses(c, k, done, respTags, outgoing)
    requires respTags[0] < |done| && done[respTags[0]].Some?
    ensures InvResponses(c, k, done, respTags[1..], outgoing[1..])
  {
    hide Answered, Accepts, Started;
    forall x | 0 <= x < |outgoing| - 1 ensures ResponseOk(c, k, done, respTags[1..], x, outgoing[1..][x]) {
      assert ResponseOk(c, k, done, respTags, x + 1, outgoing[x + 1]);
      forall j | j in respTags[..x + 1] && j != respTags[0] ensures j in respTags[1..][..x] {
        var y :| 0 <= y < x + 1 && respTags[..x + 1][y] == j;
        assert respTags[1..][..x][y - 1] == j;
      }
    }
    forall j | j in respTags && j != respTags[0] ensures j in respTags[1..] {
      var x :| 0 <= x < |respTags| && respTags[x] == j;
      assert respTags[1..][x - 1] == j;
    }
  }

  lemma DropUnique(c: Config, k: Core, done: seq<Option<DatagramResult>>, respTags: seq<nat>,
                   done': seq<Option<DatagramResult>>)
    requires respTags != [] && InvUnique(c, k, done, respTags) && |done'| == |done|
    requires forall j :: 0 <= j < |done| && done'[j].None? ==> done[j].None?
    ensures InvUnique(c, k, done', respTags[1..])
  {
    hide InWindow;
    forall j | Live(c, k, done', respTags[1..], j) ensures Live(c, k, done, respTags, j) {
    }
  }

  lemma MarkResponses(c: Config, k: Core, done: seq<Option<DatagramResult>>, respTags: seq<nat>,
                      outgoing: seq<ResponseDatagram>, j: nat, res: DatagramResult)
    requires InvResponses(c, k, done, respTags, outgoing) && j < |done|
    ensures InvResponses(c, k, done[j := Some(res)], respTags, outgoing)
  {
    hide Answered, Accepts, Started;
    forall x | 0 <= x < |outgoing| ensures ResponseOk(c, k, done[j := Some(res)], respTags, x, outgoing[x]) {
      assert ResponseOk(c, k, done, respTags, x, outgoing[x]);
    }
  }

  lemma MarkInflight(c: Config, k: Core, done: seq<Option<DatagramResult>>, respTags: seq<nat>, taker: map<nat, nat>,
                     inflight: map<nat, RequesterInflight>, j: nat, res: DatagramResult)
    requires InvInflight(k.parents, done, taker, inflight) && InvUnique(c, k, done, respTags)
    requires j < |done| && done[j].None?
    ensures InvInflight(k.parents, done[j := Some(res)], taker, inflight - {k.parents[j].id})
  {
    hide InWindow;
    forall i | 0 <= i < |done| && i != j && done[i].None? ensures k.parents[i].id != k.parents[j].id {
      assert Live(c, k, done, respTags, i) && Live(c, k, done, respTags, j);
    }
  }

  lemma MarkDone(c: Config, k: Core, done: seq<Option<DatagramResult>>, j: nat, res: DatagramResult)
    requires InvDone(c, k, done) && j < |done| && j < |k.parents| && Answered(c, k, j, res)
    ensures InvDone(c, k, done[j := Some(res)])
  {
    hide Answered;
  }

  /** Completing parent j makes exactly its own WQE's completion due. */
  lemma MarkDue(c: Config, queue: WorkQueue<SendWqe>, parents: seq<Parent>, wqeOf: seq<nat>, fate: seq<Fate>,
                pending: Option<PendingSend>, done: seq<Option<DatagramResult>>, j: nat, res: DatagramResult)
    requires 0 < c.payloadBytes && InvFate(c, parents, wqeOf, fate, pending, queue)
    requires |done| == |parents| && j < |parents| && done[j].None?
    ensures wqeOf[j] < |fate| && Due(c, queue.log, parents, fate, done, wqeOf[j]) == None
    ensures Due(c, queue.log, parents, fate, done[j := Some(res)], wqeOf[j])
            == if res == Success && !parents[j].signaled then None
               else Some(SendCompletion(parents[j].wrId, c.qpNum, CompletionStatus(res)))
    ensures forall k: nat :: k != wqeOf[j] ==>
              Due(c, queue.log, parents, fate, done[j := Some(res)], k) == Due(c, queue.log, parents, fate, done, k)
  {
    hide Gather, RejectedLocally;
    assert Prepare(c, queue.log[wqeOf[j]], parents[j].id) == Accept(parents[j]);
    assert parents[j].wrId == queue.log[wqeOf[j]].wrId;
  }

  lemma MarkSendCq(c: Config, queue: WorkQueue<SendWqe>, parents: seq<Parent>, wqeOf: seq<nat>, fate: seq<Fate>,
                   pending: Option<PendingSend>, done: seq<Option<DatagramResult>>, tags: seq<nat>, cq: CompletionQueue,
                   j: nat, res: DatagramResult)
    requires 0 < c.payloadBytes && InvFate(c, parents, wqeOf, fate, pending, queue)
    requires InvSendCq(c, queue.log, parents, fate, done, tags, cq)
    requires |done| == |parents| && j < |parents| && done[j].None? && |wqeOf| == |parents|
    ensures var done' := done[j := Some(res)];
            if res == Success && !parents[j].signaled then
              InvSendCq(c, queue.log, parents, fate, done', tags, cq)
            else
              InvSendCq(c, queue.log, parents, fate, done', tags + [wqeOf[j]],
                        Produced(cq, SendCompletion(parents[j].wrId, c.qpNum, CompletionStatus(res))))
  {
    hide InvFate, Due;
    MarkDue(c, queue, parents, wqeOf, fate, pending, done, j, res);
  }

  lemma HandleKeepsInv(c: Config, w: World, loaded: bool)
    requires Inv(c, w) && w.r.pendingResponse.Some?
    ensures Inv(c, HandleResponseWorld(c, w, loaded))
  {
    hide InvCut, InvFate, InvWire, InvWindow, InvRecords, InvPipe, InvRequests, InvCopyLog, InvCompleted, InvTerminal,
      InvWaiting, InvCopyBound, InvAnswers, InvResponses, InvInflight, InvDone, InvSendCq, InvUnique, InvReceive,
      InvReceiveCq;
    var w', h, k := HandleResponseWorld(c, w, loaded), w.h, w.h.core;
    var out, response := Outgoing(w.r, w.t), w.r.pendingResponse.value;
    HeadParent(c, k, h.done, h.respTags, h.taker, w.r.inflight, out);
    HeadAnswer(c, k, h.done, h.respTags, out);
    var j := h.respTags[0];
    if w'.r.pendingResponse.None? {
      assert Outgoing(w'.r, w'.t) == out[1..];
      if response.id !in w.r.inflight {
        DropResponses(c, k, h.done, h.respTags, out);
        DropUnique(c, k, h.done, h.respTags, h.done);
      } else {
        FateLength(c, k.parents, h.wqeOf, h.fate, w.r.pendingSend, w.r.sendQueue);
        CqOpen(c, w.r.sendQueue.log, k.parents, h.fate, h.done, h.sendTags, w.r.sendCq);
        var done' := h.done[j := Some(response.result)];
        MarkResponses(c, k, h.done, h.respTags, out, j, response.result);
        DropResponses(c, k, done', h.respTags, out);
        DropUnique(c, k, h.done, h.respTags, done');
        MarkInflight(c, k, h.done, h.respTags, h.taker, w.r.inflight, j, response.result);
        MarkDone(c, k, h.done, j, response.result);
        MarkSendCq(c, w.r.sendQueue, k.parents, h.wqeOf, h.fate, w.r.pendingSend, h.done, h.sendTags, w.r.sendCq, j,
                   response.result);
      }
    }
  }

  lemma HeadAnswer(c: Config, k: Core, done: seq<Option<DatagramResult>>, respTags: seq<nat>, outgoing: seq<ResponseDatagram>)
    requires outgoing != [] && InvResponses(c, k, done, respTags, outgoing)
    ensures respTags != [] && respTags[0] < |k.parents|
    ensures respTags[0] < |done| && done[respTags[0]].None? ==> Answered(c, k, respTags[0], outgoing[0].result)
  {
    hide Answered;
    assert ResponseOk(c, k, done, respTags, 0, outgoing[0]);
  }

  lemma FateLength(c: Config, parents: seq<Parent>, wqeOf: seq<nat>, fate: seq<Fate>,
                   pending: Option<PendingSend>, queue: WorkQueue<SendWqe>)
    requires 0 < c.payloadBytes && InvFate(c, parents, wqeOf, fate, pending, queue)
    ensures |wqeOf| == |parents|
  {
  }

  lemma CqOpen(c: Config, log: seq<SendWqe>, parents: seq<Parent>, fate: seq<Fate>,
               done: seq<Option<DatagramResult>>, tags: seq<nat>, cq: CompletionQueue)
    requires InvSendCq(c, log, parents, fate, done, tags, cq)
    ensures !cq.reserved
  {
  }

  lemma ResponseKeepsInv(c: Config, w: World)
    requires Inv(c, w)
    ensures Inv(c, ResponseWorld(c, w))
  {
    hide Inv, HandleResponseWorld;
    if w.r.pendingResponse.Some? {
      HandleKeepsInv(c, w, false);
    } else if w.t.responses != [] {
      LoadKeepsInv(c, w);
      HandleKeepsInv(c, LoadResponse(w), true);
    }
  }
}
