/**
  try_request keeps the protocol invariant (src/worker/worker.cpp:245-390).  On
  the traffic the requester produces, a datagram of an accepted parent always
  passes the continuation check and the final-offset check.
 */
module ProtocolRequest {
  import opened Common
  import opened WorkerTypes
  import opened Fragments
  import opened WorkerSteps
  import opened Protocol
  import opened ProtocolOrder

  function LoadRequest(w: World): World
    requires w.s.pendingRequest.None? && w.t.requests != []
  {
    w.(s := w.s.(pendingRequest := Some(w.t.requests[0])), t := w.t.(requests := w.t.requests[1..]))
  }

  /** The position after the pending datagram was consumed. */
  function Consumed(k: Core): Core {
    if k.rpos.j < |k.parents| then k.(rpos := Succ(k.parents, k.rpos)) else k
  }

  function RejectWorld(c: Config, w: World, loaded: bool, result: DatagramResult): World
    requires w.s.pendingRequest.Some?
  {
    var o := RejectRequest(c, w.s, w.t, loaded, result);
    if o.s.pendingRequest.Some? || w.h.wire == [] then w.(s := o.s, t := o.t)
    else
      w.(s := o.s, t := o.t,
         h := w.h.(core := Consumed(w.h.core).(decided := w.h.core.rpos.j + 1), wire := w.h.wire[1..],
                   respTags := w.h.respTags + [w.h.core.rpos.j]))
  }

  /** The parent of the pending datagram enters the responder's inflight map. */
  function OpenWorld(w: World, target: nat): World
    requires w.s.pendingRequest.Some?
    requires w.s.pendingRequest.value.opcode == RdmaWriteWithImmediate ==> CanPeek(w.s.receiveQueue)
  {
    var q := w.s.pendingRequest.value;
    var imm := q.opcode == RdmaWriteWithImmediate;
    var receive := if imm then Some(w.s.receiveQueue.log[w.s.receiveQueue.head]) else None;
    w.(s := w.s.(inflight := w.s.inflight[q.id := OpenParent(q, target, receive)], order := w.s.order + [q.id],
                 receiveQueue := if imm then w.s.receiveQueue.(peeked := true) else w.s.receiveQueue),
       h := w.h.(core := w.h.core.(decided := w.h.core.rpos.j + 1), owner := w.h.owner[q.id := w.h.core.rpos.j]))
  }

  function PayloadWorld(w: World, loaded: bool): World
    requires w.s.pendingRequest.Some? && w.s.pendingRequest.value.id in w.s.inflight
  {
    var o := AcceptPayload(w.s, w.t, loaded);
    if o.s.pendingRequest.Some? || w.h.wire == [] then w.(s := o.s, t := o.t)
    else w.(s := o.s, t := o.t, h := w.h.(core := Consumed(w.h.core), wire := w.h.wire[1..]))
  }

  function HandleRequestWorld(c: Config, w: World, loaded: bool): World
    requires w.s.pendingRequest.Some?
  {
    var q := w.s.pendingRequest.value;
    if q.targetQp != c.responderQpNum || q.totalLength > U32_MAX then
      RejectWorld(c, w, loaded, RemoteInvalidRequest)
    else if q.id in w.s.inflight then PayloadWorld(w, loaded)
    else if !ValidFirst(q) then RejectWorld(c, w, loaded, RemoteInvalidRequest)
    else
      match c.resolveRkey(q.rkey, q.remoteAddress, q.totalLength)
      case None => RejectWorld(c, w, loaded, RemoteAccessError)
      case Some(target) =>
        if q.opcode == RdmaWriteWithImmediate && !CanPeek(w.s.receiveQueue) then w
        else PayloadWorld(OpenWorld(w, target), loaded)
  }

  /** One call of try_request. */
  function RequestWorld(c: Config, w: World): World {
    if w.s.pendingRequest.Some? then HandleRequestWorld(c, w, false)
    else if w.t.requests == [] then w
    else HandleRequestWorld(c, LoadRequest(w), true)
  }

  lemma RequestWorldIsRequestStep(c: Config, w: World)
    ensures var o, w' := RequestStep(c, w.s, w.t), RequestWorld(c, w);
            w'.s == o.s && w'.t == o.t && w'.r == w.r && w'.b == w.b
  {
    hide AcceptPayload, RejectRequest, OpenParent, ValidFirst, Consumed, CanPeek;
  }

  lemma LoadKeepsInv(c: Config, w: World)
    requires Inv(c, w) && w.s.pendingRequest.None? && w.t.requests != []
    ensures Inv(c, LoadRequest(w))
  {
    hide InvCut, InvFate, InvWire, InvWindow, InvRecords, InvPipe, InvRequests, InvCopyLog, InvCompleted, InvTerminal,
      InvWaiting, InvCopyBound, InvAnswers, InvResponses, InvInflight, InvDone, InvSendCq, InvUnique, InvReceive,
      InvReceiveCq;
    assert Incoming(LoadRequest(w).s, LoadRequest(w).t) == Incoming(w.s, w.t);
  }

  // ----- what the pending datagram is

  /** The pending datagram is fragment rpos.i of parent rpos.j. */
  ghost predicate AtHead(c: Config, k: Core, wire: seq<Coord>, q: RequestDatagram)
    requires 0 < c.payloadBytes
  {
    && wire != [] && ValidCoord(k.parents, k.rpos) && wire[0] == k.rpos
    && WellFormed(c, k.parents[k.rpos.j])
    && IsDatagram(c, k.parents, k.rpos, q)
  }

  lemma HeadOfWire(c: Config, k: Core, wire: seq<Coord>, spos: Coord, incoming: seq<RequestDatagram>,
                   pending: Option<PendingSend>, queue: WorkQueue<SendWqe>)
    requires 0 < c.payloadBytes && InvWire(c, k.parents, k.rpos, wire, spos, incoming) && incoming != []
    requires InvCut(c, k.parents, pending, queue)
    ensures AtHead(c, k, wire, incoming[0])
    ensures InvWire(c, k.parents, Succ(k.parents, k.rpos), wire[1..], spos, incoming[1..])
  {
    hide IsDatagram;
    ChainPop(k.parents, k.rpos, wire, spos);
    assert IsDatagram(c, k.parents, wire[0], incoming[0]);
  }

  /** The fields of the pending datagram that the responder looks at. */
  lemma HeadFields(c: Config, k: Core, wire: seq<Coord>, q: RequestDatagram)
    requires ValidConfig(c) && AtHead(c, k, wire, q)
    ensures var p := k.parents[k.rpos.j];
            && q.id == p.id && q.targetQp == p.targetQp && q.rkey == p.rkey && q.remoteAddress == p.remoteAddress
            && q.opcode == p.opcode && q.totalLength == p.totalLength <= U32_MAX
            && (Accepts(c, p) ==> p.totalLength != 0)
            && (p.totalLength == 0 ==> k.rpos.i == 0)
            && (ValidFirst(q) <==> k.rpos.i == 0)
  {
    var p := k.parents[k.rpos.j];
    ParentFacts(c, p);
    if p.totalLength != 0 { OffsetInside(c, p, k.rpos.i); }
  }

  /** The id of the pending datagram is in the inflight map exactly when its parent is in the window. */
  lemma HeadInflight(c: Config, k: Core, owner: map<nat, nat>, order: seq<nat>, inflight: map<nat, ResponderInflight>,
                     done: seq<Option<DatagramResult>>, respTags: seq<nat>)
    requires k.rpos.j < |k.parents| && InvWindow(c, k, owner, order, inflight) && InvUnique(c, k, done, respTags)
    ensures k.parents[k.rpos.j].id in inflight <==> InWindow(c, k, k.rpos.j)
    ensures InWindow(c, k, k.rpos.j) <==> Accepts(c, k.parents[k.rpos.j]) && k.decided == k.rpos.j + 1
    ensures InWindow(c, k, k.rpos.j) ==> k.parents[k.rpos.j].id in owner && owner[k.parents[k.rpos.j].id] == k.rpos.j
  {
    hide Rank, AcceptedBelow;
    var id := k.parents[k.rpos.j].id;
    if id in inflight {
      var i := owner[id];
      assert Live(c, k, done, respTags, i) && Live(c, k, done, respTags, k.rpos.j);
    }
  }

  // ----- moving past the pending datagram

  /** Moving the position past a datagram starts at most its own parent. */
  lemma ConsumeFacts(c: Config, k: Core)
    requires k.rpos.j < |k.parents|
    ensures var k' := Consumed(k);
            && k'.parents == k.parents && k'.answers == k.answers && k'.decided == k.decided
            && (forall j: nat :: Started(k'.rpos, j) <==> Started(k.rpos, j) || j == k.rpos.j)
            && (forall j: nat :: InWindow(c, k', j) <==> InWindow(c, k, j))
            && k.rpos.j <= k'.rpos.j <= k.rpos.j + 1
  {
  }

  lemma ConsumeUnique(c: Config, k: Core, k': Core, done: seq<Option<DatagramResult>>, respTags: seq<nat>, tags': seq<nat>)
    requires InvUnique(c, k, done, respTags) && k.rpos.j < |k.parents|
    requires k'.parents == k.parents && k.rpos.j <= k'.rpos.j
    requires forall j: nat :: InWindow(c, k', j) ==> InWindow(c, k, j) || j == k.rpos.j
    requires forall j :: j in tags' ==> j in respTags || j == k.rpos.j
    ensures InvUnique(c, k', done, tags')
  {
    hide InWindow;
    forall j | Live(c, k', done, tags', j) ensures Live(c, k, done, respTags, j) {
    }
  }

  // ----- reject

  lemma NoMoreAccepted(c: Config, parents: seq<Parent>, j: nat)
    requires j < |parents| && !Accepts(c, parents[j])
    ensures AcceptedBelow(c, parents, j + 1) == AcceptedBelow(c, parents, j) && Rank(c, parents, j + 1) == Rank(c, parents, j)
  {
  }

  lemma RejectWindow(c: Config, k: Core, owner: map<nat, nat>, order: seq<nat>, inflight: map<nat, ResponderInflight>)
    requires 0 < c.payloadBytes && ValidCoord(k.parents, k.rpos) && !Accepts(c, k.parents[k.rpos.j])
    requires InvWindow(c, k, owner, order, inflight) && InvRecords(c, k, inflight)
    ensures var k' := Consumed(k).(decided := k.rpos.j + 1);
            && InvWindow(c, k', owner, order, inflight) && InvRecords(c, k', inflight)
            && (forall j: nat :: InWindow(c, k', j) <==> InWindow(c, k, j))
            && AcceptedBelow(c, k'.parents, k'.decided) == AcceptedBelow(c, k.parents, k.decided)
  {
    hide RecordOk, Rank, AcceptedBelow, Accepts;
    var k' := Consumed(k).(decided := k.rpos.j + 1);
    NoMoreAccepted(c, k.parents, k.rpos.j);
    assert forall j: nat :: InWindow(c, k', j) <==> InWindow(c, k, j);
    assert forall j: nat :: InWindow(c, k, j) ==> j < k.rpos.j;
  }

  lemma RejectResponses(c: Config, k: Core, done: seq<Option<DatagramResult>>, respTags: seq<nat>,
                        outgoing: seq<ResponseDatagram>, response: ResponseDatagram)
    requires ValidCoord(k.parents, k.rpos) && !Accepts(c, k.parents[k.rpos.j])
    requires InvResponses(c, k, done, respTags, outgoing)
    requires response.id == k.parents[k.rpos.j].id
    requires response.result == if k.rpos.i == 0 then RejectResult(c, k.parents[k.rpos.j]) else RemoteInvalidRequest
    ensures InvResponses(c, Consumed(k).(decided := k.rpos.j + 1), done, respTags + [k.rpos.j], outgoing + [response])
  {
    hide Rank;
    var k', j, tags' := Consumed(k).(decided := k.rpos.j + 1), k.rpos.j, respTags + [k.rpos.j];
    ConsumeFacts(c, k);
    forall i: nat, res | i < |k.parents| && i != j ensures Answered(c, k', i, res) <==> Answered(c, k, i, res) { }
    forall x | 0 <= x < |outgoing| ensures ResponseOk(c, k', done, tags', x, outgoing[x]) {
      assert ResponseOk(c, k, done, respTags, x, outgoing[x]);
      assert tags'[..x] == respTags[..x];
    }
    var n := |outgoing|;
    assert tags'[..n] == respTags;
    if 0 < k.rpos.i && j < |done| && done[j].None? {
      assert Answered(c, k, j, RejectResult(c, k.parents[j]));
    }
    assert ResponseOk(c, k', done, tags', n, response);
    assert j in tags' by { assert tags'[n] == j; }
    forall i | i in respTags ensures i in tags' {
      var x :| 0 <= x < |respTags| && respTags[x] == i;
      assert tags'[x] == i;
    }
  }

  lemma RejectDone(c: Config, k: Core, done: seq<Option<DatagramResult>>)
    requires ValidCoord(k.parents, k.rpos) && InvDone(c, k, done)
    ensures InvDone(c, Consumed(k).(decided := k.rpos.j + 1), done)
  {
    hide Rank;
    ConsumeFacts(c, k);
  }

  lemma RejectReceive(c: Config, k: Core, inflight: map<nat, ResponderInflight>, queue: WorkQueue<ReceiveWqe>,
                      owner: map<nat, nat>, order: seq<nat>)
    requires ValidCoord(k.parents, k.rpos) && !Accepts(c, k.parents[k.rpos.j])
    requires InvWindow(c, k, owner, order, inflight) && InvReceive(c, k, inflight, queue)
    requires forall j: nat :: InWindow(c, Consumed(k).(decided := k.rpos.j + 1), j) <==> InWindow(c, k, j)
    ensures InvReceive(c, Consumed(k).(decided := k.rpos.j + 1), inflight, queue)
  {
    hide Rank, AcceptedBelow, InWindow;
  }

  lemma RejectCopyBound(c: Config, k: Core, copies: CopyLog)
    requires ValidCoord(k.parents, k.rpos) && InvCopyBound(k, copies) && k.decided <= k.rpos.j + 1
    ensures InvCopyBound(Consumed(k).(decided := k.rpos.j + 1), copies)
  {
  }

  /** The rejected parent is not in the window, and its result is the one the code pushes. */
  lemma RejectKeepsInv(c: Config, w: World, loaded: bool, result: DatagramResult)
    requires Inv(c, w) && w.s.pendingRequest.Some?
    requires AtHead(c, w.h.core, w.h.wire, w.s.pendingRequest.value)
    requires !Accepts(c, w.h.core.parents[w.h.core.rpos.j])
    requires result == if w.h.core.rpos.i == 0 then RejectResult(c, w.h.core.parents[w.h.core.rpos.j]) else RemoteInvalidRequest
    ensures Inv(c, RejectWorld(c, w, loaded, result))
  {
    hide InvCut, InvFate, InvWire, InvWindow, InvRecords, InvPipe, InvRequests, InvCopyLog, InvCompleted, InvTerminal,
      InvWaiting, InvCopyBound, InvAnswers, InvResponses, InvInflight, InvDone, InvSendCq, InvUnique, InvReceive,
      InvReceiveCq, Accepts, AcceptedBelow, Rank, InWindow, Consumed, IsDatagram, WellFormed;
    var w', h, k := RejectWorld(c, w, loaded, result), w.h, w.h.core;
    if w'.s.pendingRequest.None? {
      var q, k' := w.s.pendingRequest.value, w'.h.core;
      HeadFields(c, k, h.wire, q);
      assert Incoming(w'.s, w'.t) == Incoming(w.s, w.t)[1..];
      assert Incoming(w.s, w.t)[0] == q;
      HeadOfWire(c, k, h.wire, SenderPos(k.parents, w.r.pendingSend), Incoming(w.s, w.t), w.r.pendingSend, w.r.sendQueue);
      ConsumedIs(k);
      WindowBounds(c, k, h.owner, w.s.order, w.s.inflight);
      RejectWindow(c, k, h.owner, w.s.order, w.s.inflight);
      var response := ResponseDatagram(q.id, result);
      assert Outgoing(w'.r, w'.t) == Outgoing(w.r, w.t) + [response];
      RejectResponses(c, k, h.done, h.respTags, Outgoing(w.r, w.t), response);
      RejectDone(c, k, h.done);
      ConsumeUnique(c, k, k', h.done, h.respTags, w'.h.respTags);
      RejectReceive(c, k, w.s.inflight, w.s.receiveQueue, h.owner, w.s.order);
      RejectReceiveCq(c, k, k', w.s.receiveQueue.log, w.s.receiveCq);
      RejectCopyBound(c, k, h.copies);
    }
  }

  lemma ConsumedIs(k: Core)
    requires k.rpos.j < |k.parents|
    ensures Consumed(k) == k.(rpos := Succ(k.parents, k.rpos))
    ensures k.rpos.j <= Consumed(k).rpos.j <= k.rpos.j + 1
    ensures Consumed(k).rpos.j == k.rpos.j + 1 ==> Consumed(k).rpos.i == 0
    ensures Consumed(k).rpos.j == k.rpos.j ==> 0 < Consumed(k).rpos.i
  {
  }

  lemma WindowBounds(c: Config, k: Core, owner: map<nat, nat>, order: seq<nat>, inflight: map<nat, ResponderInflight>)
    requires InvWindow(c, k, owner, order, inflight)
    ensures k.rpos.j <= k.decided <= k.rpos.j + 1 && k.decided <= |k.parents|
    ensures 0 < k.rpos.i ==> k.decided == k.rpos.j + 1
  {
  }

  lemma RejectReceiveCq(c: Config, k: Core, k': Core, log: seq<ReceiveWqe>, cq: CompletionQueue)
    requires InvReceiveCq(c, k.parents, k.decided, k.answers, log, cq)
    requires k'.parents == k.parents && k'.answers == k.answers && k.decided <= |k.parents| && k'.decided <= |k.parents|
    requires AcceptedBelow(c, k'.parents, k'.decided) == AcceptedBelow(c, k.parents, k.decided)
    ensures InvReceiveCq(c, k'.parents, k'.decided, k'.answers, log, cq)
  {
  }

  // ----- open

  lemma OneMoreAccepted(c: Config, parents: seq<Parent>, j: nat)
    requires j < |parents| && Accepts(c, parents[j])
    ensures AcceptedBelow(c, parents, j + 1) == AcceptedBelow(c, parents, j) + [j]
    ensures |AcceptedBelow(c, parents, j)| == Rank(c, parents, j)
  {
  }

  lemma OpenWindow(c: Config, k: Core, owner: map<nat, nat>, order: seq<nat>, inflight: map<nat, ResponderInflight>,
                   rec: ResponderInflight)
    requires k.rpos.j < |k.parents| && k.rpos.i == 0 && k.decided == k.rpos.j && Accepts(c, k.parents[k.rpos.j])
    requires InvWindow(c, k, owner, order, inflight) && k.parents[k.rpos.j].id !in inflight
    ensures var id, k' := k.parents[k.rpos.j].id, k.(decided := k.rpos.j + 1);
            && InvWindow(c, k', owner[id := k.rpos.j], order + [id], inflight[id := rec])
            && (forall j: nat :: InWindow(c, k', j) <==> InWindow(c, k, j) || j == k.rpos.j)
  {
    hide Rank, AcceptedBelow, Accepts;
    var j := k.rpos.j;
    var id, k' := k.parents[j].id, k.(decided := k.rpos.j + 1);
    var acc := AcceptedBelow(c, k.parents, j);
    OneMoreAccepted(c, k.parents, j);
    assert forall i: nat :: InWindow(c, k', i) <==> InWindow(c, k, i) || i == j;
    forall x | 0 <= x < |order| + 1 ensures (order + [id])[x] == k.parents[(acc + [j])[|k.answers| + x]].id {
      if x < |order| { assert order[x] == k.parents[acc[|k.answers| + x]].id; }
    }
  }

  lemma OpenRecords(c: Config, k: Core, owner: map<nat, nat>, order: seq<nat>, inflight: map<nat, ResponderInflight>,
                    q: RequestDatagram, receive: Option<ReceiveWqe>, wire: seq<Coord>)
    requires ValidConfig(c) && AtHead(c, k, wire, q) && k.rpos.i == 0 && Accepts(c, k.parents[k.rpos.j])
    requires receive.Some? == IsImm(k.parents[k.rpos.j])
    requires InvWindow(c, k, owner, order, inflight) && InvRecords(c, k, inflight) && q.id !in inflight
    requires forall j: nat :: InWindow(c, k.(decided := k.rpos.j + 1), j) <==> InWindow(c, k, j) || j == k.rpos.j
    ensures InvRecords(c, k.(decided := k.rpos.j + 1),
                       inflight[q.id := OpenParent(q, Target(c, k.parents[k.rpos.j]), receive)])
  {
    hide Rank, AcceptedBelow;
    var p := k.parents[k.rpos.j];
    HeadFields(c, k, wire, q);
    ParentFacts(c, p);
    CountTrueNone(p.payloadCount);
    assert RecordOk(c, p, OpenParent(q, Target(c, p), receive), 0);
    hide RecordOk, OpenParent, Accepts;
  }

  lemma OpenPipe(inflight: map<nat, ResponderInflight>, pipe: multiset<(nat, nat)>, id: nat, rec: ResponderInflight)
    requires InvPipe(inflight, pipe) && id !in inflight && rec.nextPayloadIndex == 0
    ensures InvPipe(inflight[id := rec], pipe)
  {
    forall k: (nat, nat) ensures Awaited(inflight[id := rec], k) <==> Awaited(inflight, k) { }
  }

  /** A new owner for an id that nothing in the pipe carries changes nothing there. */
  lemma OpenOwner(c: Config, parents: seq<Parent>, owner: map<nat, nat>, inflight: map<nat, ResponderInflight>,
                  batch: seq<BackendRequest>, b: Backend, copies: CopyLog, id: nat, j: nat)
    requires 0 < c.payloadBytes && InvPipe(inflight, Pipe(batch, b)) && id !in inflight
    requires InvRequests(c, parents, owner, batch) && InvRequests(c, parents, owner, b.outstanding)
    requires InvCompleted(owner, copies, b.completions)
    requires InvWaiting(owner, copies, batch) && InvWaiting(owner, copies, b.outstanding)
    ensures InvRequests(c, parents, owner[id := j], batch) && InvRequests(c, parents, owner[id := j], b.outstanding)
    ensures InvCompleted(owner[id := j], copies, b.completions)
    ensures InvWaiting(owner[id := j], copies, batch) && InvWaiting(owner[id := j], copies, b.outstanding)
  {
    hide IsPayload, InvPipe, Pipe, CopiedWith;
    PipeMembers(inflight, batch, b);
  }

  lemma OpenTerminal(owner: map<nat, nat>, copies: CopyLog, inflight: map<nat, ResponderInflight>, id: nat, j: nat,
                     rec: ResponderInflight)
    requires InvTerminal(owner, copies, inflight) && id !in inflight
    requires forall i :: 0 <= i < |rec.terminal| ==> !rec.terminal[i]
    ensures InvTerminal(owner[id := j], copies, inflight[id := rec])
  {
    hide CopiedWith;
  }

  lemma OpenResponses(c: Config, k: Core, done: seq<Option<DatagramResult>>, respTags: seq<nat>,
                      outgoing: seq<ResponseDatagram>, d: nat)
    requires InvResponses(c, k, done, respTags, outgoing) && InvDone(c, k, done)
    ensures InvResponses(c, k.(decided := d), done, respTags, outgoing) && InvDone(c, k.(decided := d), done)
  {
    hide Rank;
    var k' := k.(decided := d);
    forall x | 0 <= x < |outgoing| ensures ResponseOk(c, k', done, respTags, x, outgoing[x]) {
      assert ResponseOk(c, k, done, respTags, x, outgoing[x]);
    }
    forall j: nat, res | j < |k.parents| ensures Answered(c, k', j, res) <==> Answered(c, k, j, res) { }
  }

  lemma OpenReceive(c: Config, k: Core, owner: map<nat, nat>, order: seq<nat>, inflight: map<nat, ResponderInflight>,
                    queue: WorkQueue<ReceiveWqe>, rec: ResponderInflight)
    requires InvWindow(c, k, owner, order, inflight)
    requires k.rpos.j < |k.parents| && k.rpos.i == 0 && k.decided == k.rpos.j && Accepts(c, k.parents[k.rpos.j])
    requires k.parents[k.rpos.j].id !in inflight && InvReceive(c, k, inflight, queue)
    requires IsImm(k.parents[k.rpos.j]) ==> CanPeek(queue) && rec.receiveWrId == queue.log[queue.head].wrId
    requires forall j: nat :: InWindow(c, k.(decided := k.rpos.j + 1), j) <==> InWindow(c, k, j) || j == k.rpos.j
    ensures InvReceive(c, k.(decided := k.rpos.j + 1), inflight[k.parents[k.rpos.j].id := rec],
                       if IsImm(k.parents[k.rpos.j]) then queue.(peeked := true) else queue)
  {
    hide Rank, AcceptedBelow, ImmRank;
  }

  /** Entries for answers already given do not depend on later acceptances. */
  lemma {:induction false} EntriesPrefix(c: Config, parents: seq<Parent>, acc: seq<nat>, acc': seq<nat>,
                                         answers: seq<DatagramResult>, answers': seq<DatagramResult>,
                                         log: seq<ReceiveWqe>, n: nat)
    requires n <= |answers| && n <= |acc| && (forall x :: 0 <= x < |acc| ==> acc[x] < |parents|)
    requires acc <= acc' && answers <= answers' && (forall x :: 0 <= x < |acc'| ==> acc'[x] < |parents|)
    ensures ReceiveEntries(c, parents, acc', answers', log, n) == ReceiveEntries(c, parents, acc, answers, log, n)
  {
    if n != 0 { EntriesPrefix(c, parents, acc, acc', answers, answers', log, n - 1); }
  }

  lemma OpenReceiveCq(c: Config, k: Core, log: seq<ReceiveWqe>, cq: CompletionQueue, d: nat)
    requires InvReceiveCq(c, k.parents, k.decided, k.answers, log, cq) && k.decided <= d <= |k.parents|
    ensures InvReceiveCq(c, k.parents, d, k.answers, log, cq)
  {
    AcceptedPrefix(c, k.parents, k.decided, d);
    EntriesPrefix(c, k.parents, AcceptedBelow(c, k.parents, k.decided), AcceptedBelow(c, k.parents, d), k.answers,
                  k.answers, log, |k.answers|);
    hide AcceptedBelow, ReceiveEntries;
    RankStep(c, k.parents, k.decided, d);
  }

  lemma OpenUnique(c: Config, k: Core, done: seq<Option<DatagramResult>>, respTags: seq<nat>, d: nat)
    requires InvUnique(c, k, done, respTags) && k.rpos.j < |k.parents|
    requires forall j: nat :: InWindow(c, k.(decided := d), j) <==> InWindow(c, k, j) || j == k.rpos.j
    ensures InvUnique(c, k.(decided := d), done, respTags)
  {
    hide InWindow;
    forall j | Live(c, k.(decided := d), done, respTags, j) ensures Live(c, k, done, respTags, j) { }
  }

  lemma OpenKeepsInv(c: Config, w: World, target: nat)
    requires Inv(c, w) && w.s.pendingRequest.Some?
    requires AtHead(c, w.h.core, w.h.wire, w.s.pendingRequest.value)
    requires w.s.pendingRequest.value.id !in w.s.inflight && w.h.core.rpos.i == 0
    requires Accepts(c, w.h.core.parents[w.h.core.rpos.j]) && target == Target(c, w.h.core.parents[w.h.core.rpos.j])
    requires w.s.pendingRequest.value.opcode == RdmaWriteWithImmediate ==> CanPeek(w.s.receiveQueue)
    ensures Inv(c, OpenWorld(w, target))
    ensures AtHead(c, OpenWorld(w, target).h.core, w.h.wire, w.s.pendingRequest.value)
    ensures OpenWorld(w, target).h.core == w.h.core.(decided := w.h.core.rpos.j + 1)
  {
    hide InvCut, InvFate, InvWire, InvWindow, InvRecords, InvPipe, InvRequests, InvCopyLog, InvCompleted, InvTerminal,
      InvWaiting, InvCopyBound, InvAnswers, InvResponses, InvInflight, InvDone, InvSendCq, InvUnique, InvReceive,
      InvReceiveCq, Accepts, AcceptedBelow, Rank, InWindow, IsDatagram, WellFormed, RecordOk, Pipe;
    var w', h, k, q := OpenWorld(w, target), w.h, w.h.core, w.s.pendingRequest.value;
    var j, k' := k.rpos.j, k.(decided := k.rpos.j + 1);
    HeadFields(c, k, h.wire, q);
    HeadInflight(c, k, h.owner, w.s.order, w.s.inflight, h.done, h.respTags);
    WindowBounds(c, k, h.owner, w.s.order, w.s.inflight);
    var imm := q.opcode == RdmaWriteWithImmediate;
    var receive := if imm then Some(w.s.receiveQueue.log[w.s.receiveQueue.head]) else None;
    var rec := OpenParent(q, target, receive);
    OpenWindow(c, k, h.owner, w.s.order, w.s.inflight, rec);
    OpenRecords(c, k, h.owner, w.s.order, w.s.inflight, q, receive, h.wire);
    OpenPipe(w.s.inflight, Pipe(w.s.batch, w.b), q.id, rec);
    OpenOwner(c, k.parents, h.owner, w.s.inflight, w.s.batch, w.b, h.copies, q.id, j);
    OpenTerminal(h.owner, h.copies, w.s.inflight, q.id, j, rec);
    OpenResponses(c, k, h.done, h.respTags, Outgoing(w.r, w.t), j + 1);
    OpenReceive(c, k, h.owner, w.s.order, w.s.inflight, w.s.receiveQueue, rec);
    OpenReceiveCq(c, k, w.s.receiveQueue.log, w.s.receiveCq, j + 1);
    OpenUnique(c, k, h.done, h.respTags, j + 1);
    OpenCopyBound(k, h.copies, j + 1);
    assert Incoming(w'.s, w'.t) == Incoming(w.s, w.t);
  }

  lemma OpenCopyBound(k: Core, copies: CopyLog, d: nat)
    requires InvCopyBound(k, copies) && k.decided <= d
    ensures InvCopyBound(k.(decided := d), copies)
  {
  }

  // ----- batch a payload

  /** The continuation check passes and the final-offset error does not fire. */
  lemma PayloadPasses(c: Config, k: Core, wire: seq<Coord>, q: RequestDatagram, rec: ResponderInflight)
    requires ValidConfig(c) && AtHead(c, k, wire, q) && Accepts(c, k.parents[k.rpos.j])
    requires RecordOk(c, k.parents[k.rpos.j], rec, k.rpos.i)
    ensures var p := k.parents[k.rpos.j];
            && ValidPayload(rec, q) && rec.payloadCount != 0
            && RecordOk(c, p, CountPayload(rec, q), k.rpos.i + 1)
            && CountPayload(rec, q).terminal == rec.terminal && CountPayload(rec, q).results == rec.results
            && CountPayload(rec, q).receiveWrId == rec.receiveWrId
            && IsPayload(c, k.parents, k.rpos, MakeBackendRequest(q, rec.targetAddress))
            && k.rpos.i < |rec.terminal| && !rec.terminal[k.rpos.i]
            && FragmentCount(p) == p.payloadCount == |Pieces(c, p)|
            && q.payloadIndex == k.rpos.i && q.id == p.id
  {
    var p := k.parents[k.rpos.j];
    HeadFields(c, k, wire, q);
    ParentFacts(c, p);
    OffsetInside(c, p, k.rpos.i);
    hide CutAll, Offset, CountTrue, CeilSum, SegmentBytes;
  }

  lemma PayloadWindow(c: Config, k: Core, owner: map<nat, nat>, order: seq<nat>, inflight: map<nat, ResponderInflight>,
                      rec: ResponderInflight)
    requires 0 < c.payloadBytes && ValidCoord(k.parents, k.rpos) && InWindow(c, k, k.rpos.j)
    requires k.decided == k.rpos.j + 1
    requires InvWindow(c, k, owner, order, inflight) && InvRecords(c, k, inflight)
    requires RecordOk(c, k.parents[k.rpos.j], rec, k.rpos.i + 1)
    ensures var id := k.parents[k.rpos.j].id;
            && InvWindow(c, Consumed(k), owner, order, inflight[id := rec])
            && InvRecords(c, Consumed(k), inflight[id := rec])
  {
    hide RecordOk, Rank, AcceptedBelow, Accepts;
    ConsumeFacts(c, k);
    var j, k' := k.rpos.j, Consumed(k);
    assert Progress(k', j) == k.rpos.i + 1;
    forall i: nat | InWindow(c, k', i) && i != j ensures Progress(k', i) == Progress(k, i) && k.parents[i].id != k.parents[j].id { }
  }

  lemma PayloadPipe(inflight: map<nat, ResponderInflight>, batch: seq<BackendRequest>, b: Backend, q: BackendRequest,
                    rec: ResponderInflight)
    requires q.id in inflight && InvPipe(inflight, Pipe(batch, b))
    requires rec.terminal == inflight[q.id].terminal
    requires q.payloadIndex == inflight[q.id].nextPayloadIndex < |rec.terminal| && !rec.terminal[q.payloadIndex]
    requires rec.nextPayloadIndex == inflight[q.id].nextPayloadIndex + 1
    ensures InvPipe(inflight[q.id := rec], Pipe(batch + [q], b))
  {
    var key := (q.id, q.payloadIndex);
    RequestKeysAppend(batch, [q]);
    assert RequestKeys([q]) == [key];
    assert Pipe(batch + [q], b) == Pipe(batch, b) + multiset{key};
    forall k: (nat, nat)
      ensures Awaited(inflight[q.id := rec], k) <==> Awaited(inflight, k) || k == key { }
    assert !Awaited(inflight, key);
  }

  lemma PayloadBatch(c: Config, k: Core, owner: map<nat, nat>, copies: CopyLog, batch: seq<BackendRequest>, q: BackendRequest)
    requires 0 < c.payloadBytes && ValidCoord(k.parents, k.rpos)
    requires InvRequests(c, k.parents, owner, batch) && InvWaiting(owner, copies, batch) && InvCopyBound(k, copies)
    requires IsPayload(c, k.parents, k.rpos, q) && q.id in owner && owner[q.id] == k.rpos.j && q.payloadIndex == k.rpos.i
    ensures InvRequests(c, k.parents, owner, batch + [q]) && InvWaiting(owner, copies, batch + [q])
    ensures InvCopyBound(Consumed(k), copies)
  {
    hide PayloadRequest, Accepts, Pieces;
  }

  lemma PayloadTerminal(owner: map<nat, nat>, copies: CopyLog, inflight: map<nat, ResponderInflight>, id: nat, rec: ResponderInflight)
    requires InvTerminal(owner, copies, inflight) && id in inflight
    requires rec.terminal == inflight[id].terminal && rec.results == inflight[id].results
    ensures InvTerminal(owner, copies, inflight[id := rec])
  {
    hide CopiedWith;
  }

  lemma PayloadResponses(c: Config, k: Core, done: seq<Option<DatagramResult>>, respTags: seq<nat>,
                         outgoing: seq<ResponseDatagram>)
    requires k.rpos.j < |k.parents| && Accepts(c, k.parents[k.rpos.j])
    requires InvResponses(c, k, done, respTags, outgoing) && InvDone(c, k, done)
    ensures InvResponses(c, Consumed(k), done, respTags, outgoing) && InvDone(c, Consumed(k), done)
  {
    hide Rank;
    ConsumeFacts(c, k);
    var k' := Consumed(k);
    forall j: nat, res | j < |k.parents| ensures Answered(c, k', j, res) <==> Answered(c, k, j, res) { }
    hide Answered;
    forall x | 0 <= x < |outgoing| ensures ResponseOk(c, k', done, respTags, x, outgoing[x]) {
      assert ResponseOk(c, k, done, respTags, x, outgoing[x]);
    }
  }

  lemma PayloadReceive(c: Config, k: Core, inflight: map<nat, ResponderInflight>, queue: WorkQueue<ReceiveWqe>,
                       rec: ResponderInflight)
    requires ValidCoord(k.parents, k.rpos) && Accepts(c, k.parents[k.rpos.j]) && k.decided == k.rpos.j + 1
    requires k.parents[k.rpos.j].id in inflight && InvReceive(c, k, inflight, queue)
    requires rec.receiveWrId == inflight[k.parents[k.rpos.j].id].receiveWrId
    ensures InvReceive(c, Consumed(k), inflight[k.parents[k.rpos.j].id := rec],
                       if IsImm(k.parents[k.rpos.j]) && k.rpos.i == 0 then Released(queue) else queue)
  {
    ConsumeFacts(c, k);
    hide Rank, AcceptedBelow;
  }

  lemma RecordAt(c: Config, k: Core, owner: map<nat, nat>, order: seq<nat>, inflight: map<nat, ResponderInflight>)
    requires 0 < c.payloadBytes && k.rpos.j < |k.parents| && InWindow(c, k, k.rpos.j)
    requires InvWindow(c, k, owner, order, inflight) && InvRecords(c, k, inflight)
    ensures k.parents[k.rpos.j].id in inflight
    ensures RecordOk(c, k.parents[k.rpos.j], inflight[k.parents[k.rpos.j].id], k.rpos.i)
  {
    hide RecordOk, Rank, AcceptedBelow, Accepts;
  }

  lemma ReceiveReady(c: Config, k: Core, inflight: map<nat, ResponderInflight>, queue: WorkQueue<ReceiveWqe>)
    requires InvReceive(c, k, inflight, queue) && k.decided == k.rpos.j + 1 && k.rpos.i == 0
    requires k.rpos.j < |k.parents| && IsImm(k.parents[k.rpos.j])
    ensures queue.peeked
  {
  }

  lemma PayloadKeepsInv(c: Config, w: World, loaded: bool)
    requires Inv(c, w) && w.s.pendingRequest.Some? && w.s.pendingRequest.value.id in w.s.inflight
    requires AtHead(c, w.h.core, w.h.wire, w.s.pendingRequest.value)
    requires InWindow(c, w.h.core, w.h.core.rpos.j) && w.h.core.decided == w.h.core.rpos.j + 1
    ensures Inv(c, PayloadWorld(w, loaded))
  {
    hide InvCut, InvFate, InvWire, InvWindow, InvRecords, InvPipe, InvRequests, InvCopyLog, InvCompleted, InvTerminal,
      InvWaiting, InvCopyBound, InvAnswers, InvResponses, InvInflight, InvDone, InvSendCq, InvUnique, InvReceive,
      InvReceiveCq, AcceptedBelow, Rank, IsDatagram, WellFormed, Pipe, Consumed, ValidPayload, CountPayload, CountTrue,
      Accepts, IsPayload, Offset, Pieces, CutAll, CeilSum, SegmentBytes;
    var w', h, k, q := PayloadWorld(w, loaded), w.h, w.h.core, w.s.pendingRequest.value;
    RecordAt(c, k, h.owner, w.s.order, w.s.inflight);
    var rec := w.s.inflight[q.id];
    HeadFields(c, k, h.wire, q);
    PayloadPasses(c, k, h.wire, q, rec);
    if IsImm(k.parents[k.rpos.j]) && k.rpos.i == 0 { ReceiveReady(c, k, w.s.inflight, w.s.receiveQueue); }
    if w'.s.pendingRequest.None? {
      var rec', r := CountPayload(rec, q), MakeBackendRequest(q, rec.targetAddress);
      assert w'.s == w.s.(inflight := w.s.inflight[q.id := rec'], batch := w.s.batch + [r], pendingRequest := None,
                          receiveQueue := if IsImm(k.parents[k.rpos.j]) && k.rpos.i == 0 then Released(w.s.receiveQueue)
                                          else w.s.receiveQueue);
      assert Incoming(w'.s, w'.t) == Incoming(w.s, w.t)[1..] && Incoming(w.s, w.t)[0] == q;
      HeadOfWire(c, k, h.wire, SenderPos(k.parents, w.r.pendingSend), Incoming(w.s, w.t), w.r.pendingSend, w.r.sendQueue);
      ConsumedIs(k);
      HeadInflight(c, k, h.owner, w.s.order, w.s.inflight, h.done, h.respTags);
      PayloadWindow(c, k, h.owner, w.s.order, w.s.inflight, rec');
      PayloadPipe(w.s.inflight, w.s.batch, w.b, r, rec');
      PayloadBatch(c, k, h.owner, h.copies, w.s.batch, r);
      PayloadTerminal(h.owner, h.copies, w.s.inflight, q.id, rec');
      PayloadResponses(c, k, h.done, h.respTags, Outgoing(w.r, w.t));
      PayloadReceive(c, k, w.s.inflight, w.s.receiveQueue, rec');
      ConsumeFacts(c, k);
      ConsumeUnique(c, k, Consumed(k), h.done, h.respTags, h.respTags);
    } else {
      assert w' == w;
    }
  }

  lemma HandleKeepsInv(c: Config, w: World, loaded: bool)
    requires Inv(c, w) && w.s.pendingRequest.Some?
    ensures Inv(c, HandleRequestWorld(c, w, loaded))
  {
    hide InvCut, InvFate, InvWire, InvWindow, InvRecords, InvPipe, InvRequests, InvCopyLog, InvCompleted, InvTerminal,
      InvWaiting, InvCopyBound, InvAnswers, InvResponses, InvInflight, InvDone, InvSendCq, InvUnique, InvReceive,
      InvReceiveCq, AcceptedBelow, Rank, IsDatagram, WellFormed, Pipe, Consumed, ValidFirst, RejectWorld, PayloadWorld;
    var h, k, q := w.h, w.h.core, w.s.pendingRequest.value;
    assert Incoming(w.s, w.t)[0] == q;
    HeadOfWire(c, k, h.wire, SenderPos(k.parents, w.r.pendingSend), Incoming(w.s, w.t), w.r.pendingSend, w.r.sendQueue);
    HeadFields(c, k, h.wire, q);
    HeadInflight(c, k, h.owner, w.s.order, w.s.inflight, h.done, h.respTags);
    WindowBounds(c, k, h.owner, w.s.order, w.s.inflight);
    var p := k.parents[k.rpos.j];
    if !Accepts(c, p) {
      RejectKeepsInv(c, w, loaded, if k.rpos.i == 0 then RejectResult(c, p) else RemoteInvalidRequest);
    } else if k.decided == k.rpos.j + 1 {
      PayloadKeepsInv(c, w, loaded);
    } else if q.opcode != RdmaWriteWithImmediate || CanPeek(w.s.receiveQueue) {
      var w1 := OpenWorld(w, Target(c, p));
      OpenKeepsInv(c, w, Target(c, p));
      HeadInflight(c, w1.h.core, w1.h.owner, w1.s.order, w1.s.inflight, w1.h.done, w1.h.respTags);
      PayloadKeepsInv(c, w1, loaded);
    }
  }

  lemma RequestKeepsInv(c: Config, w: World)
    requires Inv(c, w)
    ensures Inv(c, RequestWorld(c, w))
  {
    hide Inv, HandleRequestWorld;
    if w.s.pendingRequest.Some? {
      HandleKeepsInv(c, w, false);
    } else if w.t.requests != [] {
      LoadKeepsInv(c, w);
      HandleKeepsInv(c, LoadRequest(w), true);
    }
  }
}
