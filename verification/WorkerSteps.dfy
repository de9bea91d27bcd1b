/**
  The loop worker's steps as functions on values (src/worker/worker.cpp).
  Branch for branch these follow the C++ code, including the branches that the
  protocol proof later shows unreachable.  LoopWorker.dfy proves the imperative
  worker against them; Protocol*.dfy proves what they keep over whole runs.
 */
module WorkerSteps {
  import opened Common
  import opened WorkerTypes
  import opened Fragments

  // ----- requester

  datatype RequesterOut = RequesterOut(r: Requester, t: Transport, progressed: bool)

  function NextRequestId(c: Config, nextSequence: nat): nat {
    c.qpNum * 0x1_0000_0000 + nextSequence
  }

  /** The 32-bit sequence skips 0 when it wraps. */
  function NextSequence(n: nat): nat {
    var m := (n + 1) % 0x1_0000_0000;
    if m == 0 then 1 else m
  }

  predicate CanPeek<T>(q: WorkQueue<T>) { !q.peeked && q.head < |q.log| }

  predicate CanReserve(q: CompletionQueue) { !q.reserved && HasRoom(q) }

  function Released<T>(q: WorkQueue<T>): WorkQueue<T> { q.(head := q.head + 1, peeked := false) }

  function Produced(q: CompletionQueue, e: CompletionEntry): CompletionQueue { q.(log := q.log + [e]) }

  /** complete_send_error, after the WQE was peeked. */
  function CompleteSendError(c: Config, r: Requester, send: SendWqe, status: nat): (Requester, bool) {
    if !CanReserve(r.sendCq) then (r.(sendQueue := r.sendQueue.(peeked := false)), false)
    else
      (r.(sendCq := Produced(r.sendCq, SendCompletion(send.wrId, c.qpNum, status)),
          sendQueue := Released(r.sendQueue)), true)
  }

  datatype Take = Stopped(r: Requester, progressed: bool) | Taken(r: Requester)

  function InflightOf(p: Parent): RequesterInflight {
    RequesterInflight(p.wrId, p.signaled, p.totalLength, p.payloadCount)
  }

  /** The first half of try_send: take the next WQE when none is pending. */
  function TakeSend(c: Config, r: Requester): Take
    requires 0 < c.payloadBytes
  {
    if !CanPeek(r.sendQueue) then Stopped(r, false)
    else
      var send := r.sendQueue.log[r.sendQueue.head];
      var r1 := r.(sendQueue := r.sendQueue.(peeked := true));
      match Prepare(c, send, NextRequestId(c, r.nextSequence))
      case Reject(status) =>
        var (r2, ok) := CompleteSendError(c, r1, send, status);
        Stopped(r2, ok)
      case Accept(parent) =>
        if parent.id in r.inflight then Stopped(r1, false)
        else Taken(r1.(inflight := r.inflight[parent.id := InflightOf(parent)],
                       pendingSend := Some(Fresh(parent))))
  }

  /** The segment a nonzero pending send points at exists: the C++ code indexes it unchecked. */
  predicate CursorInRange(p: PendingSend) {
    p.parent.totalLength != 0 ==>
      && p.segmentIndex < |p.parent.segments|
      && p.segmentOffset <= p.parent.segments[p.segmentIndex].length
  }

  /** The second half of try_send: push the next datagram of the pending send. */
  function PushSend(c: Config, r: Requester, t: Transport): RequesterOut
    requires r.pendingSend.Some? && CursorInRange(r.pendingSend.value)
  {
    var p := r.pendingSend.value;
    if p.parent.totalLength == 0 && p.zeroPayloadSent then RequesterOut(r, t, false)
    else if |t.requests| >= c.requestCapacity then RequesterOut(r, t, false)
    else
      var d := NextDatagram(c, p);
      var q := Advance(p, d.payloadLength);
      var t' := t.(requests := t.requests + [d]);
      var finished := p.parent.totalLength == 0 || q.payloadIndex == p.parent.payloadCount;
      if !finished then RequesterOut(r.(pendingSend := Some(q)), t', true)
      else if !r.sendQueue.peeked then RequesterOut(r.(pendingSend := Some(q)), t', false)
      else
        RequesterOut(r.(pendingSend := None, sendQueue := Released(r.sendQueue),
                        nextSequence := NextSequence(r.nextSequence)), t', true)
  }

  lemma TakenInRange(c: Config, r: Requester)
    requires ValidConfig(c) && TakeSend(c, r).Taken?
    ensures TakeSend(c, r).r.pendingSend.Some?
    ensures CursorInRange(TakeSend(c, r).r.pendingSend.value)
  {
    var send := r.sendQueue.log[r.sendQueue.head];
    var id := NextRequestId(c, r.nextSequence);
    PrepareFacts(c, send, id);
    ParentFacts(c, Prepare(c, send, id).parent);
  }

  function SendStep(c: Config, r: Requester, t: Transport): RequesterOut
    requires ValidConfig(c)
    requires r.pendingSend.Some? ==> CursorInRange(r.pendingSend.value)
  {
    if r.pendingSend.Some? then PushSend(c, r, t)
    else
      match TakeSend(c, r)
      case Stopped(r', progressed) => RequesterOut(r', t, progressed)
      case Taken(r') => TakenInRange(c, r); PushSend(c, r', t)
  }

  /** try_response once a response is pending. */
  function HandleResponse(c: Config, r: Requester, t: Transport, loaded: bool): RequesterOut
    requires r.pendingResponse.Some?
  {
    var response := r.pendingResponse.value;
    if response.id !in r.inflight then RequesterOut(r.(pendingResponse := None), t, true)
    else
      var record := r.inflight[response.id];
      var done := r.(inflight := r.inflight - {response.id}, pendingResponse := None);
      if response.result == Success && !record.signaled then RequesterOut(done, t, true)
      else if !CanReserve(r.sendCq) then RequesterOut(r, t, loaded)
      else
        var entry := SendCompletion(record.wrId, c.qpNum, CompletionStatus(response.result));
        RequesterOut(done.(sendCq := Produced(r.sendCq, entry)), t, true)
  }

  function ResponseStep(c: Config, r: Requester, t: Transport): RequesterOut {
    if r.pendingResponse.Some? then HandleResponse(c, r, t, false)
    else if t.responses == [] then RequesterOut(r, t, false)
    else HandleResponse(c, r.(pendingResponse := Some(t.responses[0])),
                        t.(responses := t.responses[1..]), true)
  }

  // ----- responder

  datatype ResponderOut = ResponderOut(s: Responder, t: Transport, progressed: bool)

  /** Answer the pending request with an error; keep it when the response queue is full. */
  function RejectRequest(c: Config, s: Responder, t: Transport, loaded: bool, result: DatagramResult): ResponderOut
    requires s.pendingRequest.Some?
  {
    if |t.responses| >= c.responseCapacity then ResponderOut(s, t, loaded)
    else ResponderOut(s.(pendingRequest := None),
                      t.(responses := t.responses + [ResponseDatagram(s.pendingRequest.value.id, result)]), true)
  }

  predicate ValidFirst(q: RequestDatagram) {
    && q.payloadIndex == 0 && q.payloadOffset == 0
    && ((q.payloadCount == 0 && q.totalLength == 0 && q.payloadLength == 0)
        || (q.payloadCount != 0 && q.totalLength != 0 && q.payloadLength != 0
            && q.payloadLength <= q.totalLength && q.payloadCount <= q.totalLength))
  }

  predicate ValidPayload(parent: ResponderInflight, q: RequestDatagram) {
    && q.sourceQp == parent.sourceQp && q.targetQp == parent.targetQp && q.opcode == parent.opcode
    && q.remoteAddress == parent.remoteAddress && q.rkey == parent.rkey
    && q.immediate == parent.immediate && q.totalLength == parent.totalLength
    && q.payloadCount == parent.payloadCount
    && ((parent.payloadCount == 0 && q.payloadIndex == 0 && q.payloadOffset == 0 && q.payloadLength == 0)
        || (parent.payloadCount != 0 && q.payloadIndex == parent.nextPayloadIndex
            && q.payloadIndex < parent.payloadCount && q.payloadOffset == parent.nextPayloadOffset
            && q.payloadLength != 0 && q.payloadOffset <= parent.totalLength
            && q.payloadLength <= parent.totalLength - q.payloadOffset))
  }

  function OpenParent(q: RequestDatagram, target: nat, receive: Option<ReceiveWqe>): ResponderInflight {
    ResponderInflight(
      q.sourceQp, q.targetQp, q.opcode, q.remoteAddress, q.rkey, q.immediate, q.totalLength, target,
      0, 0, q.payloadCount, 0, seq(q.payloadCount, _ => false), seq(q.payloadCount, _ => Success),
      Success, receive.Some?, false, if receive.Some? then receive.value.wrId else 0, q.totalLength)
  }

  function MakeBackendRequest(q: RequestDatagram, target: nat): BackendRequest {
    BackendRequest(q.id, q.totalLength, q.payloadOffset, q.sourceAddress, target + q.payloadOffset,
                   q.payloadLength, q.payloadIndex, q.payloadCount)
  }

  /** The record after one more payload was batched (worker.cpp:375-387). */
  function CountPayload(parent: ResponderInflight, q: RequestDatagram): ResponderInflight {
    var p := parent.(nextPayloadIndex := parent.nextPayloadIndex + 1,
                     nextPayloadOffset := parent.nextPayloadOffset + q.payloadLength,
                     receiveConsumed := parent.receiveConsumed || parent.hasReceive);
    if p.nextPayloadIndex == p.payloadCount && p.nextPayloadOffset != p.totalLength
    then p.(parentError := RemoteInvalidRequest) else p
  }

  /** try_request from the payload check on, the parent being in flight. */
  function AcceptPayload(s: Responder, t: Transport, loaded: bool): ResponderOut
    requires s.pendingRequest.Some? && s.pendingRequest.value.id in s.inflight
  {
    var q := s.pendingRequest.value;
    var parent := s.inflight[q.id];
    var release := parent.hasReceive && !parent.receiveConsumed;
    if !ValidPayload(parent, q) then
      ResponderOut(s.(inflight := s.inflight[q.id := parent.(parentError := RemoteInvalidRequest)]), t, loaded)
    else if parent.payloadCount == 0 then
      if release && !s.receiveQueue.peeked then ResponderOut(s, t, false)
      else
        ResponderOut(
          s.(inflight := s.inflight[q.id := parent.(receiveConsumed := parent.receiveConsumed || release)],
             receiveQueue := if release then Released(s.receiveQueue) else s.receiveQueue,
             pendingRequest := None), t, true)
    else if |s.batch| == BACKEND_BATCH_CAPACITY then ResponderOut(s, t, loaded)
    else if release && !s.receiveQueue.peeked then ResponderOut(s, t, loaded)
    else
      ResponderOut(
        s.(inflight := s.inflight[q.id := CountPayload(parent, q)],
           batch := s.batch + [MakeBackendRequest(q, parent.targetAddress)],
           receiveQueue := if release then Released(s.receiveQueue) else s.receiveQueue,
           pendingRequest := None), t, true)
  }

  function HandleRequest(c: Config, s: Responder, t: Transport, loaded: bool): ResponderOut
    requires s.pendingRequest.Some?
  {
    var q := s.pendingRequest.value;
    if q.targetQp != c.responderQpNum || q.totalLength > U32_MAX then
      RejectRequest(c, s, t, loaded, RemoteInvalidRequest)
    else if q.id in s.inflight then AcceptPayload(s, t, loaded)
    else if !ValidFirst(q) then RejectRequest(c, s, t, loaded, RemoteInvalidRequest)
    else
      match c.resolveRkey(q.rkey, q.remoteAddress, q.totalLength)
      case None => RejectRequest(c, s, t, loaded, RemoteAccessError)
      case Some(target) =>
        if q.opcode == RdmaWriteWithImmediate && !CanPeek(s.receiveQueue) then ResponderOut(s, t, loaded)
        else
          var imm := q.opcode == RdmaWriteWithImmediate;
          var receive := if imm then Some(s.receiveQueue.log[s.receiveQueue.head]) else None;
          AcceptPayload(
            s.(inflight := s.inflight[q.id := OpenParent(q, target, receive)],
               order := s.order + [q.id],
               receiveQueue := if imm then s.receiveQueue.(peeked := true) else s.receiveQueue),
            t, loaded)
  }

  function RequestStep(c: Config, s: Responder, t: Transport): ResponderOut {
    if s.pendingRequest.Some? then HandleRequest(c, s, t, false)
    else if t.requests == [] then ResponderOut(s, t, false)
    else HandleRequest(c, s.(pendingRequest := Some(t.requests[0])), t.(requests := t.requests[1..]), true)
  }

  /** One backend completion applied to the parents in flight (worker.cpp:111-126). */
  function ApplyCompletion(inflight: map<nat, ResponderInflight>, k: BackendCompletion): map<nat, ResponderInflight> {
    if k.id !in inflight then inflight
    else
      var parent := inflight[k.id];
      if k.payloadIndex >= parent.payloadCount || k.payloadIndex >= |parent.terminal|
         || k.payloadIndex >= |parent.results| || parent.terminal[k.payloadIndex] then
        inflight[k.id := parent.(parentError := BackendError)]
      else
        inflight[k.id := parent.(terminal := parent.terminal[k.payloadIndex := true],
                                 results := parent.results[k.payloadIndex := k.result],
                                 terminalCount := parent.terminalCount + 1)]
  }

  /** A popped batch of completions, applied in order. */
  function ApplyCompletions(inflight: map<nat, ResponderInflight>, ks: seq<BackendCompletion>): map<nat, ResponderInflight> {
    if ks == [] then inflight
    else ApplyCompletion(ApplyCompletions(inflight, ks[..|ks| - 1]), ks[|ks| - 1])
  }

  /** The first failed payload result, or success. */
  function FirstError(results: seq<DatagramResult>): DatagramResult {
    if results == [] then Success
    else if results[0] != Success then results[0]
    else FirstError(results[1..])
  }

  function ParentResult(parent: ResponderInflight): DatagramResult {
    if parent.parentError != Success then parent.parentError else FirstError(parent.results)
  }

  function ParentResponseStep(c: Config, s: Responder, t: Transport): ResponderOut {
    if s.order == [] then ResponderOut(s, t, false)
    else if s.order[0] !in s.inflight then ResponderOut(s.(order := s.order[1..]), t, true)
    else
      var id := s.order[0];
      var parent := s.inflight[id];
      if parent.nextPayloadIndex != parent.payloadCount || parent.terminalCount != parent.payloadCount then
        ResponderOut(s, t, false)
      else
        var result := ParentResult(parent);
        var produce := result == Success && parent.hasReceive;
        if produce && !CanReserve(s.receiveCq) then ResponderOut(s, t, false)
        else if |t.responses| >= c.responseCapacity then ResponderOut(s, t, false)
        else
          var entry := ReceiveCompletion(parent.receiveWrId, c.responderQpNum, parent.byteLength, parent.immediate);
          ResponderOut(
            s.(inflight := s.inflight - {id}, order := s.order[1..],
               receiveCq := if produce then Produced(s.receiveCq, entry) else s.receiveCq),
            t.(responses := t.responses + [ResponseDatagram(id, result)]), true)
  }
}
