/**
  The loop worker as an object whose steps update its fields in place
  (src/worker/worker.hpp, src/worker/worker.cpp, src/worker/local_transport.cpp,
  src/worker/copy_backend.hpp).  Every step is proved against the step function
  of WorkerSteps on the abstract state; WorkerRuns.dfy lifts these steps to runs
  of the protocol, so the protocol theorems apply to it.
 */
module LoopWorker {
  import opened Common
  import opened WorkerTypes
  import opened Fragments
  import opened WorkerSteps

  /** Bounded FIFO of datagrams in each direction. */
  class LocalTransport {
    const requestCapacity: nat
    const responseCapacity: nat
    var requests: seq<RequestDatagram>
    var responses: seq<ResponseDatagram>

    constructor (requestCapacity: nat, responseCapacity: nat)
      ensures this.requestCapacity == requestCapacity && this.responseCapacity == responseCapacity
      ensures State() == Transport([], [])
    {
      this.requestCapacity, this.responseCapacity := requestCapacity, responseCapacity;
      requests, responses := [], [];
    }

    ghost function State(): Transport reads this { Transport(requests, responses) }

    method TryPushRequest(d: RequestDatagram) returns (ok: bool)
      modifies this`requests
      ensures ok <==> |old(requests)| < requestCapacity
      ensures requests == (if ok then old(requests) + [d] else old(requests))
    {
      ok := |requests| < requestCapacity;
      if ok { requests := requests + [d]; }
    }

    method TryPopRequest() returns (d: Option<RequestDatagram>)
      modifies this`requests
      ensures d.None? <==> old(requests) == []
      ensures d.None? ==> requests == old(requests)
      ensures d.Some? ==> old(requests) == [d.value] + requests
    {
      if requests == [] { return None; }
      d, requests := Some(requests[0]), requests[1..];
    }

    method TryPushResponse(d: ResponseDatagram) returns (ok: bool)
      modifies this`responses
      ensures ok <==> |old(responses)| < responseCapacity
      ensures responses == (if ok then old(responses) + [d] else old(responses))
    {
      ok := |responses| < responseCapacity;
      if ok { responses := responses + [d]; }
    }

    method TryPopResponse() returns (d: Option<ResponseDatagram>)
      modifies this`responses
      ensures d.None? <==> old(responses) == []
      ensures d.None? ==> responses == old(responses)
      ensures d.Some? ==> old(responses) == [d.value] + responses
    {
      if responses == [] { return None; }
      d, responses := Some(responses[0]), responses[1..];
    }
  }

  /** The worker's consumer end of a work queue ring. */
  class WorkRing<T> {
    var log: seq<T>
    var head: nat
    var peeked: bool

    ghost function State(): WorkQueue<T> reads this { WorkQueue(log, head, peeked) }

    method Peek() returns (e: Option<T>)
      modifies this`peeked
      ensures e == (if old(CanPeek(State())) then Some(log[head]) else None)
      ensures peeked == (e.Some? || old(peeked))
    {
      if peeked || head >= |log| { return None; }
      peeked := true;
      e := Some(log[head]);
    }

    method Release() returns (ok: bool)
      modifies this`head, this`peeked
      ensures ok == old(peeked) && State() == if ok then Released(old(State())) else old(State())
    {
      ok := peeked;
      if ok { head, peeked := head + 1, false; }
    }

    /** consumer_release(0): give the peeked entry back. */
    method Unpeek()
      modifies this`peeked
      ensures !peeked
    {
      peeked := false;
    }
  }

  /** The worker's producer end of a completion ring. */
  class CompletionRing {
    const capacity: nat
    var log: seq<CompletionEntry>
    var polled: nat
    var reserved: bool

    ghost function State(): CompletionQueue reads this { CompletionQueue(log, polled, capacity, reserved) }

    method Reserve() returns (ok: bool)
      modifies this`reserved
      ensures ok == old(CanReserve(State())) && reserved == (ok || old(reserved))
    {
      ok := !reserved && |log| - polled < capacity;
      if ok { reserved := true; }
    }

    method Publish(e: CompletionEntry)
      requires reserved
      modifies this`log, this`reserved
      ensures log == old(log) + [e] && !reserved
    {
      log, reserved := log + [e], false;
    }

    /** producer_publish(0): drop the reservation. */
    method Cancel()
      requires reserved
      modifies this`reserved
      ensures !reserved
    {
      reserved := false;
    }

    /** produce_completions for one entry. */
    method Produce(e: CompletionEntry) returns (ok: bool)
      modifies this`log, this`reserved
      ensures ok == old(CanReserve(State()))
      ensures State() == if ok then Produced(old(State()), e) else old(State())
    {
      ok := Reserve();
      if ok { Publish(e); }
    }
  }

  /** A backend that accepts or refuses each request, and completes accepted ones in any order. */
  class CopyBackend {
    var outstanding: seq<BackendRequest>
    var completions: seq<BackendCompletion>

    method TrySubmit(q: BackendRequest) returns (ok: bool)
      modifies this`outstanding
      ensures outstanding == if ok then old(outstanding) + [q] else old(outstanding)
    {
      ok := *;
      if ok { outstanding := outstanding + [q]; }
    }

    /** The default batch submit: stop at the first refusal. */
    method TrySubmitBatch(requests: array<BackendRequest>, count: nat) returns (accepted: nat)
      requires count <= requests.Length
      modifies this`outstanding
      ensures accepted <= count && outstanding == old(outstanding) + requests[..accepted]
    {
      accepted := 0;
      while accepted != count
        invariant accepted <= count && outstanding == old(outstanding) + requests[..accepted]
      {
        var ok := TrySubmit(requests[accepted]);
        if !ok { return; }
        accepted := accepted + 1;
      }
    }

    method TryPopCompletion() returns (k: Option<BackendCompletion>)
      modifies this`completions
      ensures k.None? ==> completions == old(completions)
      ensures k.Some? ==> old(completions) == [k.value] + completions
    {
      if * { return None; }
      if completions == [] { return None; }
      k, completions := Some(completions[0]), completions[1..];
    }

    /** The default batch pop: up to `capacity` completions, in queue order. */
    method TryPopCompletionBatch(capacity: nat) returns (ks: seq<BackendCompletion>)
      modifies this`completions
      ensures |ks| <= capacity && old(completions) == ks + completions
    {
      ks := [];
      while |ks| != capacity
        invariant |ks| <= capacity && old(completions) == ks + completions
      {
        var k := TryPopCompletion();
        if k.None? { return; }
        ks := ks + [k.value];
      }
    }
  }

  /** The rings of one QP as the worker sees them. */
  datatype QpView = QpView(
    sendQueue: WorkRing<SendWqe>, receiveQueue: WorkRing<ReceiveWqe>,
    sendCq: CompletionRing, receiveCq: CompletionRing)

  lemma PendingInRange(c: Config, p: PendingSend)
    requires 0 < c.payloadBytes && CursorReady(c, p)
    ensures CursorInRange(p)
  {
    if p.parent.totalLength != 0 { CursorStep(c, p); }
  }

  // ----- runs of one worker

  datatype RequesterView = RequesterView(r: Requester, t: Transport)

  ghost predicate RequesterStep(c: Config, x: RequesterView, y: RequesterView) {
    || (exists p :: ResponseStep(c, x.r, x.t) == RequesterOut(y.r, y.t, p))
    || (&& ValidConfig(c) && (x.r.pendingSend.Some? ==> CursorInRange(x.r.pendingSend.value))
        && exists p :: SendStep(c, x.r, x.t) == RequesterOut(y.r, y.t, p))
  }

  /** Neither half of the requester can make progress. */
  ghost predicate RequesterStuck(c: Config, x: RequesterView) {
    && !ResponseStep(c, x.r, x.t).progressed
    && ValidConfig(c) && (x.r.pendingSend.Some? ==> CursorInRange(x.r.pendingSend.value))
    && !SendStep(c, x.r, x.t).progressed
  }

  ghost predicate RequesterTrace(c: Config, trace: seq<RequesterView>) {
    trace != [] && forall i :: 0 < i < |trace| ==> RequesterStep(c, trace[i - 1], trace[i])
  }

  /** Datagrams the requester can still take in before it needs the responder. */
  function ResponsesLeft(x: RequesterView): nat {
    2 * |x.t.responses| + (if x.r.pendingResponse.Some? then 1 else 0)
  }

  function SendsLeft(x: RequesterView): int { |x.r.sendQueue.log| - x.r.sendQueue.head }

  lemma ResponseCall(c: Config, x: RequesterView, y: RequesterView, progressed: bool)
    requires ResponseStep(c, x.r, x.t) == RequesterOut(y.r, y.t, progressed)
    ensures RequesterStep(c, x, y)
    ensures if progressed then ResponsesLeft(y) < ResponsesLeft(x)
            else ResponsesLeft(y) <= ResponsesLeft(x) && !ResponseStep(c, y.r, y.t).progressed
  {
  }

  /** try_send repeats until it is stuck, and never unblocks a response that cannot be completed. */
  lemma SendCall(c: Config, x: RequesterView, y: RequesterView, progressed: bool)
    requires ValidConfig(c) && (x.r.pendingSend.Some? ==> CursorInRange(x.r.pendingSend.value))
    requires SendStep(c, x.r, x.t) == RequesterOut(y.r, y.t, progressed)
    requires y.r.pendingSend.Some? ==> CursorInRange(y.r.pendingSend.value) && y.r.sendQueue.peeked
    ensures RequesterStep(c, x, y)
    ensures !ResponseStep(c, x.r, x.t).progressed ==> !ResponseStep(c, y.r, y.t).progressed
    ensures !progressed && !ResponseStep(c, y.r, y.t).progressed ==> RequesterStuck(c, y)
    ensures |x.t.requests| <= |y.t.requests|
    ensures |x.t.requests| == |y.t.requests| ==>
              if progressed then SendsLeft(y) < SendsLeft(x) && 0 < SendsLeft(x) else SendsLeft(y) == SendsLeft(x)
    ensures |x.t.requests| < |y.t.requests| ==> |x.t.requests| < c.requestCapacity
  {
    SendMeasure(c, x, y, progressed);
    SendKeepsResponse(c, x, y);
    SendStuck(c, x, y, progressed);
    hide SendStep, ResponseStep;
  }

  lemma SendMeasure(c: Config, x: RequesterView, y: RequesterView, progressed: bool)
    requires ValidConfig(c) && (x.r.pendingSend.Some? ==> CursorInRange(x.r.pendingSend.value))
    requires SendStep(c, x.r, x.t) == RequesterOut(y.r, y.t, progressed)
    requires y.r.pendingSend.Some? ==> y.r.sendQueue.peeked
    ensures |x.t.requests| <= |y.t.requests|
    ensures |x.t.requests| == |y.t.requests| ==>
              if progressed then SendsLeft(y) < SendsLeft(x) && 0 < SendsLeft(x) else SendsLeft(y) == SendsLeft(x)
    ensures |x.t.requests| < |y.t.requests| ==> |x.t.requests| < c.requestCapacity
  {
    hide Prepare, NextDatagram, Advance, CursorInRange, ValidConfig;
  }

  lemma SendKeepsResponse(c: Config, x: RequesterView, y: RequesterView)
    requires ValidConfig(c) && (x.r.pendingSend.Some? ==> CursorInRange(x.r.pendingSend.value))
    requires SendStep(c, x.r, x.t).r == y.r && SendStep(c, x.r, x.t).t == y.t
    ensures !ResponseStep(c, x.r, x.t).progressed ==> !ResponseStep(c, y.r, y.t).progressed
  {
    hide Prepare, NextDatagram, Advance, CursorInRange, ValidConfig;
  }

  lemma SendStuck(c: Config, x: RequesterView, y: RequesterView, progressed: bool)
    requires ValidConfig(c) && (x.r.pendingSend.Some? ==> CursorInRange(x.r.pendingSend.value))
    requires SendStep(c, x.r, x.t) == RequesterOut(y.r, y.t, progressed)
    requires y.r.pendingSend.Some? ==> CursorInRange(y.r.pendingSend.value) && y.r.sendQueue.peeked
    ensures !progressed ==> !SendStep(c, y.r, y.t).progressed
  {
    hide Prepare, NextDatagram, Advance, CursorInRange, ValidConfig;
  }

  lemma RequesterExtend(c: Config, trace: seq<RequesterView>, y: RequesterView)
    requires RequesterTrace(c, trace) && RequesterStep(c, trace[|trace| - 1], y)
    ensures RequesterTrace(c, trace + [y])
  {
    hide RequesterStep;
  }

  datatype ResponderView = ResponderView(
    s: Responder, t: Transport, outstanding: seq<BackendRequest>, completions: seq<BackendCompletion>)

  /** The backend took the first n batched requests. */
  predicate FlushOf(x: ResponderView, y: ResponderView, n: nat) {
    && n <= |x.s.batch|
    && y == x.(s := x.s.(batch := x.s.batch[n..]), outstanding := x.outstanding + x.s.batch[..n])
  }

  /** The responder applied these completions from the front of the backend's queue. */
  predicate CompletionsOf(x: ResponderView, y: ResponderView, popped: seq<BackendCompletion>) {
    && |popped| <= BACKEND_BATCH_CAPACITY && x.completions == popped + y.completions
    && y == x.(s := x.s.(inflight := ApplyCompletions(x.s.inflight, popped)), completions := y.completions)
  }

  ghost predicate ResponderStep(c: Config, x: ResponderView, y: ResponderView) {
    || (exists p :: RequestStep(c, x.s, x.t) == ResponderOut(y.s, y.t, p)
                    && y == x.(s := y.s, t := y.t))
    || (exists p :: ParentResponseStep(c, x.s, x.t) == ResponderOut(y.s, y.t, p)
                    && y == x.(s := y.s, t := y.t))
    || (exists n: nat :: FlushOf(x, y, n))
    || (exists popped :: CompletionsOf(x, y, popped))
  }

  ghost predicate ResponderTrace(c: Config, trace: seq<ResponderView>) {
    trace != [] && forall i :: 0 < i < |trace| ==> ResponderStep(c, trace[i - 1], trace[i])
  }

  lemma FlushIsStep(c: Config, x: ResponderView, y: ResponderView, n: nat)
    requires FlushOf(x, y, n)
    ensures ResponderStep(c, x, y)
  {
  }

  lemma CompletionsAreStep(c: Config, x: ResponderView, y: ResponderView, popped: seq<BackendCompletion>)
    requires CompletionsOf(x, y, popped)
    ensures ResponderStep(c, x, y)
  {
  }

  function RequestsLeft(x: ResponderView): nat {
    2 * |x.t.requests| + (if x.s.pendingRequest.Some? then 1 else 0)
  }

  lemma RequestCall(c: Config, x: ResponderView, y: ResponderView, progressed: bool)
    requires RequestStep(c, x.s, x.t) == ResponderOut(y.s, y.t, progressed) && y == x.(s := y.s, t := y.t)
    ensures ResponderStep(c, x, y)
    ensures if progressed then RequestsLeft(y) < RequestsLeft(x)
            else RequestsLeft(y) <= RequestsLeft(x) && !RequestStep(c, y.s, y.t).progressed
  {
    RequestMeasure(c, x, y, progressed);
    if !progressed { RequestStuck(c, x, y); }
    hide RequestStep, RequestsLeft;
  }

  lemma RequestMeasure(c: Config, x: ResponderView, y: ResponderView, progressed: bool)
    requires RequestStep(c, x.s, x.t) == ResponderOut(y.s, y.t, progressed)
    ensures if progressed then RequestsLeft(y) < RequestsLeft(x) else RequestsLeft(y) <= RequestsLeft(x)
  {
    hide MakeBackendRequest, ValidFirst, CountPayload, CanPeek, ValidPayload, OpenParent;
  }

  /** try_request that cannot go on leaves the datagram pending, and a second call cannot go on either. */
  lemma RequestStuck(c: Config, x: ResponderView, y: ResponderView)
    requires RequestStep(c, x.s, x.t) == ResponderOut(y.s, y.t, false)
    ensures !RequestStep(c, y.s, y.t).progressed
  {
    hide MakeBackendRequest, ValidFirst, CountPayload, CanPeek;
  }

  lemma ParentResponseCall(c: Config, x: ResponderView, y: ResponderView, progressed: bool)
    requires ParentResponseStep(c, x.s, x.t) == ResponderOut(y.s, y.t, progressed) && y == x.(s := y.s, t := y.t)
    ensures ResponderStep(c, x, y)
    ensures if progressed then |y.s.order| < |x.s.order|
            else |y.s.order| == |x.s.order| && !ParentResponseStep(c, y.s, y.t).progressed
  {
  }

  lemma ResponderExtend(c: Config, trace: seq<ResponderView>, y: ResponderView)
    requires ResponderTrace(c, trace) && ResponderStep(c, trace[|trace| - 1], y)
    ensures ResponderTrace(c, trace + [y])
  {
    hide ResponderStep;
  }

  /** Two traces that meet, as one. */
  ghost function Joined(c: Config, a: seq<ResponderView>, b: seq<ResponderView>): (r: seq<ResponderView>)
    requires ResponderTrace(c, a) && ResponderTrace(c, b) && a[|a| - 1] == b[0]
    ensures ResponderTrace(c, r) && r[0] == a[0] && r[|r| - 1] == b[|b| - 1] && r == a + b[1..]
    decreases |b|
  {
    if |b| == 1 then a
    else
      JoinedShift(c, a, b);
      Joined(c, a + [b[1]], b[1..])
  }

  lemma JoinedShift(c: Config, a: seq<ResponderView>, b: seq<ResponderView>)
    requires ResponderTrace(c, a) && ResponderTrace(c, b) && a[|a| - 1] == b[0] && |b| > 1
    ensures ResponderTrace(c, a + [b[1]]) && ResponderTrace(c, b[1..])
  {
    hide ResponderStep;
    assert b[1 - 1] == b[0] && ResponderStep(c, b[1 - 1], b[1]);
    ResponderExtend(c, a, b[1]);
    forall i | 0 < i < |b[1..]| ensures ResponderStep(c, b[1..][i - 1], b[1..][i]) {
      assert b[1..][i] == b[i + 1] && b[1..][i - 1] == b[i + 1 - 1];
    }
  }

  /** At moment i no request could be taken further. */
  ghost predicate TookAll(c: Config, trace: seq<ResponderView>, i: nat) {
    i < |trace| && !RequestStep(c, trace[i].s, trace[i].t).progressed
  }

  /** Every state of the trace has a pending batch. */
  ghost predicate AlwaysPending(trace: seq<ResponderView>) { forall i :: 0 <= i < |trace| ==> trace[i].s.batch != [] }

  ghost predicate SameBatch(trace: seq<ResponderView>) {
    trace != [] && forall i :: 0 <= i < |trace| ==> trace[i].s.batch == trace[0].s.batch
  }

  /** Requests were taken as far as possible, or a batch the backend refused stood in the way all along. */
  ghost predicate Worked(c: Config, trace: seq<ResponderView>) {
    AlwaysPending(trace) || exists i: nat :: TookAll(c, trace, i)
  }

  lemma WorkedAfter(c: Config, a: seq<ResponderView>, b: seq<ResponderView>)
    requires SameBatch(a) && b != [] && a[|a| - 1] == b[0] && Worked(c, b)
    ensures Worked(c, a + b[1..])
  {
    hide RequestStep;
    var r := a + b[1..];
    if i: nat :| TookAll(c, b, i) {
      assert r[|a| - 1 + i] == b[i];
      assert TookAll(c, r, |a| - 1 + i);
    } else {
      assert b[0].s.batch == a[0].s.batch;
    }
  }

  lemma WorkedBefore(c: Config, a: seq<ResponderView>, b: seq<ResponderView>)
    requires SameBatch(b) && a != [] && a[|a| - 1] == b[0] && Worked(c, a)
    ensures Worked(c, a + b[1..])
  {
    hide RequestStep;
    var r := a + b[1..];
    if i: nat :| TookAll(c, a, i) {
      assert TookAll(c, r, i);
    } else {
      assert forall k :: 0 <= k < |r| ==> r[k].s.batch == if k < |a| then a[k].s.batch else b[0].s.batch;
    }
  }

  class Worker {
    const c: Config
    const transport: LocalTransport
    const backend: CopyBackend
    var nextSequence: nat
    var requesterInflight: map<nat, RequesterInflight>
    var responderInflight: map<nat, ResponderInflight>
    var responderOrder: seq<nat>
    var pendingSend: Option<PendingSend>
    var pendingRequest: Option<RequestDatagram>
    var pendingResponse: Option<ResponseDatagram>
    const pendingBackendRequests: array<BackendRequest>
    var pendingBackendRequestCount: nat

    constructor (c: Config, transport: LocalTransport, backend: CopyBackend)
      ensures this.c == c && this.transport == transport && this.backend == backend
      ensures BatchOk() && fresh(pendingBackendRequests)
      ensures pendingSend.None? && pendingRequest.None? && pendingResponse.None?
      ensures requesterInflight == map[] && responderInflight == map[] && responderOrder == []
      ensures nextSequence == 1 && pendingBackendRequestCount == 0
    {
      this.c, this.transport, this.backend := c, transport, backend;
      nextSequence := 1;
      requesterInflight, responderInflight, responderOrder := map[], map[], [];
      pendingSend, pendingRequest, pendingResponse := None, None, None;
      pendingBackendRequests := new BackendRequest[BACKEND_BATCH_CAPACITY](_ => BackendRequest(0, 0, 0, 0, 0, 0, 0, 0));
      pendingBackendRequestCount := 0;
    }

    ghost predicate BatchOk()
      reads this
    {
      pendingBackendRequests.Length == BACKEND_BATCH_CAPACITY && pendingBackendRequestCount <= BACKEND_BATCH_CAPACITY
    }

    ghost function Batch(): seq<BackendRequest>
      requires BatchOk()
      reads this, pendingBackendRequests
    {
      pendingBackendRequests[..pendingBackendRequestCount]
    }

    /** What the data plane holds fixed agrees with the transport's capacities. */
    ghost predicate Configured() {
      && ValidConfig(c)
      && c.requestCapacity == transport.requestCapacity && c.responseCapacity == transport.responseCapacity
    }

    ghost function RequesterState(v: QpView): Requester
      reads this, v.sendQueue, v.sendCq
    {
      Requester(pendingSend, pendingResponse, requesterInflight, nextSequence, v.sendQueue.State(), v.sendCq.State())
    }

    ghost function RequesterNow(v: QpView): RequesterView
      reads this, v.sendQueue, v.sendCq, transport
    {
      RequesterView(RequesterState(v), transport.State())
    }

    ghost function ResponderState(v: QpView): Responder
      requires BatchOk()
      reads this, pendingBackendRequests, v.receiveQueue, v.receiveCq
    {
      Responder(pendingRequest, responderInflight, responderOrder, Batch(), v.receiveQueue.State(), v.receiveCq.State())
    }

    ghost function ResponderNow(v: QpView): ResponderView
      requires BatchOk()
      reads this, pendingBackendRequests, v.receiveQueue, v.receiveCq, transport, backend
    {
      ResponderView(ResponderState(v), transport.State(), backend.outstanding, backend.completions)
    }

    /** Between calls a pending send has its WQE peeked and its cursor in place. */
    ghost predicate SendReady(v: QpView)
      reads this, v.sendQueue
    {
      && 0 < c.payloadBytes
      && (pendingSend.Some? ==> CursorReady(c, pendingSend.value) && v.sendQueue.peeked)
    }

    // ----- requester

    /** complete_send_error: publish the error completion and retire the WQE, or give the WQE back. */
    method CompleteSendError(v: QpView, send: SendWqe, status: nat) returns (ok: bool)
      requires v.sendQueue.peeked
      modifies v.sendQueue`head, v.sendQueue`peeked, v.sendCq`log, v.sendCq`reserved
      ensures (RequesterState(v), ok) == WorkerSteps.CompleteSendError(c, old(RequesterState(v)), send, status)
    {
      var produced := v.sendCq.Produce(SendCompletion(send.wrId, c.qpNum, status));
      if !produced {
        v.sendQueue.Unpeek();
        return false;
      }
      ok := v.sendQueue.Release();
    }

    /** The SGE loop of try_send. */
    method GatherSges(send: SendWqe) returns (g: Gathered)
      requires 0 < c.payloadBytes
      ensures g == Gather(c, send.sges)
    {
      hide Gather, Ceil;
      var segments: seq<Segment>, total: nat, count: nat := [], 0, 0;
      GatherNone(c, send.sges);
      for index := 0 to |send.sges|
        invariant Gather(c, send.sges[..index]) == Gathered(segments, total, count)
      {
        var sge := send.sges[index];
        GatherNext(c, send.sges, index);
        GatherStops(c, send.sges, index + 1);
        if total > U32_MAX - sge.length {
          return Failed(WC_LOC_LEN_ERR);
        }
        var address := c.resolveLkey(sge.lkey, sge.address, sge.length);
        if address.None? {
          return Failed(WC_LOC_PROT_ERR);
        }
        total := total + sge.length;
        if sge.length != 0 {
          segments := segments + [Segment(address.value, sge.length)];
          count := count + Ceil(sge.length, c.payloadBytes);
        }
      }
      assert send.sges[..|send.sges|] == send.sges;
      g := Gathered(segments, total, count);
    }

    /** The first half of try_send: peek, check and resolve the next WQE. */
    method TakeNextSend(v: QpView) returns (taken: bool, progressed: bool)
      requires Configured() && pendingSend.None?
      modifies this`pendingSend, this`requesterInflight
      modifies v.sendQueue`head, v.sendQueue`peeked, v.sendCq`log, v.sendCq`reserved
      ensures var o := TakeSend(c, old(RequesterState(v)));
              && taken == o.Taken? && RequesterState(v) == o.r && (!taken ==> progressed == o.progressed)
      ensures taken ==> SendReady(v) && pendingSend.Some?
      ensures !taken ==> pendingSend.None?
    {
      hide Gather, CursorAt, WellFormed, Pieces, Offset, SegmentBytes, CeilSum;
      var slot := v.sendQueue.Peek();
      if slot.None? { return false, false; }
      var send := slot.value;
      ghost var id := NextRequestId(c, nextSequence);
      if |send.sges| > c.maxSendSge {
        progressed := CompleteSendError(v, send, WC_LOC_LEN_ERR);
        return false, progressed;
      }
      if send.opcode != WR_RDMA_WRITE && send.opcode != WR_RDMA_WRITE_WITH_IMM {
        progressed := CompleteSendError(v, send, WC_LOC_QP_OP_ERR);
        return false, progressed;
      }
      var g := GatherSges(send);
      if g.Failed? {
        progressed := CompleteSendError(v, send, g.status);
        return false, progressed;
      }
      if g.payloadCount > U32_MAX {
        progressed := CompleteSendError(v, send, WC_LOC_LEN_ERR);
        return false, progressed;
      }
      var parent := Parent(
        NextRequestId(c, nextSequence), send.wrId, c.sqSigAll || send.signaled,
        if send.opcode == WR_RDMA_WRITE then RdmaWrite else RdmaWriteWithImmediate,
        c.qpNum, c.peerQpNum, send.remoteAddress, send.rkey, send.immediate, g.totalLength, g.payloadCount, g.segments);
      if parent.id in requesterInflight { return false, false; }
      requesterInflight := requesterInflight[parent.id := InflightOf(parent)];
      pendingSend := Some(Fresh(parent));
      PrepareFacts(c, send, id);
      ParentFacts(c, parent);
      FreshCursor(c, parent);
      return true, true;
    }

    /** The second half of try_send: build the next datagram, push it, advance the cursor. */
    method PushNextDatagram(v: QpView) returns (progressed: bool)
      requires Configured() && SendReady(v) && pendingSend.Some?
      modifies this`pendingSend, this`nextSequence, transport`requests, v.sendQueue`head, v.sendQueue`peeked
      ensures CursorInRange(old(pendingSend.value))
      ensures PushSend(c, old(RequesterState(v)), old(transport.State()))
              == RequesterOut(RequesterState(v), transport.State(), progressed)
      ensures SendReady(v)
    {
      var p := pendingSend.value;
      PendingInRange(c, p);
      if p.parent.totalLength == 0 && p.zeroPayloadSent { return false; }
      var d := NextDatagram(c, p);
      if p.parent.totalLength != 0 { CursorStep(c, p); }
      var pushed := transport.TryPushRequest(d);
      if !pushed { return false; }
      p := Advance(p, d.payloadLength);
      pendingSend := Some(p);
      if p.parent.totalLength != 0 && p.payloadIndex != p.parent.payloadCount { return true; }
      var released := v.sendQueue.Release();
      if !released { return false; }
      pendingSend := None;
      nextSequence := (nextSequence + 1) % 0x1_0000_0000;
      if nextSequence == 0 { nextSequence := 1; }
      return true;
    }

    method TrySend(v: QpView) returns (progressed: bool)
      requires Configured() && SendReady(v)
      modifies this`pendingSend, this`requesterInflight, this`nextSequence, transport`requests
      modifies v.sendQueue`head, v.sendQueue`peeked, v.sendCq`log, v.sendCq`reserved
      ensures old(pendingSend).Some? ==> CursorInRange(old(pendingSend).value)
      ensures SendStep(c, old(RequesterState(v)), old(transport.State()))
              == RequesterOut(RequesterState(v), transport.State(), progressed)
      ensures SendReady(v)
    {
      if pendingSend.Some? { PendingInRange(c, pendingSend.value); }
      if pendingSend.None? {
        var taken;
        taken, progressed := TakeNextSend(v);
        if !taken { return; }
      }
      progressed := PushNextDatagram(v);
    }

    method TryResponse(v: QpView) returns (progressed: bool)
      requires Configured()
      modifies this`pendingResponse, this`requesterInflight, transport`responses, v.sendCq`log, v.sendCq`reserved
      ensures ResponseStep(c, old(RequesterState(v)), old(transport.State()))
              == RequesterOut(RequesterState(v), transport.State(), progressed)
    {
      var loaded := false;
      if pendingResponse.None? {
        var response := transport.TryPopResponse();
        if response.None? { return false; }
        pendingResponse, loaded := response, true;
      }
      var response := pendingResponse.value;
      if response.id !in requesterInflight {
        pendingResponse := None;
        return true;
      }
      var record := requesterInflight[response.id];
      if response.result != Success || record.signaled {
        var entry := SendCompletion(record.wrId, c.qpNum, CompletionStatus(response.result));
        var produced := v.sendCq.Produce(entry);
        if !produced { return loaded; }
      }
      requesterInflight := requesterInflight - {response.id};
      pendingResponse := None;
      return true;
    }

    // ----- responder

    /** Answer the pending request with an error; it stays pending when the response queue is full. */
    method RejectPending(result: DatagramResult, loaded: bool, ghost v: QpView) returns (progressed: bool)
      requires Configured() && BatchOk() && pendingRequest.Some?
      modifies this`pendingRequest, transport`responses
      ensures RejectRequest(c, old(ResponderState(v)), old(transport.State()), loaded, result)
              == ResponderOut(ResponderState(v), transport.State(), progressed)
    {
      var pushed := transport.TryPushResponse(ResponseDatagram(pendingRequest.value.id, result));
      if !pushed { return loaded; }
      pendingRequest := None;
      return true;
    }

    /** try_request from the payload check on: batch the payload and count it. */
    method BatchPayload(v: QpView, loaded: bool) returns (progressed: bool)
      requires Configured() && BatchOk() && pendingRequest.Some? && pendingRequest.value.id in responderInflight
      modifies this`pendingRequest, this`responderInflight, this`pendingBackendRequestCount, pendingBackendRequests
      modifies v.receiveQueue`head, v.receiveQueue`peeked
      ensures BatchOk()
      ensures AcceptPayload(old(ResponderState(v)), old(transport.State()), loaded)
              == ResponderOut(ResponderState(v), transport.State(), progressed)
    {
      var request := pendingRequest.value;
      var parent := responderInflight[request.id];
      if !ValidPayload(parent, request) {
        responderInflight := responderInflight[request.id := parent.(parentError := RemoteInvalidRequest)];
        return loaded;
      }
      if parent.payloadCount == 0 {
        if parent.hasReceive && !parent.receiveConsumed {
          var released := v.receiveQueue.Release();
          if !released { return false; }
          parent := parent.(receiveConsumed := true);
        }
        responderInflight := responderInflight[request.id := parent];
        pendingRequest := None;
        return true;
      }
      if pendingBackendRequestCount == pendingBackendRequests.Length { return loaded; }
      ghost var batch := Batch();
      pendingBackendRequests[pendingBackendRequestCount] := MakeBackendRequest(request, parent.targetAddress);
      pendingBackendRequestCount := pendingBackendRequestCount + 1;
      if parent.hasReceive && !parent.receiveConsumed {
        var released := v.receiveQueue.Release();
        if !released {
          pendingBackendRequestCount := pendingBackendRequestCount - 1;
          assert Batch() == batch;
          return loaded;
        }
        parent := parent.(receiveConsumed := true);
      }
      assert Batch() == batch + [MakeBackendRequest(request, parent.targetAddress)];
      parent := parent.(nextPayloadIndex := parent.nextPayloadIndex + 1,
                        nextPayloadOffset := parent.nextPayloadOffset + request.payloadLength);
      if parent.nextPayloadIndex == parent.payloadCount && parent.nextPayloadOffset != parent.totalLength {
        parent := parent.(parentError := RemoteInvalidRequest);
      }
      responderInflight := responderInflight[request.id := parent];
      pendingRequest := None;
      return true;
    }

    /** try_request once a request is pending. */
    method HandlePending(v: QpView, loaded: bool) returns (progressed: bool)
      requires Configured() && BatchOk() && pendingRequest.Some?
      modifies this`pendingRequest, this`responderInflight, this`responderOrder, this`pendingBackendRequestCount
      modifies pendingBackendRequests, transport`responses, v.receiveQueue`head, v.receiveQueue`peeked
      ensures BatchOk()
      ensures HandleRequest(c, old(ResponderState(v)), old(transport.State()), loaded)
              == ResponderOut(ResponderState(v), transport.State(), progressed)
    {
      var request := pendingRequest.value;
      if request.targetQp != c.responderQpNum || request.totalLength > U32_MAX {
        progressed := RejectPending(RemoteInvalidRequest, loaded, v);
        return;
      }
      if request.id !in responderInflight {
        if !ValidFirst(request) {
          progressed := RejectPending(RemoteInvalidRequest, loaded, v);
          return;
        }
        var target := c.resolveRkey(request.rkey, request.remoteAddress, request.totalLength);
        if target.None? {
          progressed := RejectPending(RemoteAccessError, loaded, v);
          return;
        }
        var receive := None;
        if request.opcode == RdmaWriteWithImmediate {
          receive := v.receiveQueue.Peek();
          if receive.None? { return loaded; }
        }
        responderInflight := responderInflight[request.id := OpenParent(request, target.value, receive)];
        responderOrder := responderOrder + [request.id];
      }
      progressed := BatchPayload(v, loaded);
    }

    method TryRequest(v: QpView) returns (progressed: bool)
      requires Configured() && BatchOk()
      modifies this`pendingRequest, this`responderInflight, this`responderOrder, this`pendingBackendRequestCount
      modifies pendingBackendRequests, transport`requests, transport`responses, v.receiveQueue`head, v.receiveQueue`peeked
      ensures BatchOk()
      ensures RequestStep(c, old(ResponderState(v)), old(transport.State()))
              == ResponderOut(ResponderState(v), transport.State(), progressed)
    {
      var loaded := false;
      if pendingRequest.None? {
        var request := transport.TryPopRequest();
        if request.None? { return false; }
        pendingRequest, loaded := request, true;
      }
      progressed := HandlePending(v, loaded);
    }

    /** Apply a popped batch of completions to the parents in flight, in order. */
    method TryBackendCompletions() returns (progressed: bool, ghost popped: seq<BackendCompletion>)
      modifies this`responderInflight, backend`completions
      ensures progressed <==> popped != []
      ensures |popped| <= BACKEND_BATCH_CAPACITY && old(backend.completions) == popped + backend.completions
      ensures responderInflight == ApplyCompletions(old(responderInflight), popped)
    {
      var completions := backend.TryPopCompletionBatch(BACKEND_BATCH_CAPACITY);
      popped := completions;
      if completions == [] { return false, popped; }
      for index := 0 to |completions|
        modifies this`responderInflight
        invariant responderInflight == ApplyCompletions(old(responderInflight), completions[..index])
      {
        var completion := completions[index];
        assert completions[..index + 1][..index] == completions[..index];
        if completion.id in responderInflight {
          var parent := responderInflight[completion.id];
          var i := completion.payloadIndex;
          if i >= parent.payloadCount || i >= |parent.terminal| || i >= |parent.results| || parent.terminal[i] {
            parent := parent.(parentError := BackendError);
          } else {
            parent := parent.(terminal := parent.terminal[i := true], results := parent.results[i := completion.result],
                              terminalCount := parent.terminalCount + 1);
          }
          responderInflight := responderInflight[completion.id := parent];
        }
      }
      assert completions[..|completions|] == completions;
      return true, popped;
    }

    /** Submit the batch; what the backend did not accept moves to the front of the array, in place. */
    method TryFlushBackendRequests() returns (progressed: bool, ghost accepted: nat)
      requires BatchOk()
      modifies this`pendingBackendRequestCount, pendingBackendRequests, backend`outstanding
      ensures BatchOk() && accepted <= |old(Batch())| && (progressed <==> accepted != 0)
      ensures Batch() == old(Batch())[accepted..]
      ensures backend.outstanding == old(backend.outstanding) + old(Batch())[..accepted]
    {
      ghost var batch := Batch();
      if pendingBackendRequestCount == 0 { return false, 0; }
      var n := backend.TrySubmitBatch(pendingBackendRequests, pendingBackendRequestCount);
      assert pendingBackendRequests[..n] == batch[..n];
      accepted := n;
      if n == 0 { return false, 0; }
      pendingBackendRequestCount := pendingBackendRequestCount - n;
      if pendingBackendRequestCount != 0 { ShiftDown(pendingBackendRequests, n, pendingBackendRequestCount); }
      assert Batch() == batch[n..];
      return true, n;
    }

    /** Move `count` elements from index n to the front. */
    static method ShiftDown(a: array<BackendRequest>, n: nat, count: nat)
      requires n + count <= a.Length
      modifies a
      ensures a[..count] == old(a[n..n + count])
    {
      ghost var s := a[..];
      for k := 0 to count
        invariant a[..k] == s[n..n + k] && a[k..] == s[k..]
      {
        assert a[n + k] == a[k..][n] == s[n + k];
        ghost var before := a[..];
        a[k] := a[n + k];
        assert a[..k] == before[..k] && a[k + 1..] == before[k + 1..] == before[k..][1..];
        assert a[..k + 1] == a[..k] + [s[n + k]] && s[n..n + k + 1] == s[n..n + k] + [s[n + k]];
      }
    }

    /** The result of a finished parent: its own error, else the first failed payload's. */
    static method CombineResults(parent: ResponderInflight) returns (result: DatagramResult)
      ensures result == ParentResult(parent)
    {
      result := parent.parentError;
      if result == Success {
        var i := 0;
        while i < |parent.results|
          invariant i <= |parent.results| && FirstError(parent.results) == FirstError(parent.results[i..])
        {
          if parent.results[i] != Success { return parent.results[i]; }
          i := i + 1;
        }
      }
    }

    method TryParentResponse(v: QpView) returns (progressed: bool)
      requires Configured() && BatchOk()
      modifies this`responderInflight, this`responderOrder, transport`responses, v.receiveCq`log, v.receiveCq`reserved
      ensures BatchOk()
      ensures ParentResponseStep(c, old(ResponderState(v)), old(transport.State()))
              == ResponderOut(ResponderState(v), transport.State(), progressed)
    {
      if responderOrder == [] { return false; }
      var id := responderOrder[0];
      if id !in responderInflight {
        responderOrder := responderOrder[1..];
        return true;
      }
      var parent := responderInflight[id];
      if parent.nextPayloadIndex != parent.payloadCount || parent.terminalCount != parent.payloadCount { return false; }
      var result := CombineResults(parent);
      var produceReceive := result == Success && parent.hasReceive;
      if produceReceive {
        var reserved := v.receiveCq.Reserve();
        if !reserved { return false; }
      }
      var pushed := transport.TryPushResponse(ResponseDatagram(id, result));
      if !pushed {
        if produceReceive { v.receiveCq.Cancel(); }
        return false;
      }
      if produceReceive {
        v.receiveCq.Publish(ReceiveCompletion(parent.receiveWrId, c.responderQpNum, parent.byteLength, parent.immediate));
      }
      responderInflight := responderInflight - {id};
      responderOrder := responderOrder[1..];
      return true;
    }

    // ----- progress_once

    /** Both loops of a requester's progress_once end, with nothing left that the requester can do. */
    method ProgressRequester(v: QpView) returns (progressed: bool, ghost trace: seq<RequesterView>)
      requires Configured() && SendReady(v)
      modifies this`pendingSend, this`pendingResponse, this`requesterInflight, this`nextSequence
      modifies transport`requests, transport`responses
      modifies v.sendQueue`head, v.sendQueue`peeked, v.sendCq`log, v.sendCq`reserved
      ensures SendReady(v)
      ensures RequesterTrace(c, trace) && trace[0] == old(RequesterNow(v)) && trace[|trace| - 1] == RequesterNow(v)
      ensures RequesterStuck(c, RequesterNow(v))
      ensures progressed <==> 3 < |trace|
    {
      var more;
      progressed, trace := CompleteResponses(v);
      more, trace := SendDatagrams(v, trace);
      progressed := progressed || more;
    }

    method CompleteResponses(v: QpView) returns (progressed: bool, ghost trace: seq<RequesterView>)
      requires Configured() && SendReady(v)
      modifies this`pendingResponse, this`requesterInflight, transport`responses, v.sendCq`log, v.sendCq`reserved
      ensures SendReady(v)
      ensures RequesterTrace(c, trace) && trace[0] == old(RequesterNow(v)) && trace[|trace| - 1] == RequesterNow(v)
      ensures !ResponseStep(c, RequesterState(v), transport.State()).progressed
      ensures 2 <= |trace| && (progressed <==> 2 < |trace|)
    {
      hide ResponseStep, SendStep, RequesterStep;
      trace, progressed := [RequesterNow(v)], false;
      var more := true;
      while more
        invariant SendReady(v)
        invariant RequesterTrace(c, trace) && trace[0] == old(RequesterNow(v)) && trace[|trace| - 1] == RequesterNow(v)
        invariant !more ==> !ResponseStep(c, RequesterState(v), transport.State()).progressed
        invariant if more then |trace| > 1 <==> progressed else |trace| > 1 && (|trace| > 2 <==> progressed)
        decreases ResponsesLeft(RequesterNow(v)), more
      {
        ghost var x := RequesterNow(v);
        more := TryResponse(v);
        ResponseCall(c, x, RequesterNow(v), more);
        RequesterExtend(c, trace, RequesterNow(v));
        trace := trace + [RequesterNow(v)];
        progressed := progressed || more;
      }
    }

    method SendDatagrams(v: QpView, ghost before: seq<RequesterView>) returns (progressed: bool, ghost trace: seq<RequesterView>)
      requires Configured() && SendReady(v)
      requires RequesterTrace(c, before) && before[|before| - 1] == RequesterNow(v)
      requires !ResponseStep(c, RequesterState(v), transport.State()).progressed
      modifies this`pendingSend, this`requesterInflight, this`nextSequence, transport`requests
      modifies v.sendQueue`head, v.sendQueue`peeked, v.sendCq`log, v.sendCq`reserved
      ensures SendReady(v)
      ensures RequesterTrace(c, trace) && trace[0] == before[0] && trace[|trace| - 1] == RequesterNow(v)
      ensures RequesterStuck(c, RequesterNow(v))
      ensures |before| < |trace| && (progressed <==> |before| + 1 < |trace|)
    {
      hide ResponseStep, SendStep, RequesterStep, RequesterStuck, CursorReady, CursorInRange;
      trace, progressed := before, false;
      var more := true;
      while more
        invariant SendReady(v)
        invariant RequesterTrace(c, trace) && trace[0] == before[0] && trace[|trace| - 1] == RequesterNow(v)
        invariant !ResponseStep(c, RequesterState(v), transport.State()).progressed
        invariant !more ==> RequesterStuck(c, RequesterNow(v))
        invariant if more then |trace| >= |before| && (|trace| > |before| <==> progressed)
                  else |trace| > |before| && (|trace| > |before| + 1 <==> progressed)
        decreases transport.requestCapacity - |transport.requests|, SendsLeft(RequesterNow(v)), more
      {
        ghost var x := RequesterNow(v);
        more := TrySend(v);
        if pendingSend.Some? { PendingInRange(c, pendingSend.value); }
        SendCall(c, x, RequesterNow(v), more);
        RequesterExtend(c, trace, RequesterNow(v));
        trace := trace + [RequesterNow(v)];
        progressed := progressed || more;
      }
    }

    method DrainCompletions(v: QpView) returns (progressed: bool, ghost trace: seq<ResponderView>)
      requires Configured() && BatchOk()
      modifies this`responderInflight, backend`completions
      ensures BatchOk()
      ensures ResponderTrace(c, trace) && trace[0] == old(ResponderNow(v)) && trace[|trace| - 1] == ResponderNow(v)
      ensures SameBatch(trace)
    {
      hide ResponderStep, ApplyCompletions;
      trace, progressed := [ResponderNow(v)], false;
      var more := true;
      while more
        invariant BatchOk()
        invariant ResponderTrace(c, trace) && trace[0] == old(ResponderNow(v)) && trace[|trace| - 1] == ResponderNow(v)
        invariant SameBatch(trace) && trace[0].s.batch == Batch()
        decreases |backend.completions|, more
      {
        ghost var x, popped := ResponderNow(v), [];
        more, popped := TryBackendCompletions();
        CompletionsAreStep(c, x, ResponderNow(v), popped);
        ResponderExtend(c, trace, ResponderNow(v));
        trace := trace + [ResponderNow(v)];
        progressed := progressed || more;
      }
    }

    method AnswerParents(v: QpView) returns (progressed: bool, ghost trace: seq<ResponderView>)
      requires Configured() && BatchOk()
      modifies this`responderInflight, this`responderOrder, transport`responses, v.receiveCq`log, v.receiveCq`reserved
      ensures BatchOk()
      ensures ResponderTrace(c, trace) && trace[0] == old(ResponderNow(v)) && trace[|trace| - 1] == ResponderNow(v)
      ensures !ParentResponseStep(c, ResponderState(v), transport.State()).progressed
      ensures SameBatch(trace)
    {
      hide ResponderStep, ParentResponseStep;
      trace, progressed := [ResponderNow(v)], false;
      var more := true;
      while more
        invariant BatchOk()
        invariant ResponderTrace(c, trace) && trace[0] == old(ResponderNow(v)) && trace[|trace| - 1] == ResponderNow(v)
        invariant !more ==> !ParentResponseStep(c, ResponderState(v), transport.State()).progressed
        invariant SameBatch(trace) && trace[0].s.batch == Batch()
        decreases |responderOrder|, more
      {
        ghost var x := ResponderNow(v);
        more := TryParentResponse(v);
        ParentResponseCall(c, x, ResponderNow(v), more);
        ResponderExtend(c, trace, ResponderNow(v));
        trace := trace + [ResponderNow(v)];
        progressed := progressed || more;
      }
    }

    method AcceptRequests(v: QpView) returns (progressed: bool, ghost trace: seq<ResponderView>)
      requires Configured() && BatchOk()
      modifies this`pendingRequest, this`responderInflight, this`responderOrder, this`pendingBackendRequestCount
      modifies pendingBackendRequests, transport`requests, transport`responses, v.receiveQueue`head, v.receiveQueue`peeked
      ensures BatchOk()
      ensures ResponderTrace(c, trace) && trace[0] == old(ResponderNow(v)) && trace[|trace| - 1] == ResponderNow(v)
      ensures !RequestStep(c, ResponderState(v), transport.State()).progressed
      ensures trace != [] && TookAll(c, trace, |trace| - 1)
    {
      hide ResponderStep, RequestStep;
      trace, progressed := [ResponderNow(v)], false;
      var more := true;
      while more
        invariant BatchOk()
        invariant ResponderTrace(c, trace) && trace[0] == old(ResponderNow(v)) && trace[|trace| - 1] == ResponderNow(v)
        invariant !more ==> !RequestStep(c, ResponderState(v), transport.State()).progressed
        decreases RequestsLeft(ResponderNow(v)), more
      {
        ghost var x := ResponderNow(v);
        more := TryRequest(v);
        RequestCall(c, x, ResponderNow(v), more);
        ResponderExtend(c, trace, ResponderNow(v));
        trace := trace + [ResponderNow(v)];
        progressed := progressed || more;
      }
    }

    method Flush(v: QpView) returns (progressed: bool, ghost trace: seq<ResponderView>)
      requires Configured() && BatchOk()
      modifies this`pendingBackendRequestCount, pendingBackendRequests, backend`outstanding
      ensures BatchOk()
      ensures ResponderTrace(c, trace) && trace[0] == old(ResponderNow(v)) && trace[|trace| - 1] == ResponderNow(v)
      ensures |trace| == 2 && (Batch() != [] ==> AlwaysPending(trace))
    {
      hide ResponderStep;
      trace := [ResponderNow(v)];
      ghost var n;
      progressed, n := TryFlushBackendRequests();
      FlushIsStep(c, trace[0], ResponderNow(v), n);
      trace := trace + [ResponderNow(v)];
    }

    /** What the backend finished is taken in, and parents are answered. */
    method DrainAndAnswer(v: QpView) returns (progressed: bool, ghost trace: seq<ResponderView>)
      requires Configured() && BatchOk()
      modifies this`responderInflight, this`responderOrder, backend`completions
      modifies transport`responses, v.receiveCq`log, v.receiveCq`reserved
      ensures BatchOk()
      ensures ResponderTrace(c, trace) && trace[0] == old(ResponderNow(v)) && trace[|trace| - 1] == ResponderNow(v)
      ensures !ParentResponseStep(c, ResponderState(v), transport.State()).progressed
      ensures SameBatch(trace)
    {
      hide ResponderStep, ResponderNow, ParentResponseStep, Joined;
      var more;
      ghost var step;
      progressed, trace := DrainCompletions(v);
      more, step := AnswerParents(v);
      progressed, trace := progressed || more, Joined(c, trace, step);
    }

    /** The batch is submitted; once it is gone, requests are taken and the new batch is submitted. */
    method SubmitAndAccept(v: QpView) returns (progressed: bool, ghost trace: seq<ResponderView>)
      requires Configured() && BatchOk()
      modifies this`pendingRequest, this`responderInflight, this`responderOrder, this`pendingBackendRequestCount
      modifies pendingBackendRequests, transport`requests, transport`responses, backend`outstanding
      modifies v.receiveQueue`head, v.receiveQueue`peeked
      ensures BatchOk()
      ensures ResponderTrace(c, trace) && trace[0] == old(ResponderNow(v)) && trace[|trace| - 1] == ResponderNow(v)
      ensures Worked(c, trace)
    {
      hide ResponderStep, ResponderNow, RequestStep, Joined;
      progressed, trace := Flush(v);
      if pendingBackendRequestCount == 0 {
        var more;
        ghost var step;
        more, step := AcceptRequests(v);
        ghost var last := step[|step| - 1];
        progressed, trace := progressed || more, Joined(c, trace, step);
        ghost var at := |trace| - 1;
        assert trace[at] == last;
        more, step := Flush(v);
        progressed, trace := progressed || more, Joined(c, trace, step);
        assert trace[at] == last && TookAll(c, trace, at);
      }
    }

    /** progress_once of a responder: the backend hands over what it finished, and requests are accepted only
        once the previous batch was submitted. */
    method ProgressResponder(v: QpView) returns (progressed: bool, ghost trace: seq<ResponderView>)
      requires Configured() && BatchOk()
      modifies this`pendingRequest, this`responderInflight, this`responderOrder, this`pendingBackendRequestCount
      modifies pendingBackendRequests, transport`requests, transport`responses, backend`outstanding, backend`completions
      modifies v.receiveQueue`head, v.receiveQueue`peeked, v.receiveCq`log, v.receiveCq`reserved
      ensures BatchOk()
      ensures ResponderTrace(c, trace) && trace[0] == old(ResponderNow(v)) && trace[|trace| - 1] == ResponderNow(v)
      ensures !ParentResponseStep(c, ResponderState(v), transport.State()).progressed
      ensures Worked(c, trace)
    {
      hide ResponderStep, ResponderNow, ParentResponseStep, RequestStep, Joined, Worked, SameBatch;
      ghost var step;
      var more;
      progressed, trace := DrainAndAnswer(v);
      more, step := SubmitAndAccept(v);
      WorkedAfter(c, trace, step);
      progressed, trace := progressed || more, Joined(c, trace, step);
      more, step := DrainAndAnswer(v);
      WorkedBefore(c, trace, step);
      progressed, trace := progressed || more, Joined(c, trace, step);
    }
  }

  lemma GatherNone(c: Config, sges: seq<Sge>)
    requires 0 < c.payloadBytes
    ensures Gather(c, sges[..0]) == Gathered([], 0, 0)
  {
  }

  /** One turn of the SGE loop. */
  lemma GatherNext(c: Config, sges: seq<Sge>, n: nat)
    requires 0 < c.payloadBytes && n < |sges|
    ensures Gather(c, sges[..n + 1]) == GatherOne(c, Gather(c, sges[..n]), sges[n])
  {
    assert sges[..n + 1][..n] == sges[..n];
  }

  /** Once the SGE loop fails it stays failed. */
  lemma {:induction false} GatherStops(c: Config, sges: seq<Sge>, n: nat)
    requires 0 < c.payloadBytes && n <= |sges|
    ensures Gather(c, sges[..n]).Failed? ==> Gather(c, sges) == Gather(c, sges[..n])
    decreases |sges| - n
  {
    if n == |sges| {
      assert sges[..n] == sges;
    } else {
      GatherNext(c, sges, n);
      GatherStops(c, sges, n + 1);
    }
  }
}
