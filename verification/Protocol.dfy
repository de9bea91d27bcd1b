/**
  The requester, the local transport, the responder and an asynchronous copy
  backend as one step system, and the invariant of its reachable states.

  The concrete part of a World changes by the functions of WorkerSteps.  The
  History part is bookkeeping: it names, for every object in flight, the parent
  (send WQE) it belongs to, and records what became visible outside.
 */
module Protocol {
  import opened Common
  import opened WorkerTypes
  import opened Fragments
  import opened WorkerSteps

  /** Datagram i of parent j. */
  datatype Coord = Coord(j: nat, i: nat)

  /** A payload copy the backend performed; on failure the target bytes are arbitrary. */
  datatype CopyEvent = CopyEvent(at: Coord, request: BackendRequest, result: DatagramResult, scribble: seq<int>)

  /** Submitted payloads in no particular order, and completions not yet popped. */
  datatype Backend = Backend(outstanding: seq<BackendRequest>, completions: seq<BackendCompletion>)

  /** What became of a send WQE: rejected locally, or taken as parent j. */
  datatype Fate = LocalReject(status: nat) | TakenAs(j: nat)

  /**
    parents: in the order taken;  rpos: next datagram the responder consumes;
    decided: parents whose first datagram was accepted or rejected;
    answers: results of accepted parents, in acceptance order.
   */
  datatype Core = Core(parents: seq<Parent>, rpos: Coord, decided: nat, answers: seq<DatagramResult>)

  /** Every copy performed, in order, and the position of each payload's copy. */
  datatype CopyLog = CopyLog(events: seq<CopyEvent>, at: map<Coord, nat>)

  datatype History = History(
    core: Core,
    wqeOf: seq<nat>,                       // index of the send WQE of each parent
    fate: seq<Fate>,                       // by send WQE index
    done: seq<Option<DatagramResult>>,     // by parent: result the requester completed it with
    taker: map<nat, nat>,                  // request id -> parent, for the requester's inflight map
    sendTags: seq<nat>,                    // send WQE index of each send completion
    wire: seq<Coord>,                      // datagrams pushed and not yet consumed by the responder
    owner: map<nat, nat>,                  // request id -> parent, for the responder's inflight map
    respTags: seq<nat>,                    // parent of each response in flight
    copies: CopyLog)

  datatype World = World(r: Requester, t: Transport, s: Responder, b: Backend, h: History)

  // ----- pure facts about parents

  predicate IsImm(p: Parent) { p.opcode == RdmaWriteWithImmediate }

  /** The responder's decision on a parent: a function of the fixed control plane. */
  predicate Accepts(c: Config, p: Parent) {
    && p.targetQp == c.responderQpNum
    && c.resolveRkey(p.rkey, p.remoteAddress, p.totalLength).Some?
  }

  function Target(c: Config, p: Parent): nat
    requires Accepts(c, p)
  {
    c.resolveRkey(p.rkey, p.remoteAddress, p.totalLength).value
  }

  /** The first response of a rejected parent; later datagrams of it draw remote_invalid_request. */
  function RejectResult(c: Config, p: Parent): DatagramResult {
    if p.targetQp != c.responderQpNum then RemoteInvalidRequest else RemoteAccessError
  }

  /** Accepted parents among the first n, in order. */
  function AcceptedBelow(c: Config, parents: seq<Parent>, n: nat): (r: seq<nat>)
    requires n <= |parents|
    ensures |r| == Rank(c, parents, n)
    ensures forall x :: 0 <= x < |r| ==> r[x] < n && Accepts(c, parents[r[x]])
  {
    if n == 0 then []
    else AcceptedBelow(c, parents, n - 1) + (if Accepts(c, parents[n - 1]) then [n - 1] else [])
  }

  /** Position of parent j in acceptance order. */
  function Rank(c: Config, parents: seq<Parent>, j: nat): nat
    requires j <= |parents|
  {
    if j == 0 then 0 else Rank(c, parents, j - 1) + (if Accepts(c, parents[j - 1]) then 1 else 0)
  }

  /** Accepted write-with-immediate parents among the first n. */
  function ImmRank(c: Config, parents: seq<Parent>, n: nat): nat
    requires n <= |parents|
  {
    if n == 0 then 0
    else ImmRank(c, parents, n - 1) + (if Accepts(c, parents[n - 1]) && IsImm(parents[n - 1]) then 1 else 0)
  }

  // ----- positions on the stream of datagrams

  function Succ(parents: seq<Parent>, k: Coord): Coord
    requires k.j < |parents|
  {
    if k.i + 1 < FragmentCount(parents[k.j]) then Coord(k.j, k.i + 1) else Coord(k.j + 1, 0)
  }

  predicate ValidCoord(parents: seq<Parent>, k: Coord) {
    k.j < |parents| && k.i < FragmentCount(parents[k.j])
  }

  /** wire holds exactly the coordinates from a up to, not including, b. */
  predicate Chain(parents: seq<Parent>, a: Coord, wire: seq<Coord>, b: Coord) {
    && (forall x :: 0 <= x < |wire| ==> ValidCoord(parents, wire[x]))
    && (wire == [] ==> a == b)
    && (wire != [] ==>
          && wire[0] == a
          && (forall x :: 0 < x < |wire| ==> wire[x] == Succ(parents, wire[x - 1]))
          && Succ(parents, wire[|wire| - 1]) == b)
  }

  /** Next datagram the requester will push. */
  function SenderPos(parents: seq<Parent>, pending: Option<PendingSend>): Coord {
    if pending.Some? && parents != [] then Coord(|parents| - 1, pending.value.payloadIndex)
    else Coord(|parents|, 0)
  }

  function Incoming(s: Responder, t: Transport): seq<RequestDatagram> {
    (if s.pendingRequest.Some? then [s.pendingRequest.value] else []) + t.requests
  }

  function Outgoing(r: Requester, t: Transport): seq<ResponseDatagram> {
    (if r.pendingResponse.Some? then [r.pendingResponse.value] else []) + t.responses
  }

  /** The responder consumed the first datagram of parent j. */
  predicate Started(rpos: Coord, j: nat) {
    j < rpos.j || (j == rpos.j && 0 < rpos.i)
  }

  /** Datagrams of parent j the responder consumed. */
  function Progress(k: Core, j: nat): nat
    requires j < |k.parents|
  {
    if j < k.rpos.j then FragmentCount(k.parents[j]) else if j == k.rpos.j then k.rpos.i else 0
  }

  /** Accepted and not yet answered. */
  predicate InWindow(c: Config, k: Core, j: nat) {
    && j < k.decided && j < |k.parents|
    && Accepts(c, k.parents[j])
    && |k.answers| <= Rank(c, k.parents, j)
  }

  /** res is the result the responder gave, or gives, parent j. */
  predicate Answered(c: Config, k: Core, j: nat, res: DatagramResult)
    requires j < |k.parents|
  {
    if Accepts(c, k.parents[j]) then
      Rank(c, k.parents, j) < |k.answers| && k.answers[Rank(c, k.parents, j)] == res
    else
      Started(k.rpos, j) && res == RejectResult(c, k.parents[j])
  }

  /** Something of parent j is still in flight. */
  predicate Live(c: Config, k: Core, done: seq<Option<DatagramResult>>, respTags: seq<nat>, j: nat) {
    && j < |k.parents|
    && ((j < |done| && done[j].None?) || InWindow(c, k, j) || k.rpos.j <= j || j in respTags)
  }

  // ----- the invariant, part by part

  /** The requester's pending send is the last parent, its cursor inside it. */
  ghost predicate InvCut(c: Config, parents: seq<Parent>, pending: Option<PendingSend>, queue: WorkQueue<SendWqe>)
    requires 0 < c.payloadBytes
  {
    && (forall j :: 0 <= j < |parents| ==> WellFormed(c, parents[j]))
    && queue.head <= |queue.log|
    && (queue.peeked <==> pending.Some?)
    && (pending.Some? ==>
          && parents != []
          && pending.value.parent == parents[|parents| - 1]
          && queue.head < |queue.log|
          && !pending.value.zeroPayloadSent
          && (if pending.value.parent.totalLength == 0 then pending.value.payloadIndex == 0
              else CursorAt(c, pending.value) && pending.value.payloadIndex < pending.value.parent.payloadCount))
  }

  /** Every send WQE has one fate; parents come from WQEs in post order. */
  ghost predicate InvFate(c: Config, parents: seq<Parent>, wqeOf: seq<nat>, fate: seq<Fate>,
                          pending: Option<PendingSend>, queue: WorkQueue<SendWqe>)
    requires 0 < c.payloadBytes
  {
    && |wqeOf| == |parents|
    && |fate| == queue.head + (if pending.Some? then 1 else 0) <= |queue.log|
    && (forall j :: 0 <= j < |parents| ==>
          && wqeOf[j] < |fate| && fate[wqeOf[j]] == TakenAs(j)
          && Prepare(c, queue.log[wqeOf[j]], parents[j].id) == Accept(parents[j]))
    && (forall i, j :: 0 <= i < j < |parents| ==> wqeOf[i] < wqeOf[j])
    && (forall k :: 0 <= k < |fate| && fate[k].TakenAs? ==> fate[k].j < |parents| && wqeOf[fate[k].j] == k)
    && (forall k :: 0 <= k < |fate| && fate[k].LocalReject? ==> RejectedLocally(c, queue.log[k], fate[k].status))
    && (pending.Some? && parents != [] ==> wqeOf[|parents| - 1] == queue.head)
  }

  /** try_send refuses the WQE with this status, whatever id it would give it. */
  ghost predicate RejectedLocally(c: Config, send: SendWqe, status: nat)
    requires 0 < c.payloadBytes
  {
    forall id :: Prepare(c, send, id) == Reject(status)
  }

  /** The queued datagrams are the contiguous run of fragments between responder and requester. */
  ghost predicate InvWire(c: Config, parents: seq<Parent>, rpos: Coord, wire: seq<Coord>, spos: Coord,
                          incoming: seq<RequestDatagram>)
    requires 0 < c.payloadBytes
  {
    && Chain(parents, rpos, wire, spos)
    && |incoming| == |wire|
    && (forall x :: 0 <= x < |wire| ==> IsDatagram(c, parents, wire[x], incoming[x]))
  }

  predicate IsDatagram(c: Config, parents: seq<Parent>, k: Coord, d: RequestDatagram)
    requires 0 < c.payloadBytes
  {
    && k.j < |parents|
    && (parents[k.j].totalLength != 0 ==> k.i < |Pieces(c, parents[k.j])|)
    && d == DatagramAt(c, parents[k.j], k.i)
  }

  /** Decisions, acceptance order and the responder's inflight map agree. */
  ghost predicate InvWindow(c: Config, k: Core, owner: map<nat, nat>, order: seq<nat>,
                            inflight: map<nat, ResponderInflight>)
  {
    && k.rpos.j <= k.decided <= k.rpos.j + 1
    && k.decided <= |k.parents|
    && (0 < k.rpos.i ==> k.decided == k.rpos.j + 1)
    && (k.decided == k.rpos.j + 1 && k.rpos.i == 0 ==> Accepts(c, k.parents[k.rpos.j]))
    && (k.decided == k.rpos.j + 1 ==> |k.answers| <= Rank(c, k.parents, k.rpos.j))
    && (var acc := AcceptedBelow(c, k.parents, k.decided);
        && |acc| == |k.answers| + |order|
        && (forall x :: 0 <= x < |order| ==> order[x] == k.parents[acc[|k.answers| + x]].id))
    && (forall j: nat :: InWindow(c, k, j) ==>
          k.parents[j].id in inflight && k.parents[j].id in owner && owner[k.parents[j].id] == j)
    && (forall id :: id in inflight ==>
          id in owner && InWindow(c, k, owner[id]) && k.parents[owner[id]].id == id)
  }

  function CountTrue(s: seq<bool>): nat {
    if s == [] then 0 else CountTrue(s[..|s| - 1]) + (if s[|s| - 1] then 1 else 0)
  }

  /** The responder's record of an accepted parent after `next` of its payloads. */
  predicate RecordOk(c: Config, p: Parent, rec: ResponderInflight, next: nat)
    requires 0 < c.payloadBytes
  {
    && Accepts(c, p)
    && rec.sourceQp == p.sourceQp && rec.targetQp == p.targetQp && rec.opcode == p.opcode
    && rec.remoteAddress == p.remoteAddress && rec.rkey == p.rkey && rec.immediate == p.immediate
    && rec.totalLength == p.totalLength == rec.byteLength
    && rec.targetAddress == Target(c, p)
    && rec.payloadCount == p.payloadCount == |rec.terminal| == |rec.results|
    && rec.nextPayloadIndex == next <= |Pieces(c, p)|
    && rec.nextPayloadOffset == Offset(Pieces(c, p), next)
    && rec.terminalCount == CountTrue(rec.terminal)
    && rec.parentError == Success
    && rec.hasReceive == IsImm(p)
    && rec.receiveConsumed == (IsImm(p) && 0 < next)
    && (forall i :: 0 <= i < |rec.terminal| && rec.terminal[i] ==> i < next)
    && (forall i :: 0 <= i < |rec.terminal| && !rec.terminal[i] ==> rec.results[i] == Success)
  }

  ghost predicate InvRecords(c: Config, k: Core, inflight: map<nat, ResponderInflight>)
    requires 0 < c.payloadBytes
  {
    forall j: nat :: InWindow(c, k, j) && k.parents[j].id in inflight ==>
      RecordOk(c, k.parents[j], inflight[k.parents[j].id], Progress(k, j))
  }

  function RequestKeys(q: seq<BackendRequest>): seq<(nat, nat)> {
    seq(|q|, x requires 0 <= x < |q| => (q[x].id, q[x].payloadIndex))
  }

  function CompletionKeys(q: seq<BackendCompletion>): seq<(nat, nat)> {
    seq(|q|, x requires 0 <= x < |q| => (q[x].id, q[x].payloadIndex))
  }

  /** Payloads between the responder's batch array and its terminal flags, with multiplicity. */
  function Pipe(batch: seq<BackendRequest>, b: Backend): multiset<(nat, nat)> {
    multiset(RequestKeys(batch)) + multiset(RequestKeys(b.outstanding)) + multiset(CompletionKeys(b.completions))
  }

  predicate Awaited(inflight: map<nat, ResponderInflight>, k: (nat, nat)) {
    && k.0 in inflight
    && k.1 < inflight[k.0].nextPayloadIndex
    && k.1 < |inflight[k.0].terminal|
    && !inflight[k.0].terminal[k.1]
  }

  /** Every batched payload that is not terminal is in the pipe exactly once, and nothing else is. */
  ghost predicate InvPipe(inflight: map<nat, ResponderInflight>, pipe: multiset<(nat, nat)>) {
    forall k: (nat, nat) :: pipe[k] == if Awaited(inflight, k) then 1 else 0
  }

  /** The backend request for payload i of parent p. */
  function PayloadRequest(c: Config, p: Parent, i: nat): BackendRequest
    requires 0 < c.payloadBytes && Accepts(c, p) && i < |Pieces(c, p)|
  {
    var piece := Pieces(c, p)[i];
    BackendRequest(p.id, p.totalLength, Offset(Pieces(c, p), i), piece.address,
                   Target(c, p) + Offset(Pieces(c, p), i), piece.length, i, p.payloadCount)
  }

  ghost predicate RequestOk(c: Config, parents: seq<Parent>, owner: map<nat, nat>, q: BackendRequest)
    requires 0 < c.payloadBytes
  {
    && q.id in owner && owner[q.id] < |parents|
    && IsPayload(c, parents, Coord(owner[q.id], q.payloadIndex), q)
  }

  predicate IsPayload(c: Config, parents: seq<Parent>, k: Coord, q: BackendRequest)
    requires 0 < c.payloadBytes
  {
    && k.j < |parents| && Accepts(c, parents[k.j]) && k.i < |Pieces(c, parents[k.j])|
    && q == PayloadRequest(c, parents[k.j], k.i)
  }

  ghost predicate InvRequests(c: Config, parents: seq<Parent>, owner: map<nat, nat>, q: seq<BackendRequest>)
    requires 0 < c.payloadBytes
  {
    forall x :: 0 <= x < |q| ==> RequestOk(c, parents, owner, q[x])
  }

  /** The copy log and its index are inverse; every copy is some accepted parent's payload request. */
  ghost predicate InvCopyLog(c: Config, parents: seq<Parent>, copies: CopyLog)
    requires 0 < c.payloadBytes
  {
    && (forall x :: 0 <= x < |copies.events| ==>
          && copies.events[x].at in copies.at && copies.at[copies.events[x].at] == x
          && IsPayload(c, parents, copies.events[x].at, copies.events[x].request))
    && (forall k :: k in copies.at ==> copies.at[k] < |copies.events| && copies.events[copies.at[k]].at == k)
  }

  predicate CopiedWith(copies: CopyLog, k: Coord, result: DatagramResult) {
    k in copies.at && copies.at[k] < |copies.events| && copies.events[copies.at[k]].result == result
  }

  /** Queued completions were copied with the result they carry. */
  ghost predicate InvCompleted(owner: map<nat, nat>, copies: CopyLog, completions: seq<BackendCompletion>) {
    forall x :: 0 <= x < |completions| ==>
      && completions[x].id in owner
      && CopiedWith(copies, Coord(owner[completions[x].id], completions[x].payloadIndex), completions[x].result)
  }

  /** Terminal payloads were copied with the recorded result. */
  ghost predicate InvTerminal(owner: map<nat, nat>, copies: CopyLog, inflight: map<nat, ResponderInflight>) {
    forall id, i: nat :: id in inflight && id in owner && i < |inflight[id].terminal| && i < |inflight[id].results|
                         && inflight[id].terminal[i] ==>
      CopiedWith(copies, Coord(owner[id], i), inflight[id].results[i])
  }

  /** Requests still waiting were not copied. */
  ghost predicate InvWaiting(owner: map<nat, nat>, copies: CopyLog, q: seq<BackendRequest>) {
    forall x :: 0 <= x < |q| && q[x].id in owner ==> Coord(owner[q[x].id], q[x].payloadIndex) !in copies.at
  }

  /** Only consumed datagrams were copied. */
  ghost predicate InvCopyBound(k: Core, copies: CopyLog) {
    forall x :: x in copies.at ==> x.j < |k.parents| && x.j < k.decided && x.i < Progress(k, x.j)
  }

  /** Answers are exact: every payload was copied, success means all copies succeeded, an error is that of the first failed one. */
  ghost predicate InvAnswers(c: Config, parents: seq<Parent>, answers: seq<DatagramResult>, copies: CopyLog) {
    forall j :: 0 <= j < |parents| && Accepts(c, parents[j]) && Rank(c, parents, j) < |answers| ==>
      AnswerOk(parents[j].payloadCount, j, answers[Rank(c, parents, j)], copies)
  }

  ghost predicate AnswerOk(count: nat, j: nat, answer: DatagramResult, copies: CopyLog) {
    && (forall i: nat :: i < count ==> Coord(j, i) in copies.at)
    && (answer == Success <==> forall i: nat :: i < count ==> CopiedWith(copies, Coord(j, i), Success))
    && (answer != Success ==> exists i: nat :: i < count && FailedFirst(copies, j, i, answer))
  }

  /** Payload i of parent j was copied with this result, all payloads before it with success. */
  ghost predicate FailedFirst(copies: CopyLog, j: nat, i: nat, result: DatagramResult) {
    CopiedWith(copies, Coord(j, i), result) && forall h: nat :: h < i ==> CopiedWith(copies, Coord(j, h), Success)
  }

  /** Response x carries its parent's result, or is a surplus rejection that comes after the first one. */
  ghost predicate ResponseOk(c: Config, k: Core, done: seq<Option<DatagramResult>>, respTags: seq<nat>,
                             x: nat, response: ResponseDatagram)
    requires x < |respTags|
  {
    var j := respTags[x];
    && j < |k.parents|
    && response.id == k.parents[j].id
    && (Answered(c, k, j, response.result)
        || (&& !Accepts(c, k.parents[j]) && Started(k.rpos, j) && response.result == RemoteInvalidRequest
            && (j < |done| && done[j].None? ==> j in respTags[..x])))
  }

  /** Responses in flight belong to parents; an answered parent not yet completed has one. */
  ghost predicate InvResponses(c: Config, k: Core, done: seq<Option<DatagramResult>>, respTags: seq<nat>,
                               outgoing: seq<ResponseDatagram>)
  {
    && |respTags| == |outgoing|
    && (forall x :: 0 <= x < |outgoing| ==> ResponseOk(c, k, done, respTags, x, outgoing[x]))
    && (forall j, res :: 0 <= j < |k.parents| && j < |done| && done[j].None? && Answered(c, k, j, res) ==>
          j in respTags)
  }

  /** The requester's inflight map holds exactly the parents not yet completed. */
  ghost predicate InvInflight(parents: seq<Parent>, done: seq<Option<DatagramResult>>, taker: map<nat, nat>,
                              inflight: map<nat, RequesterInflight>)
  {
    && |done| == |parents|
    && (forall j :: 0 <= j < |parents| && done[j].None? ==>
          && parents[j].id in inflight && inflight[parents[j].id] == InflightOf(parents[j])
          && parents[j].id in taker && taker[parents[j].id] == j)
    && (forall id :: id in inflight ==>
          && id in taker && taker[id] < |parents|
          && done[taker[id]].None? && parents[taker[id]].id == id)
  }

  /** A completed parent was completed with the responder's result. */
  ghost predicate InvDone(c: Config, k: Core, done: seq<Option<DatagramResult>>) {
    forall j :: 0 <= j < |k.parents| && j < |done| && done[j].Some? ==> Answered(c, k, j, done[j].value)
  }

  /** The completion due for send WQE k, if any. */
  function Due(c: Config, log: seq<SendWqe>, parents: seq<Parent>, fate: seq<Fate>,
               done: seq<Option<DatagramResult>>, k: nat): Option<CompletionEntry>
  {
    if k >= |fate| || k >= |log| then None
    else
      match fate[k]
      case LocalReject(status) => Some(SendCompletion(log[k].wrId, c.qpNum, status))
      case TakenAs(j) =>
        if j >= |parents| || j >= |done| || done[j].None? then None
        else if done[j].value == Success && !parents[j].signaled then None
        else Some(SendCompletion(log[k].wrId, c.qpNum, CompletionStatus(done[j].value)))
  }

  /** Send completions are exactly the due ones, one each. */
  ghost predicate InvSendCq(c: Config, log: seq<SendWqe>, parents: seq<Parent>, fate: seq<Fate>,
                            done: seq<Option<DatagramResult>>, tags: seq<nat>, cq: CompletionQueue)
  {
    && !cq.reserved
    && |tags| == |cq.log|
    && (forall x :: 0 <= x < |tags| ==> Due(c, log, parents, fate, done, tags[x]) == Some(cq.log[x]))
    && (forall x, y :: 0 <= x < y < |tags| ==> tags[x] != tags[y])
    && (forall k :: Due(c, log, parents, fate, done, k).Some? ==> k in tags)
  }

  /** No two parents with something in flight share a request id. */
  ghost predicate InvUnique(c: Config, k: Core, done: seq<Option<DatagramResult>>, respTags: seq<nat>) {
    forall i, j :: 0 <= i < j < |k.parents| && Live(c, k, done, respTags, i) && Live(c, k, done, respTags, j) ==>
      k.parents[i].id != k.parents[j].id
  }

  function ReceiveWrId(log: seq<ReceiveWqe>, k: nat): nat {
    if k < |log| then log[k].wrId else 0
  }

  /** Receive completions for the first n answers: one per successful write-with-immediate. */
  function ReceiveEntries(c: Config, parents: seq<Parent>, acc: seq<nat>, answers: seq<DatagramResult>,
                          log: seq<ReceiveWqe>, n: nat): seq<CompletionEntry>
    requires n <= |answers| && n <= |acc| && (forall x :: 0 <= x < n ==> acc[x] < |parents|)
  {
    if n == 0 then []
    else
      var p := parents[acc[n - 1]];
      ReceiveEntries(c, parents, acc, answers, log, n - 1)
      + (if answers[n - 1] == Success && IsImm(p)
         then [ReceiveCompletion(ReceiveWrId(log, ImmRank(c, parents, acc[n - 1])), c.responderQpNum,
                                 p.totalLength, p.immediate)]
         else [])
  }

  /** The k-th accepted write-with-immediate holds the k-th receive WQE. */
  ghost predicate InvReceive(c: Config, k: Core, inflight: map<nat, ResponderInflight>, queue: WorkQueue<ReceiveWqe>) {
    && k.rpos.j <= |k.parents|
    && queue.head == ImmRank(c, k.parents, k.rpos.j)
         + (if 0 < k.rpos.i && k.rpos.j < |k.parents| && Accepts(c, k.parents[k.rpos.j]) && IsImm(k.parents[k.rpos.j])
            then 1 else 0)
    && queue.head <= |queue.log|
    && (queue.peeked <==>
          k.rpos.i == 0 && k.decided == k.rpos.j + 1 && k.rpos.j < |k.parents| && IsImm(k.parents[k.rpos.j]))
    && (queue.peeked ==> queue.head < |queue.log|)
    && (forall j: nat :: InWindow(c, k, j) && k.parents[j].id in inflight && IsImm(k.parents[j]) ==>
          && ImmRank(c, k.parents, j) < |queue.log|
          && inflight[k.parents[j].id].receiveWrId == queue.log[ImmRank(c, k.parents, j)].wrId)
  }

  /** Receive completions are exactly those of the successful answers; no reservation is left open. */
  ghost predicate InvReceiveCq(c: Config, parents: seq<Parent>, decided: nat, answers: seq<DatagramResult>,
                               log: seq<ReceiveWqe>, cq: CompletionQueue)
  {
    && !cq.reserved
    && decided <= |parents|
    && (var acc := AcceptedBelow(c, parents, decided);
        && |answers| <= |acc|
        && cq.log == ReceiveEntries(c, parents, acc, answers, log, |answers|))
  }

  /** A decided but unconsumed first datagram is still pending. */
  predicate InvPending(k: Core, pending: Option<RequestDatagram>) {
    k.decided == k.rpos.j + 1 && k.rpos.i == 0 ==> pending.Some?
  }

  ghost predicate Inv(c: Config, w: World) {
    var h, k := w.h, w.h.core;
    && ValidConfig(c)
    && InvCut(c, k.parents, w.r.pendingSend, w.r.sendQueue)
    && InvFate(c, k.parents, h.wqeOf, h.fate, w.r.pendingSend, w.r.sendQueue)
    && InvWire(c, k.parents, k.rpos, h.wire, SenderPos(k.parents, w.r.pendingSend), Incoming(w.s, w.t))
    && InvPending(k, w.s.pendingRequest)
    && InvWindow(c, k, h.owner, w.s.order, w.s.inflight)
    && InvRecords(c, k, w.s.inflight)
    && InvPipe(w.s.inflight, Pipe(w.s.batch, w.b))
    && InvRequests(c, k.parents, h.owner, w.s.batch)
    && InvRequests(c, k.parents, h.owner, w.b.outstanding)
    && InvCopyLog(c, k.parents, h.copies)
    && InvCompleted(h.owner, h.copies, w.b.completions)
    && InvTerminal(h.owner, h.copies, w.s.inflight)
    && InvWaiting(h.owner, h.copies, w.s.batch)
    && InvWaiting(h.owner, h.copies, w.b.outstanding)
    && InvCopyBound(k, h.copies)
    && InvAnswers(c, k.parents, k.answers, h.copies)
    && InvResponses(c, k, h.done, h.respTags, Outgoing(w.r, w.t))
    && InvInflight(k.parents, h.done, h.taker, w.r.inflight)
    && InvDone(c, k, h.done)
    && InvSendCq(c, w.r.sendQueue.log, k.parents, h.fate, h.done, h.sendTags, w.r.sendCq)
    && InvUnique(c, k, h.done, h.respTags)
    && InvReceive(c, k, w.s.inflight, w.s.receiveQueue)
    && InvReceiveCq(c, k.parents, k.decided, k.answers, w.s.receiveQueue.log, w.s.receiveCq)
  }
}
