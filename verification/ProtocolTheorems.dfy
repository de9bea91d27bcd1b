/** What the protocol invariant means for every state of every run. */
module ProtocolTheorems {
  import opened Common
  import opened WorkerTypes
  import opened Fragments
  import opened WorkerSteps
  import opened Protocol
  import opened ProtocolOrder
  import opened ProtocolRuns
  import opened GatherCopy
  import ProtocolRequest

  /**
    The datagrams in transit are exactly the contiguous fragments between the
    responder's position and the requester's, each the reference datagram of
    its parent, and parents were made from send WQEs in post order, field by
    field and with the SGEs resolved.
   */
  lemma QueuedDatagramsAreRemainingFragments(c: Config, w: World)
    requires Reachable(c, w)
    ensures var k := w.h.core;
            && Chain(k.parents, k.rpos, w.h.wire, SenderPos(k.parents, w.r.pendingSend))
            && |Incoming(w.s, w.t)| == |w.h.wire|
            && (forall x :: 0 <= x < |w.h.wire| ==> IsDatagram(c, k.parents, w.h.wire[x], Incoming(w.s, w.t)[x]))
            && |w.h.wqeOf| == |k.parents|
            && (forall i, j :: 0 <= i < j < |k.parents| ==> w.h.wqeOf[i] < w.h.wqeOf[j])
            && (forall j :: 0 <= j < |k.parents| ==>
                  w.h.wqeOf[j] < |w.r.sendQueue.log| && MadeFrom(c, w.r.sendQueue.log[w.h.wqeOf[j]], k.parents[j]))
  {
    ReachableInv(c, w);
    ParentsFromWork(c, w);
    hide InvCut, InvWindow, InvRecords, InvPipe, InvRequests, InvCopyLog, InvCompleted, InvTerminal, InvWaiting,
      InvCopyBound, InvAnswers, InvResponses, InvInflight, InvDone, InvUnique, InvReceive, InvReceiveCq, InvSendCq, Reachable,
      IsDatagram, Prepare, Chain, RejectedLocally, MadeFrom;
  }

  /** Every parent is the send WQE it was taken from; every refused WQE was refused for cause. */
  lemma ParentsFromWork(c: Config, w: World)
    requires Inv(c, w)
    ensures |w.h.wqeOf| == |w.h.core.parents| && |w.h.fate| <= |w.r.sendQueue.log|
    ensures forall j :: 0 <= j < |w.h.core.parents| ==>
              w.h.wqeOf[j] < |w.r.sendQueue.log| && MadeFrom(c, w.r.sendQueue.log[w.h.wqeOf[j]], w.h.core.parents[j])
    ensures forall k, status :: 0 <= k < |w.h.fate| && w.h.fate[k].LocalReject? ==>
              (RefusedWith(c, w.r.sendQueue.log[k], status) <==> status == w.h.fate[k].status)
  {
    hide InvCut, InvWire, InvWindow, InvRecords, InvPipe, InvRequests, InvCopyLog, InvCompleted, InvTerminal, InvWaiting,
      InvCopyBound, InvAnswers, InvResponses, InvInflight, InvDone, InvUnique, InvReceive, InvReceiveCq, InvSendCq,
      Prepare, WellFormed, MadeFrom, RefusedWith;
    var parents, log := w.h.core.parents, w.r.sendQueue.log;
    forall j | 0 <= j < |parents| ensures w.h.wqeOf[j] < |log| && MadeFrom(c, log[w.h.wqeOf[j]], parents[j]) {
      PrepareFacts(c, log[w.h.wqeOf[j]], parents[j].id);
    }
    forall k, status | 0 <= k < |w.h.fate| && w.h.fate[k].LocalReject?
      ensures RefusedWith(c, log[k], status) <==> status == w.h.fate[k].status
    {
      PrepareRefuses(c, log[k], 0, status);
      assert RejectedLocally(c, log[k], w.h.fate[k].status);
    }
  }

  /**
    The next datagram is a fragment of the parent at the responder's position:
    of a parent in flight it passes the continuation check and does not trip
    the final-offset check; of an accepted parent not yet in flight it passes
    the first-datagram check.
   */
  ghost predicate HeadIsSound(c: Config, k: Core, inflight: map<nat, ResponderInflight>, q: RequestDatagram) {
    && k.rpos.j < |k.parents| && q.id == k.parents[k.rpos.j].id
    && (q.id in inflight ==>
          ValidPayload(inflight[q.id], q) && CountPayload(inflight[q.id], q).parentError == Success)
    && (Accepts(c, k.parents[k.rpos.j]) && q.id !in inflight ==> ValidFirst(q))
  }

  /**
    The responder never marks an accepted parent with an error of its own: the
    datagram it handles next, pending or still queued, passes its checks, and
    no backend completion is refused.
   */
  lemma NoProtocolErrors(c: Config, w: World)
    requires Reachable(c, w)
    ensures
            && (forall id :: id in w.s.inflight ==> w.s.inflight[id].parentError == Success)
            && (Incoming(w.s, w.t) != [] ==> HeadIsSound(c, w.h.core, w.s.inflight, Incoming(w.s, w.t)[0]))
            && (forall x :: 0 <= x < |w.b.completions| ==>
                  Awaited(w.s.inflight, (w.b.completions[x].id, w.b.completions[x].payloadIndex)))
  {
    ReachableInv(c, w);
    hide InvCut, InvFate, InvWire, InvPipe, InvRequests, InvCopyLog, InvCompleted, InvTerminal, InvWaiting,
      InvCopyBound, InvAnswers, InvResponses, InvInflight, InvDone, InvUnique, InvReceive, InvReceiveCq, InvSendCq, Reachable,
      Rank, AcceptedBelow, Accepts, Pieces, Offset, CountTrue, Pipe, WellFormed, HeadIsSound, Incoming;
    var h, k := w.h, w.h.core;
    PipeMembers(w.s.inflight, w.s.batch, w.b);
    forall id | id in w.s.inflight ensures w.s.inflight[id].parentError == Success {
      assert RecordOk(c, k.parents[h.owner[id]], w.s.inflight[id], Progress(k, h.owner[id]));
    }
    if Incoming(w.s, w.t) != [] { HeadPasses(c, w); }
  }

  lemma HeadPasses(c: Config, w: World)
    requires Inv(c, w) && Incoming(w.s, w.t) != []
    ensures HeadIsSound(c, w.h.core, w.s.inflight, Incoming(w.s, w.t)[0])
  {
    hide InvCut, InvFate, InvWire, InvPipe, InvRequests, InvCopyLog, InvCompleted, InvTerminal, InvWaiting, InvRecords,
      InvCopyBound, InvAnswers, InvResponses, InvInflight, InvDone, InvUnique, InvReceive, InvReceiveCq, InvSendCq,
      Rank, AcceptedBelow, Accepts, Pieces, Offset, CountTrue, Pipe, IsDatagram, WellFormed, ValidPayload, Incoming,
      CountPayload, ValidFirst;
    var h, k, q := w.h, w.h.core, Incoming(w.s, w.t)[0];
    ProtocolRequest.HeadOfWire(c, k, h.wire, SenderPos(k.parents, w.r.pendingSend), Incoming(w.s, w.t), w.r.pendingSend,
                               w.r.sendQueue);
    ProtocolRequest.HeadFields(c, k, h.wire, q);
    ProtocolRequest.HeadInflight(c, k, h.owner, w.s.order, w.s.inflight, h.done, h.respTags);
    if q.id in w.s.inflight {
      ProtocolRequest.RecordAt(c, k, h.owner, w.s.order, w.s.inflight);
      ProtocolRequest.PayloadPasses(c, k, h.wire, q, w.s.inflight[q.id]);
    }
  }

  /** Payload k has its one event in the copy log. */
  ghost predicate CopiedOnce(log: CopyLog, k: Coord) {
    k in log.at && log.at[k] < |log.events| && log.events[log.at[k]].at == k
  }

  /** Answered parents had every payload copied, and the answer is the one the copies make. */
  ghost predicate AnswersExact(c: Config, parents: seq<Parent>, answers: seq<DatagramResult>, log: CopyLog) {
    forall j :: 0 <= j < |parents| && Accepts(c, parents[j]) && Rank(c, parents, j) < |answers| ==>
      && (forall i: nat :: i < parents[j].payloadCount ==> CopiedOnce(log, Coord(j, i)))
      && AnswerOk(parents[j].payloadCount, j, answers[Rank(c, parents, j)], log)
  }

  /**
    Parent completion: terminal_count counts the terminal flags, parents are
    answered in acceptance order, an answered parent had every payload copied
    exactly once, and it was answered with success exactly when all copies
    succeeded, otherwise with the result of its lowest-indexed failed payload.
   */
  lemma ParentsAnsweredInOrderAfterAllPayloads(c: Config, w: World)
    requires Reachable(c, w)
    ensures var k := w.h.core; var log := w.h.copies;
            && k.decided <= |k.parents|
            && (var acc := AcceptedBelow(c, k.parents, k.decided);
                && |acc| == |k.answers| + |w.s.order|
                && (forall x :: 0 <= x < |w.s.order| ==> w.s.order[x] == k.parents[acc[|k.answers| + x]].id))
            && (forall id :: id in w.s.inflight ==>
                  w.s.inflight[id].terminalCount == CountTrue(w.s.inflight[id].terminal))
            && (forall x, y :: 0 <= x < y < |log.events| ==> log.events[x].at != log.events[y].at)
            && AnswersExact(c, k.parents, k.answers, log)
  {
    hide InvCut, InvFate, InvWire, InvPipe, InvRequests, InvCompleted, InvTerminal, InvWaiting, InvWindow, InvRecords,
      InvCopyBound, InvResponses, InvInflight, InvDone, InvUnique, InvReceive, InvReceiveCq, InvSendCq, Reachable,
      InvCopyLog, InvAnswers, AnswersExact, CountTrue, AcceptedBelow;
    ReachableInv(c, w);
    OrderOf(c, w.h.core, w.h.owner, w.s.order, w.s.inflight);
    CountsOf(c, w.h.core, w.h.owner, w.s.order, w.s.inflight);
    AnswersOf(c, w.h.core.parents, w.h.core.answers, w.h.copies);
  }

  lemma OrderOf(c: Config, k: Core, owner: map<nat, nat>, order: seq<nat>, inflight: map<nat, ResponderInflight>)
    requires InvWindow(c, k, owner, order, inflight)
    ensures k.decided <= |k.parents|
    ensures var acc := AcceptedBelow(c, k.parents, k.decided);
            && |acc| == |k.answers| + |order|
            && (forall x :: 0 <= x < |order| ==> order[x] == k.parents[acc[|k.answers| + x]].id)
  {
    hide InWindow, Rank, Accepts;
  }

  lemma CountsOf(c: Config, k: Core, owner: map<nat, nat>, order: seq<nat>, inflight: map<nat, ResponderInflight>)
    requires 0 < c.payloadBytes && InvWindow(c, k, owner, order, inflight) && InvRecords(c, k, inflight)
    ensures forall id :: id in inflight ==> inflight[id].terminalCount == CountTrue(inflight[id].terminal)
  {
    hide Rank, AcceptedBelow, Accepts, Pieces, Offset, CountTrue;
    forall id | id in inflight ensures inflight[id].terminalCount == CountTrue(inflight[id].terminal) {
      assert RecordOk(c, k.parents[owner[id]], inflight[id], Progress(k, owner[id]));
    }
  }

  lemma AnswersOf(c: Config, parents: seq<Parent>, answers: seq<DatagramResult>, log: CopyLog)
    requires 0 < c.payloadBytes && InvCopyLog(c, parents, log) && InvAnswers(c, parents, answers, log)
    ensures forall x, y :: 0 <= x < y < |log.events| ==> log.events[x].at != log.events[y].at
    ensures AnswersExact(c, parents, answers, log)
  {
    hide IsPayload, Rank, Accepts, CopiedWith, FailedFirst;
  }

  /** The daemon address of byte b of a work request's SGEs, one after the other. */
  function SgeAddress(c: Config, sges: seq<Sge>, b: nat): int {
    if sges == [] then 0
    else if b >= sges[0].length then SgeAddress(c, sges[1..], b - sges[0].length)
    else
      match c.resolveLkey(sges[0].lkey, sges[0].address, sges[0].length)
      case None => 0
      case Some(a) => a + b
  }

  lemma {:induction false} SegmentsAreSges(c: Config, sges: seq<Sge>, segments: seq<Segment>, b: nat)
    requires Resolves(c, sges, segments)
    ensures GatherAddress(segments, b) == SgeAddress(c, sges, b)
  {
    if sges != [] && b >= sges[0].length { SegmentsAreSges(c, sges[1..], segments[1..], b - sges[0].length); }
  }

  /**
    Gather-copy refinement over whole runs: when the requester completes a
    parent with success, it was addressed to the responder's QP and its remote
    key resolved; all its payloads were copied; for every span of the run that
    contains these copies and in which the parent is isolated, byte b of the
    range its work request names is at the end of the span what byte b of the
    work request's SGEs was at its start; and every byte the parent's own
    copies wrote lies inside that range.
   */
  lemma SuccessMeansGathered(c: Config, w: World, j: nat, m: Memory, lo: nat, hi: nat)
    requires Reachable(c, w)
    requires j < |w.h.core.parents| && j < |w.h.done| && w.h.done[j] == Some(Success)
    requires lo <= hi <= |w.h.copies.events|
    ensures Accepts(c, w.h.core.parents[j])
    ensures CopiedBetween(w.h.core.parents[j], j, w.h.copies, 0, |w.h.copies.events|)
    ensures j < |w.h.wqeOf| && w.h.wqeOf[j] < |w.r.sendQueue.log|
    ensures var p, events, s := w.h.core.parents[j], w.h.copies.events, w.r.sendQueue.log[w.h.wqeOf[j]];
            var target := c.resolveRkey(s.rkey, s.remoteAddress, SgeTotal(s.sges));
            && c.peerQpNum == c.responderQpNum && target.Some?
            && (CopiedBetween(p, j, w.h.copies, lo, hi) && Isolated(c, p, j, events, lo, hi) ==>
                  forall b: nat :: b < SgeTotal(s.sges) ==>
                    ApplyCopies(m, events, hi)(target.value + b)
                    == ApplyCopies(m, events, lo)(SgeAddress(c, s.sges, b)))
            && (forall x, a :: 0 <= x < |events| && events[x].at.j == j
                               && InRange(a, events[x].request.targetAddress, events[x].request.payloadLength) ==>
                  InRange(a, target.value, SgeTotal(s.sges)))
  {
    hide *;
    ReachableInv(c, w);
    DoneWithSuccess(c, w, j);
    ParentsFromWork(c, w);
    GatheredFrom(c, w.h.core.parents, w.h.copies, j, m, lo, hi);
    InWorkTerms(c, w.r.sendQueue.log[w.h.wqeOf[j]], w.h.core.parents[j]);
  }

  /** What the responder accepted, in the work request's own terms. */
  lemma InWorkTerms(c: Config, s: SendWqe, p: Parent)
    requires Accepts(c, p) && MadeFrom(c, s, p)
    ensures c.peerQpNum == c.responderQpNum && p.totalLength == SgeTotal(s.sges)
    ensures c.resolveRkey(s.rkey, s.remoteAddress, SgeTotal(s.sges)) == Some(Target(c, p))
    ensures forall a :: InTarget(c, p, a) <==> InRange(a, Target(c, p), SgeTotal(s.sges))
    ensures forall b: nat :: GatherAddress(p.segments, b) == SgeAddress(c, s.sges, b)
  {
    hide Resolves, GatherAddress, SgeAddress, SgeTotal;
    forall b: nat ensures GatherAddress(p.segments, b) == SgeAddress(c, s.sges, b) {
      SegmentsAreSges(c, s.sges, p.segments, b);
    }
  }

  lemma DoneWithSuccess(c: Config, w: World, j: nat)
    requires Inv(c, w) && j < |w.h.core.parents| && j < |w.h.done| && w.h.done[j] == Some(Success)
    ensures 0 < c.payloadBytes && InvCopyLog(c, w.h.core.parents, w.h.copies)
    ensures Accepts(c, w.h.core.parents[j]) && WellFormed(c, w.h.core.parents[j])
    ensures AnswerOk(w.h.core.parents[j].payloadCount, j, Success, w.h.copies)
  {
    hide InvFate, InvWire, InvPipe, InvRequests, InvCompleted, InvTerminal, InvWaiting, InvWindow, InvRecords,
      InvCopyBound, InvResponses, InvInflight, InvUnique, InvReceive, InvReceiveCq, InvSendCq, InvCopyLog, AnswerOk,
      Rank, WellFormed, CursorAt;
    assert Answered(c, w.h.core, j, Success);
  }

  lemma GatheredFrom(c: Config, parents: seq<Parent>, log: CopyLog, j: nat, m: Memory, lo: nat, hi: nat)
    requires 0 < c.payloadBytes && j < |parents| && InvCopyLog(c, parents, log) && Accepts(c, parents[j])
    requires WellFormed(c, parents[j]) && AnswerOk(parents[j].payloadCount, j, Success, log)
    requires lo <= hi <= |log.events|
    ensures CopiedBetween(parents[j], j, log, 0, |log.events|)
    ensures var p, events := parents[j], log.events;
            && (CopiedBetween(p, j, log, lo, hi) && Isolated(c, p, j, events, lo, hi) ==>
                  forall b: nat :: b < p.totalLength ==>
                    ApplyCopies(m, events, hi)(Target(c, p) + b)
                    == ApplyCopies(m, events, lo)(GatherAddress(p.segments, b)))
            && (forall x, a :: 0 <= x < |events| && events[x].at.j == j
                               && InRange(a, events[x].request.targetAddress, events[x].request.payloadLength) ==>
                  InTarget(c, p, a))
  {
    hide *;
    SuccessLog(c, parents, log, j);
    if CopiedBetween(parents[j], j, log, lo, hi) && Isolated(c, parents[j], j, log.events, lo, hi) {
      GatheredBytes(c, parents[j], j, log, m, lo, hi);
    }
    OwnCopiesInside(c, parents[j], j, log);
  }

  lemma GatheredBytes(c: Config, p: Parent, j: nat, log: CopyLog, m: Memory, lo: nat, hi: nat)
    requires 0 < c.payloadBytes && WellFormed(c, p) && LogFor(c, p, j, log) && lo <= hi <= |log.events|
    requires CopiedBetween(p, j, log, lo, hi) && Isolated(c, p, j, log.events, lo, hi)
    ensures forall b: nat :: b < p.totalLength ==>
              ApplyCopies(m, log.events, hi)(Target(c, p) + b)
              == ApplyCopies(m, log.events, lo)(GatherAddress(p.segments, b))
  {
    assert Accepts(c, p);
    hide *;
    forall b: nat | b < p.totalLength
      ensures ApplyCopies(m, log.events, hi)(Target(c, p) + b) == ApplyCopies(m, log.events, lo)(GatherAddress(p.segments, b))
    {
      GatherCopied(c, p, j, log, m, lo, hi, b);
    }
  }

  lemma OwnCopiesInside(c: Config, p: Parent, j: nat, log: CopyLog)
    requires 0 < c.payloadBytes && WellFormed(c, p) && LogFor(c, p, j, log)
    ensures forall x, a :: 0 <= x < |log.events| && log.events[x].at.j == j
                           && InRange(a, log.events[x].request.targetAddress, log.events[x].request.payloadLength) ==>
              InTarget(c, p, a)
  {
    hide Pieces, WellFormed, InTarget, InRange, PayloadRequest, Accepts;
    forall x, a | 0 <= x < |log.events| && log.events[x].at.j == j
                  && InRange(a, log.events[x].request.targetAddress, log.events[x].request.payloadLength)
      ensures InTarget(c, p, a)
    {
      OwnCopyInside(c, p, log.events[x].at.i, a);
    }
  }

  lemma SuccessLog(c: Config, parents: seq<Parent>, log: CopyLog, j: nat)
    requires 0 < c.payloadBytes && j < |parents| && InvCopyLog(c, parents, log) && Accepts(c, parents[j])
    requires WellFormed(c, parents[j])
    requires AnswerOk(parents[j].payloadCount, j, Success, log)
    ensures LogFor(c, parents[j], j, log) && CopiedBetween(parents[j], j, log, 0, |log.events|)
  {
    ParentFacts(c, parents[j]);
    hide PayloadRequest, Pieces, Accepts, WellFormed;
    forall x | 0 <= x < |log.events| && log.events[x].at.j == j
      ensures && log.events[x].at.i < |Pieces(c, parents[j])|
              && log.events[x].request == PayloadRequest(c, parents[j], log.events[x].at.i)
              && log.events[x].result == Success
    {
      var i := log.events[x].at.i;
      assert log.events[x].at == Coord(j, i) && IsPayload(c, parents, Coord(j, i), log.events[x].request);
      assert CopiedWith(log, Coord(j, i), Success);
    }
  }

  /** The status of a completion, by the result the responder gave. */
  predicate StatusOf(result: DatagramResult, status: nat) {
    match result
    case Success => status == 0
    case RemoteInvalidRequest => status == 9
    case RemoteAccessError => status == 10
    case RemoteOperationError => status == 11
    case Rnr => status == 13
    case BackendError => status == 21
  }

  /** A completion is due: send WQE k was refused, or completed and failed or asked for a completion. */
  ghost predicate CompletionDue(c: Config, w: World, k: nat) {
    && k < |w.h.fate| && k < |w.r.sendQueue.log|
    && (w.h.fate[k].TakenAs? ==>
          var j := w.h.fate[k].j;
          && j < |w.h.done| && w.h.done[j].Some?
          && (w.h.done[j].value != Success || c.sqSigAll || w.r.sendQueue.log[k].signaled))
  }

  /** Entry e is a completion of send WQE k, field by field. */
  ghost predicate EntryFor(c: Config, w: World, k: nat, e: CompletionEntry) {
    && k < |w.h.fate| && k < |w.r.sendQueue.log|
    && e.wrId == w.r.sendQueue.log[k].wrId && e.qpNum == c.qpNum
    && e.opcode == 1 && e.byteLength == 0 && e.immediate == 0 && e.flags == 0
    && match w.h.fate[k]
       case LocalReject(_) => RefusedWith(c, w.r.sendQueue.log[k], e.status)
       case TakenAs(j) => j < |w.h.done| && w.h.done[j].Some? && StatusOf(w.h.done[j].value, e.status)
  }

  ghost function DueTo(c: Config, w: World, k: nat): Option<CompletionEntry> {
    Due(c, w.r.sendQueue.log, w.h.core.parents, w.h.fate, w.h.done, k)
  }

  /** The send WQEs that have a completion due. */
  ghost function DueSet(c: Config, w: World): set<nat> { set k: nat | k < |w.h.fate| && CompletionDue(c, w, k) }

  /** Entry x of the completion queue is the completion of send WQE k. */
  ghost predicate Completes(c: Config, w: World, x: nat, k: nat) {
    && x < |w.r.sendCq.log| && x < |w.h.sendTags| && w.h.sendTags[x] == k
    && EntryFor(c, w, k, w.r.sendCq.log[x])
  }

  /** What is due to a send WQE is the entry with these fields, and nothing else is. */
  lemma DueIsEntry(c: Config, w: World, k: nat)
    requires Inv(c, w)
    ensures DueTo(c, w, k).Some? <==> CompletionDue(c, w, k)
    ensures forall e :: DueTo(c, w, k) == Some(e) <==> CompletionDue(c, w, k) && EntryFor(c, w, k, e)
  {
    hide Inv, RefusedWith, InvSendCq, Prepare, RejectedLocally, InvDone, InvAnswers, Resolves, SgeTotal;
    SendCqOf(c, w);
    ParentsFromWork(c, w);
  }

  /** The tags of the first n entries that equal e. */
  ghost function TagsOf(log: seq<CompletionEntry>, tags: seq<nat>, e: CompletionEntry, n: nat): set<nat>
    requires n <= |log| == |tags|
  {
    if n == 0 then {} else TagsOf(log, tags, e, n - 1) + if log[n - 1] == e then {tags[n - 1]} else {}
  }

  lemma {:induction false} TagsOfMembers(log: seq<CompletionEntry>, tags: seq<nat>, e: CompletionEntry, n: nat)
    requires n <= |log| == |tags|
    ensures forall k :: k in TagsOf(log, tags, e, n) <==> exists x :: 0 <= x < n && tags[x] == k && log[x] == e
  {
    if n != 0 { TagsOfMembers(log, tags, e, n - 1); }
  }

  lemma OccurrencesStep(log: seq<CompletionEntry>, e: CompletionEntry, n: nat)
    requires 0 < n <= |log|
    ensures multiset(log[..n])[e] == multiset(log[..n - 1])[e] + if log[n - 1] == e then 1 else 0
  {
    assert log[..n] == log[..n - 1] + [log[n - 1]];
  }

  /** With distinct tags, an entry occurs as often as there are tags on it. */
  lemma {:induction false} TagCount(log: seq<CompletionEntry>, tags: seq<nat>, e: CompletionEntry, n: nat)
    requires n <= |log| == |tags| && forall x, y :: 0 <= x < y < |tags| ==> tags[x] != tags[y]
    ensures multiset(log[..n])[e] == |TagsOf(log, tags, e, n)|
  {
    if n != 0 {
      TagCount(log, tags, e, n - 1);
      TagsOfMembers(log, tags, e, n - 1);
      OccurrencesStep(log, e, n);
    }
  }

  /** Entries tagged with what is due, once each: every completion occurs as often as it is due. */
  lemma DueCount(c: Config, w: World, e: CompletionEntry)
    requires Inv(c, w)
    ensures multiset(w.r.sendCq.log)[e] == |set k | k in DueSet(c, w) && EntryFor(c, w, k, e)|
  {
    hide Inv, Due, TagsOf, EntryFor, CompletionDue;
    SendCqOf(c, w);
    var log, tags, due := w.r.sendCq.log, w.h.sendTags, set k | k in DueSet(c, w) && EntryFor(c, w, k, e);
    TagCount(log, tags, e, |log|);
    TagsOfMembers(log, tags, e, |log|);
    forall k | k in due ensures k in TagsOf(log, tags, e, |log|) {
      DueIsEntry(c, w, k);
      var x :| 0 <= x < |tags| && tags[x] == k;
      assert DueTo(c, w, tags[x]) == Some(log[x]);
    }
    forall k | k in TagsOf(log, tags, e, |log|) ensures k in due {
      var x :| 0 <= x < |log| && tags[x] == k && log[x] == e;
      assert DueTo(c, w, tags[x]) == Some(log[x]);
      DueIsEntry(c, w, k);
      DueIsKnown(c, w, k);
    }
    assert due == TagsOf(log, tags, e, |log|);
    assert log[..|log|] == log;
  }

  lemma DueIsKnown(c: Config, w: World, k: nat)
    ensures CompletionDue(c, w, k) ==> k < |w.h.fate|
  {
  }

  lemma QueueMatchesDue(c: Config, w: World)
    requires Inv(c, w)
    ensures |w.h.sendTags| == |w.r.sendCq.log|
    ensures forall x: nat :: x < |w.r.sendCq.log| ==> w.h.sendTags[x] in DueSet(c, w) && Completes(c, w, x, w.h.sendTags[x])
    ensures forall k :: k in DueSet(c, w) ==> exists x: nat :: Completes(c, w, x, k)
    ensures forall x: nat, y: nat, k :: Completes(c, w, x, k) && Completes(c, w, y, k) ==> x == y
  {
    hide Inv, Due, EntryFor, CompletionDue;
    SendCqOf(c, w);
    var tags := w.h.sendTags;
    forall x: nat | x < |tags| ensures tags[x] in DueSet(c, w) && Completes(c, w, x, tags[x]) {
      assert DueTo(c, w, tags[x]) == Some(w.r.sendCq.log[x]);
      DueIsEntry(c, w, tags[x]);
      DueIsKnown(c, w, tags[x]);
    }
    forall k | k in DueSet(c, w) ensures exists x: nat :: Completes(c, w, x, k) {
      DueIsEntry(c, w, k);
      var x :| 0 <= x < |tags| && tags[x] == k;
      assert Completes(c, w, x, k);
    }
  }

  /**
    The completion queue and the WQEs that have a completion due correspond one
    to one: every entry is the completion of one WQE and every WQE with one due
    has exactly one entry.  So the queue holds each completion as often as there
    are WQEs it is due to.
   */
  lemma CompletionsMatchWorkRequests(c: Config, w: World)
    requires Reachable(c, w)
    ensures forall e :: multiset(w.r.sendCq.log)[e] == |set k | k in DueSet(c, w) && EntryFor(c, w, k, e)|
    ensures |w.h.sendTags| == |w.r.sendCq.log|
    ensures forall x: nat :: x < |w.r.sendCq.log| ==> w.h.sendTags[x] in DueSet(c, w) && Completes(c, w, x, w.h.sendTags[x])
    ensures forall k :: k in DueSet(c, w) ==> exists x: nat :: Completes(c, w, x, k)
    ensures forall x: nat, y: nat, k :: Completes(c, w, x, k) && Completes(c, w, y, k) ==> x == y
  {
    hide *;
    ReachableInv(c, w);
    QueueMatchesDue(c, w);
    forall e ensures multiset(w.r.sendCq.log)[e] == |set k | k in DueSet(c, w) && EntryFor(c, w, k, e)| {
      DueCount(c, w, e);
    }
  }

  lemma SendCqOf(c: Config, w: World)
    requires Inv(c, w)
    ensures InvSendCq(c, w.r.sendQueue.log, w.h.core.parents, w.h.fate, w.h.done, w.h.sendTags, w.r.sendCq)
    ensures 0 < c.payloadBytes
    ensures InvFate(c, w.h.core.parents, w.h.wqeOf, w.h.fate, w.r.pendingSend, w.r.sendQueue)
    ensures InvInflight(w.h.core.parents, w.h.done, w.h.taker, w.r.inflight) && InvDone(c, w.h.core, w.h.done)
    ensures InvAnswers(c, w.h.core.parents, w.h.core.answers, w.h.copies)
  {
    hide InvCut, InvWire, InvWindow, InvRecords, InvPipe, InvRequests, InvCopyLog, InvCompleted, InvTerminal, InvWaiting,
      InvCopyBound, InvAnswers, InvResponses, InvUnique, InvReceive, InvReceiveCq, InvSendCq, InvFate, InvInflight, InvDone;
  }

  /**
    The result a work request completes with: remote_invalid_request when the
    peer QP is not the responder's; else remote_access_error when its remote key
    does not resolve; else success exactly when every payload was copied with
    success, and otherwise the result of its lowest-indexed failed payload.
   */
  ghost predicate OutcomeIs(c: Config, w: World, j: nat, s: SendWqe, result: DatagramResult) {
    if c.peerQpNum != c.responderQpNum then result == RemoteInvalidRequest
    else if c.resolveRkey(s.rkey, s.remoteAddress, SgeTotal(s.sges)).None? then result == RemoteAccessError
    else
      && j < |w.h.core.parents|
      && AnswerOk(w.h.core.parents[j].payloadCount, j, result, w.h.copies)
  }

  lemma DoneOutcome(c: Config, w: World, j: nat, s: SendWqe)
    requires InvDone(c, w.h.core, w.h.done) && InvAnswers(c, w.h.core.parents, w.h.core.answers, w.h.copies)
    requires j < |w.h.core.parents| && j < |w.h.done| && w.h.done[j].Some? && MadeFrom(c, s, w.h.core.parents[j])
    ensures OutcomeIs(c, w, j, s, w.h.done[j].value)
  {
    hide AnswerOk, Resolves, SgeTotal, Rank;
    assert Answered(c, w.h.core, j, w.h.done[j].value);
  }

  /** What became of send WQE k: refused for cause, or taken as a parent that is it and whose result is the one due. */
  ghost predicate FateIs(c: Config, w: World, k: nat)
    requires k < |w.h.fate| <= |w.r.sendQueue.log|
  {
    var s := w.r.sendQueue.log[k];
    match w.h.fate[k]
    case LocalReject(status) => RefusedWith(c, s, status)
    case TakenAs(j) =>
      && (forall status :: !RefusedWith(c, s, status))
      && j < |w.h.core.parents| == |w.h.done| == |w.h.wqeOf| && w.h.wqeOf[j] == k && MadeFrom(c, s, w.h.core.parents[j])
      && (w.h.done[j].Some? ==> OutcomeIs(c, w, j, s, w.h.done[j].value))
  }

  lemma FateOf(c: Config, w: World, k: nat)
    requires Inv(c, w)
    ensures |w.h.fate| <= |w.r.sendQueue.log|
    ensures k < |w.h.fate| ==> FateIs(c, w, k)
  {
    hide Inv, InvSendCq, InvDone, InvAnswers, Prepare, RejectedLocally, RefusedWith, MadeFrom, OutcomeIs;
    SendCqOf(c, w);
    ParentsFromWork(c, w);
    if k < |w.h.fate| && w.h.fate[k].TakenAs? {
      var j, s := w.h.fate[k].j, w.r.sendQueue.log[k];
      if w.h.done[j].Some? { DoneOutcome(c, w, j, s); }
      InvConfig(c, w);
      forall status ensures !RefusedWith(c, s, status) { PrepareRefuses(c, s, w.h.core.parents[j].id, status); }
    }
  }

  /** A completion says success exactly when its work request was answered with success. */
  lemma SuccessStatus(c: Config, w: World, k: nat, e: CompletionEntry)
    requires EntryFor(c, w, k, e)
    ensures e.status == 0 <==> w.h.fate[k].TakenAs? && w.h.done[w.h.fate[k].j] == Some(Success)
  {
    hide SgePasses;
    if w.h.fate[k].LocalReject? { assert RefusedWith(c, w.r.sendQueue.log[k], e.status); }
  }

  lemma SuccessStatuses(c: Config, w: World, k: nat)
    ensures forall x: nat :: Completes(c, w, x, k) ==>
              (w.r.sendCq.log[x].status == 0 <==> w.h.fate[k].TakenAs? && w.h.done[w.h.fate[k].j] == Some(Success))
  {
    hide RefusedWith, StatusOf;
    forall x: nat | Completes(c, w, x, k)
      ensures w.r.sendCq.log[x].status == 0 <==> w.h.fate[k].TakenAs? && w.h.done[w.h.fate[k].j] == Some(Success)
    {
      SuccessStatus(c, w, k, w.r.sendCq.log[x]);
    }
  }

  /**
    Work request conservation: a send WQE that was refused, failed, or completed
    and asked for a completion has exactly one entry in the completion queue,
    with its fields and the status due; one still in flight or completed with
    success without asking has none.  Its result is the one due to it, however
    many responses a rejection drew.
   */
  lemma WorkRequestConservation(c: Config, w: World, k: nat)
    requires Reachable(c, w)
    ensures CompletionDue(c, w, k) <==> exists x: nat :: Completes(c, w, x, k)
    ensures forall x: nat, y: nat :: Completes(c, w, x, k) && Completes(c, w, y, k) ==> x == y
    ensures forall x: nat :: Completes(c, w, x, k) ==>
              (w.r.sendCq.log[x].status == 0 <==> w.h.fate[k].TakenAs? && w.h.done[w.h.fate[k].j] == Some(Success))
    ensures |w.h.fate| <= |w.r.sendQueue.log|
    ensures k < |w.h.fate| ==> FateIs(c, w, k)
  {
    hide Inv, Reachable, FateIs, CompletionDue, EntryFor;
    SuccessStatuses(c, w, k);
    ReachableInv(c, w);
    QueueMatchesDue(c, w);
    FateOf(c, w, k);
    DueIsKnown(c, w, k);
    assert CompletionDue(c, w, k) ==> k in DueSet(c, w);
  }

  /** The writes-with-immediate among the first n answered parents that succeeded, in order. */
  ghost function SuccessfulImms(parents: seq<Parent>, acc: seq<nat>, answers: seq<DatagramResult>, n: nat): seq<nat>
    requires n <= |answers| && n <= |acc| && (forall x :: 0 <= x < n ==> acc[x] < |parents|)
  {
    if n == 0 then []
    else
      SuccessfulImms(parents, acc, answers, n - 1)
      + (if answers[n - 1] == Success && IsImm(parents[acc[n - 1]]) then [acc[n - 1]] else [])
  }

  /** Entry e is the receive completion of parent j, by the work request it was made from and its receive WQE. */
  ghost predicate ReceiveEntryFor(c: Config, w: World, j: nat, e: CompletionEntry) {
    && j < |w.h.core.parents| && j < |w.h.wqeOf| && w.h.wqeOf[j] < |w.r.sendQueue.log|
    && ImmRank(c, w.h.core.parents, j) < |w.s.receiveQueue.log|
    && (var s, receive := w.r.sendQueue.log[w.h.wqeOf[j]], w.s.receiveQueue.log[ImmRank(c, w.h.core.parents, j)];
        && s.opcode == 1
        && e.wrId == receive.wrId && e.byteLength == SgeTotal(s.sges) && e.immediate == s.immediate
        && e.qpNum == c.responderQpNum && e.status == 0 && e.opcode == 129 && e.flags == 2)
  }

  /** The receive completions by index: entry n is made for the n-th successful write-with-immediate. */
  lemma {:induction false} EntriesByIndex(c: Config, parents: seq<Parent>, acc: seq<nat>, answers: seq<DatagramResult>,
                                          log: seq<ReceiveWqe>, n: nat)
    requires n <= |answers| && n <= |acc| && (forall x :: 0 <= x < n ==> acc[x] < |parents|)
    ensures var entries, imms := ReceiveEntries(c, parents, acc, answers, log, n), SuccessfulImms(parents, acc, answers, n);
            && |entries| == |imms|
            && forall x :: 0 <= x < |imms| ==>
                 && imms[x] in acc[..n] && IsImm(parents[imms[x]])
                 && entries[x].wrId == ReceiveWrId(log, ImmRank(c, parents, imms[x]))
                 && entries[x].byteLength == parents[imms[x]].totalLength && entries[x].immediate == parents[imms[x]].immediate
                 && entries[x].qpNum == c.responderQpNum && entries[x].status == 0 && entries[x].opcode == 129
                 && entries[x].flags == 2
  {
    if n != 0 {
      EntriesByIndex(c, parents, acc, answers, log, n - 1);
      assert acc[..n] == acc[..n - 1] + [acc[n - 1]];
      hide ImmRank, ReceiveWrId;
    }
  }

  /** The receive WQE of an answered write-with-immediate was posted. */
  lemma AnsweredHasReceive(c: Config, w: World, x: nat)
    requires InvWindow(c, w.h.core, w.h.owner, w.s.order, w.s.inflight)
    requires InvReceive(c, w.h.core, w.s.inflight, w.s.receiveQueue) && x < |w.h.core.answers|
    ensures var k := w.h.core;
            && x < |AcceptedBelow(c, k.parents, k.decided)|
            && (var j := AcceptedBelow(c, k.parents, k.decided)[x];
                IsImm(k.parents[j]) ==> ImmRank(c, k.parents, j) < |w.s.receiveQueue.log|)
  {
    var k := w.h.core;
    hide InWindow, Accepts;
    AnsweredBehind(c, k, w.h.owner, w.s.order, w.s.inflight, x);
    var j := AcceptedBelow(c, k.parents, k.decided)[x];
    ImmRankStep(c, k.parents, j, k.rpos.j);
    assert Accepts(c, k.parents[j]);
  }

  lemma ReceiveEntriesAre(c: Config, w: World)
    requires Inv(c, w)
    ensures var k := w.h.core;
            && k.decided <= |k.parents|
            && (var acc := AcceptedBelow(c, k.parents, k.decided);
                && |k.answers| <= |acc|
                && (var imms := SuccessfulImms(k.parents, acc, k.answers, |k.answers|);
                    && |w.s.receiveCq.log| == |imms|
                    && forall n :: 0 <= n < |imms| ==> ReceiveEntryFor(c, w, imms[n], w.s.receiveCq.log[n])))
  {
    hide InvCut, InvFate, InvWire, InvRecords, InvPipe, InvRequests, InvCopyLog, InvCompleted, InvTerminal, InvWaiting,
      InvCopyBound, InvAnswers, InvResponses, InvInflight, InvDone, InvUnique, InvSendCq, InvReceive, InvWindow, Rank,
      AcceptedBelow, ImmRank, ReceiveEntries, Accepts, SuccessfulImms, Resolves, SgeTotal;
    var k, acc := w.h.core, AcceptedBelow(c, w.h.core.parents, w.h.core.decided);
    var imms, log := SuccessfulImms(k.parents, acc, k.answers, |k.answers|), w.s.receiveQueue.log;
    ParentsFromWork(c, w);
    EntriesByIndex(c, k.parents, acc, k.answers, log, |k.answers|);
    forall n | 0 <= n < |imms| ensures ReceiveEntryFor(c, w, imms[n], w.s.receiveCq.log[n]) {
      var x :| 0 <= x < |k.answers| && acc[x] == imms[n];
      AnsweredHasReceive(c, w, x);
    }
  }

  /**
    Receive pairing: the n-th accepted write-with-immediate holds the n-th
    receive WQE, receive WQEs are released in that order and once, and the n-th
    receive completion is, field by field, that of the n-th write-with-immediate
    answered with success.
   */
  lemma ReceivePairing(c: Config, w: World)
    requires Reachable(c, w)
    ensures var k := w.h.core;
            && k.decided <= |k.parents| && k.rpos.j <= |k.parents|
            && (forall j: nat :: InWindow(c, k, j) && IsImm(k.parents[j]) ==>
                  && k.parents[j].id in w.s.inflight
                  && ImmRank(c, k.parents, j) < |w.s.receiveQueue.log|
                  && w.s.inflight[k.parents[j].id].receiveWrId
                     == w.s.receiveQueue.log[ImmRank(c, k.parents, j)].wrId)
            && ImmRank(c, k.parents, k.rpos.j) <= w.s.receiveQueue.head <= ImmRank(c, k.parents, k.rpos.j) + 1
            && !w.s.receiveCq.reserved
            && (var acc := AcceptedBelow(c, k.parents, k.decided);
                && |k.answers| <= |acc|
                && (var imms := SuccessfulImms(k.parents, acc, k.answers, |k.answers|);
                    && |w.s.receiveCq.log| == |imms|
                    && forall n :: 0 <= n < |imms| ==> ReceiveEntryFor(c, w, imms[n], w.s.receiveCq.log[n])))
  {
    ReachableInv(c, w);
    ReceiveEntriesAre(c, w);
    hide InvCut, InvFate, InvWire, InvRecords, InvPipe, InvRequests, InvCopyLog, InvCompleted, InvTerminal, InvWaiting,
      InvCopyBound, InvAnswers, InvResponses, InvInflight, InvDone, InvUnique, InvSendCq, Reachable, Rank, AcceptedBelow,
      ImmRank, ReceiveEntries, Accepts, SuccessfulImms, ReceiveEntryFor;
  }

  /** Nothing pending, queued or unanswered anywhere. */
  predicate Quiescent(w: World) {
    && w.r.pendingSend.None? && Incoming(w.s, w.t) == [] && w.s.order == [] && Outgoing(w.r, w.t) == []
    && w.r.sendQueue.head == |w.r.sendQueue.log|
  }

  /**
    No request is lost: in a quiescent state every posted send WQE was refused
    locally or completed with the responder's result, and the requester's
    inflight map is empty.
   */
  lemma QuiescentMeansAllDone(c: Config, w: World)
    requires Reachable(c, w) && Quiescent(w)
    ensures
            && |w.h.fate| == |w.r.sendQueue.log| && |w.h.done| == |w.h.core.parents|
            && (forall j :: 0 <= j < |w.h.done| ==> w.h.done[j].Some?)
            && w.r.inflight == map[]
  {
    ReachableInv(c, w);
    hide InvCut, InvRecords, InvPipe, InvRequests, InvCopyLog, InvCompleted, InvTerminal, InvWaiting,
      InvCopyBound, InvAnswers, InvDone, InvUnique, InvSendCq, InvReceive, InvReceiveCq, Reachable, Prepare, RejectedLocally,
      Rank, AcceptedBelow, Accepts, RejectResult;
    var k := w.h.core;
    forall j | 0 <= j < |w.h.done| ensures w.h.done[j].Some? {
      var res := QuiescentAnswer(c, k, w.h.owner, w.s.order, w.s.inflight, j);
      assert w.h.done[j].None? ==> j in w.h.respTags;
    }
  }

  lemma QuiescentAnswer(c: Config, k: Core, owner: map<nat, nat>, order: seq<nat>, inflight: map<nat, ResponderInflight>,
                        j: nat) returns (res: DatagramResult)
    requires InvWindow(c, k, owner, order, inflight) && order == [] && k.rpos == Coord(|k.parents|, 0) && j < |k.parents|
    ensures Answered(c, k, j, res)
  {
    if Accepts(c, k.parents[j]) {
      RankStep(c, k.parents, j, |k.parents|);
      res := k.answers[Rank(c, k.parents, j)];
    } else {
      res := RejectResult(c, k.parents[j]);
    }
  }

  /**
    A parent of length zero (a WQE with no SGE) is always answered with an
    error: key resolution refuses length 0, so the zero-payload branch of the
    responder is never taken.
   */
  lemma ZeroLengthParentRejected(c: Config, w: World, j: nat)
    requires Reachable(c, w)
    requires j < |w.h.core.parents| && w.h.core.parents[j].totalLength == 0
    ensures !Accepts(c, w.h.core.parents[j])
    ensures j < |w.h.done| && w.h.done[j].Some? ==>
              w.h.done[j].value == RejectResult(c, w.h.core.parents[j])
  {
    hide InvCut, InvFate, InvWire, InvWindow, InvRecords, InvPipe, InvRequests, InvCopyLog, InvCompleted, InvTerminal,
      InvWaiting, InvCopyBound, InvAnswers, InvResponses, InvInflight, InvUnique, InvSendCq, InvReceive, InvReceiveCq, Reachable,
      Rank;
    ReachableInv(c, w);
  }
}
