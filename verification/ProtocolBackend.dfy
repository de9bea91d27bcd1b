/**
  The copy backend and the responder's answers keep the protocol invariant
  (src/worker/worker.cpp:104-208).  The backend accepts any prefix of the batch
  and completes each submitted payload once, in any order, with any result.
 */
module ProtocolBackend {
  import opened Common
  import opened WorkerTypes
  import opened Fragments
  import opened WorkerSteps
  import opened Protocol
  import opened ProtocolOrder
  import ProtocolRequest

  // ----- submitting

  /** try_flush_backend_requests when the backend accepts the first n requests. */
  function FlushWorld(w: World, n: nat): World {
    if n == 0 || |w.s.batch| < n then w
    else w.(s := w.s.(batch := w.s.batch[n..]), b := w.b.(outstanding := w.b.outstanding + w.s.batch[..n]))
  }

  lemma FlushPipe(batch: seq<BackendRequest>, b: Backend, n: nat)
    requires n <= |batch|
    ensures Pipe(batch[n..], b.(outstanding := b.outstanding + batch[..n])) == Pipe(batch, b)
  {
    assert batch == batch[..n] + batch[n..];
    RequestKeysAppend(batch[..n], batch[n..]);
    RequestKeysAppend(b.outstanding, batch[..n]);
  }

  lemma FlushKeepsInv(c: Config, w: World, n: nat)
    requires Inv(c, w)
    ensures Inv(c, FlushWorld(w, n))
  {
    hide InvCut, InvFate, InvWire, InvWindow, InvRecords, InvPipe, InvCopyLog, InvCompleted, InvTerminal,
      InvCopyBound, InvAnswers, InvResponses, InvInflight, InvDone, InvSendCq, InvUnique, InvReceive,
      InvReceiveCq, Pipe, RequestOk;
    if n != 0 && n <= |w.s.batch| {
      FlushPipe(w.s.batch, w.b, n);
      assert Incoming(FlushWorld(w, n).s, w.t) == Incoming(w.s, w.t);
    }
  }

  // ----- completing

  /** The backend finishes outstanding request x with the given result. */
  function FinishWorld(w: World, x: nat, result: DatagramResult, scribble: seq<int>): World
    requires x < |w.b.outstanding| && w.b.outstanding[x].id in w.h.owner
  {
    var q, log := w.b.outstanding[x], w.h.copies;
    var at := Coord(w.h.owner[q.id], q.payloadIndex);
    w.(b := Backend(w.b.outstanding[..x] + w.b.outstanding[x + 1..],
                    w.b.completions + [BackendCompletion(q.id, q.payloadIndex, result)]),
       h := w.h.(copies := CopyLog(log.events + [CopyEvent(at, q, result, scribble)], log.at[at := |log.events|])))
  }

  lemma FinishPipe(batch: seq<BackendRequest>, b: Backend, x: nat, k: BackendCompletion)
    requires x < |b.outstanding| && k.id == b.outstanding[x].id && k.payloadIndex == b.outstanding[x].payloadIndex
    ensures Pipe(batch, Backend(b.outstanding[..x] + b.outstanding[x + 1..], b.completions + [k])) == Pipe(batch, b)
  {
    var o, key := b.outstanding, (k.id, k.payloadIndex);
    assert o == o[..x] + [o[x]] + o[x + 1..];
    RequestKeysAppend(o[..x] + [o[x]], o[x + 1..]);
    RequestKeysAppend(o[..x], [o[x]]);
    RequestKeysAppend(o[..x], o[x + 1..]);
    CompletionKeysAppend(b.completions, [k]);
    assert RequestKeys([o[x]]) == [key] && CompletionKeys([k]) == [key];
  }

  /** No other waiting request is for the same payload. */
  lemma FinishAlone(inflight: map<nat, ResponderInflight>, batch: seq<BackendRequest>, b: Backend, x: nat)
    requires x < |b.outstanding| && InvPipe(inflight, Pipe(batch, b))
    ensures var q, rest := b.outstanding[x], b.outstanding[..x] + b.outstanding[x + 1..];
            && (forall y :: 0 <= y < |batch| ==> !(batch[y].id == q.id && batch[y].payloadIndex == q.payloadIndex))
            && (forall y :: 0 <= y < |rest| ==> !(rest[y].id == q.id && rest[y].payloadIndex == q.payloadIndex))
  {
    var o, q, rest := b.outstanding, b.outstanding[x], b.outstanding[..x] + b.outstanding[x + 1..];
    var key := (q.id, q.payloadIndex);
    FinishPipe(batch, b, x, BackendCompletion(q.id, q.payloadIndex, Success));
    CompletionKeysAppend(b.completions, [BackendCompletion(q.id, q.payloadIndex, Success)]);
    assert CompletionKeys([BackendCompletion(q.id, q.payloadIndex, Success)]) == [key];
    assert Pipe(batch, b)[key] <= 1;
    assert multiset(RequestKeys(batch))[key] + multiset(RequestKeys(rest))[key]
           + multiset(CompletionKeys(b.completions))[key] + 1 == Pipe(batch, b)[key];
    forall y | 0 <= y < |batch| ensures !(batch[y].id == q.id && batch[y].payloadIndex == q.payloadIndex) {
      RequestInPipe(batch, y);
    }
    forall y | 0 <= y < |rest| ensures !(rest[y].id == q.id && rest[y].payloadIndex == q.payloadIndex) {
      RequestInPipe(rest, y);
    }
  }

  lemma FinishWaiting(c: Config, parents: seq<Parent>, owner: map<nat, nat>, copies: CopyLog, copies': CopyLog,
                      list: seq<BackendRequest>, q: BackendRequest)
    requires 0 < c.payloadBytes && RequestOk(c, parents, owner, q)
    requires InvRequests(c, parents, owner, list) && InvWaiting(owner, copies, list)
    requires copies'.at.Keys == copies.at.Keys + {Coord(owner[q.id], q.payloadIndex)}
    requires forall y :: 0 <= y < |list| ==> !(list[y].id == q.id && list[y].payloadIndex == q.payloadIndex)
    ensures InvWaiting(owner, copies', list)
  {
    hide Pieces, Accepts;
    forall y | 0 <= y < |list| && list[y].id in owner
      ensures Coord(owner[list[y].id], list[y].payloadIndex) !in copies'.at
    {
      assert RequestOk(c, parents, owner, list[y]);
    }
  }

  lemma FinishLog(c: Config, parents: seq<Parent>, copies: CopyLog, e: CopyEvent)
    requires 0 < c.payloadBytes && InvCopyLog(c, parents, copies)
    requires e.at !in copies.at && IsPayload(c, parents, e.at, e.request)
    ensures var copies' := CopyLog(copies.events + [e], copies.at[e.at := |copies.events|]);
            && InvCopyLog(c, parents, copies')
            && CopiedWith(copies', e.at, e.result)
            && (forall k, res :: CopiedWith(copies, k, res) ==> CopiedWith(copies', k, res))
            && (forall k, res :: k in copies.at && CopiedWith(copies', k, res) ==> CopiedWith(copies, k, res))
  {
    hide IsPayload;
  }

  lemma FinishAnswers(c: Config, parents: seq<Parent>, answers: seq<DatagramResult>, copies: CopyLog, copies': CopyLog)
    requires InvAnswers(c, parents, answers, copies) && copies.at.Keys <= copies'.at.Keys
    requires forall k, res :: CopiedWith(copies, k, res) ==> CopiedWith(copies', k, res)
    requires forall k, res :: k in copies.at && CopiedWith(copies', k, res) ==> CopiedWith(copies, k, res)
    ensures InvAnswers(c, parents, answers, copies')
  {
    hide CopiedWith, Rank, Accepts;
    forall j | 0 <= j < |parents| && Accepts(c, parents[j]) && Rank(c, parents, j) < |answers|
      ensures AnswerOk(parents[j].payloadCount, j, answers[Rank(c, parents, j)], copies')
    {
      var answer := answers[Rank(c, parents, j)];
      assert AnswerOk(parents[j].payloadCount, j, answer, copies);
      if answer != Success {
        var i: nat :| i < parents[j].payloadCount && FailedFirst(copies, j, i, answer);
        assert FailedFirst(copies', j, i, answer);
      }
    }
  }

  /** A payload in the pipe was consumed by the responder: its position is behind rpos. */
  lemma AwaitedBound(c: Config, k: Core, owner: map<nat, nat>, order: seq<nat>, inflight: map<nat, ResponderInflight>,
                     id: nat, i: nat)
    requires 0 < c.payloadBytes && InvWindow(c, k, owner, order, inflight) && InvRecords(c, k, inflight)
    requires Awaited(inflight, (id, i))
    ensures id in owner && InWindow(c, k, owner[id]) && k.parents[owner[id]].id == id && id in inflight
    ensures RecordOk(c, k.parents[owner[id]], inflight[id], Progress(k, owner[id]))
    ensures i < Progress(k, owner[id])
  {
    hide Rank, AcceptedBelow, Accepts, Offset, Pieces, CountTrue;
  }

  lemma FinishBound(k: Core, copies: CopyLog, copies': CopyLog, at: Coord)
    requires InvCopyBound(k, copies) && copies'.at.Keys == copies.at.Keys + {at}
    requires at.j < |k.parents| && at.j < k.decided && at.i < Progress(k, at.j)
    ensures InvCopyBound(k, copies')
  {
    forall x | x in copies'.at ensures x.j < |k.parents| && x.j < k.decided && x.i < Progress(k, x.j) {
      assert x in copies'.at.Keys;
    }
  }

  lemma FinishCompleted(owner: map<nat, nat>, copies: CopyLog, copies': CopyLog, completions: seq<BackendCompletion>,
                        inflight: map<nat, ResponderInflight>, k: BackendCompletion)
    requires InvCompleted(owner, copies, completions) && InvTerminal(owner, copies, inflight)
    requires forall x, res :: CopiedWith(copies, x, res) ==> CopiedWith(copies', x, res)
    requires k.id in owner && CopiedWith(copies', Coord(owner[k.id], k.payloadIndex), k.result)
    ensures InvCompleted(owner, copies', completions + [k]) && InvTerminal(owner, copies', inflight)
  {
    hide CopiedWith;
  }

  lemma RemoveRequests(c: Config, parents: seq<Parent>, owner: map<nat, nat>, copies: CopyLog, list: seq<BackendRequest>, x: nat)
    requires 0 < c.payloadBytes && x < |list|
    requires InvRequests(c, parents, owner, list) && InvWaiting(owner, copies, list)
    ensures RequestOk(c, parents, owner, list[x])
    ensures list[x].id in owner && Coord(owner[list[x].id], list[x].payloadIndex) !in copies.at
    ensures var rest := list[..x] + list[x + 1..];
            InvRequests(c, parents, owner, rest) && InvWaiting(owner, copies, rest)
  {
    hide IsPayload;
    assert RequestOk(c, parents, owner, list[x]);
  }

  lemma FinishKeepsInv(c: Config, w: World, x: nat, result: DatagramResult, scribble: seq<int>)
    requires Inv(c, w) && x < |w.b.outstanding|
    ensures w.b.outstanding[x].id in w.h.owner
    ensures Inv(c, FinishWorld(w, x, result, scribble))
  {
    hide InvCut, InvFate, InvWire, InvWindow, InvRecords, InvPipe, InvRequests, InvCopyLog, InvCompleted, InvTerminal,
      InvWaiting, InvCopyBound, InvAnswers, InvResponses, InvInflight, InvDone, InvSendCq, InvUnique, InvReceive,
      InvReceiveCq, Pipe, RecordOk, Accepts, Rank, IsPayload, CopiedWith;
    var h, k, q := w.h, w.h.core, w.b.outstanding[x];
    RemoveRequests(c, k.parents, h.owner, h.copies, w.b.outstanding, x);
    var w' := FinishWorld(w, x, result, scribble);
    var at, copies' := Coord(h.owner[q.id], q.payloadIndex), w'.h.copies;
    var done := BackendCompletion(q.id, q.payloadIndex, result);
    FinishPipe(w.s.batch, w.b, x, done);
    FinishAlone(w.s.inflight, w.s.batch, w.b, x);
    PipeMembers(w.s.inflight, w.s.batch, w.b);
    AwaitedBound(c, k, h.owner, w.s.order, w.s.inflight, q.id, q.payloadIndex);
    FinishLog(c, k.parents, h.copies, CopyEvent(at, q, result, scribble));
    assert copies'.at.Keys == h.copies.at.Keys + {at};
    FinishWaiting(c, k.parents, h.owner, h.copies, copies', w.s.batch, q);
    FinishWaiting(c, k.parents, h.owner, h.copies, copies', w'.b.outstanding, q);
    FinishAnswers(c, k.parents, k.answers, h.copies, copies');
    FinishBound(k, h.copies, copies', at);
    FinishCompleted(h.owner, h.copies, copies', w.b.completions, w.s.inflight, done);
  }

  // ----- popping completions

  function PopWorld(w: World): World
    requires w.b.completions != []
  {
    w.(s := w.s.(inflight := ApplyCompletion(w.s.inflight, w.b.completions[0])),
       b := w.b.(completions := w.b.completions[1..]))
  }

  /** try_backend_completions when the backend hands over n completions. */
  function CompletionsWorld(w: World, n: nat): World {
    if |w.b.completions| < n || BACKEND_BATCH_CAPACITY < n then w
    else
      w.(s := w.s.(inflight := ApplyCompletions(w.s.inflight, w.b.completions[..n])),
         b := w.b.(completions := w.b.completions[n..]))
  }

  lemma PopPipe(inflight: map<nat, ResponderInflight>, batch: seq<BackendRequest>, b: Backend, rec: ResponderInflight)
    requires b.completions != [] && InvPipe(inflight, Pipe(batch, b))
    requires var k := b.completions[0];
             && Awaited(inflight, (k.id, k.payloadIndex))
             && rec.terminal == inflight[k.id].terminal[k.payloadIndex := true]
             && rec.nextPayloadIndex == inflight[k.id].nextPayloadIndex
    ensures InvPipe(inflight[b.completions[0].id := rec], Pipe(batch, b.(completions := b.completions[1..])))
  {
    var k := b.completions[0];
    var key, inflight' := (k.id, k.payloadIndex), inflight[k.id := rec];
    assert b.completions == [k] + b.completions[1..];
    CompletionKeysAppend([k], b.completions[1..]);
    assert CompletionKeys([k]) == [key];
    assert Pipe(batch, b) == Pipe(batch, b.(completions := b.completions[1..])) + multiset{key};
    forall x: (nat, nat) ensures Awaited(inflight', x) <==> Awaited(inflight, x) && x != key { }
  }

  lemma PopRecord(c: Config, p: Parent, rec: ResponderInflight, next: nat, i: nat, result: DatagramResult)
    requires 0 < c.payloadBytes && RecordOk(c, p, rec, next) && i < next && i < |rec.terminal| && !rec.terminal[i]
    ensures RecordOk(c, p, rec.(terminal := rec.terminal[i := true], results := rec.results[i := result],
                                terminalCount := rec.terminalCount + 1), next)
  {
    hide Accepts, Offset, Pieces;
    CountTrueSet(rec.terminal, i);
    hide CountTrue;
  }

  lemma PopWindow(c: Config, k: Core, owner: map<nat, nat>, order: seq<nat>, inflight: map<nat, ResponderInflight>,
                  id: nat, rec: ResponderInflight)
    requires 0 < c.payloadBytes && InvWindow(c, k, owner, order, inflight) && InvRecords(c, k, inflight) && id in inflight
    requires RecordOk(c, k.parents[owner[id]], rec, Progress(k, owner[id]))
    ensures InvWindow(c, k, owner, order, inflight[id := rec]) && InvRecords(c, k, inflight[id := rec])
  {
    hide RecordOk, Rank, AcceptedBelow, Accepts, Progress;
  }

  lemma PopTerminal(owner: map<nat, nat>, copies: CopyLog, inflight: map<nat, ResponderInflight>,
                    completions: seq<BackendCompletion>, rec: ResponderInflight)
    requires completions != [] && InvCompleted(owner, copies, completions) && InvTerminal(owner, copies, inflight)
    requires var k := completions[0];
             && Awaited(inflight, (k.id, k.payloadIndex)) && k.payloadIndex < |inflight[k.id].results|
             && rec.terminal == inflight[k.id].terminal[k.payloadIndex := true]
             && rec.results == inflight[k.id].results[k.payloadIndex := k.result]
    ensures InvTerminal(owner, copies, inflight[completions[0].id := rec])
    ensures InvCompleted(owner, copies, completions[1..])
  {
    hide CopiedWith;
    assert completions[0].id in owner;
  }

  lemma PopReceive(c: Config, k: Core, inflight: map<nat, ResponderInflight>, queue: WorkQueue<ReceiveWqe>, id: nat,
                   rec: ResponderInflight)
    requires InvReceive(c, k, inflight, queue) && id in inflight && rec.receiveWrId == inflight[id].receiveWrId
    ensures InvReceive(c, k, inflight[id := rec], queue)
  {
    hide ImmRank, InWindow, Accepts;
  }

  lemma PopKeepsInv(c: Config, w: World)
    requires Inv(c, w) && w.b.completions != []
    ensures Inv(c, PopWorld(w))
  {
    hide InvCut, InvFate, InvWire, InvWindow, InvRecords, InvPipe, InvRequests, InvCopyLog, InvCompleted, InvTerminal,
      InvWaiting, InvCopyBound, InvAnswers, InvResponses, InvInflight, InvDone, InvSendCq, InvUnique, InvReceive,
      InvReceiveCq, Pipe, Accepts, Rank, Offset, Pieces, CountTrue;
    var h, k, f := w.h, w.h.core, w.b.completions[0];
    PipeMembers(w.s.inflight, w.s.batch, w.b);
    AwaitedBound(c, k, h.owner, w.s.order, w.s.inflight, f.id, f.payloadIndex);
    var rec := w.s.inflight[f.id];
    var rec' := rec.(terminal := rec.terminal[f.payloadIndex := true], results := rec.results[f.payloadIndex := f.result],
                     terminalCount := rec.terminalCount + 1);
    assert ApplyCompletion(w.s.inflight, f) == w.s.inflight[f.id := rec'];
    PopRecord(c, k.parents[h.owner[f.id]], rec, Progress(k, h.owner[f.id]), f.payloadIndex, f.result);
    PopWindow(c, k, h.owner, w.s.order, w.s.inflight, f.id, rec');
    PopPipe(w.s.inflight, w.s.batch, w.b, rec');
    PopTerminal(h.owner, h.copies, w.s.inflight, w.b.completions, rec');
    PopReceive(c, k, w.s.inflight, w.s.receiveQueue, f.id, rec');
    assert Incoming(PopWorld(w).s, w.t) == Incoming(w.s, w.t);
  }

  lemma {:induction false} CompletionsKeepInv(c: Config, w: World, n: nat)
    requires Inv(c, w)
    ensures Inv(c, CompletionsWorld(w, n))
  {
    hide Inv;
    if n == 0 {
      assert w.b.completions[..0] == [] && w.b.completions[0..] == w.b.completions;
    } else if n <= |w.b.completions| && n <= BACKEND_BATCH_CAPACITY {
      CompletionsKeepInv(c, w, n - 1);
      var v := CompletionsWorld(w, n - 1);
      assert v.b.completions[0] == w.b.completions[n - 1];
      assert v.b.completions[1..] == w.b.completions[n..];
      assert w.b.completions[..n][..n - 1] == w.b.completions[..n - 1];
      assert PopWorld(v) == CompletionsWorld(w, n);
      PopKeepsInv(c, v);
    }
  }

  // ----- answering

  /** One call of try_parent_response. */
  function AnswerWorld(c: Config, w: World): World {
    var o := ParentResponseStep(c, w.s, w.t);
    var k := w.h.core;
    if |o.t.responses| == |w.t.responses| || |k.parents| < k.decided
       || |AcceptedBelow(c, k.parents, k.decided)| <= |k.answers| then w.(s := o.s, t := o.t)
    else
      w.(s := o.s, t := o.t,
         h := w.h.(core := k.(answers := k.answers + [o.t.responses[|o.t.responses| - 1].result]),
                   respTags := w.h.respTags + [AcceptedBelow(c, k.parents, k.decided)[|k.answers|]]))
  }

  lemma AnswerWorldIsParentResponseStep(c: Config, w: World)
    ensures var o, w' := ParentResponseStep(c, w.s, w.t), AnswerWorld(c, w);
            w'.s == o.s && w'.t == o.t && w'.r == w.r && w'.b == w.b
  {
  }

  /** The parent at the head of the acceptance order. */
  lemma OrderHead(c: Config, k: Core, owner: map<nat, nat>, order: seq<nat>, inflight: map<nat, ResponderInflight>)
    requires 0 < c.payloadBytes && order != [] && InvWindow(c, k, owner, order, inflight) && InvRecords(c, k, inflight)
    ensures k.decided <= |k.parents| && |k.answers| < |AcceptedBelow(c, k.parents, k.decided)|
    ensures var j := AcceptedBelow(c, k.parents, k.decided)[|k.answers|];
            && j < k.decided && order[0] == k.parents[j].id && order[0] in inflight
            && InWindow(c, k, j) && Rank(c, k.parents, j) == |k.answers|
            && order[0] in owner && owner[order[0]] == j
            && RecordOk(c, k.parents[j], inflight[order[0]], Progress(k, j))
  {
    RankOfAccepted(c, k.parents, k.decided, |k.answers|);
    hide RecordOk;
  }

  /** Only accepted parent j gets its answer. */
  lemma AnswerFacts(c: Config, k: Core, j: nat, res: DatagramResult)
    requires j < |k.parents| && Accepts(c, k.parents[j]) && Rank(c, k.parents, j) == |k.answers|
    ensures var k' := k.(answers := k.answers + [res]);
            && (forall i: nat :: InWindow(c, k', i) <==> InWindow(c, k, i) && i != j)
            && (forall i: nat, r :: i < |k.parents| ==>
                  (Answered(c, k', i, r) <==> Answered(c, k, i, r) || (i == j && r == res)))
  {
    forall i: nat | i < |k.parents| && Accepts(c, k.parents[i]) && i != j
      ensures Rank(c, k.parents, i) != Rank(c, k.parents, j)
    {
      if i < j { RankStep(c, k.parents, i, j); } else { RankStep(c, k.parents, j, i); }
    }
    hide Rank, Accepts;
  }

  /** The responder's position is inside a parent, or past all of them. */
  lemma PositionValid(c: Config, k: Core, wire: seq<Coord>, pending: Option<PendingSend>, queue: WorkQueue<SendWqe>,
                      incoming: seq<RequestDatagram>)
    requires 0 < c.payloadBytes && InvCut(c, k.parents, pending, queue)
    requires InvWire(c, k.parents, k.rpos, wire, SenderPos(k.parents, pending), incoming)
    ensures k.rpos.j < |k.parents| ==> ValidCoord(k.parents, k.rpos)
  {
    if wire == [] && pending.Some? { ParentFacts(c, pending.value.parent); }
  }

  lemma AnswerWindow(c: Config, k: Core, owner: map<nat, nat>, order: seq<nat>, inflight: map<nat, ResponderInflight>,
                     j: nat, res: DatagramResult)
    requires 0 < c.payloadBytes && order != [] && InvWindow(c, k, owner, order, inflight) && InvRecords(c, k, inflight)
    requires j == AcceptedBelow(c, k.parents, k.decided)[|k.answers|] && InWindow(c, k, j)
    requires Rank(c, k.parents, j) == |k.answers| && order[0] == k.parents[j].id
    requires k.rpos.j < |k.parents| ==> ValidCoord(k.parents, k.rpos)
    requires Progress(k, j) == FragmentCount(k.parents[j])
    requires forall i: nat :: InWindow(c, k.(answers := k.answers + [res]), i) <==> InWindow(c, k, i) && i != j
    ensures InvWindow(c, k.(answers := k.answers + [res]), owner, order[1..], inflight - {order[0]})
    ensures InvRecords(c, k.(answers := k.answers + [res]), inflight - {order[0]})
  {
    hide RecordOk, Rank, AcceptedBelow, Accepts;
    assert j != k.rpos.j;
    if k.decided == k.rpos.j + 1 { RankStep(c, k.parents, j, k.rpos.j); }
    var k' := k.(answers := k.answers + [res]);
    forall i: nat | InWindow(c, k', i) ensures k.parents[i].id != order[0] && Progress(k', i) == Progress(k, i) { }
  }

  lemma AnswerPipe(inflight: map<nat, ResponderInflight>, pipe: multiset<(nat, nat)>, id: nat)
    requires id in inflight && InvPipe(inflight, pipe)
    requires forall i :: 0 <= i < |inflight[id].terminal| ==> inflight[id].terminal[i]
    ensures InvPipe(inflight - {id}, pipe)
  {
    forall k: (nat, nat) ensures Awaited(inflight - {id}, k) <==> Awaited(inflight, k) { }
  }

  /** All payloads terminal: the result is success exactly when every copy succeeded. */
  lemma AnswerCopies(c: Config, k: Core, owner: map<nat, nat>, copies: CopyLog, inflight: map<nat, ResponderInflight>,
                     j: nat, id: nat)
    requires 0 < c.payloadBytes && id in inflight && id in owner && owner[id] == j && j < |k.parents|
    requires InvTerminal(owner, copies, inflight) && InvAnswers(c, k.parents, k.answers, copies)
    requires Accepts(c, k.parents[j]) && Rank(c, k.parents, j) == |k.answers|
    requires |inflight[id].terminal| == |inflight[id].results| == k.parents[j].payloadCount
    requires inflight[id].parentError == Success
    requires forall i :: 0 <= i < |inflight[id].terminal| ==> inflight[id].terminal[i]
    requires forall i: nat :: i < |k.parents| && Accepts(c, k.parents[i]) && i != j ==> Rank(c, k.parents, i) != |k.answers|
    ensures InvAnswers(c, k.parents, k.answers + [ParentResult(inflight[id])], copies)
  {
    var rec, n := inflight[id], k.parents[j].payloadCount;
    FirstErrorAll(rec.results);
    hide Rank, Accepts, FirstError;
    forall i: nat | i < n ensures CopiedWith(copies, Coord(j, i), rec.results[i]) {
      assert rec.terminal[i];
    }
    if ParentResult(rec) != Success {
      var i: nat :| i < |rec.results| && rec.results[i] == ParentResult(rec) && forall h :: 0 <= h < i ==> rec.results[h] == Success;
      assert FailedFirst(copies, j, i, ParentResult(rec));
    }
    assert AnswerOk(n, j, ParentResult(rec), copies);
    hide AnswerOk;
  }

  lemma AnswerTerminal(owner: map<nat, nat>, copies: CopyLog, inflight: map<nat, ResponderInflight>, id: nat)
    requires InvTerminal(owner, copies, inflight)
    ensures InvTerminal(owner, copies, inflight - {id})
  {
    hide CopiedWith;
  }

  lemma AnswerResponses(c: Config, k: Core, done: seq<Option<DatagramResult>>, respTags: seq<nat>,
                        outgoing: seq<ResponseDatagram>, j: nat, res: DatagramResult)
    requires j < |k.parents| && Accepts(c, k.parents[j]) && Rank(c, k.parents, j) == |k.answers|
    requires InvResponses(c, k, done, respTags, outgoing) && InvDone(c, k, done)
    ensures var k' := k.(answers := k.answers + [res]);
            && InvResponses(c, k', done, respTags + [j], outgoing + [ResponseDatagram(k.parents[j].id, res)])
            && InvDone(c, k', done)
  {
    AnswerFacts(c, k, j, res);
    hide Answered, Rank, Accepts, InWindow;
    var k', tags' := k.(answers := k.answers + [res]), respTags + [j];
    var out' := outgoing + [ResponseDatagram(k.parents[j].id, res)];
    forall x | 0 <= x < |out'| ensures ResponseOk(c, k', done, tags', x, out'[x]) {
      if x < |outgoing| {
        assert ResponseOk(c, k, done, respTags, x, outgoing[x]);
        assert tags'[..x] == respTags[..x];
      }
    }
    assert tags'[|respTags|] == j;
    forall i | i in respTags ensures i in tags' {
      var x :| 0 <= x < |respTags| && respTags[x] == i;
      assert tags'[x] == i;
    }
  }

  lemma AnswerUnique(c: Config, k: Core, done: seq<Option<DatagramResult>>, respTags: seq<nat>, j: nat, res: DatagramResult)
    requires InvUnique(c, k, done, respTags) && InWindow(c, k, j)
    requires forall i: nat :: InWindow(c, k.(answers := k.answers + [res]), i) <==> InWindow(c, k, i) && i != j
    ensures InvUnique(c, k.(answers := k.answers + [res]), done, respTags + [j])
  {
    hide InWindow;
    forall i | Live(c, k.(answers := k.answers + [res]), done, respTags + [j], i) ensures Live(c, k, done, respTags, i) { }
  }

  lemma AnswerReceive(c: Config, k: Core, inflight: map<nat, ResponderInflight>, queue: WorkQueue<ReceiveWqe>, j: nat,
                      res: DatagramResult, id: nat)
    requires InvReceive(c, k, inflight, queue)
    requires forall i: nat :: InWindow(c, k.(answers := k.answers + [res]), i) <==> InWindow(c, k, i) && i != j
    ensures InvReceive(c, k.(answers := k.answers + [res]), inflight - {id}, queue)
  {
    hide InWindow, ImmRank, Accepts;
  }

  /** The receive completion is published exactly when a successful answer is. */
  lemma AnswerReceiveCq(c: Config, k: Core, log: seq<ReceiveWqe>, cq: CompletionQueue, res: DatagramResult,
                        rec: ResponderInflight)
    requires InvReceiveCq(c, k.parents, k.decided, k.answers, log, cq)
    requires k.decided <= |k.parents| && |k.answers| < |AcceptedBelow(c, k.parents, k.decided)|
    requires var j := AcceptedBelow(c, k.parents, k.decided)[|k.answers|]; var p := k.parents[j];
             && rec.hasReceive == IsImm(p) && rec.byteLength == p.totalLength && rec.immediate == p.immediate
             && (IsImm(p) ==> ImmRank(c, k.parents, j) < |log| && rec.receiveWrId == log[ImmRank(c, k.parents, j)].wrId)
    ensures InvReceiveCq(c, k.parents, k.decided, k.answers + [res], log,
                         if res == Success && rec.hasReceive
                         then Produced(cq, ReceiveCompletion(rec.receiveWrId, c.responderQpNum, rec.byteLength, rec.immediate))
                         else cq)
  {
    var acc, n := AcceptedBelow(c, k.parents, k.decided), |k.answers|;
    ProtocolRequest.EntriesPrefix(c, k.parents, acc, acc, k.answers, k.answers + [res], log, n);
    hide AcceptedBelow;
  }

  lemma ReceiveIdAt(c: Config, k: Core, inflight: map<nat, ResponderInflight>, queue: WorkQueue<ReceiveWqe>, j: nat)
    requires InvReceive(c, k, inflight, queue) && InWindow(c, k, j) && k.parents[j].id in inflight && IsImm(k.parents[j])
    ensures ImmRank(c, k.parents, j) < |queue.log|
    ensures inflight[k.parents[j].id].receiveWrId == queue.log[ImmRank(c, k.parents, j)].wrId
  {
  }

  lemma AnswerKeepsInv(c: Config, w: World)
    requires Inv(c, w)
    ensures Inv(c, AnswerWorld(c, w))
  {
    hide InvCut, InvFate, InvWire, InvWindow, InvRecords, InvPipe, InvRequests, InvCopyLog, InvCompleted, InvTerminal,
      InvWaiting, InvCopyBound, InvAnswers, InvResponses, InvInflight, InvDone, InvSendCq, InvUnique, InvReceive,
      InvReceiveCq, Pipe, Accepts, Rank, Offset, Pieces, CountTrue, AcceptedBelow, FirstError, ImmRank, WellFormed;
    var w', h, k := AnswerWorld(c, w), w.h, w.h.core;
    if w.s.order != [] {
      OrderHead(c, k, h.owner, w.s.order, w.s.inflight);
      var id, j := w.s.order[0], AcceptedBelow(c, k.parents, k.decided)[|k.answers|];
      var rec := w.s.inflight[id];
      if |w'.t.responses| != |w.t.responses| {
        var res := ParentResult(rec);
        CountTrueAll(rec.terminal);
        AcceptedNonzero(c, k.parents, w.r.pendingSend, w.r.sendQueue, j);
        AnswerFacts(c, k, j, res);
        RankInjective(c, k.parents, j);
        PositionValid(c, k, h.wire, w.r.pendingSend, w.r.sendQueue, Incoming(w.s, w.t));
        AnswerWindow(c, k, h.owner, w.s.order, w.s.inflight, j, res);
        AnswerPipe(w.s.inflight, Pipe(w.s.batch, w.b), id);
        AnswerCopies(c, k, h.owner, h.copies, w.s.inflight, j, id);
        AnswerTerminal(h.owner, h.copies, w.s.inflight, id);
        AnswerResponses(c, k, h.done, h.respTags, Outgoing(w.r, w.t), j, res);
        AnswerUnique(c, k, h.done, h.respTags, j, res);
        AnswerReceive(c, k, w.s.inflight, w.s.receiveQueue, j, res, id);
        if IsImm(k.parents[j]) { ReceiveIdAt(c, k, w.s.inflight, w.s.receiveQueue, j); }
        AnswerReceiveCq(c, k, w.s.receiveQueue.log, w.s.receiveCq, res, rec);
        AnswerBound(k, h.copies, res);
        assert Outgoing(w'.r, w'.t) == Outgoing(w.r, w.t) + [ResponseDatagram(id, res)];
        assert Incoming(w'.s, w'.t) == Incoming(w.s, w.t);
      } else {
        assert w' == w;
      }
    }
  }

  lemma AcceptedNonzero(c: Config, parents: seq<Parent>, pending: Option<PendingSend>, queue: WorkQueue<SendWqe>, j: nat)
    requires ValidConfig(c) && InvCut(c, parents, pending, queue) && j < |parents| && Accepts(c, parents[j])
    ensures FragmentCount(parents[j]) == parents[j].payloadCount
  {
    ParentFacts(c, parents[j]);
  }

  lemma RankInjective(c: Config, parents: seq<Parent>, j: nat)
    requires j < |parents| && Accepts(c, parents[j])
    ensures forall i: nat :: i < |parents| && Accepts(c, parents[i]) && i != j ==>
              Rank(c, parents, i) != Rank(c, parents, j)
  {
    forall i: nat | i < |parents| && Accepts(c, parents[i]) && i != j
      ensures Rank(c, parents, i) != Rank(c, parents, j)
    {
      if i < j { RankStep(c, parents, i, j); } else { RankStep(c, parents, j, i); }
    }
  }

  lemma AnswerBound(k: Core, copies: CopyLog, res: DatagramResult)
    requires InvCopyBound(k, copies)
    ensures InvCopyBound(k.(answers := k.answers + [res]), copies)
  {
  }
}
