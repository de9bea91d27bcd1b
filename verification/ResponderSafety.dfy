/**
  What the responder does with any traffic whatsoever, not only a requester's
  (src/worker/worker.cpp:245-390): nothing reaches the backend that does not lie
  inside the range its parent's key resolved to.
 */
module ResponderSafety {
  import opened Common
  import opened WorkerTypes
  import opened WorkerSteps

  /** The datagram try_request looks at. */
  function NextRequest(s: Responder, t: Transport): Option<RequestDatagram> {
    if s.pendingRequest.Some? then s.pendingRequest else if t.requests != [] then Some(t.requests[0]) else None
  }

  /** The datagram names the record's parent in every field that the parent fixes. */
  predicate SameParent(q: RequestDatagram, parent: ResponderInflight) {
    && q.sourceQp == parent.sourceQp && q.targetQp == parent.targetQp && q.opcode == parent.opcode
    && q.remoteAddress == parent.remoteAddress && q.rkey == parent.rkey && q.immediate == parent.immediate
    && q.totalLength == parent.totalLength && q.payloadCount == parent.payloadCount
  }

  /** Payload b of datagram q is the next one of its parent and lies inside the parent's target range. */
  predicate NextInside(q: RequestDatagram, b: BackendRequest, parent: ResponderInflight) {
    && b.id == q.id && b.sourceAddress == q.sourceAddress && b.payloadLength == q.payloadLength > 0
    && b.targetAddress == parent.targetAddress + q.payloadOffset
    && b.targetAddress + b.payloadLength <= parent.targetAddress + parent.totalLength
    && b.payloadIndex == q.payloadIndex == parent.nextPayloadIndex - 1 && b.payloadIndex < parent.payloadCount
    && q.payloadOffset == parent.nextPayloadOffset - q.payloadLength
  }

  lemma PayloadIsInside(s: Responder, t: Transport, loaded: bool)
    requires s.pendingRequest.Some? && s.pendingRequest.value.id in s.inflight
    ensures var o, q := AcceptPayload(s, t, loaded), s.pendingRequest.value;
            && (o.s.batch != s.batch ==>
                  && q.id in o.s.inflight && |o.s.batch| == |s.batch| + 1 && o.s.batch[..|s.batch|] == s.batch
                  && SameParent(q, o.s.inflight[q.id]) && NextInside(q, o.s.batch[|s.batch|], o.s.inflight[q.id])
                  && o.s.inflight[q.id].targetAddress == s.inflight[q.id].targetAddress
                  && o.s.inflight[q.id].nextPayloadIndex == s.inflight[q.id].nextPayloadIndex + 1)
  {
  }

  /**
    Whatever arrives, try_request hands the backend at most one payload, and only
    one that is the next of its parent, agrees with the parent in every field,
    and lies inside the range the parent's key resolved to.  A parent is opened
    only by its first datagram, for this QP, with a key that resolves.
   */
  lemma OnlyPayloadsInsideTheTarget(c: Config, s: Responder, t: Transport)
    ensures var o := RequestStep(c, s, t);
            o.s.batch != s.batch ==>
              && NextRequest(s, t).Some?
              && (var q := NextRequest(s, t).value;
                  && q.targetQp == c.responderQpNum && q.totalLength <= 0xFFFF_FFFF
                  && q.id in o.s.inflight && |o.s.batch| == |s.batch| + 1 && o.s.batch[..|s.batch|] == s.batch
                  && SameParent(q, o.s.inflight[q.id]) && NextInside(q, o.s.batch[|s.batch|], o.s.inflight[q.id])
                  && (q.id in s.inflight ==> o.s.inflight[q.id].targetAddress == s.inflight[q.id].targetAddress)
                  && (q.id !in s.inflight ==>
                        && q.payloadIndex == 0 && q.payloadOffset == 0 && o.s.order == s.order + [q.id]
                        && c.resolveRkey(q.rkey, q.remoteAddress, q.totalLength) == Some(o.s.inflight[q.id].targetAddress)))
  {
    hide AcceptPayload, SameParent, NextInside;
    if NextRequest(s, t).Some? {
      var q := NextRequest(s, t).value;
      var loaded := s.pendingRequest.None?;
      var s1 := s.(pendingRequest := Some(q));
      var t1 := if loaded then t.(requests := t.requests[1..]) else t;
      HandledInside(c, s1, t1, loaded);
    }
  }

  lemma HandledInside(c: Config, s: Responder, t: Transport, loaded: bool)
    requires s.pendingRequest.Some?
    ensures var o, q := HandleRequest(c, s, t, loaded), s.pendingRequest.value;
            o.s.batch != s.batch ==>
              && q.targetQp == c.responderQpNum && q.totalLength <= 0xFFFF_FFFF
              && q.id in o.s.inflight && |o.s.batch| == |s.batch| + 1 && o.s.batch[..|s.batch|] == s.batch
              && SameParent(q, o.s.inflight[q.id]) && NextInside(q, o.s.batch[|s.batch|], o.s.inflight[q.id])
              && (q.id in s.inflight ==> o.s.inflight[q.id].targetAddress == s.inflight[q.id].targetAddress)
              && (q.id !in s.inflight ==>
                    && q.payloadIndex == 0 && q.payloadOffset == 0 && o.s.order == s.order + [q.id]
                    && c.resolveRkey(q.rkey, q.remoteAddress, q.totalLength) == Some(o.s.inflight[q.id].targetAddress))
  {
    hide AcceptPayload, SameParent, NextInside;
    var q := s.pendingRequest.value;
    if q.id in s.inflight {
      PayloadIsInside(s, t, loaded);
    } else if ValidFirst(q) && (q.opcode != RdmaWriteWithImmediate || CanPeek(s.receiveQueue)) {
      var target := c.resolveRkey(q.rkey, q.remoteAddress, q.totalLength);
      if target.Some? {
        var imm := q.opcode == RdmaWriteWithImmediate;
        var receive := if imm then Some(s.receiveQueue.log[s.receiveQueue.head]) else None;
        var s1 := s.(inflight := s.inflight[q.id := OpenParent(q, target.value, receive)], order := s.order + [q.id],
                     receiveQueue := if imm then s.receiveQueue.(peeked := true) else s.receiveQueue);
        PayloadIsInside(s1, t, loaded);
        OrderKept(s1, t, loaded);
      }
    }
  }

  lemma OrderKept(s: Responder, t: Transport, loaded: bool)
    requires s.pendingRequest.Some? && s.pendingRequest.value.id in s.inflight
    ensures AcceptPayload(s, t, loaded).s.order == s.order
  {
  }

  /** A well-formed first datagram: a whole parent of length zero, or the first of its payloads. */
  predicate OpensParent(q: RequestDatagram) {
    && q.payloadIndex == 0 && q.payloadOffset == 0
    && if q.totalLength == 0 then q.payloadCount == 0 && q.payloadLength == 0
       else 0 < q.payloadLength <= q.totalLength && 0 < q.payloadCount <= q.totalLength
  }

  /**
    A datagram that opens nothing and belongs to nothing in flight is answered
    with an error and dropped, once the response queue has room: with
    remote_access_error exactly when only its key is at fault.
   */
  lemma StrayDatagramsAreRefused(c: Config, s: Responder, t: Transport)
    requires NextRequest(s, t).Some? && |t.responses| < c.responseCapacity
    requires NextRequest(s, t).value.id !in s.inflight
    ensures var o, q := RequestStep(c, s, t), NextRequest(s, t).value;
            var sound := q.targetQp == c.responderQpNum && q.totalLength <= 0xFFFF_FFFF && OpensParent(q);
            !sound || c.resolveRkey(q.rkey, q.remoteAddress, q.totalLength).None? ==>
              && o.t.responses == t.responses + [ResponseDatagram(q.id, if sound then RemoteAccessError else RemoteInvalidRequest)]
              && o.s == s.(pendingRequest := None)
  {
    hide AcceptPayload, OpenParent;
  }
}
