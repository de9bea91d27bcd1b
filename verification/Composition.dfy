/**
  How the layers meet: the queues the worker steps use are the rings' FIFOs, and
  the key resolution a data-plane run holds fixed is the control plane's.
 */
module Composition {
  import opened Common
  import opened WorkerTypes
  import WorkerSteps
  import opened RingSteps
  import opened RingFifo
  import Descriptors
  import WrPosting
  import ControlPlane
  import ControlInv
  import ControlTheorems

  // ----- rings

  /** A ring's FIFO as the worker's consumer end; the worker peeks one entry at a time. */
  function AsWorkQueue<T>(f: Fifo<T>): WorkQueue<T> { WorkQueue(f.published, f.consumed, f.peeked != 0) }

  /** A ring's FIFO as the worker's producer end. */
  function AsCompletionQueue(f: Fifo<CompletionEntry>): CompletionQueue {
    CompletionQueue(f.published, f.consumed, f.capacity, f.reserved != 0)
  }

  /** consumer_peek, consumer_release() and consumer_release(0) are the work queue's peek, release and give-back. */
  lemma WorkQueueIsRing<T>(f: Fifo<T>)
    requires f.peeked <= 1
    ensures var (g, status) := FifoPeek(f, 1);
            && g.peeked <= 1 && (status == Ok <==> WorkerSteps.CanPeek(AsWorkQueue(f)))
            && AsWorkQueue(g) == (if status == Ok then AsWorkQueue(f).(peeked := true) else AsWorkQueue(f))
    ensures var (g, status) := FifoRelease(f, 1);
            && g.peeked <= 1 && (status == Ok <==> AsWorkQueue(f).peeked)
            && AsWorkQueue(g) == (if status == Ok then WorkerSteps.Released(AsWorkQueue(f)) else AsWorkQueue(f))
    ensures AsWorkQueue(FifoRelease(f, 0).0) == AsWorkQueue(f).(peeked := false)
  {
  }

  /** producer_reserve and producer_publish of one entry, or of none, are the completion queue's steps. */
  lemma CompletionQueueIsRing(f: Fifo<CompletionEntry>, e: CompletionEntry)
    requires f.reserved <= 1
    ensures var (g, status) := FifoReserve(f, 1);
            && g.reserved <= 1 && (status == Ok <==> WorkerSteps.CanReserve(AsCompletionQueue(f)))
            && AsCompletionQueue(g) == (if status == Ok then AsCompletionQueue(f).(reserved := true) else AsCompletionQueue(f))
    ensures f.reserved == 1 ==>
              && FifoPublish(f, [e]).1 == Ok
              && AsCompletionQueue(FifoPublish(f, [e]).0)
                 == WorkerSteps.Produced(AsCompletionQueue(f), e).(reserved := false)
              && AsCompletionQueue(FifoPublish(f, []).0) == AsCompletionQueue(f).(reserved := false)
  {
    assert f.published + [] == f.published;
  }

  // ----- posted requests

  /** What the worker reads from a send slot through the header struct: the signaled flag is bit 1. */
  predicate ReadsAs(slot: Descriptors.Slot, send: SendWqe) {
    && 40 + 16 * |send.sges| <= |slot| && Descriptors.Field(slot, 32, 4) == |send.sges|
    && Descriptors.Field(slot, 0, 8) == send.wrId && Descriptors.Field(slot, 8, 8) == send.remoteAddress
    && Descriptors.Field(slot, 16, 4) == send.rkey && Descriptors.Field(slot, 20, 4) == send.opcode
    && (Descriptors.Field(slot, 24, 4) / 2 % 2 == 1 <==> send.signaled) && Descriptors.Field(slot, 28, 4) == send.immediate
    && forall i :: 0 <= i < |send.sges| ==>
         && Descriptors.Field(slot, 40 + 16 * i, 8) == send.sges[i].address
         && Descriptors.Field(slot, 40 + 16 * i + 8, 4) == send.sges[i].length
         && Descriptors.Field(slot, 40 + 16 * i + 12, 4) == send.sges[i].lkey
  }

  /** The worker reads a posted request as the client wrote it. */
  lemma PostedRequestIsRead(slot: Descriptors.Slot, wr: WrPosting.SendWr, maxSge: nat, send: SendWqe)
    requires WrPosting.ValidSend(wr, maxSge) && WrPosting.Carries(slot, wr) && ReadsAs(slot, send)
    ensures send.wrId == wr.wrId && send.remoteAddress == wr.remoteAddress && send.rkey == wr.rkey && send.opcode == wr.opcode
    ensures send.signaled <==> wr.sendFlags == 2
    ensures send.immediate == if wr.opcode == 1 then wr.immData else 0
    ensures |send.sges| == wr.numSge
    ensures 0 < wr.numSge ==> wr.sgList.Some? && wr.numSge <= |wr.sgList.value|
    ensures forall i :: 0 <= i < wr.numSge ==>
              send.sges[i] == Sge(wr.sgList.value[i].address, wr.sgList.value[i].length, wr.sgList.value[i].lkey)
  {
    hide Descriptors.Field;
    forall i | 0 <= i < wr.numSge
      ensures send.sges[i] == Sge(wr.sgList.value[i].address, wr.sgList.value[i].length, wr.sgList.value[i].lkey)
    {
      WrPosting.SgeAt(slot, 40, wr.numSge, wr.sgList, i);
    }
  }

  // ----- control plane

  function KeyResolver(s: ControlPlane.Control, session: nat, pd: nat, remote: bool): (nat, nat, nat) -> Option<nat> {
    (key: nat, address: nat, length: nat) =>
      match ControlPlane.ResolveKey(s, session, pd, key, address, length, remote)
      case Address(daemon) => Some(daemon)
      case Refused(_) => None
  }

  /** The configuration of a data-plane run between two queue pairs of a fixed control plane. */
  function WorkerConfig(s: ControlPlane.Control, local: (nat, ControlPlane.QpRecord), remote: (nat, ControlPlane.QpRecord),
                        payloadBytes: nat, maxSendSge: nat, sqSigAll: bool, requests: nat, responses: nat): Config
  {
    Config(
      if payloadBytes == 0 then DEFAULT_PAYLOAD_BYTES else if payloadBytes < U32_MAX then payloadBytes else U32_MAX,
      maxSendSge, sqSigAll, local.1.qpNum, local.1.peerQpNum, remote.1.qpNum, requests, responses,
      KeyResolver(s, local.0, local.1.pd, false), KeyResolver(s, remote.0, remote.1.pd, true))
  }

  /** Every control plane gives a valid configuration: payload sizes are normalised and length 0 never resolves. */
  lemma WorkerConfigIsValid(s: ControlPlane.Control, local: (nat, ControlPlane.QpRecord), remote: (nat, ControlPlane.QpRecord),
                            payloadBytes: nat, maxSendSge: nat, sqSigAll: bool, requests: nat, responses: nat)
    ensures ValidConfig(WorkerConfig(s, local, remote, payloadBytes, maxSendSge, sqSigAll, requests, responses))
  {
  }

  /**
    Local keys are those of the sending queue pair's domain, remote keys those
    of the receiving one's; datagrams of a connected queue pair reach its peer.
   */
  lemma WorkerConfigIsView(s: ControlPlane.Control, local: (nat, ControlPlane.QpRecord), remote: (nat, ControlPlane.QpRecord),
                           payloadBytes: nat, maxSendSge: nat, sqSigAll: bool, requests: nat, responses: nat)
    ensures var c := WorkerConfig(s, local, remote, payloadBytes, maxSendSge, sqSigAll, requests, responses);
            && c.payloadBytes == (if payloadBytes == 0 then 8192 else if payloadBytes > 0xFFFF_FFFF then 0xFFFF_FFFF else payloadBytes)
            && c.maxSendSge == maxSendSge && c.sqSigAll == sqSigAll && c.qpNum == local.1.qpNum && c.peerQpNum == local.1.peerQpNum
            && (c.peerQpNum == c.responderQpNum <==> local.1.peerQpNum == remote.1.qpNum)
            && (forall key: nat, a: nat, n: nat, d: nat ::
                  && (c.resolveLkey(key, a, n) == Some(d) <==>
                        ControlPlane.ResolveKey(s, local.0, local.1.pd, key, a, n, false) == ControlPlane.Address(d))
                  && (c.resolveRkey(key, a, n) == Some(d) <==>
                        ControlPlane.ResolveKey(s, remote.0, remote.1.pd, key, a, n, true) == ControlPlane.Address(d)))
  {
    hide ControlPlane.ResolveKey;
  }

  /** The responder's target range lies inside one live, remotely writable region of its own domain. */
  lemma TargetInsideOneRegion(s: ControlPlane.Control, session: nat, pd: nat, key: nat, address: nat, length: nat) returns (id: nat)
    requires ControlInv.Inv(s) && KeyResolver(s, session, pd, true)(key, address, length).Some?
    ensures ControlTheorems.Names(s, session, pd, key, true, id)
    ensures var mr := s.mrs[id].record; var d := KeyResolver(s, session, pd, true)(key, address, length).value;
            && mr.access == 3
            && mr.daemonAddress <= d && d + length <= mr.daemonAddress + mr.length
            && d - mr.daemonAddress == address - mr.clientAddress
  {
    hide ControlInv.Inv, ControlPlane.Translate;
    assert key != 0 && length != 0;
    hide ControlPlane.Lookup;
    ControlTheorems.ResolveKeyIsScan(s, session, pd, key, address, length, true);
    id :| ControlTheorems.Names(s, session, pd, key, true, id);
    ControlTheorems.TranslateInsideRegion(s.mrs[id].record, address, length, true);
    AccessOf(s, id);
  }

  lemma AccessOf(s: ControlPlane.Control, id: nat)
    requires ControlInv.Inv(s) && id in s.mrs
    ensures s.mrs[id].record.access in {0, 1, 3}
  {
    hide ControlInv.ContextCounts, ControlInv.PdCounts, ControlInv.CqCounts, ControlInv.ContextParents, ControlInv.QpParents,
      ControlInv.MrRelation, ControlInv.QpIndexed, ControlInv.QpStates;
  }
}
