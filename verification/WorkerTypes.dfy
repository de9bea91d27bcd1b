/**
  Records of the loop worker's data plane (src/worker/worker.hpp,
  src/worker/local_transport.hpp, src/worker/copy_backend.hpp).
  Fields that the C++ code stores in 32 bits and tests against the 32-bit
  maximum are bounded here where that test depends on it; addresses are
  mathematical integers.
 */
module WorkerTypes {
  import opened Common

  const BACKEND_BATCH_CAPACITY: nat := 64
  const DEFAULT_PAYLOAD_BYTES: nat := 8192

  // include/ugdr/api.hpp: opcodes and completion statuses
  const WR_RDMA_WRITE: nat := 0
  const WR_RDMA_WRITE_WITH_IMM: nat := 1
  const WC_SUCCESS: nat := 0
  const WC_LOC_LEN_ERR: nat := 1
  const WC_LOC_QP_OP_ERR: nat := 2
  const WC_LOC_PROT_ERR: nat := 4
  const WC_REM_INV_REQ_ERR: nat := 9
  const WC_REM_ACCESS_ERR: nat := 10
  const WC_REM_OP_ERR: nat := 11
  const WC_RNR_RETRY_EXC_ERR: nat := 13
  const WC_GENERAL_ERR: nat := 21
  const WC_RDMA_WRITE: nat := 1
  const WC_RECV_RDMA_WITH_IMM: nat := 129
  const WC_WITH_IMM: nat := 2

  datatype DatagramOpcode = RdmaWrite | RdmaWriteWithImmediate

  datatype DatagramResult =
    | Success
    | Rnr
    | RemoteInvalidRequest
    | RemoteAccessError
    | RemoteOperationError
    | BackendError

  datatype Sge = Sge(address: nat, length: U32, lkey: nat)

  datatype SendWqe = SendWqe(
    wrId: nat, remoteAddress: nat, rkey: nat, opcode: nat, signaled: bool,
    immediate: nat, sges: seq<Sge>)

  datatype ReceiveWqe = ReceiveWqe(wrId: nat)

  datatype CompletionEntry = CompletionEntry(
    wrId: nat, status: nat, opcode: nat, byteLength: nat, immediate: nat, qpNum: nat, flags: nat)

  datatype RequestDatagram = RequestDatagram(
    id: nat, sourceQp: nat, targetQp: nat, opcode: DatagramOpcode, remoteAddress: nat, rkey: nat,
    immediate: nat, totalLength: nat, payloadOffset: nat, sourceAddress: nat, payloadLength: nat,
    payloadIndex: nat, payloadCount: nat)

  datatype ResponseDatagram = ResponseDatagram(id: nat, result: DatagramResult)

  datatype BackendRequest = BackendRequest(
    id: nat, totalLength: nat, payloadOffset: nat, sourceAddress: nat, targetAddress: nat,
    payloadLength: nat, payloadIndex: nat, payloadCount: nat)

  datatype BackendCompletion = BackendCompletion(id: nat, payloadIndex: nat, result: DatagramResult)

  /** A resolved, nonempty SGE: daemon address and length. */
  datatype Segment = Segment(address: nat, length: nat)

  /** The part of a PendingSend that never changes after the WQE was taken. */
  datatype Parent = Parent(
    id: nat, wrId: nat, signaled: bool, opcode: DatagramOpcode, sourceQp: nat, targetQp: nat,
    remoteAddress: nat, rkey: nat, immediate: nat, totalLength: nat, payloadCount: nat,
    segments: seq<Segment>)

  /** Parent plus the cursor that try_send advances. */
  datatype PendingSend = PendingSend(
    parent: Parent, segmentIndex: nat, segmentOffset: nat, payloadOffset: nat, payloadIndex: nat,
    zeroPayloadSent: bool)

  datatype RequesterInflight = RequesterInflight(
    wrId: nat, signaled: bool, logicalBytes: nat, payloadCount: nat)

  datatype ResponderInflight = ResponderInflight(
    sourceQp: nat, targetQp: nat, opcode: DatagramOpcode, remoteAddress: nat, rkey: nat,
    immediate: nat, totalLength: nat, targetAddress: nat, nextPayloadOffset: nat,
    nextPayloadIndex: nat, payloadCount: nat, terminalCount: nat, terminal: seq<bool>,
    results: seq<DatagramResult>, parentError: DatagramResult, hasReceive: bool,
    receiveConsumed: bool, receiveWrId: nat, byteLength: nat)

  /**
    What one data-plane run holds fixed: both workers' views of their QPs, the
    queue capacities, and the control plane's key resolution
    (key, address, length) -> daemon address.
   */
  datatype Config = Config(
    payloadBytes: nat, maxSendSge: nat, sqSigAll: bool, qpNum: nat, peerQpNum: nat,
    responderQpNum: nat, requestCapacity: nat, responseCapacity: nat,
    resolveLkey: (nat, nat, nat) -> Option<nat>,
    resolveRkey: (nat, nat, nat) -> Option<nat>)

  /** payload_bytes is normalised by the constructor; resolve_key rejects length 0. */
  ghost predicate ValidConfig(c: Config) {
    && 0 < c.payloadBytes <= U32_MAX
    && (forall k, a :: c.resolveLkey(k, a, 0).None?)
    && (forall k, a :: c.resolveRkey(k, a, 0).None?)
  }

  /** Consumer's view of a work queue ring: entries published, entries released, open peek. */
  datatype WorkQueue<+T> = WorkQueue(log: seq<T>, head: nat, peeked: bool)

  /** Producer's view of a completion ring: entries published, entries released, open reserve. */
  datatype CompletionQueue = CompletionQueue(
    log: seq<CompletionEntry>, polled: nat, capacity: nat, reserved: bool)

  predicate HasRoom(q: CompletionQueue) { |q.log| - q.polled < q.capacity }

  datatype Transport = Transport(requests: seq<RequestDatagram>, responses: seq<ResponseDatagram>)

  datatype Requester = Requester(
    pendingSend: Option<PendingSend>, pendingResponse: Option<ResponseDatagram>,
    inflight: map<nat, RequesterInflight>, nextSequence: nat,
    sendQueue: WorkQueue<SendWqe>, sendCq: CompletionQueue)

  datatype Responder = Responder(
    pendingRequest: Option<RequestDatagram>, inflight: map<nat, ResponderInflight>,
    order: seq<nat>, batch: seq<BackendRequest>,
    receiveQueue: WorkQueue<ReceiveWqe>, receiveCq: CompletionQueue)

  function CompletionStatus(result: DatagramResult): nat {
    match result
    case Success => WC_SUCCESS
    case Rnr => WC_RNR_RETRY_EXC_ERR
    case RemoteInvalidRequest => WC_REM_INV_REQ_ERR
    case RemoteAccessError => WC_REM_ACCESS_ERR
    case RemoteOperationError => WC_REM_OP_ERR
    case BackendError => WC_GENERAL_ERR
  }

  function SendCompletion(wrId: nat, qpNum: nat, status: nat): CompletionEntry {
    CompletionEntry(wrId, status, WC_RDMA_WRITE, 0, 0, qpNum, 0)
  }

  function ReceiveCompletion(wrId: nat, qpNum: nat, byteLength: nat, immediate: nat): CompletionEntry {
    CompletionEntry(wrId, WC_SUCCESS, WC_RECV_RDMA_WITH_IMM, byteLength, immediate, qpNum, WC_WITH_IMM)
  }
}
