# UGDR in Dafny

A model of the UGDR runtime: its loop worker protocol, its shared rings, its
control plane, its control codec and its roadmap checker, with proofs of what
they promise. `dafny verify dfyconfig.toml` checks the whole project.

## How it is built

| files | what they hold |
|---|---|
| Common | optional values, integer limits and errno values |
| WorkerTypes, Fragments, WorkerSteps | records of the data plane, the cutting of a gather list into datagrams, and the worker's steps as functions on values, branch for branch |
| Protocol, ProtocolOrder, ProtocolSend, ProtocolComplete, ProtocolRequest, ProtocolBackend, ProtocolRuns | requester, transport, responder and backend as one step system; its invariant part by part; every step keeps it |
| GatherCopy, ProtocolTheorems, ProtocolIds | what the copies do to memory, what holds in every reachable state, and which request ids a run gives out |
| LoopWorker | the worker, the transport and the backend's default batch loops as objects updated in place, each method proved against WorkerSteps |
| WorkerRuns, ResponderSafety | what the worker object does is a run of the protocol; what the responder does with arbitrary traffic |
| RingSteps, RingFifo, SharedRing | the ring with 64-bit wrapped positions, 32-bit indices and stale caches as a step system; its refinement of a bounded FIFO; the ring as an object |
| CompletionDelivery, Bytes, Descriptors, WrPosting | the users of the rings: completions, polling, work request chains, slot layouts |
| ObjectIdentity, Registry, GenerationRegistry | identities and the generation registry |
| ControlPlane, ControlInv, ControlKeeps, ControlRuns, ControlTheorems, ControlOutcomes, ControlService | the control handlers on values, their invariant, runs of requests and disconnects, exactly when each request succeeds and what it leaves, and the service object proved against them |
| ClientCache | the client's queue pair proxies against the daemon: requests of every kind, lost calls, reconnects under new sessions, other sessions |
| IpcCodec | control payloads: printer, parser and the byte-vector code |
| Roadmap | route edges and the depth-first cycle check |
| Composition | how the layers meet |

The data plane is proved twice over: `LoopWorker` shows that the imperative
code takes the steps of `WorkerSteps`, the `Protocol*` files show what those
steps keep over every interleaving, and `WorkerRuns` joins the two: a call on
the object leads from a reachable protocol state to a reachable one. The `History` part of a protocol state is
bookkeeping: it names the parent each queued object belongs to and never
influences a step (the `...WorldIs...Step` lemmas). Two threads of a ring are
separate steps; `SharedRing.ConsumerRuns` and `SharedRing.ProducerRuns` let the
other side act between any two statements of a method that uses a ring.

What comes from outside is an argument: the outcome of opening memory and
creating rings, the identity a registry hands out, the results and the order of
backend completions, the decoded request payloads. A data-plane run holds the
control plane fixed. It takes a WQE only under a request id that nothing in
flight has; `ProtocolIds` shows that this is exactly the absence of a parent in
flight a multiple of 2^32 - 1 before it, so it asks nothing of a run that has
taken fewer parents than that.

## Where the code is not what its names suggest

- Key resolution refuses length 0, so an SGE of length 0 ends as a local
  protection error and a parent without SGEs is always rejected
  (`ProtocolTheorems.ZeroLengthParentRejected`); the zero-payload branch of the
  responder is modelled but never taken.
- When a parent of several datagrams is rejected for its access, only the first
  response carries `remote_access_error`; the later datagrams draw
  `remote_invalid_request`. The first one decides.
- The alignment mask of the slot stride is 32 bits wide: the stride holds its
  entry exactly under the condition of `Descriptors.StrideHoldsEntry`, and
  `Descriptors.StrideTooSmallExample` is an input where it does not.
- Ring indices are 32-bit sums: exact exactly up to capacity 2^31
  (`RingSteps.IndexSumExact`). Ring theorems are about such capacities.
- Registration checks the start of the daemon range against 64 bits, not its
  end (`ControlTheorems.DaemonRangesFit`); `ControlTheorems.WrappingRegionExample`
  is a run of three requests that registers such a region.
- The 32-bit request sequence skips 0, so ids repeat with period 2^32 - 1
  (`ProtocolIds.RequestIdsFollowTheSequence`).
- Nothing ever raises `work_request_references`, so deregistration is never
  refused as busy (`ControlKeeps.DeregisterMrKeeps`).
- A rejected registration or queue pair creation that got as far as its keys or
  number uses them up.

## Model

| member | source | states |
|---|---|---|
| `ProtocolTheorems.SuccessMeansGathered` | src/worker/worker.cpp:420-493 | In every run, when a send WQE completes with success: its peer is the responder's QP and its rkey and remote address resolve; over any span of the run that holds its copies and in which no other copy touches its target or sources, byte b of that remote range ends up as byte b of the WQE's SGEs, each resolved through its lkey; its own copies wrote nothing outside the range, in whatever order the backend completed them |
| `GatherCopy.GatherCopied` | src/worker/worker.cpp:365-373 | The memory refinement behind it, for any copy log and any completion order |
| `GatherCopy.PieceBytes` | src/worker/worker.cpp:466-478 | Byte b of the gather list is read through the payload that holds it, from the address the SGE gives it |
| `ProtocolTheorems.QueuedDatagramsAreRemainingFragments` | src/worker/worker.cpp:454-508 | In every reachable state the datagrams in transit are exactly the contiguous fragments between the responder and the requester; parents are made from WQEs in post order, each carrying its WQE's addresses, keys, immediate, flags and resolved SGEs |
| `ProtocolTheorems.NoProtocolErrors` | src/worker/worker.cpp:330-349 | In every reachable state the datagram handled next, pending or still queued, passes the continuation check if its parent is in flight and the first-datagram check if its parent is accepted and not yet in flight; the final-offset error does not fire on it; no parent in flight carries an error of the responder and no backend completion is refused |
| `ProtocolTheorems.ParentsAnsweredInOrderAfterAllPayloads` | src/worker/worker.cpp:150-174 | terminal_count counts the terminal flags; parents are answered in acceptance order, only after every payload was copied exactly once; the answer is success if and only if all copies succeeded, otherwise the result of the lowest-indexed failed payload |
| `ProtocolTheorems.WorkRequestConservation` | src/worker/worker.cpp:210-243 | A send WQE has an entry in the completion queue if and only if it was refused locally, failed, or succeeded and asked for one, and then exactly one, with its wr_id, the QP number and the status number due; a refusal is for its SGE count, opcode or first bad SGE, a remote result is 9 for a wrong peer, 10 for a key that does not resolve, else that of its first failed copy or success |
| `ProtocolTheorems.CompletionsMatchWorkRequests` | src/worker/worker.cpp:210-243 | The completion queue holds every entry exactly as often as there are WQEs it is due to, entry and WQE agreeing field by field; each entry completes one WQE and no WQE has two |
| `ProtocolTheorems.ReceivePairing` | src/worker/worker.cpp:176-208 | The k-th accepted write-with-immediate holds the k-th receive WQE, which is released once and in order; the n-th receive completion has the length and immediate of the WQE behind the n-th successful one, the wr_id of its receive WQE, the responder's QP number, status 0, opcode 129 and flag 2; no reservation is left open |
| `ProtocolTheorems.QuiescentMeansAllDone` | src/worker/worker.cpp:63-102 | When nothing is pending or queued, every posted WQE was refused or completed and the inflight map is empty: nothing is lost |
| `ProtocolTheorems.ZeroLengthParentRejected` | src/worker/worker.cpp:284-294 | A parent of length zero is never accepted; if completed, then with the rejection result |
| `ProtocolRuns.RunKeepsInv` | src/worker/worker.cpp:63-102 | The composed invariant holds in every state of every interleaving of client, requester, responder and backend |
| `ProtocolRuns.OnlyFreshIdsAssumed` | src/worker/worker.cpp:504-527 | In a state satisfying the invariant the only thing a step asks from outside is a request id not in flight |
| `ProtocolIds.RequestIdsFollowTheSequence` | src/worker/worker.cpp:504-527 | In every reachable state parent j has id qp_num * 2^32 + j mod (2^32 - 1) + 1, and the next sequence is that of the next parent |
| `ProtocolIds.FreshExactlyWhenNoAlias` | src/worker/worker.cpp:504-527 | The next request id is unused in flight if and only if no parent a multiple of 2^32 - 1 before the next one is still in flight |
| `ProtocolIds.EveryStepEnabled` | src/worker/worker.cpp:63-102 | When the parents in flight are among the last 2^32 - 2, no step asks for anything |
| `ProtocolIds.ShortRunsNeedNoAssumption` | src/worker/worker.cpp:63-102 | A run that has taken fewer than 2^32 - 1 parents can take any step: freshness of ids is proved, not assumed |
| `ProtocolSend.SendKeepsInv` | src/worker/worker.cpp:392-509 | try_send, with local rejection, taking a WQE and pushing a fragment, keeps the composed invariant |
| `ProtocolSend.SendWorldIsSendStep` | src/worker/worker.cpp:392-509 | The protocol step is the worker step function on the requester and the transport |
| `ProtocolComplete.ResponseKeepsInv` | src/worker/worker.cpp:210-243 | try_response keeps the composed invariant, surplus responses of a rejected parent included |
| `ProtocolComplete.ResponseWorldIsResponseStep` | src/worker/worker.cpp:210-243 | The protocol step is the worker step function |
| `ProtocolRequest.RequestKeepsInv` | src/worker/worker.cpp:245-390 | try_request keeps the composed invariant: acceptance, both kinds of rejection, batching, back-pressure |
| `ProtocolRequest.RequestWorldIsRequestStep` | src/worker/worker.cpp:245-390 | The protocol step is the worker step function on the responder and the transport |
| `ProtocolBackend.FlushKeepsInv` | src/worker/worker.cpp:130-148 | Handing any prefix of the batch to the backend keeps the invariant |
| `ProtocolBackend.FinishKeepsInv` | src/worker/copy_backend.hpp:31-56 | The backend completing any outstanding payload, with any result, keeps the invariant |
| `ProtocolBackend.CompletionsKeepInv` | src/worker/worker.cpp:104-128 | Applying any number of popped completions keeps the invariant |
| `ProtocolBackend.AnswerKeepsInv` | src/worker/worker.cpp:150-208 | Answering the oldest accepted parent keeps the invariant |
| `ProtocolBackend.AnswerWorldIsParentResponseStep` | src/worker/worker.cpp:150-208 | The protocol step is the worker step function |
| `Fragments.CutAllFacts` | src/worker/worker.cpp:436-438 | The sum of the per-SGE ceilings is the number of fragments, every length is in 1..payload_bytes, and the lengths add up to the total |
| `Fragments.PieceInsideSegment` | src/worker/worker.cpp:471-477 | No fragment crosses an SGE boundary |
| `Fragments.OffsetCovers` | src/worker/worker.cpp:486-488 | Every byte below the total length lies in some fragment |
| `Fragments.OffsetUnique` | src/worker/worker.cpp:486-488 | No byte lies in two fragments: the offsets partition the range |
| `Fragments.CeilSumBound` | src/worker/worker.cpp:441-443 | The fragment count is at most the total length, so the 32-bit count check never fires |
| `Fragments.CursorStep` | src/worker/worker.cpp:471-493 | While fragments remain the segment index is in bounds, the datagram built from the cursor is the reference datagram, and advancing stands before the next fragment |
| `Fragments.GatherFacts` | src/worker/worker.cpp:420-440 | The SGE loop yields one nonempty segment per SGE with the resolved address, and the exact length and fragment count |
| `Fragments.PrepareFacts` | src/worker/worker.cpp:398-451 | An accepted WQE becomes a well-formed parent that carries the WQE field by field, with its SGEs resolved in order; empty exactly when it has no SGE |
| `Fragments.PrepareRefuses` | src/worker/worker.cpp:399-443 | A WQE is refused with 1, 2 or 4 exactly when its SGE count or length sum, its opcode, or its first unresolved SGE says so |
| `Fragments.GatherOutcome` | src/worker/worker.cpp:420-440 | The SGE loop goes through exactly when every SGE passes, otherwise it stops at the first that fails |
| `LoopWorker.LocalTransport.TryPushRequest` | src/worker/local_transport.cpp:6-12 | Appends unless the queue is at capacity |
| `LoopWorker.LocalTransport.TryPopRequest` | src/worker/local_transport.cpp:14-21 | Removes the oldest datagram, if any |
| `LoopWorker.LocalTransport.TryPushResponse` | src/worker/local_transport.cpp:37-39 | Appends unless the queue is at capacity |
| `LoopWorker.LocalTransport.TryPopResponse` | src/worker/local_transport.cpp:41-43 | Removes the oldest response, if any |
| `LoopWorker.CopyBackend.TrySubmitBatch` | src/worker/copy_backend.hpp:36-43 | Submits a prefix, up to the first refusal |
| `LoopWorker.CopyBackend.TryPopCompletionBatch` | src/worker/copy_backend.hpp:48-55 | Pops up to the capacity, in queue order |
| `LoopWorker.Worker.GatherSges` | src/worker/worker.cpp:420-440 | The loop computes the reference gathering, error statuses included |
| `LoopWorker.Worker.CompleteSendError` | src/worker/worker.cpp:511-523 | Publishes the error completion and retires the WQE, or gives the WQE back |
| `LoopWorker.Worker.TakeNextSend` | src/worker/worker.cpp:393-452 | Refines the first half of the send step |
| `LoopWorker.Worker.PushNextDatagram` | src/worker/worker.cpp:454-509 | Refines the second half of the send step |
| `LoopWorker.Worker.TrySend` | src/worker/worker.cpp:392-509 | try_send on the object is the send step on its state |
| `LoopWorker.Worker.TryResponse` | src/worker/worker.cpp:210-243 | try_response on the object is the response step |
| `LoopWorker.Worker.TryRequest` | src/worker/worker.cpp:245-390 | try_request on the object is the request step |
| `LoopWorker.Worker.BatchPayload` | src/worker/worker.cpp:330-389 | Batches the payload into the array and counts it, or leaves the state as the step says |
| `LoopWorker.Worker.TryBackendCompletions` | src/worker/worker.cpp:104-128 | The loop applies the popped completions in order |
| `LoopWorker.Worker.TryFlushBackendRequests` | src/worker/worker.cpp:130-148 | The accepted prefix goes to the backend; the rest moves to the front of the array in place |
| `LoopWorker.Worker.CombineResults` | src/worker/worker.cpp:166-174 | The parent error, else the first failed payload result, else success |
| `LoopWorker.Worker.TryParentResponse` | src/worker/worker.cpp:150-208 | try_parent_response is the parent response step: response and receive completion together or neither |
| `LoopWorker.Worker.ProgressRequester` | src/worker/worker.cpp:93-99 | The loops terminate, are a run of worker steps, and end where the requester can do nothing more; it reports progress exactly when some call made progress |
| `LoopWorker.Worker.ProgressResponder` | src/worker/worker.cpp:69-92 | The loops terminate and are a run of worker steps; requests were taken as far as possible unless a batch the backend refused stood in the way all along, and no parent is left that could be answered |
| `WorkerRuns.RunRequester` | src/worker/worker.cpp:93-99 | A call of the requester half leads from a reachable protocol state to a reachable one in which only the requester moved: always while fewer than 2^32 - 1 parents were taken, and beyond that if every WQE is taken under an unused id |
| `WorkerRuns.RunResponder` | src/worker/worker.cpp:69-92 | A call of the responder half leads from a reachable protocol state to a reachable one in which the requester did not move |
| `WorkerRuns.RequesterTraceLifts` | src/worker/worker.cpp:93-99 | Any trace of requester steps, each WQE taken under an unused id, is a run of the protocol |
| `WorkerRuns.ShortRequesterTraceLifts` | src/worker/worker.cpp:93-99 | Without that condition while fewer than 2^32 - 1 parents were taken |
| `WorkerRuns.ResponderTraceLifts` | src/worker/worker.cpp:69-92 | Any trace of responder steps (request, flush, completions, answer) is a run of the protocol |
| `ResponderSafety.OnlyPayloadsInsideTheTarget` | src/worker/worker.cpp:267-389 | Whatever datagram arrives, at most one payload goes to the batch, and only the next of its parent, equal to the parent in every fixed field and inside the range its key resolved to; a parent is opened only by a first datagram for this QP whose key resolves |
| `ResponderSafety.StrayDatagramsAreRefused` | src/worker/worker.cpp:267-294 | A datagram that opens nothing and belongs to nothing is answered with an error and dropped: remote_access_error exactly when only its key is at fault |
| `RingFifo.RingDeliversInOrder` | src/queue/shared_ring.cpp:158-270 | Under every interleaving with stale caches, what the consumer read and released is a prefix of what was published, at most a capacity behind; reserved slots hold no unreleased entry; peeked slots read as published |
| `RingFifo.ReserveIsFifo` | src/queue/shared_ring.cpp:158-197 | producer_reserve answers and steps as a bounded FIFO: EAGAIN exactly when full, otherwise as many slots as asked for and free, the next ones in order |
| `RingFifo.PublishIsFifo` | src/queue/shared_ring.cpp:199-214 | producer_publish appends the reserved entries as they stand in the slots, or cancels |
| `RingFifo.PeekIsFifo` | src/queue/shared_ring.cpp:216-253 | consumer_peek answers and steps as a bounded FIFO: EAGAIN exactly when empty, otherwise the oldest entries in order |
| `RingFifo.ReleaseIsFifo` | src/queue/shared_ring.cpp:255-270 | consumer_release consumes from the front |
| `RingFifo.RingNeverReportsEproto` | src/queue/shared_ring.cpp:171-174 | EPROTO is unreachable, and the kept indices are the total counts modulo the capacity |
| `RingFifo.WriteMissesUnreleased` | src/queue/shared_ring.cpp:187-196 | A write to a reserved slot never touches a published, unreleased entry |
| `RingFifo.RunKeepsInv` | src/queue/shared_ring.cpp:158-270 | The ring invariant holds in every state of every run |
| `RingSteps.WrappedDistance` | src/queue/shared_ring.cpp:171-182 | 64-bit wrapped subtraction gives the true occupancy |
| `RingSteps.IndexFollowsCount` | src/queue/shared_ring.cpp:204-208 | The incrementally kept index is the count modulo the capacity |
| `RingSteps.IndexSumExact` | src/queue/shared_ring.cpp:205-208 | The 32-bit index sum is exact for all indices and counts if and only if the capacity is at most 2^31 |
| `RingSteps.SpansCoverDistinctSlots` | src/queue/shared_ring.cpp:188-193 | The two spans hold exactly count slots, distinct and inside the ring |
| `RingSteps.MappingHoldsAllSlots` | src/queue/shared_ring.cpp:304-321 | The mapping is the least whole number of pages for header and slots, overflow is reported exactly when that exceeds 64 bits, and slots lie inside without overlap |
| `SharedRing.SharedRing.ProducerReserve` | src/queue/shared_ring.cpp:158-197 | The call on the object takes the FIFO reserve step |
| `SharedRing.SharedRing.WriteSlot` | src/queue/shared_ring.cpp:187-196 | Writing one reserved slot changes that pending entry and nothing else |
| `SharedRing.SharedRing.ProducerPublish` | src/queue/shared_ring.cpp:199-214 | The call on the object takes the FIFO publish step |
| `SharedRing.SharedRing.ConsumerPeek` | src/queue/shared_ring.cpp:216-253 | The call on the object takes the FIFO peek step |
| `SharedRing.SharedRing.ReadSlot` | src/queue/shared_ring.cpp:243-252 | A peeked slot reads as the entry published in its position |
| `SharedRing.SharedRing.ConsumerRelease` | src/queue/shared_ring.cpp:255-270 | The call on the object takes the FIFO release step and delivers what was read |
| `CompletionDelivery.ProduceCompletions` | src/queue/completion_queue.cpp:22-51 | Appends exactly as many entries as fit, in order, with the consumer running at any time; refuses with -EINVAL and no effect otherwise |
| `CompletionDelivery.CopyEntries` | src/queue/completion_queue.cpp:10-18 | The copy loop fills a span from the entries at the advancing offset |
| `CompletionDelivery.PollCq` | src/api/api.cpp:415-467 | Hands over the oldest entries not yet polled, as many as asked for and present; all polls concatenated are a prefix of all entries produced, with the producer running at any time |
| `CompletionDelivery.CopySpan` | src/api/api.cpp:443-462 | The copy loop reads a span into the output at the advancing index |
| `WrPosting.PostChain` | src/api/wr_posting.cpp:60-103 | The slots published are exactly the encodings of the chain before bad_wr; 0 means the whole chain; EINVAL names the first invalid request; ENOMEM means every slot that was free at the call was used |
| `WrPosting.PostBatch` | src/api/wr_posting.cpp:68-100 | One turn: reserve, fill both spans, publish what was accepted |
| `WrPosting.FillSpan` | src/api/wr_posting.cpp:77-88 | Fills a span until it, the chain, or the valid requests end |
| `WrPosting.EncodeSend` | src/api/wr_posting.cpp:28-44 | Every field of the slot's bytes is the request's: wr_id, remote address, rkey, opcode, flags, count, the immediate for opcode 1 and else 0, and each SGE at its offset |
| `WrPosting.EncodeReceive` | src/api/wr_posting.cpp:46-57 | Every field of the slot's bytes is the request's: wr_id, count and each SGE at its offset |
| `WrPosting.CheckSend` | src/api/wr_posting.cpp:17-23 | The bit tests accept exactly writes with or without immediate, signaled or not, with at most max_sge SGEs and a list when there are any |
| `Descriptors.SendSlotRoundTrip` | src/queue/descriptors.hpp:17-26 | A send entry written over any slot reads back field by field, SGEs included |
| `Descriptors.ReceiveSlotRoundTrip` | src/queue/descriptors.hpp:28-32 | A receive entry written over any slot reads back field by field |
| `Descriptors.StrideHoldsEntry` | src/queue/descriptors.hpp:51-69 | The stride holds header and SGEs if and only if the unaligned size plus 63 is below 2^32 |
| `Descriptors.StrideTooSmallExample` | src/queue/descriptors.hpp:63-67 | 2^28 SGEs give a stride of 64 bytes |
| `ObjectIdentity.DecodeEncode` | src/control/object_identity.cpp:11-18 | Exactly the parts with type and generation nonzero and a 24-bit slot encode; the type is in the top 8 bits, the generation in the next 32, the slot in the low 24; decoding gives the parts back |
| `ObjectIdentity.EncodeDecode` | src/control/object_identity.cpp:20-32 | Whatever decodes encodes to the same identity |
| `Registry.IdentitiesAreNeverReused` | src/control/object_registry.hpp:23-102 | Over every run no identity is returned twice, a dead one never resolves again, free slots are exactly the non-live non-retired ones without repeats, and live_count counts the live slots |
| `Registry.InsertIsFresh` | src/control/object_registry.hpp:23-48 | Insert adds one entry under an identity never issued before; it fails exactly when all slots are used |
| `Registry.ResolveIsLookup` | src/control/object_registry.hpp:50-81 | Resolving is looking up the map of live objects, for the owner only |
| `Registry.EraseRemoves` | src/control/object_registry.hpp:83-90 | Erase succeeds exactly for the owner of a live object and removes just that one |
| `Registry.EraseSessionRemoves` | src/control/object_registry.hpp:92-102 | Session erase removes exactly the session objects |
| `Registry.ReleaseRemoves` | src/control/object_registry.hpp:132-143 | Releasing a slot removes its identity and keeps the registry well-formed, retirement included |
| `GenerationRegistry.GenerationRegistry.Insert` | src/control/object_registry.hpp:23-48 | The object updated in place does the insert of the value model |
| `GenerationRegistry.GenerationRegistry.ReleaseSlot` | src/control/object_registry.hpp:132-143 | The object updated in place does the release of the value model |
| `GenerationRegistry.GenerationRegistry.EraseSession` | src/control/object_registry.hpp:92-102 | The slot loop does the session erase of the value model and counts it |
| `ControlTheorems.ReferenceCountsAreExact` | src/control/pd_mr_cq.cpp:322-363 | In every state of every run of requests and disconnects child_count, qp_count and qp_references equal the live children (a shared CQ once), qp_num_index_ holds exactly the live QPs, no live object names a dead parent, and the mappings held are those of live regions |
| `ControlTheorems.ResolveKeyIsScan` | src/control/pd_mr_cq.cpp:556-577 | Resolving a key through the index answers as scanning all live regions of the domain |
| `ControlTheorems.TranslateInsideRegion` | src/control/pd_mr_cq.cpp:575-589 | A key resolves exactly when the range fits the region, and then maps the whole range inside its daemon range; remotely only with the remote write bit, else 13; what does not fit is refused with 22 |
| `ControlOutcomes.RegisteredKeysResolve` | src/control/pd_mr_cq.cpp:408-446 | In every later state in which a registered region lives, its lkey resolves client address a to mapping base + allocation offset + (a - client address) for ranges inside the registered memory and is refused with 22 otherwise; its rkey does the same exactly for access 3, and is refused with 13 otherwise |
| `ControlOutcomes.RegionsAreAsRegistered` | src/control/pd_mr_cq.cpp:404-446 | Every live region of every run is what its registration said: addresses, length, access, domain, context, keys |
| `ControlTheorems.DaemonRangesFit` | src/control/pd_mr_cq.cpp:584-588 | All translated ranges end within 64 bits if and only if the daemon range of the region does |
| `ControlTheorems.WrappingRegionExample` | src/control/pd_mr_cq.cpp:386-388 | A run of three requests from the initial state registers a region whose daemon range leaves 64 bits, and its key resolves to a range that does |
| `ControlTheorems.KeysAreNeverReused` | src/control/pd_mr_cq.cpp:81-90 | Keys of a later registration are greater than those of any earlier one |
| `ControlTheorems.QueuePairsOnlyAdvance` | src/control/qp.cpp:602-703 | Over any run a QP moves only forward through RESET, INIT, RTS, ERR with a fixed number, parents and, once set, peer and retry attributes |
| `ControlTheorems.StatesAt` | src/control/qp.cpp:628-640 | Every QP is in one of four states, RTS has a nonzero peer, retry attributes are in range |
| `ControlTheorems.WorkerFindsLiveQueuePairs` | src/control/qp.cpp:717-741 | A worker view exists exactly for the numbers of live QPs and is that QP with live CQs |
| `ControlRuns.RunKeeps` | src/control/qp.cpp:427-448 | The control plane invariant holds in every state of every run |
| `ControlRuns.DisconnectKeeps` | src/control/pd_mr_cq.cpp:546-554 | A disconnect keeps the invariant |
| `ControlInv.CreatePdKeeps` | src/control/pd_mr_cq.cpp:322-340 | Creating a domain keeps counts, parents and indices exact |
| `ControlInv.DestroyPdKeeps` | src/control/pd_mr_cq.cpp:342-363 | Destroying keeps them exact, and succeeds whenever the domain has no regions and QPs |
| `ControlInv.CreateCqKeeps` | src/control/pd_mr_cq.cpp:475-521 | Creating a CQ keeps the invariant |
| `ControlInv.DestroyCqKeeps` | src/control/pd_mr_cq.cpp:523-544 | Destroying keeps it, and succeeds whenever no QP uses the CQ |
| `ControlInv.DestroyContextKeeps` | src/control/device_context.cpp:202-212 | Destroying a context keeps the invariant: it has no children left |
| `ControlKeeps.RegisterMrKeeps` | src/control/pd_mr_cq.cpp:365-447 | Registration keeps set, key indices and counts exact, keys being burnt on failure |
| `ControlKeeps.DeregisterMrKeeps` | src/control/pd_mr_cq.cpp:449-473 | Deregistration keeps them exact and fails only when closing the mapping fails |
| `ControlKeeps.CreateQpKeeps` | src/control/qp.cpp:450-552 | Creating a QP keeps counts and number index exact |
| `ControlKeeps.DestroyQpKeeps` | src/control/qp.cpp:554-581 | Destroying keeps them exact and succeeds if and only if the session owns the QP |
| `ControlKeeps.ModifyQpMoves` | src/control/qp.cpp:602-642 | modify_qp makes one legal move to the requested state, or changes nothing |
| `ControlKeeps.ConnectQpMoves` | src/control/qp.cpp:658-703 | connect_qp moves INIT to RTS with a peer live at that moment, or changes nothing |
| `ControlOutcomes.CreateContextOutcome` | src/control/device_context.cpp:188-201 | The exact status, and on success one new empty context of the session and nothing else |
| `ControlOutcomes.DestroyContextOutcome` | src/control/device_context.cpp:202-212 | Status 0 exactly for an owned context that no live domain or completion queue names, 16 when one does, else 22 |
| `ControlOutcomes.CreatePdOutcome` | src/control/pd_mr_cq.cpp:322-340 | The exact status, and on success one new empty domain in the context named |
| `ControlOutcomes.DestroyPdOutcome` | src/control/pd_mr_cq.cpp:342-363 | Status 0 exactly for an owned domain that no live region or queue pair names, 16 when one does, else 22 |
| `ControlOutcomes.RegisterMrOutcome` | src/control/pd_mr_cq.cpp:365-447 | The exact status by the first reason that applies; on success the record has the client address, length, access, domain, context and keys, and the daemon address is mapping base + allocation offset |
| `ControlOutcomes.DeregisterMrOutcome` | src/control/pd_mr_cq.cpp:449-473 | Status 22 exactly when the session owns no such region, else the status of closing the mapping; on 0 the region is gone |
| `ControlOutcomes.CreateCqOutcome` | src/control/pd_mr_cq.cpp:475-521 | The exact status, and on success one new unused completion queue of the size asked for |
| `ControlOutcomes.DestroyCqOutcome` | src/control/pd_mr_cq.cpp:523-544 | Status 0 exactly for an owned completion queue that no live queue pair uses, 16 when one does, else 22 |
| `ControlOutcomes.CreateQpOutcome` | src/control/qp.cpp:450-552 | The exact status; on success a queue pair in RESET with the send CQ, receive CQ and domain asked for and the next number |
| `ControlOutcomes.ModifyQpOutcome` | src/control/qp.cpp:602-642 | Status 0 exactly for RESET to INIT with remote write access and for RESET, INIT, RTR or RTS to ERR, with a matching current state if one is given; 95 for SQD and SQE; else 22; only state and access change |
| `ControlOutcomes.ConnectQpOutcome` | src/control/qp.cpp:658-703 | Status 0 exactly from INIT, with retry attributes in range, to a live queue pair in INIT or RTS with the number given; 16 for another peer, 2 for an unknown number, else 22; on success RTS with that peer and those attributes |
| `ControlOutcomes.DisconnectOutcome` | src/control/qp.cpp:705-711 | Every object of the session is gone, no other changed, the number index holds the rest, keys and numbers are not given back |
| `ControlService.QpService.HandleCreateContext` | src/control/device_context.cpp:188-201 | The handler on the registries takes the context step |
| `ControlService.QpService.HandleDestroyContext` | src/control/device_context.cpp:202-212 | The handler takes the step and keeps the invariant |
| `ControlService.QpService.HandleCreatePd` | src/control/pd_mr_cq.cpp:322-340 | The handler takes the step and keeps the invariant |
| `ControlService.QpService.HandleDestroyPd` | src/control/pd_mr_cq.cpp:342-363 | The handler takes the step and keeps the invariant |
| `ControlService.QpService.HandleRegisterMr` | src/control/pd_mr_cq.cpp:365-447 | The handler takes the step and keeps the invariant |
| `ControlService.QpService.HandleDeregisterMr` | src/control/pd_mr_cq.cpp:449-473 | The handler takes the step and keeps the invariant |
| `ControlService.QpService.HandleCreateCq` | src/control/pd_mr_cq.cpp:475-521 | The handler takes the step and keeps the invariant |
| `ControlService.QpService.HandleDestroyCq` | src/control/pd_mr_cq.cpp:523-544 | The handler takes the step and keeps the invariant |
| `ControlService.QpService.ResolveRegion` | src/control/pd_mr_cq.cpp:556-590 | resolve_key on the registries is the key resolution of the value model |
| `ControlService.QpService.HandleCreateQp` | src/control/qp.cpp:450-552 | The handler takes the step and keeps the invariant |
| `ControlService.QpService.HandleDestroyQp` | src/control/qp.cpp:554-581 | The handler takes the step and keeps the invariant |
| `ControlService.QpService.HandleModifyQp` | src/control/qp.cpp:602-642 | The handler takes the step and keeps the invariant |
| `ControlService.QpService.HandleConnectQp` | src/control/qp.cpp:658-703 | The handler takes the step and keeps the invariant |
| `ControlService.QpService.OnDisconnect` | src/control/qp.cpp:705-711 | The index loop and the session erases remove exactly the session |
| `ClientCache.CachedStateIsDaemonState` | src/api/api.cpp:523-528 | In every run of a client that makes requests of every kind, answered or lost, reconnects under new sessions, and shares the daemon with other sessions: while connection and session hold, a live proxy of the current epoch caches the daemon state |
| `ClientCache.EventKeeps` | src/api/api.cpp:570-729 | Every call on queue pairs or other objects, lost call, drop, reconnect and action of another session keeps cache coherence |
| `ClientCache.NewSessionOwnsNothing` | src/ipc/server.cpp:82-85 | Every object belongs to a session opened before, so the session a connection gets owns nothing |
| `ClientCache.SetUpReachesReadyQueuePair` | src/api/api.cpp:505-729 | A run of one client through context, domain, completion queue and queue pair reaches a live current proxy in INIT and then in RTS |
| `ClientCache.PostingNeedsReadyQueuePair` | src/api/api.cpp:746-774 | While the connection holds, sends are accepted exactly for QPs in RTS, which have a peer, and receives exactly in INIT or RTS |
| `IpcCodec.RequestDelivered` | src/control/ipc_adapter.cpp:87-173 | A request that can be encoded decodes to itself, for all opaque bytes and indices |
| `IpcCodec.RequestCanonical` | src/control/ipc_adapter.cpp:120-173 | An accepted request within the size limit re-encodes to the same message |
| `IpcCodec.ResponseDelivered` | src/control/ipc_adapter.cpp:175-258 | A response that can be encoded decodes to itself |
| `IpcCodec.ResponseCanonical` | src/control/ipc_adapter.cpp:208-258 | An accepted response within the size limit re-encodes to the same message |
| `IpcCodec.RequestHeadReads` | src/control/ipc_adapter.cpp:98-118 | Each field of a request is at its offset of the payload, big-endian |
| `IpcCodec.ResponseHeadReads` | src/control/ipc_adapter.cpp:188-206 | Each field of a response is at its offset of the payload, big-endian |
| `IpcCodec.RequestRefusals` | src/control/ipc_adapter.cpp:120-173 | A refused request draws 22 for no method or a response flag, 93 when only the version bytes are wrong, else 71 |
| `IpcCodec.ResponseRefusals` | src/control/ipc_adapter.cpp:208-258 | A refused response draws 22 for no method or no response flag, 93 when only the version bytes are wrong, else 71 |
| `IpcCodec.EncodeRequest` | src/control/ipc_adapter.cpp:87-118 | Succeeds exactly for encodable requests with the reference message; error codes otherwise |
| `IpcCodec.EncodeResponse` | src/control/ipc_adapter.cpp:175-206 | Succeeds exactly for encodable responses with the reference message; error codes otherwise |
| `IpcCodec.DecodeRequest` | src/control/ipc_adapter.cpp:120-173 | The offset reader computes the reference parse, error codes included |
| `IpcCodec.DecodeResponse` | src/control/ipc_adapter.cpp:208-258 | The offset reader computes the reference parse, error codes included |
| `IpcCodec.ValidateLengths` | src/control/ipc_adapter.cpp:53-64 | The overflow-safe test is the plain sum against the limit |
| `IpcCodec.ReadIndices` | src/control/ipc_adapter.cpp:72-83 | Reads the indices with an advancing offset, or reports that the payload ends |
| `IpcCodec.AppendIndices` | src/control/ipc_adapter.cpp:66-70 | Appends the printed indices |
| `IpcCodec.CheckIndices` | src/control/ipc_adapter.cpp:44-51 | True exactly when every index names a descriptor |
| `Roadmap.CheckRoutes` | tools/project_roadmap.py:194-231 | Terminates; reports a cycle if and only if the next actions of the route table lead from some scope back to itself; no error at all if and only if scopes are unique, every next action has a route and there is no such cycle |
| `Roadmap.CyclesOfGraph` | tools/project_roadmap.py:194-213 | The graph, which leaves out next actions without a route, has a cycle exactly when the route table has one |
| `Roadmap.Search.Visit` | tools/project_roadmap.py:218-228 | The recursive visit terminates, restores the visiting set, and a cycle is reported only if there is one |
| `Roadmap.OrderedMeansAcyclic` | tools/project_roadmap.py:218-231 | The finishing order leaves no room for a cycle |
| `Roadmap.BuildGraph` | tools/project_roadmap.py:194-213 | The edges are the next actions that have a route; one without a route is reported |
| `Roadmap.BuildTable` | tools/project_roadmap.py:185-192 | The last route of a scope stays; an error exactly for repeated scopes |
| `Roadmap.TargetIs` | tools/project_roadmap.py:199-203 | A next step leads to the scope of the same version with that step and the feature it names |
| `Roadmap.StepNamesFeature` | tools/project_roadmap.py:9-11 | Exactly the steps Fdd-Sdd name a feature, their first three characters |
| `Composition.WorkQueueIsRing` | src/worker/worker.cpp:394-397 | Peek, release and give-back of one WQE are the FIFO steps of the ring |
| `Composition.CompletionQueueIsRing` | src/worker/worker.cpp:178-203 | Reserve, publish and cancel of one completion are the FIFO steps of the ring |
| `Composition.WorkerConfigIsValid` | src/worker/worker.cpp:52-61 | Any control plane gives the data plane a valid configuration: payload sizes are normalised, length 0 never resolves |
| `Composition.WorkerConfigIsView` | src/worker/worker.cpp:52-61 | The payload size is 8192 by default and capped at 32 bits; SGEs resolve in the sending queue pair's domain, targets in the receiving one's, and datagrams reach the peer exactly when it is the one connected |
| `Composition.TargetInsideOneRegion` | src/worker/worker.cpp:284-294 | An accepted target range lies inside one live region of the responder's domain that was registered with access 3 |
| `Composition.PostedRequestIsRead` | src/worker/worker.cpp:398-421 | What the worker reads from the slot of a posted request is the request, field by field |

## Left out

- GPU copy kernels, CUDA IPC and GPUDirect visibility: the backend is its contract, the memory mapper an outcome.
- Sockets, descriptor passing, memfd, mmap, sealing and the poll loop: foreign calls.
- Hardware memory ordering: head and tail accesses are sequentially consistent steps.
- Mutexes, allocation failure and exception paths: each locked call is one step.
- Retry, timeout and RNR attributes beyond their ranges: the worker never acts on them.
- Deregistration or queue pair destruction during a transfer: the control plane is fixed in a data-plane run.
- The payload codecs of the queue pair, region and device list handlers: a decoded payload or a decoder status is an argument; they would only repeat the shape of `IpcCodec`.
- The completion observer and the listing of devices: they read and change nothing the properties depend on.
- A completion queue shared by two producers: each ring has one producer and one consumer.
- Wrap-around of the 64-bit session numbers and connection epochs: counters without a bound.
- A close that fails on rollback or disconnect: the code ignores the status, and the mapping counts as handed back.
- ClientCache is on values, not objects: proxies are a sequence, and aliasing between proxy pointers is not captured. The checks of null pointers and unknown handles are not modelled there.
- LoopWorker.Worker.ProgressResponder: the backend finishes nothing while the call runs; what finishes later is seen by the next call.
- Roadmap fields other than scopes and next actions, file hashes and front matter: easy checks and file access.
- Benchmarks, command line tools, project state and document checkers.
