/**
  produce_completions (src/queue/completion_queue.cpp) and poll_cq
  (src/api/api.cpp) on a shared completion ring, each with the other side
  running between any two of its steps.
 */
module CompletionDelivery {
  import opened Common
  import opened RingSteps
  import opened RingFifo
  import opened SharedRing
  import opened WorkerTypes

  const COMPLETION_STRIDE: nat := 64

  type CompletionRing = SharedRing<CompletionEntry>

  /** copy_entries: the slots of one span, taken from `entries` at an advancing offset. */
  method CopyEntries(ring: CompletionRing, start: nat, count: nat, entries: seq<CompletionEntry>, offset: nat, ghost batch: Batch)
    returns (next: nat)
    requires ring.Valid() && batch == ring.ProducerBatch() && offset + count <= ring.producer.reserved && offset + count <= |entries|
    requires forall i :: offset <= i < offset + count ==> SlotOf(batch, i) == start + i - offset
    requires ring.Pending()[..offset] == entries[..offset]
    modifies ring.slots, ring`consumer, ring`head, ring`w
    ensures ring.Valid() && next == offset + count && ring.Pending()[..next] == entries[..next]
    ensures ring.Published() == old(ring.Published()) && old(ring.w.consumed) <= ring.w.consumed
  {
    assert ring.producer.localIndex <= ring.capacity;
    hide Inv, SlotOf, MakeBatch, Reserved;
    next := offset;
    for index := 0 to count
      invariant ring.Valid() && next == offset + index && ring.Pending()[..next] == entries[..next]
      invariant ring.Published() == old(ring.Published()) && old(ring.w.consumed) <= ring.w.consumed
    {
      assert batch == ring.ProducerBatch() && SlotOf(batch, next) == start + index;
      ring.WriteSlot(start + index, entries[next], next);
      ring.ConsumerRuns();
      next := next + 1;
    }
  }

  /** The argument and ring checks of produce_completions. */
  predicate ProduceRefused(num: int, given: bool, kind: nat, stride: nat, reserved: nat) {
    || num < 0 || (0 < num && !given)
    || (num != 0 && (kind != KIND_COMPLETION || stride != COMPLETION_STRIDE || reserved != 0))
  }

  function FirstOf(entries: Option<seq<CompletionEntry>>, n: nat): seq<CompletionEntry>
    requires entries.Some? ==> n <= |entries.value|
  {
    if entries.None? then [] else entries.value[..n]
  }

  lemma RoomIsNatural(ring: CompletionRing)
    requires ring.Valid()
    ensures 0 <= Free(ring.Fifo()) && 0 <= Used(ring.Fifo())
    ensures ring.producer.localIndex < ring.capacity && ring.producer.reserved <= ring.capacity
    ensures ring.consumer.localIndex < ring.capacity && ring.consumer.peeked <= ring.capacity
    ensures ring.w.consumed + ring.consumer.peeked <= |ring.Published()|
    ensures var b := ring.ProducerBatch(); b.first + b.second == ring.producer.reserved
    ensures var b := ring.ConsumerBatch(); b.first + b.second == ring.consumer.peeked
  {
  }

  /** The two spans of an open reservation are filled in order and published whole. */
  method FillAndPublish(ring: CompletionRing, batch: Batch, entries: seq<CompletionEntry>) returns (n: nat)
    requires ring.Valid() && 0 < ring.producer.reserved <= |entries| && batch == ring.ProducerBatch()
    modifies ring, ring.slots
    ensures ring.Valid() && n == old(ring.producer.reserved)
    ensures ring.Published() == old(ring.Published()) + entries[..n] && ring.producer.reserved == 0
    ensures old(ring.w.consumed) <= ring.w.consumed
  {
    hide Inv, SlotOf, MakeBatch, Reserved;
    RoomIsNatural(ring);
    SpanSlots(batch);
    ring.ConsumerRuns();
    var offset := CopyEntries(ring, batch.start, batch.first, entries, 0, batch);
    offset := CopyEntries(ring, 0, batch.second, entries, offset, batch);
    var status := ring.ProducerPublish(batch.first + batch.second);
    n := batch.first + batch.second;
  }

  /** Appends as many of the entries as fit, in order, and nothing else; or refuses and leaves the ring alone. */
  method ProduceCompletions(ring: CompletionRing, entries: Option<seq<CompletionEntry>>, num: int) returns (n: int)
    requires ring.Valid() && (entries.Some? ==> num <= |entries.value|)
    modifies ring, ring.slots
    ensures ring.Valid()
    ensures if ProduceRefused(num, entries.Some?, ring.kind, ring.stride, old(ring.producer.reserved)) then
              n == -EINVAL && ring.Fifo() == old(ring.Fifo())
            else
              && n == Min(num, old(Free(ring.Fifo())))
              && ring.Published() == old(ring.Published()) + FirstOf(entries, n)
              && ring.producer.reserved == old(ring.producer.reserved)
              && old(ring.w.consumed) <= ring.w.consumed
  {
    hide Inv, MakeBatch;
    RoomIsNatural(ring);
    if num < 0 || (num > 0 && entries.None?) { return -EINVAL; }
    if num == 0 { return 0; }
    if ring.kind != KIND_COMPLETION || ring.stride != COMPLETION_STRIDE { return -EINVAL; }
    var status, batch := ring.ProducerReserve(num);
    if status == EAgain { return 0; }
    if status != Ok { return -EINVAL; }
    n := FillAndPublish(ring, batch, entries.value);
  }

  /** The client's proxy of a completion queue. */
  class CqProxy {
    var live: bool
    const completions: CompletionRing

    constructor (completions: CompletionRing)
      ensures live && this.completions == completions
    {
      live := true;
      this.completions := completions;
    }
  }

  /** One slot of an open peek, copied to `wc`; the producer runs on. */
  method CopyOne(ring: CompletionRing, slot: nat, wc: array<CompletionEntry>, output: nat, ghost batch: Batch)
    requires ring.Valid() && batch == ring.ConsumerBatch() && wc != ring.slots
    requires output < ring.consumer.peeked && output < wc.Length && SlotOf(batch, output) == slot
    modifies wc, ring.slots, ring`producer, ring`tail, ring`w
    ensures ring.Valid() && old(ring.Published()) <= ring.Published() && ring.Visible() == old(ring.Visible())
    ensures wc[..] == old(wc[..])[output := ring.Visible()[output]]
    ensures ring.w.consumed == old(ring.w.consumed) && ring.Delivered() == old(ring.Delivered())
  {
    hide Inv, SlotOf, MakeBatch, Reserved;
    wc[output] := ring.ReadSlot(slot, output);
    ring.ProducerRuns();
  }

  /** copy_span: the slots of one span, to `wc` at an advancing index. */
  method CopySpan(ring: CompletionRing, start: nat, count: nat, wc: array<CompletionEntry>, output: nat, ghost batch: Batch)
    returns (next: nat)
    requires ring.Valid() && batch == ring.ConsumerBatch() && wc != ring.slots && output + count <= ring.consumer.peeked && output + count <= wc.Length
    requires forall i :: output <= i < output + count ==> SlotOf(batch, i) == start + i - output
    requires wc[..output] == ring.Visible()[..output]
    modifies wc, ring.slots, ring`producer, ring`tail, ring`w
    ensures ring.Valid() && next == output + count && old(ring.Published()) <= ring.Published()
    ensures ring.Visible() == old(ring.Visible()) && wc[..next] == ring.Visible()[..next]
    ensures wc[next..] == old(wc[output + count..])
    ensures ring.w.consumed == old(ring.w.consumed) && ring.Delivered() == old(ring.Delivered())
  {
    assert ring.consumer.localIndex <= ring.capacity;
    hide Inv, SlotOf, MakeBatch, Reserved;
    next := output;
    for index := 0 to count
      invariant ring.Valid() && next == output + index && old(ring.Published()) <= ring.Published()
      invariant ring.Visible() == old(ring.Visible()) && wc[..next] == ring.Visible()[..next]
      invariant wc[output + count..] == old(wc[output + count..])
      invariant ring.w.consumed == old(ring.w.consumed) && ring.Delivered() == old(ring.Delivered())
    {
      assert batch == ring.ConsumerBatch() && SlotOf(batch, next) == start + index;
      CopyOne(ring, start + index, wc, next, batch);
      next := next + 1;
    }
  }

  /** The two spans of an open peek are read in order and released whole. */
  method DrainAndRelease(ring: CompletionRing, batch: Batch, wc: array<CompletionEntry>) returns (n: nat)
    requires ring.Valid() && wc != ring.slots && 0 < ring.consumer.peeked <= wc.Length && batch == ring.ConsumerBatch()
    modifies ring, ring.slots, wc
    ensures ring.Valid() && n == old(ring.consumer.peeked) && old(ring.Published()) <= ring.Published()
    ensures wc[..n] == old(ring.Visible()) && wc[n..] == old(wc[n..])
    ensures ring.Delivered() == old(ring.Delivered()) + wc[..n] && ring.w.consumed == old(ring.w.consumed) + n
  {
    hide Inv, SlotOf, MakeBatch;
    RoomIsNatural(ring);
    SpanSlots(batch);
    ring.ProducerRuns();
    var output := CopySpan(ring, batch.start, batch.first, wc, 0, batch);
    output := CopySpan(ring, 0, batch.second, wc, output, batch);
    n := output;
    var status := ring.ConsumerRelease(n);
    assert old(ring.Visible())[..n] == old(ring.Visible());
  }

  /** Whatever was read and released is a prefix of what was published. */
  lemma DeliveredIsPrefix(ring: CompletionRing)
    requires ring.Valid()
    ensures ring.Delivered() <= ring.Published() && |ring.Delivered()| == ring.w.consumed
  {
  }

  predicate PollRefused(cq: CqProxy?, registered: bool, live: bool, num: int, given: bool, peeked: nat) {
    cq == null || num < 0 || (0 < num && !given) || !registered || !live || (num != 0 && peeked != 0)
  }

  /**
    Hands over the oldest completions not yet polled, as many as asked for and
    present, in the order they were produced, each once.
   */
  method PollCq(cq: CqProxy?, registry: set<CqProxy>, num: int, wc: array?<CompletionEntry>) returns (n: int)
    requires cq != null ==> cq.completions.Valid() && wc != cq.completions.slots
    requires wc != null ==> num <= wc.Length
    modifies if cq == null then {} else {cq.completions, cq.completions.slots}, if wc == null then {} else {wc}
    ensures cq != null ==> cq.completions.Valid() && old(cq.completions.Published()) <= cq.completions.Published()
    ensures n == -EINVAL <==> PollRefused(cq, cq in registry, cq != null && cq.live, num, wc != null,
                                          if cq == null then 0 else old(cq.completions.consumer.peeked))
    ensures n == -EINVAL && cq != null ==> cq.completions.Fifo() == old(cq.completions.Fifo())
    ensures n != -EINVAL ==>
              var ring := cq.completions;
              && n == Min(num, old(Used(cq.completions.Fifo())))
              && ring.Delivered() == old(cq.completions.Delivered()) + (if wc == null then [] else wc[..n])
              && ring.Delivered() <= ring.Published() && |ring.Delivered()| == ring.w.consumed
              && (wc != null ==> wc[n..] == old(wc[..])[n..])
  {
    if cq == null || num < 0 || (num > 0 && wc == null) { return -EINVAL; }
    if cq !in registry { return -EINVAL; }
    if !cq.live { return -EINVAL; }
    DeliveredIsPrefix(cq.completions);
    if num == 0 { return 0; }
    var ring := cq.completions;
    hide Inv, MakeBatch;
    RoomIsNatural(ring);
    var status, batch := ring.ConsumerPeek(num);
    if status == EAgain { return 0; }
    if status != Ok { return -EINVAL; }
    n := DrainAndRelease(ring, batch, wc);
    DeliveredIsPrefix(ring);
  }
}
