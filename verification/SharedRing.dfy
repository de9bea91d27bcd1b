/**
  The ring as an object whose calls update it in place
  (src/queue/shared_ring.cpp), each call proved to take the FIFO's step.  The
  two *Runs methods stand for the other side working at any time: methods that
  use the ring call them between their own steps.
 */
module SharedRing {
  import opened RingSteps
  import opened RingFifo

  const KIND_SEND: nat := 1
  const KIND_RECEIVE: nat := 2
  const KIND_COMPLETION: nat := 3

  class SharedRing<T(0)> {
    const kind: nat
    const stride: nat
    const capacity: nat
    const slots: array<T>
    var tail: nat
    var head: nat
    var producer: Producer
    var consumer: Consumer
    ghost var w: World<T>   // the ring's value and history

    constructor (kind: nat, stride: nat, slots: array<T>)
      requires 0 < slots.Length <= MAX_CAPACITY
      ensures Valid() && Published() == [] && Delivered() == []
      ensures this.kind == kind && this.stride == stride && this.slots == slots
    {
      this.kind, this.stride, this.slots, capacity := kind, stride, slots, slots.Length;
      tail, head := 0, 0;
      producer, consumer := Producer(0, 0, 0, 0, false), Consumer(0, 0, 0, 0, false);
      w := Initial(slots.Length, slots[..]);
    }

    ghost predicate Valid()
      reads this, slots
    {
      && slots.Length == capacity
      && w.r == Ring(capacity, slots[..], tail, head, producer, consumer)
      && Inv(w)
    }

    ghost function Fifo(): Fifo<T> reads this { Abstract(w) }

    ghost function Published(): seq<T> reads this { w.published }

    ghost function Delivered(): seq<T> reads this { w.delivered }

    /** The batch that was handed out for the open reservation. */
    ghost function ProducerBatch(): Batch
      requires producer.localIndex <= capacity
      reads this
    {
      MakeBatch(capacity, producer.localIndex, producer.reserved)
    }

    ghost function ConsumerBatch(): Batch
      requires consumer.localIndex <= capacity
      reads this
    {
      MakeBatch(capacity, consumer.localIndex, consumer.peeked)
    }

    /** The reserved entries as they stand in the slots. */
    ghost function Pending(): (s: seq<T>)
      requires Valid()
      reads this, slots
      ensures |s| == producer.reserved
    {
      Reserved(w.r, w.r.p.reserved)
    }

    lemma SlotInside(i: nat)
      requires Valid() && i < producer.reserved
      ensures SlotOf(ProducerBatch(), i) < slots.Length
    {
      SpansCoverDistinctSlots(capacity, producer.localIndex, producer.reserved);
    }

    /** The entries under the open peek. */
    ghost function Visible(): (s: seq<T>)
      requires Valid()
      reads this, slots
      ensures |s| == consumer.peeked
    {
      w.published[w.consumed..w.consumed + w.r.c.peeked]
    }

    // ----- producer

    /** The loads of a first call. */
    method ProducerFirstCall()
      requires Valid()
      modifies this`producer, this`w
      ensures Valid() && producer.initialized && Fifo() == old(Fifo()) && Delivered() == old(Delivered())
    {
      if !producer.initialized {
        FirstLoadsKeepInv(w, ProducerFirst);
        producer := producer.(localTail := tail, cachedHead := head, localIndex := SlotAt(capacity, tail), initialized := true);
        w := Step(w, ProducerFirst);
      }
    }

    method ProducerReserve(max: nat) returns (status: Status, batch: Batch)
      requires Valid()
      modifies this`producer, this`w
      ensures Valid()
      ensures (Fifo(), status) == FifoReserve(old(Fifo()), max) && Delivered() == old(Delivered())
      ensures status == Ok ==> batch == ProducerBatch()
    {
      if max == 0 || producer.reserved != 0 { return EInval, NoBatch; }
      hide Inv, Sub64, SlotOf, SlotAt, FifoReserve;
      ProducerFirstCall();
      ReserveKeepsInv(w, max);
      ReserveIsFifo(w, max);
      ghost var granted := Reserve(w.r, max);
      w := Step(w, TryReserve(max));
      var used := Sub64(producer.localTail, producer.cachedHead);
      if used > capacity { return EProto, NoBatch; }
      var available := capacity - used;
      if available < max {
        producer := producer.(cachedHead := head);
        used := Sub64(producer.localTail, producer.cachedHead);
        if used > capacity { return EProto, NoBatch; }
        available := capacity - used;
      }
      if available == 0 { return EAgain, NoBatch; }
      var count := Min(max, available);
      batch := MakeBatch(capacity, producer.localIndex, count);
      producer := producer.(reserved := count);
      status := Ok;
      assert granted.r == Ring(capacity, slots[..], tail, head, producer, consumer);
    }

    /** Write one reserved entry, by its slot. */
    method WriteSlot(slot: nat, v: T, ghost i: nat)
      requires Valid() && i < producer.reserved && slot == SlotOf(ProducerBatch(), i)
      modifies slots, this`w
      ensures Valid() && Pending() == old(Pending())[i := v] && Fifo() == old(Fifo()) && Delivered() == old(Delivered())
      ensures slot < slots.Length && slots[..] == old(slots[..])[slot := v]
    {
      hide SlotAt, Wrap64, Reserved, ProducerOk, ConsumerOk, Contents;
      WriteKeepsInv(w, i, v);
      WriteUpdates(w, i, v);
      SlotInside(i);
      w := Step(w, WriteEntry(i, v));
      slots[slot] := v;
    }

    method ProducerPublish(count: nat) returns (status: Status)
      requires Valid()
      modifies this`producer, this`tail, this`w
      ensures Valid()
      ensures status == if old(producer.reserved) == 0 || count > old(producer.reserved) then EInval else Ok
      ensures Delivered() == old(Delivered()) && (status != Ok ==> Fifo() == old(Fifo()))
      ensures status == Ok ==> (Fifo(), status) == FifoPublish(old(Fifo()), old(Pending())[..count])
    {
      hide Inv, Step, Reserved, NextIndex, Wrap64, SlotAt;
      if producer.reserved == 0 || count > producer.reserved { return EInval; }
      PublishKeepsInv(w, count);
      PublishedState(w, count);
      w := Step(w, TryPublish(count));
      if count != 0 {
        producer := producer.(localTail := Wrap64(producer.localTail + count),
                              localIndex := NextIndex(capacity, producer.localIndex, count));
        tail := producer.localTail;
      }
      producer := producer.(reserved := 0);
      status := Ok;
    }

    // ----- consumer

    /** The loads of a first call. */
    method ConsumerFirstCall()
      requires Valid()
      modifies this`consumer, this`w
      ensures Valid() && consumer.initialized && Fifo() == old(Fifo()) && Delivered() == old(Delivered())
    {
      if !consumer.initialized {
        FirstLoadsKeepInv(w, ConsumerFirst);
        consumer := consumer.(localHead := head, cachedTail := tail, localIndex := SlotAt(capacity, head), initialized := true);
        w := Step(w, ConsumerFirst);
      }
    }

    method ConsumerPeek(max: nat) returns (status: Status, batch: Batch)
      requires Valid()
      modifies this`consumer, this`w
      ensures Valid()
      ensures (Fifo(), status) == FifoPeek(old(Fifo()), max) && Delivered() == old(Delivered())
      ensures status == Ok ==> batch == ConsumerBatch()
    {
      if max == 0 || consumer.peeked != 0 { return EInval, NoBatch; }
      hide Inv, Sub64, SlotOf, SlotAt, FifoPeek;
      ConsumerFirstCall();
      PeekKeepsInv(w, max);
      PeekIsFifo(w, max);
      ghost var granted := Peek(w.r, max);
      w := Step(w, TryPeek(max));
      var available := Sub64(consumer.cachedTail, consumer.localHead);
      if available > capacity { return EProto, NoBatch; }
      if available < max {
        consumer := consumer.(cachedTail := tail);
        available := Sub64(consumer.cachedTail, consumer.localHead);
        if available > capacity { return EProto, NoBatch; }
      }
      if available == 0 { return EAgain, NoBatch; }
      var count := Min(max, available);
      batch := MakeBatch(capacity, consumer.localIndex, count);
      consumer := consumer.(peeked := count);
      status := Ok;
      assert granted.r == Ring(capacity, slots[..], tail, head, producer, consumer);
    }

    /** Read one peeked entry, by its slot: it is the entry published in that position. */
    method ReadSlot(slot: nat, ghost i: nat) returns (v: T)
      requires Valid() && i < consumer.peeked && slot == SlotOf(ConsumerBatch(), i)
      ensures v == Visible()[i]
    {
      hide SlotAt, Wrap64;
      PeekedArePublished(w, consumer.peeked);
      SpansCoverDistinctSlots(capacity, consumer.localIndex, consumer.peeked);
      v := slots[slot];
      assert v == Peeked(w.r, consumer.peeked)[i];
    }

    method ConsumerRelease(count: nat) returns (status: Status)
      requires Valid()
      modifies this`consumer, this`head, this`w
      ensures Valid()
      ensures (Fifo(), status) == FifoRelease(old(Fifo()), count)
      ensures status != Ok ==> Delivered() == old(Delivered())
      ensures status == Ok ==> count <= |old(Visible())| && Delivered() == old(Delivered()) + old(Visible())[..count]
    {
      hide Inv, Step, NextIndex, Wrap64, SlotAt;
      if consumer.peeked == 0 || count > consumer.peeked { return EInval; }
      ReleaseKeepsInv(w, count);
      ReleasedState(w, count);
      w := Step(w, TryRelease(count));
      if count != 0 {
        consumer := consumer.(localHead := Wrap64(consumer.localHead + count),
                              localIndex := NextIndex(capacity, consumer.localIndex, count));
        head := consumer.localHead;
      }
      consumer := consumer.(peeked := 0);
      status := Ok;
    }

    // ----- the other side

    /** Any number of consumer calls: the producer's side of the ring stays as it is. */
    method ConsumerRuns()
      requires Valid()
      modifies this`consumer, this`head, this`w
      ensures Valid() && Published() == old(Published()) && Pending() == old(Pending())
      ensures old(w.consumed) <= w.consumed
    {
      hide Inv, SlotOf, MakeBatch;
      var n: int := *;
      while 0 < n
        invariant Valid() && Published() == old(Published()) && Pending() == old(Pending())
        invariant old(w.consumed) <= w.consumed
      {
        n := n - 1;
        var k: int := *;
        var m := if k < 0 then 0 else k;
        var status;
        if * {
          var batch;
          status, batch := ConsumerPeek(m);
        } else {
          status := ConsumerRelease(m);
        }
      }
    }

    /** Any one producer call or write. */
    method ProducerActs()
      requires Valid()
      modifies this`producer, this`tail, this`w, slots
      ensures Valid() && old(Published()) <= Published()
      ensures w.consumed == old(w.consumed) && w.r.c == old(w.r.c) && Delivered() == old(Delivered())
    {
      hide ProducerOk, ConsumerOk, Contents, MakeBatch;
      var k: int := *;
      var m := if k < 0 then 0 else k;
      var status;
      if * {
        var batch;
        status, batch := ProducerReserve(m);
      } else if * {
        status := ProducerPublish(m);
      } else if m < producer.reserved {
        var v: T := *;
        WriteSlot(SlotOf(MakeBatch(capacity, producer.localIndex, producer.reserved), m), v, m);
      }
    }

    /** Any number of producer calls and writes: the consumer's side of the ring stays as it is. */
    method ProducerRuns()
      requires Valid()
      modifies this`producer, this`tail, this`w, slots
      ensures Valid() && old(Published()) <= Published() && Visible() == old(Visible())
      ensures w.consumed == old(w.consumed) && Delivered() == old(Delivered())
    {
      ghost var end := w.consumed + w.r.c.peeked;
      assert end <= |Published()|;
      hide Inv;
      var n: int := *;
      while 0 < n
        invariant Valid() && old(Published()) <= Published()
        invariant w.consumed == old(w.consumed) && w.r.c == old(w.r.c) && Delivered() == old(Delivered())
      {
        n := n - 1;
        ProducerActs();
      }
      assert Published()[w.consumed..end] == old(Published())[w.consumed..end];
    }
  }
}
