/**
  The shared single-producer single-consumer ring (src/queue/shared_ring.cpp) as
  a step system.  Producer and consumer keep private copies of their own 64-bit
  position, an incrementally kept slot index and a stale cache of the other
  side's position; steps of the two sides interleave freely.  RingFifo.dfy
  proves that every run behaves like a bounded FIFO.
 */
module RingSteps {
  import opened Common

  const MAX_CAPACITY: nat := 0x8000_0000

  datatype Status = Ok | EInval | EAgain | EProto

  /** The slots handed out by a reserve or peek: `first` from `start`, then `second` from slot 0. */
  datatype Batch = Batch(start: nat, first: nat, second: nat)

  datatype Producer = Producer(localTail: nat, cachedHead: nat, localIndex: nat, reserved: nat, initialized: bool)

  datatype Consumer = Consumer(localHead: nat, cachedTail: nat, localIndex: nat, peeked: nat, initialized: bool)

  datatype Ring<T> = Ring(capacity: nat, slots: seq<T>, tail: nat, head: nat, p: Producer, c: Consumer)

  predicate Shaped<T>(r: Ring<T>) {
    && 0 < r.capacity < TWO_32 && |r.slots| == r.capacity
    && r.p.localIndex < r.capacity && r.c.localIndex < r.capacity
  }

  function Min(a: nat, b: nat): nat { if a < b then a else b }

  /** A count as a 64-bit position. */
  function Wrap64(n: int): nat { n % TWO_64 }

  /** 64-bit subtraction. */
  function Sub64(a: nat, b: nat): nat { Wrap64(a - b) }

  /** The slot of count n. */
  function SlotAt(capacity: nat, n: nat): (k: nat)
    requires 0 < capacity
    ensures k < capacity
  {
    n % capacity
  }

  /** The index update of publish and release, in 32-bit arithmetic. */
  function NextIndex(capacity: nat, index: nat, count: nat): nat
    requires capacity < TWO_32
  {
    var sum := (index + count) % TWO_32;
    if sum >= capacity then sum - capacity else sum
  }

  function MakeBatch(capacity: nat, start: nat, count: nat): Batch
    requires start <= capacity
  {
    var first := Min(count, capacity - start);
    Batch(start, first, count - first)
  }

  /** The slot of entry i of a batch. */
  function SlotOf(b: Batch, i: nat): nat { if i < b.first then b.start + i else i - b.first }

  lemma SpanSlots(b: Batch)
    ensures forall i :: 0 <= i < b.first ==> SlotOf(b, i) == b.start + i
    ensures forall i :: b.first <= i < b.first + b.second ==> SlotOf(b, i) == i - b.first
  {
  }

  // ----- producer steps

  /** The first-call block of producer_reserve. */
  function ProducerLoad<T>(r: Ring<T>): Ring<T>
    requires Shaped(r)
  {
    r.(p := r.p.(localTail := r.tail, cachedHead := r.head, localIndex := SlotAt(r.capacity, r.tail), initialized := true))
  }

  datatype Granted<T> = Granted(r: Ring<T>, status: Status, batch: Batch)

  const NoBatch := Batch(0, 0, 0)

  /** producer_reserve on an initialised producer: at most one load of the shared head. */
  function Reserve<T>(r: Ring<T>, max: nat): Granted<T>
    requires Shaped(r)
  {
    if max == 0 || r.p.reserved != 0 then Granted(r, EInval, NoBatch)
    else if Sub64(r.p.localTail, r.p.cachedHead) > r.capacity then Granted(r, EProto, NoBatch)
    else if r.capacity - Sub64(r.p.localTail, r.p.cachedHead) >= max then GrantReserve(r, max)
    else
      var r' := r.(p := r.p.(cachedHead := r.head));
      if Sub64(r'.p.localTail, r'.p.cachedHead) > r.capacity then Granted(r', EProto, NoBatch)
      else if Sub64(r'.p.localTail, r'.p.cachedHead) == r.capacity then Granted(r', EAgain, NoBatch)
      else GrantReserve(r', Min(max, r.capacity - Sub64(r'.p.localTail, r'.p.cachedHead)))
  }

  function GrantReserve<T>(r: Ring<T>, count: nat): Granted<T>
    requires Shaped(r)
  {
    Granted(r.(p := r.p.(reserved := count)), Ok, MakeBatch(r.capacity, r.p.localIndex, count))
  }

  /** The producer writes entry i of its reservation. */
  function Write<T>(r: Ring<T>, i: nat, v: T): Ring<T>
    requires Shaped(r) && i < r.p.reserved <= r.capacity
  {
    var k := SlotOf(MakeBatch(r.capacity, r.p.localIndex, r.p.reserved), i);
    r.(slots := r.slots[k := v])
  }

  function Publish<T>(r: Ring<T>, count: nat): (Ring<T>, Status)
    requires Shaped(r)
  {
    if r.p.reserved == 0 || count > r.p.reserved then (r, EInval)
    else if count == 0 then (r.(p := r.p.(reserved := 0)), Ok)
    else
      var tail := Wrap64(r.p.localTail + count);
      (r.(tail := tail,
          p := r.p.(localTail := tail, localIndex := NextIndex(r.capacity, r.p.localIndex, count), reserved := 0)), Ok)
  }

  // ----- consumer steps

  function ConsumerLoad<T>(r: Ring<T>): Ring<T>
    requires Shaped(r)
  {
    r.(c := r.c.(localHead := r.head, cachedTail := r.tail, localIndex := SlotAt(r.capacity, r.head), initialized := true))
  }

  /** consumer_peek on an initialised consumer: at most one load of the shared tail. */
  function Peek<T>(r: Ring<T>, max: nat): Granted<T>
    requires Shaped(r)
  {
    if max == 0 || r.c.peeked != 0 then Granted(r, EInval, NoBatch)
    else if Sub64(r.c.cachedTail, r.c.localHead) > r.capacity then Granted(r, EProto, NoBatch)
    else if Sub64(r.c.cachedTail, r.c.localHead) >= max then GrantPeek(r, max)
    else
      var r' := r.(c := r.c.(cachedTail := r.tail));
      if Sub64(r'.c.cachedTail, r'.c.localHead) > r.capacity then Granted(r', EProto, NoBatch)
      else if Sub64(r'.c.cachedTail, r'.c.localHead) == 0 then Granted(r', EAgain, NoBatch)
      else GrantPeek(r', Min(max, Sub64(r'.c.cachedTail, r'.c.localHead)))
  }

  function GrantPeek<T>(r: Ring<T>, count: nat): Granted<T>
    requires Shaped(r)
  {
    Granted(r.(c := r.c.(peeked := count)), Ok, MakeBatch(r.capacity, r.c.localIndex, count))
  }

  /** What the consumer reads in entry i of its peek. */
  function Read<T>(r: Ring<T>, i: nat): T
    requires Shaped(r) && i < r.c.peeked <= r.capacity
  {
    r.slots[SlotOf(MakeBatch(r.capacity, r.c.localIndex, r.c.peeked), i)]
  }

  function Release<T>(r: Ring<T>, count: nat): (Ring<T>, Status)
    requires Shaped(r)
  {
    if r.c.peeked == 0 || count > r.c.peeked then (r, EInval)
    else if count == 0 then (r.(c := r.c.(peeked := 0)), Ok)
    else
      var head := Wrap64(r.c.localHead + count);
      (r.(head := head,
          c := r.c.(localHead := head, localIndex := NextIndex(r.capacity, r.c.localIndex, count), peeked := 0)), Ok)
  }

  // ----- geometry

  lemma MulStrict(a: int, b: int, n: nat)
    requires a < b
    ensures a * n + n <= b * n
  {
    assert (b - a - 1) * n >= 0;
  }

  lemma ModUnique(x: nat, n: nat, q: nat, r: nat)
    requires 0 < n && x == q * n + r && r < n
    ensures x % n == r
  {
    assert x == (x / n) * n + x % n;
    if x / n < q { MulStrict(x / n, q, n); }
    if q < x / n { MulStrict(q, x / n, n); }
  }

  /** Adding at most one lap. */
  lemma ModStep(x: nat, n: nat, d: nat)
    requires 0 < n && d <= n
    ensures (x + d) % n == if x % n + d >= n then x % n + d - n else x % n + d
  {
    var q, r := x / n, x % n;
    assert x == q * n + r;
    if r + d >= n {
      assert x + d == (q + 1) * n + (r + d - n);
      ModUnique(x + d, n, q + 1, r + d - n);
    } else {
      ModUnique(x + d, n, q, r + d);
    }
  }

  /** Two counts less than a lap apart use different slots. */
  lemma SlotsDiffer(a: nat, b: nat, n: nat)
    requires 0 < n && a < b < a + n
    ensures SlotAt(n, a) != SlotAt(n, b)
  {
    ModStep(a, n, b - a);
  }

  /** 64-bit wrapped subtraction gives the true distance. */
  lemma WrappedDistance(a: nat, b: nat)
    requires b <= a < b + TWO_64
    ensures Sub64(Wrap64(a), Wrap64(b)) == a - b
  {
    var x, y := a % TWO_64, b % TWO_64;
    ModStep(b, TWO_64, a - b);
    if x < y { ModShift(x - y); }
  }

  lemma ModShift(d: int)
    requires d < 0 <= d + TWO_64
    ensures d % TWO_64 == d + TWO_64
  {
  }

  /** The incrementally kept index is the count modulo the capacity. */
  lemma IndexFollowsCount(capacity: nat, total: nat, count: nat)
    requires 0 < capacity <= MAX_CAPACITY && count <= capacity
    ensures NextIndex(capacity, SlotAt(capacity, total), count) == SlotAt(capacity, total + count)
  {
    ModStep(total, capacity, count);
  }

  /**
    The 32-bit index sum is exact for every index and count exactly when the
    capacity is at most 2^31; above that a full lap from the last slot lands in
    the wrong slot.
   */
  lemma IndexSumExact(capacity: nat)
    requires 0 < capacity < TWO_32
    ensures (forall index, count :: 0 <= index < capacity && 0 <= count <= capacity ==>
               NextIndex(capacity, index, count) == SlotAt(capacity, index + count))
            <==> capacity <= MAX_CAPACITY
  {
    if capacity <= MAX_CAPACITY {
      forall index, count | 0 <= index < capacity && 0 <= count <= capacity
        ensures NextIndex(capacity, index, count) == SlotAt(capacity, index + count)
      {
        ModUnique(index, capacity, 0, index);
        IndexFollowsCount(capacity, index, count);
      }
    } else {
      LapFromLastSlot(capacity);
    }
  }

  lemma LapFromLastSlot(capacity: nat)
    requires MAX_CAPACITY < capacity < TWO_32
    ensures NextIndex(capacity, capacity - 1, capacity) != SlotAt(capacity, capacity - 1 + capacity)
  {
    ModUnique(capacity - 1 + capacity, capacity, 1, capacity - 1);
    ModUnique(2 * capacity - 1, TWO_32, 1, 2 * capacity - 1 - TWO_32);
  }

  /** Entry i of a batch that starts at count `total` is the slot of count total + i. */
  lemma BatchSlots(capacity: nat, total: nat, count: nat, i: nat)
    requires 0 < capacity && i < count <= capacity
    ensures SlotOf(MakeBatch(capacity, SlotAt(capacity, total), count), i) == SlotAt(capacity, total + i)
  {
    ModStep(total, capacity, i);
  }

  /** The two spans hold exactly `count` slots, all different and inside the ring. */
  lemma SpansCoverDistinctSlots(capacity: nat, start: nat, count: nat)
    requires start < capacity && count <= capacity
    ensures var b := MakeBatch(capacity, start, count);
            && b.first + b.second == count && b.start + b.first <= capacity && b.second <= start
            && (forall i :: 0 <= i < count ==> SlotOf(b, i) < capacity)
            && (forall i, j :: 0 <= i < j < count ==> SlotOf(b, i) != SlotOf(b, j))
  {
  }

  // ----- mapping size

  const HEADER_BYTES: nat := 192
  const CACHE_LINE: nat := 64

  datatype Sized = Size(bytes: nat) | SizeInvalid | SizeOverflow

  predicate ValidDescriptor(kind: nat, capacity: nat, stride: nat) {
    1 <= kind <= 3 && capacity != 0 && stride != 0 && stride % CACHE_LINE == 0
  }

  /** shared_ring_mapping_size, with its overflow tests in 64-bit arithmetic. */
  function MappingSize(kind: nat, capacity: nat, stride: nat, page: nat): Sized {
    if page == 0 || !ValidDescriptor(kind, capacity, stride) then SizeInvalid
    else if capacity > (TWO_64 - 1 - HEADER_BYTES) / stride then SizeOverflow
    else
      var raw := HEADER_BYTES + capacity * stride;
      var remainder := raw % page;
      if remainder != 0 && raw > TWO_64 - 1 - (page - remainder) then SizeOverflow
      else if remainder == 0 then Size(raw) else Size(raw + page - remainder)
  }

  predicate IsPageCount(n: nat, page: nat) { page != 0 && n % page == 0 }

  /** Byte offset of slot k in the mapping. */
  function SlotOffset(stride: nat, k: nat): nat { HEADER_BYTES + k * stride }

  lemma QuotientBound(a: nat, b: nat, n: nat)
    requires 0 < n
    ensures a > b / n <==> a * n > b
  {
    assert b == (b / n) * n + b % n;
    if a > b / n { MulStrict(b / n, a, n); }
    if a < b / n { MulStrict(a, b / n, n); }
  }

  lemma RoundUp(raw: nat, page: nat)
    requires 0 < page
    ensures var up := if raw % page == 0 then raw else raw + page - raw % page;
            && up % page == 0 && raw <= up < raw + page
            && (forall n: nat :: IsPageCount(n, page) && raw <= n ==> up <= n)
  {
    var up := if raw % page == 0 then raw else raw + page - raw % page;
    var q := raw / page;
    assert raw == q * page + raw % page;
    if raw % page != 0 {
      assert up == (q + 1) * page + 0;
      ModUnique(up, page, q + 1, 0);
    }
    forall n: nat | IsPageCount(n, page) && raw <= n ensures up <= n {
      assert n == (n / page) * page;
      if n < up { 
        if n / page < q { MulStrict(n / page, q, page); }
        if n / page > q { MulStrict(q, n / page, page); }
      }
    }
  }

  /**
    The mapping is the least whole number of pages that holds the header and
    all slots; overflow is reported exactly when that does not fit in 64 bits.
    Slots do not overlap the header or each other and lie inside the mapping.
   */
  lemma MappingHoldsAllSlots(kind: nat, capacity: nat, stride: nat, page: nat)
    ensures var m := MappingSize(kind, capacity, stride, page);
            var raw := HEADER_BYTES + capacity * stride;
            && (m.SizeInvalid? <==> page == 0 || !ValidDescriptor(kind, capacity, stride))
            && (m.Size? ==>
                  && m.bytes < TWO_64 && IsPageCount(m.bytes, page) && raw <= m.bytes
                  && (forall n: nat :: IsPageCount(n, page) && raw <= n ==> m.bytes <= n)
                  && (forall k: nat :: k < capacity ==> HEADER_BYTES <= SlotOffset(stride, k)
                                                        && SlotOffset(stride, k) + stride <= m.bytes)
                  && (forall j: nat, k: nat :: j < k < capacity ==>
                        SlotOffset(stride, j) + stride <= SlotOffset(stride, k)))
            && (m.SizeOverflow? ==> forall n: nat :: IsPageCount(n, page) && raw <= n ==> TWO_64 <= n)
  {
    hide ValidDescriptor, IsPageCount, SlotOffset;
    var raw := HEADER_BYTES + capacity * stride;
    if page != 0 && ValidDescriptor(kind, capacity, stride) {
      PagesForRaw(kind, capacity, stride, page);
      SlotsInOrder(stride, capacity);
    }
  }

  /** The size is the least whole number of pages, or does not fit in 64 bits. */
  lemma PagesForRaw(kind: nat, capacity: nat, stride: nat, page: nat)
    requires page != 0 && ValidDescriptor(kind, capacity, stride)
    ensures var m := MappingSize(kind, capacity, stride, page);
            var raw := HEADER_BYTES + capacity * stride;
            && !m.SizeInvalid?
            && (m.Size? ==> m.bytes < TWO_64 && IsPageCount(m.bytes, page) && raw <= m.bytes
                            && forall n: nat :: IsPageCount(n, page) && raw <= n ==> m.bytes <= n)
            && (m.SizeOverflow? ==> forall n: nat :: IsPageCount(n, page) && raw <= n ==> TWO_64 <= n)
  {
    QuotientBound(capacity, TWO_64 - 1 - HEADER_BYTES, stride);
    RoundUp(HEADER_BYTES + capacity * stride, page);
  }

  lemma SlotsInOrder(stride: nat, capacity: nat)
    ensures forall k: nat :: k < capacity ==>
              HEADER_BYTES <= SlotOffset(stride, k) && SlotOffset(stride, k) + stride <= HEADER_BYTES + capacity * stride
    ensures forall j: nat, k: nat :: j < k < capacity ==> SlotOffset(stride, j) + stride <= SlotOffset(stride, k)
  {
    forall j: nat, k: nat | j < k <= capacity ensures SlotOffset(stride, j) + stride <= SlotOffset(stride, k) {
      MulStrict(j, k, stride);
    }
    assert SlotOffset(stride, capacity) == HEADER_BYTES + capacity * stride;
  }
}
