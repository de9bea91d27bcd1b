/**
  Every run of the ring, under every interleaving of the two sides, is a run of
  a bounded FIFO: same answers, same order, nothing lost or duplicated.
 */
module RingFifo {
  import opened Common
  import opened RingSteps

  /** The abstract object: entries ever published, how many were released, and the two open grants. */
  datatype Fifo<T> = Fifo(capacity: nat, published: seq<T>, consumed: nat, reserved: nat, peeked: nat)

  /**
    A ring with its history.  `seenHead` and `seenTail` are the counts the stale
    caches stand for; `delivered` is what the consumer read from the slots it
    released.
   */
  datatype World<T> = World(
    r: Ring<T>, published: seq<T>, consumed: nat, seenHead: nat, seenTail: nat, delivered: seq<T>)

  function Abstract<T>(w: World<T>): Fifo<T> {
    Fifo(w.r.capacity, w.published, w.consumed, w.r.p.reserved, w.r.c.peeked)
  }

  function Free<T>(f: Fifo<T>): int { f.capacity - (|f.published| - f.consumed) }

  function Used<T>(f: Fifo<T>): int { |f.published| - f.consumed }

  // ----- the invariant

  ghost predicate ProducerOk<T>(w: World<T>)
    requires 0 < w.r.capacity
  {
    var p := w.r.p;
    if !p.initialized then w.published == [] && p.reserved == 0 && p.localIndex == 0
    else
      && p.localTail == Wrap64(|w.published|)
      && p.localIndex == SlotAt(w.r.capacity, |w.published|)
      && w.seenHead <= w.consumed && p.cachedHead == Wrap64(w.seenHead)
      && |w.published| + p.reserved <= w.seenHead + w.r.capacity
  }

  ghost predicate ConsumerOk<T>(w: World<T>)
    requires 0 < w.r.capacity
  {
    var c := w.r.c;
    if !c.initialized then w.consumed == 0 && c.peeked == 0 && c.localIndex == 0
    else
      && c.localHead == Wrap64(w.consumed)
      && c.localIndex == SlotAt(w.r.capacity, w.consumed)
      && w.seenTail <= |w.published| && c.cachedTail == Wrap64(w.seenTail)
      && w.consumed + c.peeked <= w.seenTail
  }

  ghost predicate Contents<T>(w: World<T>)
    requires 0 < w.r.capacity == |w.r.slots|
  {
    && w.consumed <= |w.published| <= w.consumed + w.r.capacity
    && w.delivered == w.published[..w.consumed]
    && (forall k :: w.consumed <= k < |w.published| ==> w.r.slots[SlotAt(w.r.capacity, k)] == w.published[k])
  }

  ghost predicate Inv<T>(w: World<T>) {
    && Shaped(w.r) && w.r.capacity <= MAX_CAPACITY
    && w.r.tail == Wrap64(|w.published|) && w.r.head == Wrap64(w.consumed)
    && ProducerOk(w) && ConsumerOk(w) && Contents(w)
  }

  // ----- runs

  datatype Action<T> =
    | ProducerFirst            // first-call loads of the producer
    | TryReserve(max: nat)
    | WriteEntry(i: nat, v: T)
    | TryPublish(count: nat)
    | ConsumerFirst            // first-call loads of the consumer
    | TryPeek(max: nat)
    | TryRelease(count: nat)

  /** A write stays inside the open reservation; every other call may be made at any time. */
  predicate Enabled<T>(w: World<T>, a: Action<T>) {
    match a
    case ProducerFirst => !w.r.p.initialized
    case TryReserve(_) => w.r.p.initialized
    case WriteEntry(i, _) => i < w.r.p.reserved <= w.r.capacity
    case TryPublish(_) => w.r.p.reserved <= w.r.capacity
    case ConsumerFirst => !w.r.c.initialized
    case TryPeek(_) => w.r.c.initialized
    case TryRelease(_) => w.r.c.peeked <= w.r.capacity
  }

  /** Entries 0..n of the open reservation, as they stand in the slots. */
  function Reserved<T>(r: Ring<T>, n: nat): seq<T>
    requires Shaped(r) && n <= r.p.reserved <= r.capacity
  {
    seq(n, i requires 0 <= i < n => r.slots[SlotOf(MakeBatch(r.capacity, r.p.localIndex, r.p.reserved), i)])
  }

  /** Entries 0..n of the open peek, as they stand in the slots. */
  function Peeked<T>(r: Ring<T>, n: nat): seq<T>
    requires Shaped(r) && n <= r.c.peeked <= r.capacity
  {
    seq(n, i requires 0 <= i < n => Read(r, i))
  }

  function Step<T>(w: World<T>, a: Action<T>): World<T>
    requires Shaped(w.r) && Enabled(w, a)
  {
    match a
    case ProducerFirst => w.(r := ProducerLoad(w.r), seenHead := w.consumed)
    case TryReserve(max) =>
      var g := Reserve(w.r, max);
      w.(r := g.r, seenHead := if g.r.p.cachedHead != w.r.p.cachedHead then w.consumed else w.seenHead)
    case WriteEntry(i, v) => w.(r := Write(w.r, i, v))
    case TryPublish(count) =>
      var (r, status) := Publish(w.r, count);
      w.(r := r, published := if status == Ok then w.published + Reserved(w.r, count) else w.published)
    case ConsumerFirst => w.(r := ConsumerLoad(w.r), seenTail := |w.published|)
    case TryPeek(max) =>
      var g := Peek(w.r, max);
      w.(r := g.r, seenTail := if g.r.c.cachedTail != w.r.c.cachedTail then |w.published| else w.seenTail)
    case TryRelease(count) =>
      var (r, status) := Release(w.r, count);
      if status == Ok
      then w.(r := r, consumed := w.consumed + count, delivered := w.delivered + Peeked(w.r, count))
      else w.(r := r)
  }

  function InitialRing<T>(capacity: nat, slots: seq<T>): Ring<T> {
    Ring(capacity, slots, 0, 0, Producer(0, 0, 0, 0, false), Consumer(0, 0, 0, 0, false))
  }

  function Initial<T>(capacity: nat, slots: seq<T>): World<T> {
    World(InitialRing(capacity, slots), [], 0, 0, 0, [])
  }

  // ----- every step keeps the invariant

  /** Before a reserve, the cached occupancy is exact for what the cache has seen. */
  lemma ProducerDistance<T>(w: World<T>)
    requires Inv(w) && w.r.p.initialized
    ensures Sub64(w.r.p.localTail, w.r.p.cachedHead) == |w.published| - w.seenHead <= w.r.capacity
    ensures Sub64(w.r.p.localTail, w.r.head) == |w.published| - w.consumed <= w.r.capacity
  {
    WrappedDistance(|w.published|, w.seenHead);
    WrappedDistance(|w.published|, w.consumed);
  }

  lemma ConsumerDistance<T>(w: World<T>)
    requires Inv(w) && w.r.c.initialized
    ensures Sub64(w.r.c.cachedTail, w.r.c.localHead) == w.seenTail - w.consumed <= w.r.capacity
    ensures Sub64(w.r.tail, w.r.c.localHead) == |w.published| - w.consumed <= w.r.capacity
  {
    WrappedDistance(w.seenTail, w.consumed);
    WrappedDistance(|w.published|, w.consumed);
  }

  lemma FirstLoadsKeepInv<T>(w: World<T>, a: Action<T>)
    requires Inv(w) && Enabled(w, a) && (a.ProducerFirst? || a.ConsumerFirst?)
    ensures Inv(Step(w, a))
  {
    ModUnique(0, TWO_64, 0, 0);
    ModUnique(0, w.r.capacity, 0, 0);
  }

  lemma ReserveKeepsInv<T>(w: World<T>, max: nat)
    requires Inv(w) && w.r.p.initialized
    ensures Inv(Step(w, TryReserve(max)))
  {
    hide Wrap64, SlotAt, Sub64;
    ProducerDistance(w);
  }

  lemma PeekKeepsInv<T>(w: World<T>, max: nat)
    requires Inv(w) && w.r.c.initialized
    ensures Inv(Step(w, TryPeek(max)))
  {
    hide Wrap64, SlotAt, Sub64;
    ConsumerDistance(w);
  }

  /** The slot a write touches is the slot of no published, unreleased entry. */
  lemma WriteMissesUnreleased<T>(w: World<T>, i: nat, k: nat)
    requires Inv(w) && i < w.r.p.reserved <= w.r.capacity && w.consumed <= k < |w.published|
    ensures SlotOf(MakeBatch(w.r.capacity, w.r.p.localIndex, w.r.p.reserved), i)
            == SlotAt(w.r.capacity, |w.published| + i) != SlotAt(w.r.capacity, k)
  {
    hide Wrap64, SlotAt;
    BatchSlots(w.r.capacity, |w.published|, w.r.p.reserved, i);
    SlotsDiffer(k, |w.published| + i, w.r.capacity);
  }

  lemma WriteKeepsInv<T>(w: World<T>, i: nat, v: T)
    requires Inv(w) && i < w.r.p.reserved
    ensures Shaped(w.r) && Enabled(w, WriteEntry(i, v)) && Inv(Step(w, WriteEntry(i, v)))
  {
    hide Wrap64, SlotAt;
    var w' := Step(w, WriteEntry(i, v));
    forall k | w.consumed <= k < |w.published| ensures w'.r.slots[SlotAt(w.r.capacity, k)] == w.published[k] {
      WriteMissesUnreleased(w, i, k);
    }
  }

  lemma ReservedAreNext<T>(w: World<T>, n: nat, i: nat)
    requires Inv(w) && i < n <= w.r.p.reserved <= w.r.capacity
    ensures Reserved(w.r, n)[i] == w.r.slots[SlotAt(w.r.capacity, |w.published| + i)]
  {
    hide Wrap64, SlotAt;
    BatchSlots(w.r.capacity, |w.published|, w.r.p.reserved, i);
  }

  /** What the consumer reads under an open peek is what was published. */
  lemma PeekedArePublished<T>(w: World<T>, n: nat)
    requires Inv(w) && n <= w.r.c.peeked
    ensures n <= w.r.capacity && w.consumed + n <= |w.published|
    ensures Peeked(w.r, n) == w.published[w.consumed..w.consumed + n]
  {
    hide Wrap64, SlotAt;
    forall i | 0 <= i < n ensures Read(w.r, i) == w.published[w.consumed + i] {
      BatchSlots(w.r.capacity, w.consumed, w.r.c.peeked, i);
    }
  }

  lemma PublishKeepsInv<T>(w: World<T>, count: nat)
    requires Inv(w)
    ensures Shaped(w.r) && Enabled(w, TryPublish(count)) && Inv(Step(w, TryPublish(count)))
  {
    hide Wrap64, SlotAt, NextIndex;
    if w.r.p.reserved != 0 && count <= w.r.p.reserved {
      WrapAdd(|w.published|, count);
      IndexFollowsCount(w.r.capacity, |w.published|, count);
      PublishContents(w, count);
      hide Contents, Reserved;
    }
  }

  lemma PublishContents<T>(w: World<T>, count: nat)
    requires Inv(w) && w.r.p.reserved != 0 && count <= w.r.p.reserved
    ensures Enabled(w, TryPublish(count)) && Contents(Step(w, TryPublish(count)))
  {
    hide Wrap64, SlotAt, NextIndex;
    var w', n := Step(w, TryPublish(count)), |w.published|;
    forall k | w'.consumed <= k < |w'.published| ensures w'.r.slots[SlotAt(w.r.capacity, k)] == w'.published[k] {
      if n <= k { ReservedAreNext(w, count, k - n); }
    }
    assert w'.published[..w.consumed] == w.published[..w.consumed];
  }

  lemma WrapAdd(n: nat, count: nat)
    ensures Wrap64(Wrap64(n) + count) == Wrap64(n + count)
  {
    var q := n / TWO_64;
    assert n == q * TWO_64 + n % TWO_64;
    var m := n % TWO_64 + count;
    assert n + count == (q + m / TWO_64) * TWO_64 + m % TWO_64;
    ModUnique(n + count, TWO_64, q + m / TWO_64, m % TWO_64);
  }

  lemma ReleaseKeepsInv<T>(w: World<T>, count: nat)
    requires Inv(w)
    ensures Shaped(w.r) && Enabled(w, TryRelease(count)) && Inv(Step(w, TryRelease(count)))
  {
    hide Wrap64, SlotAt, NextIndex;
    if w.r.c.peeked != 0 && count <= w.r.c.peeked {
      var w' := Step(w, TryRelease(count));
      WrapAdd(w.consumed, count);
      IndexFollowsCount(w.r.capacity, w.consumed, count);
      PeekedArePublished(w, count);
      assert w.published[..w.consumed] + w.published[w.consumed..w.consumed + count] == w.published[..w.consumed + count];
    }
  }

  lemma StepKeepsInv<T>(w: World<T>, a: Action<T>)
    requires Inv(w) && Enabled(w, a)
    ensures Inv(Step(w, a))
  {
    hide Inv, Step;
    match a
    case ProducerFirst => FirstLoadsKeepInv(w, a);
    case TryReserve(max) => ReserveKeepsInv(w, max);
    case WriteEntry(i, v) => WriteKeepsInv(w, i, v);
    case TryPublish(count) => PublishKeepsInv(w, count);
    case ConsumerFirst => FirstLoadsKeepInv(w, a);
    case TryPeek(max) => PeekKeepsInv(w, max);
    case TryRelease(count) => ReleaseKeepsInv(w, count);
  }

  ghost predicate IsRun<T(!new)>(ws: seq<World<T>>, actions: seq<Action<T>>) {
    && |ws| == |actions| + 1
    && (exists slots :: 0 < |slots| <= MAX_CAPACITY && ws[0] == Initial(|slots|, slots))
    && (forall t :: 0 <= t < |actions| ==>
          Shaped(ws[t].r) && Enabled(ws[t], actions[t]) && ws[t + 1] == Step(ws[t], actions[t]))
  }

  lemma InitialInv<T>(capacity: nat, slots: seq<T>)
    requires 0 < capacity <= MAX_CAPACITY && |slots| == capacity
    ensures Inv(Initial(capacity, slots))
  {
  }

  lemma {:induction false} RunKeepsInv<T(!new)>(ws: seq<World<T>>, actions: seq<Action<T>>, t: nat)
    requires IsRun(ws, actions) && t < |ws|
    ensures Inv(ws[t])
  {
    hide Inv, Step, Initial, Enabled;
    if t == 0 {
      var slots :| 0 < |slots| <= MAX_CAPACITY && ws[0] == Initial(|slots|, slots);
      InitialInv(|slots|, slots);
    } else {
      RunKeepsInv(ws, actions, t - 1);
      assert ws[t - 1 + 1] == Step(ws[t - 1], actions[t - 1]);
      StepKeepsInv(ws[t - 1], actions[t - 1]);
    }
  }

  ghost predicate Reachable<T(!new)>(w: World<T>) {
    exists ws: seq<World<T>>, actions, t :: 0 <= t < |ws| && IsRun(ws, actions) && ws[t] == w
  }

  lemma ReachableInv<T(!new)>(w: World<T>)
    requires Reachable(w)
    ensures Inv(w)
  {
    hide IsRun, Inv;
    var ws: seq<World<T>>, actions, t :| 0 <= t < |ws| && IsRun(ws, actions) && ws[t] == w;
    RunKeepsInv(ws, actions, t);
  }

  /** A write changes that one entry of the reservation. */
  lemma WriteUpdates<T>(w: World<T>, i: nat, v: T)
    requires Inv(w) && i < w.r.p.reserved
    ensures Enabled(w, WriteEntry(i, v)) && Shaped(Step(w, WriteEntry(i, v)).r)
    ensures Reserved(Step(w, WriteEntry(i, v)).r, w.r.p.reserved) == Reserved(w.r, w.r.p.reserved)[i := v]
  {
    hide Wrap64, SlotAt;
    SpansCoverDistinctSlots(w.r.capacity, w.r.p.localIndex, w.r.p.reserved);
  }

  /** The state after a successful publish, field by field. */
  lemma PublishedState<T>(w: World<T>, count: nat)
    requires Inv(w) && w.r.p.reserved != 0 && count <= w.r.p.reserved
    ensures Shaped(w.r) && Enabled(w, TryPublish(count))
    ensures var tail := if count == 0 then w.r.p.localTail else Wrap64(w.r.p.localTail + count);
            var index := if count == 0 then w.r.p.localIndex else NextIndex(w.r.capacity, w.r.p.localIndex, count);
            Step(w, TryPublish(count))
            == w.(r := w.r.(tail := if count == 0 then w.r.tail else tail,
                            p := w.r.p.(localTail := tail, localIndex := index, reserved := 0)),
                  published := w.published + Reserved(w.r, w.r.p.reserved)[..count])
  {
    hide Wrap64, SlotAt, NextIndex;
    assert Reserved(w.r, w.r.p.reserved)[..count] == Reserved(w.r, count);
  }

  /** The state after a successful release, field by field. */
  lemma ReleasedState<T>(w: World<T>, count: nat)
    requires Inv(w) && w.r.c.peeked != 0 && count <= w.r.c.peeked
    ensures Shaped(w.r) && Enabled(w, TryRelease(count)) && w.consumed + w.r.c.peeked <= |w.published|
    ensures var head := if count == 0 then w.r.c.localHead else Wrap64(w.r.c.localHead + count);
            var index := if count == 0 then w.r.c.localIndex else NextIndex(w.r.capacity, w.r.c.localIndex, count);
            Step(w, TryRelease(count))
            == w.(r := w.r.(head := if count == 0 then w.r.head else head,
                            c := w.r.c.(localHead := head, localIndex := index, peeked := 0)),
                  consumed := w.consumed + count,
                  delivered := w.delivered + w.published[w.consumed..w.consumed + w.r.c.peeked][..count])
  {
    hide Wrap64, SlotAt, NextIndex;
    PeekedArePublished(w, count);
    assert w.published[w.consumed..w.consumed + w.r.c.peeked][..count] == w.published[w.consumed..w.consumed + count];
  }

  // ----- the FIFO it refines

  function FifoReserve<T>(f: Fifo<T>, max: nat): (Fifo<T>, Status) {
    if max == 0 || f.reserved != 0 then (f, EInval)
    else if Free(f) <= 0 then (f, EAgain)
    else (f.(reserved := Min(max, Free(f))), Ok)
  }

  /** Publish these entries, the first of an open reservation; none cancels it. */
  function FifoPublish<T>(f: Fifo<T>, entries: seq<T>): (Fifo<T>, Status) {
    if f.reserved == 0 || |entries| > f.reserved then (f, EInval)
    else (f.(published := f.published + entries, reserved := 0), Ok)
  }

  function FifoPeek<T>(f: Fifo<T>, max: nat): (Fifo<T>, Status) {
    if max == 0 || f.peeked != 0 then (f, EInval)
    else if Used(f) <= 0 then (f, EAgain)
    else (f.(peeked := Min(max, Used(f))), Ok)
  }

  function FifoRelease<T>(f: Fifo<T>, count: nat): (Fifo<T>, Status) {
    if f.peeked == 0 || count > f.peeked then (f, EInval)
    else (f.(consumed := f.consumed + count, peeked := 0), Ok)
  }

  /**
    Linearizability: in every reachable state each call of the ring gives the
    status and takes the step of the bounded FIFO, in spite of the stale caches;
    in particular EPROTO is never returned, EAGAIN means truly full or truly
    empty, and a grant is as large as the true occupancy allows.
   */
  lemma ReserveIsFifo<T>(w: World<T>, max: nat)
    requires Inv(w) && w.r.p.initialized
    ensures var g := Reserve(w.r, max);
            && (Abstract(Step(w, TryReserve(max))), g.status) == FifoReserve(Abstract(w), max)
            && (g.status == Ok ==>
                  && g.batch.first + g.batch.second == Min(max, Free(Abstract(w)))
                  && (forall i :: 0 <= i < g.batch.first + g.batch.second ==>
                        SlotOf(g.batch, i) == SlotAt(w.r.capacity, |w.published| + i)))
  {
    hide Wrap64, SlotAt, Sub64;
    ProducerDistance(w);
    var g := Reserve(w.r, max);
    if g.status == Ok {
      forall i | 0 <= i < g.batch.first + g.batch.second ensures SlotOf(g.batch, i) == SlotAt(w.r.capacity, |w.published| + i) {
        BatchSlots(w.r.capacity, |w.published|, g.batch.first + g.batch.second, i);
      }
    }
  }

  lemma PublishIsFifo<T>(w: World<T>, count: nat)
    requires Inv(w)
    ensures Enabled(w, TryPublish(count))
    ensures Publish(w.r, count).1 == Ok ==>
              (Abstract(Step(w, TryPublish(count))), Ok) == FifoPublish(Abstract(w), Reserved(w.r, count))
    ensures Publish(w.r, count).1 != Ok ==>
              && Publish(w.r, count).1 == EInval && Step(w, TryPublish(count)) == w
              && (w.r.p.reserved == 0 || count > w.r.p.reserved)
  {
    hide Wrap64, SlotAt;
  }

  lemma PeekIsFifo<T>(w: World<T>, max: nat)
    requires Inv(w) && w.r.c.initialized
    ensures var g := Peek(w.r, max); var w' := Step(w, TryPeek(max));
            && (Abstract(w'), g.status) == FifoPeek(Abstract(w), max)
            && (g.status == Ok ==>
                  var n := g.batch.first + g.batch.second;
                  && n == Min(max, Used(Abstract(w))) == w'.r.c.peeked
                  && (forall i :: 0 <= i < n ==>
                        && SlotOf(g.batch, i) < w.r.capacity
                        && w.r.slots[SlotOf(g.batch, i)] == w.published[w.consumed + i]))
  {
    hide Wrap64, SlotAt, Sub64;
    ConsumerDistance(w);
    var g := Peek(w.r, max);
    if g.status == Ok {
      var n := g.batch.first + g.batch.second;
      forall i | 0 <= i < n
        ensures SlotOf(g.batch, i) < w.r.capacity && w.r.slots[SlotOf(g.batch, i)] == w.published[w.consumed + i]
      {
        BatchSlots(w.r.capacity, w.consumed, n, i);
      }
    }
  }

  lemma ReleaseIsFifo<T>(w: World<T>, count: nat)
    requires Inv(w)
    ensures Enabled(w, TryRelease(count))
    ensures (Abstract(Step(w, TryRelease(count))), Release(w.r, count).1) == FifoRelease(Abstract(w), count)
  {
    hide Wrap64, SlotAt;
  }

  /**
    FIFO delivery over every run: what the consumer read and released is a
    prefix of what the producer published, at most a ring's capacity behind;
    reserved slots hold no unreleased entry; and everything under an open peek
    reads as it was published.
   */
  lemma RingDeliversInOrder<T(!new)>(w: World<T>)
    requires Reachable(w)
    ensures |w.delivered| == w.consumed <= |w.published| && w.delivered == w.published[..|w.delivered|]
    ensures |w.published| - w.consumed <= w.r.capacity
    ensures Shaped(w.r) && w.r.c.peeked <= w.r.capacity && w.r.p.reserved <= w.r.capacity
    ensures w.consumed + w.r.c.peeked <= |w.published|
            && Peeked(w.r, w.r.c.peeked) == w.published[w.consumed..w.consumed + w.r.c.peeked]
    ensures forall i: nat, k: nat :: i < w.r.p.reserved && w.consumed <= k < |w.published| ==>
              SlotOf(MakeBatch(w.r.capacity, w.r.p.localIndex, w.r.p.reserved), i) != SlotAt(w.r.capacity, k)
  {
    hide Wrap64, SlotAt;
    ReachableInv(w);
    PeekedArePublished(w, w.r.c.peeked);
    forall i: nat, k: nat | i < w.r.p.reserved && w.consumed <= k < |w.published|
      ensures SlotOf(MakeBatch(w.r.capacity, w.r.p.localIndex, w.r.p.reserved), i) != SlotAt(w.r.capacity, k)
    {
      WriteMissesUnreleased(w, i, k);
    }
  }

  /** EPROTO is unreachable, and the kept indices are the counts modulo the capacity. */
  lemma RingNeverReportsEproto<T(!new)>(w: World<T>, max: nat)
    requires Reachable(w)
    ensures Shaped(w.r)
    ensures w.r.p.initialized ==> !Reserve(w.r, max).status.EProto? && w.r.p.localIndex == SlotAt(w.r.capacity, |w.published|)
    ensures w.r.c.initialized ==> !Peek(w.r, max).status.EProto? && w.r.c.localIndex == SlotAt(w.r.capacity, w.consumed)
  {
    ReachableInv(w);
    if w.r.p.initialized { ReserveIsFifo(w, max); }
    if w.r.c.initialized { PeekIsFifo(w, max); }
  }
}
