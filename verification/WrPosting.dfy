/**
  Posting a chain of work requests to a shared ring (src/api/wr_posting.cpp),
  with the consumer running at any time.
 */
module WrPosting {
  import opened Common
  import opened Bytes
  import opened RingSteps
  import opened RingFifo
  import opened SharedRing
  import opened Descriptors
  import WorkerTypes

  const SEND_SIGNALED: nat := 2

  /** A posted request: the SGE list is an array the caller passes by pointer and length. */
  datatype SendWr = SendWr(
    wrId: U64, numSge: int, sgList: Option<seq<SharedSge>>, opcode: U32, sendFlags: U32, immData: U32,
    remoteAddress: U64, rkey: U32)

  datatype ReceiveWr = ReceiveWr(wrId: U64, numSge: int, sgList: Option<seq<SharedSge>>)

  /** The caller's array has as many elements as it says, and the count fits an int. */
  predicate ListGiven(numSge: int, sgList: Option<seq<SharedSge>>) {
    numSge < 0x8000_0000 && (sgList.Some? ==> numSge <= |sgList.value|)
  }

  /** A request the API promises to take: at most maxSge SGEs, and a list when there are any. */
  predicate ValidSgeList(numSge: int, sgList: Option<seq<SharedSge>>, maxSge: nat) {
    0 <= numSge <= maxSge && (numSge == 0 || sgList.Some?)
  }

  /** A write with or without immediate, signaled or not. */
  predicate ValidSend(wr: SendWr, maxSge: nat) {
    (wr.opcode == 0 || wr.opcode == 1) && (wr.sendFlags == 0 || wr.sendFlags == 2) && ValidSgeList(wr.numSge, wr.sgList, maxSge)
  }

  predicate ValidReceive(wr: ReceiveWr, maxSge: nat) { ValidSgeList(wr.numSge, wr.sgList, maxSge) }

  method CheckSgeList(numSge: int, sgList: Option<seq<SharedSge>>, maxSge: nat) returns (ok: bool)
    ensures ok <==> ValidSgeList(numSge, sgList, maxSge)
  {
    if numSge < 0 || numSge > maxSge { return false; }
    return numSge == 0 || sgList.Some?;
  }

  /** valid_send_wr: no flag other than the signaled bit. */
  method CheckSend(wr: SendWr, maxSge: nat) returns (ok: bool)
    ensures ok <==> ValidSend(wr, maxSge)
  {
    if wr.opcode != WorkerTypes.WR_RDMA_WRITE && wr.opcode != WorkerTypes.WR_RDMA_WRITE_WITH_IMM { return false; }
    var signaled := wr.sendFlags / SEND_SIGNALED % 2;
    if wr.sendFlags - SEND_SIGNALED * signaled != 0 { return false; }
    ok := CheckSgeList(wr.numSge, wr.sgList, maxSge);
  }

  function SgesOf(numSge: int, sgList: Option<seq<SharedSge>>): (r: seq<SharedSge>)
    requires 0 <= numSge && ListGiven(numSge, sgList) && (numSge == 0 || sgList.Some?)
    ensures |r| == numSge
  {
    if numSge == 0 then [] else sgList.value[..numSge]
  }

  function SendHeaderOf(wr: SendWr): SendHeader
    requires 0 <= wr.numSge < 0x8000_0000
  {
    SendHeader(wr.wrId, wr.remoteAddress, wr.rkey, wr.opcode, wr.sendFlags,
               if wr.opcode == WorkerTypes.WR_RDMA_WRITE_WITH_IMM then wr.immData else 0, wr.numSge)
  }

  /** The slot's SGE array, `header` bytes in, is the request's list, entry by entry. */
  predicate CarriesSges(slot: Slot, header: nat, numSge: int, sgList: Option<seq<SharedSge>>) {
    && 0 <= numSge && header + 16 * numSge <= |slot|
    && (0 < numSge ==> sgList.Some? && numSge <= |sgList.value|)
    && forall i :: 0 <= i < numSge ==>
         && Field(slot, header + 16 * i, 8) == sgList.value[i].address
         && Field(slot, header + 16 * i + 8, 4) == sgList.value[i].length
         && Field(slot, header + 16 * i + 12, 4) == sgList.value[i].lkey
  }

  lemma SgeAt(slot: Slot, header: nat, numSge: int, sgList: Option<seq<SharedSge>>, i: nat)
    requires CarriesSges(slot, header, numSge, sgList) && i < numSge
    ensures sgList.Some? && i < |sgList.value|
    ensures Field(slot, header + 16 * i, 8) == sgList.value[i].address
    ensures Field(slot, header + 16 * i + 8, 4) == sgList.value[i].length
    ensures Field(slot, header + 16 * i + 12, 4) == sgList.value[i].lkey
  {
    hide Field;
  }

  /** The slot's bytes are this request, field by field; the immediate only of a write with immediate. */
  predicate Carries(slot: Slot, wr: SendWr) {
    && 40 <= |slot|
    && Field(slot, 0, 8) == wr.wrId && Field(slot, 8, 8) == wr.remoteAddress && Field(slot, 16, 4) == wr.rkey
    && Field(slot, 20, 4) == wr.opcode && Field(slot, 24, 4) == wr.sendFlags
    && Field(slot, 28, 4) == (if wr.opcode == 1 then wr.immData else 0)
    && Field(slot, 32, 4) == wr.numSge && Field(slot, 36, 4) == 0
    && CarriesSges(slot, 40, wr.numSge, wr.sgList)
  }

  predicate CarriesReceive(slot: Slot, wr: ReceiveWr) {
    && 16 <= |slot|
    && Field(slot, 0, 8) == wr.wrId && Field(slot, 8, 4) == wr.numSge && Field(slot, 12, 4) == 0
    && CarriesSges(slot, 16, wr.numSge, wr.sgList)
  }

  lemma SgesCarried(slot: Slot, header: nat, numSge: int, sgList: Option<seq<SharedSge>>)
    requires 0 <= numSge && ListGiven(numSge, sgList) && (numSge == 0 || sgList.Some?) && header + 16 * numSge <= |slot|
    requires forall i :: 0 <= i < numSge ==>
               ReadSge(slot, header + SGE_BYTES * i)
               == (SgesOf(numSge, sgList)[i].address, SgesOf(numSge, sgList)[i].length, SgesOf(numSge, sgList)[i].lkey)
    ensures CarriesSges(slot, header, numSge, sgList)
  {
    hide Field;
    forall i | 0 <= i < numSge
      ensures && Field(slot, header + 16 * i, 8) == sgList.value[i].address
              && Field(slot, header + 16 * i + 8, 4) == sgList.value[i].length
              && Field(slot, header + 16 * i + 12, 4) == sgList.value[i].lkey
    {
      assert ReadSge(slot, header + SGE_BYTES * i)
          == (SgesOf(numSge, sgList)[i].address, SgesOf(numSge, sgList)[i].length, SgesOf(numSge, sgList)[i].lkey);
    }
  }

  /** The SGE loop of both encoders: entry after entry behind the header. */
  method EncodeSges(slot: Slot, header: nat, list: seq<SharedSge>) returns (r: Slot)
    requires header + SGE_BYTES * |list| <= |slot|
    ensures |r| == |slot| && r[..header] == slot[..header]
    ensures r[header..header + SGE_BYTES * |list|] == SgeListBytes(list)
    ensures r[header + SGE_BYTES * |list|..] == slot[header + SGE_BYTES * |list|..]
  {
    r := slot;
    for index := 0 to |list|
      invariant |r| == |slot| && r[..header] == slot[..header]
      invariant r[header..header + SGE_BYTES * index] == SgeListBytes(list[..index])
      invariant r[header + SGE_BYTES * index..] == slot[header + SGE_BYTES * index..]
    {
      var at := header + SGE_BYTES * index;
      ghost var before := r;
      r := r[..at] + SgeBytes(list[index]) + r[at + SGE_BYTES..];
      assert list[..index + 1][..index] == list[..index];
      assert r[header..at] == before[header..at];
      assert r[header..at + SGE_BYTES] == r[header..at] + SgeBytes(list[index]);
      assert r[at + SGE_BYTES..] == before[at..][SGE_BYTES..];
    }
    assert list[..|list|] == list;
  }

  /** A header and a tail written one after the other are one overwrite. */
  lemma Assembled(slot: Slot, head: seq<Byte>, body: seq<Byte>, r: Slot)
    requires |head| + |body| <= |slot| == |r|
    requires r[..|head|] == (head + slot[|head|..])[..|head|]
    requires r[|head|..|head| + |body|] == body
    requires r[|head| + |body|..] == (head + slot[|head|..])[|head| + |body|..]
    ensures r == Overwrite(slot, head + body)
  {
    assert (head + slot[|head|..])[..|head|] == head;
    assert (head + slot[|head|..])[|head| + |body|..] == slot[|head| + |body|..];
    assert r == r[..|head|] + r[|head|..|head| + |body|] + r[|head| + |body|..];
  }

  lemma SendHeld(slot: Slot, wr: SendWr)
    requires 0 <= wr.numSge && ListGiven(wr.numSge, wr.sgList) && (wr.numSge == 0 || wr.sgList.Some?)
    requires HoldsSend(slot, SendHeaderOf(wr), SgesOf(wr.numSge, wr.sgList))
    ensures Carries(slot, wr)
  {
    hide Field, CarriesSges;
    SgesCarried(slot, SEND_HEADER, wr.numSge, wr.sgList);
  }

  lemma ReceiveHeld(slot: Slot, wr: ReceiveWr)
    requires 0 <= wr.numSge && ListGiven(wr.numSge, wr.sgList) && (wr.numSge == 0 || wr.sgList.Some?)
    requires HoldsReceive(slot, ReceiveHeader(wr.wrId, wr.numSge), SgesOf(wr.numSge, wr.sgList))
    ensures CarriesReceive(slot, wr)
  {
    hide Field, CarriesSges;
    SgesCarried(slot, RECEIVE_HEADER, wr.numSge, wr.sgList);
  }

  method EncodeSend(slot: Slot, wr: SendWr) returns (r: Slot)
    requires 0 <= wr.numSge && ListGiven(wr.numSge, wr.sgList) && (wr.numSge == 0 || wr.sgList.Some?)
    requires SEND_HEADER + SGE_BYTES * wr.numSge <= |slot|
    ensures |r| == |slot| && Carries(r, wr)
  {
    var h, list := SendHeaderOf(wr), SgesOf(wr.numSge, wr.sgList);
    hide HoldsSend, HoldsReceive, SendHeaderBytes, ReceiveHeaderBytes, SgeListBytes, Overwrite;
    SendSlotRoundTrip(slot, h, list);
    r := SendHeaderBytes(h) + slot[SEND_HEADER..];
    r := EncodeSges(r, SEND_HEADER, list);
    Assembled(slot, SendHeaderBytes(h), SgeListBytes(list), r);
    SendHeld(r, wr);
  }

  method EncodeReceive(slot: Slot, wr: ReceiveWr) returns (r: Slot)
    requires 0 <= wr.numSge && ListGiven(wr.numSge, wr.sgList) && (wr.numSge == 0 || wr.sgList.Some?)
    requires RECEIVE_HEADER + SGE_BYTES * wr.numSge <= |slot|
    ensures |r| == |slot| && CarriesReceive(r, wr)
  {
    var h, list := ReceiveHeader(wr.wrId, wr.numSge), SgesOf(wr.numSge, wr.sgList);
    hide HoldsSend, HoldsReceive, SendHeaderBytes, ReceiveHeaderBytes, SgeListBytes, Overwrite;
    ReceiveSlotRoundTrip(slot, h, list);
    r := ReceiveHeaderBytes(h) + slot[RECEIVE_HEADER..];
    r := EncodeSges(r, RECEIVE_HEADER, list);
    Assembled(slot, ReceiveHeaderBytes(h), SgeListBytes(list), r);
    ReceiveHeld(r, wr);
  }

  // ----- chains

  /** The bytes of one ring slot. */
  datatype RingSlot = RingSlot(bytes: Slot)

  datatype Wr = Send(send: SendWr) | Receive(receive: ReceiveWr)

  predicate WrGiven(wr: Wr) {
    match wr
    case Send(s) => ListGiven(s.numSge, s.sgList)
    case Receive(r) => ListGiven(r.numSge, r.sgList)
  }

  predicate ValidWr(wr: Wr, maxSge: nat) {
    match wr
    case Send(s) => ValidSend(s, maxSge)
    case Receive(r) => ValidReceive(r, maxSge)
  }

  method Check(wr: Wr, maxSge: nat) returns (ok: bool)
    ensures ok <==> ValidWr(wr, maxSge)
  {
    match wr
    case Send(s) => ok := CheckSend(s, maxSge);
    case Receive(r) => ok := CheckSgeList(r.numSge, r.sgList, maxSge);
  }

  /** The slot decodes to this request. */
  predicate SlotCarries(slot: RingSlot, wr: Wr) {
    match wr
    case Send(s) => Carries(slot.bytes, s)
    case Receive(r) => CarriesReceive(slot.bytes, r)
  }

  function HeaderBytes(wr: Wr): nat { if wr.Send? then SEND_HEADER else RECEIVE_HEADER }

  /** The entry fits a slot of this many bytes. */
  predicate WrFits(wr: Wr, maxSge: nat, stride: nat) {
    WrGiven(wr) && HeaderBytes(wr) + SGE_BYTES * maxSge <= stride
  }

  predicate AllCarry(slots: seq<RingSlot>, wrs: seq<Wr>) {
    |slots| == |wrs| && forall i :: 0 <= i < |wrs| ==> SlotCarries(slots[i], wrs[i])
  }

  method Encode(slot: RingSlot, wr: Wr, maxSge: nat) returns (r: RingSlot)
    requires WrFits(wr, maxSge, |slot.bytes|) && ValidWr(wr, maxSge)
    ensures |r.bytes| == |slot.bytes| && SlotCarries(r, wr)
  {
    var bytes;
    match wr
    case Send(s) =>
      bytes := EncodeSend(slot.bytes, s);
      return RingSlot(bytes);
    case Receive(w) =>
      bytes := EncodeReceive(slot.bytes, w);
      return RingSlot(bytes);
  }

  type WqeRing = SharedRing<RingSlot>

  /** Every slot has the ring's stride. */
  ghost predicate Sized(ring: WqeRing)
    reads ring.slots
  {
    forall k :: 0 <= k < ring.slots.Length ==> |ring.slots[k].bytes| == ring.stride
  }

  predicate ChainFits(chain: seq<Wr>, maxSge: nat, stride: nat) {
    forall k :: 0 <= k < |chain| ==> WrFits(chain[k], maxSge, stride)
  }

  lemma FitsAt(chain: seq<Wr>, maxSge: nat, stride: nat, k: nat)
    requires ChainFits(chain, maxSge, stride) && k < |chain|
    ensures WrFits(chain[k], maxSge, stride)
  {
  }

  /** Encode one valid request into the next reserved slot. */
  method FillOne(ring: WqeRing, slot: nat, wr: Wr, maxSge: nat, accepted: nat, ghost done: seq<Wr>) returns (next: nat)
    requires ring.Valid() && Sized(ring) && WrFits(wr, maxSge, ring.stride) && ValidWr(wr, maxSge)
    requires accepted < ring.producer.reserved && slot == SlotOf(ring.ProducerBatch(), accepted)
    requires AllCarry(ring.Pending()[..accepted], done)
    modifies ring.slots, ring`consumer, ring`head, ring`w
    ensures ring.Valid() && Sized(ring)
    ensures ring.Published() == old(ring.Published()) && old(ring.w.consumed) <= ring.w.consumed
    ensures next == accepted + 1 && AllCarry(ring.Pending()[..next], done + [wr])
  {
    hide Inv, SlotOf, MakeBatch, Reserved, SlotCarries, ValidWr, WrFits;
    ring.SlotInside(accepted);
    var bytes := Encode(ring.slots[slot], wr, maxSge);
    ring.WriteSlot(slot, bytes, accepted);
    ring.ConsumerRuns();
    next := accepted + 1;
    ghost var pending := ring.Pending();
    assert pending[..next] == old(ring.Pending())[..accepted] + [bytes];
  }

  predicate ValidUpTo(chain: seq<Wr>, maxSge: nat, lo: nat, hi: nat) {
    lo <= hi <= |chain| && forall k :: lo <= k < hi ==> ValidWr(chain[k], maxSge)
  }

  lemma ChainNext(chain: seq<Wr>, maxSge: nat, lo: nat, base: nat, hi: nat)
    requires base <= hi < |chain| && ValidUpTo(chain, maxSge, lo, hi) && ValidWr(chain[hi], maxSge)
    ensures chain[base..hi] + [chain[hi]] == chain[base..hi + 1] && ValidUpTo(chain, maxSge, lo, hi + 1)
  {
  }

  /** fill_span: encode requests into one span until the span, the chain or the valid requests end. */
  method FillSpan(ring: WqeRing, start: nat, count: nat, chain: seq<Wr>, maxSge: nat, base: nat, accepted: nat,
                  ghost batch: Batch)
    returns (ok: bool, next: nat)
    requires ring.Valid() && Sized(ring) && ChainFits(chain, maxSge, ring.stride) && batch == ring.ProducerBatch()
    requires accepted <= ring.producer.reserved && base + accepted <= |chain|
    requires base + accepted < |chain| ==>
               && accepted + count <= ring.producer.reserved
               && forall i :: accepted <= i < accepted + count ==> SlotOf(batch, i) == start + i - accepted
    requires AllCarry(ring.Pending()[..accepted], chain[base..base + accepted])
    requires ValidUpTo(chain, maxSge, base, base + accepted)
    modifies ring.slots, ring`consumer, ring`head, ring`w
    ensures ring.Valid() && Sized(ring)
    ensures ring.Published() == old(ring.Published()) && old(ring.w.consumed) <= ring.w.consumed
    ensures accepted <= next <= accepted + count && base + next <= |chain| && next <= ring.producer.reserved
    ensures AllCarry(ring.Pending()[..next], chain[base..base + next]) && ValidUpTo(chain, maxSge, base, base + next)
    ensures ok ==> next == accepted + count || base + next == |chain|
    ensures !ok ==> next < accepted + count && base + next < |chain| && !ValidWr(chain[base + next], maxSge)
  {
    assert ring.producer.localIndex <= ring.capacity;
    hide Inv, SlotOf, MakeBatch, Reserved, ValidWr, AllCarry, Sized, WrFits, ValidUpTo, ChainFits;
    next := accepted;
    var index := 0;
    while index < count && base + next < |chain|
      invariant ring.Valid() && Sized(ring)
      invariant ring.Published() == old(ring.Published()) && old(ring.w.consumed) <= ring.w.consumed
      invariant next == accepted + index && index <= count && base + next <= |chain| && next <= ring.producer.reserved
      invariant AllCarry(ring.Pending()[..next], chain[base..base + next]) && ValidUpTo(chain, maxSge, base, base + next)
    {
      var current := chain[base + next];
      var valid := Check(current, maxSge);
      if !valid { return false, next; }
      assert batch == ring.ProducerBatch() && SlotOf(batch, next) == start + index;
      ghost var done := chain[base..base + next];
      ChainNext(chain, maxSge, base, base, base + next);
      FitsAt(chain, maxSge, ring.stride, base + next);
      next := FillOne(ring, start + index, current, maxSge, next, done);
      assert chain[base..base + next] == done + [current];
      index := index + 1;
    }
    return true, next;
  }

  lemma RingBounds(ring: WqeRing)
    requires ring.Valid()
    ensures 0 <= Free(ring.Fifo()) && 0 < ring.capacity && ring.producer.localIndex < ring.capacity
    ensures ring.producer.reserved <= ring.capacity
    ensures var b := ring.ProducerBatch();
            b.first + b.second == ring.producer.reserved && (0 < ring.producer.reserved ==> 0 < b.first)
    ensures ring.Pending()[..0] == []
  {
  }

  lemma NoneCarry(chain: seq<Wr>, maxSge: nat, base: nat)
    requires base <= |chain|
    ensures AllCarry([], chain[base..base]) && ValidUpTo(chain, maxSge, base, base)
  {
  }

  /** Both spans of a reservation, the second after the first. */
  method FillBatch(ring: WqeRing, batch: Batch, maxSge: nat, chain: seq<Wr>, base: nat) returns (ok: bool, accepted: nat)
    requires ring.Valid() && Sized(ring) && ChainFits(chain, maxSge, ring.stride) && base < |chain|
    requires 0 < ring.producer.reserved && batch == ring.ProducerBatch()
    modifies ring.slots, ring`consumer, ring`head, ring`w
    ensures ring.Valid() && Sized(ring)
    ensures ring.Published() == old(ring.Published()) && old(ring.w.consumed) <= ring.w.consumed
    ensures accepted <= ring.producer.reserved && base + accepted <= |chain|
    ensures AllCarry(ring.Pending()[..accepted], chain[base..base + accepted])
    ensures ValidUpTo(chain, maxSge, base, base + accepted)
    ensures ok ==> 0 < accepted
    ensures !ok ==> base + accepted < |chain| && !ValidWr(chain[base + accepted], maxSge)
  {
    hide Inv, SlotOf, MakeBatch, Reserved, ValidWr, AllCarry, Sized, ChainFits, ValidUpTo;
    RingBounds(ring);
    SpanSlots(batch);
    NoneCarry(chain, maxSge, base);
    ok, accepted := FillSpan(ring, batch.start, batch.first, chain, maxSge, base, 0, batch);
    if ok {
      ok, accepted := FillSpan(ring, 0, batch.second, chain, maxSge, base, accepted, batch);
    }
  }

  /** One turn of the loop of post_chain: reserve, fill, publish what was accepted. */
  method PostBatch(ring: WqeRing, maxSge: nat, chain: seq<Wr>, base: nat) returns (status: int, accepted: nat)
    requires ring.Valid() && Sized(ring) && ChainFits(chain, maxSge, ring.stride) && base < |chain|
    modifies ring, ring.slots
    ensures ring.Valid() && Sized(ring) && base + accepted <= |chain|
    ensures old(ring.w.consumed) <= ring.w.consumed && ring.producer.reserved == old(ring.producer.reserved)
    ensures old(ring.Published()) <= ring.Published()
    ensures AllCarry(ring.Published()[|old(ring.Published())|..], chain[base..base + accepted])
    ensures ValidUpTo(chain, maxSge, base, base + accepted)
    ensures status == ENOMEM <==> old(ring.producer.reserved) == 0 && old(Free(ring.Fifo())) == 0
    ensures status == 0 ==> 0 < accepted
    ensures status == ENOMEM ==> accepted == 0
    ensures status != 0 && status != ENOMEM ==>
              && status == EINVAL && base + accepted < |chain|
              && (old(ring.producer.reserved) != 0 || !ValidWr(chain[base + accepted], maxSge))
  {
    hide Inv, SlotOf, MakeBatch, Reserved, ValidWr, AllCarry, Sized, ChainFits, ValidUpTo;
    RingBounds(ring);
    NoneCarry(chain, maxSge, base);
    var reserve, batch := ring.ProducerReserve(ring.capacity);
    if reserve != Ok {
      assert ring.Published()[|old(ring.Published())|..] == [];
      return if reserve == EAgain then ENOMEM else EINVAL, 0;
    }
    ring.ConsumerRuns();
    var ok;
    ok, accepted := FillBatch(ring, batch, maxSge, chain, base);
    ghost var slots := ring.Pending()[..accepted];
    var publish := ring.ProducerPublish(accepted);
    assert ring.Published()[|old(ring.Published())|..] == slots;
    status := if ok then 0 else EINVAL;
  }

  /** `after` is `before` plus, slot for slot, the encodings of the first n requests, all of them valid. */
  predicate PostedPrefix(before: seq<RingSlot>, after: seq<RingSlot>, chain: seq<Wr>, maxSge: nat, n: nat) {
    && before <= after && |after| == |before| + n && n <= |chain|
    && AllCarry(after[|before|..], chain[..n]) && ValidUpTo(chain, maxSge, 0, n)
  }

  lemma PostedNone(before: seq<RingSlot>, chain: seq<Wr>, maxSge: nat)
    ensures PostedPrefix(before, before, chain, maxSge, 0)
  {
  }

  lemma PostedMore(a: seq<RingSlot>, b: seq<RingSlot>, c: seq<RingSlot>, chain: seq<Wr>, maxSge: nat, n: nat, k: nat)
    requires PostedPrefix(a, b, chain, maxSge, n) && b <= c && n + k <= |chain|
    requires AllCarry(c[|b|..], chain[n..n + k]) && ValidUpTo(chain, maxSge, n, n + k)
    ensures PostedPrefix(a, c, chain, maxSge, n + k) && |c| == |a| + n + k
  {
    hide SlotCarries, ValidWr;
    assert c[|a|..] == b[|a|..] + c[|b|..];
    assert chain[..n + k] == chain[..n] + chain[n..n + k];
  }

  /**
    Publishes the encodings of a prefix of the chain, and stops at the first
    request that is invalid (EINVAL) or finds the ring full (ENOMEM).  On 0 the
    whole chain was published.  `posted` counts the requests before bad_wr.
   */
  method PostChain(ring: WqeRing, maxSge: nat, chain: seq<Wr>, wantsBadWr: bool) returns (status: int, posted: nat)
    requires ring.Valid() && Sized(ring) && ChainFits(chain, maxSge, ring.stride)
    modifies ring, ring.slots
    ensures ring.Valid() && Sized(ring)
    ensures PostedPrefix(old(ring.Published()), ring.Published(), chain, maxSge, posted)
    ensures chain == [] || !wantsBadWr ==> status == EINVAL && posted == 0
    ensures chain != [] && wantsBadWr ==>
              || (status == 0 && posted == |chain|)
              || (status == ENOMEM && posted < |chain| && old(Free(ring.Fifo())) <= posted)
              || (status == EINVAL && posted < |chain|
                  && (old(ring.producer.reserved) != 0 || !ValidWr(chain[posted], maxSge)))
  {
    hide Inv, ValidWr, AllCarry, Sized, ChainFits, ValidUpTo, PostedPrefix;
    PostedNone(ring.Published(), chain, maxSge);
    posted := 0;
    if chain == [] || !wantsBadWr { return EINVAL, 0; }
    while posted < |chain|
      invariant ring.Valid() && Sized(ring) && posted <= |chain|
      invariant old(ring.w.consumed) <= ring.w.consumed && ring.producer.reserved == old(ring.producer.reserved)
      invariant PostedPrefix(old(ring.Published()), ring.Published(), chain, maxSge, posted)
    {
      ghost var before := ring.Published();
      var accepted;
      status, accepted := PostBatch(ring, maxSge, chain, posted);
      PostedMore(old(ring.Published()), before, ring.Published(), chain, maxSge, posted, accepted);
      posted := posted + accepted;
      if status != 0 { return; }
    }
    status := 0;
  }
}
