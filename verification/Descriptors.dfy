/**
  Work queue entries as bytes in a ring slot (src/queue/descriptors.hpp and the
  encoders of src/api/wr_posting.cpp), and the slot stride that has to hold them.
 */
module Descriptors {
  import opened Common
  import opened Bytes
  import opened RingSteps

  type Slot = seq<Byte>

  const SEND_HEADER: nat := 40
  const RECEIVE_HEADER: nat := 16
  const SGE_BYTES: nat := 16
  const SLOT_ALIGNMENT: nat := 64

  // ----- slot stride

  datatype Stride = Stride(bytes: nat) | StrideOverflow

  /**
    aligned_slot_stride.  The alignment mask ~63u has 32 bits and is extended
    with zeros, so the rounded size keeps only its low 32 bits.
   */
  function AlignedSlotStride(header: nat, maxSge: nat): Stride
    requires header < TWO_64
  {
    if maxSge > (TWO_64 - 1 - header) / SGE_BYTES then StrideOverflow
    else
      var raw := header + maxSge * SGE_BYTES;
      if raw > TWO_64 - 1 - (SLOT_ALIGNMENT - 1) then StrideOverflow
      else
        var aligned := (raw + SLOT_ALIGNMENT - 1) % TWO_32 / SLOT_ALIGNMENT * SLOT_ALIGNMENT;
        if aligned > TWO_32 - 1 then StrideOverflow else Stride(aligned)
  }

  /** The stride holds the header and all SGEs exactly when the unaligned size plus 63 fits in 32 bits. */
  lemma StrideHoldsEntry(header: nat, maxSge: U32)
    requires header <= SEND_HEADER
    ensures var s := AlignedSlotStride(header, maxSge); var raw := header + maxSge * SGE_BYTES;
            && s.Stride? && s.bytes % SLOT_ALIGNMENT == 0
            && (s.bytes >= raw <==> raw + SLOT_ALIGNMENT - 1 < TWO_32)
            && (s.bytes >= raw ==> s.bytes < raw + SLOT_ALIGNMENT)
  {
    var raw := header + maxSge * SGE_BYTES;
    var low := (raw + SLOT_ALIGNMENT - 1) % TWO_32;
    assert (low / SLOT_ALIGNMENT * SLOT_ALIGNMENT) % SLOT_ALIGNMENT == 0;
    if raw + SLOT_ALIGNMENT - 1 >= TWO_32 {
      assert low <= raw + SLOT_ALIGNMENT - 1 - TWO_32;
    }
  }

  /** A queue pair asking for 2^28 send SGEs gets slots of 64 bytes for entries of 4 GiB. */
  lemma StrideTooSmallExample()
    ensures AlignedSlotStride(SEND_HEADER, 0x1000_0000) == Stride(64)
    ensures SEND_HEADER + 0x1000_0000 * SGE_BYTES == TWO_32 + 40
  {
  }

  // ----- layouts

  datatype SharedSge = SharedSge(address: U64, length: U32, lkey: U32)

  datatype SendHeader = SendHeader(
    wrId: U64, remoteAddress: U64, rkey: U32, opcode: U32, sendFlags: U32, immediate: U32, sgeCount: U32)

  datatype ReceiveHeader = ReceiveHeader(wrId: U64, sgeCount: U32)

  function SgeBytes(e: SharedSge): (s: seq<Byte>)
    ensures |s| == SGE_BYTES
  {
    ToLE(8, e.address) + ToLE(4, e.length) + ToLE(4, e.lkey)
  }

  function SgeListBytes(list: seq<SharedSge>): (s: seq<Byte>)
    ensures |s| == SGE_BYTES * |list|
  {
    if list == [] then [] else SgeListBytes(list[..|list| - 1]) + SgeBytes(list[|list| - 1])
  }

  function SendHeaderBytes(h: SendHeader): (s: seq<Byte>)
    ensures |s| == SEND_HEADER
  {
    ToLE(8, h.wrId) + ToLE(8, h.remoteAddress) + ToLE(4, h.rkey) + ToLE(4, h.opcode) + ToLE(4, h.sendFlags)
    + ToLE(4, h.immediate) + ToLE(4, h.sgeCount) + ToLE(4, 0)
  }

  function ReceiveHeaderBytes(h: ReceiveHeader): (s: seq<Byte>)
    ensures |s| == RECEIVE_HEADER
  {
    ToLE(8, h.wrId) + ToLE(4, h.sgeCount) + ToLE(4, 0)
  }

  /** The n-byte integer at an offset of a slot. */
  function Field(slot: Slot, at: nat, n: nat): nat
    requires at + n <= |slot|
  {
    FromLE(slot[at..at + n])
  }

  /** What the worker reads back through the header structs. */
  function ReadSge(slot: Slot, at: nat): (nat, nat, nat)
    requires at + SGE_BYTES <= |slot|
  {
    (Field(slot, at, 8), Field(slot, at + 8, 4), Field(slot, at + 12, 4))
  }

  predicate HoldsSend(slot: Slot, h: SendHeader, list: seq<SharedSge>) {
    && h.sgeCount == |list| && SEND_HEADER + SGE_BYTES * |list| <= |slot|
    && Field(slot, 0, 8) == h.wrId && Field(slot, 8, 8) == h.remoteAddress && Field(slot, 16, 4) == h.rkey
    && Field(slot, 20, 4) == h.opcode && Field(slot, 24, 4) == h.sendFlags && Field(slot, 28, 4) == h.immediate
    && Field(slot, 32, 4) == h.sgeCount && Field(slot, 36, 4) == 0
    && (forall i :: 0 <= i < |list| ==>
          ReadSge(slot, SEND_HEADER + SGE_BYTES * i) == (list[i].address, list[i].length, list[i].lkey))
  }

  predicate HoldsReceive(slot: Slot, h: ReceiveHeader, list: seq<SharedSge>) {
    && h.sgeCount == |list| && RECEIVE_HEADER + SGE_BYTES * |list| <= |slot|
    && Field(slot, 0, 8) == h.wrId && Field(slot, 8, 4) == h.sgeCount && Field(slot, 12, 4) == 0
    && (forall i :: 0 <= i < |list| ==>
          ReadSge(slot, RECEIVE_HEADER + SGE_BYTES * i) == (list[i].address, list[i].length, list[i].lkey))
  }

  /** An entry written over the front of a slot; what follows it is left as it was. */
  function Overwrite(slot: Slot, bytes: seq<Byte>): (r: Slot)
    requires |bytes| <= |slot|
    ensures |r| == |slot|
  {
    bytes + slot[|bytes|..]
  }

  lemma FieldOf(slot: Slot, at: nat, n: nat, x: nat)
    requires at + n <= |slot| && slot[at..at + n] == ToLE(n, x) && x < Pow256(n)
    ensures Field(slot, at, n) == x
  {
    RoundTripLE(n, x);
  }

  lemma SendHeaderReadsBack(slot: Slot, h: SendHeader)
    requires SEND_HEADER <= |slot| && slot[..SEND_HEADER] == SendHeaderBytes(h)
    ensures Field(slot, 0, 8) == h.wrId && Field(slot, 8, 8) == h.remoteAddress && Field(slot, 16, 4) == h.rkey
    ensures Field(slot, 20, 4) == h.opcode && Field(slot, 24, 4) == h.sendFlags && Field(slot, 28, 4) == h.immediate
    ensures Field(slot, 32, 4) == h.sgeCount && Field(slot, 36, 4) == 0
  {
    hide ToLE, FromLE, Field, Pow256;
    Widths();
    var b := slot[..SEND_HEADER];
    assert slot[0..8] == b[0..8] == ToLE(8, h.wrId);
    assert slot[8..16] == b[8..16] == ToLE(8, h.remoteAddress);
    assert slot[16..20] == b[16..20] == ToLE(4, h.rkey);
    assert slot[20..24] == b[20..24] == ToLE(4, h.opcode);
    assert slot[24..28] == b[24..28] == ToLE(4, h.sendFlags);
    assert slot[28..32] == b[28..32] == ToLE(4, h.immediate);
    assert slot[32..36] == b[32..36] == ToLE(4, h.sgeCount);
    assert slot[36..40] == b[36..40] == ToLE(4, 0);
    FieldOf(slot, 0, 8, h.wrId);
    FieldOf(slot, 8, 8, h.remoteAddress);
    FieldOf(slot, 16, 4, h.rkey);
    FieldOf(slot, 20, 4, h.opcode);
    FieldOf(slot, 24, 4, h.sendFlags);
    FieldOf(slot, 28, 4, h.immediate);
    FieldOf(slot, 32, 4, h.sgeCount);
    FieldOf(slot, 36, 4, 0);
  }

  lemma ReceiveHeaderReadsBack(slot: Slot, h: ReceiveHeader)
    requires RECEIVE_HEADER <= |slot| && slot[..RECEIVE_HEADER] == ReceiveHeaderBytes(h)
    ensures Field(slot, 0, 8) == h.wrId && Field(slot, 8, 4) == h.sgeCount && Field(slot, 12, 4) == 0
  {
    Widths();
    var b := slot[..RECEIVE_HEADER];
    hide ToLE, FromLE, Field, Pow256;
    assert slot[0..8] == b[0..8] == ToLE(8, h.wrId);
    assert slot[8..12] == b[8..12] == ToLE(4, h.sgeCount);
    assert slot[12..16] == b[12..16] == ToLE(4, 0);
    FieldOf(slot, 0, 8, h.wrId);
    FieldOf(slot, 8, 4, h.sgeCount);
    FieldOf(slot, 12, 4, 0);
  }

  lemma SgeReadsBack(slot: Slot, at: nat, e: SharedSge)
    requires at + SGE_BYTES <= |slot| && slot[at..at + SGE_BYTES] == SgeBytes(e)
    ensures ReadSge(slot, at) == (e.address, e.length, e.lkey)
  {
    Widths();
    var b := slot[at..at + SGE_BYTES];
    hide ToLE, FromLE, Field, Pow256;
    SliceOfSlice(slot, at, SGE_BYTES, 0, 8);
    SliceOfSlice(slot, at, SGE_BYTES, 8, 12);
    SliceOfSlice(slot, at, SGE_BYTES, 12, 16);
    assert b[0..8] == ToLE(8, e.address);
    assert b[8..12] == ToLE(4, e.length);
    assert b[12..16] == ToLE(4, e.lkey);
    FieldOf(slot, at, 8, e.address);
    FieldOf(slot, at + 8, 4, e.length);
    FieldOf(slot, at + 12, 4, e.lkey);
  }

  lemma {:induction false} SgeAt(list: seq<SharedSge>, i: nat)
    requires i < |list|
    ensures SgeListBytes(list)[SGE_BYTES * i..SGE_BYTES * (i + 1)] == SgeBytes(list[i])
  {
    var init := list[..|list| - 1];
    if i == |list| - 1 {
      assert SgeListBytes(list) == SgeListBytes(init) + SgeBytes(list[i]);
    } else {
      SgeAt(init, i);
      assert SgeListBytes(list)[SGE_BYTES * i..SGE_BYTES * (i + 1)] == SgeListBytes(init)[SGE_BYTES * i..SGE_BYTES * (i + 1)];
    }
  }

  lemma SliceOfSlice(s: Slot, at: nat, n: nat, i: nat, j: nat)
    requires i <= j <= n && at + n <= |s|
    ensures s[at..at + n][i..j] == s[at + i..at + j]
  {
    var a, b := s[at..at + n][i..j], s[at + i..at + j];
    assert |a| == |b| && forall k :: 0 <= k < |a| ==> a[k] == b[k];
  }

  lemma SgeOfListReadsBack(slot: Slot, header: nat, list: seq<SharedSge>, i: nat)
    requires header + SGE_BYTES * |list| <= |slot| && i < |list|
    requires slot[header..header + SGE_BYTES * |list|] == SgeListBytes(list)
    ensures ReadSge(slot, header + SGE_BYTES * i) == (list[i].address, list[i].length, list[i].lkey)
  {
    hide SgeListBytes, SgeBytes, ReadSge;
    var from, to, n := SGE_BYTES * i, SGE_BYTES * (i + 1), SGE_BYTES * |list|;
    SgeAt(list, i);
    SliceOfSlice(slot, header, n, from, to);
    assert slot[header + from..header + from + SGE_BYTES] == SgeBytes(list[i]);
    SgeReadsBack(slot, header + from, list[i]);
  }

  lemma SgeListReadsBack(slot: Slot, header: nat, list: seq<SharedSge>)
    requires header + SGE_BYTES * |list| <= |slot|
    requires slot[header..header + SGE_BYTES * |list|] == SgeListBytes(list)
    ensures forall i :: 0 <= i < |list| ==>
              ReadSge(slot, header + SGE_BYTES * i) == (list[i].address, list[i].length, list[i].lkey)
  {
    hide SgeListBytes, ReadSge;
    forall i | 0 <= i < |list|
      ensures ReadSge(slot, header + SGE_BYTES * i) == (list[i].address, list[i].length, list[i].lkey)
    {
      SgeOfListReadsBack(slot, header, list, i);
    }
  }

  /** An encoded send entry decodes to the request it was made from, whatever the slot held before. */
  lemma SendSlotRoundTrip(slot: Slot, h: SendHeader, list: seq<SharedSge>)
    requires h.sgeCount == |list| && SEND_HEADER + SGE_BYTES * |list| <= |slot|
    ensures |SendHeaderBytes(h) + SgeListBytes(list)| == SEND_HEADER + SGE_BYTES * |list|
    ensures HoldsSend(Overwrite(slot, SendHeaderBytes(h) + SgeListBytes(list)), h, list)
  {
    var r := Overwrite(slot, SendHeaderBytes(h) + SgeListBytes(list));
    assert r[..SEND_HEADER] == SendHeaderBytes(h);
    assert r[SEND_HEADER..SEND_HEADER + SGE_BYTES * |list|] == SgeListBytes(list);
    SendHeaderReadsBack(r, h);
    SgeListReadsBack(r, SEND_HEADER, list);
  }

  lemma ReceiveSlotRoundTrip(slot: Slot, h: ReceiveHeader, list: seq<SharedSge>)
    requires h.sgeCount == |list| && RECEIVE_HEADER + SGE_BYTES * |list| <= |slot|
    ensures |ReceiveHeaderBytes(h) + SgeListBytes(list)| == RECEIVE_HEADER + SGE_BYTES * |list|
    ensures HoldsReceive(Overwrite(slot, ReceiveHeaderBytes(h) + SgeListBytes(list)), h, list)
  {
    var r := Overwrite(slot, ReceiveHeaderBytes(h) + SgeListBytes(list));
    assert r[..RECEIVE_HEADER] == ReceiveHeaderBytes(h);
    assert r[RECEIVE_HEADER..RECEIVE_HEADER + SGE_BYTES * |list|] == SgeListBytes(list);
    ReceiveHeaderReadsBack(r, h);
    SgeListReadsBack(r, RECEIVE_HEADER, list);
  }

}
