/**
  How the requester cuts a gather list into payload datagrams
  (src/worker/worker.cpp:420-499).  CutAll is the reference: every segment is
  cut front to back into pieces of at most payload_bytes.  The worker never
  builds that list; it advances a cursor, and CursorAt relates the two.
 */
module Fragments {
  import opened Common
  import opened WorkerTypes

  datatype Piece = Piece(address: nat, length: nat)

  function Cut(address: nat, length: nat, p: nat): (r: seq<Piece>)
    requires 0 < p
    decreases length
  {
    if length == 0 then []
    else
      var n := if length < p then length else p;
      [Piece(address, n)] + Cut(address + n, length - n, p)
  }

  function CutAll(segments: seq<Segment>, p: nat): (r: seq<Piece>)
    requires 0 < p
  {
    if segments == [] then []
    else Cut(segments[0].address, segments[0].length, p) + CutAll(segments[1..], p)
  }

  /** Sum of the lengths of the first n pieces: the offset of piece n. */
  function Offset(pieces: seq<Piece>, n: nat): nat
    requires n <= |pieces|
  {
    if n == 0 then 0 else Offset(pieces, n - 1) + pieces[n - 1].length
  }

  function SegmentBytes(segments: seq<Segment>): nat {
    if segments == [] then 0 else segments[0].length + SegmentBytes(segments[1..])
  }

  function Ceil(n: nat, p: nat): nat
    requires 0 < p
  {
    (n + p - 1) / p
  }

  function CeilSum(segments: seq<Segment>, p: nat): nat
    requires 0 < p
  {
    if segments == [] then 0 else Ceil(segments[0].length, p) + CeilSum(segments[1..], p)
  }

  lemma MulMonotone(a: int, b: int, p: int)
    requires 0 < p
    ensures a <= b ==> a * p <= b * p
  {
  }

  lemma QuotientIs(x: int, p: int, q: int, r: int)
    requires 0 < p && x == q * p + r && 0 <= r < p
    ensures x / p == q
  {
    var q' := x / p;
    assert q' * p <= x < q' * p + p;
    MulMonotone(q' + 1, q, p);
    MulMonotone(q + 1, q', p);
    assert (q' + 1) * p == q' * p + p && (q + 1) * p == q * p + p;
  }

  lemma CeilSmall(n: nat, p: nat)
    requires 0 < p && n <= p
    ensures Ceil(n, p) == if n == 0 then 0 else 1
  {
    if n == 0 {
      QuotientIs(p - 1, p, 0, p - 1);
    } else {
      QuotientIs(n + p - 1, p, 1, n - 1);
    }
  }

  lemma CeilLarge(n: nat, p: nat)
    requires 0 < p < n
    ensures Ceil(n, p) == 1 + Ceil(n - p, p)
  {
    var q := (n - 1) / p;
    var r := (n - 1) % p;
    assert n - 1 == q * p + r;
    assert (q + 1) * p == q * p + p;
    QuotientIs(n + p - 1, p, q + 1, r);
  }

  lemma {:induction false} CeilBound(n: nat, p: nat)
    requires 0 < p
    ensures Ceil(n, p) <= n
  {
    if n <= p {
      CeilSmall(n, p);
    } else {
      CeilLarge(n, p);
      CeilBound(n - p, p);
    }
  }

  lemma {:induction false} CutFacts(address: nat, length: nat, p: nat)
    requires 0 < p
    ensures |Cut(address, length, p)| == Ceil(length, p)
    ensures Offset(Cut(address, length, p), |Cut(address, length, p)|) == length
    ensures forall k :: 0 <= k < |Cut(address, length, p)| ==>
              && 0 < Cut(address, length, p)[k].length <= p
              && address <= Cut(address, length, p)[k].address
              && Cut(address, length, p)[k].address + Cut(address, length, p)[k].length <= address + length
    decreases length
  {
    if length <= p { CeilSmall(length, p); } else { CeilLarge(length, p); }
    if length != 0 {
      var n := if length < p then length else p;
      CutFacts(address + n, length - n, p);
      var rest := Cut(address + n, length - n, p);
      OffsetConcat([Piece(address, n)], rest, |rest|);
      assert Offset([Piece(address, n)], 1) == n;
    }
  }

  lemma {:induction false} OffsetConcat(a: seq<Piece>, b: seq<Piece>, n: nat)
    requires n <= |b|
    ensures Offset(a + b, |a| + n) == Offset(a, |a|) + Offset(b, n)
    decreases n
  {
    if n == 0 {
      OffsetPrefix(a, b, |a|);
    } else {
      OffsetConcat(a, b, n - 1);
    }
  }

  lemma {:induction false} OffsetPrefix(a: seq<Piece>, b: seq<Piece>, n: nat)
    requires n <= |a|
    ensures Offset(a + b, n) == Offset(a, n)
  {
    if n != 0 { OffsetPrefix(a, b, n - 1); }
  }

  lemma {:induction false} OffsetMonotone(s: seq<Piece>, i: nat, j: nat)
    requires i <= j <= |s|
    ensures Offset(s, i) <= Offset(s, j)
    decreases j
  {
    if i < j { OffsetMonotone(s, i, j - 1); }
  }

  lemma {:induction false} CutAllLengths(segments: seq<Segment>, p: nat)
    requires 0 < p
    ensures forall k :: 0 <= k < |CutAll(segments, p)| ==> 0 < CutAll(segments, p)[k].length <= p
  {
    hide Offset, Cut, Ceil;
    if segments != [] {
      CutFacts(segments[0].address, segments[0].length, p);
      CutAllLengths(segments[1..], p);
    }
  }

  /**
    Fragment arithmetic (whole gather list): the per-SGE ceilings add up to the
    number of pieces, the lengths add up to the total, every piece has
    1..payload_bytes bytes.
   */
  lemma {:induction false} CutAllFacts(segments: seq<Segment>, p: nat)
    requires 0 < p
    ensures |CutAll(segments, p)| == CeilSum(segments, p)
    ensures Offset(CutAll(segments, p), |CutAll(segments, p)|) == SegmentBytes(segments)
    ensures forall k :: 0 <= k < |CutAll(segments, p)| ==> 0 < CutAll(segments, p)[k].length <= p
  {
    CutAllLengths(segments, p);
    if segments != [] {
      hide Offset, Cut, Ceil;
      var a := Cut(segments[0].address, segments[0].length, p);
      var b := CutAll(segments[1..], p);
      CutFacts(segments[0].address, segments[0].length, p);
      CutAllFacts(segments[1..], p);
      OffsetConcat(a, b, |b|);
    }
  }

  lemma {:induction false} CeilSumBound(segments: seq<Segment>, p: nat)
    requires 0 < p
    ensures CeilSum(segments, p) <= SegmentBytes(segments)
  {
    if segments != [] {
      CeilBound(segments[0].length, p);
      CeilSumBound(segments[1..], p);
    }
  }

  lemma {:induction false} SegmentAppend(segments: seq<Segment>, s: Segment, p: nat)
    requires 0 < p
    ensures SegmentBytes(segments + [s]) == SegmentBytes(segments) + s.length
    ensures CeilSum(segments + [s], p) == CeilSum(segments, p) + Ceil(s.length, p)
  {
    if segments == [] {
      assert [] + [s] == [s];
    } else {
      assert (segments + [s])[1..] == segments[1..] + [s];
      SegmentAppend(segments[1..], s, p);
    }
  }

  /** No piece crosses a segment boundary: each lies inside one segment. */
  lemma {:induction false} PieceInsideSegment(segments: seq<Segment>, p: nat, k: nat) returns (s: nat)
    requires 0 < p && k < |CutAll(segments, p)|
    ensures s < |segments|
    ensures segments[s].address <= CutAll(segments, p)[k].address
    ensures CutAll(segments, p)[k].address + CutAll(segments, p)[k].length <= segments[s].address + segments[s].length
  {
    var a := Cut(segments[0].address, segments[0].length, p);
    CutFacts(segments[0].address, segments[0].length, p);
    if k < |a| {
      s := 0;
    } else {
      var s' := PieceInsideSegment(segments[1..], p, k - |a|);
      s := s' + 1;
    }
  }

  /** The pieces' offsets partition [0, total): every byte offset lies in exactly one piece. */
  lemma {:induction false} OffsetCovers(pieces: seq<Piece>, b: nat, n: nat) returns (k: nat)
    requires n <= |pieces| && b < Offset(pieces, n)
    ensures k < n && Offset(pieces, k) <= b < Offset(pieces, k) + pieces[k].length
  {
    if Offset(pieces, n - 1) <= b {
      k := n - 1;
    } else {
      k := OffsetCovers(pieces, b, n - 1);
    }
  }

  lemma OffsetStep(pieces: seq<Piece>, i: nat)
    requires i < |pieces|
    ensures Offset(pieces, i + 1) == Offset(pieces, i) + pieces[i].length
  {
  }

  lemma OffsetsApart(pieces: seq<Piece>, i: nat, j: nat)
    requires i < |pieces| && j < |pieces|
    ensures i < j ==> Offset(pieces, i) + pieces[i].length <= Offset(pieces, j)
  {
    hide Offset;
    if i < j {
      OffsetStep(pieces, i);
      OffsetMonotone(pieces, i + 1, j);
    }
  }

  lemma OffsetUnique(pieces: seq<Piece>, b: nat, i: nat, j: nat)
    requires i < |pieces| && j < |pieces|
    requires Offset(pieces, i) <= b < Offset(pieces, i) + pieces[i].length
    requires Offset(pieces, j) <= b < Offset(pieces, j) + pieces[j].length
    ensures i == j
  {
    hide Offset;
    OffsetsApart(pieces, i, j);
    OffsetsApart(pieces, j, i);
  }

  // ----- parents and their datagrams

  function Pieces(c: Config, parent: Parent): seq<Piece>
    requires 0 < c.payloadBytes
  {
    CutAll(parent.segments, c.payloadBytes)
  }

  /** A parent as try_send builds it: totals and count agree with its segments. */
  predicate WellFormed(c: Config, parent: Parent)
    requires 0 < c.payloadBytes
  {
    && parent.totalLength == SegmentBytes(parent.segments) <= U32_MAX
    && parent.payloadCount == CeilSum(parent.segments, c.payloadBytes)
    && (forall s :: 0 <= s < |parent.segments| ==> 0 < parent.segments[s].length)
  }

  /** Number of datagrams a parent is sent as; a zero-length parent still takes one. */
  function FragmentCount(parent: Parent): nat {
    if parent.totalLength == 0 then 1 else parent.payloadCount
  }

  /** The i-th datagram of a parent, from the reference cutting. */
  function DatagramAt(c: Config, parent: Parent, i: nat): RequestDatagram
    requires 0 < c.payloadBytes
    requires parent.totalLength != 0 ==> i < |Pieces(c, parent)|
  {
    if parent.totalLength == 0 then
      RequestDatagram(parent.id, parent.sourceQp, parent.targetQp, parent.opcode,
                      parent.remoteAddress, parent.rkey, parent.immediate, 0, 0, 0, 0, 0, parent.payloadCount)
    else
      var pieces := Pieces(c, parent);
      RequestDatagram(parent.id, parent.sourceQp, parent.targetQp, parent.opcode,
                      parent.remoteAddress, parent.rkey, parent.immediate, parent.totalLength,
                      Offset(pieces, i), pieces[i].address, pieces[i].length, i, parent.payloadCount)
  }

  lemma ParentFacts(c: Config, parent: Parent)
    requires 0 < c.payloadBytes && WellFormed(c, parent)
    ensures |Pieces(c, parent)| == parent.payloadCount <= parent.totalLength
    ensures Offset(Pieces(c, parent), parent.payloadCount) == parent.totalLength
    ensures forall k :: 0 <= k < parent.payloadCount ==> 0 < Pieces(c, parent)[k].length <= c.payloadBytes
    ensures parent.totalLength == 0 <==> parent.segments == []
    ensures parent.totalLength == 0 <==> parent.payloadCount == 0
    ensures 0 < FragmentCount(parent)
  {
    CutAllFacts(parent.segments, c.payloadBytes);
    CeilSumBound(parent.segments, c.payloadBytes);
    if parent.payloadCount == 0 { assert Offset(Pieces(c, parent), 0) == 0; }
  }

  lemma OffsetInside(c: Config, parent: Parent, i: nat)
    requires 0 < c.payloadBytes && WellFormed(c, parent) && i < |Pieces(c, parent)|
    ensures Offset(Pieces(c, parent), i) + Pieces(c, parent)[i].length <= parent.totalLength
    ensures Offset(Pieces(c, parent), i + 1) == Offset(Pieces(c, parent), i) + Pieces(c, parent)[i].length
  {
    ParentFacts(c, parent);
    OffsetMonotone(Pieces(c, parent), i + 1, |Pieces(c, parent)|);
  }

  // ----- the cursor

  /** Pieces the cursor has not passed yet. */
  function Remaining(c: Config, p: PendingSend): seq<Piece>
    requires 0 < c.payloadBytes && p.segmentIndex <= |p.parent.segments|
    requires p.segmentIndex < |p.parent.segments| ==> p.segmentOffset <= p.parent.segments[p.segmentIndex].length
  {
    if p.segmentIndex == |p.parent.segments| then []
    else
      var s := p.parent.segments[p.segmentIndex];
      Cut(s.address + p.segmentOffset, s.length - p.segmentOffset, c.payloadBytes)
      + CutAll(p.parent.segments[p.segmentIndex + 1..], c.payloadBytes)
  }

  /** The cursor of a pending send of nonzero length stands before piece payloadIndex. */
  predicate CursorAt(c: Config, p: PendingSend)
    requires 0 < c.payloadBytes
  {
    && p.segmentIndex <= |p.parent.segments|
    && (p.segmentIndex < |p.parent.segments| ==> p.segmentOffset < p.parent.segments[p.segmentIndex].length)
    && (p.segmentIndex == |p.parent.segments| ==> p.segmentOffset == 0)
    && p.payloadIndex <= |Pieces(c, p.parent)|
    && Remaining(c, p) == Pieces(c, p.parent)[p.payloadIndex..]
    && p.payloadOffset == Offset(Pieces(c, p.parent), p.payloadIndex)
  }

  /** The cursor of a pending send stands before a datagram still to be pushed. */
  predicate CursorReady(c: Config, p: PendingSend)
    requires 0 < c.payloadBytes
  {
    && WellFormed(c, p.parent) && !p.zeroPayloadSent
    && (if p.parent.totalLength == 0 then p.payloadIndex == 0
        else CursorAt(c, p) && p.payloadIndex < p.parent.payloadCount)
  }

  function Fresh(parent: Parent): PendingSend { PendingSend(parent, 0, 0, 0, 0, false) }

  lemma FreshCursor(c: Config, parent: Parent)
    requires 0 < c.payloadBytes && WellFormed(c, parent)
    ensures CursorAt(c, Fresh(parent))
  {
    if parent.segments != [] {
      assert parent.segments[0 + 1..] == parent.segments[1..];
    }
  }

  /** The datagram try_send builds from the cursor (worker.cpp:454-478). */
  function NextDatagram(c: Config, p: PendingSend): RequestDatagram
    requires p.parent.totalLength != 0 ==>
               && p.segmentIndex < |p.parent.segments|
               && p.segmentOffset <= p.parent.segments[p.segmentIndex].length
  {
    var q := p.parent;
    if q.totalLength == 0 then
      RequestDatagram(q.id, q.sourceQp, q.targetQp, q.opcode, q.remoteAddress, q.rkey, q.immediate,
                      q.totalLength, 0, 0, 0, 0, q.payloadCount)
    else
      var s := q.segments[p.segmentIndex];
      var remaining := s.length - p.segmentOffset;
      RequestDatagram(q.id, q.sourceQp, q.targetQp, q.opcode, q.remoteAddress, q.rkey, q.immediate,
                      q.totalLength, p.payloadOffset, s.address + p.segmentOffset,
                      if remaining < c.payloadBytes then remaining else c.payloadBytes,
                      p.payloadIndex, q.payloadCount)
  }

  /** The cursor after a datagram of the given length was pushed (worker.cpp:483-493). */
  function Advance(p: PendingSend, length: nat): PendingSend
    requires p.parent.totalLength != 0 ==> p.segmentIndex < |p.parent.segments|
  {
    if p.parent.totalLength == 0 then p.(zeroPayloadSent := true)
    else
      var done := p.segmentOffset + length == p.parent.segments[p.segmentIndex].length;
      p.(segmentOffset := if done then 0 else p.segmentOffset + length,
         segmentIndex := if done then p.segmentIndex + 1 else p.segmentIndex,
         payloadOffset := p.payloadOffset + length,
         payloadIndex := p.payloadIndex + 1)
  }

  /**
    One cursor step refines the reference: while pieces remain the segment index
    is in bounds, the datagram built is the reference datagram at payloadIndex,
    and advancing leaves the cursor before the next piece.
   */
  lemma CursorStep(c: Config, p: PendingSend)
    requires 0 < c.payloadBytes && WellFormed(c, p.parent) && p.parent.totalLength != 0
    requires CursorAt(c, p) && p.payloadIndex < p.parent.payloadCount
    ensures p.segmentIndex < |p.parent.segments| && p.payloadIndex < |Pieces(c, p.parent)|
    ensures NextDatagram(c, p) == DatagramAt(c, p.parent, p.payloadIndex)
    ensures CursorAt(c, Advance(p, NextDatagram(c, p).payloadLength))
  {
    hide Pieces, Offset, Cut, CutAll, CeilSum, SegmentBytes;
    ParentFacts(c, p.parent);
    var pieces := Pieces(c, p.parent);
    var rest := pieces[p.payloadIndex..];
    assert rest[0] == pieces[p.payloadIndex];
    CursorHead(c, p);
    assert pieces[p.payloadIndex + 1..] == rest[1..];
    OffsetStep(pieces, p.payloadIndex);
    hide Remaining;
  }

  lemma CursorHead(c: Config, p: PendingSend)
    requires 0 < c.payloadBytes && p.segmentIndex < |p.parent.segments| && p.parent.totalLength != 0
    requires p.segmentOffset < p.parent.segments[p.segmentIndex].length
    requires forall s :: 0 <= s < |p.parent.segments| ==> 0 < p.parent.segments[s].length
    ensures Remaining(c, p) != []
    ensures Remaining(c, p)[0] == Piece(NextDatagram(c, p).sourceAddress, NextDatagram(c, p).payloadLength)
    ensures var q := Advance(p, NextDatagram(c, p).payloadLength);
            && q.segmentIndex <= |q.parent.segments|
            && (q.segmentIndex < |q.parent.segments| ==> q.segmentOffset < q.parent.segments[q.segmentIndex].length)
            && (q.segmentIndex == |q.parent.segments| ==> q.segmentOffset == 0)
            && Remaining(c, q) == Remaining(c, p)[1..]
  {
    hide Offset, Pieces;
    var segments, k := p.parent.segments, p.segmentIndex;
    var s := segments[k];
    var n := NextDatagram(c, p).payloadLength;
    var from := s.address + p.segmentOffset;
    var left := s.length - p.segmentOffset;
    var here := Cut(from, left, c.payloadBytes);
    var tail := CutAll(segments[k + 1..], c.payloadBytes);
    assert here == [Piece(from, n)] + Cut(from + n, left - n, c.payloadBytes);
    assert (here + tail)[1..] == Cut(from + n, left - n, c.payloadBytes) + tail;
    if n == left {
      assert Cut(from + n, 0, c.payloadBytes) + tail == tail;
      if k + 1 < |segments| {
        assert segments[k + 1..][1..] == segments[k + 2..];
      } else {
        assert segments[k + 1..] == [];
      }
    }
  }

  // ----- preparing a WQE (worker.cpp:398-444)

  datatype Gathered =
    | Failed(status: nat)
    | Gathered(segments: seq<Segment>, totalLength: nat, payloadCount: nat)

  function GatherOne(c: Config, g: Gathered, sge: Sge): Gathered
    requires 0 < c.payloadBytes
  {
    if g.Failed? then g
    else if g.totalLength > U32_MAX - sge.length then Failed(WC_LOC_LEN_ERR)
    else
      match c.resolveLkey(sge.lkey, sge.address, sge.length)
      case None => Failed(WC_LOC_PROT_ERR)
      case Some(a) =>
        Gathered(if sge.length != 0 then g.segments + [Segment(a, sge.length)] else g.segments,
                 g.totalLength + sge.length,
                 if sge.length != 0 then g.payloadCount + Ceil(sge.length, c.payloadBytes) else g.payloadCount)
  }

  /** The SGE loop, as a function of the SGEs read so far. */
  function Gather(c: Config, sges: seq<Sge>): Gathered
    requires 0 < c.payloadBytes
  {
    if sges == [] then Gathered([], 0, 0)
    else GatherOne(c, Gather(c, sges[..|sges| - 1]), sges[|sges| - 1])
  }

  /** The segments are the resolved SGEs, all of them nonempty. */
  predicate Resolves(c: Config, sges: seq<Sge>, segments: seq<Segment>) {
    && |segments| == |sges|
    && (forall k :: 0 <= k < |sges| ==>
          && 0 < sges[k].length == segments[k].length
          && c.resolveLkey(sges[k].lkey, sges[k].address, sges[k].length) == Some(segments[k].address))
  }

  lemma {:induction false} GatherFacts(c: Config, sges: seq<Sge>)
    requires ValidConfig(c)
    ensures var g := Gather(c, sges);
            g.Gathered? ==>
              && g.totalLength == SegmentBytes(g.segments) <= U32_MAX
              && g.payloadCount == CeilSum(g.segments, c.payloadBytes) <= U32_MAX
              && Resolves(c, sges, g.segments)
  {
    if sges != [] {
      hide Ceil, CeilSum, SegmentBytes, Resolves;
      var init, last := sges[..|sges| - 1], sges[|sges| - 1];
      GatherFacts(c, init);
      var g, r := Gather(c, init), c.resolveLkey(last.lkey, last.address, last.length);
      if g.Gathered? && r.Some? {
        var segment := Segment(r.value, last.length);
        assert sges == init + [last];
        ResolvesMore(c, init, g.segments, last, segment);
        SegmentAppend(g.segments, segment, c.payloadBytes);
        CeilSumBound(g.segments + [segment], c.payloadBytes);
      }
    }
  }

  lemma ResolvesMore(c: Config, sges: seq<Sge>, segments: seq<Segment>, last: Sge, segment: Segment)
    requires ValidConfig(c) && Resolves(c, sges, segments)
    requires c.resolveLkey(last.lkey, last.address, last.length) == Some(segment.address) && segment.length == last.length
    ensures 0 < last.length && Resolves(c, sges + [last], segments + [segment])
  {
  }

  datatype Prepared = Reject(status: nat) | Accept(parent: Parent)

  /** What try_send makes of a peeked WQE and the id it would give it. */
  function Prepare(c: Config, send: SendWqe, id: nat): Prepared
    requires 0 < c.payloadBytes
  {
    if |send.sges| > c.maxSendSge then Reject(WC_LOC_LEN_ERR)
    else if send.opcode != WR_RDMA_WRITE && send.opcode != WR_RDMA_WRITE_WITH_IMM then
      Reject(WC_LOC_QP_OP_ERR)
    else
      match Gather(c, send.sges)
      case Failed(status) => Reject(status)
      case Gathered(segments, total, count) =>
        if count > U32_MAX then Reject(WC_LOC_LEN_ERR)
        else
          Accept(Parent(id, send.wrId, c.sqSigAll || send.signaled,
                        if send.opcode == WR_RDMA_WRITE then RdmaWrite else RdmaWriteWithImmediate,
                        c.qpNum, c.peerQpNum, send.remoteAddress, send.rkey, send.immediate,
                        total, count, segments))
  }

  /** How many bytes the SGEs of a work request name. */
  function SgeTotal(sges: seq<Sge>): nat {
    if sges == [] then 0 else SgeTotal(sges[..|sges| - 1]) + sges[|sges| - 1].length
  }

  /** SGE i keeps the length sum within 32 bits and its local key resolves. */
  predicate SgePasses(c: Config, sges: seq<Sge>, i: nat)
    requires i < |sges|
  {
    && SgeTotal(sges[..i + 1]) <= 0xFFFF_FFFF
    && c.resolveLkey(sges[i].lkey, sges[i].address, sges[i].length).Some?
  }

  /** SGE i is refused: the length sum leaves 32 bits (1), or else its local key does not resolve (4). */
  predicate SgeFails(c: Config, sges: seq<Sge>, i: nat, status: nat)
    requires i < |sges|
  {
    if SgeTotal(sges[..i + 1]) > 0xFFFF_FFFF then status == 1
    else c.resolveLkey(sges[i].lkey, sges[i].address, sges[i].length).None? && status == 4
  }

  ghost predicate FirstFailure(c: Config, sges: seq<Sge>, i: nat, status: nat) {
    i < |sges| && SgeFails(c, sges, i, status) && forall h :: 0 <= h < i ==> SgePasses(c, sges, h)
  }

  /** The status a work request is refused with: for its SGE count, then its opcode, then its first bad SGE. */
  ghost predicate RefusedWith(c: Config, send: SendWqe, status: nat) {
    if |send.sges| > c.maxSendSge then status == 1
    else if send.opcode != 0 && send.opcode != 1 then status == 2
    else exists i: nat :: FirstFailure(c, send.sges, i, status)
  }

  /** Parent p is work request `send`, field by field, with its SGEs resolved in order. */
  predicate MadeFrom(c: Config, send: SendWqe, p: Parent) {
    && p.wrId == send.wrId && p.remoteAddress == send.remoteAddress && p.rkey == send.rkey && p.immediate == send.immediate
    && p.sourceQp == c.qpNum && p.targetQp == c.peerQpNum
    && (p.signaled <==> c.sqSigAll || send.signaled)
    && p.opcode == (if send.opcode == 1 then RdmaWriteWithImmediate else RdmaWrite) && send.opcode <= 1
    && p.totalLength == SgeTotal(send.sges) && Resolves(c, send.sges, p.segments)
  }

  /** The SGE loop goes through exactly when every SGE passes, and otherwise stops at the first that fails. */
  lemma {:induction false} GatherOutcome(c: Config, sges: seq<Sge>)
    requires 0 < c.payloadBytes
    ensures Gather(c, sges).Gathered? <==> forall h :: 0 <= h < |sges| ==> SgePasses(c, sges, h)
    ensures Gather(c, sges).Gathered? ==> Gather(c, sges).totalLength == SgeTotal(sges)
    ensures Gather(c, sges).Failed? ==> exists i: nat :: FirstFailure(c, sges, i, Gather(c, sges).status)
  {
    if sges != [] {
      hide Ceil;
      var n := |sges| - 1;
      var init := sges[..n];
      GatherOutcome(c, init);
      forall h: nat | h < n ensures SgePasses(c, sges, h) == SgePasses(c, init, h) {
        assert init[..h + 1] == sges[..h + 1];
      }
      assert sges[..n + 1] == sges;
      if Gather(c, init).Failed? {
        var status := Gather(c, init).status;
        assert Gather(c, sges) == Failed(status);
        var i: nat :| FirstFailure(c, init, i, status);
        assert init[..i + 1] == sges[..i + 1];
        assert SgeFails(c, sges, i, status) && !SgePasses(c, sges, i);
        assert FirstFailure(c, sges, i, status);
      } else if Gather(c, sges).Failed? {
        assert !SgePasses(c, sges, n);
        assert FirstFailure(c, sges, n, Gather(c, sges).status);
      } else {
        assert SgePasses(c, sges, n);
      }
    }
  }

  lemma OneFirstFailure(c: Config, sges: seq<Sge>, i: nat, status: nat, j: nat, other: nat)
    requires FirstFailure(c, sges, i, status) && FirstFailure(c, sges, j, other)
    ensures status == other
  {
    assert i < j ==> SgePasses(c, sges, i);
    assert j < i ==> SgePasses(c, sges, j);
  }

  /** try_send refuses a work request with a status exactly when its count, opcode or SGEs say so. */
  lemma PrepareRefuses(c: Config, send: SendWqe, id: nat, status: nat)
    requires ValidConfig(c)
    ensures Prepare(c, send, id) == Reject(status) <==> RefusedWith(c, send, status)
  {
    hide Gather, FirstFailure, SgePasses;
    GatherFacts(c, send.sges);
    GatherOutcome(c, send.sges);
    if Gather(c, send.sges).Failed? {
      var at: nat :| FirstFailure(c, send.sges, at, Gather(c, send.sges).status);
      forall i: nat | FirstFailure(c, send.sges, i, status) ensures status == Gather(c, send.sges).status {
        OneFirstFailure(c, send.sges, i, status, at, Gather(c, send.sges).status);
      }
    } else {
      forall i: nat ensures !FirstFailure(c, send.sges, i, status) { FailureIsNoPass(c, send.sges, i, status); }
    }
  }

  lemma FailureIsNoPass(c: Config, sges: seq<Sge>, i: nat, status: nat)
    ensures FirstFailure(c, sges, i, status) ==> i < |sges| && !SgePasses(c, sges, i)
  {
  }

  /** A prepared parent is well formed, is the work request field by field, and is empty exactly when that has no SGE. */
  lemma PrepareFacts(c: Config, send: SendWqe, id: nat)
    requires ValidConfig(c) && Prepare(c, send, id).Accept?
    ensures WellFormed(c, Prepare(c, send, id).parent)
    ensures Prepare(c, send, id).parent.id == id && MadeFrom(c, send, Prepare(c, send, id).parent)
    ensures Prepare(c, send, id).parent.totalLength == 0 <==> send.sges == []
  {
    GatherFacts(c, send.sges);
    GatherOutcome(c, send.sges);
    ParentFacts(c, Prepare(c, send, id).parent);
    hide Gather, Resolves;
  }
}
