/**
  What the copies do to memory.  A successful copy moves bytes; a failed one may
  leave anything in its target range.  GatherCopied is the refinement: once all
  payloads of a parent were copied, in whatever order and interleaved with
  whatever other copies that keep off it, the target range holds the
  concatenation of its source segments.
 */
module GatherCopy {
  import opened WorkerTypes
  import opened Fragments
  import opened WorkerSteps
  import opened Protocol

  type Memory = int -> int

  predicate InRange(a: int, base: int, length: int) { base <= a < base + length }

  /** One copy event applied to memory. */
  function ApplyCopy(m: Memory, e: CopyEvent): Memory {
    var q := e.request;
    (a: int) =>
      if !InRange(a, q.targetAddress, q.payloadLength) then m(a)
      else if e.result == Success then m(q.sourceAddress + (a - q.targetAddress))
      else if a - q.targetAddress < |e.scribble| then e.scribble[a - q.targetAddress]
      else m(a)
  }

  /** The first n events applied in order. */
  function ApplyCopies(m: Memory, events: seq<CopyEvent>, n: nat): Memory
    requires n <= |events|
  {
    if n == 0 then m else ApplyCopy(ApplyCopies(m, events, n - 1), events[n - 1])
  }

  /** The address of byte b of the concatenation of the segments. */
  function GatherAddress(segments: seq<Segment>, b: nat): int {
    if segments == [] then 0
    else if b < segments[0].length then segments[0].address + b
    else GatherAddress(segments[1..], b - segments[0].length)
  }

  predicate InSegments(segments: seq<Segment>, a: int) {
    exists s :: 0 <= s < |segments| && InRange(a, segments[s].address, segments[s].length)
  }

  predicate InTarget(c: Config, p: Parent, a: int)
    requires Accepts(c, p)
  {
    InRange(a, Target(c, p), p.totalLength)
  }

  /**
    The parent's target does not overlap its sources, and no copy of another
    parent between events lo and hi writes its target or its sources.
   */
  ghost predicate Isolated(c: Config, p: Parent, j: nat, events: seq<CopyEvent>, lo: nat, hi: nat)
    requires Accepts(c, p)
  {
    && (forall a :: InTarget(c, p, a) ==> !InSegments(p.segments, a))
    && (forall x, a :: lo <= x < hi <= |events| && events[x].at.j != j
                       && InRange(a, events[x].request.targetAddress, events[x].request.payloadLength) ==>
          !InTarget(c, p, a) && !InSegments(p.segments, a))
  }

  // ----- pieces and bytes

  lemma {:induction false} CutBytes(address: nat, length: nat, p: nat, i: nat, b: nat)
    requires 0 < p && i < |Cut(address, length, p)|
    requires Offset(Cut(address, length, p), i) <= b < Offset(Cut(address, length, p), i) + Cut(address, length, p)[i].length
    ensures b < length
    ensures Cut(address, length, p)[i].address + (b - Offset(Cut(address, length, p), i)) == address + b
    decreases length
  {
    var n := if length < p then length else p;
    var rest := Cut(address + n, length - n, p);
    if i != 0 {
      OffsetConcat([Piece(address, n)], rest, i - 1);
      assert Offset([Piece(address, n)], 1) == n;
      CutBytes(address + n, length - n, p, i - 1, b - n);
    }
  }

  /** Byte b of the gather list, read through the piece that holds it. */
  lemma {:induction false} PieceBytes(segments: seq<Segment>, p: nat, i: nat, b: nat)
    requires 0 < p && i < |CutAll(segments, p)|
    requires Offset(CutAll(segments, p), i) <= b < Offset(CutAll(segments, p), i) + CutAll(segments, p)[i].length
    ensures CutAll(segments, p)[i].address + (b - Offset(CutAll(segments, p), i)) == GatherAddress(segments, b)
    ensures InSegments(segments, GatherAddress(segments, b))
  {
    var s := segments[0];
    var head, tail := Cut(s.address, s.length, p), CutAll(segments[1..], p);
    CutFacts(s.address, s.length, p);
    if i < |head| {
      OffsetPrefix(head, tail, i);
      CutBytes(s.address, s.length, p, i, b);
      assert InRange(GatherAddress(segments, b), segments[0].address, segments[0].length);
    } else {
      OffsetConcat(head, tail, i - |head|);
      PieceBytes(segments[1..], p, i - |head|, b - s.length);
      var a := GatherAddress(segments[1..], b - s.length);
      var x :| 0 <= x < |segments[1..]| && InRange(a, segments[1..][x].address, segments[1..][x].length);
      assert InRange(a, segments[x + 1].address, segments[x + 1].length);
    }
  }

  /** Byte b of parent p lies in payload i. */
  predicate InPiece(c: Config, p: Parent, i: nat, b: nat)
    requires 0 < c.payloadBytes && i < |Pieces(c, p)|
  {
    Offset(Pieces(c, p), i) <= b < Offset(Pieces(c, p), i) + Pieces(c, p)[i].length
  }

  /** A parent's own copies write only inside its target range. */
  lemma OwnCopyInside(c: Config, p: Parent, i: nat, a: int)
    requires 0 < c.payloadBytes && WellFormed(c, p) && Accepts(c, p) && i < |Pieces(c, p)|
    requires InRange(a, PayloadRequest(c, p, i).targetAddress, PayloadRequest(c, p, i).payloadLength)
    ensures InTarget(c, p, a) && InPiece(c, p, i, a - Target(c, p))
  {
    OffsetInside(c, p, i);
  }

  // ----- the refinement

  ghost predicate LogFor(c: Config, p: Parent, j: nat, copies: CopyLog)
    requires 0 < c.payloadBytes
  {
    && Accepts(c, p)
    && (forall x :: 0 <= x < |copies.events| && copies.events[x].at.j == j ==>
          && copies.events[x].at.i < |Pieces(c, p)|
          && copies.events[x].request == PayloadRequest(c, p, copies.events[x].at.i)
          && copies.events[x].result == Success
          && copies.events[x].at in copies.at && copies.at[copies.events[x].at] == x)
  }

  /** Sources are never written while the parent is isolated. */
  lemma {:induction false} SourcesKept(c: Config, p: Parent, j: nat, copies: CopyLog, m: Memory, lo: nat, hi: nat, n: nat, a: int)
    requires 0 < c.payloadBytes && WellFormed(c, p) && LogFor(c, p, j, copies) && Isolated(c, p, j, copies.events, lo, hi)
    requires lo <= n <= hi <= |copies.events| && InSegments(p.segments, a)
    ensures ApplyCopies(m, copies.events, n)(a) == ApplyCopies(m, copies.events, lo)(a)
    decreases n
  {
    if n != lo {
      SourcesKept(c, p, j, copies, m, lo, hi, n - 1, a);
      var e := copies.events[n - 1];
      if InRange(a, e.request.targetAddress, e.request.payloadLength) && e.at.j == j {
        OwnCopyInside(c, p, e.at.i, a);
      }
    }
  }

  /** Only the copy of payload i writes the target bytes of payload i. */
  lemma OtherCopyKeeps(c: Config, p: Parent, j: nat, copies: CopyLog, lo: nat, hi: nat, x: nat, i: nat, b: nat)
    requires 0 < c.payloadBytes && WellFormed(c, p) && LogFor(c, p, j, copies) && Isolated(c, p, j, copies.events, lo, hi)
    requires lo <= x < hi <= |copies.events| && i < |Pieces(c, p)| && InPiece(c, p, i, b) && copies.events[x].at != Coord(j, i)
    ensures !InRange(Target(c, p) + b, copies.events[x].request.targetAddress, copies.events[x].request.payloadLength)
  {
    var e, a := copies.events[x], Target(c, p) + b;
    OffsetInside(c, p, i);
    assert InTarget(c, p, a);
    if e.at.j == j {
      var k := e.at.i;
      OffsetInside(c, p, k);
      if k < i { OffsetMonotone(Pieces(c, p), k + 1, i); } else { OffsetMonotone(Pieces(c, p), i + 1, k); }
      hide CutAll, Cut, Offset, Accepts;
    }
  }

  /** The copy of payload i moves byte b of the gather list to byte b of the target. */
  lemma OwnCopyMoves(c: Config, p: Parent, e: CopyEvent, m: Memory, i: nat, b: nat)
    requires 0 < c.payloadBytes && Accepts(c, p) && i < |Pieces(c, p)| && InPiece(c, p, i, b)
    requires e.request == PayloadRequest(c, p, i) && e.result == Success
    ensures InSegments(p.segments, GatherAddress(p.segments, b))
    ensures ApplyCopy(m, e)(Target(c, p) + b) == m(GatherAddress(p.segments, b))
  {
    PieceBytes(p.segments, c.payloadBytes, i, b);
    var q, a := e.request, Target(c, p) + b;
    assert InRange(a, q.targetAddress, q.payloadLength);
    assert q.sourceAddress + (a - q.targetAddress) == GatherAddress(p.segments, b);
  }

  /** Once payload i was copied, byte b of it stays in place while the parent is isolated. */
  lemma {:induction false} ByteInPlace(c: Config, p: Parent, j: nat, copies: CopyLog, m: Memory, lo: nat, hi: nat,
                                       n: nat, i: nat, b: nat)
    requires 0 < c.payloadBytes && WellFormed(c, p) && LogFor(c, p, j, copies) && Isolated(c, p, j, copies.events, lo, hi)
    requires n <= hi <= |copies.events| && i < |Pieces(c, p)| && InPiece(c, p, i, b)
    requires Coord(j, i) in copies.at && lo <= copies.at[Coord(j, i)] < n
    requires copies.events[copies.at[Coord(j, i)]].at == Coord(j, i)
    ensures ApplyCopies(m, copies.events, n)(Target(c, p) + b)
            == ApplyCopies(m, copies.events, lo)(GatherAddress(p.segments, b))
    decreases n
  {
    hide Isolated, InSegments, CutAll, Cut, Offset, GatherAddress, WellFormed, PayloadRequest, InPiece, Accepts, Pieces;
    if copies.at[Coord(j, i)] == n - 1 {
      OwnCopyMoves(c, p, copies.events[n - 1], ApplyCopies(m, copies.events, n - 1), i, b);
      SourcesKept(c, p, j, copies, m, lo, hi, n - 1, GatherAddress(p.segments, b));
    } else {
      ByteInPlace(c, p, j, copies, m, lo, hi, n - 1, i, b);
      OtherCopyKeeps(c, p, j, copies, lo, hi, n - 1, i, b);
    }
  }

  /** All payloads of parent j were copied between events lo and hi. */
  ghost predicate CopiedBetween(p: Parent, j: nat, copies: CopyLog, lo: nat, hi: nat) {
    forall i: nat :: i < p.payloadCount ==>
      && Coord(j, i) in copies.at && lo <= copies.at[Coord(j, i)] < hi <= |copies.events|
      && copies.events[copies.at[Coord(j, i)]].at == Coord(j, i)
  }

  /**
    Gather-copy refinement: once all payloads of a parent were copied between
    two moments, in whatever order, the target range at the later one is the
    concatenation of the source segments at the earlier one.
   */
  lemma GatherCopied(c: Config, p: Parent, j: nat, copies: CopyLog, m: Memory, lo: nat, hi: nat, b: nat)
    requires 0 < c.payloadBytes && WellFormed(c, p) && LogFor(c, p, j, copies) && Isolated(c, p, j, copies.events, lo, hi)
    requires lo <= hi <= |copies.events| && CopiedBetween(p, j, copies, lo, hi) && b < p.totalLength
    ensures ApplyCopies(m, copies.events, hi)(Target(c, p) + b)
            == ApplyCopies(m, copies.events, lo)(GatherAddress(p.segments, b))
  {
    ParentFacts(c, p);
    var i := OffsetCovers(Pieces(c, p), b, p.payloadCount);
    ByteInPlace(c, p, j, copies, m, lo, hi, hi, i, b);
  }
}
