/**
  Control requests and responses as IPC payloads, big-endian
  (src/control/ipc_adapter.cpp): the encoders append to a byte vector, the
  decoders read with an advancing offset; both are proved against a printer and
  a parser that are inverse to each other.
 */
module IpcCodec {
  import opened Common
  import opened Bytes

  const REQUEST_FIXED: nat := 32
  const RESPONSE_FIXED: nat := 20
  const MAX_PAYLOAD: nat := 1024 * 1024
  const MAX_FDS: nat := 16
  const VERSION: nat := 1

  datatype Result<+T> = Ok(value: T) | Err(error: int)

  datatype Request = Request(
    code: U32, identity: U64, length: U64, access: U32, opaqueBytes: seq<Byte>, indices: seq<U32>)

  datatype Response = Response(code: U32, status: int, identity: U64, opaqueBytes: seq<Byte>, indices: seq<U32>)

  datatype Envelope = Envelope(code: nat, isResponse: bool, status: int, payloadLength: nat, fdCount: nat)

  datatype Message = Message(envelope: Envelope, payload: seq<Byte>, fds: seq<int>)

  // ----- the variable part: opaque bytes, then the descriptor indices

  function IndexBytes(indices: seq<U32>): (s: seq<Byte>)
    ensures |s| == 4 * |indices|
  {
    if indices == [] then [] else IndexBytes(indices[..|indices| - 1]) + ToBE(4, indices[|indices| - 1])
  }

  lemma FourBytes(s: seq<Byte>)
    requires |s| == 4
    ensures FromBE(s) < 0x1_0000_0000
  {
    UniqueBE(s);
    Widths();
  }

  function ReadU32(s: seq<Byte>, at: nat): U32
    requires at + 4 <= |s|
  {
    FourBytes(s[at..at + 4]);
    FromBE(s[at..at + 4])
  }

  lemma EightBytes(s: seq<Byte>)
    requires |s| == 8
    ensures FromBE(s) < 0x1_0000_0000_0000_0000
  {
    UniqueBE(s);
    Widths();
  }

  function ReadU64(s: seq<Byte>, at: nat): U64
    requires at + 8 <= |s|
  {
    EightBytes(s[at..at + 8]);
    FromBE(s[at..at + 8])
  }

  function ParseIndices(s: seq<Byte>, at: nat, count: nat): (r: seq<U32>)
    requires at + 4 * count <= |s|
    ensures |r| == count
  {
    if count == 0 then [] else ParseIndices(s, at, count - 1) + [ReadU32(s, at + 4 * (count - 1))]
  }

  lemma ReadBack32(s: seq<Byte>, at: nat, x: U32)
    requires at + 4 <= |s| && s[at..at + 4] == ToBE(4, x)
    ensures ReadU32(s, at) == x
  {
    Widths();
    RoundTripBE(4, x);
  }

  lemma ReadBack64(s: seq<Byte>, at: nat, x: U64)
    requires at + 8 <= |s| && s[at..at + 8] == ToBE(8, x)
    ensures ReadU64(s, at) == x
  {
    Widths();
    RoundTripBE(8, x);
  }

  lemma WriteBack(s: seq<Byte>, at: nat, n: nat)
    requires at + n <= |s|
    ensures ToBE(n, FromBE(s[at..at + n])) == s[at..at + n]
  {
    UniqueBE(s[at..at + n]);
  }

  lemma Print32(s: seq<Byte>, at: nat)
    requires at + 4 <= |s|
    ensures ToBE(4, ReadU32(s, at)) == s[at..at + 4]
  {
    WriteBack(s, at, 4);
  }

  lemma Print64(s: seq<Byte>, at: nat)
    requires at + 8 <= |s|
    ensures ToBE(8, ReadU64(s, at)) == s[at..at + 8]
  {
    WriteBack(s, at, 8);
  }

  lemma Split(s: seq<Byte>, i: nat, j: nat, k: nat)
    requires i <= j <= k <= |s|
    ensures s[i..k] == s[i..j] + s[j..k]
  {
  }

  /** Parsing printed indices gives them back. */
  lemma {:induction false} IndicesRoundTrip(s: seq<Byte>, at: nat, indices: seq<U32>)
    requires at + 4 * |indices| <= |s| && s[at..at + 4 * |indices|] == IndexBytes(indices)
    ensures ParseIndices(s, at, |indices|) == indices
  {
    hide ToBE, FromBE, ReadU32;
    if indices != [] {
      var n := |indices| - 1;
      var all, init := s[at..at + 4 * |indices|], indices[..n];
      assert s[at..at + 4 * n] == all[..4 * n] == IndexBytes(init);
      IndicesRoundTrip(s, at, init);
      assert s[at + 4 * n..at + 4 * n + 4] == all[4 * n..] == ToBE(4, indices[n]);
      ReadBack32(s, at + 4 * n, indices[n]);
    }
  }

  /** Printing parsed indices gives the bytes back. */
  lemma {:induction false} IndicesReprint(s: seq<Byte>, at: nat, count: nat)
    requires at + 4 * count <= |s|
    ensures IndexBytes(ParseIndices(s, at, count)) == s[at..at + 4 * count]
  {
    hide ToBE, FromBE, ReadU32;
    if count != 0 {
      var n := count - 1;
      IndicesReprint(s, at, n);
      Print32(s, at + 4 * n);
      var r := ParseIndices(s, at, count);
      assert r[..n] == ParseIndices(s, at, n) && r[n] == ReadU32(s, at + 4 * n);
      Split(s, at, at + 4 * n, at + 4 * count);
    }
  }

  predicate ValidIndices(indices: seq<U32>, fds: nat) { forall i :: 0 <= i < |indices| ==> indices[i] < fds }

  predicate FitsPayload(opaqueSize: nat, count: nat, fixedSize: nat) {
    fixedSize + opaqueSize + 4 * count <= MAX_PAYLOAD
  }

  // ----- printers

  function Prefix(): seq<Byte> { ToBE(2, VERSION) + ToBE(2, 0) }

  function RequestHead(r: Request): (s: seq<Byte>)
    requires |r.opaqueBytes| <= U32_MAX && |r.indices| <= U32_MAX
    ensures |s| == REQUEST_FIXED
  {
    Prefix() + ToBE(8, r.identity) + ToBE(8, r.length) + ToBE(4, r.access) + ToBE(4, |r.opaqueBytes|) + ToBE(4, |r.indices|)
  }

  function RequestBytes(r: Request): seq<Byte>
    requires |r.opaqueBytes| <= U32_MAX && |r.indices| <= U32_MAX
  {
    RequestHead(r) + r.opaqueBytes + IndexBytes(r.indices)
  }

  function ResponseHead(r: Response): (s: seq<Byte>)
    requires |r.opaqueBytes| <= U32_MAX && |r.indices| <= U32_MAX
    ensures |s| == RESPONSE_FIXED
  {
    Prefix() + ToBE(8, r.identity) + ToBE(4, |r.opaqueBytes|) + ToBE(4, |r.indices|)
  }

  function ResponseBytes(r: Response): seq<Byte>
    requires |r.opaqueBytes| <= U32_MAX && |r.indices| <= U32_MAX
  {
    ResponseHead(r) + r.opaqueBytes + IndexBytes(r.indices)
  }

  // ----- parsers

  /** Version, reserved bytes and the two sizes against the payload's length. */
  function CheckPayload(p: seq<Byte>, fixedSize: nat): int
    requires 12 <= fixedSize
  {
    if |p| < fixedSize then EPROTO
    else if FromBE(p[0..2]) != VERSION || FromBE(p[2..4]) != 0 then EPROTONOSUPPORT
    else
      var size, count := ReadU32(p, fixedSize - 8), ReadU32(p, fixedSize - 4);
      if size > |p| - fixedSize || |p| - fixedSize - size != 4 * count then EPROTO else 0
  }

  function ParseRequest(code: U32, p: seq<Byte>): Result<Request> {
    var status := CheckPayload(p, REQUEST_FIXED);
    if status != 0 then Err(-status)
    else
      var size, count := ReadU32(p, 24), ReadU32(p, 28);
      Ok(Request(code, ReadU64(p, 4), ReadU64(p, 12), ReadU32(p, 20),
                 p[REQUEST_FIXED..REQUEST_FIXED + size], ParseIndices(p, REQUEST_FIXED + size, count)))
  }

  function ParseResponse(code: U32, status: int, p: seq<Byte>): Result<Response> {
    var check := CheckPayload(p, RESPONSE_FIXED);
    if check != 0 then Err(-check)
    else
      var size, count := ReadU32(p, 12), ReadU32(p, 16);
      Ok(Response(code, status, ReadU64(p, 4),
                  p[RESPONSE_FIXED..RESPONSE_FIXED + size], ParseIndices(p, RESPONSE_FIXED + size, count)))
  }

  // ----- the two are inverse

  lemma PrefixReads(p: seq<Byte>)
    requires 4 <= |p| && p[..4] == Prefix()
    ensures FromBE(p[0..2]) == VERSION && FromBE(p[2..4]) == 0
  {
    Widths();
    RoundTripBE(2, VERSION);
    RoundTripBE(2, 0);
    assert p[0..2] == p[..4][0..2] == ToBE(2, VERSION) && p[2..4] == p[..4][2..4] == ToBE(2, 0);
  }

  lemma PrefixIs(p: seq<Byte>)
    requires 4 <= |p| && FromBE(p[0..2]) == VERSION && FromBE(p[2..4]) == 0
    ensures p[..4] == Prefix()
  {
    WriteBack(p, 0, 2);
    WriteBack(p, 2, 2);
    assert p[..4] == p[0..2] + p[2..4];
  }

  lemma RequestHeadReads(p: seq<Byte>, r: Request)
    requires |r.opaqueBytes| <= U32_MAX && |r.indices| <= U32_MAX && REQUEST_FIXED <= |p| && p[..REQUEST_FIXED] == RequestHead(r)
    ensures FromBE(p[0..2]) == VERSION && FromBE(p[2..4]) == 0
    ensures ReadU64(p, 4) == r.identity && ReadU64(p, 12) == r.length && ReadU32(p, 20) == r.access
    ensures ReadU32(p, 24) == |r.opaqueBytes| && ReadU32(p, 28) == |r.indices|
  {
    hide ToBE, FromBE, ReadU32, ReadU64, Prefix;
    var h := p[..REQUEST_FIXED];
    PrefixLength();
    assert p[..4] == h[..4] == Prefix();
    assert p[4..12] == h[4..12] == ToBE(8, r.identity);
    assert p[12..20] == h[12..20] == ToBE(8, r.length);
    assert p[20..24] == h[20..24] == ToBE(4, r.access);
    assert p[24..28] == h[24..28] == ToBE(4, |r.opaqueBytes|);
    assert p[28..32] == h[28..32] == ToBE(4, |r.indices|);
    PrefixReads(p);
    ReadBack64(p, 4, r.identity);
    ReadBack64(p, 12, r.length);
    ReadBack32(p, 20, r.access);
    ReadBack32(p, 24, |r.opaqueBytes|);
    ReadBack32(p, 28, |r.indices|);
  }

  lemma PrefixLength()
    ensures |Prefix()| == 4
  {
  }

  /** Decoding what was encoded returns the request, for all opaque bytes and indices. */
  lemma ParsePrintRequest(r: Request)
    requires |r.opaqueBytes| <= U32_MAX && |r.indices| <= U32_MAX
    ensures ParseRequest(r.code, RequestBytes(r)) == Ok(r)
  {
    var p := RequestBytes(r);
    assert p[..REQUEST_FIXED] == RequestHead(r);
    RequestHeadReads(p, r);
    var at := REQUEST_FIXED + |r.opaqueBytes|;
    assert p[REQUEST_FIXED..at] == r.opaqueBytes;
    assert p[at..at + 4 * |r.indices|] == IndexBytes(r.indices);
    IndicesRoundTrip(p, at, r.indices);
    hide RequestHead, IndexBytes, ReadU32, ReadU64, FromBE, ParseIndices;
  }

  lemma RequestHeadIs(p: seq<Byte>, r: Request)
    requires |r.opaqueBytes| <= U32_MAX && |r.indices| <= U32_MAX && REQUEST_FIXED <= |p|
    requires FromBE(p[0..2]) == VERSION && FromBE(p[2..4]) == 0
    requires ReadU64(p, 4) == r.identity && ReadU64(p, 12) == r.length && ReadU32(p, 20) == r.access
    requires ReadU32(p, 24) == |r.opaqueBytes| && ReadU32(p, 28) == |r.indices|
    ensures p[..REQUEST_FIXED] == RequestHead(r)
  {
    hide ToBE, FromBE, Prefix, ReadU32, ReadU64;
    PrefixIs(p);
    Print64(p, 4);
    Print64(p, 12);
    Print32(p, 20);
    Print32(p, 24);
    Print32(p, 28);
    Split(p, 0, 28, 32);
    Split(p, 0, 24, 28);
    Split(p, 0, 20, 24);
    Split(p, 0, 12, 20);
    Split(p, 0, 4, 12);
  }

  /** Any accepted payload is the encoding of what was decoded. */
  lemma PrintParseRequest(code: U32, p: seq<Byte>)
    requires ParseRequest(code, p).Ok?
    ensures var r := ParseRequest(code, p).value;
            && r.code == code && |r.opaqueBytes| <= U32_MAX && |r.indices| <= U32_MAX && RequestBytes(r) == p
  {
    hide RequestHead, IndexBytes, ReadU32, ReadU64, FromBE, ParseIndices;
    var r := ParseRequest(code, p).value;
    RequestHeadIs(p, r);
    var at := REQUEST_FIXED + |r.opaqueBytes|;
    IndicesReprint(p, at, |r.indices|);
    Split(p, 0, REQUEST_FIXED, at);
    Split(p, 0, at, |p|);
    assert p[0..|p|] == p;
  }

  lemma ResponseHeadReads(p: seq<Byte>, r: Response)
    requires |r.opaqueBytes| <= U32_MAX && |r.indices| <= U32_MAX && RESPONSE_FIXED <= |p| && p[..RESPONSE_FIXED] == ResponseHead(r)
    ensures FromBE(p[0..2]) == VERSION && FromBE(p[2..4]) == 0 && ReadU64(p, 4) == r.identity
    ensures ReadU32(p, 12) == |r.opaqueBytes| && ReadU32(p, 16) == |r.indices|
  {
    hide ToBE, FromBE, ReadU32, ReadU64, Prefix;
    var h := p[..RESPONSE_FIXED];
    PrefixLength();
    assert p[..4] == h[..4] == Prefix();
    assert p[4..12] == h[4..12] == ToBE(8, r.identity);
    assert p[12..16] == h[12..16] == ToBE(4, |r.opaqueBytes|);
    assert p[16..20] == h[16..20] == ToBE(4, |r.indices|);
    PrefixReads(p);
    ReadBack64(p, 4, r.identity);
    ReadBack32(p, 12, |r.opaqueBytes|);
    ReadBack32(p, 16, |r.indices|);
  }

  lemma ParsePrintResponse(r: Response)
    requires |r.opaqueBytes| <= U32_MAX && |r.indices| <= U32_MAX
    ensures ParseResponse(r.code, r.status, ResponseBytes(r)) == Ok(r)
  {
    var p := ResponseBytes(r);
    assert p[..RESPONSE_FIXED] == ResponseHead(r);
    ResponseHeadReads(p, r);
    var at := RESPONSE_FIXED + |r.opaqueBytes|;
    assert p[RESPONSE_FIXED..at] == r.opaqueBytes;
    assert p[at..at + 4 * |r.indices|] == IndexBytes(r.indices);
    IndicesRoundTrip(p, at, r.indices);
    hide ResponseHead, IndexBytes, ReadU32, ReadU64, FromBE, ParseIndices;
  }

  lemma ResponseHeadIs(p: seq<Byte>, r: Response)
    requires |r.opaqueBytes| <= U32_MAX && |r.indices| <= U32_MAX && RESPONSE_FIXED <= |p|
    requires FromBE(p[0..2]) == VERSION && FromBE(p[2..4]) == 0 && ReadU64(p, 4) == r.identity
    requires ReadU32(p, 12) == |r.opaqueBytes| && ReadU32(p, 16) == |r.indices|
    ensures p[..RESPONSE_FIXED] == ResponseHead(r)
  {
    hide ToBE, FromBE, Prefix, ReadU32, ReadU64;
    PrefixIs(p);
    Print64(p, 4);
    Print32(p, 12);
    Print32(p, 16);
    Split(p, 0, 16, 20);
    Split(p, 0, 12, 16);
    Split(p, 0, 4, 12);
  }

  lemma PrintParseResponse(code: U32, status: int, p: seq<Byte>)
    requires ParseResponse(code, status, p).Ok?
    ensures var r := ParseResponse(code, status, p).value;
            && r.code == code && r.status == status && |r.opaqueBytes| <= U32_MAX && |r.indices| <= U32_MAX
            && ResponseBytes(r) == p
  {
    hide ResponseHead, IndexBytes, ReadU32, ReadU64, FromBE, ParseIndices;
    var r := ParseResponse(code, status, p).value;
    ResponseHeadIs(p, r);
    var at := RESPONSE_FIXED + |r.opaqueBytes|;
    IndicesReprint(p, at, |r.indices|);
    Split(p, 0, RESPONSE_FIXED, at);
    Split(p, 0, at, |p|);
    assert p[0..|p|] == p;
  }

  // ----- messages

  predicate Encodable(code: U32, opaqueSize: nat, indices: seq<U32>, fds: nat, fixedSize: nat) {
    code != 0 && fds <= MAX_FDS && ValidIndices(indices, fds) && FitsPayload(opaqueSize, |indices|, fixedSize)
  }

  function RequestMessage(r: Request, fds: seq<int>): Message
    requires Encodable(r.code, |r.opaqueBytes|, r.indices, |fds|, REQUEST_FIXED)
  {
    Message(Envelope(r.code, false, 0, |RequestBytes(r)|, |fds|), RequestBytes(r), fds)
  }

  function ResponseMessage(r: Response, fds: seq<int>): Message
    requires Encodable(r.code, |r.opaqueBytes|, r.indices, |fds|, RESPONSE_FIXED)
  {
    Message(Envelope(r.code, true, r.status, |ResponseBytes(r)|, |fds|), ResponseBytes(r), fds)
  }

  predicate Framed(m: Message) {
    |m.fds| <= MAX_FDS && m.envelope.fdCount == |m.fds| && m.envelope.payloadLength == |m.payload|
  }

  function RequestOf(m: Message): Result<Request> {
    if m.envelope.code == 0 || m.envelope.code > U32_MAX || m.envelope.isResponse then Err(-EINVAL)
    else if !Framed(m) then Err(-EPROTO)
    else
      match ParseRequest(m.envelope.code, m.payload)
      case Err(e) => Err(e)
      case Ok(r) => if ValidIndices(r.indices, |m.fds|) then Ok(r) else Err(-EPROTO)
  }

  function ResponseOf(m: Message): Result<Response> {
    if m.envelope.code == 0 || m.envelope.code > U32_MAX || !m.envelope.isResponse then Err(-EINVAL)
    else if !Framed(m) then Err(-EPROTO)
    else
      match ParseResponse(m.envelope.code, m.envelope.status, m.payload)
      case Err(e) => Err(e)
      case Ok(r) => if ValidIndices(r.indices, |m.fds|) then Ok(r) else Err(-EPROTO)
  }

  /** A request that can be sent is received as it was sent. */
  lemma RequestDelivered(r: Request, fds: seq<int>)
    requires Encodable(r.code, |r.opaqueBytes|, r.indices, |fds|, REQUEST_FIXED)
    ensures RequestOf(RequestMessage(r, fds)) == Ok(r)
  {
    ParsePrintRequest(r);
    hide ParseRequest, RequestBytes;
  }

  lemma ResponseDelivered(r: Response, fds: seq<int>)
    requires Encodable(r.code, |r.opaqueBytes|, r.indices, |fds|, RESPONSE_FIXED)
    ensures ResponseOf(ResponseMessage(r, fds)) == Ok(r)
  {
    ParsePrintResponse(r);
    hide ParseResponse, ResponseBytes;
  }

  /** An accepted message within the size limit is exactly what its request encodes to. */
  lemma RequestCanonical(m: Message)
    requires RequestOf(m).Ok? && |m.payload| <= MAX_PAYLOAD && m.envelope.status == 0
    ensures var r := RequestOf(m).value;
            Encodable(r.code, |r.opaqueBytes|, r.indices, |m.fds|, REQUEST_FIXED) && RequestMessage(r, m.fds) == m
  {
    PrintParseRequest(m.envelope.code, m.payload);
    var r := RequestOf(m).value;
    hide ParseRequest, RequestHead, IndexBytes;
    assert |m.payload| == REQUEST_FIXED + |r.opaqueBytes| + 4 * |r.indices|;
  }

  lemma ResponseCanonical(m: Message)
    requires ResponseOf(m).Ok? && |m.payload| <= MAX_PAYLOAD
    ensures var r := ResponseOf(m).value;
            Encodable(r.code, |r.opaqueBytes|, r.indices, |m.fds|, RESPONSE_FIXED) && ResponseMessage(r, m.fds) == m
  {
    PrintParseResponse(m.envelope.code, m.envelope.status, m.payload);
    var r := ResponseOf(m).value;
    hide ParseResponse, ResponseHead, IndexBytes;
    assert |m.payload| == RESPONSE_FIXED + |r.opaqueBytes| + 4 * |r.indices|;
  }

  // ----- refusals

  /** The first four bytes of every payload: version 1 and two reserved bytes. */
  lemma VersionBytes(p: seq<Byte>)
    requires 4 <= |p|
    ensures FromBE(p[0..2]) == VERSION && FromBE(p[2..4]) == 0 <==> p[..4] == [0, 1, 0, 0]
  {
    TwoBytes(p[0..2]);
    TwoBytes(p[2..4]);
    hide FromBE;
  }

  lemma TwoBytes(s: seq<Byte>)
    requires |s| == 2
    ensures FromBE(s) == (s[0] as int) * 256 + (s[1] as int)
  {
    var first := s[..1];
    assert FromBE(first[..0]) == 0;
    assert FromBE(first) == 256 * FromBE(first[..0]) + first[0];
  }

  /** Why a decoder refuses: the wrong kind of message (22), an unknown version (93), or anything else (71). */
  function RefusalOf(m: Message, wrongKind: bool, fixedSize: nat): int {
    if m.envelope.code == 0 || wrongKind then -22
    else if |m.fds| <= 16 && m.envelope.fdCount == |m.fds| && m.envelope.payloadLength == |m.payload|
            && fixedSize <= |m.payload| && 4 <= |m.payload| && m.payload[..4] != [0, 1, 0, 0] then -93
    else -71
  }

  lemma RequestRefusals(m: Message)
    requires m.envelope.code <= U32_MAX && RequestOf(m).Err?
    ensures RequestOf(m).error == RefusalOf(m, m.envelope.isResponse, 32)
  {
    hide FromBE, ReadU32, ReadU64, ParseIndices;
    if 4 <= |m.payload| { VersionBytes(m.payload); }
  }

  lemma ResponseRefusals(m: Message)
    requires m.envelope.code <= U32_MAX && ResponseOf(m).Err?
    ensures ResponseOf(m).error == RefusalOf(m, !m.envelope.isResponse, 20)
  {
    hide FromBE, ReadU32, ReadU64, ParseIndices;
    if 4 <= |m.payload| { VersionBytes(m.payload); }
  }

  // ----- the encoders and decoders

  method CheckIndices(indices: seq<U32>, descriptors: nat) returns (ok: bool)
    ensures ok == ValidIndices(indices, descriptors)
  {
    for i := 0 to |indices|
      invariant ValidIndices(indices[..i], descriptors)
    {
      if indices[i] >= descriptors { return false; }
    }
    assert indices[..|indices|] == indices;
    return true;
  }

  /** The overflow-safe length test is the plain sum against the limit. */
  method ValidateLengths(opaqueSize: nat, count: nat, fixedSize: nat) returns (status: int)
    requires fixedSize <= MAX_PAYLOAD
    ensures status == if FitsPayload(opaqueSize, count, fixedSize) then 0 else -EMSGSIZE
  {
    if opaqueSize > U32_MAX || count > U32_MAX || count > (MAX_PAYLOAD - fixedSize) / 4 { return -EMSGSIZE; }
    var indexBytes := count * 4;
    if opaqueSize > MAX_PAYLOAD - fixedSize - indexBytes { return -EMSGSIZE; }
    return 0;
  }

  method AppendIndices(payload: seq<Byte>, indices: seq<U32>) returns (r: seq<Byte>)
    ensures r == payload + IndexBytes(indices)
  {
    r := payload;
    for i := 0 to |indices|
      invariant r == payload + IndexBytes(indices[..i])
    {
      assert indices[..i + 1][..i] == indices[..i];
      r := r + ToBE(4, indices[i]);
    }
    assert indices[..|indices|] == indices;
  }

  /** Reads with an advancing offset; false when the payload ends first. */
  method ReadIndices(payload: seq<Byte>, start: nat, count: nat) returns (ok: bool, offset: nat, indices: seq<U32>)
    requires start <= |payload|
    ensures ok == (start + 4 * count <= |payload|)
    ensures ok ==> offset == start + 4 * count && indices == ParseIndices(payload, start, count)
  {
    offset, indices := start, [];
    for i := 0 to count
      invariant offset == start + 4 * i <= |payload| && indices == ParseIndices(payload, start, i)
    {
      if |payload| - offset < 4 { return false, offset, indices; }
      indices := indices + [ReadU32(payload, offset)];
      offset := offset + 4;
    }
    return true, offset, indices;
  }

  method EncodeRequest(r: Request, fds: seq<int>) returns (m: Result<Message>)
    ensures m.Ok? <==> Encodable(r.code, |r.opaqueBytes|, r.indices, |fds|, REQUEST_FIXED)
    ensures m.Ok? ==> m.value == RequestMessage(r, fds)
    ensures m.Err? ==> m.error == if r.code == 0 || |fds| > MAX_FDS || !ValidIndices(r.indices, |fds|) then -EINVAL else -EMSGSIZE
  {
    hide ToBE;
    if r.code == 0 || |fds| > MAX_FDS { return Err(-EINVAL); }
    var valid := CheckIndices(r.indices, |fds|);
    if !valid { return Err(-EINVAL); }
    var status := ValidateLengths(|r.opaqueBytes|, |r.indices|, REQUEST_FIXED);
    if status != 0 { return Err(status); }
    var payload := ToBE(2, VERSION) + ToBE(2, 0);
    payload := payload + ToBE(8, r.identity);
    payload := payload + ToBE(8, r.length);
    payload := payload + ToBE(4, r.access);
    payload := payload + ToBE(4, |r.opaqueBytes|);
    payload := payload + ToBE(4, |r.indices|);
    assert payload == RequestHead(r);
    payload := payload + r.opaqueBytes;
    payload := AppendIndices(payload, r.indices);
    return Ok(Message(Envelope(r.code, false, 0, |payload|, |fds|), payload, fds));
  }

  method EncodeResponse(r: Response, fds: seq<int>) returns (m: Result<Message>)
    ensures m.Ok? <==> Encodable(r.code, |r.opaqueBytes|, r.indices, |fds|, RESPONSE_FIXED)
    ensures m.Ok? ==> m.value == ResponseMessage(r, fds)
    ensures m.Err? ==> m.error == if r.code == 0 || |fds| > MAX_FDS || !ValidIndices(r.indices, |fds|) then -EINVAL else -EMSGSIZE
  {
    hide ToBE;
    if r.code == 0 || |fds| > MAX_FDS { return Err(-EINVAL); }
    var valid := CheckIndices(r.indices, |fds|);
    if !valid { return Err(-EINVAL); }
    var status := ValidateLengths(|r.opaqueBytes|, |r.indices|, RESPONSE_FIXED);
    if status != 0 { return Err(status); }
    var payload := ToBE(2, VERSION) + ToBE(2, 0);
    payload := payload + ToBE(8, r.identity);
    payload := payload + ToBE(4, |r.opaqueBytes|);
    payload := payload + ToBE(4, |r.indices|);
    assert payload == ResponseHead(r);
    payload := payload + r.opaqueBytes;
    payload := AppendIndices(payload, r.indices);
    return Ok(Message(Envelope(r.code, true, r.status, |payload|, |fds|), payload, fds));
  }

  method DecodeRequest(m: Message) returns (d: Result<Request>)
    requires m.envelope.code <= U32_MAX
    ensures d == RequestOf(m)
  {
    hide FromBE, ReadU32, ReadU64, ParseIndices;
    if m.envelope.code == 0 || m.envelope.isResponse { return Err(-EINVAL); }
    if !Framed(m) || |m.payload| < REQUEST_FIXED { return Err(-EPROTO); }
    var p := m.payload;
    if FromBE(p[0..2]) != VERSION || FromBE(p[2..4]) != 0 { return Err(-EPROTONOSUPPORT); }
    var identity, length, access := ReadU64(p, 4), ReadU64(p, 12), ReadU32(p, 20);
    var size: nat, count: nat := ReadU32(p, 24), ReadU32(p, 28);
    var offset := REQUEST_FIXED;
    if size > |p| - offset || |p| - offset - size != count * 4 { return Err(-EPROTO); }
    var opaqueBytes := p[offset..offset + size];
    offset := offset + size;
    var ok, indices;
    ok, offset, indices := ReadIndices(p, offset, count);
    if !ok { return Err(-EPROTO); }
    var valid := CheckIndices(indices, |m.fds|);
    if !valid { return Err(-EPROTO); }
    return Ok(Request(m.envelope.code, identity, length, access, opaqueBytes, indices));
  }

  method DecodeResponse(m: Message) returns (d: Result<Response>)
    requires m.envelope.code <= U32_MAX
    ensures d == ResponseOf(m)
  {
    hide FromBE, ReadU32, ReadU64, ParseIndices;
    if m.envelope.code == 0 || !m.envelope.isResponse { return Err(-EINVAL); }
    if !Framed(m) || |m.payload| < RESPONSE_FIXED { return Err(-EPROTO); }
    var p := m.payload;
    if FromBE(p[0..2]) != VERSION || FromBE(p[2..4]) != 0 { return Err(-EPROTONOSUPPORT); }
    var identity := ReadU64(p, 4);
    var size: nat, count: nat := ReadU32(p, 12), ReadU32(p, 16);
    var offset := RESPONSE_FIXED;
    if size > |p| - offset || |p| - offset - size != count * 4 { return Err(-EPROTO); }
    var opaqueBytes := p[offset..offset + size];
    offset := offset + size;
    var ok, indices;
    ok, offset, indices := ReadIndices(p, offset, count);
    if !ok { return Err(-EPROTO); }
    var valid := CheckIndices(indices, |m.fds|);
    if !valid { return Err(-EPROTO); }
    return Ok(Response(m.envelope.code, m.envelope.status, identity, opaqueBytes, indices));
  }
}
