/** Object identities: type, generation and slot packed into 64 bits (src/control/object_identity.cpp). */
module ObjectIdentity {
  import opened Common

  const MAX_SLOT: nat := 0x00FF_FFFF
  const MAX_GENERATION: nat := 0xFFFF_FFFF
  const TYPE_CONTEXT: nat := 1
  const TYPE_PD: nat := 2
  const TYPE_MR: nat := 3
  const TYPE_CQ: nat := 4
  const TYPE_QP: nat := 5

  const TWO_24: nat := 0x100_0000
  const TWO_56: nat := 0x100_0000_0000_0000

  datatype Parts = Parts(kind: nat, generation: nat, slot: nat)

  /** The fields fit their C++ types. */
  predicate Typed(p: Parts) { p.kind < 256 && p.generation <= MAX_GENERATION && p.slot <= 0xFFFF_FFFF }

  /** kind << 56 | generation << 24 | slot, the fields not overlapping. */
  function Pack(p: Parts): nat { p.kind * TWO_56 + p.generation * TWO_24 + p.slot }

  function Encode(p: Parts): Option<nat> {
    if p.kind == 0 || p.generation == 0 || p.slot > MAX_SLOT then None else Some(Pack(p))
  }

  function Unpack(identity: nat): Parts {
    Parts(identity / TWO_56, identity / TWO_24 % 0x1_0000_0000, identity % TWO_24)
  }

  function Decode(identity: nat): Option<Parts> {
    var p := Unpack(identity);
    if identity == 0 || p.kind == 0 || p.generation == 0 then None else Some(p)
  }

  lemma UnpackPack(p: Parts)
    requires p.generation <= MAX_GENERATION && p.slot <= MAX_SLOT
    ensures Unpack(Pack(p)) == p
  {
    assert Pack(p) / TWO_24 == p.kind * 0x1_0000_0000 + p.generation;
  }

  /**
    Whatever can be encoded decodes to itself: the type in the top 8 bits, the
    generation in the next 32, the slot in the low 24; a type or generation of
    0 and a slot beyond 24 bits cannot be encoded.
   */
  lemma DecodeEncode(p: Parts)
    requires Typed(p)
    ensures Encode(p).Some? <==> 0 < p.kind && 0 < p.generation && p.slot < 0x100_0000
    ensures Encode(p).Some? ==>
              var id := Encode(p).value;
              && id < 0x1_0000_0000_0000_0000 && Decode(id) == Some(p)
              && id / 0x100_0000_0000_0000 == p.kind && id / 0x100_0000 % 0x1_0000_0000 == p.generation && id % 0x100_0000 == p.slot
  {
    if Encode(p).Some? { UnpackPack(p); }
  }

  /** Whatever decodes encodes to the same identity. */
  lemma EncodeDecode(identity: nat)
    requires identity < 0x1_0000_0000_0000_0000 && Decode(identity).Some?
    ensures Typed(Decode(identity).value) && Encode(Decode(identity).value) == Some(identity)
  {
    var high := identity / TWO_24;
    assert identity == high * TWO_24 + identity % TWO_24;
    assert high / 0x1_0000_0000 == identity / TWO_56;
    assert high == high / 0x1_0000_0000 * 0x1_0000_0000 + high % 0x1_0000_0000;
  }
}
