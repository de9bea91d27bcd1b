/** Fixed-width integers as bytes, in both byte orders. */
module Bytes {
  import opened Common

  type Byte = x: nat | x < 256

  function Pow256(n: nat): (r: nat)
    ensures 0 < r
  {
    if n == 0 then 1 else 256 * Pow256(n - 1)
  }

  /** Little-endian: least significant byte first. */
  function ToLE(n: nat, x: nat): (s: seq<Byte>)
    ensures |s| == n
  {
    if n == 0 then [] else [x % 256] + ToLE(n - 1, x / 256)
  }

  function FromLE(s: seq<Byte>): nat {
    if s == [] then 0 else s[0] + 256 * FromLE(s[1..])
  }

  /** Big-endian (network order): most significant byte first. */
  function ToBE(n: nat, x: nat): (s: seq<Byte>)
    ensures |s| == n
  {
    if n == 0 then [] else ToBE(n - 1, x / 256) + [x % 256]
  }

  function FromBE(s: seq<Byte>): nat {
    if s == [] then 0 else 256 * FromBE(s[..|s| - 1]) + s[|s| - 1]
  }

  lemma {:induction false} RoundTripLE(n: nat, x: nat)
    requires x < Pow256(n)
    ensures FromLE(ToLE(n, x)) == x
  {
    if n != 0 {
      RoundTripLE(n - 1, x / 256);
      assert ToLE(n, x)[1..] == ToLE(n - 1, x / 256);
    }
  }

  lemma {:induction false} RoundTripBE(n: nat, x: nat)
    requires x < Pow256(n)
    ensures FromBE(ToBE(n, x)) == x
  {
    if n != 0 {
      RoundTripBE(n - 1, x / 256);
      assert ToBE(n, x)[..n - 1] == ToBE(n - 1, x / 256);
    }
  }

  lemma {:induction false} UniqueBE(s: seq<Byte>)
    ensures FromBE(s) < Pow256(|s|) && ToBE(|s|, FromBE(s)) == s
  {
    if s != [] {
      UniqueBE(s[..|s| - 1]);
      assert s == s[..|s| - 1] + [s[|s| - 1]];
    }
  }

  lemma Widths()
    ensures Pow256(1) == 0x100 && Pow256(2) == 0x1_0000 && Pow256(4) == 0x1_0000_0000
    ensures Pow256(8) == 0x1_0000_0000_0000_0000
  {
    assert Pow256(3) == 256 * Pow256(2);
    assert Pow256(5) == 256 * Pow256(4);
    assert Pow256(6) == 256 * Pow256(5);
    assert Pow256(7) == 256 * Pow256(6);
  }
}
