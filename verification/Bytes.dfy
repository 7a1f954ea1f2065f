/** Little-endian integers in byte sequences, and copies of byte ranges. */
module Bytes {

  newtype byte = x: int | 0 <= x < 256

  function Pow256(n: nat): (p: nat)
    ensures p > 0
  {
    if n == 0 then 1 else 256 * Pow256(n - 1)
  }

  function Encode(v: nat, n: nat): (s: seq<byte>)
    ensures |s| == n
  {
    if n == 0 then [] else [(v % 256) as byte] + Encode(v / 256, n - 1)
  }

  function Decode(s: seq<byte>): nat {
    if s == [] then 0 else s[0] as nat + 256 * Decode(s[1..])
  }

  lemma {:induction false} DecodeEncode(v: nat, n: nat)
    requires v < Pow256(n)
    ensures Decode(Encode(v, n)) == v
  {
    if n != 0 {
      assert Encode(v, n)[1..] == Encode(v / 256, n - 1);
      DecodeEncode(v / 256, n - 1);
    }
  }

  /** Two's complement in `n` bytes. */
  function EncodeSigned(v: int, n: nat): (s: seq<byte>)
    requires 0 <= 2 * v + Pow256(n) < 2 * Pow256(n)
    ensures |s| == n
  {
    Encode(if v < 0 then v + Pow256(n) else v, n)
  }

  function DecodeSigned(s: seq<byte>): int {
    var u := Decode(s);
    if 2 * u >= Pow256(|s|) then u - Pow256(|s|) else u
  }

  lemma SignedRoundTrip(v: int, n: nat)
    requires 0 <= 2 * v + Pow256(n) < 2 * Pow256(n)
    ensures DecodeSigned(EncodeSigned(v, n)) == v
  {
    DecodeEncode(if v < 0 then v + Pow256(n) else v, n);
  }

  lemma Widths()
    ensures Pow256(4) == 0x1_0000_0000
    ensures Pow256(8) == 0x1_0000_0000_0000_0000
  {
    assert Pow256(2) == 256 * Pow256(1);
    assert Pow256(3) == 256 * Pow256(2);
    assert Pow256(4) == 256 * Pow256(3);
    assert Pow256(5) == 256 * Pow256(4);
    assert Pow256(6) == 256 * Pow256(5);
    assert Pow256(7) == 256 * Pow256(6);
    assert Pow256(8) == 256 * Pow256(7);
  }

  /** `s` with the bytes from `off` on replaced by `b`. */
  function Patched(s: seq<byte>, off: nat, b: seq<byte>): (r: seq<byte>)
    requires off + |b| <= |s|
    ensures |r| == |s|
  {
    s[..off] + b + s[off + |b|..]
  }

  lemma ReadPatched(s: seq<byte>, off: nat, b: seq<byte>)
    requires off + |b| <= |s|
    ensures Patched(s, off, b)[off..off + |b|] == b
  {}

  lemma ReadBeside(s: seq<byte>, off: nat, b: seq<byte>, from: nat, to: nat)
    requires off + |b| <= |s| && from <= to <= |s| && (to <= off || off + |b| <= from)
    ensures Patched(s, off, b)[from..to] == s[from..to]
  {}

  /** memcpy into `a` at `off`. */
  method Copy(a: array<byte>, off: nat, b: seq<byte>)
    requires off + |b| <= a.Length
    modifies a
    ensures a[..] == Patched(old(a[..]), off, b)
  {
    for i := 0 to |b|
      invariant a[..] == Patched(old(a[..]), off, b[..i])
    {
      a[off + i] := b[i];
    }
    assert b[..|b|] == b;
  }
}
