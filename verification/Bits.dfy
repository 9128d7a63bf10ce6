/** Bytes, powers of two and little-endian words. */
module Bits {

  type byte = n: int | 0 <= n < 256

  const UINT32: int := 0x1_0000_0000
  const UINT64: int := 0x1_0000_0000_0000_0000

  function Pow2(k: nat): (p: nat)
    ensures p >= 1
  {
    if k == 0 then 1 else 2 * Pow2(k - 1)
  }

  lemma {:induction false} Pow2Monotone(j: nat, k: nat)
    requires j < k
    ensures 2 * Pow2(j) <= Pow2(k)
  {
    if j + 1 < k {
      Pow2Monotone(j, k - 1);
    }
  }

  lemma Pow2Values()
    ensures Pow2(3) == 8 && Pow2(4) == 16 && Pow2(5) == 32 && Pow2(7) == 128
    ensures Pow2(10) == 1024 && Pow2(15) == 32768 && Pow2(32) == UINT32
  {
    assert Pow2(10) == 32 * Pow2(5) by { assert Pow2(7) == 4 * Pow2(5); assert Pow2(10) == 8 * Pow2(7); }
    assert Pow2(13) == 8 * Pow2(10);
    assert Pow2(15) == 4 * Pow2(13);
    assert Pow2(20) == 32 * Pow2(15) by { assert Pow2(18) == 8 * Pow2(15); assert Pow2(20) == 4 * Pow2(18); }
    assert Pow2(26) == 64 * Pow2(20) by { assert Pow2(23) == 8 * Pow2(20); assert Pow2(26) == 8 * Pow2(23); }
    assert Pow2(32) == 64 * Pow2(26) by { assert Pow2(29) == 8 * Pow2(26); assert Pow2(32) == 8 * Pow2(29); }
  }

  /** The value of a byte string read with its least significant byte first. */
  function LittleEndian(s: seq<byte>): nat {
    if s == [] then 0 else s[0] + 256 * LittleEndian(s[1..])
  }

  /** The n low bytes of w, least significant first. */
  function ToLittleEndian(w: nat, n: nat): (s: seq<byte>)
    ensures |s| == n
  {
    if n == 0 then [] else [w % 256] + ToLittleEndian(w / 256, n - 1)
  }

  function Pow256(n: nat): (p: nat)
    ensures p >= 1
  {
    if n == 0 then 1 else 256 * Pow256(n - 1)
  }

  lemma {:induction false} WordOfBytes(w: nat, n: nat)
    requires w < Pow256(n)
    ensures LittleEndian(ToLittleEndian(w, n)) == w
  {
    if n > 0 {
      assert w / 256 < Pow256(n - 1);
      WordOfBytes(w / 256, n - 1);
      assert ToLittleEndian(w, n)[1..] == ToLittleEndian(w / 256, n - 1);
    }
  }

  lemma {:induction false} BytesOfWord(s: seq<byte>)
    ensures LittleEndian(s) < Pow256(|s|)
    ensures ToLittleEndian(LittleEndian(s), |s|) == s
  {
    if s != [] {
      BytesOfWord(s[1..]);
      assert LittleEndian(s) % 256 == s[0] && LittleEndian(s) / 256 == LittleEndian(s[1..]);
      assert s == [s[0]] + s[1..];
    }
  }

  lemma Pow256Word()
    ensures Pow256(8) == UINT64
  {
  }

  /** memcpy into a buffer at an offset */
  method CopyInto(buf: array<byte>, offset: nat, bytes: seq<byte>)
    requires offset + |bytes| <= buf.Length
    modifies buf
    ensures buf[..] == old(buf[..])[..offset] + bytes + old(buf[..])[offset + |bytes|..]
  {
    for i := 0 to |bytes|
      invariant forall k :: 0 <= k < buf.Length ==>
                  buf[k] == if offset <= k < offset + i then bytes[k - offset] else old(buf[k])
    {
      buf[offset + i] := bytes[i];
    }
  }
}
