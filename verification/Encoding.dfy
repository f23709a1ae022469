/** Fixed-width integers in a hash preimage, and why a length prefix makes a field self-delimiting. */
module Encoding {
  import opened Common

  const U32: nat := 0x1_0000_0000
  const U64: nat := 0x1_0000_0000_0000_0000

  function Pow256(k: nat): nat {
    if k == 0 then 1 else 256 * Pow256(k - 1)
  }

  /** `to_le_bytes` of a `k`-byte integer. */
  function LittleEndian(n: nat, k: nat): (r: seq<byte>)
    ensures |r| == k
  {
    if k == 0 then [] else [n % 256] + LittleEndian(n / 256, k - 1)
  }

  /** `to_be_bytes` of a `k`-byte integer. */
  function BigEndian(n: nat, k: nat): (r: seq<byte>)
    ensures |r| == k
  {
    if k == 0 then [] else BigEndian(n / 256, k - 1) + [n % 256]
  }

  lemma {:induction false} LittleEndianInjective(n: nat, m: nat, k: nat)
    requires n < Pow256(k) && m < Pow256(k)
    requires LittleEndian(n, k) == LittleEndian(m, k)
    ensures n == m
  {
    if k > 0 {
      SplitEqual([n % 256], LittleEndian(n / 256, k - 1), [m % 256], LittleEndian(m / 256, k - 1));
      assert [n % 256][0] == [m % 256][0];
      LittleEndianInjective(n / 256, m / 256, k - 1);
    }
  }

  lemma {:induction false} BigEndianInjective(n: nat, m: nat, k: nat)
    requires n < Pow256(k) && m < Pow256(k)
    requires BigEndian(n, k) == BigEndian(m, k)
    ensures n == m
  {
    if k > 0 {
      SplitEqual(BigEndian(n / 256, k - 1), [n % 256], BigEndian(m / 256, k - 1), [m % 256]);
      assert [n % 256][0] == [m % 256][0];
      BigEndianInjective(n / 256, m / 256, k - 1);
    }
  }

  lemma Powers()
    ensures Pow256(4) == U32 && Pow256(8) == U64
  {
    assert Pow256(2) == 0x1_0000;
    assert Pow256(4) == 0x1_0000 * Pow256(2);
    assert Pow256(6) == 0x1_0000 * Pow256(4);
    assert Pow256(8) == 0x1_0000 * Pow256(6);
  }

  /** A byte string behind its 64-bit length: little-endian in manifests, big-endian in pins. */
  function PrefixedLittle(s: seq<byte>): seq<byte> {
    LittleEndian(|s|, 8) + s
  }

  function PrefixedBig(s: seq<byte>): seq<byte> {
    BigEndian(|s|, 8) + s
  }

  lemma PrefixedLittleSplits(s: seq<byte>, x: seq<byte>, t: seq<byte>, y: seq<byte>)
    requires |s| < U64 && |t| < U64
    requires PrefixedLittle(s) + x == PrefixedLittle(t) + y
    ensures s == t && x == y
  {
    assert PrefixedLittle(s) + x == LittleEndian(|s|, 8) + (s + x);
    assert PrefixedLittle(t) + y == LittleEndian(|t|, 8) + (t + y);
    SplitEqual(LittleEndian(|s|, 8), s + x, LittleEndian(|t|, 8), t + y);
    Powers();
    LittleEndianInjective(|s|, |t|, 8);
    SplitEqual(s, x, t, y);
  }

  lemma PrefixedBigSplits(s: seq<byte>, x: seq<byte>, t: seq<byte>, y: seq<byte>)
    requires |s| < U64 && |t| < U64
    requires PrefixedBig(s) + x == PrefixedBig(t) + y
    ensures s == t && x == y
  {
    assert PrefixedBig(s) + x == BigEndian(|s|, 8) + (s + x);
    assert PrefixedBig(t) + y == BigEndian(|t|, 8) + (t + y);
    SplitEqual(BigEndian(|s|, 8), s + x, BigEndian(|t|, 8), t + y);
    Powers();
    BigEndianInjective(|s|, |t|, 8);
    SplitEqual(s, x, t, y);
  }
}
