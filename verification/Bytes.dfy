/** Bytes and the two fixed-width integer layouts the wire formats mix. */
module Bytes {
  type byte = x: int | 0 <= x < 256

  function Pow256(k: nat): (p: nat)
    ensures p >= 1
  {
    if k == 0 then 1 else 256 * Pow256(k - 1)
  }

  /** The low k bytes of v, least significant first. */
  function LittleEndian(v: nat, k: nat): (s: seq<byte>)
    ensures |s| == k
    decreases v, k
  {
    if k == 0 then [] else [v % 256] + LittleEndian(v / 256, k - 1)
  }

  function FromLittleEndian(s: seq<byte>): nat {
    if s == [] then 0 else s[0] + 256 * FromLittleEndian(s[1..])
  }

  /** The low k bytes of v, most significant first. */
  function BigEndian(v: nat, k: nat): (s: seq<byte>)
    ensures |s| == k
    decreases v, k
  {
    if k == 0 then [] else BigEndian(v / 256, k - 1) + [v % 256]
  }

  function FromBigEndian(s: seq<byte>): nat {
    if s == [] then 0 else 256 * FromBigEndian(s[..|s| - 1]) + s[|s| - 1]
  }

  lemma {:induction false} LittleEndianRoundTrip(v: nat, k: nat)
    requires v < Pow256(k)
    ensures FromLittleEndian(LittleEndian(v, k)) == v
  {
    if k > 0 {
      assert v / 256 < Pow256(k - 1);
      LittleEndianRoundTrip(v / 256, k - 1);
      assert LittleEndian(v, k)[1..] == LittleEndian(v / 256, k - 1);
    }
  }

  lemma {:induction false} BigEndianRoundTrip(v: nat, k: nat)
    requires v < Pow256(k)
    ensures FromBigEndian(BigEndian(v, k)) == v
  {
    if k > 0 {
      assert v / 256 < Pow256(k - 1);
      BigEndianRoundTrip(v / 256, k - 1);
      assert BigEndian(v, k)[..k - 1] == BigEndian(v / 256, k - 1);
    }
  }

  /** The little-endian number in the n bytes at off. */
  function ReadLE(s: seq<byte>, off: nat, n: nat): nat
    requires off + n <= |s|
    decreases |s| - off, n
  {
    if n == 0 then 0 else s[off] + 256 * ReadLE(s, off + 1, n - 1)
  }

  /** The big-endian number in the n bytes at off. */
  function ReadBE(s: seq<byte>, off: nat, n: nat): nat
    requires off + n <= |s|
    decreases off + n, n
  {
    if n == 0 then 0 else 256 * ReadBE(s, off, n - 1) + s[off + n - 1]
  }

  lemma {:induction false} ReadLEIs(s: seq<byte>, off: nat, n: nat)
    requires off + n <= |s|
    ensures ReadLE(s, off, n) == FromLittleEndian(s[off..off + n])
    decreases n
  {
    if n > 0 {
      ReadLEIs(s, off + 1, n - 1);
      assert s[off..off + n][1..] == s[off + 1..off + n];
    }
  }

  lemma {:induction false} ReadBEIs(s: seq<byte>, off: nat, n: nat)
    requires off + n <= |s|
    ensures ReadBE(s, off, n) == FromBigEndian(s[off..off + n])
    decreases n
  {
    if n > 0 {
      ReadBEIs(s, off, n - 1);
      assert s[off..off + n][..n - 1] == s[off..off + n - 1];
    }
  }
}
