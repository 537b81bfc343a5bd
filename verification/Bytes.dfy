/** Octets, fixed-width big-endian numbers, and the failure type shared by the readers. */
module Bytes {

  type byte = n: int | 0 <= n < 256

  datatype Option<+T> = None | Some(value: T)

  function Min(a: int, b: int): int {
    if a <= b then a else b
  }

  function Max(a: int, b: int): int {
    if a >= b then a else b
  }

  /** The number of values that `width` octets can hold. */
  function Pow256(width: nat): (p: nat)
    ensures p > 0
  {
    if width == 0 then 1 else 256 * Pow256(width - 1)
  }

  /** The number written by `s`, most significant octet first. */
  function FromBigEndian(s: seq<byte>): (n: nat)
    ensures n < Pow256(|s|)
  {
    if s == [] then 0 else FromBigEndian(s[..|s| - 1]) * 256 + s[|s| - 1]
  }

  /** `n` on exactly `width` octets, most significant octet first. */
  function ToBigEndian(n: nat, width: nat): (s: seq<byte>)
    requires n < Pow256(width)
    ensures |s| == width
    ensures FromBigEndian(s) == n
  {
    if width == 0 then [] else
      var high := ToBigEndian(n / 256, width - 1);
      var s := high + [n % 256];
      assert s[..|s| - 1] == high;
      s
  }

  /** Octets are determined by their number and their count: the inverse of `ToBigEndian`. */
  lemma {:induction false} BigEndianIsCanonical(s: seq<byte>)
    ensures ToBigEndian(FromBigEndian(s), |s|) == s
  {
    if s == [] {
    } else {
      var high := s[..|s| - 1];
      BigEndianIsCanonical(high);
      assert FromBigEndian(s) / 256 == FromBigEndian(high);
      assert s == high + [s[|s| - 1]];
    }
  }

  lemma Pow256Values()
    ensures Pow256(0) == 1
    ensures Pow256(1) == 0x100
    ensures Pow256(2) == 0x1_0000
    ensures Pow256(4) == 0x1_0000_0000
    ensures Pow256(8) == 0x1_0000_0000_0000_0000
  {
    assert Pow256(2) == 256 * Pow256(1);
    assert Pow256(3) == 256 * Pow256(2);
    assert Pow256(4) == 256 * Pow256(3);
    assert Pow256(5) == 256 * Pow256(4);
    assert Pow256(6) == 256 * Pow256(5);
    assert Pow256(7) == 256 * Pow256(6);
    assert Pow256(8) == 256 * Pow256(7);
  }
}
