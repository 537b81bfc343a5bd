/** The base-128 reader of the protobuf codec: at most ten octets, least significant group first. */
module Varint {
  import opened Bits
  import opened Bytes

  const U64: nat := 0x1_0000_0000_0000_0000

  function Pow128(i: nat): (p: nat)
    ensures p > 0
  {
    if i == 0 then 1 else 128 * Pow128(i - 1)
  }

  /** The sum of the 7-bit groups of `s`. */
  function Denoted(s: seq<byte>): nat {
    if s == [] then 0 else s[0] % 128 + 128 * Denoted(s[1..])
  }

  /** Octets up to and including the first one without a continuation bit. */
  function Extent(s: seq<byte>): (r: Option<nat>)
    ensures r.Some? ==> 1 <= r.value <= |s| && s[r.value - 1] < 128
    ensures r.Some? ==> forall k :: 0 <= k < r.value - 1 ==> s[k] >= 128
    ensures r.None? ==> forall k :: 0 <= k < |s| ==> s[k] >= 128
  {
    if s == [] then None
    else if s[0] < 128 then Some(1)
    else match Extent(s[1..])
      case None => None
      case Some(k) =>
        assert forall j :: 1 <= j < |s| ==> s[j] == s[1..][j - 1];
        Some(k + 1)
  }

  /** An encoding of a 64-bit number: ten octets at most, and a tenth octet carries one bit. */
  predicate Encodes64(s: seq<byte>) {
    Extent(s).Some? && Extent(s).value <= 10 && (Extent(s).value == 10 ==> s[9] <= 1)
  }

  /** The shortest encoding. */
  function Canonical(n: nat): (s: seq<byte>)
    ensures |s| >= 1
  {
    if n < 128 then [n] else [n % 128 + 128] + Canonical(n / 128)
  }

  lemma {:induction false} DenotedSnoc(s: seq<byte>, b: byte)
    ensures Denoted(s + [b]) == Denoted(s) + (b % 128) * Pow128(|s|)
  {
    if s == [] {
      assert [] + [b] == [b];
      assert [b][1..] == [];
    } else {
      assert (s + [b])[1..] == s[1..] + [b];
      DenotedSnoc(s[1..], b);
    }
  }

  lemma {:induction false} DenotedBound(s: seq<byte>)
    ensures Denoted(s) < Pow128(|s|)
  {
    if s == [] {
    } else {
      DenotedBound(s[1..]);
    }
  }

  lemma Pow128Values(i: nat)
    requires i <= 9
    ensures 128 * Pow128(i) <= 128 * Pow128(9) == 64 * U64
    decreases 9 - i
  {
    if i < 9 {
      Pow128Values(i + 1);
    } else {
      assert Pow128(9) == 128 * Pow128(8) == 128 * 128 * Pow128(7) == 128 * 128 * 128 * Pow128(6);
      assert Pow128(6) == 128 * Pow128(5) == 128 * 128 * Pow128(4) == 128 * 128 * 128 * Pow128(3);
      assert Pow128(3) == 128 * Pow128(2) == 128 * 128 * Pow128(1);
    }
  }

  /** `x | (group << 7 * i)` on 64-bit words: what is shifted past the top is lost. */
  function OrShifted(x: nat, group: nat, i: nat): nat {
    BitOr(x, (group * Pow128(i)) % U64)
  }

  lemma {:induction false} Pow128IsPow2(i: nat)
    ensures Pow128(i) == Pow2(7 * i)
  {
    if i == 0 {
    } else {
      Pow128IsPow2(i - 1);
      SevenMore(7 * (i - 1));
    }
  }

  lemma SevenMore(k: nat)
    ensures Pow2(k + 7) == 128 * Pow2(k)
  {
    assert Pow2(k + 7) == 2 * Pow2(k + 6) == 4 * Pow2(k + 5) == 8 * Pow2(k + 4);
    assert Pow2(k + 4) == 2 * Pow2(k + 3) == 4 * Pow2(k + 2) == 8 * Pow2(k + 1);
  }

  lemma Scale(d: nat, e: nat, p: nat, bound: nat)
    requires d <= e && e * p + p <= bound
    ensures d * p + p <= bound
  {
  }

  lemma ShiftFits(d: nat, i: nat)
    requires (i < 9 && d < 128) || (i == 9 && d <= 1)
    ensures d * Pow128(i) + Pow128(i) <= U64
    ensures (d * Pow128(i)) % U64 == d * Pow128(i)
  {
    Pow128Values(9);
    if i < 9 {
      Pow128Values(i + 1);
      assert 127 * Pow128(i) + Pow128(i) == Pow128(i + 1);
      Scale(d, 127, Pow128(i), U64);
    } else {
      Scale(d, 1, Pow128(i), U64);
    }
    var shifted := d * Pow128(i);
    assert 0 <= shifted < U64;
  }

  /** One more group: no bit is shifted out, none overlaps, and the sum of the groups grows by it. */
  lemma NextGroup(s: seq<byte>, b: byte)
    requires |s| < 9 || (|s| == 9 && b <= 1)
    ensures Denoted(s) < Pow128(|s|)
    ensures Denoted(s + [b]) == OrShifted(Denoted(s), b % 128, |s|) < U64
  {
    hide Denoted, Pow128, BitOr;
    DenotedSnoc(s, b);
    DenotedBound(s);
    ShiftFits(b % 128, |s|);
    Pow128IsPow2(|s|);
    OrOfDisjoint(Denoted(s), b % 128, 7 * |s|);
  }

  method Read(bytes: seq<byte>, at: nat) returns (r: Option<nat>, end: nat)
    requires at <= |bytes|
    ensures r.Some? <==> Encodes64(bytes[at..])
    ensures r.Some? ==> end == at + Extent(bytes[at..]).value
    ensures r.Some? ==> r.value == Denoted(bytes[at..end]) < U64
  {
    hide Denoted, Pow128;
    var n := 0;
    end := at;
    ghost var s := bytes[at..];
    assert n == Denoted([]) by { DenotedEmpty(); }
    for i := 0 to 10
      invariant end == at + i <= |bytes|
      invariant forall k :: 0 <= k < i ==> s[k] >= 128
      invariant i == 10 ==> s[9] <= 1
      invariant n == Denoted(s[..i])
    {
      hide Denoted, Pow128, Extent;
      if end >= |bytes| { return None, end; }
      var b := bytes[end];
      end := end + 1;
      if i == 9 && b > 1 { return None, end; }
      NextGroup(s[..i], b);
      n := OrShifted(n, b % 128, i);
      assert s[..i + 1] == s[..i] + [b];
      if b < 128 {
        assert bytes[at..end] == s[..i + 1];
        return Some(n), end;
      }
    }
    assert false;
  }

  lemma DenotedEmpty()
    ensures Denoted([]) == 0
  {
  }

  /** The reader inverts the shortest encoding of every 64-bit number, whatever follows it. */
  lemma {:induction false} CanonicalIsReadBack(n: nat, rest: seq<byte>)
    requires n < U64
    ensures Encodes64(Canonical(n) + rest)
    ensures Extent(Canonical(n) + rest) == Some(|Canonical(n)|)
    ensures Denoted(Canonical(n)) == n
  {
    CanonicalExtent(n, rest);
    assert n < 2 * Pow128(9) by { Pow128Values(9); }
    CanonicalLength(n, 9);
  }

  lemma {:induction false} CanonicalExtent(n: nat, rest: seq<byte>)
    ensures Extent(Canonical(n) + rest) == Some(|Canonical(n)|)
    ensures Denoted(Canonical(n)) == n
  {
    var s := Canonical(n) + rest;
    if n < 128 {
      assert [n][1..] == [];
    } else {
      assert s[1..] == Canonical(n / 128) + rest;
      assert Canonical(n)[1..] == Canonical(n / 128);
      CanonicalExtent(n / 128, rest);
    }
  }

  /** Octet `i` of the shortest encoding holds what remains of `n` above its first `i` groups. */
  lemma {:induction false} CanonicalLength(n: nat, i: nat)
    requires n < 2 * Pow128(i)
    ensures |Canonical(n)| <= i + 1
    ensures |Canonical(n)| == i + 1 ==> Canonical(n)[i] <= 1
  {
    if i == 0 || n < 128 {
    } else {
      CanonicalLength(n / 128, i - 1);
    }
  }
}
