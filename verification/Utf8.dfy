/** Well-formed UTF-8, by the grammar of section 4 of RFC 3629. */
module Utf8 {
  import opened Bytes

  predicate Tail(b: byte) {
    0x80 <= b <= 0xbf
  }

  predicate ValidUtf8(s: seq<byte>) {
    if s == [] then true
    else if s[0] <= 0x7f then ValidUtf8(s[1..])
    else if 0xc2 <= s[0] <= 0xdf then
      |s| >= 2 && Tail(s[1]) && ValidUtf8(s[2..])
    else if 0xe0 <= s[0] <= 0xef then
      && |s| >= 3
      && (if s[0] == 0xe0 then 0xa0 <= s[1] <= 0xbf
          else if s[0] == 0xed then 0x80 <= s[1] <= 0x9f
          else Tail(s[1]))
      && Tail(s[2]) && ValidUtf8(s[3..])
    else if 0xf0 <= s[0] <= 0xf4 then
      && |s| >= 4
      && (if s[0] == 0xf0 then 0x90 <= s[1] <= 0xbf
          else if s[0] == 0xf4 then 0x80 <= s[1] <= 0x8f
          else Tail(s[1]))
      && Tail(s[2]) && Tail(s[3]) && ValidUtf8(s[4..])
    else false
  }

  // ---- the encoding of text ----

  /** The octets of a character, by the table of section 3 of RFC 3629: six bits in every octet but the first. */
  function CharOctets(c: char): (octets: seq<byte>)
    ensures 1 <= |octets| <= 4
  {
    var n := c as int;
    if n < 0x80 then [n]
    else if n < 0x800 then [0xc0 + n / 0x40, 0x80 + n % 0x40]
    else if n < 0x1_0000 then [0xe0 + n / 0x40 / 0x40, 0x80 + n / 0x40 % 0x40, 0x80 + n % 0x40]
    else [0xf0 + n / 0x40 / 0x40 / 0x40, 0x80 + n / 0x40 / 0x40 % 0x40, 0x80 + n / 0x40 % 0x40, 0x80 + n % 0x40]
  }

  function OctetsOf(s: string): seq<byte> {
    if s == [] then [] else CharOctets(s[0]) + OctetsOf(s[1..])
  }

  lemma SixBits(high: int, low: int)
    requires 0 <= low < 0x40
    ensures (high * 0x40 + low) / 0x40 == high && (high * 0x40 + low) % 0x40 == low
  {
  }

  /** The character of two octets. */
  lemma TwoOctets(b: seq<byte>) returns (c: char)
    requires |b| == 2 && 0xc2 <= b[0] <= 0xdf && Tail(b[1])
    ensures CharOctets(c) == b
  {
    var x: int, y: int := b[0], b[1];
    SixBits(x - 0xc0, y - 0x80);
    c := ((x - 0xc0) * 0x40 + (y - 0x80)) as char;
  }

  /** The character of three octets; the second octet excludes shorter forms and surrogates. */
  lemma ThreeOctets(b: seq<byte>) returns (c: char)
    requires |b| == 3 && 0xe0 <= b[0] <= 0xef && Tail(b[1]) && Tail(b[2])
    requires (b[0] == 0xe0 ==> 0xa0 <= b[1]) && (b[0] == 0xed ==> b[1] <= 0x9f)
    ensures CharOctets(c) == b
  {
    var x: int, y: int, z: int := b[0] as int - 0xe0, b[1] as int - 0x80, b[2] as int - 0x80;
    var high := x * 0x40 + y;
    SixBits(x, y);
    SixBits(high, z);
    c := (high * 0x40 + z) as char;
  }

  /** The character of four octets; the second octet excludes shorter forms and what is beyond the last character. */
  lemma FourOctets(b: seq<byte>) returns (c: char)
    requires |b| == 4 && 0xf0 <= b[0] <= 0xf4 && Tail(b[1]) && Tail(b[2]) && Tail(b[3])
    requires (b[0] == 0xf0 ==> 0x90 <= b[1]) && (b[0] == 0xf4 ==> b[1] <= 0x8f)
    ensures CharOctets(c) == b
  {
    var x: int, y: int, z: int, t: int := b[0] as int - 0xf0, b[1] as int - 0x80, b[2] as int - 0x80, b[3] as int - 0x80;
    var higher := x * 0x40 + y;
    var high := higher * 0x40 + z;
    SixBits(x, y);
    SixBits(higher, z);
    SixBits(high, t);
    c := (high * 0x40 + t) as char;
  }

  lemma OneOctet(b: seq<byte>) returns (c: char)
    requires |b| == 1 && b[0] <= 0x7f
    ensures CharOctets(c) == b
  {
    c := b[0] as int as char;
  }

  /** Octets before the second character of well-formed text. */
  function Ahead(b: byte): nat {
    if b <= 0x7f then 1 else if b <= 0xdf then 2 else if b <= 0xef then 3 else 4
  }

  lemma FirstCharacter(b: seq<byte>) returns (c: char)
    requires ValidUtf8(b) && b != []
    ensures Ahead(b[0]) <= |b| && CharOctets(c) == b[..Ahead(b[0])] && ValidUtf8(b[Ahead(b[0])..])
  {
    hide CharOctets;
    match Ahead(b[0])
    case 1 => c := OneOctet(b[..1]);
    case 2 => c := TwoOctets(b[..2]);
    case 3 => c := ThreeOctets(b[..3]);
    case _ => c := FourOctets(b[..4]);
  }

  predicate WellFormedFirst(b: seq<byte>) {
    match |b|
    case 1 => b[0] <= 0x7f
    case 2 => 0xc2 <= b[0] <= 0xdf && Tail(b[1])
    case 3 =>
      && 0xe0 <= b[0] <= 0xef && Tail(b[1]) && Tail(b[2])
      && (b[0] == 0xe0 ==> 0xa0 <= b[1]) && (b[0] == 0xed ==> b[1] <= 0x9f)
    case 4 =>
      && 0xf0 <= b[0] <= 0xf4 && Tail(b[1]) && Tail(b[2]) && Tail(b[3])
      && (b[0] == 0xf0 ==> 0x90 <= b[1]) && (b[0] == 0xf4 ==> b[1] <= 0x8f)
    case _ => false
  }

  lemma CharIsWellFormed(c: char)
    ensures WellFormedFirst(CharOctets(c))
  {
  }

  lemma WellFormedWithFirst(first: seq<byte>, rest: seq<byte>)
    requires WellFormedFirst(first)
    ensures ValidUtf8(first + rest) <==> ValidUtf8(rest)
    ensures Ahead((first + rest)[0]) == |first|
  {
    assert (first + rest)[|first|..] == rest;
  }

  lemma {:induction false} WellFormedIsText(b: seq<byte>) returns (s: string)
    requires ValidUtf8(b)
    ensures OctetsOf(s) == b
    decreases |b|
  {
    hide ValidUtf8, CharOctets;
    if b == [] {
      s := [];
    } else {
      var c := FirstCharacter(b);
      var more := WellFormedIsText(b[Ahead(b[0])..]);
      s := [c] + more;
      assert s[1..] == more;
      assert b == b[..Ahead(b[0])] + b[Ahead(b[0])..];
    }
  }

  lemma {:induction false} TextIsWellFormed(s: string)
    ensures ValidUtf8(OctetsOf(s))
  {
    hide CharOctets;
    if s == [] {
    } else {
      TextIsWellFormed(s[1..]);
      CharIsWellFormed(s[0]);
      WellFormedWithFirst(CharOctets(s[0]), OctetsOf(s[1..]));
    }
  }

  /** Octets are well-formed exactly when they are the encoding of a sequence of scalar values. */
  lemma WellFormedExactly(b: seq<byte>)
    ensures ValidUtf8(b) <==> exists s :: OctetsOf(s) == b
  {
    if ValidUtf8(b) {
      var s := WellFormedIsText(b);
    }
    if s :| OctetsOf(s) == b {
      TextIsWellFormed(s);
    }
  }

  lemma CharIsUnique(c: char, d: char)
    requires CharOctets(c) == CharOctets(d)
    ensures c == d
  {
    var n, m := c as int, d as int;
    assert n % 0x40 + 0x40 * (n / 0x40) == n && m % 0x40 + 0x40 * (m / 0x40) == m;
  }

  /** And no two texts have the same encoding. */
  lemma {:induction false} TextIsUnique(s: string, t: string)
    requires OctetsOf(s) == OctetsOf(t)
    ensures s == t
  {
    hide CharOctets, WellFormedFirst;
    if s == [] || t == [] {
    } else {
      var first, second := CharOctets(s[0]), CharOctets(t[0]);
      CharIsWellFormed(s[0]);
      CharIsWellFormed(t[0]);
      WellFormedWithFirst(first, OctetsOf(s[1..]));
      WellFormedWithFirst(second, OctetsOf(t[1..]));
      assert first == OctetsOf(s)[..|first|] && OctetsOf(s[1..]) == OctetsOf(s)[|first|..];
      assert second == OctetsOf(t)[..|first|] && OctetsOf(t[1..]) == OctetsOf(t)[|first|..];
      CharIsUnique(s[0], t[0]);
      TextIsUnique(s[1..], t[1..]);
      assert s == [s[0]] + s[1..] && t == [t[0]] + t[1..];
    }
  }
}
