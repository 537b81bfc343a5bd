/** MQTT packets as the measurement scripts write and read them: section 2.2.3 of MQTT 3.1.1. */
module MqttFraming {
  import opened Bits
  import opened Bytes
  import Varint

  const MAX_BODY: nat := 65_536

  datatype Packet = Packet(first: byte, body: seq<byte>)

  function Encode(p: Packet): seq<byte> {
    [p.first] + Varint.Canonical(|p.body|) + p.body
  }

  lemma OrContinuation(digit: nat)
    requires digit < 128
    ensures BitOr(digit, 128) == digit + 128 && BitOr(digit, 0) == digit
  {
    assert Pow2(7) == 2 * Pow2(6) == 4 * Pow2(5) == 8 * Pow2(4) == 16 * Pow2(3) == 128;
    OrOfDisjoint(digit, 1, 7);
    OrWithZero(digit);
  }

  /** The writer: the remaining length seven bits at a time, least significant first. */
  method MqttPacket(first: byte, body: seq<byte>) returns (packet: seq<byte>)
    ensures packet == Encode(Packet(first, body))
  {
    hide BitOr;
    var length: nat := |body|;
    var encoded: seq<byte> := [];
    while true
      invariant encoded + Varint.Canonical(length) == Varint.Canonical(|body|)
      decreases length
    {
      var digit := length % 128;
      ghost var before := length;
      length := length / 128;
      OrContinuation(digit);
      encoded := encoded + [BitOr(digit, if length != 0 then 128 else 0)];
      if length == 0 {
        assert Varint.Canonical(before) == [digit];
        break;
      }
    }
    packet := [first] + encoded + body;
  }

  // ---- reading ----

  datatype Result = Received(packet: Packet) | Oversized | InvalidLength | Closed

  datatype Length = Length(value: nat, rest: seq<byte>) | TooLong | Unfinished | EndOfStream

  function Times(n: nat, multiplier: nat): nat {
    n * multiplier
  }

  /** At most `digits` more digits, the next one worth `multiplier`. */
  function ReadLength(s: seq<byte>, digits: nat, length: nat, multiplier: nat): Length
    decreases digits
  {
    if digits == 0 then Unfinished
    else if s == [] then EndOfStream
    else
      var sum := length + Times(s[0] % 128, multiplier);
      if sum > MAX_BODY then TooLong
      else if s[0] < 128 then Length(sum, s[1..])
      else ReadLength(s[1..], digits - 1, sum, multiplier * 128)
  }

  /** The next packet of a stream and, when there is one, the bytes left after it. */
  function Decode(s: seq<byte>): (Result, seq<byte>) {
    if s == [] then (Closed, []) else
      match ReadLength(s[1..], 4, 0, 1)
      case TooLong => (Oversized, [])
      case Unfinished => (InvalidLength, [])
      case EndOfStream => (Closed, [])
      case Length(n, rest) =>
        if n <= |rest| then (Received(Packet(s[0], rest[..n])), rest[n..]) else (Closed, [])
  }

  // ---- what was written is what is read ----

  /** Digits still to come after `length`, worth `n * multiplier` together. */
  lemma {:induction false} ReadsCanonical(n: nat, rest: seq<byte>, digits: nat, length: nat, multiplier: nat)
    requires multiplier > 0 && digits > 0
    ensures var r := ReadLength(Varint.Canonical(n) + rest, digits, length, multiplier);
            && (length + Times(n, multiplier) > MAX_BODY ==> r == TooLong || r == Unfinished)
            && (length + Times(n, multiplier) <= MAX_BODY && |Varint.Canonical(n)| <= digits ==>
                  r == Length(length + Times(n, multiplier), rest))
    decreases n
  {
    hide Times;
    var s := Varint.Canonical(n) + rest;
    if n < 128 {
      assert s[1..] == rest;
    } else {
      assert s[0] == n % 128 + 128 && s[1..] == Varint.Canonical(n / 128) + rest;
      Shift(n, multiplier);
      if digits > 1 {
        ReadsCanonical(n / 128, rest, digits - 1, length + Times(n % 128, multiplier), multiplier * 128);
      }
    }
  }

  lemma Shift(n: nat, multiplier: nat)
    ensures Times(n, multiplier) == Times(n % 128, multiplier) + Times(n / 128, multiplier * 128)
  {
    Regroup(n % 128, n / 128, multiplier);
  }

  lemma LengthDigits(n: nat)
    requires n <= MAX_BODY
    ensures |Varint.Canonical(n)| <= 3
  {
    if n >= 128 {
      assert Varint.Canonical(n) == [n % 128 + 128] + Varint.Canonical(n / 128);
      if n / 128 >= 128 {
        assert Varint.Canonical(n / 128) == [n / 128 % 128 + 128] + Varint.Canonical(n / 128 / 128);
      }
    }
  }

  /** One packet: read back exactly when its body is at most 65536 bytes, whatever follows it. */
  lemma DecodeEncoded(p: Packet, rest: seq<byte>)
    ensures Decode(Encode(p) + rest) == (Received(p), rest) <==> |p.body| <= MAX_BODY
    ensures |p.body| > MAX_BODY ==> Decode(Encode(p) + rest).0 in {Oversized, InvalidLength}
    ensures |p.body| <= MAX_BODY ==> 2 <= |Encode(p)| - |p.body| <= 4
  {
    var s := Encode(p) + rest;
    assert s[0] == p.first && s[1..] == Varint.Canonical(|p.body|) + (p.body + rest);
    ReadsCanonical(|p.body|, p.body + rest, 4, 0, 1);
    if |p.body| <= MAX_BODY {
      LengthDigits(|p.body|);
      assert (p.body + rest)[..|p.body|] == p.body && (p.body + rest)[|p.body|..] == rest;
    }
  }

  /** A length field: every digit but the last announces another. */
  predicate Complete(digits: seq<byte>) {
    digits != [] && if digits[0] < 128 then |digits| == 1 else Complete(digits[1..])
  }

  /** Every packet the reader returns is what the stream holds: a type octet, one to four
      length digits that denote the body's length, the body. */
  lemma DecodeIsSound(s: seq<byte>) returns (digits: seq<byte>)
    requires Decode(s).0.Received?
    ensures var (r, rest) := Decode(s); s == [r.packet.first] + digits + r.packet.body + rest
    ensures 1 <= |digits| <= 4 && Complete(digits)
    ensures |Decode(s).0.packet.body| == Varint.Denoted(digits) <= MAX_BODY
  {
    hide ReadLength, Complete, Varint.Denoted;
    digits := LengthIsSound(s[1..], 4, 0, 1);
    assert s == [s[0]] + s[1..];
  }

  lemma Regroup(low: nat, high: nat, multiplier: nat)
    ensures Times(low + 128 * high, multiplier) == Times(low, multiplier) + Times(high, multiplier * 128)
  {
  }

  lemma {:induction false} LengthIsSound(s: seq<byte>, count: nat, length: nat, multiplier: nat)
    returns (digits: seq<byte>)
    requires ReadLength(s, count, length, multiplier).Length?
    ensures 1 <= |digits| <= count && s == digits + ReadLength(s, count, length, multiplier).rest
    ensures Complete(digits)
    ensures ReadLength(s, count, length, multiplier).value == length + Times(Varint.Denoted(digits), multiplier)
    ensures ReadLength(s, count, length, multiplier).value <= MAX_BODY
    decreases count
  {
    hide Times;
    digits := [s[0]];
    if s[0] < 128 {
    } else {
      var more := LengthIsSound(s[1..], count - 1, length + Times(s[0] % 128, multiplier), multiplier * 128);
      digits := digits + more;
      assert digits[1..] == more;
      Regroup(s[0] % 128, Varint.Denoted(more), multiplier);
    }
  }

  // ---- a whole stream ----

  function EncodeAll(ps: seq<Packet>): seq<byte> {
    if ps == [] then [] else Encode(ps[0]) + EncodeAll(ps[1..])
  }

  /** All packets of a stream that ends after a packet. */
  function DecodeAll(s: seq<byte>): Option<seq<Packet>>
    decreases |s|
  {
    if s == [] then Some([]) else
      var (r, rest) := Decode(s);
      if r.Received? && |rest| < |s| then
        match DecodeAll(rest)
        case None => None
        case Some(ps) => Some([r.packet] + ps)
      else None
  }

  lemma {:induction false} DecodeAllEncoded(ps: seq<Packet>)
    requires forall p <- ps :: |p.body| <= MAX_BODY
    ensures DecodeAll(EncodeAll(ps)) == Some(ps)
    decreases |ps|
  {
    hide Decode, Encode;
    if ps == [] {
    } else {
      DecodeEncoded(ps[0], EncodeAll(ps[1..]));
      DecodeAllEncoded(ps[1..]);
      assert ps == [ps[0]] + ps[1..];
    }
  }

  /** A connected stream that delivers its bytes in pieces of any size. */
  class Socket {
    const data: seq<byte>
    var at: nat

    constructor (data: seq<byte>)
      ensures this.data == data && at == 0
    {
      this.data := data;
      at := 0;
    }

    ghost function Rest(): seq<byte>
      requires at <= |data|
      reads this
    {
      data[at..]
    }

    /** Some of the next bytes, at most `n`; none only at the end. */
    method Recv(n: nat) returns (part: seq<byte>)
      requires n > 0 && at <= |data|
      modifies this
      ensures at <= |data| && |part| <= n
      ensures old(Rest()) == part + Rest()
      ensures part == [] ==> old(Rest()) == []
    {
      if at == |data| { return []; }
      var k :| 1 <= k <= n && at + k <= |data|;
      part := data[at..at + k];
      at := at + k;
    }

    /** Exactly `size` bytes, gathered from as many pieces as it takes, or failure at the end of the stream. */
    method RecvExact(size: nat) returns (ok: bool, output: seq<byte>)
      requires at <= |data|
      modifies this
      ensures at <= |data|
      ensures ok <==> size <= |old(Rest())|
      ensures ok ==> output == old(Rest())[..size] && Rest() == old(Rest())[size..]
    {
      hide Rest;
      output := [];
      while |output| < size
        invariant at <= |data| && |output| <= size
        invariant old(Rest()) == output + Rest()
        decreases size - |output|
      {
        var part := Recv(size - |output|);
        if part == [] { return false, output; }
        output := output + part;
      }
      ok := true;
    }

    method RecvByte() returns (ok: bool, b: byte)
      requires at <= |data|
      modifies this
      ensures at <= |data|
      ensures ok <==> old(Rest()) != []
      ensures ok ==> old(Rest()) == [b] + Rest()
    {
      var bytes;
      ok, bytes := RecvExact(1);
      b := if ok then bytes[0] else 0;
    }

    method Receive() returns (r: Result)
      requires at <= |data|
      modifies this
      ensures at <= |data|
      ensures r == Decode(old(Rest())).0
      ensures r.Received? ==> Rest() == Decode(old(Rest())).1
    {
      hide Rest;
      var ok, first := RecvByte();
      if !ok { return Closed; }
      var length: nat, multiplier: nat := 0, 1;
      assert Rest() == old(Rest())[1..];
      for i := 0 to 4
        invariant at <= |data|
        invariant ReadLength(old(Rest())[1..], 4, 0, 1) == ReadLength(Rest(), 4 - i, length, multiplier)
      {
        var digit;
        ghost var before := Rest();
        ok, digit := RecvByte();
        if !ok { return Closed; }
        assert before[1..] == Rest();
        length := length + (digit % 128) * multiplier;
        if length > MAX_BODY { return Oversized; }
        if digit < 128 {
          var body;
          ok, body := RecvExact(length);
          if !ok { return Closed; }
          return Received(Packet(first, body));
        }
        multiplier := multiplier * 128;
      }
      r := InvalidLength;
    }
  }
}
