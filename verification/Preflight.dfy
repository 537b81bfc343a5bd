/**
 The structural preflight of the binary codecs: a cursor that recognises one CBOR or MessagePack
 value under three running meters (budget, pairs, container depth), without building anything.
 */
module Preflight {
  import opened Bits
  import opened Bytes
  import opened Utf8
  import opened Wire
  import opened WireDecoder

  datatype CodecLimits = CodecLimits(
    inputBytes: nat, outputMessages: nat, decodedBytes: nat,
    fields: nat, fieldBytes: nat, nestingDepth: nat)
  {
    function MaxDepth(): nat { Min(nestingDepth, 64) }
    function MaxText(): nat { Max(fieldBytes, 64) }
    function MaxPairs(): nat { fields + 8 }

    /** Every limit is a machine word. */
    predicate Representable(maxUsize: nat) {
      && inputBytes <= maxUsize && outputMessages <= maxUsize && decodedBytes <= maxUsize
      && fields <= maxUsize && fieldBytes <= maxUsize && nestingDepth <= maxUsize
    }
  }

  // ---- what acceptance means ----

  /** The four measures of `v` fit, for a scan that already holds `used` and `pairs` and meets `v` at `depth`. */
  predicate Fits(l: CodecLimits, used: nat, pairs: nat, depth: nat, v: Node) {
    && used + Cost(v) <= l.decodedBytes
    && pairs + Pairs(v) <= l.MaxPairs()
    && depth + Depth(v) <= l.MaxDepth() + 1
    && LongestText(v) <= l.MaxText()
  }

  predicate TextFits(l: CodecLimits, used: nat, t: TextItem) {
    && used + TextCost(t) <= l.decodedBytes
    && |t.body| <= l.MaxText()
  }

  predicate EntriesFit(l: CodecLimits, used: nat, pairs: nat, depth: nat, es: Entries) {
    && used + CostOfEntries(es) <= l.decodedBytes
    && pairs + NestedPairs(es) <= l.MaxPairs()
    && depth + DepthOfEntries(es) <= l.MaxDepth()
    && LongestInEntries(es) <= l.MaxText()
  }

  predicate SizesFit(l: CodecLimits, input: seq<byte>) {
    |input| <= l.inputBytes && |input| <= l.decodedBytes && l.outputMessages != 0
  }

  /** `input` is, in full, the encoding of a well-formed tree within the limits. */
  ghost predicate Acceptable(l: CodecLimits, format: Format, input: seq<byte>) {
    && SizesFit(l, input)
    && exists v :: ValidNode(format, v) && Fits(l, 0, 0, 1, v) && EncodeNode(format, v) == input
  }

  // ---- one step of a scan, in terms of the decoded tree alone ----

  datatype Meters = Meters(rest: seq<byte>, used: nat, pairs: nat)

  /** A key or value met at `m`: what is left when it decodes and fits, with its cost and pairs added. */
  function Outcome(l: CodecLimits, format: Format, m: Meters, depth: nat, key: bool): Option<Meters> {
    if key then
      match DecodeText(format, m.rest)
      case None => None
      case Some(Split(t, rest)) =>
        if TextFits(l, m.used, t) then Some(Meters(rest, m.used + TextCost(t), m.pairs)) else None
    else
      match DecodeNode(format, m.rest)
      case None => None
      case Some(Split(v, rest)) =>
        if Fits(l, m.used, m.pairs, depth, v) then Some(Meters(rest, m.used + Cost(v), m.pairs + Pairs(v))) else None
  }

  /** `n` pairs met at `m` inside a map at `depth`, the pairs themselves being counted already. */
  function EntriesOutcome(l: CodecLimits, format: Format, n: nat, m: Meters, depth: nat): Option<Meters> {
    match DecodeEntries(format, n, m.rest)
    case None => None
    case Some(Split(es, rest)) =>
      if EntriesFit(l, m.used, m.pairs, depth, es)
      then Some(Meters(rest, m.used + CostOfEntries(es), m.pairs + NestedPairs(es)))
      else None
  }

  /** Pairs are settled one at a time: key, value, the others. */
  lemma EntriesStep(l: CodecLimits, format: Format, n: nat, m: Meters, depth: nat)
    requires 0 < n && depth <= l.MaxDepth() && m.pairs <= l.MaxPairs()
    ensures EntriesOutcome(l, format, n, m, depth) ==
      match Outcome(l, format, m, depth + 1, true)
      case None => None
      case Some(m1) =>
        match Outcome(l, format, m1, depth + 1, false)
        case None => None
        case Some(m2) => EntriesOutcome(l, format, n - 1, m2, depth)
  {
    hide DecodeText, DecodeNode, Cost, Pairs, Depth, LongestText;
  }

  /** Entries that are too deep, too many, or more than half the octets left cannot be settled; no entries always are. */
  lemma EntriesLimits(l: CodecLimits, format: Format, n: nat, m: Meters, depth: nat)
    ensures EntriesOutcome(l, format, n, m, depth).Some? ==>
      depth <= l.MaxDepth() && m.pairs <= l.MaxPairs() && 2 * n <= |m.rest|
    ensures depth <= l.MaxDepth() && m.pairs <= l.MaxPairs() && m.used <= l.decodedBytes ==>
      EntriesOutcome(l, format, 0, m, depth) == Some(m)
  {
    hide DecodeText, DecodeNode, Cost, Pairs, Depth, LongestText;
  }

  /** The text of `n` octets at `m`. */
  function BodyOutcome(l: CodecLimits, n: nat, m: Meters): Option<Meters> {
    if n <= |m.rest| && ValidUtf8(m.rest[..n]) && n <= l.MaxText() && m.used + 3 * n <= l.decodedBytes
    then Some(Meters(m.rest[n..], m.used + 3 * n, m.pairs))
    else None
  }

  /** An item is settled by its head and what follows the head. */
  lemma OutcomeAtHead(l: CodecLimits, format: Format, m: Meters, depth: nat, key: bool)
    requires m.used + 128 <= l.decodedBytes && m.pairs <= l.MaxPairs() && 1 <= depth <= l.MaxDepth() + 1
    ensures Outcome(l, format, m, depth, key) ==
      match DecodeHead(format, m.rest)
      case None => None
      case Some(Split(h, body)) =>
        var next := Meters(body, m.used + 128, m.pairs);
        if h.tag == Text then BodyOutcome(l, h.arg, next)
        else if key then None
        else if h.tag == Map then EntriesOutcome(l, format, h.arg, next.(pairs := m.pairs + h.arg), depth)
        else Some(next)
  {
    hide DecodeHead, ValidUtf8, DecodeEntries, CostOfEntries, NestedPairs, DepthOfEntries, LongestInEntries;
    if key {
      hide DecodeNode, EntriesOutcome, Cost, Pairs, Depth, LongestText, Fits;
    } else {
      hide TextFits;
    }
  }

  // ---- the scanner ----

  const U64: nat := 0x1_0000_0000_0000_0000

  lemma OrOctet(v: nat, octet: byte)
    ensures BitOr(v * 256, octet) == v * 256 + octet
  {
    assert Pow2(8) == 2 * Pow2(7) == 4 * Pow2(6) == 8 * Pow2(5) == 16 * Pow2(4) == 256;
    OrOfDisjoint(octet, v, 8);
  }

  lemma Pow256Grows(i: nat, n: nat)
    requires i <= n <= 7
    ensures 256 * Pow256(i) <= 256 * Pow256(n) <= U64
  {
    Pow256Values();
    if i < n { Pow256Grows(i, n - 1); }
  }

  /** Octets that follow a CBOR first octet to complete its argument. */
  function CborWidth(info: nat): nat {
    if info < 24 then 0 else if info == 24 then 1 else if info == 25 then 2 else if info == 26 then 4 else 8
  }

  lemma CborHead(s: seq<byte>)
    requires s != []
    ensures var major, info, w := s[0] / 32, s[0] % 32, CborWidth(s[0] % 32);
      DecodeHead(Cbor, s) ==
        if major == 7 then
          if 20 <= info <= 22 then Some(Split(Head(Simple, 0, info), s[1..][w..]))
          else if 25 <= info <= 27 && w < |s| then Some(Split(Head(Float, w, FromBigEndian(s[1..][..w])), s[1..][w..]))
          else None
        else if major in {0, 1, 3, 5} && info < 28 && w < |s| then
          var tag := if major == 0 then Unsigned else if major == 1 then Negative else if major == 3 then Text else Map;
          Some(Split(Head(tag, w, if info < 24 then info else FromBigEndian(s[1..][..w])), s[1..][w..]))
        else None
  {
    var w := CborWidth(s[0] % 32);
    if w < |s| {
      assert s[1..1 + w] == s[1..][..w] && s[1 + w..] == s[1..][w..];
    }
  }

  lemma MsgpackHead(s: seq<byte>)
    requires s != []
    ensures DecodeHead(Msgpack, s) ==
      match MsgpackLead(s[0])
      case None => None
      case Some(lead) =>
        if |s| <= lead.width then None
        else Some(Split(Head(lead.tag, lead.width, if lead.width == 0 then lead.arg else FromBigEndian(s[1..][..lead.width])), s[1..][lead.width..]))
  {
    var lead := MsgpackLead(s[0]);
    if lead.Some? && lead.value.width < |s| {
      var w := lead.value.width;
      assert s[1..1 + w] == s[1..][..w] && s[1 + w..] == s[1..][w..];
    }
  }

  class Scan {
    const bytes: seq<byte>
    const limits: CodecLimits
    const format: Format
    /** The largest machine word. */
    const maxUsize: nat
    /** Whether maps are refused early on their declared count; the source always does. */
    const guarded: bool
    var at: nat
    var used: nat
    var pairs: nat
    /** Calls of `Value` so far. */
    ghost var calls: nat

    constructor (bytes: seq<byte>, limits: CodecLimits, format: Format, maxUsize: nat, guarded: bool)
      ensures this.bytes == bytes && this.limits == limits && this.format == format
      ensures this.maxUsize == maxUsize && this.guarded == guarded
      ensures at == 0 && used == 0 && pairs == 0 && calls == 0
    {
      this.bytes, this.limits, this.format, this.maxUsize, this.guarded := bytes, limits, format, maxUsize, guarded;
      at, used, pairs := 0, 0, 0;
      calls := 0;
    }

    /** The limits with the saturated pair bound that the machine computes. */
    ghost function Effective(): (l: CodecLimits)
      requires maxUsize >= 8
    {
      limits.(fields := Min(limits.fields, maxUsize - 8))
    }

    /** The cursor is inside the input and every meter is within its limit. */
    ghost predicate Valid()
      reads this
    {
      && at <= |bytes| <= maxUsize && 8 <= maxUsize
      && limits.Representable(maxUsize)
      && used <= limits.decodedBytes
      && pairs <= Effective().MaxPairs()
      && 128 * calls <= used
    }

    ghost function Rest(): (s: seq<byte>)
      requires at <= |bytes|
      reads this
    {
      bytes[at..]
    }

    method Charge(n: nat) returns (ok: bool)
      requires limits.Representable(maxUsize)
      modifies this`used
      ensures ok <==> old(used) + n <= limits.decodedBytes
      ensures ok ==> used == old(used) + n
    {
      if used + n > maxUsize { return false; }
      used := used + n;
      ok := used <= limits.decodedBytes;
    }

    method Take(n: nat) returns (ok: bool, v: seq<byte>)
      requires at <= |bytes| <= maxUsize
      modifies this`at
      ensures ok <==> n <= |old(Rest())|
      ensures ok ==> v == old(Rest())[..n] && at == old(at) + n && Rest() == old(Rest())[n..]
      ensures !ok ==> at == old(at)
    {
      v := [];
      if at + n > maxUsize || at + n > |bytes| { return false, v; }
      v := bytes[at..at + n];
      at := at + n;
      ok := true;
    }

    /** A big-endian number on `n` octets; no octet is shifted out of the 64-bit accumulator. */
    method Uint(n: nat) returns (ok: bool, v: nat)
      requires n <= 8
      requires at <= |bytes| <= maxUsize
      modifies this`at
      ensures ok <==> n <= |old(Rest())|
      ensures old(at) <= at <= |bytes|
      ensures ok ==> v == FromBigEndian(old(Rest())[..n]) && at == old(at) + n && Rest() == old(Rest())[n..]
    {
      hide BitOr;
      v := 0;
      var b;
      ok, b := Take(n);
      if !ok { return; }
      for i := 0 to n
        invariant at == old(at) + n && v == FromBigEndian(b[..i])
      {
        assert b[..i + 1][..i] == b[..i];
        Pow256Grows(i, 7);
        OrOctet(v, b[i]);
        v := BitOr((v * 256) % U64, b[i]);
      }
      assert b[..n] == b;
    }

    method Text(n: nat) returns (ok: bool)
      requires Valid()
      modifies this`at, this`used
      ensures old(at) <= at <= |bytes|
      ensures Report(ok) == BodyOutcome(Effective(), n, old(Meters(Rest(), used, pairs)))
      ensures ok ==> Valid()
    {
      if n > maxUsize || n > Max(limits.fieldBytes, 64) { return false; }
      var b;
      ok, b := Take(n);
      if !ok || !ValidUtf8(b) { return false; }
      if 3 * n > maxUsize { return false; }
      ok := Charge(3 * n);
    }

    /** The argument of a CBOR item whose first octet carries `info`. */
    method CborArg(info: nat) returns (ok: bool, arg: nat)
      requires info < 32
      requires at <= |bytes| <= maxUsize
      modifies this`at
      ensures old(at) <= at <= |bytes|
      ensures ok <==> info < 28 && CborWidth(info) <= |old(Rest())|
      ensures ok ==> Rest() == old(Rest())[CborWidth(info)..]
      ensures ok ==> arg == if info < 24 then info else FromBigEndian(old(Rest())[..CborWidth(info)])
    {
      arg := info;
      if info <= 23 {
        assert Rest()[0..] == Rest();
        ok := true;
      } else if info == 24 {
        ok, arg := Uint(1);
      } else if info == 25 {
        ok, arg := Uint(2);
      } else if info == 26 {
        ok, arg := Uint(4);
      } else if info == 27 {
        ok, arg := Uint(8);
      } else {
        ok := false;
      }
    }

    /** What is left after an accepting step, with the meters. */
    ghost function Report(ok: bool): (r: Option<Meters>)
      requires at <= |bytes|
      reads this
    {
      if ok then Some(Meters(Rest(), used, pairs)) else None
    }

    /** Work spent by a failing scan: the charge of 128 and the pair count each bound it. */
    ghost predicate Halted(calls0: nat, pairs0: nat, own: nat)
      requires maxUsize >= 8
      reads this
    {
      && 128 * calls <= limits.decodedBytes + 128
      && calls <= calls0 + own + 2 * (Effective().MaxPairs() - pairs0)
    }

    /** Scans one value at container depth `depth`; a key must be text. */
    method Value(depth: nat, key: bool) returns (ok: bool)
      requires Valid()
      requires 1 <= depth <= limits.MaxDepth() + 1
      modifies this`at, this`used, this`pairs, this`calls
      ensures old(at) <= at <= |bytes|
      ensures Report(ok) == Outcome(Effective(), format, old(Meters(Rest(), used, pairs)), depth, key)
      ensures ok ==> Valid() && old(pairs) <= pairs && calls == old(calls) + 1 + 2 * (pairs - old(pairs))
      ensures !ok ==> Halted(old(calls), old(pairs), 1)
      decreases |bytes| - at, 0
    {
      hide ValidUtf8, LeadOf, FromBigEndian, DecodeEntries;
      calls := calls + 1;
      ghost var start := Meters(Rest(), used, pairs);
      ok := Charge(128);
      if !ok { return; }
      var first;
      ok, first := Take(1);
      if !ok { return; }
      var b := first[0];
      match format
      case Cbor => ok := CborValue(start, b, depth, key);
      case Msgpack => ok := MsgpackValue(start, b, depth, key);
    }

    /** The node met at `start` is charged and counted, and its first octet `b` consumed. */
    ghost predicate Started(start: Meters, b: byte, depth: nat)
      reads this
    {
      && Valid()
      && 1 <= depth <= limits.MaxDepth() + 1
      && 0 < |start.rest| && start.rest[0] == b
      && Rest() == start.rest[1..] && used == start.used + 128 && pairs == start.pairs
    }

    /** The octets of a CBOR simple value or float; other items of major type 7 are refused. */
    method CborSimple(info: nat) returns (ok: bool)
      requires info < 32 && Valid()
      modifies this`at
      ensures old(at) <= at <= |bytes|
      ensures ok <==> 20 <= info <= 22 || (25 <= info <= 27 && CborWidth(info) <= |old(Rest())|)
      ensures ok ==> Rest() == old(Rest())[CborWidth(info)..]
    {
      var v;
      if 20 <= info <= 22 {
        assert Rest()[0..] == Rest();
        ok := true;
      } else if info == 25 {
        ok, v := Take(2);
      } else if info == 26 {
        ok, v := Take(4);
      } else if info == 27 {
        ok, v := Take(8);
      } else {
        ok := false;
      }
    }

    method CborValue(ghost start: Meters, b: byte, depth: nat, key: bool) returns (ok: bool)
      requires format == Cbor && Started(start, b, depth)
      modifies this`at, this`used, this`pairs, this`calls
      ensures old(at) <= at <= |bytes|
      ensures Report(ok) == Outcome(Effective(), format, start, depth, key)
      ensures ok ==> Valid() && old(pairs) <= pairs && calls == old(calls) + 2 * (pairs - old(pairs))
      ensures !ok ==> Halted(old(calls), old(pairs), 0)
      decreases |bytes| - at, 2
    {
      hide Outcome, BodyOutcome, EntriesOutcome, FromBigEndian, DecodeHead;
      CborHead(start.rest);
      OutcomeAtHead(Effective(), format, start, depth, key);
      var major, info := b / 32, b % 32;
      if key && major != 3 { return false; }
      var n;
      if major == 0 || major == 1 {
        ok, n := CborArg(info);
      } else if major == 3 {
        ok, n := CborArg(info);
        if ok { ok := Text(n); }
      } else if major == 5 {
        ok, n := CborArg(info);
        if ok { ok := Map(n, depth); }
      } else if major == 7 {
        ok := CborSimple(info);
      } else {
        ok := false;
      }
    }

    /** The octets of a MessagePack number of fixed size. */
    method MsgpackFixed(b: byte) returns (ok: bool)
      requires 0xca <= b <= 0xd3 && Valid()
      modifies this`at
      ensures old(at) <= at <= |bytes|
      ensures ok <==> MsgpackLead(b).value.width <= |old(Rest())|
      ensures ok ==> Rest() == old(Rest())[MsgpackLead(b).value.width..]
    {
      var v;
      if b == 0xcc || b == 0xd0 {
        ok, v := Take(1);
      } else if b == 0xcd || b == 0xd1 {
        ok, v := Take(2);
      } else if b == 0xca || b == 0xce || b == 0xd2 {
        ok, v := Take(4);
      } else {
        ok, v := Take(8);
      }
    }

    method MsgpackValue(ghost start: Meters, b: byte, depth: nat, key: bool) returns (ok: bool)
      requires format == Msgpack && Started(start, b, depth)
      modifies this`at, this`used, this`pairs, this`calls
      ensures old(at) <= at <= |bytes|
      ensures Report(ok) == Outcome(Effective(), format, start, depth, key)
      ensures ok ==> Valid() && old(pairs) <= pairs && calls == old(calls) + 2 * (pairs - old(pairs))
      ensures !ok ==> Halted(old(calls), old(pairs), 0)
      decreases |bytes| - at, 2
    {
      hide Outcome, BodyOutcome, EntriesOutcome, FromBigEndian, DecodeHead;
      MsgpackHead(start.rest);
      OutcomeAtHead(Effective(), format, start, depth, key);
      if key && !(0xa0 <= b <= 0xbf || 0xd9 <= b <= 0xdb) { return false; }
      var n;
      if b <= 0x7f || 0xe0 <= b || b == 0xc0 || b == 0xc2 || b == 0xc3 {
        ok := true;
      } else if 0xa0 <= b <= 0xbf {
        ok := Text(b % 32);
      } else if 0x80 <= b <= 0x8f {
        ok := Map(b % 16, depth);
      } else if 0xd9 <= b <= 0xdb {
        ok, n := Uint(Width(b - 0xd9));
        if ok { ok := Text(n); }
      } else if b == 0xde || b == 0xdf {
        ok, n := Uint(if b == 0xde then 2 else 4);
        if ok { ok := Map(n, depth); }
      } else if 0xca <= b <= 0xd3 {
        ok := MsgpackFixed(b);
      } else {
        ok := false;
      }
    }

    /** Scans the `n` pairs of a map at container depth `depth`. */
    method Map(n: nat, depth: nat) returns (ok: bool)
      requires Valid()
      requires 1 <= depth <= limits.MaxDepth() + 1
      modifies this`at, this`used, this`pairs, this`calls
      ensures old(at) <= at <= |bytes|
      ensures Report(ok) == EntriesOutcome(Effective(), format, n, old(Meters(Rest(), used, pairs + n)), depth)
      ensures ok ==> Valid() && old(pairs) <= pairs && calls == old(calls) + 2 * (pairs - old(pairs))
      ensures !ok ==> Halted(old(calls), old(pairs), 0)
      decreases |bytes| - at, 1
    {
      hide EntriesOutcome, Outcome;
      EntriesLimits(Effective(), format, n, Meters(Rest(), used, pairs + n), depth);
      if depth > Min(limits.nestingDepth, 64) { return false; }
      if n > maxUsize { return false; }
      if pairs + n > maxUsize { return false; }
      ghost var pairs0, calls0 := pairs, calls;
      pairs := pairs + n;
      if pairs > Min(limits.fields + 8, maxUsize) { return false; }
      if guarded && n > (|bytes| - at) / 2 { return false; }
      ghost var whole := EntriesOutcome(Effective(), format, n, Meters(Rest(), used, pairs), depth);
      for i := 0 to n
        invariant Valid() && at >= old(at)
        invariant whole == EntriesOutcome(Effective(), format, n - i, Meters(Rest(), used, pairs), depth)
        invariant pairs0 + n <= pairs && calls == calls0 + 2 * i + 2 * (pairs - pairs0 - n)
      {
        EntriesStep(Effective(), format, n - i, Meters(Rest(), used, pairs), depth);
        ok := Value(depth + 1, true);
        if !ok { return; }
        ok := Value(depth + 1, false);
        if !ok { return; }
      }
      EntriesLimits(Effective(), format, 0, Meters(Rest(), used, pairs), depth);
      ok := true;
    }
  }

  /** Accepts exactly the acceptable inputs, with or without the early guard on map counts, on any word size. */
  method Preflight(input: seq<byte>, limits: CodecLimits, format: Format, maxUsize: nat, guarded: bool)
    returns (ok: bool, ghost calls: nat)
    requires limits.Representable(maxUsize) && |input| <= maxUsize && 8 <= maxUsize
    ensures ok <==> Acceptable(limits, format, input)
    ensures calls <= limits.decodedBytes / 128 + 1
    ensures calls <= 1 + 2 * (limits.fields + 8)
  {
    hide Acceptable, Outcome;
    Verdict(limits, format, input, maxUsize);
    calls := 0;
    if |input| > limits.inputBytes || |input| > limits.decodedBytes || limits.outputMessages == 0 {
      return false, calls;
    }
    var scan := new Scan(input, limits, format, maxUsize, guarded);
    assert scan.Rest() == input;
    ok := scan.Value(1, false);
    calls := scan.calls;
    if ok && scan.at != |input| { ok := false; }
  }

  /** The verdict by the settled outcome of the whole input, with the pair limit as the machine saturates it. */
  lemma Verdict(l: CodecLimits, format: Format, input: seq<byte>, maxUsize: nat)
    requires |input| <= maxUsize && 8 <= maxUsize
    ensures var r := Outcome(l.(fields := Min(l.fields, maxUsize - 8)), format, Meters(input, 0, 0), 1, false);
      Acceptable(l, format, input) <==> SizesFit(l, input) && r.Some? && r.value.rest == []
  {
    hide Acceptable, DecodeNode, Cost, Pairs, Depth, LongestText;
    AcceptableByDecoding(l, format, input);
    DecodedPairs(format, input);
  }

  lemma DecodedPairs(format: Format, s: seq<byte>)
    ensures DecodeNode(format, s).Some? ==> 2 * Pairs(DecodeNode(format, s).value.item) < |s|
  {
    hide DecodeNode, Pairs, EncodeNode, ValidNode;
    if DecodeNode(format, s).Some? {
      EncodeDecodedNode(format, s);
      PairsNeedOctets(format, DecodeNode(format, s).value.item);
    }
  }

  // ---- what the verdict means ----

  /** Every pair of a tree, at every level, takes at least two octets. */
  lemma {:induction false} PairsNeedOctets(format: Format, v: Node)
    requires ValidNode(format, v)
    ensures 2 * Pairs(v) < |EncodeNode(format, v)|
    decreases v
  {
    hide EncodeHead, ValidHead, EncodeText, ValidText;
    match v
    case MapNode(_, es) => EntriesNeedOctets(format, es);
    case _ =>
  }

  lemma {:induction false} EntriesNeedOctets(format: Format, es: Entries)
    requires ValidEntries(format, es)
    ensures 2 * (Count(es) + NestedPairs(es)) <= |EncodeEntries(format, es)|
    decreases es
  {
    hide EncodeHead, ValidHead, EncodeText, ValidText;
    match es
    case Nil =>
    case Cons(_, value, rest) =>
      PairsNeedOctets(format, value);
      EntriesNeedOctets(format, rest);
  }

  /** Acceptance is decided by the one tree that the decoder finds. */
  lemma AcceptableByDecoding(l: CodecLimits, format: Format, input: seq<byte>)
    ensures Acceptable(l, format, input) <==>
      && SizesFit(l, input)
      && DecodeNode(format, input).Some?
      && DecodeNode(format, input).value.rest == []
      && Fits(l, 0, 0, 1, DecodeNode(format, input).value.item)
  {
    hide ValidNode, EncodeNode, DecodeNode, Fits;
    forall v | ValidNode(format, v) && EncodeNode(format, v) == input
      ensures DecodeNode(format, input) == Some(Split(v, []))
    {
      DecodeEncodedNode(format, v, []);
      assert EncodeNode(format, v) + [] == input;
    }
    if DecodeNode(format, input).Some? {
      EncodeDecodedNode(format, input);
      var Split(v, rest) := DecodeNode(format, input).value;
      assert rest == [] ==> EncodeNode(format, v) + rest == EncodeNode(format, v);
    }
  }

  /** An accepted input denotes exactly one tree. */
  lemma AcceptedTreeIsUnique(format: Format, v: Node, w: Node)
    requires ValidNode(format, v) && ValidNode(format, w) && EncodeNode(format, v) == EncodeNode(format, w)
    ensures v == w
  {
    hide ValidNode, EncodeNode, DecodeNode;
    DecodeEncodedNode(format, v, []);
    DecodeEncodedNode(format, w, []);
  }

  /** No accepted input is a proper prefix of another, even under other limits. */
  lemma AcceptanceIsPrefixFree(l: CodecLimits, m: CodecLimits, format: Format, input: seq<byte>, more: seq<byte>)
    requires Acceptable(l, format, input) && Acceptable(m, format, input + more)
    ensures more == []
  {
    hide ValidNode, EncodeNode, DecodeNode, Fits;
    var v :| ValidNode(format, v) && Fits(l, 0, 0, 1, v) && EncodeNode(format, v) == input;
    DecodeEncodedNode(format, v, more);
    AcceptableByDecoding(m, format, input + more);
  }

  /** What a value is, and where it ends, does not depend on the octets that follow. */
  lemma DecodingIsStable(format: Format, s: seq<byte>, more: seq<byte>)
    requires DecodeNode(format, s).Some?
    ensures var Split(v, rest) := DecodeNode(format, s).value; DecodeNode(format, s + more) == Some(Split(v, rest + more))
  {
    hide ValidNode, EncodeNode, DecodeNode;
    EncodeDecodedNode(format, s);
    var Split(v, rest) := DecodeNode(format, s).value;
    DecodeEncodedNode(format, v, rest + more);
    assert EncodeNode(format, v) + (rest + more) == s + more;
  }

  predicate AtLeast(m: CodecLimits, l: CodecLimits) {
    && m.inputBytes >= l.inputBytes && m.outputMessages >= l.outputMessages && m.decodedBytes >= l.decodedBytes
    && m.fields >= l.fields && m.fieldBytes >= l.fieldBytes && m.nestingDepth >= l.nestingDepth
  }

  /** Raising limits never refuses an input that was accepted. */
  lemma AcceptanceIsMonotone(l: CodecLimits, m: CodecLimits, format: Format, input: seq<byte>)
    requires AtLeast(m, l) && Acceptable(l, format, input)
    ensures Acceptable(m, format, input)
  {
    hide ValidNode, EncodeNode, Cost, Pairs, Depth, LongestText;
    var v :| ValidNode(format, v) && Fits(l, 0, 0, 1, v) && EncodeNode(format, v) == input;
    assert Fits(m, 0, 0, 1, v);
  }
}
