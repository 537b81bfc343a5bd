/**
 An unmetered decoder for the value trees of module Wire, and the proof that it inverts the
 encoding: what it reads re-encodes to the octets read, and every encoding is read back whatever
 follows it. Both directions together make the encoding prefix-free.
 */
module WireDecoder {
  import opened Bytes
  import opened Utf8
  import opened Wire

  datatype Split<+T> = Split(item: T, rest: seq<byte>)

  /** Tag, argument width and inline argument announced by a first octet. */
  datatype Lead = Lead(tag: Tag, width: nat, arg: nat)

  function CborLead(b: byte): Option<Lead> {
    var major, info := b / 32, b % 32;
    if major == 7 then
      if 20 <= info <= 22 then Some(Lead(Simple, 0, info))
      else if info == 25 then Some(Lead(Float, 2, 0))
      else if info == 26 then Some(Lead(Float, 4, 0))
      else if info == 27 then Some(Lead(Float, 8, 0))
      else None
    else if major in {0, 1, 3, 5} && info < 28 then
      var tag := if major == 0 then Unsigned else if major == 1 then Negative else if major == 3 then Text else Map;
      if info < 24 then Some(Lead(tag, 0, info))
      else Some(Lead(tag, if info == 24 then 1 else if info == 25 then 2 else if info == 26 then 4 else 8, 0))
    else None
  }

  function MsgpackLead(b: byte): Option<Lead> {
    if b <= 0x7f then Some(Lead(Unsigned, 0, b))
    else if b <= 0x8f then Some(Lead(Map, 0, b - 0x80))
    else if b <= 0x9f then None
    else if b <= 0xbf then Some(Lead(Text, 0, b - 0xa0))
    else if b == 0xc0 then Some(Lead(Simple, 0, 22))
    else if b == 0xc2 then Some(Lead(Simple, 0, 20))
    else if b == 0xc3 then Some(Lead(Simple, 0, 21))
    else if b == 0xca then Some(Lead(Float, 4, 0))
    else if b == 0xcb then Some(Lead(Float, 8, 0))
    else if 0xcc <= b <= 0xcf then Some(Lead(Unsigned, Width(b - 0xcc), 0))
    else if 0xd0 <= b <= 0xd3 then Some(Lead(Signed, Width(b - 0xd0), 0))
    else if 0xd9 <= b <= 0xdb then Some(Lead(Text, Width(b - 0xd9), 0))
    else if b == 0xde then Some(Lead(Map, 2, 0))
    else if b == 0xdf then Some(Lead(Map, 4, 0))
    else if 0xe0 <= b then Some(Lead(Negative, 0, 0xff - b))
    else None
  }

  function Width(code: nat): nat {
    if code == 0 then 1 else if code == 1 then 2 else if code == 2 then 4 else 8
  }

  function LeadOf(format: Format, b: byte): Option<Lead> {
    if format == Cbor then CborLead(b) else MsgpackLead(b)
  }

  function DecodeHead(format: Format, s: seq<byte>): Option<Split<Head>> {
    if s == [] then None else
      match LeadOf(format, s[0])
      case None => None
      case Some(lead) =>
        if lead.width == 0 then Some(Split(Head(lead.tag, 0, lead.arg), s[1..]))
        else if |s| < 1 + lead.width then None
        else Some(Split(Head(lead.tag, lead.width, FromBigEndian(s[1..1 + lead.width])), s[1 + lead.width..]))
  }

  function DecodeText(format: Format, s: seq<byte>): (r: Option<Split<TextItem>>)
    ensures r.Some? ==> |r.value.rest| < |s|
  {
    match DecodeHead(format, s)
    case None => None
    case Some(Split(h, body)) =>
      if h.tag == Text && h.arg <= |body| && ValidUtf8(body[..h.arg])
      then Some(Split(TextItem(h.width, body[..h.arg]), body[h.arg..]))
      else None
  }

  function DecodeNode(format: Format, s: seq<byte>): (r: Option<Split<Node>>)
    ensures r.Some? ==> |r.value.rest| < |s|
    decreases |s|, 0
  {
    match DecodeHead(format, s)
    case None => None
    case Some(Split(h, body)) =>
      if h.tag == Text then
        match DecodeText(format, s)
        case None => None
        case Some(Split(t, rest)) => Some(Split(TextNode(t), rest))
      else if h.tag == Map then
        match DecodeEntries(format, h.arg, body)
        case None => None
        case Some(Split(es, rest)) => Some(Split(MapNode(h.width, es), rest))
      else Some(Split(Leaf(h), body))
  }

  function DecodeEntries(format: Format, n: nat, s: seq<byte>): (r: Option<Split<Entries>>)
    ensures r.Some? ==> |r.value.rest| + 2 * n <= |s| && Count(r.value.item) == n
    decreases |s|, 1
  {
    if n == 0 then Some(Split(Nil, s)) else
      match DecodeText(format, s)
      case None => None
      case Some(Split(key, afterKey)) =>
        match DecodeNode(format, afterKey)
        case None => None
        case Some(Split(value, afterValue)) =>
          match DecodeEntries(format, n - 1, afterValue)
          case None => None
          case Some(Split(rest, end)) => Some(Split(Cons(key, value, rest), end))
  }

  // ---- reading back what was written ----

  lemma CborLeadOfFirstOctet(h: Head)
    requires ValidHead(Cbor, h)
    ensures CborLead(FirstOctet(Cbor, h)) == Some(Lead(h.tag, h.width, if h.width == 0 then h.arg else 0))
  {
    hide Pow256;
  }

  lemma MsgpackLeadOfFirstOctet(h: Head)
    requires ValidHead(Msgpack, h)
    ensures MsgpackLead(FirstOctet(Msgpack, h)) == Some(Lead(h.tag, h.width, if h.width == 0 then h.arg else 0))
  {
    hide Pow256;
  }

  lemma DecodeEncodedHead(format: Format, h: Head, rest: seq<byte>)
    requires ValidHead(format, h)
    ensures DecodeHead(format, EncodeHead(format, h) + rest) == Some(Split(h, rest))
  {
    hide ValidHead, FirstOctet, CborLead, MsgpackLead;
    if format == Cbor { CborLeadOfFirstOctet(h); } else { MsgpackLeadOfFirstOctet(h); }
    var s := EncodeHead(format, h) + rest;
    assert s[1 + h.width..] == rest;
    if h.width != 0 {
      assert s[1..1 + h.width] == ToBigEndian(h.arg, h.width);
    }
  }

  lemma DecodeEncodedText(format: Format, t: TextItem, rest: seq<byte>)
    requires ValidText(format, t)
    ensures DecodeText(format, EncodeText(format, t) + rest) == Some(Split(t, rest))
  {
    hide DecodeHead, EncodeHead, ValidHead, ValidUtf8, FromBigEndian, ToBigEndian;
    var h := Head(Text, t.width, |t.body|);
    DecodeEncodedHead(format, h, t.body + rest);
    assert EncodeText(format, t) + rest == EncodeHead(format, h) + (t.body + rest);
    assert (t.body + rest)[..|t.body|] == t.body;
    assert (t.body + rest)[|t.body|..] == rest;
  }

  /** Completeness: the encoding of a well-formed tree is read back, and exactly its octets are consumed. */
  lemma {:induction false} DecodeEncodedNode(format: Format, v: Node, rest: seq<byte>)
    requires ValidNode(format, v)
    ensures DecodeNode(format, EncodeNode(format, v) + rest) == Some(Split(v, rest))
    decreases v
  {
    hide DecodeHead, EncodeHead, ValidHead, ValidUtf8, FromBigEndian, ToBigEndian;
    match v
    case Leaf(h) =>
      DecodeEncodedHead(format, h, rest);
    case TextNode(t) =>
      DecodeEncodedText(format, t, rest);
      var h := Head(Text, t.width, |t.body|);
      DecodeEncodedHead(format, h, t.body + rest);
      assert EncodeText(format, t) + rest == EncodeHead(format, h) + (t.body + rest);
    case MapNode(width, es) =>
      var h := Head(Map, width, Count(es));
      var tail := EncodeEntries(format, es) + rest;
      DecodeEncodedHead(format, h, tail);
      assert EncodeNode(format, v) + rest == EncodeHead(format, h) + tail;
      DecodeEncodedEntries(format, es, rest);
  }

  lemma {:induction false} DecodeEncodedEntries(format: Format, es: Entries, rest: seq<byte>)
    requires ValidEntries(format, es)
    ensures DecodeEntries(format, Count(es), EncodeEntries(format, es) + rest) == Some(Split(es, rest))
    decreases es
  {
    hide DecodeText, DecodeNode, EncodeText, EncodeNode, ValidText, ValidNode;
    match es
    case Nil =>
      assert EncodeEntries(format, es) + rest == rest;
    case Cons(key, value, more) =>
      var tail := EncodeEntries(format, more) + rest;
      assert EncodeEntries(format, es) + rest
          == EncodeText(format, key) + (EncodeNode(format, value) + tail);
      DecodeEncodedText(format, key, EncodeNode(format, value) + tail);
      DecodeEncodedNode(format, value, tail);
      DecodeEncodedEntries(format, more, rest);
  }

  // ---- writing back what was read ----

  /** The head announced by `lead`, once its argument is known. */
  function Complete(lead: Lead, arg: nat): Head {
    Head(lead.tag, lead.width, if lead.width == 0 then lead.arg else arg)
  }

  lemma FirstOctetOfCborLead(b: byte, arg: nat)
    requires CborLead(b).Some? && (CborLead(b).value.width == 0 || arg < Pow256(CborLead(b).value.width))
    ensures var h := Complete(CborLead(b).value, arg); ValidHead(Cbor, h) && FirstOctet(Cbor, h) == b
  {
    hide Pow256;
  }

  lemma FirstOctetOfMsgpackLead(b: byte, arg: nat)
    requires MsgpackLead(b).Some? && (MsgpackLead(b).value.width == 0 || arg < Pow256(MsgpackLead(b).value.width))
    ensures var h := Complete(MsgpackLead(b).value, arg); ValidHead(Msgpack, h) && FirstOctet(Msgpack, h) == b
  {
    hide Pow256;
  }

  lemma EncodeDecodedHead(format: Format, s: seq<byte>)
    requires DecodeHead(format, s).Some?
    ensures var Split(h, rest) := DecodeHead(format, s).value;
      ValidHead(format, h) && EncodeHead(format, h) + rest == s
  {
    hide ValidHead, FirstOctet, CborLead, MsgpackLead, FromBigEndian, ToBigEndian;
    var Split(h, rest) := DecodeHead(format, s).value;
    var argument := s[1..1 + h.width];
    BigEndianIsCanonical(argument);
    if format == Cbor { FirstOctetOfCborLead(s[0], h.arg); } else { FirstOctetOfMsgpackLead(s[0], h.arg); }
    assert s == [s[0]] + argument + rest;
  }

  lemma EncodeDecodedText(format: Format, s: seq<byte>)
    requires DecodeText(format, s).Some?
    ensures var Split(t, rest) := DecodeText(format, s).value;
      ValidText(format, t) && EncodeText(format, t) + rest == s
  {
    hide DecodeHead, EncodeHead, ValidHead, ValidUtf8, FromBigEndian, ToBigEndian;
    EncodeDecodedHead(format, s);
    var Split(h, body) := DecodeHead(format, s).value;
    assert body == body[..h.arg] + body[h.arg..];
    var Split(t, rest) := DecodeText(format, s).value;
    assert EncodeText(format, t) + rest == EncodeHead(format, h) + body;
  }

  /** Soundness: what is read is a well-formed tree whose encoding is what was consumed. */
  lemma {:induction false} EncodeDecodedNode(format: Format, s: seq<byte>)
    requires DecodeNode(format, s).Some?
    ensures var Split(v, rest) := DecodeNode(format, s).value;
      ValidNode(format, v) && EncodeNode(format, v) + rest == s
    decreases |s|, 0
  {
    hide DecodeHead, EncodeHead, ValidHead, ValidUtf8, FromBigEndian, ToBigEndian;
    EncodeDecodedHead(format, s);
    var Split(h, body) := DecodeHead(format, s).value;
    var Split(v, rest) := DecodeNode(format, s).value;
    if h.tag == Text {
      EncodeDecodedText(format, s);
    } else if h.tag == Map {
      EncodeDecodedEntries(format, h.arg, body);
      assert EncodeNode(format, v) + rest
          == EncodeHead(format, h) + (EncodeEntries(format, v.entries) + rest);
    }
  }

  lemma {:induction false} EncodeDecodedEntries(format: Format, n: nat, s: seq<byte>)
    requires DecodeEntries(format, n, s).Some?
    ensures var Split(es, rest) := DecodeEntries(format, n, s).value;
      ValidEntries(format, es) && Count(es) == n && EncodeEntries(format, es) + rest == s
    decreases |s|, 1
  {
    hide DecodeText, DecodeNode, EncodeText, EncodeNode, ValidText, ValidNode;
    var Split(es, end) := DecodeEntries(format, n, s).value;
    if n == 0 {
      assert EncodeEntries(format, es) + end == s;
    } else {
      EncodeDecodedText(format, s);
      var afterKey := DecodeText(format, s).value.rest;
      EncodeDecodedNode(format, afterKey);
      var afterValue := DecodeNode(format, afterKey).value.rest;
      EncodeDecodedEntries(format, n - 1, afterValue);
      assert EncodeEntries(format, es) + end
          == EncodeText(format, es.key) + (EncodeNode(format, es.value) + (EncodeEntries(format, es.rest) + end));
    }
  }
}
