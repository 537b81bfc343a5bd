/**
 The declarative meaning of the binary preflight: value trees of the supported CBOR subset
 (section 3 of RFC 8949) and of the supported MessagePack subset, the octets of a tree, and
 the four measures that the codec limits bound. Lengths need not be minimal: a tree records
 the width on which each of its arguments is written.
 */
module Wire {
  import opened Bytes
  import opened Utf8

  datatype Format = Cbor | Msgpack

  /** What an item is. `Signed` is MessagePack's int 8..64; `Simple` carries 20 false, 21 true, 22 null. */
  datatype Tag = Unsigned | Negative | Signed | Float | Simple | Text | Map

  /** The head of an item: its argument is inline in the first octet (width 0) or follows on 1, 2, 4 or 8 octets. */
  datatype Head = Head(tag: Tag, width: nat, arg: nat)

  datatype TextItem = TextItem(width: nat, body: seq<byte>)

  datatype Node =
    | Leaf(head: Head)
    | TextNode(text: TextItem)
    | MapNode(width: nat, entries: Entries)

  datatype Entries = Nil | Cons(key: TextItem, value: Node, rest: Entries)

  // ---- which heads a format has ----

  predicate Inline(format: Format, tag: Tag, arg: nat) {
    match (format, tag)
    case (_, Simple) => 20 <= arg <= 22
    case (Cbor, Signed) => false
    case (Cbor, Float) => false
    case (Cbor, _) => arg < 24
    case (Msgpack, Unsigned) => arg < 128
    case (Msgpack, Negative) => arg < 32
    case (Msgpack, Text) => arg < 32
    case (Msgpack, Map) => arg < 16
    case (Msgpack, _) => false
  }

  predicate Widths(format: Format, tag: Tag, width: nat) {
    match (format, tag)
    case (_, Simple) => false
    case (Cbor, Signed) => false
    case (Cbor, Float) => width in {2, 4, 8}
    case (Cbor, _) => width in {1, 2, 4, 8}
    case (Msgpack, Unsigned) => width in {1, 2, 4, 8}
    case (Msgpack, Signed) => width in {1, 2, 4, 8}
    case (Msgpack, Float) => width in {4, 8}
    case (Msgpack, Text) => width in {1, 2, 4}
    case (Msgpack, Map) => width in {2, 4}
    case (Msgpack, Negative) => false
  }

  predicate ValidHead(format: Format, h: Head) {
    if h.width == 0 then Inline(format, h.tag, h.arg)
    else Widths(format, h.tag, h.width) && h.arg < Pow256(h.width)
  }

  function WidthCode(width: nat): nat {
    if width <= 1 then 0 else if width == 2 then 1 else if width == 4 then 2 else 3
  }

  /** CBOR major types. */
  function Major(tag: Tag): nat {
    match tag
    case Unsigned => 0
    case Negative => 1
    case Text => 3
    case Map => 5
    case _ => 7
  }

  /** The format tables: the first octet of an item with head `h`. */
  function FirstOctet(format: Format, h: Head): (b: byte)
    requires ValidHead(format, h)
  {
    match format
    case Cbor => Major(h.tag) * 32 + (if h.width == 0 then h.arg else 24 + WidthCode(h.width))
    case Msgpack =>
      match h.tag
      case Unsigned => if h.width == 0 then h.arg else 0xcc + WidthCode(h.width)
      case Negative => 0xff - h.arg
      case Signed => 0xd0 + WidthCode(h.width)
      case Float => if h.width == 4 then 0xca else 0xcb
      case Simple => if h.arg == 20 then 0xc2 else if h.arg == 21 then 0xc3 else 0xc0
      case Text => if h.width == 0 then 0xa0 + h.arg else 0xd9 + WidthCode(h.width)
      case Map => if h.width == 0 then 0x80 + h.arg else if h.width == 2 then 0xde else 0xdf
  }

  function EncodeHead(format: Format, h: Head): (s: seq<byte>)
    requires ValidHead(format, h)
    ensures |s| == 1 + h.width
  {
    [FirstOctet(format, h)] + (if h.width == 0 then [] else ToBigEndian(h.arg, h.width))
  }

  // ---- well-formed trees and their octets ----

  predicate ValidText(format: Format, t: TextItem) {
    ValidHead(format, Head(Text, t.width, |t.body|)) && ValidUtf8(t.body)
  }

  function Count(es: Entries): nat {
    match es
    case Nil => 0
    case Cons(_, _, rest) => 1 + Count(rest)
  }

  predicate ValidNode(format: Format, v: Node) {
    match v
    case Leaf(h) => h.tag != Text && h.tag != Map && ValidHead(format, h)
    case TextNode(t) => ValidText(format, t)
    case MapNode(width, es) => ValidHead(format, Head(Map, width, Count(es))) && ValidEntries(format, es)
  }

  predicate ValidEntries(format: Format, es: Entries) {
    match es
    case Nil => true
    case Cons(key, value, rest) =>
      ValidText(format, key) && ValidNode(format, value) && ValidEntries(format, rest)
  }

  function EncodeText(format: Format, t: TextItem): (s: seq<byte>)
    requires ValidText(format, t)
    ensures |s| >= 1
  {
    EncodeHead(format, Head(Text, t.width, |t.body|)) + t.body
  }

  function EncodeNode(format: Format, v: Node): (s: seq<byte>)
    requires ValidNode(format, v)
    ensures |s| >= 1
    decreases v
  {
    match v
    case Leaf(h) => EncodeHead(format, h)
    case TextNode(t) => EncodeText(format, t)
    case MapNode(width, es) =>
      EncodeHead(format, Head(Map, width, Count(es))) + EncodeEntries(format, es)
  }

  /** Every pair takes at least two octets. */
  function EncodeEntries(format: Format, es: Entries): (s: seq<byte>)
    requires ValidEntries(format, es)
    ensures |s| >= 2 * Count(es)
    decreases es
  {
    match es
    case Nil => []
    case Cons(key, value, rest) =>
      EncodeText(format, key) + EncodeNode(format, value) + EncodeEntries(format, rest)
  }

  // ---- the measures that limits bound ----

  function TextCost(t: TextItem): nat {
    128 + 3 * |t.body|
  }

  /** 128 for every node, keys included, and 3 for every octet of text. */
  function Cost(v: Node): nat
    decreases v
  {
    match v
    case Leaf(_) => 128
    case TextNode(t) => TextCost(t)
    case MapNode(_, es) => 128 + CostOfEntries(es)
  }

  function CostOfEntries(es: Entries): nat
    decreases es
  {
    match es
    case Nil => 0
    case Cons(key, value, rest) => TextCost(key) + Cost(value) + CostOfEntries(rest)
  }

  /** All pairs of the tree, at every level. */
  function Pairs(v: Node): nat
    decreases v
  {
    match v
    case MapNode(_, es) => Count(es) + NestedPairs(es)
    case _ => 0
  }

  function NestedPairs(es: Entries): nat
    decreases es
  {
    match es
    case Nil => 0
    case Cons(_, value, rest) => Pairs(value) + NestedPairs(rest)
  }

  /** Container depth: scalars and texts are 0, the outer map is 1. */
  function Depth(v: Node): nat
    decreases v
  {
    match v
    case MapNode(_, es) => 1 + DepthOfEntries(es)
    case _ => 0
  }

  function DepthOfEntries(es: Entries): nat
    decreases es
  {
    match es
    case Nil => 0
    case Cons(_, value, rest) => Max(Depth(value), DepthOfEntries(rest))
  }

  function LongestText(v: Node): nat
    decreases v
  {
    match v
    case Leaf(_) => 0
    case TextNode(t) => |t.body|
    case MapNode(_, es) => LongestInEntries(es)
  }

  function LongestInEntries(es: Entries): nat
    decreases es
  {
    match es
    case Nil => 0
    case Cons(key, value, rest) => Max(|key.body|, Max(LongestText(value), LongestInEntries(rest)))
  }
}
