/** Conversion of a decoded field map into a device event, and the field map an event prints to. */
module Conversion {
  import opened Bytes
  import Binary64
  import opened Preflight
  import Utf8

  type U64 = n: int | 0 <= n < 0x1_0000_0000_0000_0000
  type I64 = n: int | -0x8000_0000_0000_0000 <= n < 0x8000_0000_0000_0000

  /** A binary64 number by its value; the sign of zero is not kept. */
  datatype Float = Finite(value: real) | NotFinite

  datatype Atom =
    | Unsigned(u: U64)
    | Signed(i: I64)
    | Number(float: Float)
    | Decimal(digits: string)
    | Bool(b: bool)
    | Text(text: string)
    | Null

  datatype Scalar = TextScalar(text: string) | NumberScalar(float: Float) | DecimalScalar(digits: string) | BooleanScalar(b: bool)

  datatype Execution = Running | Succeeded | Failed | Unknown

  /** A 128-bit identifier; its text form is a parameter. */
  type Uuid = n: int | 0 <= n < 0x1_0000_0000_0000_0000_0000_0000_0000_0000

  datatype Kind =
    | Telemetry(fields: map<string, Scalar>)
    | DeviceEvent(name: string, value: Option<Scalar>)
    | Heartbeat(sequence: U64)
    | CommandAck(command: Uuid, execution: Execution)

  datatype Uplink = Uplink(schemaVersion: nat, source: string, occurredAt: Option<int>, kind: string, data: map<string, Atom>)

  datatype Parsed = Parsed(source: string, occurredAt: Option<int>, kind: Kind)

  // ---- validity ----

  /** Octets of a character in UTF-8. */
  function Width(c: char): nat {
    var code := c as int;
    if code < 0x80 then 1 else if code < 0x800 then 2 else if code < 0x1_0000 then 3 else 4
  }

  function Utf8Length(s: string): nat {
    if s == [] then 0 else Width(s[0]) + Utf8Length(s[1..])
  }

  predicate Control(c: char) {
    c as int < 0x20 || 0x7f <= c as int < 0xa0
  }

  predicate ValidText(s: string, limit: nat) {
    Utf8Length(s) <= limit && forall c <- s :: !Control(c)
  }

  /** No control character among the octets of a text: neither of the first set, nor delete, nor of the second set. */
  predicate NoControls(b: seq<byte>) {
    forall i :: 0 <= i < |b| ==>
      b[i] >= 0x20 && b[i] != 0x7f && (b[i] == 0xc2 && i + 1 < |b| ==> b[i + 1] >= 0xa0)
  }

  lemma CharByOctets(c: char)
    ensures var b := Utf8.CharOctets(c);
      && |b| == Width(c) && (NoControls(b) <==> !Control(c)) && b[|b| - 1] != 0xc2
  {
    var b, n := Utf8.CharOctets(c), c as int;
    if 0x80 <= n < 0xa0 {
      assert b[0] == 0xc2 && b[1] == n;
    } else if n < 0x80 {
      assert b[0] == n;
    }
  }

  lemma NoControlsTogether(a: seq<byte>, b: seq<byte>)
    requires a != [] && a[|a| - 1] != 0xc2
    ensures NoControls(a + b) <==> NoControls(a) && NoControls(b)
  {
    if NoControls(a + b) {
      assert forall i :: 0 <= i < |a| ==> a[i] == (a + b)[i];
      assert forall i :: 0 <= i < |b| ==> b[i] == (a + b)[|a| + i];
    }
  }

  /** A text is valid by its characters exactly when it is by the octets it is sent as. */
  lemma {:induction false} ValidTextByOctets(s: string, limit: nat)
    ensures Utf8Length(s) == |Utf8.OctetsOf(s)|
    ensures ValidText(s, limit) <==> |Utf8.OctetsOf(s)| <= limit && NoControls(Utf8.OctetsOf(s))
  {
    hide NoControls, Control, Utf8.CharOctets;
    if s == [] {
      assert NoControls([]) by { NothingControls(); }
    } else {
      var first, rest := Utf8.CharOctets(s[0]), Utf8.OctetsOf(s[1..]);
      CharByOctets(s[0]);
      ValidTextByOctets(s[1..], limit);
      ValidTextByOctets(s[1..], Utf8Length(s[1..]));
      NoControlsTogether(first, rest);
      assert s == [s[0]] + s[1..];
    }
  }

  lemma NothingControls()
    ensures NoControls([])
  {
  }

  predicate ValidScalar(s: Scalar, limit: nat) {
    match s
    case TextScalar(text) => ValidText(text, limit)
    case NumberScalar(float) => float.Finite?
    case DecimalScalar(digits) => Utf8Length(digits) <= limit
    case BooleanScalar(_) => true
  }

  predicate ValidKind(k: Kind, l: CodecLimits) {
    match k
    case Telemetry(fields) =>
      && 0 < |fields| <= l.fields
      && forall name <- fields ::
           name != "" && ValidText(name, l.fieldBytes) && ValidScalar(fields[name], l.fieldBytes)
    case DeviceEvent(name, value) =>
      && name != "" && ValidText(name, l.fieldBytes)
      && (value.Some? ==> ValidScalar(value.value, l.fieldBytes))
    case Heartbeat(_) => true
    case CommandAck(_, execution) => execution != Unknown
  }

  /** Every character of a text, and its length as it is sent. */
  method CheckText(s: string, limit: nat) returns (ok: bool)
    ensures ok <==> ValidText(s, limit)
  {
    ValidTextByOctets(s, limit);
    if |Utf8.OctetsOf(s)| > limit { return false; }
    for i := 0 to |s|
      invariant forall j :: 0 <= j < i ==> !Control(s[j])
    {
      if s[i] <= '\U{1f}' || '\U{7f}' <= s[i] <= '\U{9f}' {
        assert s[i] in s && Control(s[i]);
        return false;
      }
    }
    ok := true;
  }

  method CheckScalar(s: Scalar, limit: nat) returns (ok: bool)
    ensures ok <==> ValidScalar(s, limit)
  {
    match s
    case TextScalar(text) => ok := CheckText(text, limit);
    case NumberScalar(float) => ok := float != NotFinite;
    case DecimalScalar(digits) =>
      ValidTextByOctets(digits, limit);
      ok := |Utf8.OctetsOf(digits)| <= limit;
    case BooleanScalar(_) => ok := true;
  }

  /** The checks on an event, field by field. */
  method CheckKind(k: Kind, l: CodecLimits) returns (ok: bool)
    ensures ok <==> ValidKind(k, l)
  {
    hide ValidText, ValidScalar;
    match k
    case Telemetry(fields) =>
      if fields == map[] || |fields| > l.fields { return false; }
      assert |fields| > 0 by { NotEmpty(fields); }
      var left := fields.Keys;
      while left != {}
        invariant left <= fields.Keys
        invariant forall name :: name in fields.Keys - left ==>
          name != "" && ValidText(name, l.fieldBytes) && ValidScalar(fields[name], l.fieldBytes)
        decreases |left|
      {
        var name :| name in left;
        if name == "" { return false; }
        ok := CheckText(name, l.fieldBytes);
        if !ok { return false; }
        ok := CheckScalar(fields[name], l.fieldBytes);
        if !ok { return false; }
        left := left - {name};
      }
      ok := true;
    case DeviceEvent(name, value) =>
      if name == "" { return false; }
      ok := CheckText(name, l.fieldBytes);
      if ok && value.Some? { ok := CheckScalar(value.value, l.fieldBytes); }
    case Heartbeat(_) => ok := true;
    case CommandAck(_, execution) => ok := !execution.Unknown?;
  }

  lemma NotEmpty(fields: map<string, Scalar>)
    ensures fields == map[] <==> |fields| == 0
  {
  }

  // ---- scalars ----

  function IntegerScalar(n: int): Option<Scalar> {
    if Binary64.Abs(n) > Binary64.SIGNIFICAND then None
    else Some(NumberScalar(Finite(Binary64.FromInt(n) as real)))
  }

  function ToScalar(a: Atom): Option<Scalar> {
    match a
    case Unsigned(n) => IntegerScalar(n)
    case Signed(n) => IntegerScalar(n)
    case Number(n) => Some(NumberScalar(n))
    case Decimal(n) => Some(DecimalScalar(n))
    case Bool(b) => Some(BooleanScalar(b))
    case Text(s) => Some(TextScalar(s))
    case Null => None
  }

  /** An accepted integer keeps its value, however it was typed; exactly the others are refused. */
  lemma IntegersAreExact(n: int)
    ensures IntegerScalar(n).Some? <==> Binary64.Abs(n) <= Binary64.SIGNIFICAND
    ensures IntegerScalar(n).Some? ==> IntegerScalar(n) == Some(NumberScalar(Finite(n as real)))
  {
    if Binary64.Abs(n) <= Binary64.SIGNIFICAND { Binary64.IntIsExact(n); }
  }

  function Integer(a: Atom): int
    requires a.Unsigned? || a.Signed?
  {
    if a.Unsigned? then a.u else a.i
  }

  lemma IntegersStayApart(a: Atom, b: Atom)
    requires (a.Unsigned? || a.Signed?) && (b.Unsigned? || b.Signed?)
    requires ToScalar(a).Some? && ToScalar(a) == ToScalar(b)
    ensures Integer(a) == Integer(b)
  {
    IntegersAreExact(Integer(a));
    IntegersAreExact(Integer(b));
  }

  /** Whatever its type, an integer atom becomes its own number, or nothing beyond a magnitude of 2^53. */
  lemma IntegersKeepTheirValue(a: Atom)
    requires a.Unsigned? || a.Signed?
    ensures ToScalar(a) ==
      if -0x20_0000_0000_0000 <= Integer(a) <= 0x20_0000_0000_0000
      then Some(NumberScalar(Finite(Integer(a) as real)))
      else None
  {
    IntegersAreExact(Integer(a));
  }

  /** Every other atom but the null atom becomes the scalar that prints to it. */
  lemma OthersKeepTheirValue(a: Atom)
    requires !a.Unsigned? && !a.Signed?
    ensures ToScalar(a).None? <==> a == Null
    ensures ToScalar(a).Some? ==> FromScalar(ToScalar(a).value) == a
  {
  }

  // ---- what a field map says ----

  function ExecutionName(e: Execution): string {
    match e
    case Running => "running"
    case Succeeded => "succeeded"
    case Failed => "failed"
    case Unknown => "unknown"
  }

  /** The map `data` under the name `kind` says exactly `k`, with no field besides. */
  predicate Says(parse: string -> Option<Uuid>, kind: string, data: map<string, Atom>, k: Kind) {
    match k
    case Telemetry(fields) =>
      kind == "telemetry" && data.Keys == fields.Keys && forall f <- data :: ToScalar(data[f]) == Some(fields[f])
    case DeviceEvent(name, value) =>
      && kind == "event" && {"name"} <= data.Keys <= {"name", "value"} && data["name"] == Text(name)
      && (match value
          case None => "value" in data ==> data["value"] == Null
          case Some(v) => "value" in data && ToScalar(data["value"]) == Some(v))
    case Heartbeat(n) =>
      && kind == "heartbeat" && data.Keys == {"sequence"}
      && (data["sequence"].Unsigned? || data["sequence"].Signed?) && Integer(data["sequence"]) == n
    case CommandAck(command, execution) =>
      && kind == "command_ack" && data.Keys == {"command_id", "execution"}
      && data["command_id"].Text? && parse(data["command_id"].text) == Some(command)
      && execution != Unknown && data["execution"] == Text(ExecutionName(execution))
  }

  /** A field map says at most one thing. */
  lemma SaysOneThing(parse: string -> Option<Uuid>, kind: string, data: map<string, Atom>, j: Kind, k: Kind)
    requires Says(parse, kind, data, j) && Says(parse, kind, data, k)
    ensures j == k
  {
    if j.Telemetry? {
      assert j.fields.Keys == k.fields.Keys;
      assert forall f <- data :: j.fields[f] == k.fields[f];
      assert j.fields == k.fields;
    }
  }

  /** What an uplink is accepted as. */
  ghost predicate Accepts(parse: string -> Option<Uuid>, u: Uplink, l: CodecLimits, p: Parsed) {
    && u.schemaVersion == 1 && (u.occurredAt.Some? ==> u.occurredAt.value >= 0)
    && Says(parse, u.kind, u.data, p.kind) && ValidKind(p.kind, l)
    && p.source == u.source && p.occurredAt == u.occurredAt
  }

  method IntoEvent(parse: string -> Option<Uuid>, u: Uplink, l: CodecLimits) returns (r: Option<Parsed>)
    ensures r.Some? ==> Accepts(parse, u, l, r.value)
    ensures r.None? ==> forall p :: !Accepts(parse, u, l, p)
  {
    if u.schemaVersion != 1 || (u.occurredAt.Some? && u.occurredAt.value < 0) { return None; }
    var kind := ReadKind(parse, u.kind, u.data);
    match kind {
      case None => return None;
      case Some(k) =>
        var valid := CheckKind(k, l);
        if !valid {
          forall p ensures !Accepts(parse, u, l, p) {
            if Accepts(parse, u, l, p) { SaysOneThing(parse, u.kind, u.data, k, p.kind); }
          }
          return None;
        }
        r := Some(Parsed(u.source, u.occurredAt, k));
    }
  }

  /** The scalar of an integer atom, where it has one. */
  predicate HoldsInteger(a: Atom, s: Scalar) {
    a.Unsigned? || a.Signed? ==>
      -0x20_0000_0000_0000 <= Integer(a) <= 0x20_0000_0000_0000 && s == NumberScalar(Finite(Integer(a) as real))
  }

  /** In an accepted uplink every integer field of telemetry, and an integer value of a device event, keeps its number. */
  lemma AcceptedIntegersAreExact(parse: string -> Option<Uuid>, u: Uplink, l: CodecLimits, p: Parsed)
    requires Accepts(parse, u, l, p)
    ensures p.kind.Telemetry? ==> u.data.Keys == p.kind.fields.Keys && forall f <- u.data :: HoldsInteger(u.data[f], p.kind.fields[f])
    ensures p.kind.DeviceEvent? && "value" in u.data && p.kind.value.Some? ==> HoldsInteger(u.data["value"], p.kind.value.value)
    ensures p.kind.DeviceEvent? && "value" in u.data && u.data["value"] != Null ==> p.kind.value.Some?
  {
    if p.kind.Telemetry? {
      forall f | f in u.data ensures HoldsInteger(u.data[f], p.kind.fields[f]) {
        if u.data[f].Unsigned? || u.data[f].Signed? { IntegersKeepTheirValue(u.data[f]); }
      }
    } else if p.kind.DeviceEvent? && "value" in u.data && p.kind.value.Some? {
      var a := u.data["value"];
      if a.Unsigned? || a.Signed? { IntegersKeepTheirValue(a); }
    }
  }

  lemma Emptied(fields: map<string, Atom>, names: set<string>, left: map<string, Atom>)
    requires left.Keys == fields.Keys - names
    ensures left == map[] <==> fields.Keys <= names
  {
    if left == map[] {
      forall f | f in fields.Keys ensures f in names {
        assert f !in left.Keys;
      }
    }
  }

  /** Fields are removed as they are read; whatever is left over is an error. */
  method ReadKind(parse: string -> Option<Uuid>, kind: string, fields: map<string, Atom>) returns (r: Option<Kind>)
    ensures r.Some? ==> Says(parse, kind, fields, r.value)
    ensures r.None? ==> forall k :: !Says(parse, kind, fields, k)
  {
    var data := fields;
    if kind == "telemetry" {
      if exists f :: f in data && ToScalar(data[f]).None? { return None; }
      r := Some(Telemetry(map f | f in data :: ToScalar(data[f]).value));
    } else if kind == "event" {
      if "name" !in data || !data["name"].Text? { return None; }
      var name := data["name"].text;
      data := data - {"name"};
      var value := None;
      if "value" in data && data["value"] != Null {
        value := ToScalar(data["value"]);
        if value.None? { return None; }
      }
      data := data - {"value"};
      Emptied(fields, {"name", "value"}, data);
      if data != map[] { return None; }
      r := Some(DeviceEvent(name, value));
    } else if kind == "heartbeat" {
      if "sequence" !in data { return None; }
      var sequence: U64;
      match data["sequence"] {
        case Unsigned(n) => sequence := n;
        case Signed(n) =>
          if n < 0 { return None; }
          sequence := n;
        case _ => return None;
      }
      data := data - {"sequence"};
      Emptied(fields, {"sequence"}, data);
      if data != map[] { return None; }
      r := Some(Heartbeat(sequence));
    } else if kind == "command_ack" {
      if "command_id" !in data || !data["command_id"].Text? { return None; }
      var id := data["command_id"].text;
      data := data - {"command_id"};
      if "execution" !in data || !data["execution"].Text? { return None; }
      var name := data["execution"].text;
      data := data - {"execution"};
      var command := parse(id);
      if command.None? { return None; }
      var execution: Execution;
      if name == "running" { execution := Running; }
      else if name == "succeeded" { execution := Succeeded; }
      else if name == "failed" { execution := Failed; }
      else { return None; }
      Emptied(fields, {"command_id", "execution"}, data);
      if data != map[] { return None; }
      r := Some(CommandAck(command.value, execution));
    } else {
      r := None;
    }
  }

  // ---- printing ----

  function FromScalar(s: Scalar): Atom {
    match s
    case TextScalar(text) => Text(text)
    case NumberScalar(float) => Number(float)
    case DecimalScalar(digits) => Decimal(digits)
    case BooleanScalar(b) => Bool(b)
  }

  function KindName(k: Kind): string {
    match k
    case Telemetry(_) => "telemetry"
    case DeviceEvent(_, _) => "event"
    case Heartbeat(_) => "heartbeat"
    case CommandAck(_, _) => "command_ack"
  }

  function Print(show: Uuid -> string, k: Kind): map<string, Atom> {
    match k
    case Telemetry(fields) => map f | f in fields :: FromScalar(fields[f])
    case DeviceEvent(name, value) =>
      (match value
       case None => map["name" := Text(name)]
       case Some(v) => map["name" := Text(name), "value" := FromScalar(v)])
    case Heartbeat(n) => map["sequence" := Unsigned(n)]
    case CommandAck(command, execution) =>
      map["command_id" := Text(show(command)), "execution" := Text(ExecutionName(execution))]
  }

  /** A printed event says itself, unless its execution state has no name to be read by. */
  lemma PrintedSaysItself(show: Uuid -> string, parse: string -> Option<Uuid>, k: Kind)
    requires forall id: Uuid :: parse(show(id)) == Some(id)
    ensures Says(parse, KindName(k), Print(show, k), k) <==> !(k.CommandAck? && k.execution == Unknown)
  {
  }

  lemma UnknownIsUnread(show: Uuid -> string, parse: string -> Option<Uuid>, id: Uuid, j: Kind)
    ensures !Says(parse, "command_ack", Print(show, CommandAck(id, Unknown)), j)
  {
  }

  /** Printed and read back, an event is itself exactly when it is valid; an invalid one is refused. */
  lemma PrintedIsRead(show: Uuid -> string, parse: string -> Option<Uuid>, k: Kind, p: Parsed, l: CodecLimits)
    requires forall id: Uuid :: parse(show(id)) == Some(id)
    ensures var u := Uplink(1, p.source, None, KindName(k), Print(show, k));
            Accepts(parse, u, l, p) <==> ValidKind(k, l) && p == Parsed(u.source, None, k)
  {
    hide Says, Print;
    PrintedSaysItself(show, parse, k);
    if k.CommandAck? && k.execution == Unknown {
      UnknownIsUnread(show, parse, k.command, p.kind);
    } else if Says(parse, KindName(k), Print(show, k), p.kind) {
      SaysOneThing(parse, KindName(k), Print(show, k), k, p.kind);
    }
  }
}
