/** The certificate identities of the business connection, as configuration validation admits them. */
module Identities {
  import opened Bits
  import opened Bytes

  // ---- fingerprints ----

  predicate HexDigit(c: byte) {
    0x30 <= c <= 0x39 || 0x41 <= c <= 0x46 || 0x61 <= c <= 0x66
  }

  function Digit(c: byte): (d: nat)
    requires HexDigit(c)
    ensures d < 16
  {
    if c <= 0x39 then c - 0x30 else if c <= 0x46 then c - 0x37 else c - 0x57
  }

  predicate Hex32(text: seq<byte>) {
    |text| == 64 && forall i :: 0 <= i < 64 ==> HexDigit(text[i])
  }

  function Fingerprint(text: seq<byte>): seq<byte>
    requires Hex32(text)
  {
    seq(32, i requires 0 <= i < 32 => 16 * Digit(text[2 * i]) + Digit(text[2 * i + 1]))
  }

  lemma OrDigits(high: nat, low: nat)
    requires high < 16 && low < 16
    ensures BitOr(high * 16, low) == 16 * high + low
  {
    assert Pow2(4) == 2 * Pow2(3) == 4 * Pow2(2) == 16;
    OrOfDisjoint(low, high, 4);
  }

  method ParseHex32(text: seq<byte>) returns (r: Option<seq<byte>>)
    ensures r.Some? <==> Hex32(text)
    ensures r.Some? ==> r.value == Fingerprint(text)
  {
    hide BitOr;
    if |text| != 64 { return None; }
    var bytes := new byte[32];
    for index := 0 to 32
      invariant forall i :: 0 <= i < 2 * index ==> HexDigit(text[i])
      invariant forall i :: 0 <= i < index ==>
        HexDigit(text[2 * i]) && HexDigit(text[2 * i + 1]) && bytes[i] == 16 * Digit(text[2 * i]) + Digit(text[2 * i + 1])
    {
      if !HexDigit(text[2 * index]) || !HexDigit(text[2 * index + 1]) { return None; }
      OrDigits(Digit(text[2 * index]), Digit(text[2 * index + 1]));
      bytes[index] := BitOr(Digit(text[2 * index]) * 16, Digit(text[2 * index + 1]));
    }
    assert bytes[..] == Fingerprint(text);
    r := Some(bytes[..]);
  }

  function Lower(c: byte): byte {
    if 0x41 <= c <= 0x46 then c + 0x20 else c
  }

  lemma DigitIgnoresCase(c: byte, d: byte)
    requires HexDigit(c) && HexDigit(d)
    ensures Digit(c) == Digit(d) <==> Lower(c) == Lower(d)
  {
  }

  lemma PairIgnoresCase(a: seq<byte>, b: seq<byte>, k: nat)
    requires Hex32(a) && Hex32(b) && k < 32
    ensures Fingerprint(a)[k] == Fingerprint(b)[k] <==>
      Lower(a[2 * k]) == Lower(b[2 * k]) && Lower(a[2 * k + 1]) == Lower(b[2 * k + 1])
  {
    hide Digit, Lower;
    DigitIgnoresCase(a[2 * k], b[2 * k]);
    DigitIgnoresCase(a[2 * k + 1], b[2 * k + 1]);
    SamePair(Digit(a[2 * k]), Digit(a[2 * k + 1]), Digit(b[2 * k]), Digit(b[2 * k + 1]));
  }

  lemma SamePair(high: nat, low: nat, high': nat, low': nat)
    requires low < 16 && low' < 16
    ensures 16 * high + low == 16 * high' + low' <==> high == high' && low == low'
  {
  }

  /** Two texts name the same certificate exactly when they differ in letter case only. */
  lemma FingerprintsIgnoreCase(a: seq<byte>, b: seq<byte>)
    requires Hex32(a) && Hex32(b)
    ensures Fingerprint(a) == Fingerprint(b) <==> forall i :: 0 <= i < 64 ==> Lower(a[i]) == Lower(b[i])
  {
    hide Digit, Lower;
    if Fingerprint(a) == Fingerprint(b) {
      forall i | 0 <= i < 64 ensures Lower(a[i]) == Lower(b[i]) {
        PairIgnoresCase(a, b, i / 2);
      }
    } else {
      var k :| 0 <= k < 32 && Fingerprint(a)[k] != Fingerprint(b)[k];
      PairIgnoresCase(a, b, k);
    }
  }

  function HexChar(d: nat): byte
    requires d < 16
  {
    if d < 10 then d + 0x30 else d + 0x57
  }

  function Printed(bytes: seq<byte>): seq<byte>
    requires |bytes| == 32
  {
    seq(64, i requires 0 <= i < 64 => HexChar(if i % 2 == 0 then bytes[i / 2] / 16 else bytes[i / 2] % 16))
  }

  /** Every 32-byte value is the fingerprint of its printed form. */
  lemma PrintedIsParsed(bytes: seq<byte>)
    requires |bytes| == 32
    ensures Hex32(Printed(bytes)) && Fingerprint(Printed(bytes)) == bytes
  {
    var text := Printed(bytes);
    forall i | 0 <= i < 32 ensures Fingerprint(text)[i] == bytes[i] {
      assert text[2 * i] == HexChar(bytes[i] / 16) && text[2 * i + 1] == HexChar(bytes[i] % 16);
    }
  }

  // ---- identities ----

  datatype Role = Role(events: bool, authControl: bool, commands: bool)

  datatype Identity = Identity(
    certificate: seq<byte>, principal: seq<byte>, role: Role, provider: Option<string>, sink: Option<string>,
    offers: seq<string>, calls: seq<string>, global: bool, tenants: seq<string>, expiresAt: Option<int>)

  const AUTHENTICATE := "device.authenticate"
  const RESOLVE := "device.resolve_verifier"
  const SYNC := "auth.sync"
  const INVALIDATE := "auth.invalidate"
  const SEND := "device.command.send"

  /** The conditions of one identity, as they are checked. */
  predicate Passes(id: Identity, now: int) {
    && 0 < |id.principal| <= 64
    && (id.expiresAt.Some? ==> id.expiresAt.value > now)
    && id.global == (id.tenants == []) && |id.tenants| <= 64
    && MethodsPass(id.role, id.offers, id.calls)
    && (id.role.authControl ==> id.provider == Some("primary"))
    && (!id.role.authControl ==> id.provider == None)
    && (id.role.events ==> id.sink == Some("tcp-rpc"))
    && (!id.role.events ==> id.sink == None)
  }

  /** What each kind of identity may do. */
  predicate Lawful(id: Identity) {
    && MethodsLawful(id.role, id.offers, id.calls)
    && id.provider == (if id.role.authControl then Some("primary") else None)
    && id.sink == if id.role.events then Some("tcp-rpc") else None
  }

  predicate WellKept(id: Identity, now: int) {
    && 0 < |id.principal| <= 64
    && (id.expiresAt.Some? ==> id.expiresAt.value > now)
    && id.global == (id.tenants == []) && |id.tenants| <= 64
  }

  /** A list of at most two that has two different members is those two, in some order. */
  lemma Both(s: seq<string>, a: string, b: string)
    requires |s| <= 2 && a != b
    ensures a in s && b in s <==> multiset(s) == multiset{a, b}
  {
    if a in s && b in s {
      assert s == [a, b] || s == [b, a];
    }
    if multiset(s) == multiset{a, b} {
      assert a in multiset(s) && b in multiset(s);
    }
  }

  lemma OnlySend(s: seq<string>)
    ensures |s| <= 2 && (forall m <- s :: m == SEND) <==> s in {[], [SEND], [SEND, SEND]}
  {
    if |s| <= 2 && forall m <- s :: m == SEND {
      assert forall i :: 0 <= i < |s| ==> s[i] in s;
      assert s == [] || s == [SEND] || s == [SEND, SEND];
    }
  }

  lemma TwoOf(s: seq<string>, a: string, b: string)
    requires multiset(s) == multiset{a, b}
    ensures |s| == 2 && forall m <- s :: m == a || m == b
  {
    assert |multiset(s)| == 2;
    forall m | m in s ensures m == a || m == b {
      assert m in multiset(s);
    }
  }

  /** The method rules of an identity, as they are checked. */
  predicate MethodsPass(role: Role, offers: seq<string>, calls: seq<string>) {
    && |offers| <= 2 && |calls| <= 2
    && (forall m <- offers :: m in {AUTHENTICATE, RESOLVE})
    && (forall m <- calls :: m in {SYNC, INVALIDATE, SEND})
    && (role.authControl ==> AUTHENTICATE in offers && RESOLVE in offers && SYNC in calls && INVALIDATE in calls)
    && (!role.authControl ==> offers == [] && forall m <- calls :: m == SEND)
    && (role.commands ==> SEND in calls)
    && (!role.commands ==> SEND !in calls)
    && (role.authControl ==> SEND !in calls)
  }

  /** The method rules, as a table of roles. */
  predicate MethodsLawful(role: Role, offers: seq<string>, calls: seq<string>) {
    if role.authControl then
      !role.commands && multiset(offers) == multiset{AUTHENTICATE, RESOLVE} && multiset(calls) == multiset{SYNC, INVALIDATE}
    else
      offers == [] && calls in if role.commands then {[SEND], [SEND, SEND]} else {[]}
  }

  lemma AuthMethods(role: Role, offers: seq<string>, calls: seq<string>)
    requires role.authControl
    ensures MethodsPass(role, offers, calls) <==> MethodsLawful(role, offers, calls)
  {
    if |offers| <= 2 && |calls| <= 2 {
      Both(offers, AUTHENTICATE, RESOLVE);
      Both(calls, SYNC, INVALIDATE);
    }
    if MethodsLawful(role, offers, calls) {
      TwoOf(offers, AUTHENTICATE, RESOLVE);
      TwoOf(calls, SYNC, INVALIDATE);
    }
  }

  lemma OtherMethods(role: Role, offers: seq<string>, calls: seq<string>)
    requires !role.authControl
    ensures MethodsPass(role, offers, calls) <==> MethodsLawful(role, offers, calls)
  {
    OnlySend(calls);
  }

  lemma PassingIsLawful(id: Identity, now: int)
    ensures Passes(id, now) <==> Lawful(id) && WellKept(id, now)
  {
    hide MethodsPass, MethodsLawful;
    if id.role.authControl {
      AuthMethods(id.role, id.offers, id.calls);
    } else {
      OtherMethods(id.role, id.offers, id.calls);
    }
  }

  method ValidateIdentities(identities: seq<Identity>, now: nat -> int) returns (ok: bool)
    ensures ok <==>
      && (forall i :: 0 <= i < |identities| ==> Hex32(identities[i].certificate) && Passes(identities[i], now(i)))
      && (forall i, j :: 0 <= i < j < |identities| ==>
            Fingerprint(identities[i].certificate) != Fingerprint(identities[j].certificate))
  {
    var fingerprints: set<seq<byte>> := {};
    for i := 0 to |identities|
      invariant forall j :: 0 <= j < i ==> Hex32(identities[j].certificate) && Passes(identities[j], now(j))
      invariant fingerprints == set j | 0 <= j < i :: Fingerprint(identities[j].certificate)
      invariant forall j, k :: 0 <= j < k < i ==>
        Fingerprint(identities[j].certificate) != Fingerprint(identities[k].certificate)
    {
      var fingerprint := ParseHex32(identities[i].certificate);
      if fingerprint.None? { return false; }
      if fingerprint.value in fingerprints || !Passes(identities[i], now(i)) { return false; }
      fingerprints := fingerprints + {fingerprint.value};
    }
    ok := true;
  }

  /** Every identity of a validated list is lawful. */
  lemma ValidatedIsLawful(identities: seq<Identity>, now: nat -> int, i: nat)
    requires i < |identities|
    requires forall k :: 0 <= k < |identities| ==> Hex32(identities[k].certificate) && Passes(identities[k], now(k))
    ensures Lawful(identities[i]) && !(identities[i].role.authControl && identities[i].role.commands)
  {
    PassingIsLawful(identities[i], now(i));
  }

  /** Certificates of a validated list differ in more than letter case. */
  lemma ValidatedCertificatesDiffer(identities: seq<Identity>, i: nat, j: nat)
    requires i < j < |identities| && Hex32(identities[i].certificate) && Hex32(identities[j].certificate)
    requires Fingerprint(identities[i].certificate) != Fingerprint(identities[j].certificate)
    ensures exists c :: 0 <= c < 64 && Lower(identities[i].certificate[c]) != Lower(identities[j].certificate[c])
  {
    FingerprintsIgnoreCase(identities[i].certificate, identities[j].certificate);
  }
}
