/** What a server starts from: the products its credentials imply, and the codecs it can decode with. */
module Bootstrap {
  import opened Bytes

  // ---- products ----

  datatype Credential = Credential(tenant: string, product: string, device: string, codecId: string, codecVersion: nat)

  datatype Product = Product(tenant: string, product: string, codecId: string, codecVersion: nat, revision: nat)

  type ProductKey = (string, string)

  function KeyOf(c: Credential): ProductKey {
    (c.tenant, c.product)
  }

  function ProductOf(c: Credential): Product {
    Product(c.tenant, c.product, c.codecId, c.codecVersion, 1)
  }

  predicate Agree(credentials: seq<Credential>) {
    forall c, d :: c in credentials && d in credentials && c.tenant == d.tenant && c.product == d.product ==>
      c.codecId == d.codecId && c.codecVersion == d.codecVersion
  }

  /** The product that a credential asks for, at its first revision. */
  predicate Belongs(p: Product, c: Credential) {
    && p.tenant == c.tenant && p.product == c.product
    && p.codecId == c.codecId && p.codecVersion == c.codecVersion && p.revision == 1
  }

  /** One product for every tenant and product named, with the codec its credentials name. */
  predicate Describes(products: map<ProductKey, Product>, credentials: seq<Credential>) {
    && (forall c <- credentials ::
          (c.tenant, c.product) in products && Belongs(products[(c.tenant, c.product)], c))
    && (forall k <- products :: exists c :: c in credentials && c.tenant == k.0 && c.product == k.1)
  }

  method BootstrapProducts(credentials: seq<Credential>) returns (r: Option<map<ProductKey, Product>>)
    ensures r.Some? <==> Agree(credentials)
    ensures r.Some? ==> Describes(r.value, credentials)
  {
    var products: map<ProductKey, Product> := map[];
    for i := 0 to |credentials|
      invariant Describes(products, credentials[..i])
    {
      var c := credentials[i];
      assert credentials[..i + 1] == credentials[..i] + [c];
      if KeyOf(c) in products {
        var existing := products[KeyOf(c)];
        if existing.codecId != c.codecId || existing.codecVersion != c.codecVersion {
          assert exists d :: d in credentials[..i] && KeyOf(d) == KeyOf(c);
          return None;
        }
      } else {
        products := products[KeyOf(c) := ProductOf(c)];
      }
    }
    assert credentials[..|credentials|] == credentials;
    r := Some(products);
  }

  /** The products depend on which credentials there are, not on their order or repetition. */
  lemma OrderDoesNotMatter(products: map<ProductKey, Product>, credentials: seq<Credential>,
                           products': map<ProductKey, Product>, credentials': seq<Credential>)
    requires Describes(products, credentials) && Describes(products', credentials')
    requires forall c :: c in credentials <==> c in credentials'
    ensures products == products'
  {
    assert forall k <- products :: k in products' && products[k] == products'[k];
    assert forall k <- products' :: k in products;
    assert products.Keys == products'.Keys;
  }

  // ---- codecs ----

  datatype Codec = Json | Cbor | Msgpack | Protobuf | Supplied(tag: nat)

  datatype Entry = Entry(id: string, version: nat, codec: Codec)

  /** A declarative codec; what else it lays out is decided by its compiler. */
  datatype Plan = Plan(id: string, version: nat, commandSizes: seq<nat>, layout: nat)

  type CodecKey = (string, nat)

  const MAX_IDENTIFIER: nat := 64

  predicate IdentifierChar(c: char) {
    '0' <= c <= '9' || 'A' <= c <= 'Z' || 'a' <= c <= 'z' || c in "_-.:"
  }

  predicate Identifier(s: string) {
    0 < |s| <= MAX_IDENTIFIER && forall c <- s :: IdentifierChar(c)
  }

  predicate VendorId(id: string, version: nat) {
    version != 0 && "vendor-" < id && Identifier(id)
  }

  predicate VendorOctet(n: int) {
    n == 0x2d || n == 0x2e || 0x30 <= n <= 0x3a || 0x41 <= n <= 0x5a || n == 0x5f || 0x61 <= n <= 0x7a
  }

  /** A vendor id by its octets: the prefix and 1 to 57 letters, digits, hyphens, dots, colons or underscores. */
  lemma VendorIdByOctets(id: string, version: nat)
    ensures VendorId(id, version) <==>
      version != 0 && 8 <= |id| <= 64 && id[..7] == "vendor-" && forall i :: 7 <= i < |id| ==> VendorOctet(id[i] as int)
  {
    hide IdentifierChar, VendorOctet;
    forall c: char ensures IdentifierChar(c) <==> VendorOctet(c as int) {
      VendorOctets(c);
    }
    if |id| >= 7 && id[..7] == "vendor-" {
      var v := "vendor-";
      assert forall i :: 0 <= i < 7 ==> id[i] == v[i];
      PrefixIsIdentifier();
      assert forall i :: 0 <= i < 7 ==> IdentifierChar(id[i]);
      assert forall i :: 7 <= i < |id| ==> id[i] in id;
    }
  }

  lemma VendorOctets(c: char)
    ensures IdentifierChar(c) <==> VendorOctet(c as int)
  {
    var others := "_-.:";
    assert c in others <==> c == others[0] || c == others[1] || c == others[2] || c == others[3];
  }

  lemma PrefixIsIdentifier()
    ensures var v := "vendor-"; forall i :: 0 <= i < 7 ==> IdentifierChar(v[i])
  {
    var v := "vendor-";
    VendorOctets(v[6]);
  }

  function Builtins(): seq<Entry> {
    [Entry("netbaiot-json", 1, Json), Entry("netbaiot-cbor", 1, Cbor),
     Entry("netbaiot-msgpack", 1, Msgpack), Entry("netbaiot-protobuf", 1, Protobuf)]
  }

  /** The built-in codecs under their names. */
  predicate HasBuiltins(table: map<CodecKey, Codec>) {
    && ("netbaiot-json", 1) in table && table[("netbaiot-json", 1)] == Json
    && ("netbaiot-cbor", 1) in table && table[("netbaiot-cbor", 1)] == Cbor
    && ("netbaiot-msgpack", 1) in table && table[("netbaiot-msgpack", 1)] == Msgpack
    && ("netbaiot-protobuf", 1) in table && table[("netbaiot-protobuf", 1)] == Protobuf
  }

  lemma BuiltinsAreHeld(table: map<CodecKey, Codec>, entries: seq<Entry>)
    requires Holds(table, entries) && Builtins() <= entries
    ensures HasBuiltins(table)
  {
    assert entries[0] in entries && entries[1] in entries && entries[2] in entries && entries[3] in entries;
    assert forall i :: 0 <= i < 4 ==> entries[i] == Builtins()[i];
  }

  function Keys(entries: seq<Entry>): seq<CodecKey> {
    seq(|entries|, i requires 0 <= i < |entries| => (entries[i].id, entries[i].version))
  }

  function PlanKeys(plans: seq<Plan>): seq<CodecKey> {
    seq(|plans|, i requires 0 <= i < |plans| => (plans[i].id, plans[i].version))
  }

  predicate Distinct(keys: seq<CodecKey>) {
    forall i, j :: 0 <= i < j < |keys| ==> keys[i] != keys[j]
  }

  lemma OneMoreKey(keys: seq<CodecKey>, k: CodecKey)
    ensures Distinct(keys + [k]) <==> Distinct(keys) && k !in keys
  {
    if k in keys {
      var i :| 0 <= i < |keys| && keys[i] == k;
      assert (keys + [k])[i] == (keys + [k])[|keys|];
    }
    if Distinct(keys + [k]) {
      assert forall i :: 0 <= i < |keys| ==> keys[i] == (keys + [k])[i];
    }
  }

  lemma FewerKeys(keys: seq<CodecKey>, i: nat)
    requires i <= |keys| && Distinct(keys)
    ensures Distinct(keys[..i])
  {
  }

  /** The table holds exactly the entries. */
  ghost predicate Holds(table: map<CodecKey, Codec>, entries: seq<Entry>) {
    && |table| == |entries|
    && (forall k :: k in table <==> k in Keys(entries))
    && forall e <- entries :: (e.id, e.version) in table && table[(e.id, e.version)] == e.codec
  }

  lemma HoldsOneMore(table: map<CodecKey, Codec>, entries: seq<Entry>, e: Entry)
    requires Holds(table, entries) && (e.id, e.version) !in table
    ensures Holds(table[(e.id, e.version) := e.codec], entries + [e])
  {
    assert Keys(entries + [e]) == Keys(entries) + [(e.id, e.version)];
    forall d | d in entries ensures (d.id, d.version) != (e.id, e.version) {
      var i :| 0 <= i < |entries| && entries[i] == d;
      assert Keys(entries)[i] == (d.id, d.version);
    }
  }

  predicate Versioned(entries: seq<Entry>) {
    forall i :: 0 <= i < |entries| ==> entries[i].version != 0
  }

  method NewRegistry(entries: seq<Entry>) returns (r: Option<map<CodecKey, Codec>>)
    ensures r.Some? <==> 1 <= |entries| <= 64 && Versioned(entries) && Distinct(Keys(entries))
    ensures r.Some? ==> Holds(r.value, entries)
  {
    if entries == [] || |entries| > 64 { return None; }
    var table: map<CodecKey, Codec> := map[];
    hide Distinct, Holds, Keys, Versioned, Loaded;
    NothingLoaded(entries);
    for i := 0 to |entries|
      invariant Loaded(table, entries, i)
    {
      var e := entries[i];
      LoadOne(table, entries, i);
      if e.version == 0 || (e.id, e.version) in table { return None; }
      table := table[(e.id, e.version) := e.codec];
    }
    AllLoaded(table, entries);
    r := Some(table);
  }

  /** The first `i` entries are in. */
  ghost predicate Loaded(table: map<CodecKey, Codec>, entries: seq<Entry>, i: nat) {
    i <= |entries| && Versioned(entries[..i]) && Distinct(Keys(entries[..i])) && Holds(table, entries[..i])
  }

  lemma NothingLoaded(entries: seq<Entry>)
    ensures Loaded(map[], entries, 0)
  {
  }

  lemma AllLoaded(table: map<CodecKey, Codec>, entries: seq<Entry>)
    requires Loaded(table, entries, |entries|)
    ensures Versioned(entries) && Distinct(Keys(entries)) && Holds(table, entries)
  {
    assert entries[..|entries|] == entries;
  }

  lemma LoadOne(table: map<CodecKey, Codec>, entries: seq<Entry>, i: nat)
    requires i < |entries| && Loaded(table, entries, i)
    ensures var e := entries[i];
      if e.version == 0 || (e.id, e.version) in table then !Versioned(entries) || !Distinct(Keys(entries))
      else Loaded(table[(e.id, e.version) := e.codec], entries, i + 1)
  {
    hide Distinct, Holds, Keys;
    var e, before := entries[i], entries[..i];
    KeysOfPrefix(entries, i);
    SameKeys(table, before, (e.id, e.version));
    if (e.id, e.version) !in table { HoldsOneMore(table, before, e); }
  }

  /** One entry more stays distinct exactly when its key is new. */
  lemma KeysOfPrefix(entries: seq<Entry>, i: nat)
    requires i < |entries| && Distinct(Keys(entries[..i]))
    ensures entries[..i + 1] == entries[..i] + [entries[i]]
    ensures Distinct(Keys(entries[..i + 1])) <==> (entries[i].id, entries[i].version) !in Keys(entries[..i])
    ensures Distinct(Keys(entries)) ==> Distinct(Keys(entries[..i + 1]))
  {
    var k := (entries[i].id, entries[i].version);
    assert Keys(entries[..i + 1]) == Keys(entries[..i]) + [k];
    assert Keys(entries[..i + 1]) == Keys(entries)[..i + 1];
    OneMoreKey(Keys(entries[..i]), k);
    if Distinct(Keys(entries)) { FewerKeys(Keys(entries), i + 1); }
    hide Distinct;
  }

  lemma SameKeys(table: map<CodecKey, Codec>, entries: seq<Entry>, k: CodecKey)
    requires Holds(table, entries)
    ensures k in table <==> k in Keys(entries)
  {
  }

  predicate SizesFit(sizes: seq<nat>, maxCommand: nat) {
    forall c :: 0 <= c < |sizes| ==> sizes[c] <= maxCommand
  }

  predicate PlanFits(compile: Plan -> Option<Codec>, maxCommand: nat, p: Plan) {
    VendorId(p.id, p.version) && compile(p).Some? && SizesFit(p.commandSizes, maxCommand)
  }

  predicate AllCompile(compile: Plan -> Option<Codec>, plans: seq<Plan>) {
    forall i :: 0 <= i < |plans| ==> compile(plans[i]).Some?
  }

  predicate AllFit(compile: Plan -> Option<Codec>, maxCommand: nat, plans: seq<Plan>)
    ensures AllFit(compile, maxCommand, plans) ==> AllCompile(compile, plans)
  {
    forall i :: 0 <= i < |plans| ==> PlanFits(compile, maxCommand, plans[i])
  }

  function Asked(native: seq<Entry>, plans: seq<Plan>): seq<CodecKey> {
    Keys(native) + PlanKeys(plans)
  }

  /** The configurations a registry can be built for. */
  predicate Buildable(compile: Plan -> Option<Codec>, maxCommand: nat, native: seq<Entry>, plans: seq<Plan>) {
    && |plans| + |native| <= 60
    && (forall e <- native :: VendorId(e.id, e.version))
    && AllFit(compile, maxCommand, plans)
    && Distinct(Asked(native, plans))
  }

  function Compiled(compile: Plan -> Option<Codec>, plans: seq<Plan>): seq<Entry>
    requires AllCompile(compile, plans)
  {
    seq(|plans|, i requires 0 <= i < |plans| => Entry(plans[i].id, plans[i].version, compile(plans[i]).value))
  }

  /** Everything a built registry holds. */
  function Registered(compile: Plan -> Option<Codec>, native: seq<Entry>, plans: seq<Plan>): seq<Entry>
    requires AllCompile(compile, plans)
  {
    Builtins() + native + Compiled(compile, plans)
  }

  /** No vendor codec can take a built-in's place. */
  lemma VendorsAreNotBuiltin(k: CodecKey)
    requires VendorId(k.0, k.1)
    ensures k !in Keys(Builtins())
  {
    assert k.0[0] == "vendor-"[0];
    forall i | 0 <= i < 4 ensures Keys(Builtins())[i] != k {
      assert Keys(Builtins())[i].0[0] == 'n';
    }
  }

  predicate AllVendors(keys: seq<CodecKey>) {
    forall k <- keys :: VendorId(k.0, k.1)
  }

  lemma {:induction false} BuiltinsStayApart(keys: seq<CodecKey>)
    requires AllVendors(keys)
    ensures Distinct(Keys(Builtins()) + keys) <==> Distinct(keys)
    decreases |keys|
  {
    if keys == [] {
      assert Keys(Builtins()) + keys == Keys(Builtins());
    } else {
      var n := |keys| - 1;
      assert keys == keys[..n] + [keys[n]];
      assert Keys(Builtins()) + keys == (Keys(Builtins()) + keys[..n]) + [keys[n]];
      OneMoreKey(keys[..n], keys[n]);
      OneMoreKey(Keys(Builtins()) + keys[..n], keys[n]);
      VendorsAreNotBuiltin(keys[n]);
      BuiltinsStayApart(keys[..n]);
    }
  }

  /** The keys registered once the first `n` asked for are in. */
  ghost predicate Progress(entries: seq<Entry>, asked: seq<CodecKey>, n: nat) {
    n <= |asked| && Keys(entries) == Keys(Builtins()) + asked[..n] && AllVendors(asked[..n]) && Distinct(asked[..n])
  }

  lemma Advance(entries: seq<Entry>, asked: seq<CodecKey>, n: nat, e: Entry)
    requires Progress(entries, asked, n) && n < |asked| && asked[n] == (e.id, e.version) && VendorId(e.id, e.version)
    ensures asked[n] in Keys(entries) ==> !Distinct(asked)
    ensures asked[n] !in Keys(entries) ==> Progress(entries + [e], asked, n + 1)
  {
    var k := asked[n];
    assert asked[..n + 1] == asked[..n] + [k];
    assert Keys(entries + [e]) == Keys(entries) + [k];
    VendorsAreNotBuiltin(k);
    OneMoreKey(asked[..n], k);
    if Distinct(asked) { FewerKeys(asked, n + 1); }
    hide Distinct, Identifier;
  }

  /** With everything in, the registry's own limits are met: its last error never occurs. */
  lemma RegistryWillFit(compile: Plan -> Option<Codec>, maxCommand: nat, native: seq<Entry>, plans: seq<Plan>)
    requires |plans| + |native| <= 60
    requires forall e <- native :: VendorId(e.id, e.version)
    requires AllFit(compile, maxCommand, plans)
    requires Progress(Registered(compile, native, plans), Asked(native, plans), |native| + |plans|)
    ensures var entries := Registered(compile, native, plans);
            1 <= |entries| <= 64 && Versioned(entries) && Distinct(Keys(entries))
    ensures Distinct(Asked(native, plans))
  {
    var asked := Asked(native, plans);
    assert asked[..|native| + |plans|] == asked;
    BuiltinsStayApart(asked);
    hide Distinct, Identifier, Progress;
    var entries := Registered(compile, native, plans);
    forall i | 0 <= i < |entries| ensures entries[i].version != 0 {
      if i >= 4 + |native| {
        assert PlanFits(compile, maxCommand, plans[i - 4 - |native|]);
      } else if i >= 4 {
        assert native[i - 4] in native;
      }
    }
  }

  method CommandsFit(sizes: seq<nat>, maxCommand: nat) returns (ok: bool)
    ensures ok <==> SizesFit(sizes, maxCommand)
  {
    for c := 0 to |sizes|
      invariant forall i :: 0 <= i < c ==> sizes[i] <= maxCommand
    {
      if sizes[c] > maxCommand { return false; }
    }
    ok := true;
  }

  method AddNative(entries: seq<Entry>, native: seq<Entry>, ghost asked: seq<CodecKey>) returns (r: Option<seq<Entry>>)
    requires Progress(entries, asked, 0) && Keys(native) <= asked
    ensures r.Some? ==> r.value == entries + native && Progress(r.value, asked, |native|)
    ensures r.Some? ==> forall e <- native :: VendorId(e.id, e.version)
    ensures r.None? ==> !Distinct(asked) || exists e :: e in native && !VendorId(e.id, e.version)
  {
    hide VendorId, Distinct, Progress;
    var all := entries;
    for i := 0 to |native|
      invariant all == entries + native[..i]
      invariant Progress(all, asked, i)
      invariant forall e <- native[..i] :: VendorId(e.id, e.version)
    {
      var e := native[i];
      if !VendorId(e.id, e.version) { return None; }
      assert asked[i] == Keys(native)[i];
      Advance(all, asked, i, e);
      if (e.id, e.version) in Keys(all) { return None; }
      all := all + [e];
    }
    r := Some(all);
  }

  method AddPlans(compile: Plan -> Option<Codec>, maxCommand: nat, entries: seq<Entry>, plans: seq<Plan>,
                  ghost asked: seq<CodecKey>, ghost n: nat)
    returns (r: Option<seq<Entry>>)
    requires n <= |asked| && Progress(entries, asked, n) && asked[n..] == PlanKeys(plans)
    ensures r.Some? ==> AllFit(compile, maxCommand, plans)
    ensures r.Some? ==> r.value == entries + Compiled(compile, plans) && Progress(r.value, asked, |asked|)
    ensures r.None? ==> !Distinct(asked) || !AllFit(compile, maxCommand, plans)
  {
    hide VendorId, Distinct, Progress, SizesFit;
    var all := entries;
    for j := 0 to |plans|
      invariant AllFit(compile, maxCommand, plans[..j])
      invariant all == entries + Compiled(compile, plans[..j])
      invariant n + j <= |asked| && Progress(all, asked, n + j)
    {
      var p := plans[j];
      assert asked[n + j] == PlanKeys(plans)[j] == (p.id, p.version);
      if VendorId(p.id, p.version) { Advance(all, asked, n + j, Entry(p.id, p.version, Json)); }
      if (p.id, p.version) in Keys(all) { return None; }
      var fit := CommandsFit(p.commandSizes, maxCommand);
      assert AllFit(compile, maxCommand, plans) ==> PlanFits(compile, maxCommand, p);
      if !fit { return None; }
      var codec := compile(p);
      if codec.None? { return None; }
      if !VendorId(p.id, p.version) { return None; }
      var e := Entry(p.id, p.version, codec.value);
      Advance(all, asked, n + j, e);
      assert Compiled(compile, plans[..j + 1]) == Compiled(compile, plans[..j]) + [e];
      all := all + [e];
    }
    assert plans[..|plans|] == plans;
    r := Some(all);
  }

  method ConfiguredRegistry(compile: Plan -> Option<Codec>, maxCommand: nat, native: seq<Entry>, plans: seq<Plan>)
    returns (r: Option<map<CodecKey, Codec>>)
    ensures r.Some? <==> Buildable(compile, maxCommand, native, plans)
    ensures r.Some? ==> Holds(r.value, Registered(compile, native, plans)) && HasBuiltins(r.value)
  {
    if |plans| + |native| > 60 { return None; }
    ghost var asked := Asked(native, plans);
    assert Progress(Builtins(), asked, 0);
    hide VendorId, Distinct, Progress, PlanFits, Holds;
    var entries := AddNative(Builtins(), native, asked);
    if entries.None? { return None; }
    entries := AddPlans(compile, maxCommand, entries.value, plans, asked, |native|);
    if entries.None? { return None; }
    RegistryWillFit(compile, maxCommand, native, plans);
    r := NewRegistry(entries.value);
    if r.Some? { BuiltinsAreHeld(r.value, entries.value); }
  }
}
