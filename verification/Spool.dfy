/** The restart spool: the image of what a bus owes, and restoring it into a fresh bus. */
module Spool {
  import opened Bytes
  import opened EventBus

  datatype Spooled = Spooled(tenant: TenantId, bytes: nat, pending: set<SinkId>, attempts: map<SinkId, nat>)

  type Image = map<EventId, Spooled>

  function Pairs(image: Image): (ps: set<(EventId, SinkId)>)
    ensures forall p :: p in ps <==> p.0 in image && p.1 in image[p.0].pending
  {
    set e, s | e in image && s in image[e].pending :: (e, s)
  }

  /** Every event with a required responsibility, with exactly its required sinks and its history. */
  function Snapshot(b: Bus): (image: Image)
    ensures Pairs(image) == Pending(b.active)
  {
    map e | e in b.active && b.active[e].required != {} ::
      Spooled(b.active[e].tenant, b.active[e].bytes, b.active[e].required, b.active[e].attempts)
  }

  function Restored(x: Spooled): Active {
    Active(x.tenant, x.bytes, x.pending, x.pending, x.attempts, map[])
  }

  /** The ceilings that a restore puts on a record. */
  predicate Admitted(l: Limits, x: Spooled) {
    |x.pending| <= l.maxFanout && |x.attempts| <= l.maxSinks
  }

  predicate ImageAdmitted(l: Limits, image: Image) {
    forall e :: e in image ==> Admitted(l, image[e])
  }

  /** The checks of one record against the bus so far. */
  predicate Restorable(b: Bus, e: EventId, x: Spooled) {
    && x.pending != {} && x.pending <= b.sinks.Keys && RequiredOf(b, x.pending) == x.pending
    && Admitted(b.limits, x)
    && e !in b.active
    && Fits(b, Restored(x))
  }

  /** All records or none. */
  function Restore(b: Bus, ids: seq<EventId>, image: Image): Option<Bus>
    requires forall e :: e in ids ==> e in image
    decreases |ids|
  {
    if ids == [] then Some(b)
    else if !Restorable(b, ids[0], image[ids[0]]) then None
    else Restore(Insert(b, ids[0], Restored(image[ids[0]])), ids[1..], image)
  }

  /** `ids` lists the events of `image`, each once. */
  ghost predicate Lists(ids: seq<EventId>, image: Image) {
    && (forall e :: e in ids <==> e in image)
    && (forall i, j :: 0 <= i < j < |ids| ==> ids[i] != ids[j])
  }

  /** A bus that has accepted nothing. */
  predicate Fresh(b: Bus) {
    && |b.sinks.Keys| <= b.limits.maxSinks
    && b.active == map[] && b.activeBytes == 0 && b.pendingRequired == 0 && b.tenants == map[]
    && forall s :: s in b.sinks ==>
      var k := b.sinks[s];
      && k.ready == [] && k.delayed == [] && k.usedCount == 0 && k.usedBytes == 0 && k.inflight == 0
      && k.failures == 0 && k.pausedUntil == None
  }

  lemma FreshInv(b: Bus)
    requires Fresh(b)
    ensures Inv(b) && Ceilings(b) && Pending(b.active) == {} && Snapshot(b) == map[]
  {
  }

  /** Restoring keeps the invariants and makes the bus owe exactly the image besides what it owed. */
  lemma {:induction false} RestoreKeepsInv(b: Bus, ids: seq<EventId>, image: Image)
    requires Inv(b) && forall e :: e in ids ==> e in image
    ensures var r := Restore(b, ids, image);
      r.Some? ==>
        && Inv(r.value) && SameConfiguration(b, r.value)
        && Pending(r.value.active) == Pending(b.active) + set e, s | e in ids && s in image[e].pending :: (e, s)
    decreases |ids|
  {
    hide Inv, Fits, Insert;
    if ids == [] {
    } else if Restorable(b, ids[0], image[ids[0]]) {
      var a := Restored(image[ids[0]]);
      assert ActiveInv(b.sinks, b.nextOperation, a);
      InsertKeepsInv(b, ids[0], a);
      InsertOnly(b, ids[0], a);
      RestoreKeepsInv(Insert(b, ids[0], a), ids[1..], image);
      assert forall e :: e in ids <==> e == ids[0] || e in ids[1..];
    }
  }

  /** The records of `image` that `ids` names. */
  function Part(image: Image, ids: seq<EventId>): Image
    requires forall e :: e in ids ==> e in image
  {
    map e | e in ids :: image[e]
  }

  lemma InsertIsSnapshot(b: Bus, e: EventId, x: Spooled)
    requires Restorable(b, e, x)
    ensures Snapshot(Insert(b, e, Restored(x))) == Snapshot(b)[e := x]
  {
    hide Insert;
    InsertOnly(b, e, Restored(x));
    assert x == Spooled(x.tenant, x.bytes, x.pending, x.attempts);
  }

  /** What was restored is what a snapshot would write again, histories included. */
  lemma {:induction false} RestoredIsSnapshot(b: Bus, ids: seq<EventId>, image: Image)
    requires forall e :: e in ids ==> e in image
    ensures Restore(b, ids, image).Some? ==> Snapshot(Restore(b, ids, image).value) == Snapshot(b) + Part(image, ids)
    decreases |ids|
  {
    hide Snapshot, Insert, Restorable;
    if ids == [] {
      assert Part(image, ids) == map[];
    } else if Restorable(b, ids[0], image[ids[0]]) {
      var e := ids[0];
      InsertIsSnapshot(b, e, image[e]);
      RestorableSinks(b, e, image[e]);
      RestoredIsSnapshot(Insert(b, e, Restored(image[e])), ids[1..], image);
      assert forall d :: d in ids <==> d == e || d in ids[1..];
      assert Snapshot(b)[e := image[e]] + Part(image, ids[1..]) == Snapshot(b) + Part(image, ids);
    }
  }

  /** Nothing is in flight. */
  predicate Idle(active: map<EventId, Active>) {
    forall e :: e in active ==> active[e].operations == map[]
  }

  lemma {:induction false} RestoredIsIdle(b: Bus, ids: seq<EventId>, image: Image)
    requires Idle(b.active) && forall e :: e in ids ==> e in image
    ensures Restore(b, ids, image).Some? ==> Idle(Restore(b, ids, image).value.active)
    decreases |ids|
  {
    hide Insert, Restorable;
    if ids == [] {
    } else if Restorable(b, ids[0], image[ids[0]]) {
      var a := Restored(image[ids[0]]);
      RestorableSinks(b, ids[0], image[ids[0]]);
      InsertOnly(b, ids[0], a);
      RestoredIsIdle(Insert(b, ids[0], a), ids[1..], image);
    }
  }

  // ---- ceilings ----

  predicate ImageBounded(l: Limits, image: Image) {
    forall e :: e in image ==> Bounded(l, Restored(image[e]))
  }

  lemma SnapshotIsBounded(b: Bus)
    requires Ceilings(b)
    ensures forall e :: e in Snapshot(b) && b.active[e].required <= b.active[e].remaining ==>
      Bounded(b.limits, Restored(Snapshot(b)[e]))
  {
    forall e | e in Snapshot(b) && b.active[e].required <= b.active[e].remaining
      ensures Bounded(b.limits, Restored(Snapshot(b)[e]))
    {
      var a := b.active[e];
      assert Bounded(b.limits, a);
      SubsetIsSmaller(a.required, a.remaining);
      SubsetIsSmaller(a.attempts.Keys + a.required, a.attempts.Keys + a.remaining);
    }
  }

  lemma OwedIsBounded(b: Bus)
    requires Ceilings(b) && ActivesInv(b)
    ensures ImageBounded(b.limits, Snapshot(b))
  {
    SnapshotIsBounded(b);
    forall e | e in Snapshot(b) ensures b.active[e].required <= b.active[e].remaining {
      assert ActiveInv(b.sinks, b.nextOperation, b.active[e]);
    }
    hide Bounded, ActiveInv;
  }

  lemma BoundedIsAdmitted(l: Limits, image: Image)
    requires ImageBounded(l, image)
    ensures ImageAdmitted(l, image)
  {
    forall e | e in image ensures Admitted(l, image[e]) {
      var a := Restored(image[e]);
      assert Bounded(l, a);
      SubsetIsSmaller(a.attempts.Keys, a.attempts.Keys + a.remaining);
      assert |a.attempts| == |a.attempts.Keys|;
    }
  }

  lemma {:induction false} RestoreKeepsCeilings(b: Bus, ids: seq<EventId>, image: Image)
    requires Ceilings(b) && ImageBounded(b.limits, image) && forall e :: e in ids ==> e in image
    ensures Restore(b, ids, image).Some? ==> Ceilings(Restore(b, ids, image).value)
    decreases |ids|
  {
    hide Bounded, Insert, Restorable, Restored, AllBounded;
    if ids == [] {
    } else if Restorable(b, ids[0], image[ids[0]]) {
      var e, a := ids[0], Restored(image[ids[0]]);
      RestorableSinks(b, e, image[e]);
      InsertOnly(b, e, a);
      OneIsBounded(b.limits, b.active, e, a);
      RestoreKeepsCeilings(Insert(b, e, a), ids[1..], image);
    }
  }

  // ---- weighing events against each other ----

  /** Every event of `x` is in `y` and weighs no more there. */
  predicate Lighter(x: map<EventId, Active>, y: map<EventId, Active>) {
    && x.Keys <= y.Keys
    && forall e :: e in x ==> x[e].tenant == y[e].tenant && x[e].bytes == y[e].bytes && x[e].remaining <= y[e].remaining
  }

  lemma {:induction false} TotalMonotone(x: map<EventId, Active>, y: map<EventId, Active>, w: Active -> nat)
    requires x.Keys <= y.Keys && forall e :: e in x ==> w(x[e]) <= w(y[e])
    ensures Total(x, w) <= Total(y, w)
    decreases |x|
  {
    if x == map[] {
    } else {
      var e :| e in x;
      TotalPick(x, w, e);
      TotalPick(y, w, e);
      TotalMonotone(x - {e}, y - {e}, w);
    }
  }

  lemma LighterTotals(x: map<EventId, Active>, y: map<EventId, Active>)
    requires Lighter(x, y)
    ensures Total(x, BytesWeight()) <= Total(y, BytesWeight())
    ensures forall t :: Total(x, TenantCount(t)) <= Total(y, TenantCount(t)) && Total(x, TenantBytes(t)) <= Total(y, TenantBytes(t))
    ensures forall s :: Total(x, HeldCount(s)) <= Total(y, HeldCount(s)) && Total(x, HeldBytes(s)) <= Total(y, HeldBytes(s))
  {
    hide Total;
    TotalMonotone(x, y, BytesWeight());
    forall t ensures Total(x, TenantCount(t)) <= Total(y, TenantCount(t)) && Total(x, TenantBytes(t)) <= Total(y, TenantBytes(t)) {
      TotalMonotone(x, y, TenantCount(t));
      TotalMonotone(x, y, TenantBytes(t));
    }
    forall s ensures Total(x, HeldCount(s)) <= Total(y, HeldCount(s)) && Total(x, HeldBytes(s)) <= Total(y, HeldBytes(s)) {
      TotalMonotone(x, y, HeldCount(s));
      TotalMonotone(x, y, HeldBytes(s));
    }
  }

  // ---- which images a restore takes ----

  function Revived(image: Image): map<EventId, Active> {
    map e | e in image :: Restored(image[e])
  }

  /** A record that can be restored at all: owed to somebody, to required sinks of the bus only, within the ceilings. */
  predicate WellFormed(f: Bus, x: Spooled) {
    && x.pending != {} && x.pending <= f.sinks.Keys && Admitted(f.limits, x)
    && forall s :: s in x.pending ==> f.sinks[s].def.mode == ConfirmedRequired
  }

  /** The image as a whole fits the bus, the tenants and the sinks. */
  ghost predicate Holdable(f: Bus, image: Image) {
    var owed := Revived(image);
    && (forall e :: e in image ==> WellFormed(f, image[e]))
    && |image| <= f.limits.maxCount && Total(owed, BytesWeight()) <= f.limits.maxBytes
    && TenantsHold(f.limits, owed) && SinksHold(f.sinks, owed)
  }

  ghost predicate TenantsHold(l: Limits, owed: map<EventId, Active>) {
    forall t :: Total(owed, TenantCount(t)) <= l.tenantCount && Total(owed, TenantBytes(t)) <= l.tenantBytes
  }

  ghost predicate SinksHold(sinks: map<SinkId, Sink>, owed: map<EventId, Active>) {
    forall s :: s in sinks ==>
      Total(owed, HeldCount(s)) <= sinks[s].def.maxCount && Total(owed, HeldBytes(s)) <= sinks[s].def.maxBytes
  }

  lemma RoomForNext(b: Bus, owed: map<EventId, Active>, e: EventId, a: Active, s: SinkId)
    requires SinksInv(b) && SinksHold(b.sinks, owed)
    requires e !in b.active && Lighter(b.active[e := a], owed) && s in a.remaining && s in b.sinks
    ensures HasRoom(b.sinks[s], a.bytes)
  {
    hide Total, Queue, Owns, Lighter;
    LighterTotals(b.active[e := a], owed);
    TotalInsert(b.active, HeldCount(s), e, a);
    TotalInsert(b.active, HeldBytes(s), e, a);
    assert SinkInv(b.active, s, b.sinks[s]);
  }

  lemma CapacityForNext(b: Bus, owed: map<EventId, Active>, e: EventId, a: Active)
    requires Counts(b) && |owed| <= b.limits.maxCount && Total(owed, BytesWeight()) <= b.limits.maxBytes
    requires e !in b.active && Lighter(b.active[e := a], owed)
    ensures |b.active| < b.limits.maxCount && b.activeBytes + a.bytes <= b.limits.maxBytes
  {
    hide Total;
    var next := b.active[e := a];
    LighterTotals(next, owed);
    TotalInsert(b.active, BytesWeight(), e, a);
    SmallerDomain(next, owed);
    assert next.Keys == b.active.Keys + {e};
  }

  lemma ShareForNext(b: Bus, owed: map<EventId, Active>, e: EventId, a: Active)
    requires TenantsInv(b) && TenantsHold(b.limits, owed)
    requires e !in b.active && Lighter(b.active[e := a], owed)
    ensures BacklogOf(b, a.tenant).count + 1 <= b.limits.tenantCount
    ensures BacklogOf(b, a.tenant).bytes + a.bytes <= b.limits.tenantBytes
  {
    hide Total;
    assert TenantInv(b, a.tenant);
    LighterTotals(b.active[e := a], owed);
    TotalInsert(b.active, TenantCount(a.tenant), e, a);
    TotalInsert(b.active, TenantBytes(a.tenant), e, a);
  }

  lemma NextIsLighter(active: map<EventId, Active>, image: Image, e: EventId)
    requires e in image && Lighter(active, Revived(image))
    ensures Lighter(active[e := Restored(image[e])], Revived(image))
  {
  }

  lemma WellFormedIsRequired(b: Bus, x: Spooled)
    requires WellFormed(b, x)
    ensures x.pending != {} && x.pending <= b.sinks.Keys && RequiredOf(b, x.pending) == x.pending && Admitted(b.limits, x)
  {
  }

  /** As long as what is restored is part of what fits as a whole, the next record is restored too. */
  lemma NextIsRestorable(b: Bus, image: Image, e: EventId)
    requires Inv(b) && Holdable(b, image) && e in image && e !in b.active && Lighter(b.active, Revived(image))
    ensures Restorable(b, e, image[e])
    ensures Lighter(b.active[e := Restored(image[e])], Revived(image))
  {
    hide Counts, TenantsInv, SinksInv, ActivesInv, HasRoom, BacklogOf, Total, Admitted, TenantsHold, SinksHold;
    hide Lighter, WellFormed, RequiredOf, Revived;
    var a, owed := Restored(image[e]), Revived(image);
    SameDomain(image);
    NextIsLighter(b.active, image, e);
    CapacityForNext(b, owed, e, a);
    ShareForNext(b, owed, e, a);
    WellFormedIsRequired(b, image[e]);
    forall s | s in a.remaining ensures s in b.sinks && HasRoom(b.sinks[s], a.bytes) {
      RoomForNext(b, owed, e, a, s);
    }
  }

  lemma SameDomain(image: Image)
    ensures Revived(image).Keys == image.Keys && |Revived(image)| == |image|
  {
    assert |Revived(image).Keys| == |Revived(image)| && |image.Keys| == |image|;
  }

  lemma SmallerDomain(x: map<EventId, Active>, y: map<EventId, Active>)
    requires x.Keys <= y.Keys
    ensures |x| <= |y|
  {
    assert y.Keys == x.Keys + (y.Keys - x.Keys);
  }

  lemma HoldableCarries(f: Bus, b: Bus, image: Image)
    requires Holdable(f, image) && f.limits == b.limits && SameDefinitions(f.sinks, b.sinks)
    ensures Holdable(b, image)
  {
    hide Total, WellFormed;
    forall e | e in image ensures WellFormed(b, image[e]) {
      WellFormedCarries(f, b, image[e]);
    }
  }

  lemma {:induction false} HoldableIsRestored(b: Bus, ids: seq<EventId>, image: Image)
    requires forall e :: e in ids ==> e in image && e !in b.active
    requires forall i, j :: 0 <= i < j < |ids| ==> ids[i] != ids[j]
    requires Inv(b) && Holdable(b, image) && Lighter(b.active, Revived(image))
    ensures Restore(b, ids, image).Some?
    decreases |ids|
  {
    hide Inv, Insert, Restorable, Lighter, Holdable;
    if ids == [] {
    } else {
      var e := ids[0];
      NextIsRestorable(b, image, e);
      RestoreKeepsInv(b, [e], image);
      RestoreOne(b, e, image);
      RestorableSinks(b, e, image[e]);
      InsertOnly(b, e, Restored(image[e]));
      HoldableCarries(b, Insert(b, e, Restored(image[e])), image);
      HoldableIsRestored(Insert(b, e, Restored(image[e])), ids[1..], image);
    }
  }

  /** What a restore leaves active: what was, and the records. */
  lemma {:induction false} RestoredActives(b: Bus, ids: seq<EventId>, image: Image)
    requires (forall e :: e in ids ==> e in image) && Restore(b, ids, image).Some?
    ensures Restore(b, ids, image).value.active == b.active + Revived(Part(image, ids))
    decreases |ids|
  {
    hide Insert, Restorable, Restored, Revived, Part;
    RevivedByParts(b.active, ids, image);
    if ids == [] {
    } else {
      var e := ids[0];
      RestorableSinks(b, e, image[e]);
      InsertOnly(b, e, Restored(image[e]));
      RestoredActives(Insert(b, e, Restored(image[e])), ids[1..], image);
    }
  }

  lemma RevivedByParts(active: map<EventId, Active>, ids: seq<EventId>, image: Image)
    requires forall e :: e in ids ==> e in image
    ensures active + Revived(Part(image, ids)) ==
      if ids == [] then active
      else active[ids[0] := Restored(image[ids[0]])] + Revived(Part(image, ids[1..]))
  {
    hide Restored;
    if ids == [] {
      assert Revived(Part(image, ids)) == map[];
    } else {
      assert forall d :: d in ids <==> d == ids[0] || d in ids[1..];
      assert Revived(Part(image, ids)).Keys == Revived(Part(image, ids[1..])).Keys + {ids[0]};
    }
  }

  lemma {:induction false} RestoredAreWellFormed(b: Bus, ids: seq<EventId>, image: Image)
    requires (forall e :: e in ids ==> e in image) && Restore(b, ids, image).Some?
    ensures forall e :: e in ids ==> WellFormed(b, image[e])
    decreases |ids|
  {
    hide Insert, Restorable, Restored, WellFormed;
    if ids == [] {
    } else {
      var e := ids[0];
      RestorableSinks(b, e, image[e]);
      RestorableIsWellFormed(b, e, image[e]);
      var b1 := Insert(b, e, Restored(image[e]));
      InsertOnly(b, e, Restored(image[e]));
      RestoredAreWellFormed(b1, ids[1..], image);
      forall d | d in ids && d != e ensures WellFormed(b, image[d]) {
        assert d in ids[1..];
        WellFormedCarries(b1, b, image[d]);
      }
    }
  }

  lemma WellFormedCarries(f: Bus, b: Bus, x: Spooled)
    requires WellFormed(f, x) && f.limits == b.limits && SameDefinitions(b.sinks, f.sinks)
    ensures WellFormed(b, x)
  {
  }

  lemma RestorableIsWellFormed(b: Bus, e: EventId, x: Spooled)
    requires Restorable(b, e, x)
    ensures WellFormed(b, x)
  {
    forall s | s in x.pending ensures b.sinks[s].def.mode == ConfirmedRequired {
      assert s in RequiredOf(b, x.pending);
    }
  }

  lemma InvHolds(b: Bus)
    requires Inv(b)
    ensures |b.active| <= b.limits.maxCount && Total(b.active, BytesWeight()) <= b.limits.maxBytes
    ensures TenantsHold(b.limits, b.active) && SinksHold(b.sinks, b.active)
  {
    hide Total, Owns, Queue, ActivesInv;
    forall t ensures Total(b.active, TenantCount(t)) <= b.limits.tenantCount && Total(b.active, TenantBytes(t)) <= b.limits.tenantBytes {
      assert TenantInv(b, t);
    }
    forall s | s in b.sinks
      ensures Total(b.active, HeldCount(s)) <= b.sinks[s].def.maxCount && Total(b.active, HeldBytes(s)) <= b.sinks[s].def.maxBytes
    {
      assert SinkInv(b.active, s, b.sinks[s]);
    }
  }

  /**
   A fresh bus restores an image, any image and in any order of its records, if and only if every record is well-formed
   and the image as a whole fits: the checks made record by record on the way decide nothing else.
   */
  lemma RestoreDecides(f: Bus, ids: seq<EventId>, image: Image)
    requires Fresh(f) && Lists(ids, image)
    ensures Restore(f, ids, image).Some? <==> Holdable(f, image)
  {
    hide Inv, Restore, Holdable, Pending, Snapshot, Ceilings, Revived;
    FreshInv(f);
    if Holdable(f, image) {
      assert Lighter(f.active, Revived(image));
      HoldableIsRestored(f, ids, image);
    }
    if Restore(f, ids, image).Some? { RestoredIsHoldable(f, ids, image); }
  }

  lemma RestoredIsHoldable(f: Bus, ids: seq<EventId>, image: Image)
    requires Inv(f) && f.active == map[] && Lists(ids, image) && Restore(f, ids, image).Some?
    ensures Holdable(f, image)
  {
    hide Inv, Restore, WellFormed, Total, Pending, Revived, Part, TenantsHold, SinksHold, SameDefinitions;
    var b := Restore(f, ids, image).value;
    RestoreKeepsInv(f, ids, image);
    RestoredActives(f, ids, image);
    RestoredAreWellFormed(f, ids, image);
    WholePart(image, ids);
    assert b.active == Revived(image);
    SameDomain(image);
    InvHolds(b);
    SinksHoldCarries(b.sinks, f.sinks, b.active);
  }

  lemma SinksHoldCarries(x: map<SinkId, Sink>, y: map<SinkId, Sink>, owed: map<EventId, Active>)
    requires SinksHold(x, owed) && SameDefinitions(y, x)
    ensures SinksHold(y, owed)
  {
    hide Total;
  }

  lemma RestorableSinks(b: Bus, e: EventId, x: Spooled)
    requires Restorable(b, e, x)
    ensures x.pending <= b.sinks.Keys && Restored(x).remaining == x.pending
  {
  }

  lemma RestoreOne(b: Bus, e: EventId, image: Image)
    requires e in image && Restorable(b, e, image[e])
    ensures Restore(b, [e], image) == Some(Insert(b, e, Restored(image[e])))
  {
    assert [e][1..] == [];
  }

  /** The image of a consistent bus fits the bus, the tenants and the sinks it came from. */
  lemma SnapshotIsHoldable(b: Bus, f: Bus)
    requires Inv(b) && f.limits == b.limits && SameDefinitions(b.sinks, f.sinks)
    ensures Holdable(f, Snapshot(b)) <==> ImageAdmitted(b.limits, Snapshot(b))
  {
    hide Inv, Total, Admitted, TenantsHold, SinksHold;
    var image := Snapshot(b);
    forall e | e in image ensures WellFormed(f, image[e]) <==> Admitted(b.limits, image[e]) {
      assert ActiveInv(b.sinks, b.nextOperation, b.active[e]) by { ActiveOf(b, e); }
    }
    assert Lighter(Revived(image), b.active) by { SnapshotIsLighter(b); }
    InvHolds(b);
    SameDomain(image);
    SmallerDomain(Revived(image), b.active);
    assert TenantsHold(f.limits, Revived(image)) && SinksHold(b.sinks, Revived(image)) && Total(Revived(image), BytesWeight()) <= b.limits.maxBytes
      by { LighterHolds(b, Revived(image)); }
    SinksHoldCarries(b.sinks, f.sinks, Revived(image)) by { assert SameDefinitions(f.sinks, b.sinks); }
  }

  lemma ActiveOf(b: Bus, e: EventId)
    requires Inv(b) && e in b.active
    ensures ActiveInv(b.sinks, b.nextOperation, b.active[e])
  {
  }

  lemma SnapshotIsLighter(b: Bus)
    requires Inv(b)
    ensures Lighter(Revived(Snapshot(b)), b.active)
  {
    hide Inv;
    forall e | e in Snapshot(b) ensures b.active[e].required <= b.active[e].remaining {
      ActiveOf(b, e);
    }
  }

  lemma LighterHolds(b: Bus, owed: map<EventId, Active>)
    requires Lighter(owed, b.active) && TenantsHold(b.limits, b.active) && SinksHold(b.sinks, b.active)
    ensures TenantsHold(b.limits, owed) && SinksHold(b.sinks, owed)
    ensures Total(owed, BytesWeight()) <= Total(b.active, BytesWeight())
  {
    hide Total, Lighter;
    LighterTotals(owed, b.active);
  }

  /**
   The image of any bus is restored by a fresh bus with the same sinks and limits, in any order of its records, if
   and only if its records are within the ceilings of a restore; the fresh bus then owes exactly what the first one
   owed, with the same histories.
   */
  lemma SnapshotIsRestored(b: Bus, f: Bus, ids: seq<EventId>)
    requires Inv(b) && Lists(ids, Snapshot(b))
    requires Fresh(f) && f.limits == b.limits && SameDefinitions(b.sinks, f.sinks)
    ensures Restore(f, ids, Snapshot(b)).Some? <==> ImageAdmitted(b.limits, Snapshot(b))
    ensures Restore(f, ids, Snapshot(b)).Some? ==>
      var f' := Restore(f, ids, Snapshot(b)).value;
      Inv(f') && Snapshot(f') == Snapshot(b) && Pending(f'.active) == Pending(b.active)
  {
    hide Inv, Snapshot, Restore, Part, Pending, Pairs, SameDefinitions, Holdable, Admitted;
    var image := Snapshot(b);
    FreshInv(f);
    RestoreDecides(f, ids, image);
    SnapshotIsHoldable(b, f);
    if Restore(f, ids, image).Some? {
      RestoreKeepsInv(f, ids, image);
      RestoredIsSnapshot(f, ids, image);
      WholePart(image, ids);
    }
  }

  lemma WholePart(image: Image, ids: seq<EventId>)
    requires Lists(ids, image)
    ensures Part(image, ids) == image && map[] + Part(image, ids) == image
  {
  }

  // ---- what the spool can hold ----

  /** The ceilings of a spool, and the encoded size of a record. */
  datatype SpoolLimits = SpoolLimits(
    maxRecords: nat, maxBytes: nat, segmentBytes: nat, recordBytes: nat, encoded: (EventId, Spooled) -> nat)

  /** Header and trailer of an image, and what each record takes besides its text. */
  const FRAME: nat := 68
  const RECORD_FRAME: nat := 36
  const U32: nat := 0x1_0000_0000

  ghost function ImageBytes(image: Image, encoded: (EventId, Spooled) -> nat): nat
    decreases |image|
  {
    if image == map[] then 0 else
      var e :| e in image;
      RECORD_FRAME + encoded(e, image[e]) + ImageBytes(image - {e}, encoded)
  }

  /** The image that a commit does not refuse as too large. */
  ghost predicate Spoolable(l: SpoolLimits, image: Image) {
    && |image| <= l.maxRecords
    && (forall e :: e in image ==> l.encoded(e, image[e]) <= l.recordBytes && l.encoded(e, image[e]) < U32)
    && FRAME + ImageBytes(image, l.encoded) <= l.segmentBytes
    && FRAME + ImageBytes(image, l.encoded) <= l.maxBytes
  }

  /** Bytes of the records that `ids` names. */
  function ListedBytes(ids: seq<EventId>, image: Image, encoded: (EventId, Spooled) -> nat): nat
    requires forall e :: e in ids ==> e in image
  {
    if ids == [] then 0
    else ListedBytes(ids[..|ids| - 1], image, encoded) + 4 + encoded(ids[|ids| - 1], image[ids[|ids| - 1]]) + 32
  }

  lemma {:induction false} ListedIsWhole(ids: seq<EventId>, image: Image, encoded: (EventId, Spooled) -> nat)
    requires Lists(ids, image)
    ensures ListedBytes(ids, image, encoded) == ImageBytes(image, encoded) && |ids| == |image|
    decreases |ids|
  {
    if ids == [] {
      assert image == map[];
    } else {
      var n := |ids| - 1;
      var e := ids[n];
      var rest := image - {e};
      assert ids == ids[..n] + [e];
      ListedIsWhole(ids[..n], rest, encoded);
      ListedElsewhere(ids[..n], image, rest, encoded);
      ImageBytesPick(image, encoded, e);
      assert image.Keys == rest.Keys + {e};
      assert |image| == |image.Keys| && |rest| == |rest.Keys|;
    }
  }

  lemma {:induction false} ListedElsewhere(ids: seq<EventId>, x: Image, y: Image, encoded: (EventId, Spooled) -> nat)
    requires forall e :: e in ids ==> e in x && e in y && x[e] == y[e]
    ensures ListedBytes(ids, x, encoded) == ListedBytes(ids, y, encoded)
    decreases |ids|
  {
    if ids == [] {
    } else {
      assert ids[|ids| - 1] in ids;
      ListedElsewhere(ids[..|ids| - 1], x, y, encoded);
    }
  }

  lemma {:induction false} ListedGrows(ids: seq<EventId>, i: nat, image: Image, encoded: (EventId, Spooled) -> nat)
    requires (forall e :: e in ids ==> e in image) && i <= |ids|
    ensures ListedBytes(ids[..i], image, encoded) <= ListedBytes(ids, image, encoded)
    decreases |ids|
  {
    if i == |ids| {
      assert ids[..i] == ids;
    } else {
      assert ids[..|ids| - 1][..i] == ids[..i];
      ListedGrows(ids[..|ids| - 1], i, image, encoded);
    }
  }

  /** Writes the records one by one and gives up at the first that breaks a ceiling; otherwise the size of the image. */
  method Write(l: SpoolLimits, ids: seq<EventId>, image: Image) returns (size: Option<nat>)
    requires Lists(ids, image)
    ensures size.Some? <==> Spoolable(l, image)
    ensures size.Some? ==> size.value == FRAME + ImageBytes(image, l.encoded)
  {
    hide ImageBytes, ListedBytes;
    ListedIsWhole(ids, image, l.encoded);
    if |ids| > l.maxRecords { return None; }
    var total := 16;
    if total + 52 > l.segmentBytes || total + 52 > l.maxBytes { return None; }
    assert ListedBytes(ids[..0], image, l.encoded) == 0 by { NothingListed(image, l.encoded); }
    for i := 0 to |ids|
      invariant total == 16 + ListedBytes(ids[..i], image, l.encoded)
      invariant total + 52 <= l.segmentBytes && total + 52 <= l.maxBytes
      invariant forall j :: 0 <= j < i ==> Writable(l, ids[j], image)
    {
      var length := l.encoded(ids[i], image[ids[i]]);
      if length > l.recordBytes || length >= U32 { return None; }
      OneMoreListed(ids, i, image, l.encoded);
      ListedGrows(ids, i + 1, image, l.encoded);
      total := total + 4 + length + 32;
      if total + 52 > l.segmentBytes || total + 52 > l.maxBytes { return None; }
    }
    assert ids[..|ids|] == ids;
    forall e | e in image ensures l.encoded(e, image[e]) <= l.recordBytes && l.encoded(e, image[e]) < U32 {
      assert e in ids;
      var j :| 0 <= j < |ids| && ids[j] == e;
      assert Writable(l, ids[j], image);
    }
    size := Some(total + 52);
  }

  predicate Writable(l: SpoolLimits, e: EventId, image: Image) {
    e in image && l.encoded(e, image[e]) <= l.recordBytes && l.encoded(e, image[e]) < U32
  }

  lemma NothingListed(image: Image, encoded: (EventId, Spooled) -> nat)
    ensures ListedBytes([], image, encoded) == 0
  {
  }

  lemma OneMoreListed(ids: seq<EventId>, i: nat, image: Image, encoded: (EventId, Spooled) -> nat)
    requires (forall e :: e in ids ==> e in image) && i < |ids|
    ensures ListedBytes(ids[..i + 1], image, encoded) ==
      ListedBytes(ids[..i], image, encoded) + 4 + encoded(ids[i], image[ids[i]]) + 32
  {
    assert ids[..i + 1][..i] == ids[..i] && ids[..i + 1][i] == ids[i];
  }

  /** The same work after more attempts. */
  predicate Later(x: Spooled, y: Spooled) {
    && x.tenant == y.tenant && x.bytes == y.bytes && x.pending == y.pending
    && x.attempts.Keys <= y.attempts.Keys
    && forall s :: s in x.attempts ==> x.attempts[s] <= y.attempts[s]
  }

  predicate Grown(x: Image, y: Image) {
    x.Keys <= y.Keys && forall e :: e in x ==> Later(x[e], y[e])
  }

  /** A longer history is not shorter to write. */
  ghost predicate Encodes(l: SpoolLimits) {
    forall e, x, y :: Later(x, y) ==> l.encoded(e, x) <= l.encoded(e, y)
  }

  lemma {:induction false} ImageBytesPick(image: Image, encoded: (EventId, Spooled) -> nat, e: EventId)
    requires e in image
    ensures ImageBytes(image, encoded) == RECORD_FRAME + encoded(e, image[e]) + ImageBytes(image - {e}, encoded)
    decreases |image|
  {
    var d :| d in image && ImageBytes(image, encoded) == RECORD_FRAME + encoded(d, image[d]) + ImageBytes(image - {d}, encoded);
    if d == e {
    } else {
      ImageBytesPick(image - {d}, encoded, e);
      ImageBytesPick(image - {e}, encoded, d);
      assert image - {d} - {e} == image - {e} - {d};
    }
  }

  lemma {:induction false} GrownIsLonger(l: SpoolLimits, x: Image, y: Image)
    requires Encodes(l) && Grown(x, y)
    ensures ImageBytes(x, l.encoded) <= ImageBytes(y, l.encoded)
    decreases |x|
  {
    if x == map[] {
    } else {
      var e :| e in x;
      ImageBytesPick(x, l.encoded, e);
      ImageBytesPick(y, l.encoded, e);
      GrownIsLonger(l, x - {e}, y - {e});
    }
  }

  /** What does not fit does not come to fit by more publications and failed deliveries. */
  lemma GrownFitsNoBetter(l: SpoolLimits, x: Image, y: Image)
    requires Encodes(l) && Grown(x, y) && Spoolable(l, y)
    ensures Spoolable(l, x)
  {
    hide ImageBytes;
    GrownIsLonger(l, x, y);
    SubsetIsSmaller(x.Keys, y.Keys);
    assert |x| == |x.Keys| && |y| == |y.Keys|;
    forall e | e in x ensures l.encoded(e, x[e]) <= l.recordBytes && l.encoded(e, x[e]) < U32 {
      assert Later(x[e], y[e]);
    }
  }

  lemma PublishGrows(b: Bus, e: EventId, tenant: TenantId, bytes: nat, targets: set<SinkId>)
    requires targets <= b.sinks.Keys
    ensures Grown(Snapshot(b), Snapshot(Publish(b, e, tenant, bytes, targets).0))
  {
    hide Insert, BacklogOf;
    var (b', r) := Publish(b, e, tenant, bytes, targets);
    if r == Accepted {
      var admitted := set s | s in targets && HasRoom(b.sinks[s], bytes);
      InsertOnly(b, e, Active(tenant, bytes, admitted, RequiredOf(b, admitted), map[], map[]));
    }
  }

  lemma TakeKeepsSnapshot(b: Bus, s: SinkId, now: nat)
    requires s in b.sinks
    ensures Snapshot(Take(b, s, now).0) == Snapshot(b)
  {
    hide Promote;
  }

  /** A completion that acknowledges nothing owed leaves the same work, with a longer history at most. */
  lemma CompleteGrows(b: Bus, s: SinkId, r: Record, verdict: Verdict, young: bool, due: nat, until: nat)
    requires s in b.sinks && (Current(b, s, r) ==> r.attempt == AttemptsAt(b.active[r.event], s))
    requires var b' := Complete(b, s, r, verdict, young, due, until); Pending(b'.active) == Pending(b.active)
    ensures Grown(Snapshot(b), Snapshot(Complete(b, s, r, verdict, young, due, until)))
  {
    hide Complete;
    var b' := Complete(b, s, r, verdict, young, due, until);
    if Current(b, s, r) {
      CompletedActive(b, s, r, verdict, young, due, until);
      forall e | e in Snapshot(b) ensures e in Snapshot(b') && Later(Snapshot(b)[e], Snapshot(b')[e]) {
        SameRequired(b.active, b'.active, e);
      }
    } else {
      NotCurrent(b, s, r, verdict, young, due, until);
    }
  }

  lemma SameRequired(x: map<EventId, Active>, y: map<EventId, Active>, e: EventId)
    requires Pending(x) == Pending(y) && e in x && x[e].required != {}
    ensures e in y && y[e].required == x[e].required
  {
    var s :| s in x[e].required;
    assert (e, s) in Pending(y);
    forall z ensures z in x[e].required <==> z in y[e].required {
      assert (e, z) in Pending(x) <==> (e, z) in Pending(y);
    }
  }

  // ---- a history that outgrows the restore ----

  /**
   A restored event may bring a history as long as the ceiling. One failed attempt at a sink outside that history
   then makes an image that the same configuration refuses.
   */
  lemma HistoryOutgrowsRestore(f: Bus, e: EventId, x: Spooled, s: SinkId, due: nat, until: nat)
    returns (taken: Bus, r: Record, failed: Bus)
    requires Fresh(f) && Restorable(f, e, x) && x.pending == {s} && s !in x.attempts && |x.attempts| == f.limits.maxSinks
    ensures var b := Insert(f, e, Restored(x));
      && Restore(f, [e], map[e := x]) == Some(b) && Take(b, s, 0) == (taken, Some(r))
      && failed == Complete(taken, s, r, Retryable, true, due, until)
    ensures Lists([e], Snapshot(failed)) && Restore(f, [e], Snapshot(failed)) == None
  {
    hide Insert, Take, Complete, Restorable, Fresh;
    RestoreOne(f, e, map[e := x]);
    RestorableSinks(f, e, x);
    taken, r := TakeRestored(f, e, x, s);
    failed := Complete(taken, s, r, Retryable, true, due, until);
    FailedAttemptIsRemembered(e, x, s, taken, r, due, until);
    var image := Snapshot(failed);
    assert image[e].attempts.Keys == x.attempts.Keys + {s};
    assert |image[e].attempts| == |image[e].attempts.Keys| && |x.attempts| == |x.attempts.Keys|;
    NotAdmittedIsRefused(f, e, image);
  }

  lemma NotAdmittedIsRefused(f: Bus, e: EventId, image: Image)
    requires e in image && !Admitted(f.limits, image[e])
    ensures Restore(f, [e], image) == None
  {
  }

  /** The one record of a bus with one restored event at one sink. */
  lemma TakeRestored(f: Bus, e: EventId, x: Spooled, s: SinkId) returns (taken: Bus, r: Record)
    requires Fresh(f) && Restorable(f, e, x) && x.pending == {s}
    ensures s in Insert(f, e, Restored(x)).sinks && Take(Insert(f, e, Restored(x)), s, 0) == (taken, Some(r))
    ensures r.event == e && r.operation == taken.nextOperation
    ensures taken.active == map[e := Restored(x).(operations := map[s := r.operation])]
    ensures s in taken.sinks && taken.sinks[s].def.mode == ConfirmedRequired && taken.pendingRequired == 1
  {
    var b := Insert(f, e, Restored(x));
    assert b.sinks[s].ready == [Record(e, x.bytes, AttemptsAt(Restored(x), s), 0)] && b.sinks[s].delayed == [];
    taken := Take(b, s, 0).0;
    r := Take(b, s, 0).1.value;
    assert s in RequiredOf(f, x.pending);
  }

  lemma FailedAttemptIsRemembered(e: EventId, x: Spooled, s: SinkId, taken: Bus, r: Record, due: nat, until: nat)
    requires s in taken.sinks && taken.sinks[s].def.mode == ConfirmedRequired && taken.pendingRequired > 0
    requires Current(taken, s, r) && r.event == e && taken.active == map[e := taken.active[e]]
    requires taken.active[e].required == {s} && taken.active[e].attempts == x.attempts
    ensures var b := Complete(taken, s, r, Retryable, true, due, until);
      b.active.Keys == {e} && b.active[e].required == {s} && b.active[e].attempts == x.attempts[s := Bumped(r.attempt)]
  {
  }
}
