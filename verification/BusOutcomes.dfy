/**
 What each operation of the event bus decides and does, in terms of the events the bus is responsible for rather
 than of the counters it decides by.
 */
module BusOutcomes {
  import opened Bytes
  import opened EventBus

  // ---- publishing ----

  /** The events owed to sink `s` leave room for `bytes` more. */
  ghost predicate Room(b: Bus, s: SinkId, bytes: nat)
    requires s in b.sinks
  {
    && Total(b.active, HeldCount(s)) < b.sinks[s].def.maxCount
    && Total(b.active, HeldBytes(s)) + bytes <= b.sinks[s].def.maxBytes
  }

  /** The active events, and those of the tenant, leave room for one of `bytes` more. */
  ghost predicate Capacity(b: Bus, tenant: TenantId, bytes: nat) {
    && |b.active| < b.limits.maxCount
    && Total(b.active, BytesWeight()) + bytes <= b.limits.maxBytes
    && Total(b.active, TenantCount(tenant)) < b.limits.tenantCount
    && Total(b.active, TenantBytes(tenant)) + bytes <= b.limits.tenantBytes
  }

  /** Room for the event, at every required target and at some target at all. */
  ghost predicate Admissible(b: Bus, tenant: TenantId, bytes: nat, targets: set<SinkId>)
    requires targets <= b.sinks.Keys
  {
    && Capacity(b, tenant, bytes)
    && (forall s :: s in targets && b.sinks[s].def.mode == ConfirmedRequired ==> Room(b, s, bytes))
    && (exists s :: s in targets && Room(b, s, bytes))
  }

  lemma RoomByCounters(b: Bus, s: SinkId, bytes: nat)
    requires SinksInv(b) && s in b.sinks
    ensures HasRoom(b.sinks[s], bytes) <==> Room(b, s, bytes)
  {
    hide Total, Owns;
    assert SinkInv(b.active, s, b.sinks[s]);
  }

  lemma CapacityByCounters(b: Bus, tenant: TenantId, bytes: nat)
    requires Counts(b) && TenantsInv(b)
    ensures Capacity(b, tenant, bytes) <==>
      && |b.active| < b.limits.maxCount && b.activeBytes + bytes <= b.limits.maxBytes
      && BacklogOf(b, tenant).count + 1 <= b.limits.tenantCount
      && BacklogOf(b, tenant).bytes + bytes <= b.limits.tenantBytes
  {
    hide Total;
    assert TenantInv(b, tenant);
  }

  lemma TargetsByCounters(b: Bus, bytes: nat, targets: set<SinkId>)
    requires SinksInv(b) && targets <= b.sinks.Keys
    ensures (exists s :: s in RequiredOf(b, targets) && !HasRoom(b.sinks[s], bytes)) <==>
      !(forall s :: s in targets && b.sinks[s].def.mode == ConfirmedRequired ==> Room(b, s, bytes))
    ensures (set s | s in targets && HasRoom(b.sinks[s], bytes)) == {} <==> !(exists s :: s in targets && Room(b, s, bytes))
  {
    hide SinksInv, HasRoom, Room;
    forall s | s in targets ensures HasRoom(b.sinks[s], bytes) <==> Room(b, s, bytes) {
      RoomByCounters(b, s, bytes);
    }
    var admitted := set s | s in targets && HasRoom(b.sinks[s], bytes);
    if s :| s in targets && Room(b, s, bytes) {
      assert s in admitted;
    }
  }

  /** Every answer of a publication, and when it is given. */
  lemma PublishDecides(b: Bus, e: EventId, tenant: TenantId, bytes: nat, targets: set<SinkId>)
    requires Inv(b) && targets <= b.sinks.Keys
    ensures var r := Publish(b, e, tenant, bytes, targets).1;
      && (r == Draining <==> !b.accepting)
      && (r == Conflict <==> b.accepting && e in b.active)
      && (r == Unavailable <==> b.accepting && e !in b.active && targets == {})
      && (r == Accepted <==> b.accepting && e !in b.active && Admissible(b, tenant, bytes, targets))
      && (r == Overloaded <==> b.accepting && e !in b.active && targets != {} && !Admissible(b, tenant, bytes, targets))
  {
    hide Insert, HasRoom, Room, Capacity, RequiredOf, Counts, SinksInv, TenantsInv, ActivesInv;
    CapacityByCounters(b, tenant, bytes);
    TargetsByCounters(b, bytes, targets);
  }

  /** `b'` is `b` with the event waiting at exactly the targets with room, required or not, behind what is ready there. */
  ghost predicate Distributed(b: Bus, e: EventId, tenant: TenantId, bytes: nat, targets: set<SinkId>, b': Bus)
    requires targets <= b.sinks.Keys
  {
    && e in b'.active && b'.active == b.active[e := b'.active[e]] && b'.sinks.Keys == b.sinks.Keys
    && (forall s :: s in b'.active[e].remaining <==> s in targets && Room(b, s, bytes))
    && b'.active[e].tenant == tenant && b'.active[e].bytes == bytes
    && b'.active[e].attempts == map[] && b'.active[e].operations == map[]
    && (forall s :: s in b.sinks ==>
          var k := b.sinks[s];
          b'.sinks[s] ==
            if s in targets && Room(b, s, bytes)
            then k.(ready := k.ready + [Record(e, bytes, 0, 0)], usedCount := k.usedCount + 1, usedBytes := k.usedBytes + bytes)
            else k)
  }

  lemma PublishDelivers(b: Bus, e: EventId, tenant: TenantId, bytes: nat, targets: set<SinkId>)
    requires Inv(b) && targets <= b.sinks.Keys && Publish(b, e, tenant, bytes, targets).1 == Accepted
    ensures Distributed(b, e, tenant, bytes, targets, Publish(b, e, tenant, bytes, targets).0)
  {
    hide Room, BacklogOf, Counts, SinksInv, TenantsInv, ActivesInv, Total;
    forall s | s in b.sinks ensures HasRoom(b.sinks[s], bytes) <==> Room(b, s, bytes) {
      RoomByCounters(b, s, bytes);
    }
    hide HasRoom;
  }

  // ---- handing out ----

  predicate InFlightAt(active: map<EventId, Active>, s: SinkId) {
    exists e :: e in active && s in active[e].operations
  }

  /** Paused: until its deadline, and after it as long as a probe is in flight. */
  predicate HeldBack(b: Bus, s: SinkId, now: nat)
    requires s in b.sinks
  {
    b.sinks[s].pausedUntil.Some? && (now < b.sinks[s].pausedUntil.value || InFlightAt(b.active, s))
  }

  lemma InflightByCounter(b: Bus, s: SinkId)
    requires SinksInv(b) && s in b.sinks
    ensures b.sinks[s].inflight != 0 <==> InFlightAt(b.active, s)
  {
    hide Total, Owns;
    assert SinkInv(b.active, s, b.sinks[s]);
    TotalIsZero(b.active, FlyingCount(s));
    if b.sinks[s].inflight != 0 {
      var e :| e in b.active && FlyingCount(s)(b.active[e]) != 0;
    } else {
      forall e | e in b.active ensures s !in b.active[e].operations {
        assert FlyingCount(s)(b.active[e]) == 0;
      }
    }
  }

  /**
   A sink hands out a record exactly when it is not held back and has one that is ready or due, and it is the one that
   has waited longest: ready records in the order they came, then delayed ones in due order.
   */
  lemma TakeDecides(b: Bus, s: SinkId, now: nat)
    requires Inv(b) && s in b.sinks
    ensures var k := b.sinks[s];
      Take(b, s, now).1.Some? <==> !HeldBack(b, s, now) && (k.ready != [] || exists d <- k.delayed :: d.due <= now)
    ensures var k, (b', r) := b.sinks[s], Take(b, s, now);
      r.Some? ==>
        && Queue(k) != [] && r.value == Queue(k)[0].(operation := b.nextOperation + 1)
        && s in b'.sinks && Queue(b'.sinks[s]) == Queue(k)[1..] && b'.sinks == b.sinks[s := b'.sinks[s]]
        && b'.sinks[s] == k.(ready := b'.sinks[s].ready, delayed := b'.sinks[s].delayed, inflight := k.inflight + 1)
        && (k.ready == [] ==> k.delayed[0].due <= now)
  {
    hide Total, Counts, TenantsInv, ActivesInv, SinksInv, InFlightAt, Promote, Sorted;
    var k := b.sinks[s];
    InflightByCounter(b, s);
    assert Sorted(k.delayed) by { assert SinkInv(b.active, s, k) by { SinkOf(b, s); } SinkIsSorted(b.active, s, k); }
    PromotesSome(k, now);
    PromoteKeepsQueue(k, now);
    var promoted := Promote(k, now);
    if promoted.ready != [] {
      assert Queue(promoted)[0] == promoted.ready[0];
      var rest := promoted.(ready := promoted.ready[1..], inflight := promoted.inflight + 1);
      assert Queue(rest) == Queue(promoted)[1..];
    }
  }

  lemma SinkOf(b: Bus, s: SinkId)
    requires SinksInv(b) && s in b.sinks
    ensures SinkInv(b.active, s, b.sinks[s])
  {
  }

  lemma PromotesSome(k: Sink, now: nat)
    requires Sorted(k.delayed)
    ensures Promote(k, now).ready != [] <==> k.ready != [] || exists d <- k.delayed :: d.due <= now
    ensures k.ready == [] && Promote(k, now).ready != [] ==> k.delayed != [] && k.delayed[0].due <= now
  {
    if k.delayed != [] && k.delayed[0].due > now {
      forall d | d in k.delayed ensures d.due > now {
        var i :| 0 <= i < |k.delayed| && k.delayed[i] == d;
        assert k.delayed[0].due <= d.due;
      }
    }
  }

  /**
   A hand-out promotes a due record if there is one, promotes more only to fill the free slots of the workers, and
   leaves a due record behind only when they are filled.
   */
  lemma PromotesWhatIsWanted(k: Sink, now: nat)
    requires Sorted(k.delayed)
    ensures (exists d <- k.delayed :: d.due <= now) ==> |Promote(k, now).ready| > |k.ready|
    ensures var k', free := Promote(k, now), k.def.concurrency - k.inflight;
      && (|k'.ready| > |k.ready| + 1 ==> |k'.ready| <= free)
      && (|k'.ready| >= free || forall d <- k'.delayed :: d.due > now)
  {
    PromoteTakesEarliest(k, now);
    PromotesSome(k.(ready := []), now);
  }

  // ---- completing ----

  /** Whether a sink is owed the event after `attempts` attempts, of which the last had this outcome. */
  predicate StaysOwed(def: Definition, verdict: Verdict, attempts: nat, young: bool) {
    match verdict
    case Ack => false
    case Permanent => def.mode == ConfirmedRequired
    case Retryable => def.mode == ConfirmedRequired || (attempts < def.maxAttempts && young)
  }

  /** `after` is `before` with one record more, behind all that are due no later and before all that are due later. */
  predicate Queued(before: seq<Delayed>, d: Delayed, after: seq<Delayed>) {
    exists i :: 0 <= i <= |before| && after == before[..i] + [d] + before[i..]
      && (forall j :: 0 <= j < i ==> before[j].due <= d.due) && (forall j :: i <= j < |before| ==> before[j].due > d.due)
  }

  /** The record after this attempt, on a 32-bit counter that saturates. */
  function Tried(r: Record): Record {
    r.(attempt := if r.attempt < 0xffff_ffff then r.attempt + 1 else r.attempt)
  }

  ghost predicate Requeued(b: Bus, s: SinkId, r: Record, due: nat, b': Bus)
    requires s in b.sinks && r.event in b.active
  {
    var k, a := b.sinks[s], b.active[r.event];
    && b'.active == b.active[r.event := a.(operations := a.operations - {s}, attempts := a.attempts[s := Tried(r).attempt])]
    && s in b'.sinks && b'.sinks == b.sinks[s := b'.sinks[s]]
    && Queued(k.delayed, Delayed(due, Tried(r)), b'.sinks[s].delayed)
    && b'.sinks[s].ready == k.ready && b'.sinks[s].def == k.def
    && b'.sinks[s].usedCount == k.usedCount && b'.sinks[s].usedBytes == k.usedBytes && b'.sinks[s].inflight + 1 == k.inflight
  }

  ghost predicate LetGo(b: Bus, s: SinkId, r: Record, b': Bus)
    requires s in b.sinks && r.event in b.active
  {
    var k, a := b.sinks[s], b.active[r.event];
    && b'.active ==
         (if a.remaining == {s} then b.active - {r.event}
          else b.active[r.event := a.(remaining := a.remaining - {s}, required := a.required - {s},
                                      operations := a.operations - {s}, attempts := a.attempts[s := Tried(r).attempt])])
    && s in b'.sinks && b'.sinks == b.sinks[s := b'.sinks[s]]
    && b'.sinks[s].ready == k.ready && b'.sinks[s].delayed == k.delayed && b'.sinks[s].def == k.def
    && b'.sinks[s].usedCount + 1 == k.usedCount && b'.sinks[s].usedBytes + r.bytes == k.usedBytes
    && b'.sinks[s].inflight + 1 == k.inflight
  }

  /**
   A completed delivery stays owed exactly as the mode, the verdict, the attempts and the age say; it is then queued
   again with one attempt more at its due time, and otherwise the sink lets go of it, and the bus of the event when
   this was the last sink.
   */
  lemma CompleteDecides(b: Bus, s: SinkId, r: Record, verdict: Verdict, young: bool, due: nat, until: nat)
    requires Inv(b) && s in b.sinks && Current(b, s, r) && r.bytes == b.active[r.event].bytes
    ensures var b' := Complete(b, s, r, verdict, young, due, until);
      if StaysOwed(b.sinks[s].def, verdict, Tried(r).attempt, young)
      then Requeued(b, s, r, due, b')
      else LetGo(b, s, r, b')
  {
    hide Total, Counts, TenantsInv, ActivesInv, SinksInv, Returned, Release, Sweep, Requeued, LetGo;
    var k, again := Settle(b.sinks[s], verdict, until), Tried(r);
    if s in b.active[r.event].required { RequiredIsPending(b, r.event); }
    InFlightCounts(b, s, r);
    if StaysOwed(b.sinks[s].def, verdict, again.attempt, young) {
      ReturnedIsQueued(b, s, r, k, due);
    } else {
      ReleasedIsLetGo(b, s, r, k, verdict != Ack);
    }
  }

  lemma InFlightCounts(b: Bus, s: SinkId, r: Record)
    requires SinksInv(b) && s in b.sinks && Current(b, s, r) && r.bytes == b.active[r.event].bytes
    ensures b.sinks[s].inflight > 0 && b.sinks[s].usedCount > 0 && b.sinks[s].usedBytes >= r.bytes && Sorted(b.sinks[s].delayed)
  {
    hide Total, Owns, Sorted;
    assert SinkInv(b.active, s, b.sinks[s]);
    TotalPick(b.active, FlyingCount(s), r.event);
    TotalPick(b.active, HeldCount(s), r.event);
    TotalPick(b.active, HeldBytes(s), r.event);
  }

  lemma ReturnedIsQueued(b: Bus, s: SinkId, r: Record, k: Sink, due: nat)
    requires s in b.sinks && r.event in b.active && b.sinks[s].inflight > 0 && Sorted(b.sinks[s].delayed)
    requires k == b.sinks[s].(inflight := b.sinks[s].inflight - 1, failures := k.failures, pausedUntil := k.pausedUntil)
    ensures Requeued(b, s, r, due, Returned(b, s, Tried(r), k, due))
  {
    PositionSplits(k.delayed, due);
    var i := Position(k.delayed, due);
    var after := Requeue(k, Tried(r), due).delayed;
    assert after == k.delayed[..i] + [Delayed(due, Tried(r))] + k.delayed[i..];
    assert Queued(k.delayed, Delayed(due, Tried(r)), after);
    hide Sorted, Queued, Position;
  }

  lemma ReleasedIsLetGo(b: Bus, s: SinkId, r: Record, k: Sink, failed: bool)
    requires s in b.sinks && r.event in b.active && s in b.active[r.event].remaining
    requires b.sinks[s].inflight > 0 && b.sinks[s].usedCount > 0 && b.sinks[s].usedBytes >= r.bytes
    requires k == b.sinks[s].(inflight := b.sinks[s].inflight - 1, failures := k.failures, pausedUntil := k.pausedUntil)
    ensures LetGo(b, s, r, Sweep(Release(b, s, Tried(r), k, failed), r.event))
  {
    hide BacklogOf;
    var a := b.active[r.event];
    var released := Released(a, s, Tried(r).attempt, failed);
    var b1 := Release(b, s, Tried(r), k, failed);
    assert b1.active == b.active[r.event := released];
    if a.remaining == {s} {
      assert released.remaining == {};
      assert b1.active - {r.event} == b.active - {r.event};
    } else {
      var other :| other in a.remaining && other != s by { AnotherOne(a.remaining, s); }
      assert other in released.remaining;
      assert |a.remaining| > 1 by { SubsetIsSmaller({s, other}, a.remaining); }
    }
  }

  lemma AnotherOne(x: set<SinkId>, s: SinkId)
    requires s in x && x != {s}
    ensures exists t :: t in x && t != s
  {
    assert x == x - {s} + {s};
    var t :| t in x - {s};
  }
}
