/**
 The event bus: responsibility for accepted events, per-sink queues with retry, admission by count and
 bytes, and fencing of completions by operation number. Each critical section of the bus mutex is one
 atomic step on the state.
 */
module EventBus {
  import opened Bytes

  type EventId = nat
  type SinkId = nat
  type TenantId = nat

  datatype Mode = ConfirmedRequired | BestEffort

  datatype Definition = Definition(mode: Mode, maxCount: nat, maxBytes: nat, concurrency: nat, maxAttempts: nat)

  datatype Record = Record(event: EventId, bytes: nat, attempt: nat, operation: nat)

  datatype Delayed = Delayed(due: nat, record: Record)

  datatype Sink = Sink(
    def: Definition, ready: seq<Record>, delayed: seq<Delayed>,
    usedCount: nat, usedBytes: nat, inflight: nat,
    failures: nat, pausedUntil: Option<nat>)

  datatype Active = Active(
    tenant: TenantId, bytes: nat, remaining: set<SinkId>, required: set<SinkId>,
    /** Completed attempts by sink, and the deliveries in flight by operation number. */
    attempts: map<SinkId, nat>, operations: map<SinkId, nat>)

  datatype Backlog = Backlog(count: nat, bytes: nat)

  datatype Limits = Limits(
    maxCount: nat, maxBytes: nat, tenantCount: nat, tenantBytes: nat, maxFanout: nat, maxSinks: nat)

  datatype Bus = Bus(
    limits: Limits, sinks: map<SinkId, Sink>, active: map<EventId, Active>,
    activeBytes: nat, pendingRequired: nat, accepting: bool, nextOperation: nat,
    tenants: map<TenantId, Backlog>)

  datatype Acceptance = Accepted | Draining | Conflict | Unavailable | Overloaded

  // ---- sums over active events ----

  ghost function Total(m: map<EventId, Active>, w: Active -> nat): nat
    decreases |m|
  {
    if m == map[] then 0 else
      var e :| e in m;
      w(m[e]) + Total(m - {e}, w)
  }

  lemma {:induction false} TotalPick(m: map<EventId, Active>, w: Active -> nat, e: EventId)
    requires e in m
    ensures Total(m, w) == w(m[e]) + Total(m - {e}, w)
    decreases |m|
  {
    var d :| d in m && Total(m, w) == w(m[d]) + Total(m - {d}, w);
    if d == e {
    } else {
      TotalPick(m - {d}, w, e);
      TotalPick(m - {e}, w, d);
      assert m - {d} - {e} == m - {e} - {d};
    }
  }

  lemma TotalInsert(m: map<EventId, Active>, w: Active -> nat, e: EventId, a: Active)
    requires e !in m
    ensures Total(m[e := a], w) == Total(m, w) + w(a)
  {
    TotalPick(m[e := a], w, e);
    assert m[e := a] - {e} == m;
  }

  lemma TotalUpdate(m: map<EventId, Active>, w: Active -> nat, e: EventId, a: Active)
    requires e in m
    ensures Total(m[e := a], w) + w(m[e]) == Total(m, w) + w(a)
  {
    TotalPick(m, w, e);
    TotalPick(m[e := a], w, e);
    assert m[e := a] - {e} == m - {e};
  }

  lemma {:induction false} TotalIsZero(m: map<EventId, Active>, w: Active -> nat)
    ensures Total(m, w) == 0 <==> forall e :: e in m ==> w(m[e]) == 0
    decreases |m|
  {
    if m == map[] {
    } else {
      var e :| e in m && Total(m, w) == w(m[e]) + Total(m - {e}, w);
      TotalIsZero(m - {e}, w);
      assert forall d :: d in m && d != e ==> d in m - {e} && (m - {e})[d] == m[d];
    }
  }

  // ---- what is summed ----

  function RequiredWeight(): Active -> nat { (a: Active) => |a.required| }
  function BytesWeight(): Active -> nat { (a: Active) => a.bytes }
  function TenantCount(t: TenantId): Active -> nat { (a: Active) => if a.tenant == t then 1 else 0 }
  function TenantBytes(t: TenantId): Active -> nat { (a: Active) => if a.tenant == t then a.bytes else 0 }
  function HeldCount(s: SinkId): Active -> nat { (a: Active) => if s in a.remaining then 1 else 0 }
  function HeldBytes(s: SinkId): Active -> nat { (a: Active) => if s in a.remaining then a.bytes else 0 }
  function FlyingCount(s: SinkId): Active -> nat { (a: Active) => if s in a.operations then 1 else 0 }

  // ---- invariants ----

  function Records(ds: seq<Delayed>): (rs: seq<Record>)
    ensures |rs| == |ds| && forall i :: 0 <= i < |ds| ==> rs[i] == ds[i].record
  {
    seq(|ds|, i requires 0 <= i < |ds| => ds[i].record)
  }

  /** Everything a sink has yet to hand to a worker: ready first, then delayed in due order. */
  function Queue(k: Sink): seq<Record> {
    k.ready + Records(k.delayed)
  }

  /** In due order; records due at the same time in the order they came back. */
  predicate Sorted(ds: seq<Delayed>) {
    forall i, j :: 0 <= i < j < |ds| ==> ds[i].due <= ds[j].due
  }

  predicate Distinct(q: seq<Record>) {
    forall i, j :: 0 <= i < j < |q| ==> q[i].event != q[j].event
  }

  function Events(q: seq<Record>): set<EventId> {
    set r | r in q :: r.event
  }

  /** The events that wait at sink `s`: owed, and not with a worker. */
  function Waiting(active: map<EventId, Active>, s: SinkId): set<EventId> {
    set e | e in active && s in active[e].remaining && s !in active[e].operations
  }

  /** The queue holds exactly one record for every waiting event, with its size and its attempts so far. */
  predicate Owns(active: map<EventId, Active>, s: SinkId, q: seq<Record>) {
    && Distinct(q)
    && Events(q) == Waiting(active, s)
    && (forall r :: r in q ==>
          r.event in active && r.bytes == active[r.event].bytes && r.attempt == AttemptsAt(active[r.event], s))
  }

  ghost predicate SinkInv(active: map<EventId, Active>, s: SinkId, k: Sink) {
    && k.usedCount == Total(active, HeldCount(s)) <= k.def.maxCount
    && k.usedBytes == Total(active, HeldBytes(s)) <= k.def.maxBytes
    && k.inflight == Total(active, FlyingCount(s))
    && k.usedCount == |Queue(k)| + k.inflight
    && Owns(active, s, Queue(k)) && Sorted(k.delayed)
  }

  predicate ActiveInv(sinks: map<SinkId, Sink>, issued: nat, a: Active) {
    && a.remaining != {} && a.remaining <= sinks.Keys
    && a.required == (set s | s in a.remaining && sinks[s].def.mode == ConfirmedRequired)
    && a.operations.Keys <= a.remaining
    && (forall s :: s in a.operations ==> a.operations[s] <= issued)
  }

  ghost predicate TenantInv(b: Bus, t: TenantId) {
    && BacklogOf(b, t) == Backlog(Total(b.active, TenantCount(t)), Total(b.active, TenantBytes(t)))
    && (t in b.tenants ==> 0 < b.tenants[t].count <= b.limits.tenantCount && b.tenants[t].bytes <= b.limits.tenantBytes)
  }

  ghost predicate Counts(b: Bus) {
    && b.pendingRequired == Total(b.active, RequiredWeight())
    && b.activeBytes == Total(b.active, BytesWeight()) <= b.limits.maxBytes
    && |b.active| <= b.limits.maxCount
  }

  predicate ActivesInv(b: Bus) {
    forall e :: e in b.active ==> ActiveInv(b.sinks, b.nextOperation, b.active[e])
  }

  ghost predicate SinksInv(b: Bus) {
    forall s :: s in b.sinks ==> SinkInv(b.active, s, b.sinks[s])
  }

  ghost predicate TenantsInv(b: Bus) {
    forall t :: TenantInv(b, t)
  }

  ghost predicate Inv(b: Bus) {
    Counts(b) && ActivesInv(b) && SinksInv(b) && TenantsInv(b)
  }

  /** Within the fan-out ceiling, and with a history that a later restore admits. */
  predicate Bounded(l: Limits, a: Active) {
    |a.remaining| <= l.maxFanout && |a.attempts.Keys + a.remaining| <= l.maxSinks
  }

  predicate AllBounded(l: Limits, active: map<EventId, Active>) {
    forall e :: e in active ==> Bounded(l, active[e])
  }

  predicate Ceilings(b: Bus) {
    |b.sinks.Keys| <= b.limits.maxSinks && AllBounded(b.limits, b.active)
  }

  /** The required responsibilities that the bus still owes. */
  function Pending(active: map<EventId, Active>): (ps: set<(EventId, SinkId)>)
    ensures forall p :: p in ps <==> p.0 in active && p.1 in active[p.0].required
  {
    set e, s | e in active && s in active[e].required :: (e, s)
  }

  // ---- admission ----

  predicate HasRoom(k: Sink, bytes: nat) {
    k.usedCount < k.def.maxCount && k.usedBytes + bytes <= k.def.maxBytes
  }

  function Admit(k: Sink, r: Record): Sink {
    k.(usedCount := k.usedCount + 1, usedBytes := k.usedBytes + r.bytes, ready := k.ready + [r])
  }

  function AttemptsAt(a: Active, s: SinkId): nat {
    if s in a.attempts then a.attempts[s] else 0
  }

  function BacklogOf(b: Bus, t: TenantId): Backlog {
    if t in b.tenants then b.tenants[t] else Backlog(0, 0)
  }

  /** Adds `a` under `e` and queues it at every sink of `a.remaining`. */
  function Insert(b: Bus, e: EventId, a: Active): Bus
    requires a.remaining <= b.sinks.Keys
  {
    var was := BacklogOf(b, a.tenant);
    b.(active := b.active[e := a],
       activeBytes := b.activeBytes + a.bytes,
       pendingRequired := b.pendingRequired + |a.required|,
       tenants := b.tenants[a.tenant := Backlog(was.count + 1, was.bytes + a.bytes)],
       sinks := map s | s in b.sinks ::
         if s in a.remaining
         then Admit(b.sinks[s], Record(e, a.bytes, AttemptsAt(a, s), 0))
         else b.sinks[s])
  }

  function RequiredOf(b: Bus, targets: set<SinkId>): set<SinkId>
    requires targets <= b.sinks.Keys
  {
    set s | s in targets && b.sinks[s].def.mode == ConfirmedRequired
  }

  /** All or nothing for required sinks; a full best-effort sink is skipped. */
  function Publish(b: Bus, e: EventId, tenant: TenantId, bytes: nat, targets: set<SinkId>): (r: (Bus, Acceptance))
    requires targets <= b.sinks.Keys
  {
    var backlog := BacklogOf(b, tenant);
    if !b.accepting then (b, Draining)
    else if e in b.active then (b, Conflict)
    else if targets == {} then (b, Unavailable)
    else if |b.active| >= b.limits.maxCount || b.activeBytes + bytes > b.limits.maxBytes then (b, Overloaded)
    else if backlog.count + 1 > b.limits.tenantCount || backlog.bytes + bytes > b.limits.tenantBytes then (b, Overloaded)
    else if exists s :: s in RequiredOf(b, targets) && !HasRoom(b.sinks[s], bytes) then (b, Overloaded)
    else
      var admitted := set s | s in targets && HasRoom(b.sinks[s], bytes);
      if admitted == {} then (b, Overloaded)
      else (Insert(b, e, Active(tenant, bytes, admitted, RequiredOf(b, admitted), map[], map[])), Accepted)
  }

  /** Room for `a` everywhere it would count. */
  predicate Fits(b: Bus, a: Active) {
    && |b.active| < b.limits.maxCount && b.activeBytes + a.bytes <= b.limits.maxBytes
    && BacklogOf(b, a.tenant).count + 1 <= b.limits.tenantCount
    && BacklogOf(b, a.tenant).bytes + a.bytes <= b.limits.tenantBytes
    && (forall s :: s in a.remaining ==> s in b.sinks && HasRoom(b.sinks[s], a.bytes))
  }

  lemma EventsAfterInsert(q: seq<Record>, i: nat, r: Record)
    requires i <= |q|
    ensures Events(q[..i] + [r] + q[i..]) == Events(q) + {r.event}
  {
    var q' := q[..i] + [r] + q[i..];
    assert q == q[..i] + q[i..];
    assert forall x :: x in q' <==> x in q || x == r;
  }

  lemma DistinctAfterInsert(q: seq<Record>, i: nat, r: Record)
    requires i <= |q| && Distinct(q) && r.event !in Events(q)
    ensures Distinct(q[..i] + [r] + q[i..])
  {
    assert forall j :: 0 <= j < |q| ==> q[j] in q && q[j].event in Events(q);
  }

  /** A record for an event that starts to wait at `s`. */
  lemma OwnsAfterInsert(active: map<EventId, Active>, s: SinkId, q: seq<Record>, i: nat, r: Record, a: Active)
    requires Owns(active, s, q) && i <= |q|
    requires r.event !in Waiting(active, s)
    requires r.event in active ==> active[r.event].bytes == a.bytes
    requires r.bytes == a.bytes && r.attempt == AttemptsAt(a, s) && s in a.remaining && s !in a.operations
    ensures Owns(active[r.event := a], s, q[..i] + [r] + q[i..])
  {
    EventsAfterInsert(q, i, r);
    DistinctAfterInsert(q, i, r);
    var active' := active[r.event := a];
    assert Waiting(active', s) == Waiting(active, s) + {r.event};
    forall x | x in q[..i] + [r] + q[i..]
      ensures x.event in active' && x.bytes == active'[x.event].bytes && x.attempt == AttemptsAt(active'[x.event], s)
    {
      assert x in q || x == r;
      assert x in q ==> x.event in Events(q);
    }
  }

  /** An event whose standing at `s` does not change. */
  lemma OwnsElsewhere(active: map<EventId, Active>, s: SinkId, q: seq<Record>, e: EventId, a: Active)
    requires Owns(active, s, q)
    requires (s in a.remaining && s !in a.operations) <==> e in Waiting(active, s)
    requires e in active ==> active[e].bytes == a.bytes
    requires e in Waiting(active, s) ==> AttemptsAt(a, s) == AttemptsAt(active[e], s)
    ensures Owns(active[e := a], s, q)
  {
    assert Waiting(active[e := a], s) == Waiting(active, s);
    assert forall x :: x in q ==> x.event in Events(q);
  }

  lemma InsertKeepsSink(b: Bus, e: EventId, a: Active, s: SinkId)
    requires s in b.sinks && SinkInv(b.active, s, b.sinks[s])
    requires e !in b.active && Fits(b, a) && a.operations == map[]
    ensures var b' := Insert(b, e, a); SinkInv(b'.active, s, b'.sinks[s])
  {
    hide Owns, Total;
    var b' := Insert(b, e, a);
    var k, k', q := b.sinks[s], b'.sinks[s], Queue(b.sinks[s]);
    TotalInsert(b.active, HeldCount(s), e, a);
    TotalInsert(b.active, HeldBytes(s), e, a);
    TotalInsert(b.active, FlyingCount(s), e, a);
    if s in a.remaining {
      var i, r := |k.ready|, Record(e, a.bytes, AttemptsAt(a, s), 0);
      OwnsAfterInsert(b.active, s, q, i, r, a);
      assert Queue(k') == q[..i] + [r] + q[i..];
    } else {
      OwnsElsewhere(b.active, s, q, e, a);
    }
  }

  lemma InsertKeepsTenants(b: Bus, e: EventId, a: Active)
    requires TenantsInv(b) && e !in b.active && Fits(b, a)
    ensures TenantsInv(Insert(b, e, a))
  {
    hide Total;
    var b' := Insert(b, e, a);
    forall t ensures TenantInv(b', t) {
      assert TenantInv(b, t);
      TotalInsert(b.active, TenantCount(t), e, a);
      TotalInsert(b.active, TenantBytes(t), e, a);
    }
  }

  lemma InsertKeepsCounts(b: Bus, e: EventId, a: Active)
    requires Counts(b) && e !in b.active && Fits(b, a)
    ensures Counts(Insert(b, e, a))
  {
    hide Total, Admit, BacklogOf;
    TotalInsert(b.active, RequiredWeight(), e, a);
    TotalInsert(b.active, BytesWeight(), e, a);
  }

  predicate SameDefinitions(x: map<SinkId, Sink>, y: map<SinkId, Sink>) {
    x.Keys == y.Keys && forall s :: s in x ==> x[s].def == y[s].def
  }

  /** Sinks and limits are fixed for the life of a bus, and only closing admission changes `accepting`. */
  predicate SameConfiguration(b: Bus, b': Bus) {
    b.limits == b'.limits && SameDefinitions(b.sinks, b'.sinks) && b.accepting == b'.accepting
  }

  lemma ActiveInvCarries(x: map<SinkId, Sink>, y: map<SinkId, Sink>, issued: nat, more: nat, a: Active)
    requires SameDefinitions(x, y) && issued <= more && ActiveInv(x, issued, a)
    ensures ActiveInv(y, more, a)
  {
    assert (set s | s in a.remaining && x[s].def.mode == ConfirmedRequired)
        == (set s | s in a.remaining && y[s].def.mode == ConfirmedRequired);
  }

  /** Taking responsibility keeps every count, and adds exactly the required sinks of the event. */
  lemma InsertKeepsInv(b: Bus, e: EventId, a: Active)
    requires Inv(b) && e !in b.active && Fits(b, a) && a.operations == map[] && ActiveInv(b.sinks, b.nextOperation, a)
    ensures Inv(Insert(b, e, a))
    ensures Pending(Insert(b, e, a).active) == Pending(b.active) + set s | s in a.required :: (e, s)
  {
    hide SinkInv, TenantsInv, Counts, ActiveInv;
    var b' := Insert(b, e, a);
    InsertKeepsCounts(b, e, a);
    InsertKeepsTenants(b, e, a);
    forall s | s in b'.sinks ensures SinkInv(b'.active, s, b'.sinks[s]) {
      InsertKeepsSink(b, e, a, s);
    }
    forall d | d in b'.active ensures ActiveInv(b'.sinks, b'.nextOperation, b'.active[d]) {
      ActiveInvCarries(b.sinks, b'.sinks, b.nextOperation, b.nextOperation, b'.active[d]);
    }
  }

  lemma InsertOnly(b: Bus, e: EventId, a: Active)
    requires a.remaining <= b.sinks.Keys
    ensures var b' := Insert(b, e, a);
      SameConfiguration(b, b') && b'.active == b.active[e := a] && b'.nextOperation == b.nextOperation
  {
  }

  /** Publishing keeps the invariants; when it accepts, the bus owes every required target, and otherwise nothing changes. */
  lemma PublishKeepsInv(b: Bus, e: EventId, tenant: TenantId, bytes: nat, targets: set<SinkId>)
    requires Inv(b) && targets <= b.sinks.Keys
    ensures var (b', r) := Publish(b, e, tenant, bytes, targets);
      && Inv(b') && SameConfiguration(b, b') && b'.nextOperation == b.nextOperation
      && (r == Accepted ==> e in b'.active && b'.active[e].operations == map[] && b'.active - {e} == b.active)
      && (r == Accepted ==> Pending(b'.active) == Pending(b.active) + set s | s in RequiredOf(b, targets) :: (e, s))
      && (r == Accepted ==> e !in b.active)
      && (r != Accepted ==> b' == b)
  {
    hide Inv, Insert, Pending;
    var (b', r) := Publish(b, e, tenant, bytes, targets);
    if r == Accepted {
      var admitted := set s | s in targets && HasRoom(b.sinks[s], bytes);
      assert RequiredOf(b, admitted) == RequiredOf(b, targets);
      var a := Active(tenant, bytes, admitted, RequiredOf(b, admitted), map[], map[]);
      InsertKeepsInv(b, e, a);
      InsertOnly(b, e, a);
    }
  }

  // ---- handing a record to a worker ----

  /** How many of the first `budget` delayed records are due. */
  function DuePrefix(ds: seq<Delayed>, now: nat, budget: nat): (n: nat)
    ensures n <= |ds| && n <= budget
  {
    if ds == [] || budget == 0 || ds[0].due > now then 0 else 1 + DuePrefix(ds[1..], now, budget - 1)
  }

  /** How many due records a worker may fetch: its demand, and at least one however many are ready. */
  function PromotionBudget(k: Sink): nat {
    Max(Max(k.def.concurrency - k.inflight, 0) - |k.ready|, 1)
  }

  /** Due records move behind the ready ones. */
  function Promote(k: Sink, now: nat): Sink {
    var n := DuePrefix(k.delayed, now, PromotionBudget(k));
    k.(ready := k.ready + Records(k.delayed[..n]), delayed := k.delayed[n..])
  }

  predicate Paused(k: Sink, now: nat) {
    k.pausedUntil.Some? && (k.pausedUntil.value > now || k.inflight != 0)
  }

  function Take(b: Bus, s: SinkId, now: nat): (r: (Bus, Option<Record>))
    requires s in b.sinks
  {
    var k := Promote(b.sinks[s], now);
    if Paused(b.sinks[s], now) || k.ready == [] then (b, None)
    else
      var op := b.nextOperation + 1;
      var record := k.ready[0].(operation := op);
      var active := if record.event !in b.active then b.active else
        var a := b.active[record.event];
        b.active[record.event := a.(operations := a.operations[s := op])];
      (b.(sinks := b.sinks[s := k.(ready := k.ready[1..], inflight := k.inflight + 1)],
          active := active, nextOperation := op),
       Some(record))
  }

  lemma {:induction false} DueComeFirst(ds: seq<Delayed>, now: nat, budget: nat)
    requires Sorted(ds)
    ensures var n := DuePrefix(ds, now, budget);
      && (forall i :: 0 <= i < n ==> ds[i].due <= now)
      && (n < budget ==> forall i :: n <= i < |ds| ==> ds[i].due > now)
    decreases |ds|
  {
    if ds == [] || budget == 0 || ds[0].due > now {
    } else {
      DueComeFirst(ds[1..], now, budget - 1);
    }
  }

  /** A hand-out promotes the records due earliest, in due order, and all that are due unless the budget is used up. */
  lemma PromoteTakesEarliest(k: Sink, now: nat)
    requires Sorted(k.delayed)
    ensures var n := |k.delayed| - |Promote(k, now).delayed|;
      && 0 <= n <= PromotionBudget(k)
      && Promote(k, now).ready == k.ready + Records(k.delayed[..n]) && Promote(k, now).delayed == k.delayed[n..]
      && (forall i :: 0 <= i < n ==> k.delayed[i].due <= now)
      && (forall i, j :: 0 <= i < n <= j < |k.delayed| ==> k.delayed[i].due <= k.delayed[j].due)
      && (n < PromotionBudget(k) ==> forall d <- Promote(k, now).delayed :: d.due > now)
    ensures Sorted(Promote(k, now).delayed)
  {
    DueComeFirst(k.delayed, now, PromotionBudget(k));
  }

  lemma PromoteKeepsQueue(k: Sink, now: nat)
    ensures Queue(Promote(k, now)) == Queue(k)
    ensures Promote(k, now) == k.(ready := Promote(k, now).ready, delayed := Promote(k, now).delayed)
  {
  }

  lemma OwnsAfterRemoval(active: map<EventId, Active>, s: SinkId, q: seq<Record>, a: Active)
    requires Owns(active, s, q) && q != []
    requires a.bytes == active[q[0].event].bytes && s in a.operations
    ensures Owns(active[q[0].event := a], s, q[1..])
  {
    var e := q[0].event;
    assert q == [q[0]] + q[1..];
    assert e !in Events(q[1..]);
    assert forall x :: x in q[1..] ==> x.event in Events(q[1..]) && x in q;
    assert Events(q) == Events(q[1..]) + {e};
    assert Waiting(active[e := a], s) == Waiting(active, s) - {e};
  }

  // ---- a step that concerns one event at one sink ----

  /** The two differ at sink `s` at most. */
  ghost predicate SameElsewhere(a: Active, a': Active, s: SinkId) {
    && a.tenant == a'.tenant && a.bytes == a'.bytes
    && a.remaining - {s} == a'.remaining - {s}
    && a.operations.Keys - {s} == a'.operations.Keys - {s}
    && (forall x :: x != s ==> AttemptsAt(a, x) == AttemptsAt(a', x))
  }

  ghost predicate Touches(b: Bus, b': Bus, s: SinkId, e: EventId, a': Active) {
    && s in b.sinks && s in b'.sinks && e in b.active && SameElsewhere(b.active[e], a', s)
    && b'.active == b.active[e := a']
    && b'.sinks == b.sinks[s := b'.sinks[s]] && b'.sinks[s].def == b.sinks[s].def
    && b'.limits == b.limits && b'.tenants == b.tenants && b'.activeBytes == b.activeBytes
    && b'.pendingRequired + |b.active[e].required| == b.pendingRequired + |a'.required|
    && b.nextOperation <= b'.nextOperation
  }

  lemma TouchedElsewhere(active: map<EventId, Active>, s: SinkId, e: EventId, a': Active, x: SinkId, k: Sink)
    requires e in active && SameElsewhere(active[e], a', s) && x != s && SinkInv(active, x, k)
    ensures SinkInv(active[e := a'], x, k)
  {
    hide Total, Owns;
    var a := active[e];
    assert x in a.remaining - {s} <==> x in a'.remaining - {s};
    assert x in a.operations.Keys - {s} <==> x in a'.operations.Keys - {s};
    TotalUpdate(active, HeldCount(x), e, a');
    TotalUpdate(active, HeldBytes(x), e, a');
    TotalUpdate(active, FlyingCount(x), e, a');
    OwnsElsewhere(active, x, Queue(k), e, a');
  }

  lemma TouchedCounts(b: Bus, b': Bus, s: SinkId, e: EventId, a': Active)
    requires Counts(b) && Touches(b, b', s, e, a')
    ensures Counts(b')
  {
    hide Total;
    TotalUpdate(b.active, RequiredWeight(), e, a');
    TotalUpdate(b.active, BytesWeight(), e, a');
    assert b'.active.Keys == b.active.Keys;
  }

  lemma TouchedTenants(b: Bus, b': Bus, s: SinkId, e: EventId, a': Active)
    requires TenantsInv(b) && Touches(b, b', s, e, a')
    ensures TenantsInv(b')
  {
    hide Total;
    forall t ensures TenantInv(b', t) {
      assert TenantInv(b, t);
      TotalUpdate(b.active, TenantCount(t), e, a');
      TotalUpdate(b.active, TenantBytes(t), e, a');
    }
  }

  /** It is enough to look at that sink and that event. */
  lemma TouchKeepsInv(b: Bus, b': Bus, s: SinkId, e: EventId, a': Active)
    requires Inv(b) && Touches(b, b', s, e, a') && SinkInv(b'.active, s, b'.sinks[s])
    ensures Counts(b') && SinksInv(b') && TenantsInv(b')
    ensures ActiveInv(b'.sinks, b'.nextOperation, a') ==> Inv(b')
  {
    hide SinkInv, Counts, TenantsInv, ActiveInv, SameElsewhere;
    TouchedCounts(b, b', s, e, a');
    TouchedTenants(b, b', s, e, a');
    forall x | x in b'.sinks && x != s ensures SinkInv(b'.active, x, b'.sinks[x]) {
      TouchedElsewhere(b.active, s, e, a', x, b.sinks[x]);
    }
    forall d | d in b'.active && d != e ensures ActiveInv(b'.sinks, b'.nextOperation, b'.active[d]) {
      ActiveInvCarries(b.sinks, b'.sinks, b.nextOperation, b'.nextOperation, b.active[d]);
    }
  }

  lemma TakeKeepsSink(b: Bus, s: SinkId, k: Sink, e: EventId, op: nat, k': Sink)
    requires s in b.sinks && SinkInv(b.active, s, b.sinks[s])
    requires Queue(k) == Queue(b.sinks[s]) && k == b.sinks[s].(ready := k.ready, delayed := k.delayed)
    requires k.ready != [] && e == k.ready[0].event && e in b.active && s !in b.active[e].operations
    requires Sorted(k.delayed)
    requires k' == k.(ready := k.ready[1..], inflight := k.inflight + 1)
    ensures var a := b.active[e]; SinkInv(b.active[e := a.(operations := a.operations[s := op])], s, k')
  {
    hide Total, Owns, Sorted;
    var a := b.active[e];
    var a' := a.(operations := a.operations[s := op]);
    TotalUpdate(b.active, HeldCount(s), e, a');
    TotalUpdate(b.active, HeldBytes(s), e, a');
    TotalUpdate(b.active, FlyingCount(s), e, a');
    assert Queue(k)[0] == k.ready[0];
    OwnsAfterRemoval(b.active, s, Queue(k), a');
    assert Queue(k') == Queue(k)[1..];
  }

  /** The record at the front of a queue is for an event that is owed and not with a worker. */
  lemma FrontWaits(active: map<EventId, Active>, s: SinkId, k: Sink, promoted: Sink)
    requires SinkInv(active, s, k) && Queue(promoted) == Queue(k) && promoted.ready != []
    ensures var r := promoted.ready[0];
      && r.event in active && r.bytes == active[r.event].bytes && r.attempt == AttemptsAt(active[r.event], s)
      && s in active[r.event].remaining && s !in active[r.event].operations
  {
    hide Total, Distinct;
    var r := promoted.ready[0];
    assert r == Queue(promoted)[0];
    assert r in Queue(k) && r.event in Events(Queue(k));
  }

  /** A record handed out is the one waiting record of an owed event, and its operation number is new. */
  lemma TakeKeepsInv(b: Bus, s: SinkId, now: nat)
    requires Inv(b) && s in b.sinks
    ensures var (b', r) := Take(b, s, now);
      && Inv(b') && Pending(b'.active) == Pending(b.active)
      && b.nextOperation <= b'.nextOperation && SameConfiguration(b, b')
      && (r.None? ==> b' == b)
      && (r.Some? ==>
        && r.value.operation == b'.nextOperation == b.nextOperation + 1
        && r.value.event in b'.active && r.value.bytes == b'.active[r.value.event].bytes
        && r.value.attempt == AttemptsAt(b'.active[r.value.event], s)
        && s in b'.active[r.value.event].operations && b'.active[r.value.event].operations[s] == r.value.operation)
  {
    hide Total, Promote, Counts, TenantsInv, SinkInv, Queue, ActiveInv, Sorted;
    var (b', r) := Take(b, s, now);
    if r.Some? {
      var k := Promote(b.sinks[s], now);
      PromoteKeepsQueue(b.sinks[s], now);
      SinkIsSorted(b.active, s, b.sinks[s]);
      PromoteTakesEarliest(b.sinks[s], now);
      FrontWaits(b.active, s, b.sinks[s], k);
      var e := r.value.event;
      TakeKeepsSink(b, s, k, e, b'.nextOperation, b'.sinks[s]);
      TouchKeepsInv(b, b', s, e, b'.active[e]);
      TakenActive(b, b', s, b.active[e]);
    }
  }

  lemma SinkIsSorted(active: map<EventId, Active>, s: SinkId, k: Sink)
    requires SinkInv(active, s, k)
    ensures Sorted(k.delayed)
  {
  }

  lemma TakenActive(b: Bus, b': Bus, s: SinkId, a: Active)
    requires ActiveInv(b.sinks, b.nextOperation, a) && s in a.remaining
    requires SameDefinitions(b.sinks, b'.sinks) && b.nextOperation <= b'.nextOperation
    ensures ActiveInv(b'.sinks, b'.nextOperation, a.(operations := a.operations[s := b'.nextOperation]))
  {
    ActiveInvCarries(b.sinks, b'.sinks, b.nextOperation, b'.nextOperation, a);
  }

  // ---- completing a delivery ----

  datatype Verdict = Ack | Retryable | Permanent

  function Less(x: nat, y: nat): nat {
    if x >= y then x - y else 0
  }

  /** The completion belongs to the delivery that is in flight now: not stale, not repeated, not misdirected. */
  predicate Current(b: Bus, s: SinkId, r: Record) {
    && r.event in b.active && s in b.active[r.event].remaining
    && s in b.active[r.event].operations && b.active[r.event].operations[s] == r.operation
  }

  /** One delivery fewer in flight; failures of a required sink pause it. */
  function Settle(k: Sink, verdict: Verdict, until: nat): Sink {
    if verdict == Ack then k.(inflight := Less(k.inflight, 1), failures := 0, pausedUntil := None)
    else
      var failures := k.failures + 1;
      k.(inflight := Less(k.inflight, 1), failures := failures,
         pausedUntil := if k.def.mode == ConfirmedRequired && (verdict == Permanent || failures >= 3)
                        then Some(until) else k.pausedUntil)
  }

  /** Behind every delayed record that is due no later. */
  function Position(ds: seq<Delayed>, due: nat): (n: nat)
    ensures n <= |ds|
  {
    if ds == [] || ds[0].due > due then 0 else 1 + Position(ds[1..], due)
  }

  function Requeue(k: Sink, r: Record, due: nat): Sink {
    var n := Position(k.delayed, due);
    k.(delayed := k.delayed[..n] + [Delayed(due, r)] + k.delayed[n..])
  }

  const MAX_ATTEMPTS: nat := 0xffff_ffff

  /** One attempt more, on a saturating 32-bit counter. */
  function Bumped(attempt: nat): nat {
    if attempt < MAX_ATTEMPTS then attempt + 1 else attempt
  }

  /** The delivery is over; its attempts are remembered unless it was the last and succeeded. */
  function Landed(a: Active, s: SinkId, attempt: nat, failed: bool): Active {
    a.(operations := a.operations - {s},
       attempts := if failed || |a.remaining| > 1 then a.attempts[s := attempt] else a.attempts)
  }

  function Released(a: Active, s: SinkId, attempt: nat, failed: bool): Active {
    Landed(a, s, attempt, failed).(remaining := a.remaining - {s}, required := a.required - {s})
  }

  /** An event owed to nobody leaves the bus and its tenant's backlog. */
  function Drop(b: Bus, e: EventId): Bus
    requires e in b.active
  {
    var a := b.active[e];
    var was := BacklogOf(b, a.tenant);
    var now := Backlog(Less(was.count, 1), Less(was.bytes, a.bytes));
    b.(active := b.active - {e}, activeBytes := Less(b.activeBytes, a.bytes),
       tenants := if now.count == 0 then b.tenants - {a.tenant} else b.tenants[a.tenant := now])
  }

  function Sweep(b: Bus, e: EventId): Bus
    requires e in b.active
  {
    if b.active[e].remaining == {} then Drop(b, e) else b
  }

  function Release(b: Bus, s: SinkId, r: Record, k: Sink, failed: bool): (b': Bus)
    requires s in b.sinks && r.event in b.active
    ensures r.event in b'.active
  {
    var a := b.active[r.event];
    b.(sinks := b.sinks[s := k.(usedCount := Less(k.usedCount, 1), usedBytes := Less(k.usedBytes, r.bytes))],
       active := b.active[r.event := Released(a, s, r.attempt, failed)],
       pendingRequired := if s in a.required then Less(b.pendingRequired, 1) else b.pendingRequired)
  }

  function Returned(b: Bus, s: SinkId, r: Record, k: Sink, due: nat): Bus
    requires s in b.sinks && r.event in b.active
  {
    b.(sinks := b.sinks[s := Requeue(k, r, due)], 
       active := b.active[r.event := Landed(b.active[r.event], s, r.attempt, true)])
  }

  predicate Retries(k: Sink, r: Record, verdict: Verdict, young: bool) {
    verdict == Retryable && r.attempt < k.def.maxAttempts && young
  }

  /** `young` says the record is below the sink's maximum age; `due` and `until` come from the retry timers. */
  function Complete(b: Bus, s: SinkId, r: Record, verdict: Verdict, young: bool, due: nat, until: nat): Bus
    requires s in b.sinks
  {
    if !Current(b, s, r) then b
    else if s in b.active[r.event].required && b.pendingRequired == 0 then b
    else
      var k, again := Settle(b.sinks[s], verdict, until), r.(attempt := Bumped(r.attempt));
      if Retries(k, again, verdict, young) || (verdict != Ack && k.def.mode == ConfirmedRequired) then
        Returned(b, s, again, k, due)
      else
        Sweep(Release(b, s, again, k, verdict != Ack), r.event)
  }

  lemma {:induction false} PositionSplits(ds: seq<Delayed>, due: nat)
    requires Sorted(ds)
    ensures forall i :: 0 <= i < Position(ds, due) ==> ds[i].due <= due
    ensures forall i :: Position(ds, due) <= i < |ds| ==> ds[i].due > due
    decreases |ds|
  {
    if ds == [] || ds[0].due > due {
    } else {
      PositionSplits(ds[1..], due);
    }
  }

  /** A record comes back behind everything due no later and before everything due later. */
  lemma RequeueKeepsOrder(k: Sink, r: Record, due: nat)
    requires Sorted(k.delayed)
    ensures Sorted(Requeue(k, r, due).delayed)
  {
    PositionSplits(k.delayed, due);
  }

  lemma RequeueInserts(k: Sink, r: Record, due: nat)
    ensures var i := |k.ready| + Position(k.delayed, due);
      i <= |Queue(k)| && Queue(Requeue(k, r, due)) == Queue(k)[..i] + [r] + Queue(k)[i..]
  {
    hide Records;
    var n := Position(k.delayed, due);
    RecordsOfInsert(k.delayed, n, Delayed(due, r));
    InsertBehind(k.ready, Records(k.delayed), n, r);
  }

  lemma RecordsOfInsert(ds: seq<Delayed>, n: nat, d: Delayed)
    requires n <= |ds|
    ensures Records(ds[..n] + [d] + ds[n..]) == Records(ds)[..n] + [d.record] + Records(ds)[n..]
  {
  }

  lemma InsertBehind(front: seq<Record>, back: seq<Record>, n: nat, r: Record)
    requires n <= |back|
    ensures front + (back[..n] + [r] + back[n..]) == (front + back)[..|front| + n] + [r] + (front + back)[|front| + n..]
  {
    assert (front + back)[..|front| + n] == front + back[..n];
    assert (front + back)[|front| + n..] == back[n..];
  }

  lemma OwnsAfterRelease(active: map<EventId, Active>, s: SinkId, q: seq<Record>, e: EventId, a: Active)
    requires Owns(active, s, q) && e in active && e !in Waiting(active, s)
    requires a.bytes == active[e].bytes && s !in a.remaining
    ensures Owns(active[e := a], s, q)
  {
    OwnsElsewhere(active, s, q, e, a);
  }

  /** The record goes back to the queue of its sink. */
  lemma RequeueKeepsSink(active: map<EventId, Active>, s: SinkId, k: Sink, k': Sink, r: Record, due: nat)
    requires SinkInv(active, s, k) && r.event in active && s in active[r.event].remaining && s in active[r.event].operations
    requires r.bytes == active[r.event].bytes
    requires k' == k.(inflight := Less(k.inflight, 1), failures := k'.failures, pausedUntil := k'.pausedUntil)
    ensures SinkInv(active[r.event := Landed(active[r.event], s, r.attempt, true)], s, Requeue(k', r, due))
  {
    hide Total, Owns, Queue, Requeue, Sorted;
    var a := active[r.event];
    var a' := Landed(a, s, r.attempt, true);
    TotalUpdate(active, HeldCount(s), r.event, a');
    TotalUpdate(active, HeldBytes(s), r.event, a');
    TotalUpdate(active, FlyingCount(s), r.event, a');
    TotalPick(active, FlyingCount(s), r.event);
    RequeueInserts(k', r, due);
    RequeueKeepsOrder(k', r, due);
    assert Queue(k') == Queue(k) by { QueueOnly(k, k'); }
    OwnsAfterInsert(active, s, Queue(k), |k.ready| + Position(k.delayed, due), r, a');
    RequeueOnly(k', r, due);
  }

  lemma QueueOnly(k: Sink, k': Sink)
    requires k.ready == k'.ready && k.delayed == k'.delayed
    ensures Queue(k) == Queue(k')
  {
  }

  lemma RequeueOnly(k: Sink, r: Record, due: nat)
    ensures Requeue(k, r, due) == k.(delayed := Requeue(k, r, due).delayed)
  {
  }

  /** The record and its room at the sink are gone. */
  lemma ReleaseKeepsSink(b: Bus, s: SinkId, r: Record, k: Sink, failed: bool)
    requires s in b.sinks && SinkInv(b.active, s, b.sinks[s]) && Current(b, s, r) && r.bytes == b.active[r.event].bytes
    requires k == b.sinks[s].(inflight := Less(b.sinks[s].inflight, 1), failures := k.failures, pausedUntil := k.pausedUntil)
    ensures SinkInv(Release(b, s, r, k, failed).active, s, Release(b, s, r, k, failed).sinks[s])
  {
    hide Total, Owns;
    var a := b.active[r.event];
    var a' := Released(a, s, r.attempt, failed);
    TotalUpdate(b.active, HeldCount(s), r.event, a');
    TotalUpdate(b.active, HeldBytes(s), r.event, a');
    TotalUpdate(b.active, FlyingCount(s), r.event, a');
    TotalPick(b.active, HeldCount(s), r.event);
    TotalPick(b.active, HeldBytes(s), r.event);
    TotalPick(b.active, FlyingCount(s), r.event);
    OwnsAfterRelease(b.active, s, Queue(k), r.event, a');
  }

  lemma DropKeepsSink(active: map<EventId, Active>, e: EventId, s: SinkId, k: Sink)
    requires e in active && active[e].remaining == {} && active[e].operations == map[] && SinkInv(active, s, k)
    ensures SinkInv(active - {e}, s, k)
  {
    hide Total, Distinct;
    TotalPick(active, HeldCount(s), e);
    TotalPick(active, HeldBytes(s), e);
    TotalPick(active, FlyingCount(s), e);
    assert Waiting(active - {e}, s) == Waiting(active, s);
    forall r | r in Queue(k) ensures r.event in active - {e} {
      assert r.event in Events(Queue(k));
    }
  }

  lemma DropKeepsTenants(b: Bus, e: EventId)
    requires TenantsInv(b) && e in b.active
    ensures TenantsInv(Drop(b, e))
  {
    hide Total;
    var b', a := Drop(b, e), b.active[e];
    forall t ensures TenantInv(b', t) {
      assert TenantInv(b, t);
      TotalPick(b.active, TenantCount(t), e);
      TotalPick(b.active, TenantBytes(t), e);
      if Total(b'.active, TenantCount(t)) == 0 { NoTenantNoBytes(b'.active, t); }
    }
  }

  lemma NoTenantNoBytes(active: map<EventId, Active>, t: TenantId)
    requires Total(active, TenantCount(t)) == 0
    ensures Total(active, TenantBytes(t)) == 0
  {
    hide Total;
    TotalIsZero(active, TenantCount(t));
    TotalIsZero(active, TenantBytes(t));
    forall e | e in active ensures TenantBytes(t)(active[e]) == 0 {
      assert TenantCount(t)(active[e]) == 0;
    }
  }

  lemma DropKeepsCounts(b: Bus, e: EventId)
    requires e in b.active && b.active[e].required == {} && Counts(b)
    ensures Counts(Drop(b, e))
  {
    hide Total;
    TotalPick(b.active, RequiredWeight(), e);
    TotalPick(b.active, BytesWeight(), e);
    assert |b.active - {e}| <= |b.active| by { assert b.active.Keys == (b.active - {e}).Keys + {e}; }
  }

  lemma DropKeepsInv(b: Bus, e: EventId)
    requires e in b.active && b.active[e].remaining == {} == b.active[e].required && b.active[e].operations == map[]
    requires Counts(b) && SinksInv(b) && TenantsInv(b)
    requires forall d :: d in b.active && d != e ==> ActiveInv(b.sinks, b.nextOperation, b.active[d])
    ensures Inv(Drop(b, e))
    ensures Pending(Drop(b, e).active) == Pending(b.active)
  {
    hide SinkInv, TenantsInv, Counts, ActiveInv;
    var b' := Drop(b, e);
    DropKeepsTenants(b, e);
    DropKeepsCounts(b, e);
    forall s | s in b'.sinks ensures SinkInv(b'.active, s, b'.sinks[s]) {
      DropKeepsSink(b.active, e, s, b.sinks[s]);
    }
  }

  lemma RequiredIsPending(b: Bus, e: EventId)
    requires Counts(b) && e in b.active && b.active[e].required != {}
    ensures b.pendingRequired > 0
  {
    hide Total;
    TotalPick(b.active, RequiredWeight(), e);
  }

  lemma ReleasedActive(sinks: map<SinkId, Sink>, sinks': map<SinkId, Sink>, issued: nat, a: Active, s: SinkId, attempt: nat, failed: bool)
    requires ActiveInv(sinks, issued, a) && SameDefinitions(sinks, sinks') && s in a.remaining
    ensures ActiveInv(sinks', issued, Landed(a, s, attempt, failed))
    ensures var a' := Released(a, s, attempt, failed);
      && (a'.remaining != {} ==> ActiveInv(sinks', issued, a'))
      && (a'.remaining == {} ==> a'.required == {} && a'.operations == map[])
  {
    ActiveInvCarries(sinks, sinks', issued, issued, a);
    var a' := Released(a, s, attempt, failed);
    assert a'.required == (set x | x in a'.remaining && sinks'[x].def.mode == ConfirmedRequired);
    if a'.remaining == {} {
      assert a'.operations.Keys == {};
    }
  }

  lemma PendingAfterRelease(active: map<EventId, Active>, e: EventId, s: SinkId, attempt: nat, failed: bool)
    requires e in active
    ensures Pending(active[e := Released(active[e], s, attempt, failed)]) == Pending(active) - {(e, s)}
  {
  }

  lemma ReleaseTouches(b: Bus, s: SinkId, r: Record, k: Sink, failed: bool)
    requires Counts(b) && s in b.sinks && r.event in b.active && k.def == b.sinks[s].def
    ensures Touches(b, Release(b, s, r, k, failed), s, r.event, Released(b.active[r.event], s, r.attempt, failed))
  {
    hide Counts;
    var a, a' := b.active[r.event], Released(b.active[r.event], s, r.attempt, failed);
    if s in a.required {
      RequiredIsPending(b, r.event);
      assert a.required == a'.required + {s};
    } else {
      assert a.required == a'.required;
    }
    assert SameElsewhere(a, a', s);
  }

  lemma ReleaseKeepsInv(b: Bus, s: SinkId, r: Record, k: Sink, failed: bool)
    requires Inv(b) && s in b.sinks && Current(b, s, r) && r.bytes == b.active[r.event].bytes
    requires k == b.sinks[s].(inflight := Less(b.sinks[s].inflight, 1), failures := k.failures, pausedUntil := k.pausedUntil)
    ensures Inv(Sweep(Release(b, s, r, k, failed), r.event))
    ensures Pending(Sweep(Release(b, s, r, k, failed), r.event).active) == Pending(b.active) - {(r.event, s)}
  {
    hide SinkInv, TenantsInv, Counts, ActiveInv, Drop, Touches;
    var b1, a := Release(b, s, r, k, failed), b.active[r.event];
    ReleaseKeepsSink(b, s, r, k, failed);
    ReleaseTouches(b, s, r, k, failed);
    PendingAfterRelease(b.active, r.event, s, r.attempt, failed);
    TouchKeepsInv(b, b1, s, r.event, Released(a, s, r.attempt, failed));
    ReleasedActive(b.sinks, b1.sinks, b.nextOperation, a, s, r.attempt, failed);
    if b1.active[r.event].remaining == {} {
      forall d | d in b1.active && d != r.event ensures ActiveInv(b1.sinks, b1.nextOperation, b1.active[d]) {
        ActiveInvCarries(b.sinks, b1.sinks, b.nextOperation, b.nextOperation, b.active[d]);
      }
      DropKeepsInv(b1, r.event);
    }
  }

  /** A delivery that failed goes back into the due order of its sink, and nothing owed changes. */
  lemma ReturnedKeepsInv(b: Bus, s: SinkId, r: Record, k: Sink, due: nat)
    requires Inv(b) && s in b.sinks && r.event in b.active && r.bytes == b.active[r.event].bytes
    requires s in b.active[r.event].remaining && s in b.active[r.event].operations
    requires k == b.sinks[s].(inflight := Less(b.sinks[s].inflight, 1), failures := k.failures, pausedUntil := k.pausedUntil)
    ensures var b' := Returned(b, s, r, k, due);
      && Inv(b') && Pending(b'.active) == Pending(b.active)
      && SameConfiguration(b, b') && b'.nextOperation == b.nextOperation
  {
    hide SinkInv, TenantsInv, Counts, ActiveInv, Requeue, Total;
    var b', a := Returned(b, s, r, k, due), b.active[r.event];
    RequeueKeepsSink(b.active, s, b.sinks[s], k, r, due);
    RequeueOnly(k, r, due);
    TouchKeepsInv(b, b', s, r.event, Landed(a, s, r.attempt, true));
    ReleasedActive(b.sinks, b'.sinks, b.nextOperation, a, s, r.attempt, true);
  }

  /** A required responsibility leaves the bus only by an acknowledgement of its current delivery. */
  lemma CompleteKeepsInv(b: Bus, s: SinkId, r: Record, verdict: Verdict, young: bool, due: nat, until: nat)
    requires Inv(b) && s in b.sinks
    requires Current(b, s, r) ==> r.bytes == b.active[r.event].bytes
    ensures var b' := Complete(b, s, r, verdict, young, due, until);
      && Inv(b')
      && Pending(b'.active) == Pending(b.active) - (if Current(b, s, r) && verdict == Ack then {(r.event, s)} else {})
      && SameConfiguration(b, b') && b'.nextOperation == b.nextOperation
  {
    hide ActivesInv, SinksInv, TenantsInv, Counts, Release, Sweep, Returned, Total;
    if Current(b, s, r) {
      var k, again := Settle(b.sinks[s], verdict, until), r.(attempt := Bumped(r.attempt));
      if s in b.active[r.event].required { RequiredIsPending(b, r.event); }
      OnlyRequiredPends(b, s, r.event);
      if Retries(k, again, verdict, young) || (verdict != Ack && k.def.mode == ConfirmedRequired) {
        ReturnedKeepsInv(b, s, again, k, due);
      } else {
        ReleaseKeepsInv(b, s, again, k, verdict != Ack);
        ReleaseOnly(b, s, again, k, verdict != Ack);
      }
    }
  }

  lemma OnlyRequiredPends(b: Bus, s: SinkId, e: EventId)
    requires ActivesInv(b) && s in b.sinks
    ensures (e, s) in Pending(b.active) ==> b.sinks[s].def.mode == ConfirmedRequired
  {
  }

  lemma ReleaseOnly(b: Bus, s: SinkId, r: Record, k: Sink, failed: bool)
    requires s in b.sinks && r.event in b.active && k.def == b.sinks[s].def
    ensures var b' := Sweep(Release(b, s, r, k, failed), r.event);
      SameConfiguration(b, b') && b'.nextOperation == b.nextOperation
  {
  }

  // ---- ceilings ----

  /** What the compiled routes of a tenant can be. */
  predicate Routed(b: Bus, targets: set<SinkId>) {
    targets <= b.sinks.Keys && |targets| <= b.limits.maxFanout
  }

  lemma SubsetIsSmaller<T>(x: set<T>, y: set<T>)
    requires x <= y
    ensures |x| <= |y|
  {
    assert y == x + (y - x);
  }

  lemma OneIsBounded(l: Limits, active: map<EventId, Active>, e: EventId, a: Active)
    requires AllBounded(l, active)
    ensures AllBounded(l, active - {e})
    ensures e in active ==> Bounded(l, active[e])
    ensures Bounded(l, a) ==> AllBounded(l, active[e := a]) && AllBounded(l, active[e := a] - {e})
  {
  }

  lemma NewIsBounded(b: Bus, targets: set<SinkId>, a: Active)
    requires |b.sinks.Keys| <= b.limits.maxSinks && Routed(b, targets) && a.remaining <= targets && a.attempts == map[]
    ensures Bounded(b.limits, a)
  {
    SubsetIsSmaller(a.remaining, targets);
    SubsetIsSmaller(a.attempts.Keys + a.remaining, b.sinks.Keys);
  }

  lemma PublishKeepsCeilings(b: Bus, e: EventId, tenant: TenantId, bytes: nat, targets: set<SinkId>)
    requires Ceilings(b) && Routed(b, targets)
    ensures Ceilings(Publish(b, e, tenant, bytes, targets).0)
  {
    hide Insert, AllBounded, Bounded, RequiredOf, BacklogOf;
    var (b', r) := Publish(b, e, tenant, bytes, targets);
    if r == Accepted {
      var admitted := set s | s in targets && HasRoom(b.sinks[s], bytes);
      var a := Active(tenant, bytes, admitted, RequiredOf(b, admitted), map[], map[]);
      InsertOnly(b, e, a);
      NewIsBounded(b, targets, a);
      OneIsBounded(b.limits, b.active, e, a);
    }
  }

  lemma TakeKeepsCeilings(b: Bus, s: SinkId, now: nat)
    requires Ceilings(b) && s in b.sinks
    ensures Ceilings(Take(b, s, now).0)
  {
    hide Promote;
    var b' := Take(b, s, now).0;
    assert b'.sinks.Keys == b.sinks.Keys;
  }

  /** Attempts are remembered of sinks that are owed, so a history never outgrows the sinks it started with. */
  lemma LandedIsBounded(l: Limits, a: Active, s: SinkId, attempt: nat, failed: bool)
    requires Bounded(l, a) && s in a.remaining
    ensures Bounded(l, Landed(a, s, attempt, failed)) && Bounded(l, Released(a, s, attempt, failed))
  {
    var was, landed, released := a.attempts.Keys + a.remaining, Landed(a, s, attempt, failed), Released(a, s, attempt, failed);
    SubsetIsSmaller(landed.attempts.Keys + landed.remaining, was);
    SubsetIsSmaller(released.attempts.Keys + released.remaining, was);
    SubsetIsSmaller(released.remaining, a.remaining);
  }

  lemma NotCurrent(b: Bus, s: SinkId, r: Record, verdict: Verdict, young: bool, due: nat, until: nat)
    requires s in b.sinks && !Current(b, s, r)
    ensures Complete(b, s, r, verdict, young, due, until) == b
  {
  }

  /** A completion changes the one event it is for, or drops it. */
  lemma CompletedActive(b: Bus, s: SinkId, r: Record, verdict: Verdict, young: bool, due: nat, until: nat)
    requires s in b.sinks && Current(b, s, r)
    ensures var b', e, a := Complete(b, s, r, verdict, young, due, until), r.event, b.active[r.event];
      var landed := b.active[e := Landed(a, s, Bumped(r.attempt), true)];
      var released := b.active[e := Released(a, s, Bumped(r.attempt), verdict != Ack)];
      && b'.limits == b.limits && b'.sinks.Keys == b.sinks.Keys
      && (b'.active == b.active || b'.active == landed || b'.active == released || b'.active == released - {e})
  {
    hide Settle, Landed, Released, Retries, Returned, Release, Sweep;
    var k, again := Settle(b.sinks[s], verdict, until), r.(attempt := Bumped(r.attempt));
    ReturnedActive(b, s, again, k, due);
    SweptActive(b, s, again, k, verdict != Ack);
  }

  lemma ReturnedActive(b: Bus, s: SinkId, r: Record, k: Sink, due: nat)
    requires s in b.sinks && r.event in b.active
    ensures var b' := Returned(b, s, r, k, due);
      && b'.limits == b.limits && b'.sinks.Keys == b.sinks.Keys
      && b'.active == b.active[r.event := Landed(b.active[r.event], s, r.attempt, true)]
  {
    hide Requeue, Landed;
  }

  lemma SweptActive(b: Bus, s: SinkId, r: Record, k: Sink, failed: bool)
    requires s in b.sinks && r.event in b.active
    ensures var b' := Sweep(Release(b, s, r, k, failed), r.event);
      var released := b.active[r.event := Released(b.active[r.event], s, r.attempt, failed)];
      && b'.limits == b.limits && b'.sinks.Keys == b.sinks.Keys
      && (b'.active == released || b'.active == released - {r.event})
  {
    hide Released, BacklogOf;
  }

  lemma CompleteKeepsCeilings(b: Bus, s: SinkId, r: Record, verdict: Verdict, young: bool, due: nat, until: nat)
    requires Ceilings(b) && s in b.sinks
    ensures Ceilings(Complete(b, s, r, verdict, young, due, until))
  {
    if Current(b, s, r) {
      hide Complete, Bounded, AllBounded, Landed, Released;
      CompletedActive(b, s, r, verdict, young, due, until);
      var a, attempt, e := b.active[r.event], Bumped(r.attempt), r.event;
      OneIsBounded(b.limits, b.active, e, a);
      LandedIsBounded(b.limits, a, s, attempt, true);
      LandedIsBounded(b.limits, a, s, attempt, verdict != Ack);
      OneIsBounded(b.limits, b.active, e, Landed(a, s, attempt, true));
      OneIsBounded(b.limits, b.active, e, Released(a, s, attempt, verdict != Ack));
    }
  }

  // ---- a bus whose sinks acknowledge runs empty ----

  function RemainingWeight(): Active -> nat { (a: Active) => |a.remaining| }

  /** A sink that is owed an event has it in flight or queued. */
  lemma OwedIsSomewhere(b: Bus, e: EventId, s: SinkId)
    requires Inv(b) && e in b.active && s in b.active[e].remaining
    ensures s in b.sinks && (b.sinks[s].inflight > 0 || Queue(b.sinks[s]) != [])
  {
    hide Total, Owns, Queue, Counts, TenantsInv;
    assert ActiveInv(b.sinks, b.nextOperation, b.active[e]);
    assert SinkInv(b.active, s, b.sinks[s]);
    TotalPick(b.active, HeldCount(s), e);
  }

  lemma InflightIsSomeone(b: Bus, s: SinkId) returns (e: EventId)
    requires Inv(b) && s in b.sinks && b.sinks[s].inflight > 0
    ensures e in b.active && s in b.active[e].operations && s in b.active[e].remaining
  {
    hide Total, Owns, Queue, Counts, TenantsInv;
    assert SinkInv(b.active, s, b.sinks[s]);
    TotalIsZero(b.active, FlyingCount(s));
    e :| e in b.active && FlyingCount(s)(b.active[e]) != 0;
    assert ActiveInv(b.sinks, b.nextOperation, b.active[e]);
  }

  /** A time at which the sink is not paused and its earliest delayed record is due. */
  function Ripe(k: Sink): nat {
    Max(if k.pausedUntil.Some? then k.pausedUntil.value else 0, if k.delayed != [] then k.delayed[0].due else 0)
  }

  lemma TakeSucceeds(b: Bus, s: SinkId)
    requires s in b.sinks && b.sinks[s].inflight == 0 && Queue(b.sinks[s]) != []
    ensures Take(b, s, Ripe(b.sinks[s])).1.Some?
  {
    var k := b.sinks[s];
    assert k.ready == [] ==> k.delayed != [];
  }

  lemma TakeKeepsLoad(b: Bus, s: SinkId, now: nat)
    requires s in b.sinks
    ensures Total(Take(b, s, now).0.active, RemainingWeight()) == Total(b.active, RemainingWeight())
  {
    hide Total, Promote;
    var (b', r) := Take(b, s, now);
    if r.Some? && r.value.event in b.active {
      TotalUpdate(b.active, RemainingWeight(), r.value.event, b'.active[r.value.event]);
    }
  }

  /** An acknowledgement of a current delivery takes one responsibility off the bus. */
  lemma AckLightens(b: Bus, s: SinkId, r: Record, young: bool, due: nat, until: nat)
    requires Inv(b) && s in b.sinks && Current(b, s, r)
    ensures Total(Complete(b, s, r, Ack, young, due, until).active, RemainingWeight()) < Total(b.active, RemainingWeight())
  {
    hide Total, Release, Sweep, Counts, SinksInv, TenantsInv, ActivesInv, Settle;
    var k, again := Settle(b.sinks[s], Ack, until), r.(attempt := Bumped(r.attempt));
    if s in b.active[r.event].required { RequiredIsPending(b, r.event); }
    SweptIsLighter(b, s, again, k);
  }

  lemma SweptIsLighter(b: Bus, s: SinkId, r: Record, k: Sink)
    requires s in b.sinks && r.event in b.active && s in b.active[r.event].remaining
    ensures Total(Sweep(Release(b, s, r, k, false), r.event).active, RemainingWeight()) < Total(b.active, RemainingWeight())
  {
    hide Total, Release, Sweep;
    var a, w := b.active[r.event], RemainingWeight();
    var released := Released(a, s, r.attempt, false);
    SweptActive(b, s, r, k, false);
    TotalUpdate(b.active, w, r.event, released);
    TotalPick(b.active[r.event := released], w, r.event);
    assert a.remaining == released.remaining + {s};
  }
}
