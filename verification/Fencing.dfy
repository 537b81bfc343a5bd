/** Deliveries are fenced: each one handed out is completed once, however often and however late workers report. */
module Fencing {
  import opened Bytes
  import opened EventBus
  import opened Spool
  import opened Shutdown

  /** The delivery is over: its operation number was issued and is not in flight. */
  predicate Over(b: Bus, s: SinkId, r: Record) {
    && r.operation <= b.nextOperation
    && !(r.event in b.active && s in b.active[r.event].operations && b.active[r.event].operations[s] == r.operation)
  }

  lemma OverWithFewer(b: Bus, b': Bus, s: SinkId, r: Record)
    requires Over(b, s, r) && b'.nextOperation == b.nextOperation && NoneTakenOff(b.active, b'.active)
    ensures Over(b', s, r)
  {
  }

  lemma PublishKeepsOver(b: Bus, e: EventId, tenant: TenantId, bytes: nat, targets: set<SinkId>, s: SinkId, r: Record)
    requires Inv(b) && targets <= b.sinks.Keys && Over(b, s, r)
    ensures Over(Publish(b, e, tenant, bytes, targets).0, s, r)
  {
    hide Inv, Publish, Pending, RequiredOf;
    PublishKeepsInv(b, e, tenant, bytes, targets);
    var (b', answer) := Publish(b, e, tenant, bytes, targets);
    if answer == Accepted {
      OthersUntouched(b, b', e);
      OverWithFewer(b, b', s, r);
    }
  }

  lemma TakeKeepsOver(b: Bus, x: SinkId, now: nat, s: SinkId, r: Record)
    requires Inv(b) && x in b.sinks && Over(b, s, r)
    ensures Over(Take(b, x, now).0, s, r)
  {
    hide Inv, Promote, Paused;
  }

  lemma CompleteKeepsOver(b: Bus, x: SinkId, y: Record, verdict: Verdict, young: bool, due: nat, until: nat, s: SinkId, r: Record)
    requires Inv(b) && x in b.sinks && (Current(b, x, y) ==> y.bytes == b.active[y.event].bytes) && Over(b, s, r)
    ensures Over(Complete(b, x, y, verdict, young, due, until), s, r)
  {
    hide Inv, Complete, Pending, Current;
    CompleteKeepsInv(b, x, y, verdict, young, due, until);
    CompletedStaysCurrent(b, x, y, verdict, young, due, until);
    OverWithFewer(b, Complete(b, x, y, verdict, young, due, until), s, r);
  }

  lemma StepKeepsOver(n: Node, step: Step, s: SinkId, r: Record)
    requires NodeInv(n) && Enabled(n, step) && Over(n.bus, s, r)
    ensures Over(Next(n, step).bus, s, r)
  {
    hide Inv, Publish, Take, Complete, Pending, AfterTask, Current, RequiredOf, Over;
    hide PhaseInv, MqttInv, HandedInv, Covered, Conserved, Durable, Recoverable, NoPhantom, Spoolable;
    match step
    case PublishStep(e, tenant, bytes, targets) => PublishKeepsOver(n.bus, e, tenant, bytes, targets, s, r);
    case TakeStep(x, now) => TakeKeepsOver(n.bus, x, now, s, r);
    case CompleteStep(x, y, verdict, young, due, until) =>
      if Current(n.bus, x, y) { HandedIsGenuine(n.bus, n.handed, x, y); }
      CompleteKeepsOver(n.bus, x, y, verdict, young, due, until, s, r);
    case _ => TaskKeepsOver(n, step, s, r);
  }

  lemma TaskKeepsOver(n: Node, step: Step, s: SinkId, r: Record)
    requires Enabled(n, step) && !OnBus(step) && Over(n.bus, s, r)
    ensures Over(AfterTask(n, step).bus, s, r)
  {
    hide Snapshot, Spoolable, Replace, Cleaned;
    TaskOnly(n, step);
    match step
    case MqttStep(outcome) => match outcome { case Stored => case Structural => case Transient => }
    case SpoolStep(outcome) => match outcome { case Written => case NotWritten => case WrittenThenFailed => }
    case RemoveStep(outcome) => match outcome { case Removed => case NotRemoved => case RemovedThenFailed => }
    case _ =>
  }

  lemma {:induction false} OverForGood(n: Node, steps: seq<Step>, end: Node, s: SinkId, r: Record)
    requires NodeInv(n) && Run(n, steps, end) && Over(n.bus, s, r)
    ensures NodeInv(end) && Over(end.bus, s, r)
    decreases |steps|
  {
    hide NodeInv, Next, Enabled, Over;
    if steps == [] {
    } else {
      StepKeepsOver(n, steps[0], s, r);
      StepKeeps(n, steps[0]);
      OverForGood(Next(n, steps[0]), steps[1..], end, s, r);
    }
  }

  /** A completion ends the delivery it reports, whatever the verdict. */
  lemma CompletedIsOver(n: Node, s: SinkId, r: Record, verdict: Verdict, young: bool, due: nat, until: nat)
    requires NodeInv(n) && s in n.bus.sinks && (s, r) in n.handed
    ensures Over(Complete(n.bus, s, r, verdict, young, due, until), s, r)
  {
    hide Inv, Complete, Pending, Landed, Released;
    hide PhaseInv, MqttInv, Covered, Conserved, Durable, Recoverable, NoPhantom, Spoolable;
    if Current(n.bus, s, r) { HandedIsGenuine(n.bus, n.handed, s, r); }
    CompleteKeepsInv(n.bus, s, r, verdict, young, due, until);
    assert r.operation <= n.bus.nextOperation by { HandedWasIssued(n.bus, n.handed, s, r); }
    if Current(n.bus, s, r) {
      Lands(n.bus, s, r, verdict, young, due, until);
    } else {
      NotCurrent(n.bus, s, r, verdict, young, due, until);
      if r.event in n.bus.active && s in n.bus.active[r.event].operations { InFlightIsOwed(n.bus, s, r); }
    }
  }

  lemma HandedWasIssued(b: Bus, handed: set<(SinkId, Record)>, s: SinkId, r: Record)
    requires HandedInv(b, handed) && (s, r) in handed
    ensures r.operation <= b.nextOperation
  {
    var p := (s, r);
    assert p in handed && p.1 == r;
  }

  lemma InFlightIsOwed(b: Bus, s: SinkId, r: Record)
    requires Inv(b) && r.event in b.active && s in b.active[r.event].operations
    ensures s in b.active[r.event].remaining
  {
    hide Counts, SinksInv, TenantsInv;
    assert ActiveInv(b.sinks, b.nextOperation, b.active[r.event]);
  }

  lemma Lands(b: Bus, s: SinkId, r: Record, verdict: Verdict, young: bool, due: nat, until: nat)
    requires Inv(b) && s in b.sinks && Current(b, s, r)
    ensures var b' := Complete(b, s, r, verdict, young, due, until);
      r.event in b'.active ==> s !in b'.active[r.event].operations
  {
    hide Counts, SinksInv, TenantsInv, ActivesInv, Settle, Landed, Released, Retries, Returned, Release, Sweep;
    if s in b.active[r.event].required { RequiredIsPending(b, r.event); }
    var k, again := Settle(b.sinks[s], verdict, until), r.(attempt := Bumped(r.attempt));
    ReturnedActive(b, s, again, k, due);
    SweptActive(b, s, again, k, verdict != Ack);
    LandedIsNotCurrent(b.active[r.event], s, again.attempt, true);
    LandedIsNotCurrent(b.active[r.event], s, again.attempt, verdict != Ack);
  }

  /**
   In every run a delivery that was handed out is completed once: any later report on it, by any worker and with any
   verdict, changes nothing, however often the event has been handed out again since.
   */
  lemma CompletedOnce(n: Node, first: Step, steps: seq<Step>, end: Node, again: Step)
    requires NodeInv(n) && first.CompleteStep? && Enabled(n, first) && Run(Next(n, first), steps, end)
    requires again.CompleteStep? && again.sink == first.sink && again.record == first.record && Enabled(end, again)
    ensures Next(end, again) == end
  {
    hide NodeInv, Inv, Complete, Pending, Run, AfterTask;
    var s, r := first.sink, first.record;
    CompletedIsOver(n, s, r, first.verdict, first.young, first.due, first.until);
    StepKeeps(n, first);
    OverForGood(Next(n, first), steps, end, s, r);
    assert !Current(end.bus, s, r);
    NotCurrent(end.bus, s, r, again.verdict, again.young, again.due, again.until);
  }
}
