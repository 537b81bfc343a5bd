/**
 Which shutdowns can still finish: without another acknowledgement, by what the spool can hold; with
 acknowledgements, by draining.
 */
module Finishing {
  import opened Bytes
  import opened EventBus
  import opened Spool
  import opened Shutdown

  // ---- without another acknowledgement ----

  /** Past the point at which owed work is waited for or spooled. */
  predicate Ahead(p: Phase) {
    p.Stopping? || p.Removing? || p.Deciding? || p.Closing? || p.Finished?
  }

  /** Nothing is owed any more, or what is owed fits the spool, or the image already being written does. */
  ghost predicate Ready(n: Node) {
    || Ahead(n.phase)
    || Pending(n.bus.active) == {}
    || Spoolable(n.spool, Snapshot(n.bus))
    || (n.phase.Writing? && Spoolable(n.spool, n.phase.image))
  }

  /** The step by which a co-operating broker and disk take the shutdown further, with nothing delivered. */
  ghost function Forward(n: Node): Step {
    match n.phase
    case Running => QuiesceStep
    case CommittingMqtt => MqttStep(Stored)
    case AwaitingDrain => WaitStep(false)
    case RetryWait => WaitStep(false)
    case Spooling => SnapshotStep
    case Writing(image) => SpoolStep(if Spoolable(n.spool, image) then Written else NotWritten)
    case Stopping(_) => StopStep
    case Removing => RemoveStep(Removed)
    case Deciding => DecideStep
    case _ => FinishStep
  }

  ghost function Distance(n: Node): nat {
    match n.phase
    case Running => 10
    case CommittingMqtt => 9
    case AwaitingDrain => 7
    case RetryWait => 7
    case Spooling => 6
    case Writing(image) => if Spoolable(n.spool, image) then 5 else 8
    case Stopping(_) => 4
    case Removing => 3
    case Deciding => 2
    case Closing => 1
    case _ => 0
  }

  predicate Unfaulted(n: Node) {
    n.mqtt != Faulted && n.phase != Failed
  }

  lemma SnapshotOnly(b: Bus, b': Bus)
    requires b.active == b'.active
    ensures Snapshot(b) == Snapshot(b')
  {
  }

  lemma ForwardIsNearer(n: Node)
    requires PhaseInv(n) && MqttInv(n) && Unfaulted(n) && Ready(n) && n.phase != Finished
    ensures Enabled(n, Forward(n))
    ensures var n' := Next(n, Forward(n));
      && Unfaulted(n') && Ready(n') && Distance(n') < Distance(n)
      && n'.bus.active == n.bus.active && n'.acked == n.acked
  {
    hide Pending, Pairs, DiskPairs, Snapshot, Spoolable, AfterPublish, AfterTake, AfterComplete;
    if Ahead(n.phase) {
    } else {
      hide PhaseInv;
      TaskOnly(n, Forward(n));
      SnapshotOnly(n.bus, Next(n, Forward(n)).bus);
      NothingToSpool(n.bus);
    }
  }

  lemma NothingToSpool(b: Bus)
    ensures Pending(b.active) == {} ==> Snapshot(b) == map[]
  {
    if Snapshot(b) != map[] {
      var e :| e in Snapshot(b);
      var s :| s in b.active[e].required;
      assert (e, s) in Pending(b.active);
    }
  }

  lemma {:induction false} CanFinish(n: Node) returns (steps: seq<Step>, end: Node)
    requires NodeInv(n) && Unfaulted(n) && Ready(n)
    ensures Run(n, steps, end) && end.phase == Finished
    ensures end.bus.active == n.bus.active && end.acked == n.acked
    decreases Distance(n)
  {
    hide Enabled, Next, Run, PhaseInv, MqttInv, Inv, Recoverable, Ready, Distance, Covered, HandedInv;
    if n.phase == Finished {
      steps, end := [], n;
      Stays(n);
    } else {
      ForwardIsNearer(n);
      StepKeeps(n, Forward(n));
      var more;
      more, end := CanFinish(Next(n, Forward(n)));
      OneStepMore(n, Forward(n), more, end);
      steps := [Forward(n)] + more;
    }
  }

  lemma {:induction false} AckedGrows(n: Node, steps: seq<Step>, end: Node)
    requires Run(n, steps, end)
    ensures n.acked <= end.acked
    decreases |steps|
  {
    hide Enabled, Next;
    if steps == [] {
    } else {
      BooksGrow(n, steps[0]);
      AckedGrows(Next(n, steps[0]), steps[1..], end);
    }
  }

  /** Without an acknowledgement, what is owed stays owed and its image can only grow. */
  lemma OwedGrows(n: Node, step: Step)
    requires NodeInv(n) && Enabled(n, step) && Next(n, step).acked == n.acked
    ensures Pending(n.bus.active) <= Pending(Next(n, step).bus.active)
    ensures Grown(Snapshot(n.bus), Snapshot(Next(n, step).bus))
  {
    hide Inv, Publish, Take, Complete, Snapshot, Pending, Pairs, Recoverable, Covered, PhaseInv, NoPhantom, Spoolable, Current;
    hide AfterTask, Grown, DiskPairs, MqttInv;
    var n' := Next(n, step);
    match step
    case PublishStep(e, tenant, bytes, targets) =>
      PublishKeepsInv(n.bus, e, tenant, bytes, targets);
      PublishGrows(n.bus, e, tenant, bytes, targets);
      GrownIsReflexive(Snapshot(n.bus));
    case TakeStep(s, now) =>
      TakeKeepsInv(n.bus, s, now);
      TakeKeepsSnapshot(n.bus, s, now);
      GrownIsReflexive(Snapshot(n.bus));
    case CompleteStep(s, r, verdict, young, due, until) =>
      if Current(n.bus, s, r) { HandedIsGenuine(n.bus, n.handed, s, r); }
      CompleteAccounts(n, s, r, verdict, young, due, until);
      CompleteGrows(n.bus, s, r, verdict, young, due, until);
    case _ =>
      TaskOnly(n, step);
      SnapshotOnly(n.bus, n'.bus);
      GrownIsReflexive(Snapshot(n.bus));
  }

  lemma GrownIsReflexive(x: Image)
    ensures Grown(x, x)
  {
  }

  /** Owing work that does not fit, the shutdown does not get past spooling. */
  lemma NotReadyStays(n: Node, step: Step)
    requires NodeInv(n) && Encodes(n.spool) && Enabled(n, step) && Next(n, step).acked == n.acked && !Ready(n)
    ensures !Ready(Next(n, step)) && Next(n, step).spool == n.spool
  {
    hide NodeInv, Pending, Snapshot, Spoolable, Grown, Encodes, Next, Enabled;
    var n' := Next(n, step);
    OwedGrows(n, step);
    SpoolIsFixed(n, step);
    NotAheadStays(n, step);
    if Spoolable(n.spool, Snapshot(n'.bus)) {
      GrownFitsNoBetter(n.spool, Snapshot(n.bus), Snapshot(n'.bus));
    }
  }

  lemma SpoolIsFixed(n: Node, step: Step)
    requires Enabled(n, step)
    ensures Next(n, step).spool == n.spool
  {
    hide AfterTask, Publish, Take, Complete, Pending, Enabled;
    if !OnBus(step) { TaskOnly(n, step); }
  }

  lemma NotAheadStays(n: Node, step: Step)
    requires NodeInv(n) && Enabled(n, step) && !Ready(n)
    ensures var n' := Next(n, step);
      !Ahead(n'.phase) && (n'.phase.Writing? ==> !Spoolable(n.spool, n'.phase.image))
  {
    hide NodeInv, Pending, Snapshot, Spoolable, Enabled, AfterPublish, AfterTake, AfterComplete, AfterTask;
    if OnBus(step) {
      PhaseIsFixed(n, step);
    } else {
      CountsOf(n);
      NothingPending(n.bus);
      SnapshotOfNothing(n.bus);
      NotDecided(n);
      TaskGetsAhead(n, step);
      TaskOnDisk(n, step);
    }
  }

  lemma CountsOf(n: Node)
    requires NodeInv(n)
    ensures Counts(n.bus)
  {
  }

  /** A node that has failed owes nothing. */
  lemma NotDecided(n: Node)
    requires NodeInv(n) && !Ready(n)
    ensures NotAhead(n.phase)
  {
    hide Pending, Snapshot, Spoolable, Inv, HandedInv, Covered, Conserved, Durable, Recoverable, NoPhantom, DiskPairs;
  }

  lemma PhaseIsFixed(n: Node, step: Step)
    requires Enabled(n, step) && OnBus(step)
    ensures Next(n, step).phase == n.phase
  {
    hide AfterTask, Publish, Take, Complete, Pending;
  }

  lemma {:induction false} NeverReady(n: Node, steps: seq<Step>, end: Node)
    requires NodeInv(n) && Encodes(n.spool) && !Ready(n) && Run(n, steps, end) && end.acked == n.acked
    ensures end.phase != Finished
    decreases |steps|
  {
    hide Enabled, Next, NodeInv, Encodes;
    if steps == [] {
    } else {
      var n' := Next(n, steps[0]);
      AckedGrows(n', steps[1..], end);
      AckedGrows(n, steps[..1], n') by { Stays(n'); assert steps[..1][1..] == []; }
      assert n'.acked == n.acked;
      NotReadyStays(n, steps[0]);
      StepKeeps(n, steps[0]);
      NeverReady(n', steps[1..], end);
    }
  }

  /** A structural fault and a failed removal are for good. */
  lemma {:induction false} FaultedStays(n: Node, steps: seq<Step>, end: Node)
    requires NodeInv(n) && Run(n, steps, end) && !Unfaulted(n)
    ensures end.phase != Finished
    decreases |steps|
  {
    hide Enabled, Next, Inv, Recoverable, Pending, Pairs, DiskPairs, Covered, HandedInv;
    if steps == [] {
    } else {
      FaultedOneStep(n, steps[0]);
      StepKeeps(n, steps[0]);
      FaultedStays(Next(n, steps[0]), steps[1..], end);
    }
  }

  lemma FaultedOneStep(n: Node, step: Step)
    requires MqttInv(n) && PhaseInv(n) && Enabled(n, step) && !Unfaulted(n)
    ensures !Unfaulted(Next(n, step))
  {
    hide Pending, Pairs, DiskPairs, Publish, Take, Complete, Snapshot, Spoolable;
  }

  /**
   From any point of any run, some continuation finishes without another acknowledgement if and only if neither fault
   has happened and nothing is owed, or what is owed fits the spool, or the image already being written does.
   */
  lemma FinishesWithoutAcks(n: Node)
    requires NodeInv(n) && Encodes(n.spool)
    ensures (exists steps, end :: Run(n, steps, end) && end.phase == Finished && end.acked == n.acked)
        <==> Unfaulted(n) && Ready(n)
  {
    hide Run, NodeInv, Ready, Encodes;
    if Unfaulted(n) && Ready(n) {
      var steps, end := CanFinish(n);
    } else {
      forall steps, end | Run(n, steps, end) && end.acked == n.acked ensures end.phase != Finished {
        if Unfaulted(n) { NeverReady(n, steps, end); } else { FaultedStays(n, steps, end); }
      }
    }
  }

  /** More events than the spool takes records: no continuation without an acknowledgement finishes. */
  lemma TooManyForTheSpool(n: Node, steps: seq<Step>, end: Node)
    requires NodeInv(n) && Encodes(n.spool) && n.phase == Running && |Snapshot(n.bus)| > n.spool.maxRecords
    requires Run(n, steps, end) && end.acked == n.acked
    ensures end.phase != Finished
  {
    hide NodeInv, Run, Snapshot, Pending, Encodes, ImageBytes;
    NothingToSpool(n.bus);
    NeverReady(n, steps, end);
  }

  /** Such a node: a spool of one record, and two publications from a fresh start. */
  lemma TwoEventsOneRecord(f: Bus, spool: SpoolLimits, d: EventId, e: EventId, tenant: TenantId, bytes: nat, targets: set<SinkId>)
    returns (n: Node, steps: seq<Step>, full: Node)
    requires Fresh(f) && f.accepting && Encodes(spool) && spool.maxRecords == 1 && Routed(f, targets) && RequiredOf(f, targets) != {}
    requires Publish(f, d, tenant, bytes, targets).1 == Accepted
    requires Publish(Publish(f, d, tenant, bytes, targets).0, e, tenant, bytes, targets).1 == Accepted
    ensures Starts(n) && Run(n, steps, full)
    ensures forall more, end :: Run(full, more, end) && end.acked == full.acked ==> end.phase != Finished
  {
    hide Inv, Pending, Publish, RequiredOf, Run, Starts, Fresh, Enabled, Next, Snapshot, NodeInv, Encodes, Routed;
    FreshInv(f);
    FreshStarts(f, spool);
    n := StartNode(f, None, spool);
    StartIsSound(n);
    var one := PublishOne(n, d, tenant, bytes, targets);
    var first := PublishStep(d, tenant, bytes, targets);
    full := PublishOne(one, e, tenant, bytes, targets);
    var second := PublishStep(e, tenant, bytes, targets);
    Stays(full);
    OneStepMore(one, second, [], full);
    OneStepMore(n, first, [second] + [], full);
    steps := [first] + ([second] + []);
    assert |Snapshot(full.bus)| >= 2 by {
      assert {d, e} <= Snapshot(full.bus).Keys;
      SubsetIsSmaller({d, e}, Snapshot(full.bus).Keys);
      assert |Snapshot(full.bus)| == |Snapshot(full.bus).Keys|;
    }
    forall more, end | Run(full, more, end) && end.acked == full.acked ensures end.phase != Finished {
      TooManyForTheSpool(full, more, end);
    }
  }

  lemma PublishOne(n: Node, e: EventId, tenant: TenantId, bytes: nat, targets: set<SinkId>) returns (n': Node)
    requires NodeInv(n) && n.phase == Running && Routed(n.bus, targets) && RequiredOf(n.bus, targets) != {}
    requires Publish(n.bus, e, tenant, bytes, targets).1 == Accepted
    ensures Enabled(n, PublishStep(e, tenant, bytes, targets)) && n' == Next(n, PublishStep(e, tenant, bytes, targets))
    ensures NodeInv(n') && n'.phase == Running && n'.spool == n.spool && e !in n.bus.active
    ensures n'.bus == Publish(n.bus, e, tenant, bytes, targets).0
    ensures Routed(n'.bus, targets) && RequiredOf(n'.bus, targets) == RequiredOf(n.bus, targets)
    ensures Snapshot(n'.bus).Keys >= Snapshot(n.bus).Keys + {e} && Snapshot(n.bus).Keys <= n.bus.active.Keys
  {
    hide Publish, Next, Enabled, PhaseInv, MqttInv, HandedInv, Covered, Recoverable, Conserved, SinksInv, TenantsInv, Counts;
    n' := PublishedNext(n, e, tenant, bytes, targets);
    StepKeeps(n, PublishStep(e, tenant, bytes, targets));
    PublishKeepsInv(n.bus, e, tenant, bytes, targets);
    PublishGrows(n.bus, e, tenant, bytes, targets);
    var s :| s in RequiredOf(n.bus, targets);
    assert (e, s) in Pending(n'.bus.active);
  }

  // ---- by draining ----

  /** Acknowledging a delivery in flight takes one responsibility off the bus. */
  lemma AckOne(n: Node, s: SinkId, r: Record) returns (n': Node)
    requires NodeInv(n) && n.workers && s in n.bus.sinks && (s, r) in n.handed && Current(n.bus, s, r)
    ensures var step := CompleteStep(s, r, Ack, true, 0, 0); Enabled(n, step) && n' == Next(n, step)
    ensures NodeInv(n') && n' == n.(bus := n'.bus, acked := n'.acked, owed := n'.owed)
    ensures Total(n'.bus.active, RemainingWeight()) < Total(n.bus.active, RemainingWeight())
  {
    hide Total, NodeInv, Current, Next, Enabled, Complete;
    var step := CompleteStep(s, r, Ack, true, 0, 0);
    n' := AckNext(n, s, r);
    StepKeeps(n, step);
    assert Inv(n.bus) by { BusOf(n); }
    AckLightens(n.bus, s, r, true, 0, 0);
  }

  lemma AckNext(n: Node, s: SinkId, r: Record) returns (n': Node)
    requires n.workers && s in n.bus.sinks && (s, r) in n.handed
    ensures var step := CompleteStep(s, r, Ack, true, 0, 0); Enabled(n, step) && n' == Next(n, step)
    ensures n' == n.(bus := n'.bus, acked := n'.acked, owed := n'.owed) && n'.bus == Complete(n.bus, s, r, Ack, true, 0, 0)
  {
    hide Complete, Current, Pending, AfterTask;
    n' := Next(n, CompleteStep(s, r, Ack, true, 0, 0));
  }

  lemma BusOf(n: Node)
    requires NodeInv(n)
    ensures Inv(n.bus)
  {
  }

  lemma TakeOne(n: Node, s: SinkId, now: nat) returns (n': Node, r: Record)
    requires NodeInv(n) && n.workers && s in n.bus.sinks && Take(n.bus, s, now).1.Some?
    ensures Enabled(n, TakeStep(s, now)) && n' == Next(n, TakeStep(s, now))
    ensures NodeInv(n') && n' == n.(bus := n'.bus, handed := n'.handed) && s in n'.bus.sinks
    ensures (s, r) in n'.handed && Current(n'.bus, s, r)
    ensures Total(n'.bus.active, RemainingWeight()) == Total(n.bus.active, RemainingWeight())
  {
    hide Take, Total, SinksInv, TenantsInv, Counts, ActivesInv, PhaseInv, MqttInv, HandedInv, Covered, Recoverable, Conserved, Pending;
    n', r := Next(n, TakeStep(s, now)), Take(n.bus, s, now).1.value;
    StepKeeps(n, TakeStep(s, now));
    TakeKeepsInv(n.bus, s, now);
    TakeKeepsLoad(n.bus, s, now);
    EventIsSound(n'.bus, r.event);
  }

  lemma EventIsSound(b: Bus, e: EventId)
    requires ActivesInv(b) && e in b.active
    ensures ActiveInv(b.sinks, b.nextOperation, b.active[e])
  {
  }

  /** As long as something is owed, its sink can take it and acknowledge it. */
  lemma DrainOne(n: Node) returns (steps: seq<Step>, n': Node)
    requires NodeInv(n) && n.workers && Pending(n.bus.active) != {}
    ensures Run(n, steps, n') && NodeInv(n') && Total(n'.bus.active, RemainingWeight()) < Total(n.bus.active, RemainingWeight())
    ensures n' == n.(bus := n'.bus, handed := n'.handed, acked := n'.acked, owed := n'.owed)
  {
    hide Total, Next, Enabled, Run, SinksInv, TenantsInv, Counts, PhaseInv, MqttInv, HandedInv, Recoverable, Conserved, Current, Queue;
    var p :| p in Pending(n.bus.active);
    var s := p.1;
    EventIsSound(n.bus, p.0);
    OwedIsSomewhere(n.bus, p.0, s);
    if n.bus.sinks[s].inflight > 0 {
      var e := InflightIsSomeone(n.bus, s);
      var r := WorkerOf(n, e, s);
      n' := AckOne(n, s, r);
      Stays(n');
      OneStepMore(n, CompleteStep(s, r, Ack, true, 0, 0), [], n');
      steps := [CompleteStep(s, r, Ack, true, 0, 0)] + [];
    } else {
      var now := Ripe(n.bus.sinks[s]);
      TakeSucceeds(n.bus, s);
      var taken, r := TakeOne(n, s, now);
      n' := AckOne(taken, s, r);
      Stays(n');
      var ack := CompleteStep(s, r, Ack, true, 0, 0);
      OneStepMore(taken, ack, [], n');
      OneStepMore(n, TakeStep(s, now), [ack] + [], n');
      steps := [TakeStep(s, now)] + ([ack] + []);
    }
  }

  lemma WorkerOf(n: Node, e: EventId, s: SinkId) returns (r: Record)
    requires Covered(n.bus.active, n.handed) && e in n.bus.active && s in n.bus.active[e].operations && s in n.bus.active[e].remaining
    ensures (s, r) in n.handed && Current(n.bus, s, r)
  {
    assert HandedOut(n.handed, e, s, n.bus.active[e].operations[s]);
    var p :| p in n.handed && p.0 == s && p.1.event == e && p.1.operation == n.bus.active[e].operations[s];
    r := p.1;
    assert p == (s, r);
  }

  lemma {:induction false} Drain(n: Node) returns (steps: seq<Step>, end: Node)
    requires NodeInv(n) && n.workers
    ensures Run(n, steps, end) && NodeInv(end) && Pending(end.bus.active) == {}
    ensures end == n.(bus := end.bus, handed := end.handed, acked := end.acked, owed := end.owed)
    decreases Total(n.bus.active, RemainingWeight())
  {
    hide Total, NodeInv, Run, Pending;
    if Pending(n.bus.active) == {} {
      steps, end := [], n;
      Stays(n);
    } else {
      var first, middle := DrainOne(n);
      var rest;
      rest, end := Drain(middle);
      RunsCompose(n, first, middle, rest, end);
      steps := first + rest;
    }
  }

  /**
   With the accept loop sound, so that every sink can still acknowledge, some continuation finishes if and only if
   neither a structural fault nor a failed removal has happened, whatever the spool can hold.
   */
  lemma FinishesExactlyWhenUnfaulted(n: Node)
    requires NodeInv(n) && !n.broken
    ensures (exists steps, end :: Run(n, steps, end) && end.phase == Finished) <==> Unfaulted(n)
  {
    hide Run, NodeInv, Ready;
    if !Unfaulted(n) {
      forall steps, end | Run(n, steps, end) ensures end.phase != Finished {
        FaultedStays(n, steps, end);
      }
    } else {
      var steps, end := DrainAndFinish(n);
    }
  }

  lemma DrainAndFinish(n: Node) returns (steps: seq<Step>, end: Node)
    requires NodeInv(n) && Unfaulted(n)
    ensures Run(n, steps, end) && end.phase == Finished
  {
    hide Run, Inv, PhaseInv, HandedInv, Covered, Recoverable, Conserved, Pending;
    if n.workers {
      var first, drained := Drain(n);
      var rest;
      rest, end := CanFinish(drained);
      RunsCompose(n, first, drained, rest, end);
      steps := first + rest;
    } else {
      assert Ahead(n.phase) by { DoneWorking(n); }
      steps, end := CanFinish(n);
    }
  }

  lemma DoneWorking(n: Node)
    requires PhaseInv(n) && MqttInv(n) && Unfaulted(n) && !n.workers
    ensures Ahead(n.phase)
  {
    hide Pending, DiskPairs;
  }
}
