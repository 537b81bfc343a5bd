/** What a life of a node leaves on disk: the image it wrote last, or nothing. */
module Leftovers {
  import opened Bytes
  import opened EventBus
  import opened Spool
  import opened Shutdown
  import opened Finishing

  /** The image a step put on disk, if it did, whatever it then reported. */
  function WrittenBy(n: Node, step: Step): seq<Image> {
    if step.SpoolStep? && n.phase.Writing? && step.spoolOutcome != NotWritten then [n.phase.image] else []
  }

  /** The images a run put on disk, in order. */
  ghost function Images(n: Node, steps: seq<Step>): seq<Image>
    decreases |steps|
  {
    if steps == [] || !Enabled(n, steps[0]) then []
    else WrittenBy(n, steps[0]) + Images(Next(n, steps[0]), steps[1..])
  }

  function GenerationOf(disk: Option<Disk>): nat {
    if disk.Some? then disk.value.generation else 0
  }

  /** The removal of what was recovered has been decided on and did not fail before it took effect. */
  predicate Settled(p: Phase) {
    p.Deciding? || p.Blocked? || p.Closing? || p.Finished?
  }

  /** The disk of a life that found `found`, has put `images` there since, and whose removal failed in time if `spared`. */
  predicate Holds(found: Option<Disk>, images: seq<Image>, spared: bool, n: Node) {
    && n.recovered == (if found.Some? then Some(found.value.generation) else None)
    && (images != [] ==> n.disk == Some(Disk(GenerationOf(found) + |images|, images[|images| - 1])))
    && (images == [] && Settled(n.phase) ==> n.disk == None)
    && (images == [] && !Settled(n.phase) && n.phase != Failed ==> n.disk == found)
    && (images == [] && n.phase == Failed ==> n.disk == if spared then found else None)
    && (n.phase != Failed ==> !spared)
    && (n.phase == Stopping(true) ==> images != [])
    && (n.phase == Removing ==> found.Some?)
    && (n.phase.Writing? ==> Pairs(n.phase.image) != {})
    && (forall i :: 0 <= i < |images| ==> Pairs(images[i]) != {})
  }

  lemma BusStepHolds(found: Option<Disk>, images: seq<Image>, spared: bool, n: Node, step: Step)
    requires Holds(found, images, spared, n) && Enabled(n, step) && OnBus(step)
    ensures Holds(found, images, spared, Next(n, step))
  {
    hide Publish, Take, Complete, Pending, Pairs, RequiredOf, Current;
    var n' := Next(n, step);
    assert n'.disk == n.disk && n'.phase == n.phase && n'.recovered == n.recovered;
  }

  lemma SnapshotHasWork(b: Bus)
    requires Snapshot(b) != map[]
    ensures Pairs(Snapshot(b)) != {}
  {
    NothingToSpool(b);
  }

  /** The waits and decisions of shutdown stay on their side of the removal. */
  lemma InwardMoves(n: Node, step: Step)
    requires Enabled(n, step) && (Inward(step) || step == QuiesceStep) && step != StopStep
    ensures var n' := AfterTask(n, step);
      && n'.disk == n.disk && n'.recovered == n.recovered
      && (n'.phase != n.phase ==>
            && (Settled(n'.phase) <==> Settled(n.phase)) && n'.phase != Failed && n.phase != Failed
            && n'.phase != Stopping(true) && n'.phase != Removing && !n'.phase.Writing?)
  {
    match step
    case MqttStep(outcome) => match outcome { case Stored => case Structural => case Transient => }
    case _ =>
  }

  lemma InwardHolds(found: Option<Disk>, images: seq<Image>, spared: bool, n: Node, step: Step)
    requires Holds(found, images, spared, n) && Enabled(n, step) && (Inward(step) || step == QuiesceStep) && step != StopStep
    ensures Holds(found, images, spared, AfterTask(n, step))
  {
    hide Pairs, AfterTask, Settled, Enabled;
    InwardMoves(n, step);
  }

  lemma StopHolds(found: Option<Disk>, images: seq<Image>, spared: bool, n: Node, step: Step)
    requires Holds(found, images, spared, n) && Enabled(n, step) && (step == StopStep || step == SnapshotStep)
    ensures Holds(found, images, spared, AfterTask(n, step))
  {
    hide Snapshot, Pairs, Pending;
    if step == SnapshotStep && Snapshot(n.bus) != map[] { SnapshotHasWork(n.bus); }
  }

  lemma SpoolHolds(found: Option<Disk>, images: seq<Image>, spared: bool, n: Node, outcome: SpoolOutcome)
    requires Holds(found, images, spared, n) && Enabled(n, SpoolStep(outcome))
    ensures Holds(found, images + WrittenBy(n, SpoolStep(outcome)), spared, AfterTask(n, SpoolStep(outcome)))
  {
    hide Spoolable, Pairs, Pending;
    assert images + [] == images;
    match outcome
    case Written =>
    case NotWritten =>
    case WrittenThenFailed =>
  }

  lemma RemoveHolds(found: Option<Disk>, images: seq<Image>, spared: bool, n: Node, outcome: RemoveOutcome)
    requires Holds(found, images, spared, n) && Enabled(n, RemoveStep(outcome))
    ensures Holds(found, images, spared || outcome == NotRemoved, AfterTask(n, RemoveStep(outcome)))
  {
    hide Pairs, Pending;
    match outcome
    case Removed =>
    case NotRemoved =>
    case RemovedThenFailed =>
  }

  lemma TaskStepHolds(found: Option<Disk>, images: seq<Image>, spared: bool, n: Node, step: Step)
    requires Holds(found, images, spared, n) && Enabled(n, step) && !OnBus(step)
    ensures Holds(found, images + WrittenBy(n, step), spared || step == RemoveStep(NotRemoved), AfterTask(n, step))
  {
    hide Holds, AfterTask, Enabled;
    assert images + [] == images;
    match step
    case SpoolStep(outcome) => SpoolHolds(found, images, spared, n, outcome);
    case RemoveStep(outcome) => RemoveHolds(found, images, spared, n, outcome);
    case SnapshotStep => StopHolds(found, images, spared, n, step);
    case StopStep => StopHolds(found, images, spared, n, step);
    case _ => InwardHolds(found, images, spared, n, step);
  }

  lemma StepHolds(found: Option<Disk>, images: seq<Image>, spared: bool, n: Node, step: Step)
    requires Holds(found, images, spared, n) && Enabled(n, step)
    ensures Holds(found, images + WrittenBy(n, step), spared || step == RemoveStep(NotRemoved), Next(n, step))
  {
    hide Holds, Enabled, AfterTask, AfterPublish, AfterTake, AfterComplete;
    if OnBus(step) {
      assert images + [] == images;
      BusStepHolds(found, images, spared, n, step);
    } else {
      TaskStepHolds(found, images, spared, n, step);
    }
  }

  lemma {:induction false} RunHolds(found: Option<Disk>, images: seq<Image>, spared: bool, n: Node, steps: seq<Step>, end: Node)
    requires Holds(found, images, spared, n) && Run(n, steps, end)
    ensures Holds(found, images + Images(n, steps), spared || RemoveStep(NotRemoved) in steps, end)
    decreases |steps|
  {
    hide Holds, Enabled, Next, WrittenBy;
    if steps == [] {
      assert images + [] == images;
    } else {
      StepHolds(found, images, spared, n, steps[0]);
      var more := images + WrittenBy(n, steps[0]);
      RunHolds(found, more, spared || steps[0] == RemoveStep(NotRemoved), Next(n, steps[0]), steps[1..], end);
      assert more + Images(Next(n, steps[0]), steps[1..]) == images + Images(n, steps);
    }
  }

  /**
   At every point of every run: once an image was put on disk, the last one is there, under one generation more for
   each, and no removal takes it away. As long as none was, the disk is as it was found, until a removal takes effect;
   and from the decision to end on, nothing is there.
   */
  lemma DiskHoldsTheLastImage(n: Node, steps: seq<Step>, end: Node)
    requires Starts(n) && Run(n, steps, end)
    ensures var images := Images(n, steps);
      && (images != [] ==> end.disk == Some(Disk(GenerationOf(n.disk) + |images|, images[|images| - 1])))
      && (images == [] && Settled(end.phase) ==> end.disk == None)
      && (images == [] && !Settled(end.phase) && end.phase != Failed ==> end.disk == n.disk)
      && (images == [] && end.phase == Failed ==> end.disk == if RemoveStep(NotRemoved) in steps then n.disk else None)
  {
    hide Run, Images, Boots, Spoolable;
    RunHolds(n.disk, [], false, n, steps, end);
    assert [] + Images(n, steps) == Images(n, steps);
  }

  // ---- whether the next start redelivers ----

  /**
   A life that finished leaves work for the next start if and only if it put an image on disk: a drained life that
   wrote none leaves an empty disk, whatever it had recovered.
   */
  lemma FinishedLeavesWork(n: Node, steps: seq<Step>, end: Node)
    requires Starts(n) && Run(n, steps, end) && end.phase == Finished
    ensures DiskPairs(end.disk) != {} <==> Images(n, steps) != []
    ensures forall next :: Starts(next) && next.disk == end.disk ==>
      (Pending(next.bus.active) == {} <==> Images(n, steps) == [])
  {
    hide Run, Images, Boots, Spoolable, Pairs, Pending, Inv, Snapshot;
    RunHolds(n.disk, [], false, n, steps, end);
    assert [] + Images(n, steps) == Images(n, steps);
    forall next | Starts(next) && next.disk == end.disk
      ensures Pending(next.bus.active) == {} <==> Images(n, steps) == []
    {
      BootedBus(next.bus, next.disk);
    }
  }

  /**
   So a life may acknowledge everything it ever accepted and still leave work: an image that was put on disk although
   the write reported a failure stays there when what it holds is delivered afterwards.
   */
  lemma DeliveredIsLeft(n: Node) returns (steps: seq<Step>, end: Node)
    requires NodeInv(n) && n.phase.Writing? && Spoolable(n.spool, n.phase.image) && n.mqtt == Committed
    requires n.recovered == None && n.disk == None
    ensures Run(n, steps, end) && end.phase == Finished && Pending(end.bus.active) == {}
    ensures end.disk == Some(Disk(1, n.phase.image))
  {
    hide Run, Inv, HandedInv, Covered, Conserved, Durable, Recoverable, Pending, Pairs, Spoolable, Next, Enabled, PhaseInv, NoPhantom;
    var write := SpoolStep(WrittenThenFailed);
    var written := FailedWrite(n);
    StepKeeps(n, write);
    var first, drained := Drain(written);
    var rest;
    rest, end := FinishDrained(drained);
    RunsCompose(written, first, drained, rest, end);
    OneStepMore(n, write, first + rest, end);
    steps := [write] + (first + rest);
  }

  lemma FailedWrite(n: Node) returns (written: Node)
    requires n.phase.Writing? && Spoolable(n.spool, n.phase.image) && MqttInv(n) && n.disk == None
    ensures Enabled(n, SpoolStep(WrittenThenFailed)) && written == Next(n, SpoolStep(WrittenThenFailed))
    ensures written == n.(disk := Some(Disk(1, n.phase.image)), phase := RetryWait) && written.workers
  {
    hide Spoolable;
    written := Next(n, SpoolStep(WrittenThenFailed));
  }

  lemma FinishDrained(n: Node) returns (steps: seq<Step>, end: Node)
    requires NodeInv(n) && n.phase == RetryWait && Pending(n.bus.active) == {} && n.mqtt == Committed && n.recovered == None
    ensures Run(n, steps, end) && end.phase == Finished && end.bus.active == n.bus.active && end.disk == n.disk
  {
    hide Run, SinksInv, TenantsInv, ActivesInv, Counts, HandedInv, Covered, Conserved, Durable, Recoverable, Pending, Pairs, Spoolable, PhaseInv, NoPhantom, MqttInv;
    NothingPending(n.bus);
    var stopping := n.(phase := Stopping(false));
    var deciding := n.(phase := Deciding, workers := false);
    var closing := deciding.(phase := Closing, business := false);
    end := closing.(phase := Finished);
    Stays(end);
    OneStepMore(closing, FinishStep, [], end);
    steps := [FinishStep] + [];
    OneStepMore(deciding, DecideStep, steps, end);
    steps := [DecideStep] + steps;
    OneStepMore(stopping, StopStep, steps, end);
    steps := [StopStep] + steps;
    OneStepMore(n, WaitStep(true), steps, end);
    steps := [WaitStep(true)] + steps;
  }

  /** Such a life: one publication to a required sink, a write that fails after taking effect, and then the delivery. */
  lemma DeliveredLifeIsLeft(f: Bus, spool: SpoolLimits, e: EventId, tenant: TenantId, bytes: nat, targets: set<SinkId>)
    returns (n: Node, steps: seq<Step>, end: Node)
    requires Fresh(f) && f.accepting && Routed(f, targets)
    requires Publish(f, e, tenant, bytes, targets).1 == Accepted && RequiredOf(f, targets) != {}
    requires Spoolable(spool, Snapshot(Publish(f, e, tenant, bytes, targets).0))
    ensures Starts(n) && Run(n, steps, end) && end.phase == Finished
    ensures Pending(end.bus.active) == {} && DiskPairs(end.disk) == PairsOf(e, RequiredOf(f, targets)) != {}
  {
    hide Inv, Pending, Pairs, Publish, RequiredOf, Run, Starts, Fresh, Enabled, Next, Snapshot, Spoolable, NodeInv;
    FreshInv(f);
    FreshStarts(f, spool);
    n := StartNode(f, None, spool);
    StartIsSound(n);
    PublishKeepsInv(f, e, tenant, bytes, targets);
    var publish := PublishStep(e, tenant, bytes, targets);
    var published := PublishedNext(n, e, tenant, bytes, targets);
    StepKeeps(n, publish);
    var s :| s in RequiredOf(f, targets);
    assert (e, s) in PairsOf(e, RequiredOf(f, targets));
    var first, writing := UntilWriting(published);
    RunKeeps(published, first, writing);
    var rest;
    rest, end := DeliveredIsLeft(writing);
    RunsCompose(published, first, writing, rest, end);
    OneStepMore(n, publish, first + rest, end);
    steps := [publish] + (first + rest);
  }

  lemma UntilWriting(n: Node) returns (steps: seq<Step>, writing: Node)
    requires n.phase == Running && Pending(n.bus.active) != {}
    ensures Run(n, steps, writing)
    ensures writing == n.(phase := Writing(Snapshot(n.bus)), mqtt := Committed, bus := n.bus.(accepting := false))
  {
    hide Run, Pending, Snapshot;
    var closed := n.(phase := CommittingMqtt, bus := n.bus.(accepting := false));
    var waiting := closed.(phase := AwaitingDrain, mqtt := Committed);
    var spooling := waiting.(phase := Spooling);
    writing := waiting.(phase := Writing(Snapshot(n.bus)));
    SnapshotOnly(spooling.bus, n.bus);
    SnapshotOfNothing(n.bus);
    Stays(writing);
    OneStepMore(spooling, SnapshotStep, [], writing);
    steps := [SnapshotStep] + [];
    OneStepMore(waiting, WaitStep(false), steps, writing);
    steps := [WaitStep(false)] + steps;
    OneStepMore(closed, MqttStep(Stored), steps, writing);
    steps := [MqttStep(Stored)] + steps;
    OneStepMore(n, QuiesceStep, steps, writing);
    steps := [QuiesceStep] + steps;
  }
}
