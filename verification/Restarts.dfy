/** What survives a restart, and any number of them. */
module Restarts {
  import opened Bytes
  import opened EventBus
  import opened Spool
  import opened Shutdown

  // ---- the next start ----

  lemma SameDefinitionsCompose(x: map<SinkId, Sink>, y: map<SinkId, Sink>, z: map<SinkId, Sink>)
    requires SameDefinitions(x, y) && SameDefinitions(y, z)
    ensures SameDefinitions(x, z)
  {
  }

  lemma FreshBoots(f: Bus)
    requires Fresh(f)
    ensures Boots(f, None)
  {
  }

  lemma ImageIsRestored(b: Bus, disk: Disk, f: Bus, ids: seq<EventId>)
    requires Recoverable(b, disk.image) && Lists(ids, disk.image)
    requires Fresh(f) && f.limits == b.limits && SameDefinitions(b.sinks, f.sinks)
    ensures Restore(f, ids, disk.image).Some? <==> ImageAdmitted(f.limits, disk.image)
    ensures Restore(f, ids, disk.image).Some? ==>
      var next := Restore(f, ids, disk.image).value; Boots(next, Some(disk)) && next.accepting == f.accepting
  {
    hide Inv, Pending, Pairs, Snapshot, Restore, Fresh, SameDefinitions, ImageAdmitted;
    var image := disk.image;
    var w :| Inv(w) && w.limits == b.limits && SameDefinitions(w.sinks, b.sinks) && Snapshot(w) == image;
    SameDefinitionsCompose(w.sinks, b.sinks, f.sinks);
    SnapshotIsRestored(w, f, ids);
    FreshInv(f);
    RestoreKeepsInv(f, ids, image);
  }

  /**
   What a run leaves on disk is restored by the next start with the same sinks and limits, in any order of its
   records, if and only if its records are within the ceilings of a restore. That is a start again, and it owes
   exactly what is on disk, which is everything left unacknowledged by a run that ended.
   */
  lemma NextStartOwesTheRest(n: Node, steps: seq<Step>, end: Node, f: Bus, ids: seq<EventId>) returns (next: Node)
    requires Starts(n) && Run(n, steps, end)
    requires Fresh(f) && f.accepting && f.limits == end.bus.limits && SameDefinitions(end.bus.sinks, f.sinks)
    requires end.disk.Some? ==> Lists(ids, end.disk.value.image)
    ensures end.disk.Some? ==> (Restore(f, ids, end.disk.value.image).Some? <==> ImageAdmitted(f.limits, end.disk.value.image))
    ensures (end.disk.Some? ==> ImageAdmitted(f.limits, end.disk.value.image)) ==>
      && (end.disk.Some? ==> Restore(f, ids, end.disk.value.image) == Some(next.bus))
      && Starts(next) && next.disk == end.disk && Pending(next.bus.active) == next.owed == DiskPairs(end.disk)
    ensures end.phase == Finished || end.phase == Failed ==> Pending(end.bus.active) <= DiskPairs(end.disk)
  {
    hide Inv, Pending, Pairs, Next, Enabled, Snapshot, Restore, Fresh, SameDefinitions, Run, Boots, ImageAdmitted;
    hide HandedInv, Covered, Conserved, NoPhantom, Recoverable, Spoolable;
    StartIsSound(n);
    RunKeeps(n, steps, end);
    next := StartNode(f, end.disk, end.spool);
    if end.disk.Some? {
      ImageIsRestored(end.bus, end.disk.value, f, ids);
      if Restore(f, ids, end.disk.value.image).Some? {
        next := StartNode(Restore(f, ids, end.disk.value.image).value, end.disk, end.spool);
        BootedBus(next.bus, next.disk);
      }
    } else {
      FreshBoots(f);
      BootedBus(f, None);
    }
  }

  // ---- what a run leaves is within the ceilings of a restore ----

  ghost predicate Restartable(n: Node) {
    && Ceilings(n.bus)
    && (n.disk.Some? ==> ImageBounded(n.bus.limits, n.disk.value.image))
    && (n.phase.Writing? ==> ImageBounded(n.bus.limits, n.phase.image))
  }

  lemma StepKeepsRestartable(n: Node, step: Step)
    requires NodeInv(n) && Restartable(n) && Enabled(n, step)
    ensures Restartable(Next(n, step))
  {
    hide Inv, AfterPublish, AfterTake, AfterComplete, AfterTask, Snapshot, ImageBounded, AllBounded, Enabled;
    hide PhaseInv, MqttInv, HandedInv, Covered, Recoverable, Conserved, Durable, NoPhantom, Spoolable, Restartable;
    StepIsOnSinks(n, step);
    match step
    case PublishStep(e, tenant, bytes, targets) => PublishKeepsRestartable(n, e, tenant, bytes, targets);
    case TakeStep(s, now) => TakeKeepsRestartable(n, s, now);
    case CompleteStep(s, r, verdict, young, due, until) => CompleteKeepsRestartable(n, s, r, verdict, young, due, until);
    case _ => TaskKeepsRestartable(n, step);
  }

  lemma StepIsOnSinks(n: Node, step: Step)
    requires Enabled(n, step)
    ensures step.PublishStep? ==> Routed(n.bus, step.targets)
    ensures step.TakeStep? ==> step.sink in n.bus.sinks
    ensures step.CompleteStep? ==> step.sink in n.bus.sinks && (step.sink, step.record) in n.handed
  {
  }

  lemma TaskKeepsRestartable(n: Node, step: Step)
    requires Inv(n.bus) && Restartable(n) && Enabled(n, step) && !OnBus(step)
    ensures Restartable(AfterTask(n, step))
  {
    hide AfterTask, Inv, Snapshot, ImageBounded, AllBounded, Enabled;
    TaskOnly(n, step);
    TaskOnDisk(n, step);
    assert ActivesInv(n.bus) by { ActivesOf(n.bus); }
    OwedIsBounded(n.bus);
  }

  lemma ActivesOf(b: Bus)
    requires Inv(b)
    ensures ActivesInv(b)
  {
  }

  lemma PublishKeepsRestartable(n: Node, e: EventId, tenant: TenantId, bytes: nat, targets: set<SinkId>)
    requires Inv(n.bus) && Restartable(n) && Routed(n.bus, targets)
    ensures Restartable(AfterPublish(n, e, tenant, bytes, targets))
  {
    hide Inv, Publish, Ceilings, ImageBounded, RequiredOf, Pending, SameDefinitions;
    PublishKeepsCeilings(n.bus, e, tenant, bytes, targets);
    PublishKeepsInv(n.bus, e, tenant, bytes, targets);
  }

  lemma TakeKeepsRestartable(n: Node, s: SinkId, now: nat)
    requires Inv(n.bus) && Restartable(n) && s in n.bus.sinks
    ensures Restartable(AfterTake(n, s, now))
  {
    hide Inv, Take, Ceilings, ImageBounded, Pending, SameDefinitions;
    TakeKeepsCeilings(n.bus, s, now);
    TakeKeepsInv(n.bus, s, now);
  }

  lemma CompleteKeepsRestartable(n: Node, s: SinkId, r: Record, verdict: Verdict, young: bool, due: nat, until: nat)
    requires Inv(n.bus) && Restartable(n) && s in n.bus.sinks && HandedInv(n.bus, n.handed) && (s, r) in n.handed
    ensures Restartable(AfterComplete(n, s, r, verdict, young, due, until))
  {
    hide Inv, Complete, Ceilings, ImageBounded, Pending, SameDefinitions, HandedInv, Current;
    CompleteKeepsCeilings(n.bus, s, r, verdict, young, due, until);
    if Current(n.bus, s, r) { HandedIsGenuine(n.bus, n.handed, s, r); }
    CompleteKeepsInv(n.bus, s, r, verdict, young, due, until);
  }

  lemma {:induction false} RunKeepsRestartable(n: Node, steps: seq<Step>, end: Node)
    requires NodeInv(n) && Restartable(n) && Run(n, steps, end)
    ensures Restartable(end)
    decreases |steps|
  {
    hide NodeInv, Restartable, Next, Enabled;
    if steps == [] {
    } else {
      StepKeepsRestartable(n, steps[0]);
      StepKeeps(n, steps[0]);
      RunKeepsRestartable(Next(n, steps[0]), steps[1..], end);
    }
  }

  /** A run from an empty disk, or from an image whose histories fit its sinks, leaves an image that can be restored. */
  lemma RunLeavesRestorable(n: Node, steps: seq<Step>, end: Node)
    requires Starts(n) && Run(n, steps, end) && (n.disk.Some? ==> ImageBounded(n.bus.limits, n.disk.value.image))
    ensures end.disk.Some? ==>
      ImageBounded(end.bus.limits, end.disk.value.image) && ImageAdmitted(end.bus.limits, end.disk.value.image)
  {
    hide NodeInv, ImageBounded, ImageAdmitted, Ceilings, Run;
    StartIsSound(n);
    BootedCeilings(n.bus, n.disk);
    RunKeepsRestartable(n, steps, end);
    if end.disk.Some? { BoundedIsAdmitted(end.bus.limits, end.disk.value.image); }
  }

  lemma BootedCeilings(b: Bus, disk: Option<Disk>)
    requires Boots(b, disk) && (disk.Some? ==> ImageBounded(b.limits, disk.value.image))
    ensures Ceilings(b)
  {
    hide Inv, Restore, ImageBounded, Ceilings, Snapshot, Pending;
    if disk.None? {
      FreshInv(b);
    } else {
      var image := disk.value.image;
      var f, ids :| Fresh(f) && Lists(ids, image) && Restore(f, ids, image) == Some(b);
      FreshInv(f);
      RestoreKeepsInv(f, ids, image);
      RestoreKeepsCeilings(f, ids, image);
    }
  }

  // ---- any number of restarts ----

  /** One life of a node: a start, a run, an end. */
  datatype Life = Life(start: Node, steps: seq<Step>, end: Node)

  ghost predicate Lived(l: Life) {
    Starts(l.start) && Run(l.start, l.steps, l.end) && (l.end.phase == Finished || l.end.phase == Failed)
  }

  /** Lives that follow each other on the same disk; sinks and limits may change between them. */
  ghost predicate Chain(lives: seq<Life>) {
    && (forall i :: 0 <= i < |lives| ==> Lived(lives[i]))
    && (forall i :: 0 < i < |lives| ==> lives[i].start.disk == lives[i - 1].end.disk)
  }

  lemma LifeIsSafe(l: Life, p: (EventId, SinkId))
    requires Lived(l) && p in l.end.accepted
    ensures p in l.end.acked || p in DiskPairs(l.end.disk)
  {
    hide Starts, Run;
    RunIsSafe(l.start, l.steps, l.end);
  }

  lemma {:induction false} AcceptedGrows(n: Node, steps: seq<Step>, end: Node)
    requires Run(n, steps, end)
    ensures n.accepted <= end.accepted
    decreases |steps|
  {
    hide Enabled, Next;
    if steps == [] {
    } else {
      BooksGrow(n, steps[0]);
      AcceptedGrows(Next(n, steps[0]), steps[1..], end);
    }
  }

  lemma RestoredIsAccepted(l: Life, p: (EventId, SinkId))
    requires Lived(l) && p in DiskPairs(l.start.disk)
    ensures p in l.end.accepted
  {
    hide Run, Boots;
    AcceptedGrows(l.start, l.steps, l.end);
  }

  /** Over any number of restarts, what one life accepted is acknowledged in some life or still on disk at the end. */
  lemma {:induction false} NothingIsLostByRestarts(lives: seq<Life>, i: nat, p: (EventId, SinkId))
    requires Chain(lives) && i < |lives| && p in lives[i].end.accepted
    ensures (exists j :: i <= j < |lives| && p in lives[j].end.acked) || p in DiskPairs(lives[|lives| - 1].end.disk)
    decreases |lives| - i
  {
    hide Lived;
    LifeIsSafe(lives[i], p);
    if p in lives[i].end.acked || i == |lives| - 1 {
    } else {
      RestoredIsAccepted(lives[i + 1], p);
      NothingIsLostByRestarts(lives, i + 1, p);
    }
  }
}
