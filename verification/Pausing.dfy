/** When a sink is paused, over whole runs of a node: what its deliveries reported decides it, and nothing else. */
module Pausing {
  import opened Bytes
  import opened EventBus
  import opened Spool
  import opened Shutdown
  import opened BusOutcomes

  /** What a completed delivery reported, and the end of the pause it would cause. */
  datatype Report = Report(verdict: Verdict, until: nat)

  /** What a step reports to sink `s`: the verdict on a delivery in flight there; stale completions report nothing. */
  function Reported(n: Node, step: Step, s: SinkId): seq<Report> {
    if step.CompleteStep? && step.sink == s && Current(n.bus, s, step.record)
    then [Report(step.verdict, step.until)]
    else []
  }

  /** All reports to sink `s` in a run, in order. */
  ghost function Reports(n: Node, steps: seq<Step>, s: SinkId): seq<Report>
    decreases |steps|
  {
    if steps == [] || !Enabled(n, steps[0]) then []
    else Reported(n, steps[0], s) + Reports(Next(n, steps[0]), steps[1..], s)
  }

  /** The failures since the last acknowledgement, latest last. */
  function Since(rs: seq<Report>): seq<Report> {
    if rs == [] || rs[|rs| - 1].verdict == Ack then [] else Since(rs[..|rs| - 1]) + [rs[|rs| - 1]]
  }

  /** Failure `i` in a row pauses a required sink: it is permanent, or the third or a later one. */
  predicate Pauses(fs: seq<Report>, i: nat)
    requires i < |fs|
  {
    fs[i].verdict == Permanent || i >= 2
  }

  /** The end of the pause after these failures in a row: that of the last one that pauses. */
  function PauseAfter(mode: Mode, fs: seq<Report>): Option<nat> {
    if fs == [] || mode == BestEffort then None
    else if Pauses(fs, |fs| - 1) then Some(fs[|fs| - 1].until)
    else PauseAfter(mode, fs[..|fs| - 1])
  }

  lemma {:induction false} SinceIsTheRest(rs: seq<Report>)
    ensures |Since(rs)| <= |rs|
    ensures var i := |rs| - |Since(rs)|;
      && rs[i..] == Since(rs) && (i == 0 || rs[i - 1].verdict == Ack)
      && forall r <- Since(rs) :: r.verdict != Ack
  {
    if rs == [] || rs[|rs| - 1].verdict == Ack {
    } else {
      var n := |rs| - 1;
      SinceIsTheRest(rs[..n]);
      assert rs == rs[..n] + [rs[n]];
    }
  }

  lemma LastPauseCounts(mode: Mode, fs: seq<Report>)
    ensures PauseAfter(mode, fs).Some? <==> mode == ConfirmedRequired && exists i :: 0 <= i < |fs| && Pauses(fs, i)
    ensures PauseAfter(mode, fs).Some? ==>
      exists i :: 0 <= i < |fs| && Pauses(fs, i) && PauseAfter(mode, fs).value == fs[i].until
        && forall j :: i < j < |fs| ==> !Pauses(fs, j)
  {
    if fs == [] || mode == BestEffort {
    } else if Pauses(fs, |fs| - 1) {
    } else if |fs| == 2 {
      var first := fs[..1];
      assert PauseAfter(mode, fs) == PauseAfter(mode, first);
      assert Pauses(first, 0) <==> Pauses(fs, 0);
    } else {
      assert fs[..0] == [];
    }
  }

  /** The state of a sink that has these failures behind it. */
  predicate Follows(k: Sink, fs: seq<Report>) {
    k.failures == |fs| && k.pausedUntil == PauseAfter(k.def.mode, fs)
  }

  /** Only what is reported to a sink bears on it. */
  predicate SameStanding(k: Sink, k': Sink) {
    k'.def == k.def && k'.failures == k.failures && k'.pausedUntil == k.pausedUntil
  }

  lemma OneReportMore(rs: seq<Report>, r: Report)
    ensures Since(rs + [r]) == if r.verdict == Ack then [] else Since(rs) + [r]
  {
    assert (rs + [r])[..|rs|] == rs;
  }

  lemma OneFailureMore(mode: Mode, fs: seq<Report>, r: Report)
    ensures PauseAfter(mode, fs + [r]) ==
      if mode == ConfirmedRequired && (r.verdict == Permanent || |fs| >= 2) then Some(r.until) else PauseAfter(mode, fs)
  {
    assert (fs + [r])[..|fs|] == fs;
  }

  lemma SettledFollows(k: Sink, rs: seq<Report>, verdict: Verdict, until: nat)
    requires Follows(k, Since(rs))
    ensures Follows(Settle(k, verdict, until), Since(rs + [Report(verdict, until)]))
  {
    hide Since, PauseAfter;
    var r := Report(verdict, until);
    OneReportMore(rs, r);
    OneFailureMore(k.def.mode, Since(rs), r);
    assert PauseAfter(k.def.mode, []) == None by { NoFailures(k.def.mode); }
  }

  lemma NoFailures(mode: Mode)
    ensures PauseAfter(mode, []) == None
  {
  }

  lemma PublishKeepsStanding(b: Bus, e: EventId, tenant: TenantId, bytes: nat, targets: set<SinkId>, s: SinkId)
    requires targets <= b.sinks.Keys && s in b.sinks
    ensures var b' := Publish(b, e, tenant, bytes, targets).0; s in b'.sinks && SameStanding(b.sinks[s], b'.sinks[s])
  {
    hide BacklogOf, HasRoom, RequiredOf;
  }

  lemma TakeKeepsStanding(b: Bus, x: SinkId, now: nat, s: SinkId)
    requires x in b.sinks && s in b.sinks
    ensures var b' := Take(b, x, now).0; s in b'.sinks && SameStanding(b.sinks[s], b'.sinks[s])
  {
    PromoteKeepsQueue(b.sinks[x], now);
    hide Promote;
  }

  /** A completion settles the sink it is for, if it is current, and no other. */
  lemma CompleteSettles(b: Bus, x: SinkId, r: Record, verdict: Verdict, young: bool, due: nat, until: nat, s: SinkId)
    requires Inv(b) && x in b.sinks && s in b.sinks
    ensures var b' := Complete(b, x, r, verdict, young, due, until);
      s in b'.sinks &&
      SameStanding(if x == s && Current(b, s, r) then Settle(b.sinks[s], verdict, until) else b.sinks[s], b'.sinks[s])
  {
    hide Total, Counts, TenantsInv, ActivesInv, SinksInv, BacklogOf, Settle, Retries, Landed, Released, Position;
    if Current(b, x, r) && x in b.active[r.event].required { RequiredIsPending(b, r.event); }
  }

  lemma StepFollows(n: Node, step: Step, s: SinkId, rs: seq<Report>)
    requires NodeInv(n) && Enabled(n, step) && s in n.bus.sinks && Follows(n.bus.sinks[s], Since(rs))
    ensures var n' := Next(n, step);
      s in n'.bus.sinks && Follows(n'.bus.sinks[s], Since(rs + Reported(n, step, s)))
  {
    hide Inv, Publish, Take, Complete, Pending, RequiredOf, AfterTask, Settle, Since, PauseAfter, Snapshot;
    hide PhaseInv, MqttInv, HandedInv, Covered, Conserved, Durable, Recoverable, NoPhantom, Spoolable, Current;
    assert rs + [] == rs;
    match step
    case PublishStep(e, tenant, bytes, targets) => PublishKeepsStanding(n.bus, e, tenant, bytes, targets, s);
    case TakeStep(x, now) => TakeKeepsStanding(n.bus, x, now, s);
    case CompleteStep(x, r, verdict, young, due, until) =>
      CompleteSettles(n.bus, x, r, verdict, young, due, until, s);
      SettledFollows(n.bus.sinks[s], rs, verdict, until);
    case _ => TaskOnly(n, step);
  }

  lemma {:induction false} RunFollows(n: Node, steps: seq<Step>, end: Node, s: SinkId, rs: seq<Report>)
    requires NodeInv(n) && Run(n, steps, end) && s in n.bus.sinks && Follows(n.bus.sinks[s], Since(rs))
    ensures s in end.bus.sinks && Follows(end.bus.sinks[s], Since(rs + Reports(n, steps, s)))
    decreases |steps|
  {
    hide NodeInv, Next, Enabled, Since, Follows, Reported;
    if steps == [] {
      assert rs + [] == rs;
    } else {
      StepFollows(n, steps[0], s, rs);
      StepKeeps(n, steps[0]);
      var more := rs + Reported(n, steps[0], s);
      RunFollows(Next(n, steps[0]), steps[1..], end, s, more);
      assert more + Reports(Next(n, steps[0]), steps[1..], s) == rs + Reports(n, steps, s);
    }
  }

  lemma StartsUnpaused(n: Node, s: SinkId)
    requires Starts(n) && s in n.bus.sinks
    ensures Follows(n.bus.sinks[s], Since([]))
  {
    hide Inv, Snapshot, Spoolable, Insert, Restorable;
    if n.disk.Some? {
      var f, ids :| Fresh(f) && Lists(ids, n.disk.value.image) && Restore(f, ids, n.disk.value.image) == Some(n.bus);
      RestoreKeepsStanding(f, ids, n.disk.value.image, s);
    }
  }

  lemma {:induction false} RestoreKeepsStanding(b: Bus, ids: seq<EventId>, image: Image, s: SinkId)
    requires (forall e :: e in ids ==> e in image) && Restore(b, ids, image).Some?
    ensures var b' := Restore(b, ids, image).value;
      b'.sinks.Keys == b.sinks.Keys && (s in b.sinks ==> SameStanding(b.sinks[s], b'.sinks[s]))
    decreases |ids|
  {
    hide Restorable;
    if ids == [] {
    } else {
      RestorableSinks(b, ids[0], image[ids[0]]);
      RestoreKeepsStanding(Insert(b, ids[0], Restored(image[ids[0]])), ids[1..], image, s);
    }
  }

  /**
   In every run: the failures a sink counts are those reported since its last acknowledgement; it has a pause exactly
   when it is required and one of them was permanent or there were three; the pause ends when the last one that pauses
   said; and whether and when it hands out depends on nothing else.
   */
  lemma PausedByItsFailures(n: Node, steps: seq<Step>, end: Node, s: SinkId)
    requires Starts(n) && Run(n, steps, end) && s in n.bus.sinks
    ensures s in end.bus.sinks
    ensures var k, fs := end.bus.sinks[s], Since(Reports(n, steps, s));
      && k.failures == |fs|
      && (k.pausedUntil.Some? <==>
            k.def.mode == ConfirmedRequired && (|fs| >= 3 || exists i :: 0 <= i < |fs| && fs[i].verdict == Permanent))
      && (k.pausedUntil.Some? ==>
            exists i :: 0 <= i < |fs| && Pauses(fs, i) && k.pausedUntil.value == fs[i].until
              && forall j :: i < j < |fs| ==> !Pauses(fs, j))
  {
    hide Starts, Run, NodeInv, Reports, Since, PauseAfter;
    StartIsSound(n);
    StartsUnpaused(n, s);
    RunFollows(n, steps, end, s, []);
    var rs := Reports(n, steps, s);
    assert [] + rs == rs;
    var fs := Since(rs);
    LastPauseCounts(end.bus.sinks[s].def.mode, fs);
    if |fs| >= 3 {
      assert Pauses(fs, 2);
    }
    if i :| 0 <= i < |fs| && fs[i].verdict == Permanent {
      assert Pauses(fs, i);
    }
  }

  /** An acknowledgement ends the pause, whatever came before. */
  lemma AcknowledgementEndsPause(n: Node, steps: seq<Step>, end: Node, s: SinkId)
    requires Starts(n) && Run(n, steps, end) && s in n.bus.sinks
    requires var rs := Reports(n, steps, s); rs != [] && rs[|rs| - 1].verdict == Ack
    ensures s in end.bus.sinks && end.bus.sinks[s].pausedUntil == None && end.bus.sinks[s].failures == 0
  {
    hide Starts, Run, Reports;
    PausedByItsFailures(n, steps, end, s);
  }

  /** A required sink with three failures in a row hands nothing out before the time the last of them gave. */
  lemma ThreeFailuresHoldBack(n: Node, steps: seq<Step>, end: Node, s: SinkId, now: nat)
    requires Starts(n) && Run(n, steps, end) && s in n.bus.sinks && n.bus.sinks[s].def.mode == ConfirmedRequired
    requires var fs := Since(Reports(n, steps, s)); |fs| >= 3 && now < fs[|fs| - 1].until
    ensures s in end.bus.sinks && Take(end.bus, s, now) == (end.bus, None)
  {
    hide Starts, Run, NodeInv, Inv, Reports, Since, PauseAfter, Take, Pending, InFlightAt, Queue, SameDefinitions;
    StartIsSound(n);
    StartsUnpaused(n, s);
    RunFollows(n, steps, end, s, []);
    var rs := Reports(n, steps, s);
    assert [] + rs == rs;
    DefinitionStays(n, steps, end, s);
    RunKeeps(n, steps, end);
    assert Inv(end.bus) by { BusIsSound(end); }
    assert end.bus.sinks[s].pausedUntil == Some(Since(rs)[|Since(rs)| - 1].until) by { ThirdPauses(Since(rs)); }
    TakeDecides(end.bus, s, now);
    TakeKeepsInv(end.bus, s, now);
  }

  lemma ThirdPauses(fs: seq<Report>)
    requires |fs| >= 3
    ensures PauseAfter(ConfirmedRequired, fs) == Some(fs[|fs| - 1].until)
  {
  }

  lemma BusIsSound(n: Node)
    requires NodeInv(n)
    ensures Inv(n.bus)
  {
  }

  lemma {:induction false} DefinitionStays(n: Node, steps: seq<Step>, end: Node, s: SinkId)
    requires NodeInv(n) && Run(n, steps, end) && s in n.bus.sinks
    ensures s in end.bus.sinks && end.bus.sinks[s].def == n.bus.sinks[s].def
    decreases |steps|
  {
    hide NodeInv, Next, Enabled;
    if steps == [] {
    } else {
      StepKeeps(n, steps[0]);
      StepKeepsDefinition(n, steps[0], s);
      DefinitionStays(Next(n, steps[0]), steps[1..], end, s);
    }
  }

  lemma StepKeepsDefinition(n: Node, step: Step, s: SinkId)
    requires NodeInv(n) && Enabled(n, step) && s in n.bus.sinks
    ensures var n' := Next(n, step); s in n'.bus.sinks && n'.bus.sinks[s].def == n.bus.sinks[s].def
  {
    hide Inv, Publish, Take, Complete, Pending, RequiredOf, AfterTask, Snapshot, Settle;
    hide PhaseInv, MqttInv, HandedInv, Covered, Conserved, Durable, Recoverable, NoPhantom, Spoolable, Current;
    match step
    case PublishStep(e, tenant, bytes, targets) => PublishKeepsStanding(n.bus, e, tenant, bytes, targets, s);
    case TakeStep(x, now) => TakeKeepsStanding(n.bus, x, now, s);
    case CompleteStep(x, r, verdict, young, due, until) =>
      CompleteSettles(n.bus, x, r, verdict, young, due, until, s);
      SettleKeepsDefinition(n.bus.sinks[s], verdict, until);
    case _ => TaskOnly(n, step);
  }

  lemma SettleKeepsDefinition(k: Sink, verdict: Verdict, until: nat)
    ensures Settle(k, verdict, until).def == k.def
  {
  }

  /** The latest failure need not be the one that pauses: after a permanent one, a retryable one leaves the pause as it is. */
  lemma EarlierPauseStands(first: nat, second: nat)
    ensures var rs := [Report(Permanent, first), Report(Retryable, second)];
      Since(rs) == rs && !Pauses(rs, 1) && PauseAfter(ConfirmedRequired, rs) == Some(first)
  {
    var rs := [Report(Permanent, first), Report(Retryable, second)];
    assert rs[..1] == [rs[0]] && rs[..1][..0] == [];
    assert Since(rs[..1]) == [rs[0]];
    assert Since(rs) == rs;
  }
}
