/**
 Planned shutdown of the server, interleaved with publishers and sink workers. The shutdown task's waits and
 storage calls are the steps of one state machine; storage and broker outcomes, timeouts, publishers and
 workers are chosen by the run.
 */
module Shutdown {
  import opened Bytes
  import opened EventBus
  import opened Spool

  type Pair = (EventId, SinkId)

  /** The committed spool image, one per directory; a commit replaces it under the next generation. */
  datatype Disk = Disk(generation: nat, image: Image)

  datatype Mqtt = Uncommitted | Committed | Faulted

  datatype Phase =
    | Running
    | CommittingMqtt
    | AwaitingDrain
    | Spooling
    | Writing(image: Image)
    | RetryWait
    | Stopping(spooled: bool)
    | Removing
    | Deciding
    | Blocked
    | Closing
    | Finished
    | Failed

  datatype Node = Node(
    bus: Bus, disk: Option<Disk>,
    /** Generation of the image found at startup. */
    recovered: Option<nat>,
    mqtt: Mqtt, phase: Phase, workers: bool,
    /** The gateway has not itself ended its business connections; their accept loop still runs; it has failed. */
    business: bool, listening: bool, broken: bool,
    /** Every record ever handed to a worker; each may be completed late or more than once. */
    handed: set<(SinkId, Record)>,
    /** Required responsibilities ever accepted or restored, and those acknowledged. */
    accepted: multiset<Pair>, acked: multiset<Pair>,
    /** Restored at startup and not acknowledged since. */
    owed: set<Pair>,
    spool: SpoolLimits)

  datatype MqttOutcome = Stored | Structural | Transient
  datatype SpoolOutcome = Written | NotWritten | WrittenThenFailed
  datatype RemoveOutcome = Removed | NotRemoved | RemovedThenFailed

  datatype Step =
    | PublishStep(event: EventId, tenant: TenantId, bytes: nat, targets: set<SinkId>)
    | TakeStep(sink: SinkId, now: nat)
    | CompleteStep(sink: SinkId, record: Record, verdict: Verdict, young: bool, due: nat, until: nat)
    | QuiesceStep
    | MqttStep(mqttOutcome: MqttOutcome)
    | WaitStep(drained: bool)
    | SnapshotStep
    | SpoolStep(spoolOutcome: SpoolOutcome)
    | StopStep
    | RemoveStep(removeOutcome: RemoveOutcome)
    | DecideStep
    | FinishStep
    | AcceptFails
    | AcceptStops

  /** Steps of publishers and workers; the others are the shutdown task's and the accept loop's. */
  predicate OnBus(step: Step) {
    step.PublishStep? || step.TakeStep? || step.CompleteStep?
  }

  predicate Closed(n: Node) {
    n.phase != Running
  }

  predicate Alive(n: Node) {
    n.phase != Finished && n.phase != Failed
  }

  /** A commit refuses an image beyond the ceilings of the spool, however well the disk co-operates. */
  ghost predicate Enabled(n: Node, step: Step) {
    match step
    case PublishStep(_, _, _, targets) => Alive(n) && Routed(n.bus, targets)
    case TakeStep(s, _) => n.workers && s in n.bus.sinks
    case CompleteStep(s, r, _, _, _, _) => n.workers && s in n.bus.sinks && (s, r) in n.handed
    case QuiesceStep => n.phase == Running
    case MqttStep(_) => n.phase == CommittingMqtt
    case WaitStep(drained) =>
      (n.phase == AwaitingDrain || n.phase == RetryWait) && (drained ==> n.bus.pendingRequired == 0)
    case SnapshotStep => n.phase == Spooling
    case SpoolStep(outcome) => n.phase.Writing? && (outcome != NotWritten ==> Spoolable(n.spool, n.phase.image))
    case StopStep => n.phase.Stopping?
    case RemoveStep(_) => n.phase == Removing
    case DecideStep => n.phase == Deciding
    case FinishStep => n.phase == Closing
    case AcceptFails => Alive(n) && n.listening
    case AcceptStops => Alive(n) && Closed(n) && n.listening
  }

  function PairsOf(e: EventId, sinks: set<SinkId>): set<Pair> {
    set s | s in sinks :: (e, s)
  }

  function DiskPairs(disk: Option<Disk>): set<Pair> {
    if disk.Some? then Pairs(disk.value.image) else {}
  }

  function Replace(disk: Option<Disk>, image: Image): Disk {
    Disk(if disk.Some? then disk.value.generation + 1 else 1, image)
  }

  /** Cleanup removes the recovered image only while it is still the committed one. */
  function Cleaned(n: Node): Option<Disk> {
    if n.disk.Some? && n.recovered == Some(n.disk.value.generation) then None else n.disk
  }

  function AfterPublish(n: Node, e: EventId, tenant: TenantId, bytes: nat, targets: set<SinkId>): Node
    requires targets <= n.bus.sinks.Keys
  {
    var (bus, r) := Publish(n.bus, e, tenant, bytes, targets);
    if r == Accepted
    then n.(bus := bus, accepted := n.accepted + multiset(PairsOf(e, RequiredOf(n.bus, targets))))
    else n
  }

  function AfterTake(n: Node, s: SinkId, now: nat): Node
    requires s in n.bus.sinks
  {
    var (bus, r) := Take(n.bus, s, now);
    n.(bus := bus, handed := if r.Some? then n.handed + {(s, r.value)} else n.handed)
  }

  function AfterComplete(n: Node, s: SinkId, r: Record, verdict: Verdict, young: bool, due: nat, until: nat): Node
    requires s in n.bus.sinks
  {
    var bus := Complete(n.bus, s, r, verdict, young, due, until);
    var pair := (r.event, s);
    if Current(n.bus, s, r) && verdict == Ack && pair in Pending(n.bus.active)
    then n.(bus := bus, acked := n.acked + multiset{pair}, owed := n.owed - {pair})
    else n.(bus := bus)
  }

  /**
   A removal that fails ends the run, and everything the run owns goes with it, its business connections too. An
   accept loop that fails takes the business connections with it, and nobody watches it.
   */
  function AfterTask(n: Node, step: Step): Node
    requires Enabled(n, step) && !OnBus(step)
  {
    match step
    case QuiesceStep => n.(phase := CommittingMqtt, bus := n.bus.(accepting := false))
    case MqttStep(Stored) => n.(mqtt := Committed, phase := AwaitingDrain)
    case MqttStep(Structural) => n.(mqtt := Faulted, phase := AwaitingDrain)
    case MqttStep(Transient) => n
    case WaitStep(drained) => n.(phase := if drained then Stopping(false) else Spooling)
    case SnapshotStep =>
      var image := Snapshot(n.bus);
      n.(phase := if image == map[] then Stopping(false) else Writing(image))
    case SpoolStep(Written) => n.(disk := Some(Replace(n.disk, n.phase.image)), phase := Stopping(true))
    case SpoolStep(NotWritten) => n.(phase := RetryWait)
    case SpoolStep(WrittenThenFailed) => n.(disk := Some(Replace(n.disk, n.phase.image)), phase := RetryWait)
    case StopStep =>
      n.(workers := false, phase := if !n.phase.spooled && n.recovered.Some? then Removing else Deciding)
    case RemoveStep(Removed) => n.(disk := Cleaned(n), phase := Deciding)
    case RemoveStep(NotRemoved) => n.(business := false, phase := Failed)
    case RemoveStep(RemovedThenFailed) => n.(disk := Cleaned(n), business := false, phase := Failed)
    case DecideStep => if n.mqtt == Committed then n.(business := false, phase := Closing) else n.(phase := Blocked)
    case FinishStep => n.(phase := Finished)
    case AcceptFails => n.(listening := false, broken := true, business := false)
    case AcceptStops => n.(listening := false)
  }

  function Next(n: Node, step: Step): Node
    requires Enabled(n, step)
  {
    match step
    case PublishStep(e, tenant, bytes, targets) => AfterPublish(n, e, tenant, bytes, targets)
    case TakeStep(s, now) => AfterTake(n, s, now)
    case CompleteStep(s, r, verdict, young, due, until) => AfterComplete(n, s, r, verdict, young, due, until)
    case _ => AfterTask(n, step)
  }

  /** Shutdown changes neither the events of the bus nor the books. */
  lemma TaskOnly(n: Node, step: Step)
    requires Enabled(n, step) && !OnBus(step)
    ensures var n' := AfterTask(n, step);
      && n'.bus.active == n.bus.active && n'.bus.limits == n.bus.limits && n'.bus.sinks == n.bus.sinks
      && n'.acked == n.acked && n'.accepted == n.accepted && n'.spool == n.spool
  {
    hide Snapshot, Enabled, Replace, Cleaned;
    match step
    case MqttStep(outcome) => match outcome { case Stored => case Structural => case Transient => }
    case SpoolStep(outcome) => match outcome { case Written => case NotWritten => case WrittenThenFailed => }
    case RemoveStep(outcome) => match outcome { case Removed => case NotRemoved => case RemovedThenFailed => }
    case _ =>
  }

  /** What shutdown does to the disk, and what it writes there. */
  lemma TaskOnDisk(n: Node, step: Step)
    requires Enabled(n, step) && !OnBus(step)
    ensures var n' := AfterTask(n, step);
      && (n'.disk == n.disk || n'.disk == None || (n.phase.Writing? && n'.disk == Some(Replace(n.disk, n.phase.image))))
      && (n'.phase.Writing? ==> n'.phase == n.phase || n'.phase.image == Snapshot(n.bus))
  {
    hide Snapshot, Spoolable, Replace;
    match step
    case MqttStep(outcome) => match outcome { case Stored => case Structural => case Transient => }
    case SpoolStep(outcome) => match outcome { case Written => case NotWritten => case WrittenThenFailed => }
    case RemoveStep(outcome) => match outcome { case Removed => case NotRemoved => case RemovedThenFailed => }
    case _ =>
  }

  /** Not past the point at which owed work is waited for or spooled. */
  predicate NotAhead(p: Phase) {
    p.Running? || p.CommittingMqtt? || p.AwaitingDrain? || p.Spooling? || p.Writing? || p.RetryWait? || p.Blocked?
  }

  /** The ways past spooling: nothing owed, nothing to write, or an image written. */
  lemma TaskGetsAhead(n: Node, step: Step)
    requires Enabled(n, step) && !OnBus(step)
    requires NotAhead(n.phase)
    ensures var n' := AfterTask(n, step);
      || NotAhead(n'.phase)
      || n.bus.pendingRequired == 0 || Snapshot(n.bus) == map[] || (n.phase.Writing? && Spoolable(n.spool, n.phase.image))
  {
    hide Snapshot, Spoolable, Replace, Cleaned;
  }

  /** Acknowledgements and acceptances only add up. */
  lemma BooksGrow(n: Node, step: Step)
    requires Enabled(n, step)
    ensures n.acked <= Next(n, step).acked && n.accepted <= Next(n, step).accepted
  {
    hide AfterTask, Publish, Take, Complete, Pending, Current, RequiredOf;
    if !OnBus(step) { TaskOnly(n, step); }
  }

  // ---- invariants ----

  /** What the phase has established about the work still owed. */
  predicate PhaseInv(n: Node) {
    var pending := Pending(n.bus.active);
    && (Closed(n) ==> !n.bus.accepting)
    && match n.phase
       case Writing(image) => pending <= Pairs(image)
       case Stopping(spooled) => if spooled then pending <= DiskPairs(n.disk) else pending == {}
       case Removing => pending == {}
       case Deciding => pending <= DiskPairs(n.disk)
       case Blocked => pending <= DiskPairs(n.disk) && n.mqtt == Faulted
       case Closing => pending <= DiskPairs(n.disk) && n.mqtt == Committed
       case Finished => pending <= DiskPairs(n.disk) && n.mqtt == Committed
       case Failed => pending == {}
       case _ => true
  }

  /** Phases in which the sink workers run. */
  predicate Working(p: Phase) {
    p.Running? || p.CommittingMqtt? || p.AwaitingDrain? || p.Spooling? || p.Writing? || p.RetryWait? || p.Stopping?
  }

  predicate MqttInv(n: Node) {
    && (n.phase == Running || n.phase == CommittingMqtt ==> n.mqtt == Uncommitted)
    && (n.phase != Running && n.phase != CommittingMqtt ==> n.mqtt != Uncommitted)
    && (n.business <==> !n.broken && n.phase != Closing && n.phase != Finished && n.phase != Failed)
    && (n.workers <==> Working(n.phase))
  }

  /** Late completions cannot pass for current ones. */
  predicate HandedInv(b: Bus, handed: set<(SinkId, Record)>) {
    forall p :: p in handed ==>
      && p.1.operation <= b.nextOperation
      && (Current(b, p.0, p.1) ==> Genuine(b, p.0, p.1))
  }

  /** A record that says of its event what the bus says. */
  predicate Genuine(b: Bus, s: SinkId, r: Record)
    requires r.event in b.active
  {
    r.bytes == b.active[r.event].bytes && r.attempt == AttemptsAt(b.active[r.event], s)
  }

  predicate HandedOut(handed: set<(SinkId, Record)>, e: EventId, s: SinkId, op: nat) {
    exists p :: p in handed && p.0 == s && p.1.event == e && p.1.operation == op
  }

  /** Every delivery in flight is with a worker. */
  predicate Covered(active: map<EventId, Active>, handed: set<(SinkId, Record)>) {
    forall e, s :: e in active && s in active[e].operations ==> HandedOut(handed, e, s, active[e].operations[s])
  }

  /** Nothing accepted is lost, nothing is acknowledged twice. */
  predicate Conserved(accepted: multiset<Pair>, acked: multiset<Pair>, pending: set<Pair>) {
    accepted == acked + multiset(pending)
  }

  /** Restored work stays on disk until it is acknowledged. */
  predicate Durable(owed: set<Pair>, pending: set<Pair>, disk: Option<Disk>) {
    owed <= pending && owed <= DiskPairs(disk)
  }

  /** `image` was written by a consistent bus with the same sinks and limits. */
  ghost predicate Recoverable(b: Bus, image: Image) {
    exists w :: Inv(w) && w.limits == b.limits && SameDefinitions(w.sinks, b.sinks) && Snapshot(w) == image
  }

  /** Nothing is on disk that was not accepted or restored. */
  predicate NoPhantom(pairs: set<Pair>, accepted: multiset<Pair>) {
    forall p :: p in pairs ==> p in accepted
  }

  ghost predicate NodeInv(n: Node) {
    && Inv(n.bus) && PhaseInv(n) && MqttInv(n) && HandedInv(n.bus, n.handed)
    && Conserved(n.accepted, n.acked, Pending(n.bus.active))
    && Durable(n.owed, Pending(n.bus.active), n.disk)
    && Covered(n.bus.active, n.handed) && NoPhantom(DiskPairs(n.disk), n.accepted)
    && (n.disk.Some? ==> Recoverable(n.bus, n.disk.value.image) && Spoolable(n.spool, n.disk.value.image))
    && (n.phase.Writing? ==> Recoverable(n.bus, n.phase.image) && NoPhantom(Pairs(n.phase.image), n.accepted))
  }

  // ---- every step keeps them ----

  lemma RecoverableCarries(b: Bus, b': Bus, image: Image)
    requires Recoverable(b, image) && b.limits == b'.limits && SameDefinitions(b.sinks, b'.sinks)
    ensures Recoverable(b', image)
  {
    hide Inv, Snapshot;
    var w :| Inv(w) && w.limits == b.limits && SameDefinitions(w.sinks, b.sinks) && Snapshot(w) == image;
  }

  /** What a step of a publisher or worker keeps. */
  ghost predicate Kept(n: Node, n': Node) {
    && n' == n.(bus := n'.bus, handed := n'.handed, accepted := n'.accepted, acked := n'.acked, owed := n'.owed)
    && Inv(n'.bus) && PhaseInv(n') && HandedInv(n'.bus, n'.handed)
    && Conserved(n'.accepted, n'.acked, Pending(n'.bus.active))
    && Durable(n'.owed, Pending(n'.bus.active), n'.disk)
    && SameConfiguration(n.bus, n'.bus) && Covered(n'.bus.active, n'.handed) && n.accepted <= n'.accepted
  }

  lemma AddPairs(accepted: multiset<Pair>, acked: multiset<Pair>, pending: set<Pair>, added: set<Pair>)
    requires Conserved(accepted, acked, pending) && pending !! added
    ensures Conserved(accepted + multiset(added), acked, pending + added)
  {
    assert multiset(pending + added) == multiset(pending) + multiset(added);
  }

  lemma AckPair(accepted: multiset<Pair>, acked: multiset<Pair>, pending: set<Pair>, p: Pair)
    requires Conserved(accepted, acked, pending) && p in pending
    ensures Conserved(accepted, acked + multiset{p}, pending - {p})
  {
    assert multiset(pending) == multiset(pending - {p}) + multiset{p};
  }

  /** The phase does not mind work being acknowledged. */
  lemma PhaseKept(n: Node, n': Node)
    requires PhaseInv(n) && n' == n.(bus := n'.bus, handed := n'.handed, accepted := n'.accepted, acked := n'.acked, owed := n'.owed)
    requires n'.bus.accepting == n.bus.accepting
    requires n.phase == Running || Pending(n'.bus.active) <= Pending(n.bus.active)
    ensures PhaseInv(n')
  {
    hide Pending, Pairs;
  }

  lemma HandedKept(b: Bus, b': Bus, handed: set<(SinkId, Record)>)
    requires HandedInv(b, handed) && b.nextOperation <= b'.nextOperation
    requires forall x, y :: Current(b', x, y) ==> Current(b, x, y) && (Genuine(b, x, y) ==> Genuine(b', x, y))
    ensures HandedInv(b', handed)
  {
    hide Genuine, Current;
  }

  /** No delivery is in flight after that was not in flight before. */
  predicate NoneTakenOff(x: map<EventId, Active>, y: map<EventId, Active>) {
    forall e, s :: e in y && s in y[e].operations ==>
      e in x && s in x[e].operations && x[e].operations[s] == y[e].operations[s]
  }

  lemma CoveredKept(x: map<EventId, Active>, y: map<EventId, Active>, handed: set<(SinkId, Record)>)
    requires Covered(x, handed) && NoneTakenOff(x, y)
    ensures Covered(y, handed)
  {
  }

  lemma PublishKeeps(n: Node, e: EventId, tenant: TenantId, bytes: nat, targets: set<SinkId>)
    requires NodeInv(n) && Routed(n.bus, targets)
    ensures Kept(n, AfterPublish(n, e, tenant, bytes, targets))
  {
    hide Inv, Pending, Publish, PhaseInv, HandedInv, SameDefinitions, Recoverable, Conserved, NoPhantom, Covered, Spoolable;
    PublishKeepsInv(n.bus, e, tenant, bytes, targets);
    var (b', r) := Publish(n.bus, e, tenant, bytes, targets);
    if r == Accepted {
      var added := PairsOf(e, RequiredOf(n.bus, targets));
      assert added !! Pending(n.bus.active);
      AddPairs(n.accepted, n.acked, Pending(n.bus.active), added);
      AcceptedWhileRunning(n, e, tenant, bytes, targets);
      PhaseKept(n, AfterPublish(n, e, tenant, bytes, targets));
      OthersUntouched(n.bus, b', e);
      HandedKept(n.bus, b', n.handed);
      CoveredKept(n.bus.active, b'.active, n.handed);
    }
  }

  lemma OthersUntouched(b: Bus, b': Bus, e: EventId)
    requires e in b'.active && b'.active[e].operations == map[] && b'.active - {e} == b.active
    ensures forall x, y :: Current(b', x, y) ==> Current(b, x, y) && (Genuine(b, x, y) ==> Genuine(b', x, y))
    ensures NoneTakenOff(b.active, b'.active)
  {
    forall x, y | Current(b', x, y) ensures Current(b, x, y) && (Genuine(b, x, y) ==> Genuine(b', x, y)) {
      assert y.event in b'.active - {e};
    }
    forall d, s | d in b'.active && s in b'.active[d].operations
      ensures d in b.active && b'.active[d] == b.active[d]
    {
      assert d in b'.active - {e};
    }
  }

  /** Admission is over when shutdown has begun. */
  lemma AcceptedWhileRunning(n: Node, e: EventId, tenant: TenantId, bytes: nat, targets: set<SinkId>)
    requires PhaseInv(n) && targets <= n.bus.sinks.Keys && Publish(n.bus, e, tenant, bytes, targets).1 == Accepted
    ensures n.phase == Running
  {
  }

  lemma TakeKeeps(n: Node, s: SinkId, now: nat)
    requires NodeInv(n) && s in n.bus.sinks
    ensures Kept(n, AfterTake(n, s, now))
  {
    hide Inv, Pending, PhaseInv, SameDefinitions, Recoverable, Conserved, NoPhantom, Covered, Spoolable, HandedInv, Take;
    TakeKeepsInv(n.bus, s, now);
    TakeHandsOut(n.bus, n.handed, s, now);
    PhaseKept(n, AfterTake(n, s, now));
  }

  /** The record handed out is the only new delivery in flight, and no older record passes for it. */
  lemma TakeHandsOut(b: Bus, handed: set<(SinkId, Record)>, s: SinkId, now: nat)
    requires Inv(b) && s in b.sinks && HandedInv(b, handed) && Covered(b.active, handed)
    ensures var (b', r) := Take(b, s, now);
      var handed' := if r.Some? then handed + {(s, r.value)} else handed;
      HandedInv(b', handed') && Covered(b'.active, handed')
  {
    hide Inv, Promote, SameDefinitions, Pending;
    TakeKeepsInv(b, s, now);
    var (b', r) := Take(b, s, now);
    if r.Some? {
      var handed' := handed + {(s, r.value)};
      forall e, x | e in b'.active && x in b'.active[e].operations
        ensures HandedOut(handed', e, x, b'.active[e].operations[x])
      {
        if e == r.value.event && x == s {
          assert (s, r.value) in handed';
        } else {
          assert HandedOut(handed, e, x, b.active[e].operations[x]);
          var p :| p in handed && p.0 == x && p.1.event == e && p.1.operation == b.active[e].operations[x];
          assert p in handed';
        }
      }
    }
  }

  lemma HandedIsGenuine(b: Bus, handed: set<(SinkId, Record)>, s: SinkId, r: Record)
    requires HandedInv(b, handed) && (s, r) in handed && Current(b, s, r)
    ensures Genuine(b, s, r)
  {
    var p := (s, r);
    assert p in handed && p.0 == s && p.1 == r;
  }

  /** The books after a completion. */
  lemma CompleteAccounts(n: Node, s: SinkId, r: Record, verdict: Verdict, young: bool, due: nat, until: nat)
    requires Inv(n.bus) && Conserved(n.accepted, n.acked, Pending(n.bus.active))
    requires Durable(n.owed, Pending(n.bus.active), n.disk)
    requires s in n.bus.sinks && (Current(n.bus, s, r) ==> Genuine(n.bus, s, r))
    ensures var n' := AfterComplete(n, s, r, verdict, young, due, until);
      && n'.bus == Complete(n.bus, s, r, verdict, young, due, until)
      && n' == n.(bus := n'.bus, acked := n'.acked, owed := n'.owed)
      && Pending(n'.bus.active) <= Pending(n.bus.active)
      && (n'.acked == n.acked ==> Pending(n'.bus.active) == Pending(n.bus.active))
      && Conserved(n'.accepted, n'.acked, Pending(n'.bus.active))
      && Durable(n'.owed, Pending(n'.bus.active), n'.disk)
  {
    hide Inv, Pending, Complete, Current, Conserved, DiskPairs, SameConfiguration;
    CompleteKeepsInv(n.bus, s, r, verdict, young, due, until);
    var p, pending := (r.event, s), Pending(n.bus.active);
    if Current(n.bus, s, r) && verdict == Ack && p in pending {
      AckPair(n.accepted, n.acked, pending, p);
      assert (n.acked + multiset{p})[p] == n.acked[p] + 1;
    } else {
      assert Pending(Complete(n.bus, s, r, verdict, young, due, until).active) == pending;
    }
  }

  lemma CompleteKeeps(n: Node, s: SinkId, r: Record, verdict: Verdict, young: bool, due: nat, until: nat)
    requires NodeInv(n) && s in n.bus.sinks && (s, r) in n.handed
    ensures Kept(n, AfterComplete(n, s, r, verdict, young, due, until))
  {
    hide Inv, Pending, Complete, Current, PhaseInv, HandedInv, SameDefinitions, Recoverable, Conserved, NoPhantom, Covered;
    hide DiskPairs, MqttInv, Durable, AfterComplete, Spoolable, NoneTakenOff, Genuine;
    if Current(n.bus, s, r) { HandedIsGenuine(n.bus, n.handed, s, r); }
    CompleteKeepsInv(n.bus, s, r, verdict, young, due, until);
    CompleteAccounts(n, s, r, verdict, young, due, until);
    CompletedStaysCurrent(n.bus, s, r, verdict, young, due, until);
    var n' := AfterComplete(n, s, r, verdict, young, due, until);
    PhaseKept(n, n');
    HandedKept(n.bus, n'.bus, n.handed);
    CoveredKept(n.bus.active, n'.bus.active, n.handed);
  }

  /** A completion makes no delivery current that was not. */
  lemma CompletedStaysCurrent(b: Bus, s: SinkId, r: Record, verdict: Verdict, young: bool, due: nat, until: nat)
    requires s in b.sinks
    ensures var b' := Complete(b, s, r, verdict, young, due, until);
      forall x, y :: Current(b', x, y) ==> Current(b, x, y) && (Genuine(b, x, y) ==> Genuine(b', x, y))
    ensures NoneTakenOff(b.active, Complete(b, s, r, verdict, young, due, until).active)
  {
    hide Landed, Released, Complete;
    if Current(b, s, r) {
      CompletedActive(b, s, r, verdict, young, due, until);
      LandedIsNotCurrent(b.active[r.event], s, Bumped(r.attempt), true);
      LandedIsNotCurrent(b.active[r.event], s, Bumped(r.attempt), verdict != Ack);
    } else {
      assert Complete(b, s, r, verdict, young, due, until) == b by { NotCurrent(b, s, r, verdict, young, due, until); }
    }
  }

  lemma LandedIsNotCurrent(a: Active, s: SinkId, attempt: nat, failed: bool)
    ensures var a' := Landed(a, s, attempt, failed);
      && a'.bytes == a.bytes && a'.remaining == a.remaining && a'.operations == a.operations - {s}
      && forall x :: x != s ==> AttemptsAt(a', x) == AttemptsAt(a, x)
    ensures var a' := Released(a, s, attempt, failed);
      && a'.bytes == a.bytes && a'.remaining <= a.remaining && a'.operations == a.operations - {s}
      && forall x :: x != s ==> AttemptsAt(a', x) == AttemptsAt(a, x)
  {
  }

  lemma CloseKeepsInv(b: Bus)
    requires Inv(b)
    ensures Inv(b.(accepting := false))
  {
    hide Total, SinkInv, ActiveInv;
    forall t ensures TenantInv(b.(accepting := false), t) {
      assert TenantInv(b, t);
    }
  }

  /** The counter that shutdown waits on is zero exactly when nothing required is owed. */
  lemma NothingPending(b: Bus)
    requires Counts(b)
    ensures b.pendingRequired == 0 <==> Pending(b.active) == {}
  {
    hide Total;
    TotalIsZero(b.active, RequiredWeight());
    if e: EventId :| e in b.active && RequiredWeight()(b.active[e]) != 0 {
      var s :| s in b.active[e].required;
      assert (e, s) in Pending(b.active);
    } else {
      assert forall e :: e in b.active ==> b.active[e].required == {};
    }
  }

  lemma QuiesceKeeps(n: Node)
    requires NodeInv(n) && n.phase == Running
    ensures NodeInv(Next(n, QuiesceStep))
  {
    hide Inv, Total, Spoolable;
    CloseKeepsInv(n.bus);
    RecoverableHere(n, Next(n, QuiesceStep));
  }

  lemma RecoverableHere(n: Node, n': Node)
    requires n.disk.Some? ==> Recoverable(n.bus, n.disk.value.image) && Spoolable(n.spool, n.disk.value.image)
    requires n'.disk == n.disk && n'.spool == n.spool && n.bus.limits == n'.bus.limits && SameDefinitions(n.bus.sinks, n'.bus.sinks)
    ensures n'.disk.Some? ==> Recoverable(n'.bus, n'.disk.value.image) && Spoolable(n'.spool, n'.disk.value.image)
  {
    if n.disk.Some? { RecoverableCarries(n.bus, n'.bus, n.disk.value.image); }
  }

  lemma SnapshotOfNothing(b: Bus)
    ensures Snapshot(b) == map[] ==> Pending(b.active) == {}
  {
    assert Pairs(Snapshot(b)) == Pending(b.active);
  }

  lemma PendingIsGenuine(n: Node)
    requires Conserved(n.accepted, n.acked, Pending(n.bus.active))
    ensures NoPhantom(Pending(n.bus.active), n.accepted)
  {
  }

  lemma SnapshotKeeps(n: Node)
    requires NodeInv(n) && n.phase == Spooling
    ensures NodeInv(Next(n, SnapshotStep))
  {
    hide Inv, HandedInv, Covered, Conserved, NoPhantom, Pending, Pairs, Durable, DiskPairs, Snapshot, Spoolable;
    assert Recoverable(n.bus, Snapshot(n.bus));
    SnapshotOfNothing(n.bus);
    PendingIsGenuine(n);
  }

  /** Steps that leave the bus, the disk and the books alone. */
  predicate Inward(step: Step) {
    || step.MqttStep? || step.WaitStep? || step.StopStep? || step.DecideStep? || step.FinishStep?
    || step.AcceptFails? || step.AcceptStops?
  }

  lemma InwardOnly(n: Node, step: Step)
    requires Enabled(n, step) && Inward(step)
    ensures var n' := AfterTask(n, step);
      && n' == n.(mqtt := n'.mqtt, phase := n'.phase, workers := n'.workers,
                  business := n'.business, listening := n'.listening, broken := n'.broken)
      && (n'.phase.Writing? ==> n'.phase == n.phase)
  {
    hide Enabled;
    match step
    case MqttStep(outcome) => match outcome { case Stored => case Structural => case Transient => }
    case _ =>
  }

  lemma InwardPhases(n: Node, step: Step)
    requires PhaseInv(n) && MqttInv(n) && Counts(n.bus) && Enabled(n, step) && Inward(step)
    ensures PhaseInv(AfterTask(n, step)) && MqttInv(AfterTask(n, step))
  {
    hide Pending, Counts, DiskPairs, Pairs;
    match step
    case MqttStep(outcome) => match outcome { case Stored => case Structural => case Transient => }
    case WaitStep(_) => NothingPending(n.bus);
    case StopStep => NothingOnDisk(n.disk);
    case _ =>
  }

  lemma TaskKeeps(n: Node, step: Step)
    requires NodeInv(n) && Enabled(n, step) && Inward(step)
    ensures NodeInv(Next(n, step))
  {
    hide HandedInv, Conserved, Pending, Recoverable, SinksInv, TenantsInv, ActivesInv, Counts, Covered, NoPhantom, Spoolable;
    hide AfterTask, Durable, DiskPairs, Pairs, PhaseInv, MqttInv, Enabled;
    InwardOnly(n, step);
    InwardPhases(n, step);
  }

  lemma NothingOnDisk(disk: Option<Disk>)
    ensures {} <= DiskPairs(disk)
  {
  }

  /** Steps that write the spool image. */
  lemma SpoolKeeps(n: Node, step: Step)
    requires NodeInv(n) && Enabled(n, step) && step.SpoolStep?
    ensures NodeInv(Next(n, step))
  {
    hide HandedInv, Conserved, Pending, Recoverable, Inv, Pairs, Covered, NoPhantom, Spoolable;
    hide AfterPublish, AfterTake, AfterComplete;
  }

  /** Steps that remove the recovered image. */
  lemma RemoveKeeps(n: Node, step: Step)
    requires NodeInv(n) && Enabled(n, step) && step.RemoveStep?
    ensures NodeInv(Next(n, step))
  {
    hide HandedInv, Conserved, Pending, Recoverable, Inv, Pairs, Covered, Spoolable, Cleaned;
    hide AfterPublish, AfterTake, AfterComplete;
    CleanedOnly(n);
    match step.removeOutcome
    case Removed =>
    case NotRemoved =>
    case RemovedThenFailed =>
  }

  lemma CleanedOnly(n: Node)
    ensures Cleaned(n) == None || Cleaned(n) == n.disk
  {
  }

  /** Every step keeps every invariant. */
  lemma StepKeeps(n: Node, step: Step)
    requires NodeInv(n) && Enabled(n, step)
    ensures NodeInv(Next(n, step))
  {
    hide Inv, PhaseInv, HandedInv, Conserved, Durable, Recoverable, AfterPublish, AfterTake, AfterComplete, SameDefinitions;
    hide Covered, NoPhantom, Spoolable;
    match step
    case PublishStep(e, tenant, bytes, targets) =>
      PublishKeeps(n, e, tenant, bytes, targets);
      RestKept(n, Next(n, step));
    case TakeStep(s, now) =>
      TakeKeeps(n, s, now);
      RestKept(n, Next(n, step));
    case CompleteStep(s, r, verdict, young, due, until) =>
      CompleteKeeps(n, s, r, verdict, young, due, until);
      RestKept(n, Next(n, step));
    case QuiesceStep => QuiesceKeeps(n);
    case SnapshotStep => SnapshotKeeps(n);
    case SpoolStep(_) => SpoolKeeps(n, step);
    case RemoveStep(_) => RemoveKeeps(n, step);
    case _ => TaskKeeps(n, step);
  }

  lemma RestKept(n: Node, n': Node)
    requires NodeInv(n) && Kept(n, n')
    ensures NodeInv(n')
  {
    hide Inv, PhaseInv, HandedInv, Conserved, Durable, Recoverable, SameDefinitions, Covered, DiskPairs, Spoolable;
    RecoverableHere(n, n');
    if n.phase.Writing? { RecoverableCarries(n.bus, n'.bus, n.phase.image); }
  }

  // ---- whole runs ----

  /** What a start makes of the disk it finds: a fresh bus, into which it has restored the image if there is one. */
  ghost predicate Boots(b: Bus, disk: Option<Disk>) {
    if disk.None? then Fresh(b)
    else exists f, ids :: Fresh(f) && Lists(ids, disk.value.image) && Restore(f, ids, disk.value.image) == Some(b)
  }

  function StartNode(b: Bus, disk: Option<Disk>, spool: SpoolLimits): Node {
    var owed := DiskPairs(disk);
    Node(b, disk, if disk.Some? then Some(disk.value.generation) else None,
         Uncommitted, Running, true, true, true, false, {}, multiset(owed), multiset{}, owed, spool)
  }

  /** A start refuses an image beyond the ceilings of the spool. */
  ghost predicate Starts(n: Node) {
    && n == StartNode(n.bus, n.disk, n.spool) && Boots(n.bus, n.disk) && n.bus.accepting
    && (n.disk.Some? ==> Spoolable(n.spool, n.disk.value.image))
  }

  ghost predicate Run(n: Node, steps: seq<Step>, end: Node)
    decreases |steps|
  {
    if steps == [] then n == end
    else Enabled(n, steps[0]) && Run(Next(n, steps[0]), steps[1..], end)
  }

  lemma {:induction false} RunKeeps(n: Node, steps: seq<Step>, end: Node)
    requires NodeInv(n) && Run(n, steps, end)
    ensures NodeInv(end)
    decreases |steps|
  {
    hide NodeInv, Next, Enabled;
    if steps == [] {
    } else {
      StepKeeps(n, steps[0]);
      RunKeeps(Next(n, steps[0]), steps[1..], end);
    }
  }

  /** A bus with a restored image is consistent, owes exactly the image, and would write it again. */
  lemma BootedBus(b: Bus, disk: Option<Disk>)
    requires Boots(b, disk)
    ensures Inv(b) && Idle(b.active) && Pending(b.active) == DiskPairs(disk)
    ensures disk.Some? ==> Snapshot(b) == disk.value.image
  {
    hide Inv, Snapshot, Restore, Pending, Pairs, Part;
    if disk.None? {
      FreshInv(b);
    } else {
      var image := disk.value.image;
      var f, ids :| Fresh(f) && Lists(ids, image) && Restore(f, ids, image) == Some(b);
      FreshInv(f);
      RestoreKeepsInv(f, ids, image);
      RestoredIsIdle(f, ids, image);
      RestoredIsSnapshot(f, ids, image);
      WholePart(image, ids);
    }
  }

  lemma StartIsSound(n: Node)
    requires Starts(n)
    ensures NodeInv(n)
  {
    hide Inv, Pairs, Pending, Boots, Snapshot, Spoolable;
    BootedBus(n.bus, n.disk);
    assert n.disk.Some? ==> Recoverable(n.bus, n.disk.value.image);
  }

  /** What the invariants say, by phase, of the work that is owed and of the business connections. */
  predicate Safe(n: Node) {
    var pending, onDisk := Pending(n.bus.active), DiskPairs(n.disk);
    && (n.phase == Finished ==> n.mqtt == Committed && pending <= onDisk)
    && (n.phase == Removing ==> pending == {} && !n.workers)
    && (n.phase == Failed ==> pending == {})
    && (n.phase == Blocked ==> n.mqtt == Faulted && pending <= onDisk)
    && (!n.business <==> n.broken || n.phase == Closing || n.phase == Finished || n.phase == Failed)
    && (!n.business && !n.broken ==> pending <= onDisk)
    && (!n.business && n.mqtt != Committed <==>
          (n.broken && n.mqtt != Committed) || (n.phase == Failed && n.mqtt == Faulted))
  }

  lemma PhasesAreSafe(n: Node)
    requires PhaseInv(n) && MqttInv(n)
    ensures Safe(n)
  {
    hide Pending, DiskPairs;
  }

  /**
   Every run of a node, from a start to any point of its shutdown:
   nothing accepted is ever lost, restored work is on disk until acknowledged, and a shutdown that completes
   leaves every unacknowledged responsibility in the committed image, with the broker's state committed too.
   As long as the accept loop has not failed, the business connections end only when that work is safe, and without
   the broker's state committed exactly when a removal failed after a structural fault of the broker.
   */
  lemma RunIsSafe(n: Node, steps: seq<Step>, end: Node)
    requires Starts(n) && Run(n, steps, end)
    ensures end.accepted == end.acked + multiset(Pending(end.bus.active))
    ensures end.owed <= DiskPairs(end.disk)
    ensures forall p :: p in DiskPairs(end.disk) ==> p in end.accepted
    ensures Safe(end)
  {
    hide Inv, Recoverable, Pairs, Pending, DiskPairs, Starts, Run, PhaseInv, MqttInv, Safe, HandedInv, Covered, Spoolable;
    StartIsSound(n);
    RunKeeps(n, steps, end);
    PhasesAreSafe(end);
  }

  /** After admission is closed, every publication is still answered, and changes nothing. */
  lemma LatePublicationIsRefused(n: Node, e: EventId, tenant: TenantId, bytes: nat, targets: set<SinkId>)
    requires NodeInv(n) && Closed(n) && Alive(n) && Routed(n.bus, targets)
    ensures Publish(n.bus, e, tenant, bytes, targets).1 == Draining
    ensures Enabled(n, PublishStep(e, tenant, bytes, targets)) && Next(n, PublishStep(e, tenant, bytes, targets)) == n
  {
    hide Inv, Pending, Recoverable, HandedInv, Covered, Conserved, Durable, NoPhantom, Spoolable;
  }

  /** Broker and disk may answer anything at any time, except that an image beyond the spool's ceilings is never written. */
  lemma StorageMayFail(n: Node, mqtt: MqttOutcome, spool: SpoolOutcome, remove: RemoveOutcome)
    ensures n.phase == CommittingMqtt ==> Enabled(n, MqttStep(mqtt))
    ensures n.phase.Writing? ==> (Enabled(n, SpoolStep(spool)) <==> spool == NotWritten || Spoolable(n.spool, n.phase.image))
    ensures n.phase == Removing ==> Enabled(n, RemoveStep(remove))
  {
  }

  predicate BrokerKnows(n: Node, stored: bool, structural: bool) {
    n.mqtt == (if stored then Committed else if structural then Faulted else Uncommitted) && !(stored && structural)
  }

  lemma StepKeepsBroker(n: Node, step: Step, stored: bool, structural: bool)
    requires MqttInv(n) && Enabled(n, step) && BrokerKnows(n, stored, structural)
    ensures BrokerKnows(Next(n, step), stored || step == MqttStep(Stored), structural || step == MqttStep(Structural))
  {
    hide Publish, Take, Complete, Pending, Current, RequiredOf, Snapshot, Spoolable, Replace, Cleaned;
    match step
    case MqttStep(outcome) => match outcome { case Stored => case Structural => case Transient => }
    case SpoolStep(outcome) => match outcome { case Written => case NotWritten => case WrittenThenFailed => }
    case RemoveStep(outcome) => match outcome { case Removed => case NotRemoved => case RemovedThenFailed => }
    case _ =>
  }

  lemma {:induction false} RunKeepsBroker(n: Node, steps: seq<Step>, end: Node, stored: bool, structural: bool)
    requires NodeInv(n) && Run(n, steps, end) && BrokerKnows(n, stored, structural)
    ensures BrokerKnows(end, stored || MqttStep(Stored) in steps, structural || MqttStep(Structural) in steps)
    decreases |steps|
  {
    hide Inv, PhaseInv, HandedInv, Covered, Conserved, Durable, Recoverable, NoPhantom, Next, Enabled, BrokerKnows, MqttInv;
    if steps == [] {
    } else {
      StepKeeps(n, steps[0]);
      StepKeepsBroker(n, steps[0], stored, structural);
      RunKeepsBroker(Next(n, steps[0]), steps[1..], end,
                     stored || steps[0] == MqttStep(Stored), structural || steps[0] == MqttStep(Structural));
    }
  }

  /** In every run the broker's state is committed exactly after it was stored, and faulted exactly after a structural
      failure; transient failures leave it open, and not both can happen. */
  lemma BrokerOutcome(n: Node, steps: seq<Step>, end: Node)
    requires Starts(n) && Run(n, steps, end)
    ensures end.mqtt == Committed <==> MqttStep(Stored) in steps
    ensures end.mqtt == Faulted <==> MqttStep(Structural) in steps
  {
    hide Run, NodeInv, Boots, Spoolable;
    StartIsSound(n);
    RunKeepsBroker(n, steps, end, false, false);
  }

  // ---- how the business connections end ----

  /**
   Of all steps, the failure of the accept loop and a failing removal after a structural fault end the connections
   with the broker uncommitted, and the failure of the accept loop alone ends them with owed work not on disk.
   */
  lemma BusinessLost(n: Node, step: Step)
    requires NodeInv(n) && Enabled(n, step) && n.business
    ensures var n' := Next(n, step);
      !n'.business && n'.mqtt != Committed <==>
        || (step == AcceptFails && n.mqtt != Committed)
        || (step.RemoveStep? && step.removeOutcome != Removed && n.mqtt == Faulted)
    ensures var n' := Next(n, step);
      !n'.business && !(Pending(n'.bus.active) <= DiskPairs(n'.disk)) <==>
        step == AcceptFails && !(Pending(n.bus.active) <= DiskPairs(n.disk))
  {
    hide Inv, HandedInv, Covered, Conserved, Durable, Recoverable, NoPhantom, Publish, Take, Complete, Snapshot, Pending, DiskPairs;
  }

  /** Until shutdown begins the accept loop runs, unless it has failed. */
  predicate Accepting(n: Node) {
    (n.phase == Running && !n.broken ==> n.listening) && (n.broken ==> !n.listening)
  }

  lemma {:induction false} RunningAccepts(n: Node, steps: seq<Step>, end: Node)
    requires Run(n, steps, end) && Accepting(n)
    ensures Accepting(end)
    decreases |steps|
  {
    hide Enabled, Next, Accepting;
    if steps == [] {
    } else {
      OneStepAccepts(n, steps[0]);
      RunningAccepts(Next(n, steps[0]), steps[1..], end);
    }
  }

  lemma OneStepAccepts(n: Node, step: Step)
    requires Enabled(n, step) && Accepting(n)
    ensures Accepting(Next(n, step))
  {
    hide Publish, Take, Complete, Pending, Current, RequiredOf, Snapshot, Spoolable, Replace, Cleaned;
    match step
    case MqttStep(outcome) => match outcome { case Stored => case Structural => case Transient => }
    case SpoolStep(outcome) => match outcome { case Written => case NotWritten => case WrittenThenFailed => }
    case RemoveStep(outcome) => match outcome { case Removed => case NotRemoved => case RemovedThenFailed => }
    case _ =>
  }

  /** Once shutdown has begun the accept loop can be stopped, and a stopped loop does not fail any more. */
  lemma StoppedLoopNeverFails(n: Node, steps: seq<Step>, end: Node)
    requires Closed(n) && Alive(n) && n.listening
    ensures Enabled(n, AcceptStops) && Next(n, AcceptStops) == n.(listening := false)
    ensures Run(Next(n, AcceptStops), steps, end) ==> end.broken == n.broken
  {
    hide Run;
    var stopped := Next(n, AcceptStops);
    if Run(stopped, steps, end) { StaysStopped(stopped, steps, end); }
  }

  lemma {:induction false} StaysStopped(n: Node, steps: seq<Step>, end: Node)
    requires Run(n, steps, end) && !n.listening
    ensures !end.listening && end.broken == n.broken
    decreases |steps|
  {
    hide Enabled, Next;
    if steps == [] {
    } else {
      OneStepStopped(n, steps[0]);
      StaysStopped(Next(n, steps[0]), steps[1..], end);
    }
  }

  lemma OneStepStopped(n: Node, step: Step)
    requires Enabled(n, step) && !n.listening
    ensures !Next(n, step).listening && Next(n, step).broken == n.broken
  {
    hide Publish, Take, Complete, Pending, Current, RequiredOf, Snapshot, Spoolable, Replace, Cleaned;
    match step
    case MqttStep(outcome) => match outcome { case Stored => case Structural => case Transient => }
    case SpoolStep(outcome) => match outcome { case Written => case NotWritten => case WrittenThenFailed => }
    case RemoveStep(outcome) => match outcome { case Removed => case NotRemoved => case RemovedThenFailed => }
    case _ =>
  }

  lemma OneStepMore(n: Node, step: Step, steps: seq<Step>, end: Node)
    requires Enabled(n, step) && Run(Next(n, step), steps, end)
    ensures Run(n, [step] + steps, end)
  {
    hide Enabled, Next;
    assert ([step] + steps)[1..] == steps;
  }

  lemma {:induction false} RunsCompose(n: Node, first: seq<Step>, middle: Node, second: seq<Step>, end: Node)
    requires Run(n, first, middle) && Run(middle, second, end)
    ensures Run(n, first + second, end)
    decreases |first|
  {
    hide Enabled, Next;
    if first == [] {
      assert first + second == second;
    } else {
      RunsCompose(Next(n, first[0]), first[1..], middle, second, end);
      assert (first + second)[1..] == first[1..] + second;
    }
  }

  lemma Stays(n: Node)
    ensures Run(n, [], n)
  {
  }

  lemma FreshStarts(f: Bus, spool: SpoolLimits)
    requires Fresh(f) && f.accepting
    ensures Starts(StartNode(f, None, spool))
  {
  }

  /** A start, a publication, a failed accept: the node runs on, owes the event, has no disk image and no business connection. */
  lemma AcceptFailureLosesBusiness(f: Bus, spool: SpoolLimits, e: EventId, tenant: TenantId, bytes: nat, targets: set<SinkId>)
    returns (n: Node, steps: seq<Step>, end: Node)
    requires Fresh(f) && f.accepting && Routed(f, targets)
    requires Publish(f, e, tenant, bytes, targets).1 == Accepted && RequiredOf(f, targets) != {}
    ensures Starts(n) && Run(n, steps, end)
    ensures end.phase == Running && !end.business && end.disk == None
    ensures Pending(end.bus.active) == PairsOf(e, RequiredOf(f, targets)) != {}
  {
    hide Inv, Pending, Publish, RequiredOf, Run, Starts, Fresh, Enabled, Next;
    FreshInv(f);
    FreshStarts(f, spool);
    n := StartNode(f, None, spool);
    PublishKeepsInv(f, e, tenant, bytes, targets);
    var publish := PublishStep(e, tenant, bytes, targets);
    var published := PublishedNext(n, e, tenant, bytes, targets);
    end := published.(listening := false, broken := true, business := false);
    assert Enabled(published, AcceptFails) && Next(published, AcceptFails) == end by { AcceptFailsNext(published); }
    Stays(end);
    OneStepMore(published, AcceptFails, [], end);
    OneStepMore(n, publish, [AcceptFails] + [], end);
    steps := [publish] + ([AcceptFails] + []);
    var s :| s in RequiredOf(f, targets);
    assert (e, s) in PairsOf(e, RequiredOf(f, targets));
  }

  lemma AcceptFailsNext(n: Node)
    requires n.phase == Running && n.listening
    ensures Enabled(n, AcceptFails) && Next(n, AcceptFails) == n.(listening := false, broken := true, business := false)
  {
  }

  lemma PublishedNext(n: Node, e: EventId, tenant: TenantId, bytes: nat, targets: set<SinkId>) returns (n': Node)
    requires n.phase == Running && Routed(n.bus, targets) && Publish(n.bus, e, tenant, bytes, targets).1 == Accepted
    ensures Enabled(n, PublishStep(e, tenant, bytes, targets)) && n' == Next(n, PublishStep(e, tenant, bytes, targets))
    ensures n' == n.(bus := Publish(n.bus, e, tenant, bytes, targets).0, accepted := n'.accepted)
  {
    hide Publish, RequiredOf;
    n' := Next(n, PublishStep(e, tenant, bytes, targets));
  }

  /** Once a node that recovered an image owes nothing, a structural fault and a failed removal lose the connections too. */
  lemma FaultThenFailedRemoval(n: Node) returns (steps: seq<Step>, end: Node)
    requires n.phase == Running && n.bus.pendingRequired == 0 && n.recovered.Some?
    ensures Run(n, steps, end) && end.phase == Failed && end.mqtt == Faulted && !end.business && end.broken == n.broken
  {
    hide Run;
    var waiting := n.(phase := AwaitingDrain, mqtt := Faulted, bus := n.bus.(accepting := false));
    var removing := waiting.(workers := false, phase := Removing);
    end := removing.(business := false, phase := Failed);
    Stays(end);
    steps := [RemoveStep(NotRemoved)] + [];
    OneStepMore(removing, RemoveStep(NotRemoved), [], end);
    OneStepMore(waiting.(phase := Stopping(false)), StopStep, steps, end);
    steps := [StopStep] + steps;
    OneStepMore(waiting, WaitStep(true), steps, end);
    steps := [WaitStep(true)] + steps;
    OneStepMore(waiting.(phase := CommittingMqtt, mqtt := n.mqtt), MqttStep(Structural), steps, end);
    steps := [MqttStep(Structural)] + steps;
    OneStepMore(n, QuiesceStep, steps, end);
    steps := [QuiesceStep] + steps;
  }

  /** One restored event, taken and acknowledged, leaves a running node that owes nothing. */
  lemma RestoredThenDelivered(f: Bus, spool: SpoolLimits, e: EventId, x: Spooled, s: SinkId)
    returns (n: Node, steps: seq<Step>, end: Node)
    requires Fresh(f) && f.accepting && Restorable(f, e, x) && x.pending == {s} && Spoolable(spool, map[e := x])
    ensures Starts(n) && n.disk == Some(Disk(1, map[e := x]))
    ensures Run(n, steps, end) && end.phase == Running && end.bus.pendingRequired == 0 && end.recovered.Some? && !end.broken
  {
    hide Inv, Pending, Pairs, Run, Next, Enabled, Snapshot, Boots, NodeInv, Restorable, Insert, Take, Fresh;
    RestorableSinks(f, e, x);
    OneRestored(f, spool, e, x);
    n := StartNode(Insert(f, e, Restored(x)), Some(Disk(1, map[e := x])), spool);
    StartIsSound(n);
    var bus, record := TakeRestored(f, e, x, s);
    var taken := TakeNext(n, s, bus, record);
    StepKeeps(n, TakeStep(s, 0));
    var complete := CompleteStep(s, record, Ack, true, 0, 0);
    assert Pending(taken.bus.active) == {(e, s)} by { OneEventPends(taken.bus.active, e, s); }
    end := Delivered(taken, s, record, complete);
    Stays(end);
    OneStepMore(taken, complete, [], end);
    OneStepMore(n, TakeStep(s, 0), [complete] + [], end);
    steps := [TakeStep(s, 0)] + ([complete] + []);
  }

  lemma OneEventPends(active: map<EventId, Active>, e: EventId, s: SinkId)
    requires active.Keys == {e} && active[e].required == {s}
    ensures Pending(active) == {(e, s)}
  {
  }

  lemma OneRestored(f: Bus, spool: SpoolLimits, e: EventId, x: Spooled)
    requires Fresh(f) && f.accepting && Restorable(f, e, x) && Spoolable(spool, map[e := x])
    ensures x.pending <= f.sinks.Keys
    ensures Starts(StartNode(Insert(f, e, Restored(x)), Some(Disk(1, map[e := x])), spool))
  {
    hide Restorable, Insert, Fresh, Spoolable, Pairs;
    RestoreOne(f, e, map[e := x]);
    RestorableSinks(f, e, x);
    InsertOnly(f, e, Restored(x));
    assert Lists([e], map[e := x]);
  }

  lemma TakeNext(n: Node, s: SinkId, bus: Bus, r: Record) returns (taken: Node)
    requires n.workers && s in n.bus.sinks && Take(n.bus, s, 0) == (bus, Some(r))
    ensures Enabled(n, TakeStep(s, 0)) && taken == Next(n, TakeStep(s, 0))
    ensures taken == n.(bus := bus, handed := n.handed + {(s, r)})
  {
    hide Take;
    taken := Next(n, TakeStep(s, 0));
  }

  lemma Delivered(n: Node, s: SinkId, r: Record, step: Step) returns (end: Node)
    requires NodeInv(n) && step == CompleteStep(s, r, Ack, true, 0, 0) && n.workers && s in n.bus.sinks
    requires (s, r) in n.handed && Current(n.bus, s, r) && Pending(n.bus.active) == {(r.event, s)}
    ensures Enabled(n, step) && end == Next(n, step)
    ensures end == n.(bus := end.bus, acked := end.acked, owed := end.owed) && end.bus.pendingRequired == 0
  {
    hide Complete, Pending, SinksInv, ActivesInv, TenantsInv, Counts;
    end := Next(n, step);
    HandedIsGenuine(n.bus, n.handed, s, r);
    CompleteKeepsInv(n.bus, s, r, Ack, true, 0, 0);
    NothingPending(end.bus);
  }

  /** So the connections can go with the broker uncommitted although the accept loop is sound: a start, one delivery, a structural fault, a failed removal. */
  lemma BusinessCanBeLostUncommitted(f: Bus, spool: SpoolLimits, e: EventId, x: Spooled, s: SinkId)
    returns (n: Node, steps: seq<Step>, end: Node)
    requires Fresh(f) && f.accepting && Restorable(f, e, x) && x.pending == {s} && Spoolable(spool, map[e := x])
    ensures Starts(n) && Run(n, steps, end) && !end.business && !end.broken && end.mqtt == Faulted
  {
    hide Run, Starts, Fresh, Restorable, Spoolable;
    var delivered, more;
    n, steps, delivered := RestoredThenDelivered(f, spool, e, x, s);
    more, end := FaultThenFailedRemoval(delivered);
    RunsCompose(n, steps, delivered, more, end);
    steps := steps + more;
  }
}
