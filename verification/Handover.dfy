/** What a subscription brings about: which arrivals are taken, that they can always be handed over, and what ends it. */
module Handover {
  import opened Bytes
  import opened Subscription

  lemma OneStepMore(c: Config, s: State, step: Step, steps: seq<Step>, end: State)
    requires Enabled(c, s, step) && Run(c, Next(c, s, step), steps, end)
    ensures Run(c, s, [step] + steps, end)
  {
    hide Enabled, Next;
    assert ([step] + steps)[1..] == steps;
  }

  lemma {:induction false} RunsCompose(c: Config, s: State, first: seq<Step>, middle: State, second: seq<Step>, end: State)
    requires Run(c, s, first, middle) && Run(c, middle, second, end)
    ensures Run(c, s, first + second, end)
    decreases |first|
  {
    hide Enabled, Next;
    if first == [] {
      assert first + second == second;
    } else {
      RunsCompose(c, Next(c, s, first[0]), first[1..], middle, second, end);
      assert (first + second)[1..] == first[1..] + second;
    }
  }

  // ---- arrivals ----

  /** Too large to be taken at all, or not to be encoded. */
  predicate Oversized(c: Config, a: Arrival) {
    match a.encoded
    case None => true
    case Some(n) => n > c.maxFrame || n > c.bufferBytes
  }

  predicate Taken(c: Config, a: Arrival) {
    !Oversized(c, a) && a.encoded.value < 0x1_0000_0000
  }

  /** A failure is the last message there will be. */
  predicate FailureIsLast(s: State) {
    && (forall i :: 0 <= i < |s.queue| - 1 ==> s.queue[i].Event?)
    && (s.queue != [] && s.queue[|s.queue| - 1].Failure? ==> s.task == Stopped)
  }

  lemma StepKeepsFailureLast(c: Config, s: State, step: Step)
    requires FailureIsLast(s) && Enabled(c, s, step)
    ensures FailureIsLast(Next(c, s, step))
  {
    hide Weight, Items, Without;
    match step
    case Arrive(_) =>
    case WireAck(_) =>
    case Receive => TailKeepsLast(s.queue);
    case _ =>
  }

  lemma TailKeepsLast(q: seq<Message>)
    requires q != [] && forall i :: 0 <= i < |q| - 1 ==> q[i].Event?
    ensures forall i :: 0 <= i < |q[1..]| - 1 ==> q[1..][i].Event?
    ensures |q| > 1 ==> q[1..][|q| - 2] == q[|q| - 1]
  {
    assert forall i :: 0 <= i < |q| - 1 ==> q[1..][i] == q[i + 1];
  }

  lemma {:induction false} RunKeepsFailureLast(c: Config, s: State, steps: seq<Step>, end: State)
    requires FailureIsLast(s) && Run(c, s, steps, end)
    ensures FailureIsLast(end)
    decreases |steps|
  {
    hide Enabled, Next, FailureIsLast;
    if steps == [] {
    } else {
      StepKeepsFailureLast(c, s, steps[0]);
      RunKeepsFailureLast(c, Next(c, s, steps[0]), steps[1..], end);
    }
  }

  predicate Told(s: State) {
    s.queue != [] && s.queue[|s.queue| - 1] == Failure
  }

  /**
   In every run, an arrival is bought exactly when it is taken, and otherwise ends the subscription; the application is
   then told of a failure exactly when the arrival was oversized and the open queue had room. An arrival is not
   acknowledged, handed over or paid for by this.
   */
  lemma ArrivalDecides(c: Config, steps: seq<Step>, s: State, a: Arrival)
    requires Run(c, Starts(c), steps, s) && s.task == Idle
    ensures !Told(s)
    ensures var s' := Next(c, s, Arrive(a));
      && s'.task == (if Taken(c, a) then Buying(a.encoded.value) else Stopped)
      && (Told(s') <==> Oversized(c, a) && s.open && |s.queue| < c.bufferItems)
      && s'.queue == (if Told(s') then s.queue + [Failure] else s.queue)
      && s' == s.(task := s'.task, queue := s'.queue, lastEpoch := a.epoch, reconnects := s'.reconnects, epochs := s.epochs + [a.epoch])
  {
    hide Run;
    RunKeepsFailureLast(c, Starts(c), steps, s);
  }

  /** So is a failed acknowledgement told, if the open queue has room, and its permits are given back. */
  lemma FailedAcknowledgementIsTold(c: Config, steps: seq<Step>, s: State)
    requires Run(c, Starts(c), steps, s) && s.task.Acking?
    ensures !Told(s)
    ensures var s' := Next(c, s, WireAck(false));
      && s'.task == Stopped && s'.available == s.available + s.task.item.bytes && s'.confirmed == s.confirmed
      && (Told(s') <==> s.open && |s.queue| < c.bufferItems)
      && s'.queue == if Told(s') then s.queue + [Failure] else s.queue
  {
    hide Run;
    RunKeepsFailureLast(c, Starts(c), steps, s);
  }

  /** The source may end while the subscriber waits for it, and that is all it then does. */
  lemma SourceMayEnd(c: Config, s: State)
    requires s.task == Idle
    ensures Enabled(c, s, SourceEnds) && Next(c, s, SourceEnds) == s.(task := Stopped)
  {
  }

  // ---- handing over ----

  lemma {:induction false} ReceiveAll(c: Config, s: State) returns (steps: seq<Step>, end: State)
    requires Inv(c, s) && s.open
    ensures forall step <- steps :: step == Receive
    ensures Run(c, s, steps, end) && Inv(c, end)
    ensures end == s.(queue := [], held := end.held, handed := end.handed)
    decreases |s.queue|
  {
    hide Inv;
    if s.queue == [] {
      steps, end := [], s;
    } else {
      StepKeeps(c, s, Receive);
      var more;
      more, end := ReceiveAll(c, Next(c, s, Receive));
      OneStepMore(c, s, Receive, more, end);
      steps := [Receive] + more;
    }
  }

  /** With nothing queued and nothing in hand, everything admitted has been handed over. */
  lemma AllHanded(s: State)
    requires InOrder(s) && s.open && s.task == Idle && s.queue == []
    ensures s.handed == Upto(s.received)
  {
  }

  predicate Ordinary(step: Step) {
    step == Buy || step == WireAck(true) || step == Send || step == Receive || step.Discard?
  }

  /** A bought delivery can be acknowledged, if that is the mode, and brought to the point of being queued. */
  lemma BuyThenSend(c: Config, s: State) returns (steps: seq<Step>, end: State)
    requires Inv(c, s) && s.open && Enabled(c, s, Buy)
    ensures forall step <- steps :: Ordinary(step)
    ensures Run(c, s, steps, end) && Inv(c, end) && end.open && end.task.Sending? && end.received == s.received + 1
  {
    hide Inv, Run;
    StepKeeps(c, s, Buy);
    var bought := Next(c, s, Buy);
    if c.mode == Immediate {
      StepKeeps(c, bought, WireAck(true));
      end := Next(c, bought, WireAck(true));
      Stays(c, end);
      OneStepMore(c, bought, WireAck(true), [], end);
      OneStepMore(c, s, Buy, [WireAck(true)] + [], end);
      steps := [Buy] + ([WireAck(true)] + []);
    } else {
      end := bought;
      Stays(c, end);
      OneStepMore(c, s, Buy, [], end);
      steps := [Buy] + [];
    }
  }

  lemma Stays(c: Config, s: State)
    ensures Run(c, s, [], s)
  {
  }

  /** A delivery in the subscriber's hands can be queued, after receiving what is in the way. */
  lemma SendThenReceive(c: Config, s: State) returns (steps: seq<Step>, end: State)
    requires Inv(c, s) && s.open && s.task.Sending? && c.bufferItems > 0
    ensures forall step <- steps :: Ordinary(step)
    ensures Run(c, s, steps, end) && Inv(c, end) && end.open && end.task == Idle && end.queue == [] && end.received == s.received
  {
    hide Inv, Run;
    var first, empty := ReceiveAll(c, s);
    StepKeeps(c, empty, Send);
    var rest;
    rest, end := ReceiveAll(c, Next(c, empty, Send));
    OneStepMore(c, empty, Send, rest, end);
    RunsCompose(c, s, first, empty, [Send] + rest, end);
    steps := first + ([Send] + rest);
  }

  /**
   From every state of a subscription in which it waits for deliveries on an open stream with room for an item, an
   arrival that is taken can be handed to the application, by steps of the subscriber and by receiving and dropping.
   */
  lemma TakenIsHandedOver(c: Config, s: State, a: Arrival) returns (steps: seq<Step>, end: State)
    requires Inv(c, s) && s.task == Idle && s.open && c.bufferItems > 0 && Taken(c, a)
    ensures forall step <- steps :: Ordinary(step)
    ensures Run(c, s, [Arrive(a)] + steps, end)
    ensures s.received in end.handed && end.handed == Upto(s.received + 1) && end.task == Idle
  {
    hide Run, Inv;
    StepKeeps(c, s, Arrive(a));
    var buying := Next(c, s, Arrive(a));
    var first, payable := DroppingUnblocks(c, buying);
    var second, sending := BuyThenSend(c, payable);
    var third;
    third, end := SendThenReceive(c, sending);
    RunsCompose(c, payable, second, sending, third, end);
    RunsCompose(c, buying, first, payable, second + third, end);
    steps := first + (second + third);
    OneStepMore(c, s, Arrive(a), steps, end);
    assert InOrder(end) by { OrderOf(c, end); }
    AllHanded(end);
    assert Upto(s.received + 1)[s.received] == s.received;
  }

  /** In particular the first arrival, from the start. */
  lemma FirstIsHandedOver(c: Config, a: Arrival) returns (steps: seq<Step>, end: State)
    requires c.bufferItems > 0 && Taken(c, a)
    ensures Run(c, Starts(c), [Arrive(a)] + steps, end) && end.handed == [0]
  {
    hide Run, Inv;
    StartInv(c);
    steps, end := TakenIsHandedOver(c, Starts(c), a);
    assert Upto(1) == [0];
  }

  lemma OrderOf(c: Config, s: State)
    requires Inv(c, s)
    ensures InOrder(s)
  {
  }

  // ---- acknowledgements ----

  /** A held delivery can be acknowledged, in manual mode, whatever else goes on; its permits are given back. */
  lemma HeldCanBeAcknowledged(c: Config, s: State, i: nat)
    requires c.mode == Manual && i < |s.held|
    ensures Enabled(c, s, Confirm(i, true))
    ensures var s' := Next(c, s, Confirm(i, true));
      && s'.confirmed == s.confirmed + [s.held[i].number] && s'.acked == s.acked + 1
      && s'.held == s.held[..i] + s.held[i + 1..] && s'.available == s.available + s.held[i].bytes
  {
  }

  /** The step gives a delivery up unacknowledged: dropped, or confirmed in vain. */
  predicate GivesUp(c: Config, step: Step) {
    match step
    case Discard(_) => true
    case Confirm(_, written) => !(c.mode == Manual && written)
    case _ => false
  }

  function GivenUp(c: Config, steps: seq<Step>): nat {
    if steps == [] then 0 else GivenUp(c, steps[1..]) + if GivesUp(c, steps[0]) then 1 else 0
  }

  function WireAcks(steps: seq<Step>): nat {
    if steps == [] then 0 else WireAcks(steps[1..]) + if steps[0] == WireAck(true) then 1 else 0
  }

  /** What was handed over and is neither held nor acknowledged by the application. */
  function Gone(c: Config, s: State): int {
    |s.handed| - |s.held| - if c.mode == Manual then |s.confirmed| else 0
  }

  lemma StepIsCounted(c: Config, s: State, step: Step)
    requires Enabled(c, s, step) && (c.mode == Manual ==> !s.task.Acking?)
    ensures var s' := Next(c, s, step);
      && Gone(c, s') == Gone(c, s) + (if GivesUp(c, step) then 1 else 0)
      && (c.mode == Manual ==> !s'.task.Acking?)
      && (c.mode == Immediate ==> |s'.confirmed| == |s.confirmed| + if step == WireAck(true) then 1 else 0)
  {
    hide Weight, Items, Offer;
    match step
    case Arrive(_) =>
    case WireAck(_) =>
    case Receive =>
    case Discard(_) =>
    case Confirm(_, _) =>
    case _ =>
  }

  lemma {:induction false} AcknowledgedIsCounted(c: Config, s: State, steps: seq<Step>, end: State)
    requires Run(c, s, steps, end) && (c.mode == Manual ==> !s.task.Acking?)
    ensures Gone(c, end) == Gone(c, s) + GivenUp(c, steps)
    ensures c.mode == Immediate ==> |end.confirmed| == |s.confirmed| + WireAcks(steps)
    decreases |steps|
  {
    hide Enabled, Next, Gone;
    if steps == [] {
    } else {
      StepIsCounted(c, s, steps[0]);
      AcknowledgedIsCounted(c, Next(c, s, steps[0]), steps[1..], end);
    }
  }

  /**
   Everything handed over is held, acknowledged or given up: in manual mode the acknowledgements are those the
   application got through, in immediate mode those of the subscriber.
   */
  lemma AcknowledgementsAddUp(c: Config, steps: seq<Step>, end: State)
    requires Run(c, Starts(c), steps, end)
    ensures c.mode == Manual ==> |end.handed| == |end.held| + end.acked + GivenUp(c, steps)
    ensures c.mode == Immediate ==> |end.handed| == |end.held| + GivenUp(c, steps) && end.acked == WireAcks(steps)
  {
    hide Run, GivenUp, WireAcks;
    AcknowledgedIsCounted(c, Starts(c), steps, end);
    StartInv(c);
    RunKeeps(c, Starts(c), steps, end);
  }

  // ---- the end ----

  /** The subscriber stops by an arrival it does not take, a failed acknowledgement, cancellation, or the end of its
      source; cancellation alone does not interrupt an acknowledgement. */
  lemma StopsExactly(c: Config, s: State, step: Step)
    requires Enabled(c, s, step) && s.task != Stopped
    ensures Next(c, s, step).task == Stopped <==>
      (step.Arrive? && !Taken(c, step.arrival)) || step == WireAck(false) || step == Quit || step == SourceEnds
    ensures step == Quit ==> (s.cancelled || !s.open) && (s.task.Acking? ==> !s.open)
  {
    hide Weight, Items, Without, Offer;
  }

  /** Closing cancels and does nothing else; the subscriber can then stop. */
  lemma CloseStops(c: Config, s: State) returns (steps: seq<Step>, end: State)
    requires s.open && s.task != Stopped
    ensures |steps| <= 2 && Run(c, s, [Close] + steps, end) && end.task == Stopped
    ensures Next(c, s, Close) == s.(cancelled := true)
  {
    hide Run;
    steps, end := CancelledCanStop(c, Next(c, s, Close));
    OneStepMore(c, s, Close, steps, end);
  }

  /** Once closed or dropped, the subscriber can stop, after the acknowledgement it is writing at most. */
  lemma CancelledCanStop(c: Config, s: State) returns (steps: seq<Step>, end: State)
    requires s.cancelled && s.task != Stopped
    ensures |steps| <= 2 && Run(c, s, steps, end) && end.task == Stopped
  {
    hide Run;
    if s.task.Acking? && s.open {
      var sent := Next(c, s, WireAck(true));
      end := Next(c, sent, Quit);
      Stays(c, end);
      OneStepMore(c, sent, Quit, [], end);
      OneStepMore(c, s, WireAck(true), [Quit] + [], end);
      steps := [WireAck(true)] + ([Quit] + []);
    } else {
      end := Next(c, s, Quit);
      Stays(c, end);
      OneStepMore(c, s, Quit, [], end);
      steps := [Quit] + [];
    }
  }

  lemma {:induction false} DiscardAll(c: Config, s: State) returns (steps: seq<Step>, end: State)
    requires Inv(c, s)
    ensures Run(c, s, steps, end) && Inv(c, end) && end == s.(held := [], available := end.available)
    decreases |s.held|
  {
    hide Inv;
    if s.held == [] {
      steps, end := [], s;
    } else {
      StepKeeps(c, s, Discard(0));
      var more;
      more, end := DiscardAll(c, Next(c, s, Discard(0)));
      OneStepMore(c, s, Discard(0), more, end);
      steps := [Discard(0)] + more;
    }
  }

  /** From every state, dropping the stream and what is held ends the subscription and gives every permit back. */
  lemma EverythingIsReturned(c: Config, s: State) returns (steps: seq<Step>, end: State)
    requires Inv(c, s) && s.open
    ensures Run(c, s, [DropStream] + steps, end) && end.task == Stopped && end.available == c.bufferBytes
  {
    hide Run, InOrder, Acknowledged, Reconnected;
    StepKeeps(c, s, DropStream);
    var dropped := Next(c, s, DropStream);
    var first: seq<Step>, stopped := [], dropped;
    Stays(c, dropped);
    if dropped.task != Stopped {
      first, stopped := CancelledCanStop(c, dropped);
    }
    RunKeeps(c, dropped, first, stopped);
    var second;
    second, end := DiscardAll(c, stopped);
    RunsCompose(c, dropped, first, stopped, second, end);
    OneStepMore(c, s, DropStream, first + second, end);
    steps := first + second;
    assert Weight([]) == 0;
    NothingQueued();
    assert !end.open by { StaysDropped(c, dropped, first, stopped); }
  }

  lemma {:induction false} StaysDropped(c: Config, s: State, steps: seq<Step>, end: State)
    requires Run(c, s, steps, end) && !s.open
    ensures !end.open
    decreases |steps|
  {
    if steps == [] {
    } else {
      StaysDropped(c, Next(c, s, steps[0]), steps[1..], end);
    }
  }
}
