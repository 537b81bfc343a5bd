/**
 The client's event subscription: a subscriber takes deliveries from the connection, buys their bytes from a byte
 budget, acknowledges them at once or leaves that to the application, and queues them; the application
 receives, acknowledges and drops them. Every await point separates two steps, and any order of steps is a run.
 */
module Subscription {
  import opened Bytes

  datatype AckMode = Manual | Immediate

  datatype Config = Config(mode: AckMode, bufferBytes: nat, bufferItems: nat, maxFrame: nat)

  /** A delivery off the wire: its connection and its encoded size, if it encodes. */
  datatype Arrival = Arrival(epoch: nat, encoded: Option<nat>)

  /** A delivery that owns `bytes` permits; deliveries are numbered as they are admitted. */
  datatype Item = Item(number: nat, bytes: nat)

  datatype Message = Event(item: Item) | Failure

  /** Where the subscriber stands. */
  datatype Task = Idle | Buying(bytes: nat) | Acking(item: Item) | Sending(item: Item) | Stopped

  datatype State = State(
    task: Task, available: nat, queue: seq<Message>, held: seq<Item>,
    /** The stream still exists; its cancellation was requested. */
    open: bool, cancelled: bool,
    lastEpoch: nat, reconnects: nat, received: nat, acked: nat,
    /** What happened: the connections seen, the deliveries handed to the application, those acknowledged. */
    epochs: seq<nat>, handed: seq<nat>, confirmed: seq<nat>)

  const U32: nat := 0x1_0000_0000

  function Starts(c: Config): State {
    State(Idle, c.bufferBytes, [], [], true, false, 0, 0, 0, 0, [], [], [])
  }

  datatype Step =
    | Arrive(arrival: Arrival)
    | Buy
    | WireAck(written: bool)
    | Send
    | Quit
    | SourceEnds
    | Receive
    | Discard(index: nat)
    | Confirm(index: nat, written: bool)
    | Close
    | DropStream

  predicate Enabled(c: Config, s: State, step: Step) {
    match step
    case Arrive(_) => s.task == Idle
    case Buy => s.task.Buying? && s.task.bytes <= s.available
    case WireAck(_) => s.task.Acking?
    case Send => s.task.Sending? && s.open && |s.queue| < c.bufferItems
    case Quit => s.task != Stopped && (!s.open || (s.cancelled && !s.task.Acking?))
    case SourceEnds => s.task == Idle
    case Receive => s.open && s.queue != []
    case Discard(i) => i < |s.held|
    case Confirm(i, _) => i < |s.held|
    case Close => s.open
    case DropStream => s.open
  }

  /** A failure is offered to the application if there is room for it. */
  function Offer(c: Config, s: State): seq<Message> {
    if s.open && |s.queue| < c.bufferItems then s.queue + [Failure] else s.queue
  }

  /** Permits owned by the subscriber. */
  function Owned(t: Task): nat {
    if t.Acking? || t.Sending? then t.item.bytes else 0
  }

  function Without(items: seq<Item>, i: nat): seq<Item>
    requires i < |items|
  {
    items[..i] + items[i + 1..]
  }

  function Next(c: Config, s: State, step: Step): State
    requires Enabled(c, s, step)
  {
    match step
    case Arrive(a) =>
      var s := s.(
        reconnects := s.reconnects + if s.lastEpoch != 0 && s.lastEpoch != a.epoch then 1 else 0,
        lastEpoch := a.epoch, epochs := s.epochs + [a.epoch]);
      if a.encoded.Some? && a.encoded.value <= c.maxFrame && a.encoded.value <= c.bufferBytes then
        s.(task := if a.encoded.value < U32 then Buying(a.encoded.value) else Stopped)
      else
        s.(task := Stopped, queue := Offer(c, s))
    case Buy =>
      var item := Item(s.received, s.task.bytes);
      s.(task := if c.mode == Immediate then Acking(item) else Sending(item),
         available := s.available - item.bytes, received := s.received + 1)
    case WireAck(written) =>
      if written then
        s.(task := Sending(s.task.item), acked := s.acked + 1, confirmed := s.confirmed + [s.task.item.number])
      else
        s.(task := Stopped, queue := Offer(c, s), available := s.available + s.task.item.bytes)
    case Send => s.(task := Idle, queue := s.queue + [Event(s.task.item)])
    case Quit => s.(task := Stopped, available := s.available + Owned(s.task))
    case SourceEnds => s.(task := Stopped)
    case Receive =>
      var s' := s.(queue := s.queue[1..]);
      if s.queue[0].Failure? then s'
      else s'.(held := s.held + [s.queue[0].item], handed := s.handed + [s.queue[0].item.number])
    case Discard(i) => s.(held := Without(s.held, i), available := s.available + s.held[i].bytes)
    case Confirm(i, written) =>
      var s' := s.(held := Without(s.held, i), available := s.available + s.held[i].bytes);
      if c.mode == Manual && written then
        s'.(acked := s.acked + 1, confirmed := s.confirmed + [s.held[i].number])
      else s'
    case Close => s.(cancelled := true)
    case DropStream =>
      s.(open := false, cancelled := true, queue := [], available := s.available + Weight(Items(s.queue)))
  }

  // ---- accounting ----

  function Weight(items: seq<Item>): nat {
    if items == [] then 0 else items[0].bytes + Weight(items[1..])
  }

  function Items(queue: seq<Message>): seq<Item> {
    if queue == [] then []
    else if queue[0].Failure? then Items(queue[1..])
    else [queue[0].item] + Items(queue[1..])
  }

  function Numbers(items: seq<Item>): seq<nat> {
    seq(|items|, i requires 0 <= i < |items| => items[i].number)
  }

  function InTask(t: Task): seq<Item> {
    if t.Acking? || t.Sending? then [t.item] else []
  }

  /** Connection changes among consecutive arrivals; zero stands for no connection yet. */
  function Changes(epochs: seq<nat>): nat {
    if |epochs| < 2 then 0
    else
      var n := |epochs|;
      Changes(epochs[..n - 1]) + if epochs[n - 2] != 0 && epochs[n - 2] != epochs[n - 1] then 1 else 0
  }

  /** 0, 1, ..., n - 1. */
  function Upto(n: nat): seq<nat> {
    seq(n, i => i)
  }

  // ---- what every step keeps ----

  /** Permits are conserved, and no purchase can ask for more than there are. */
  predicate Conserved(c: Config, s: State) {
    && s.available + Owned(s.task) + Weight(Items(s.queue)) + Weight(s.held) == c.bufferBytes
    && (s.task.Buying? ==> s.task.bytes <= c.bufferBytes && s.task.bytes <= c.maxFrame && s.task.bytes < U32)
    && |s.queue| <= c.bufferItems
    && (!s.open ==> s.queue == [])
  }

  /** Deliveries handed over and, while there is a stream to hand over by, those queued and the one in the subscriber's hands. */
  function Pipeline(s: State): seq<nat> {
    if s.open then s.handed + Numbers(Items(s.queue)) + Numbers(InTask(s.task)) else s.handed
  }

  /** Admitted deliveries reach the application in order, none skipped. */
  predicate InOrder(s: State) {
    && |Pipeline(s)| <= s.received
    && Pipeline(s) == Upto(|Pipeline(s)|)
    && (s.open && s.task != Stopped ==> |Pipeline(s)| == s.received)
  }

  predicate Balanced(confirmed: seq<nat>, held: seq<Item>, handed: seq<nat>) {
    multiset(confirmed) + multiset(Numbers(held)) <= multiset(handed)
  }

  /** The application acknowledges what it was handed and no longer holds, each delivery once. */
  predicate ManuallyAcknowledged(s: State) {
    !s.task.Acking? && Balanced(s.confirmed, s.held, s.handed)
  }

  /** The subscriber acknowledges deliveries in order, each before it is queued. */
  predicate ImmediatelyAcknowledged(s: State) {
    && s.confirmed == Upto(|s.confirmed|)
    && |s.handed| + |Items(s.queue)| + (if s.task.Sending? then 1 else 0) <= |s.confirmed| <= s.received
    && (s.task.Acking? ==> s.task.item.number == |s.confirmed| == s.received - 1)
    && (s.task.Idle? || s.task.Buying? || s.task.Sending? ==> |s.confirmed| == s.received)
  }

  predicate Acknowledged(c: Config, s: State) {
    && s.acked == |s.confirmed|
    && (c.mode == Manual ==> ManuallyAcknowledged(s))
    && (c.mode == Immediate ==> ImmediatelyAcknowledged(s))
  }

  predicate Reconnected(s: State) {
    && s.reconnects == Changes(s.epochs)
    && s.lastEpoch == if s.epochs == [] then 0 else s.epochs[|s.epochs| - 1]
  }

  lemma {:induction false} WeightOfConcat(a: seq<Item>, b: seq<Item>)
    ensures Weight(a + b) == Weight(a) + Weight(b)
  {
    if a == [] {
      assert a + b == b;
    } else {
      assert (a + b)[1..] == a[1..] + b;
      WeightOfConcat(a[1..], b);
    }
  }

  lemma {:induction false} WeightOfRest(items: seq<Item>, i: nat)
    requires i < |items|
    ensures Weight(items) == Weight(Without(items, i)) + items[i].bytes
  {
    if i == 0 {
      assert Without(items, i) == items[1..];
    } else {
      assert Without(items, i)[1..] == Without(items[1..], i - 1);
      WeightOfRest(items[1..], i - 1);
    }
  }

  lemma {:induction false} ItemsOfConcat(a: seq<Message>, b: seq<Message>)
    ensures Items(a + b) == Items(a) + Items(b)
  {
    if a == [] {
      assert a + b == b;
    } else {
      assert (a + b)[1..] == a[1..] + b;
      ItemsOfConcat(a[1..], b);
    }
  }

  /** The queue after a push: a failure adds no item, an event adds its own. */
  lemma ItemsOfPush(queue: seq<Message>, m: Message)
    ensures Items(queue + [m]) == if m.Event? then Items(queue) + [m.item] else Items(queue)
  {
    ItemsOfConcat(queue, [m]);
    assert [m][1..] == [];
  }

  lemma WeightOfPush(items: seq<Item>, item: Item)
    ensures Weight(items + [item]) == Weight(items) + item.bytes
  {
    WeightOfConcat(items, [item]);
    assert [item][1..] == [];
  }

  lemma ItemsOfTail(queue: seq<Message>)
    requires queue != []
    ensures queue[0].Failure? ==> Items(queue) == Items(queue[1..])
    ensures queue[0].Event? ==> Weight(Items(queue)) == queue[0].item.bytes + Weight(Items(queue[1..]))
  {
    if queue[0].Event? {
      assert Items(queue)[1..] == Items(queue[1..]);
    }
  }

  lemma NothingQueued()
    ensures Items([]) == [] && Weight(Items([])) == 0
  {
  }

  lemma KeepsConserved(c: Config, s: State, step: Step)
    requires Conserved(c, s) && Enabled(c, s, step)
    ensures Conserved(c, Next(c, s, step))
  {
    hide Without, Weight, Items;
    match step
    case Arrive(_) => ItemsOfPush(s.queue, Failure);
    case WireAck(_) => ItemsOfPush(s.queue, Failure);
    case Send =>
      ItemsOfPush(s.queue, Event(s.task.item));
      WeightOfPush(Items(s.queue), s.task.item);
    case Receive =>
      ItemsOfTail(s.queue);
      if s.queue[0].Event? { WeightOfPush(s.held, s.queue[0].item); }
    case Discard(i) => WeightOfRest(s.held, i);
    case Confirm(i, _) => WeightOfRest(s.held, i);
    case DropStream => NothingQueued();
    case _ =>
  }

  lemma NumbersOfConcat(a: seq<Item>, b: seq<Item>)
    ensures Numbers(a + b) == Numbers(a) + Numbers(b)
  {
  }

  /** A step moves deliveries along the pipeline, admits one at its end, or cuts off its end for good. */
  lemma PipelineMoves(c: Config, s: State, step: Step)
    requires Enabled(c, s, step)
    ensures var s' := Next(c, s, step);
            && (step == Buy && s.open ==> Pipeline(s') == Pipeline(s) + [s.received])
            && (step != Buy || !s.open ==> Pipeline(s') <= Pipeline(s))
            && (step != Buy && s'.open && s'.task != Stopped ==> Pipeline(s') == Pipeline(s))
  {
    hide Weight, Without, Items, Numbers;
    OneInTask(s.task);
    OneInTask(Next(c, s, step).task);
    match step
    case Arrive(_) => ItemsOfPush(s.queue, Failure);
    case WireAck(_) => ItemsOfPush(s.queue, Failure);
    case Send =>
      ItemsOfPush(s.queue, Event(s.task.item));
      NumbersOfConcat(Items(s.queue), [s.task.item]);
    case Receive => NumbersOfTail(s.queue);
    case _ =>
  }

  lemma OneInTask(t: Task)
    ensures Numbers(InTask(t)) == if t.Acking? || t.Sending? then [t.item.number] else []
  {
  }

  lemma NumbersOfTail(queue: seq<Message>)
    requires queue != []
    ensures queue[0].Failure? ==> Items(queue) == Items(queue[1..])
    ensures queue[0].Event? ==> Numbers(Items(queue)) == [queue[0].item.number] + Numbers(Items(queue[1..]))
  {
    if queue[0].Event? {
      NumbersOfConcat([queue[0].item], Items(queue[1..]));
    }
  }

  lemma KeepsOrder(c: Config, s: State, step: Step)
    requires InOrder(s) && Enabled(c, s, step)
    ensures InOrder(Next(c, s, step))
  {
    hide Pipeline, Weight, Items, Without, Offer;
    PipelineMoves(c, s, step);
  }

  lemma NumbersWithout(items: seq<Item>, i: nat)
    requires i < |items|
    ensures multiset(Numbers(items)) == multiset(Numbers(Without(items, i))) + multiset{items[i].number}
  {
    assert Numbers(items) == Numbers(items[..i]) + [items[i].number] + Numbers(items[i + 1..]);
    NumbersOfConcat(items[..i], items[i + 1..]);
  }

  lemma BalancedWithOneMore(confirmed: seq<nat>, held: seq<Item>, handed: seq<nat>, item: Item)
    requires Balanced(confirmed, held, handed)
    ensures Balanced(confirmed, held + [item], handed + [item.number])
  {
    NumbersOfConcat(held, [item]);
    assert Numbers([item]) == [item.number];
  }

  lemma BalancedWithOneLess(confirmed: seq<nat>, held: seq<Item>, handed: seq<nat>, i: nat)
    requires i < |held| && Balanced(confirmed, held, handed)
    ensures Balanced(confirmed, Without(held, i), handed)
    ensures Balanced(confirmed + [held[i].number], Without(held, i), handed)
  {
    NumbersWithout(held, i);
  }

  lemma KeepsManual(c: Config, s: State, step: Step)
    requires c.mode == Manual && ManuallyAcknowledged(s) && Enabled(c, s, step)
    ensures ManuallyAcknowledged(Next(c, s, step))
  {
    hide Balanced, Without, Items, Weight;
    match step
    case Receive =>
      if s.queue[0].Event? { BalancedWithOneMore(s.confirmed, s.held, s.handed, s.queue[0].item); }
    case Discard(i) => BalancedWithOneLess(s.confirmed, s.held, s.handed, i);
    case Confirm(i, _) => BalancedWithOneLess(s.confirmed, s.held, s.handed, i);
    case _ =>
  }

  lemma KeepsImmediate(c: Config, s: State, step: Step)
    requires c.mode == Immediate && ImmediatelyAcknowledged(s) && Enabled(c, s, step)
    ensures ImmediatelyAcknowledged(Next(c, s, step))
  {
    hide Weight, Without, Items;
    match step
    case Arrive(_) => ItemsOfPush(s.queue, Failure);
    case WireAck(_) => ItemsOfPush(s.queue, Failure);
    case Send => ItemsOfPush(s.queue, Event(s.task.item));
    case Receive => CountOfTail(s.queue);
    case DropStream => NothingQueued();
    case _ =>
  }

  lemma CountOfTail(queue: seq<Message>)
    requires queue != []
    ensures |Items(queue)| == |Items(queue[1..])| + if queue[0].Event? then 1 else 0
  {
  }

  lemma KeepsAcknowledged(c: Config, s: State, step: Step)
    requires Acknowledged(c, s) && Enabled(c, s, step)
    ensures Acknowledged(c, Next(c, s, step))
  {
    hide ManuallyAcknowledged, ImmediatelyAcknowledged, Weight, Items, Without, Offer;
    if c.mode == Manual { KeepsManual(c, s, step); } else { KeepsImmediate(c, s, step); }
  }

  ghost predicate Inv(c: Config, s: State) {
    Conserved(c, s) && InOrder(s) && Acknowledged(c, s) && Reconnected(s)
  }

  lemma StepKeeps(c: Config, s: State, step: Step)
    requires Inv(c, s) && Enabled(c, s, step)
    ensures Inv(c, Next(c, s, step))
  {
    hide Conserved, InOrder, Acknowledged, Reconnected, Next;
    KeepsConserved(c, s, step);
    KeepsOrder(c, s, step);
    KeepsAcknowledged(c, s, step);
    KeepsReconnected(c, s, step);
  }

  lemma OneMoreEpoch(epochs: seq<nat>, epoch: nat)
    ensures Changes(epochs + [epoch]) ==
      Changes(epochs) + if epochs != [] && epochs[|epochs| - 1] !in {0, epoch} then 1 else 0
  {
    assert (epochs + [epoch])[..|epochs|] == epochs;
  }

  lemma KeepsReconnected(c: Config, s: State, step: Step)
    requires Reconnected(s) && Enabled(c, s, step)
    ensures Reconnected(Next(c, s, step))
  {
    hide Weight, Items, Without, Offer, Changes;
    if step.Arrive? {
      OneMoreEpoch(s.epochs, step.arrival.epoch);
    }
  }

  ghost predicate Run(c: Config, s: State, steps: seq<Step>, end: State)
    decreases |steps|
  {
    if steps == [] then s == end
    else Enabled(c, s, steps[0]) && Run(c, Next(c, s, steps[0]), steps[1..], end)
  }

  lemma {:induction false} RunKeeps(c: Config, s: State, steps: seq<Step>, end: State)
    requires Inv(c, s) && Run(c, s, steps, end)
    ensures Inv(c, end)
    decreases |steps|
  {
    hide Inv, Next;
    if steps == [] {
    } else {
      StepKeeps(c, s, steps[0]);
      RunKeeps(c, Next(c, s, steps[0]), steps[1..], end);
    }
  }

  /** In a sequence without repetitions no element occurs twice. */
  lemma {:induction false} UptoIsDistinct(n: nat, k: nat)
    ensures multiset(Upto(n))[k] <= 1
    ensures k in multiset(Upto(n)) <==> k < n
  {
    if n == 0 {
    } else {
      assert Upto(n) == Upto(n - 1) + [n - 1];
      UptoIsDistinct(n - 1, k);
    }
  }

  /** The whole of a subscription, however it is interleaved. */
  lemma SubscriptionIsSound(c: Config, steps: seq<Step>, end: State, n: nat)
    requires Run(c, Starts(c), steps, end)
    ensures end.available + Owned(end.task) + Weight(Items(end.queue)) + Weight(end.held) == c.bufferBytes
    ensures end.acked == |end.confirmed| <= end.received
    ensures end.handed == Upto(|end.handed|)
    ensures multiset(end.confirmed)[n] <= 1
    ensures c.mode == Manual && n in end.confirmed ==> n in end.handed
    ensures c.mode == Immediate && n in end.handed ==> n in end.confirmed
    ensures end.reconnects == Changes(end.epochs)
  {
    hide Weight, Items, InOrder, Acknowledged, Run, Changes, Upto;
    StartInv(c);
    RunKeeps(c, Starts(c), steps, end);
    HandedInOrder(end);
    AcknowledgedOnce(c, end, n);
  }

  lemma StartInv(c: Config)
    ensures Inv(c, Starts(c))
  {
  }

  lemma AcknowledgedOnce(c: Config, s: State, n: nat)
    requires Acknowledged(c, s) && s.handed == Upto(|s.handed|) && |s.handed| <= s.received
    ensures s.acked == |s.confirmed| <= s.received && multiset(s.confirmed)[n] <= 1
    ensures c.mode == Manual && n in s.confirmed ==> n in s.handed
    ensures c.mode == Immediate && n in s.handed ==> n in s.confirmed
  {
    hide Items, Balanced;
    if c.mode == Manual {
      ConfirmedWereHanded(s, n);
    } else {
      UptoIsDistinct(|s.handed|, n);
      UptoIsDistinct(|s.confirmed|, n);
    }
  }

  lemma HandedInOrder(s: State)
    requires InOrder(s)
    ensures s.handed == Upto(|s.handed|) && |s.handed| <= s.received
  {
    assert s.handed <= Pipeline(s);
  }

  lemma ConfirmedWereHanded(s: State, n: nat)
    requires Balanced(s.confirmed, s.held, s.handed) && s.handed == Upto(|s.handed|)
    ensures |s.confirmed| <= |s.handed|
    ensures multiset(s.confirmed)[n] <= 1
    ensures n in s.confirmed ==> n in s.handed
  {
    UptoIsDistinct(|s.handed|, n);
    SubmultisetIsSmaller(multiset(s.confirmed), multiset(s.handed));
    if n in s.confirmed {
      assert n in multiset(s.confirmed);
    }
  }

  lemma {:induction false} SubmultisetIsSmaller(a: multiset<nat>, b: multiset<nat>)
    requires a <= b
    ensures |a| <= |b|
  {
    assert b == a + (b - a);
  }

  /** A purchase that waits is never stuck: the application can always make room for it by receiving and dropping. */
  lemma {:induction false} DroppingUnblocks(c: Config, s: State) returns (steps: seq<Step>, end: State)
    requires Inv(c, s) && s.task.Buying?
    ensures forall step <- steps :: step == Receive || step.Discard?
    ensures Run(c, s, steps, end) && end.task == s.task && Enabled(c, end, Buy)
    ensures Inv(c, end) && end.open == s.open && end.received == s.received
    decreases 2 * |s.queue| + |s.held|
  {
    hide InOrder, Acknowledged, Reconnected;
    if s.task.bytes <= s.available {
      steps, end := [], s;
    } else {
      var step := if s.queue != [] then Receive else Discard(0);
      assert Enabled(c, s, step);
      StepKeeps(c, s, step);
      var more;
      more, end := DroppingUnblocks(c, Next(c, s, step));
      steps := [step] + more;
      assert steps[1..] == more;
    }
  }
}
