/**
 The admission gate: publishers enter under a counter, checking the lifecycle state before and after they count
 themselves; quiescing closes the state and waits for the counter. Every atomic access is one step, and any
 number of publishers interleave.
 */
module Lifecycle {

  datatype State = Starting | Running | Quiescing | Draining | Spooling | Drained

  datatype Publisher = Idle | Checked | Counted | Admitted | Leaving

  datatype Gate = Gate(
    state: State, count: nat, publishers: map<nat, Publisher>,
    /** The quiescing task has read zero from the counter. */
    sawZero: bool)

  datatype Step =
    | Start
    | FirstCheck(publisher: nat)
    | Count(publisher: nat)
    | SecondCheck(publisher: nat)
    | Release(publisher: nat)
    | Close
    | ReadCount
    | EnterDraining
    | EnterSpooling
    | Finish

  predicate Enabled(g: Gate, step: Step) {
    match step
    case Start => g.state == Starting
    case FirstCheck(p) => p in g.publishers && g.publishers[p] == Idle
    case Count(p) => p in g.publishers && g.publishers[p] == Checked
    case SecondCheck(p) => p in g.publishers && g.publishers[p] == Counted
    case Release(p) => p in g.publishers && (g.publishers[p] == Admitted || g.publishers[p] == Leaving)
    case Close => g.state == Running
    case ReadCount => g.state == Quiescing
    case EnterDraining => g.state == Quiescing && g.sawZero
    case EnterSpooling => g.state == Draining
    case Finish => g.state == Draining || g.state == Spooling
  }

  function Move(g: Gate, p: nat, to: Publisher): Gate {
    g.(publishers := g.publishers[p := to])
  }

  function Next(g: Gate, step: Step): Gate
    requires Enabled(g, step)
  {
    match step
    case Start => g.(state := Running)
    case FirstCheck(p) => if g.state == Running then Move(g, p, Checked) else g
    case Count(p) => Move(g, p, Counted).(count := g.count + 1)
    case SecondCheck(p) => Move(g, p, if g.state == Running then Admitted else Leaving)
    case Release(p) => Move(g, p, Idle).(count := if g.count > 0 then g.count - 1 else 0)
    case Close => g.(state := Quiescing)
    case ReadCount => g.(sawZero := g.count == 0)
    case EnterDraining => g.(state := Draining)
    case EnterSpooling => g.(state := Spooling)
    case Finish => g.(state := Drained)
  }

  /** From its increment to its decrement of the counter. */
  predicate Counting(p: Publisher) {
    p.Counted? || p.Admitted? || p.Leaving?
  }

  function Holding(publishers: map<nat, Publisher>): set<nat> {
    set p | p in publishers && Counting(publishers[p])
  }

  predicate Inside(publishers: map<nat, Publisher>, p: nat) {
    p in publishers && publishers[p] == Admitted
  }

  ghost predicate Empty(publishers: map<nat, Publisher>) {
    forall p :: !Inside(publishers, p)
  }

  predicate Open(g: Gate) {
    g.state == Starting || g.state == Running
  }

  ghost predicate Inv(g: Gate) {
    && g.count == |Holding(g.publishers)|
    && (g.sawZero ==> !Open(g) && Empty(g.publishers))
    && (!Open(g) && g.state != Quiescing ==> g.sawZero)
  }

  lemma WithTheOthers(publishers: map<nat, Publisher>, p: nat)
    requires p in publishers
    ensures |Holding(publishers)| == |Holding(publishers - {p})| + if Counting(publishers[p]) then 1 else 0
  {
    if Counting(publishers[p]) {
      assert Holding(publishers) == Holding(publishers - {p}) + {p};
    } else {
      assert Holding(publishers) == Holding(publishers - {p});
    }
  }

  /** A publisher's step counts it in or out, or neither. */
  lemma OneMoves(publishers: map<nat, Publisher>, p: nat, to: Publisher)
    requires p in publishers
    ensures |Holding(publishers[p := to])| ==
      |Holding(publishers)| - (if Counting(publishers[p]) then 1 else 0) + if Counting(to) then 1 else 0
    ensures Empty(publishers) && to != Admitted ==> Empty(publishers[p := to])
  {
    hide Holding, Counting;
    WithTheOthers(publishers, p);
    WithTheOthers(publishers[p := to], p);
    assert publishers[p := to] - {p} == publishers - {p};
    if Empty(publishers) && to != Admitted {
      var moved := publishers[p := to];
      forall q ensures !Inside(moved, q) {
        assert !Inside(publishers, q);
      }
    }
  }

  lemma StepKeeps(g: Gate, step: Step)
    requires Inv(g) && Enabled(g, step)
    ensures Inv(Next(g, step))
  {
    hide Holding, Empty;
    var g' := Next(g, step);
    match step
    case FirstCheck(p) => OneMoves(g.publishers, p, g'.publishers[p]);
    case Count(p) => OneMoves(g.publishers, p, Counted);
    case SecondCheck(p) => OneMoves(g.publishers, p, g'.publishers[p]);
    case Release(p) => OneMoves(g.publishers, p, Idle);
    case ReadCount => NobodyCounted(g.publishers);
    case _ =>
  }

  lemma NobodyCounted(publishers: map<nat, Publisher>)
    ensures |Holding(publishers)| == 0 ==> Empty(publishers)
  {
    if |Holding(publishers)| == 0 {
      forall p ensures !Inside(publishers, p) {
        assert p !in Holding(publishers);
      }
    }
  }

  ghost predicate Run(g: Gate, steps: seq<Step>, end: Gate)
    decreases |steps|
  {
    if steps == [] then g == end
    else Enabled(g, steps[0]) && Run(Next(g, steps[0]), steps[1..], end)
  }

  predicate Starts(g: Gate) {
    g.state == Starting && g.count == 0 && !g.sawZero && forall p :: p in g.publishers ==> g.publishers[p] == Idle
  }

  lemma {:induction false} RunKeeps(g: Gate, steps: seq<Step>, end: Gate)
    requires Inv(g) && Run(g, steps, end)
    ensures Inv(end)
    decreases |steps|
  {
    hide Inv, Next;
    if steps == [] {
    } else {
      StepKeeps(g, steps[0]);
      RunKeeps(Next(g, steps[0]), steps[1..], end);
    }
  }

  /** Once draining has begun, no publisher is inside, in any interleaving, and none can get in. */
  lemma NobodyInsideWhileDraining(g: Gate, steps: seq<Step>, end: Gate, p: nat)
    requires Starts(g) && Run(g, steps, end) && end.state in {Draining, Spooling, Drained}
    ensures !Inside(end.publishers, p)
  {
    assert Holding(g.publishers) == {};
    RunKeeps(g, steps, end);
  }

  // ---- what the gate lets happen ----

  /** A publisher is let in exactly when the state is running at both of its checks. */
  lemma ChecksDecide(g: Gate, p: nat)
    requires p in g.publishers
    ensures g.publishers[p] == Idle ==>
      Next(g, FirstCheck(p)).publishers == g.publishers[p := if g.state == Running then Checked else Idle]
    ensures g.publishers[p] == Counted ==>
      Next(g, SecondCheck(p)).publishers == g.publishers[p := if g.state == Running then Admitted else Leaving]
  {
  }

  /** Quiescing sees zero exactly when nobody holds the counter. */
  lemma ZeroIsSeenExactly(g: Gate)
    requires Inv(g) && g.state == Quiescing
    ensures Enabled(g, ReadCount) && (Next(g, ReadCount).sawZero <==> Holding(g.publishers) == {})
  {
  }

  lemma OneStepMore(g: Gate, step: Step, steps: seq<Step>, end: Gate)
    requires Enabled(g, step) && Run(Next(g, step), steps, end)
    ensures Run(g, [step] + steps, end)
  {
    hide Enabled, Next;
    assert ([step] + steps)[1..] == steps;
  }

  lemma Stays(g: Gate)
    ensures Run(g, [], g)
  {
  }

  /** While the state is running, every idle publisher can get in. */
  lemma AnyoneCanEnter(g: Gate, p: nat) returns (steps: seq<Step>, end: Gate)
    requires g.state == Running && p in g.publishers && g.publishers[p] == Idle
    ensures Run(g, steps, end) && end.state == Running && end.publishers == g.publishers[p := Admitted]
  {
    hide Run;
    var checked := Next(g, FirstCheck(p));
    var counted := Next(checked, Count(p));
    end := Next(counted, SecondCheck(p));
    Stays(end);
    OneStepMore(counted, SecondCheck(p), [], end);
    OneStepMore(checked, Count(p), [SecondCheck(p)] + [], end);
    OneStepMore(g, FirstCheck(p), [Count(p)] + ([SecondCheck(p)] + []), end);
    steps := [FirstCheck(p)] + ([Count(p)] + ([SecondCheck(p)] + []));
  }

  /** Steps of publishers on their way out, and of the quiescing task. */
  predicate Outward(step: Step) {
    step.SecondCheck? || step.Release? || step == ReadCount || step == EnterDraining
  }

  /**
   From every state of quiescing, draining is reached as soon as those who hold the counter have left, whatever the
   others do: nobody has to be let in, and no count is lost.
   */
  lemma {:induction false} QuiescingEnds(g: Gate) returns (steps: seq<Step>, end: Gate)
    requires Inv(g) && g.state == Quiescing
    ensures forall step <- steps :: Outward(step)
    ensures Run(g, steps, end) && end.state == Draining && |steps| <= 2 * |Holding(g.publishers)| + 2
    decreases |Holding(g.publishers)|
  {
    hide Run, Inv;
    if Holding(g.publishers) == {} {
      assert g.count == 0 by { CountIsHolding(g); }
      var read := Next(g, ReadCount);
      end := Next(read, EnterDraining);
      Stays(end);
      OneStepMore(read, EnterDraining, [], end);
      OneStepMore(g, ReadCount, [EnterDraining] + [], end);
      steps := [ReadCount] + ([EnterDraining] + []);
    } else {
      var p :| p in Holding(g.publishers);
      var first, out := LeaveOne(g, p);
      var rest;
      rest, end := QuiescingEnds(out);
      RunsCompose(g, first, out, rest, end);
      steps := first + rest;
    }
  }

  lemma CountIsHolding(g: Gate)
    requires Inv(g)
    ensures g.count == |Holding(g.publishers)|
  {
  }

  lemma LeaveOne(g: Gate, p: nat) returns (steps: seq<Step>, out: Gate)
    requires Inv(g) && g.state == Quiescing && p in Holding(g.publishers)
    ensures forall step <- steps :: Outward(step)
    ensures Run(g, steps, out) && |steps| <= 2 && Inv(out) && out.state == Quiescing
    ensures |Holding(out.publishers)| == |Holding(g.publishers)| - 1
  {
    hide Run, Inv;
    var leaving, before: seq<Step> := g, [];
    if g.publishers[p] == Counted {
      leaving, before := Next(g, SecondCheck(p)), [SecondCheck(p)];
      StepKeeps(g, SecondCheck(p));
      OneMoves(g.publishers, p, Leaving);
    }
    out := Next(leaving, Release(p));
    StepKeeps(leaving, Release(p));
    OneMoves(leaving.publishers, p, Idle);
    Stays(out);
    OneStepMore(leaving, Release(p), [], out);
    steps := [Release(p)] + [];
    if before != [] {
      OneStepMore(g, SecondCheck(p), steps, out);
      steps := [SecondCheck(p)] + steps;
    }
  }

  lemma {:induction false} RunsCompose(g: Gate, first: seq<Step>, middle: Gate, second: seq<Step>, end: Gate)
    requires Run(g, first, middle) && Run(middle, second, end)
    ensures Run(g, first + second, end)
    decreases |first|
  {
    hide Enabled, Next;
    if first == [] {
      assert first + second == second;
    } else {
      RunsCompose(Next(g, first[0]), first[1..], middle, second, end);
      assert (first + second)[1..] == first[1..] + second;
    }
  }

  /** The state only moves forward. */
  function Rank(s: State): nat {
    match s
    case Starting => 0
    case Running => 1
    case Quiescing => 2
    case Draining => 3
    case Spooling => 4
    case Drained => 5
  }

  lemma StateMovesForward(g: Gate, step: Step)
    requires Enabled(g, step)
    ensures var g' := Next(g, step);
      && Rank(g.state) <= Rank(g'.state)
      && (g'.state != g.state <==> step in {Start, Close, EnterDraining, EnterSpooling, Finish})
      && (g'.state == Draining && g.state != Draining ==> g.sawZero)
  {
  }

  /** Draining may go on to spooling before the end. */
  lemma DrainingMaySpool(g: Gate)
    requires g.state == Draining
    ensures Run(g, [EnterSpooling, Finish], g.(state := Drained))
  {
    var steps := [EnterSpooling, Finish];
    assert steps[1..] == [Finish] && steps[1..][1..] == [];
    assert Run(g.(state := Drained), [], g.(state := Drained));
    assert Run(g.(state := Spooling), [Finish], g.(state := Drained));
  }

  /** From every state the gate can be driven to its end. */
  lemma GateCanFinish(g: Gate) returns (steps: seq<Step>, end: Gate)
    requires Inv(g)
    ensures Run(g, steps, end) && end.state == Drained
  {
    hide Run, Inv;
    match g.state
    case Starting =>
      StepKeeps(g, Start);
      steps, end := CloseAndFinish(Next(g, Start));
      OneStepMore(g, Start, steps, end);
      steps := [Start] + steps;
    case Running => steps, end := CloseAndFinish(g);
    case Quiescing => steps, end := DrainAndFinish(g);
    case Drained =>
      steps, end := [], g;
      Stays(g);
    case _ =>
      end := Next(g, Finish);
      Stays(end);
      OneStepMore(g, Finish, [], end);
      steps := [Finish] + [];
  }

  lemma CloseAndFinish(g: Gate) returns (steps: seq<Step>, end: Gate)
    requires Inv(g) && g.state == Running
    ensures Run(g, steps, end) && end.state == Drained
  {
    hide Run, Inv;
    StepKeeps(g, Close);
    steps, end := DrainAndFinish(Next(g, Close));
    OneStepMore(g, Close, steps, end);
    steps := [Close] + steps;
  }

  lemma DrainAndFinish(g: Gate) returns (steps: seq<Step>, end: Gate)
    requires Inv(g) && g.state == Quiescing
    ensures Run(g, steps, end) && end.state == Drained
  {
    hide Run, Inv;
    var first, drained := QuiescingEnds(g);
    end := Next(drained, Finish);
    Stays(end);
    OneStepMore(drained, Finish, [], end);
    RunsCompose(g, first, drained, [Finish] + [], end);
    steps := first + ([Finish] + []);
  }
}
