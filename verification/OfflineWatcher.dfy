/**
 The watcher that revokes device authorization when the business provider has been offline for longer than a
 grace period. It reads a published status, the clock, and the status again; the provider registry publishes and
 the clock advances between any two of its reads.
 */
module OfflineWatcher {
  import opened Bytes

  datatype Status = Status(epoch: nat, serving: bool, transition: nat, changedAt: nat)

  /** What the revocation callback meets: the gateway admits it, is draining, or fails. */
  datatype Outcome = Admitted | Draining | Error

  /** One invocation of the callback: the status it was given, when, the status found under the registry lock. */
  datatype Call = Call(observed: Status, at: nat, found: Status, outcome: Outcome)

  datatype Point = Top | Timing | SecondRead | Calling(observed: Status) | Waiting | Done

  datatype World = World(
    grace: nat,
    // the registry and the clock
    status: Status, version: nat, now: nat,
    // the watcher
    point: Point, seen: nat, current: Status, offline: Option<(nat, nat)>, invalidated: bool,
    calls: seq<Call>)

  // ---- the environment ----

  /** Publishing again without a change of serving keeps the transition and its time. */
  function Publish(w: World, epoch: nat, serving: bool): World {
    var s := w.status;
    var next := if s.serving == serving then Status(epoch, serving, s.transition, s.changedAt)
                else Status(epoch, serving, s.transition + 1, w.now);
    w.(status := next, version := w.version + 1)
  }

  function Advance(w: World, elapsed: nat): World {
    w.(now := w.now + elapsed)
  }

  // ---- the watcher ----

  function ReadStatus(w: World): World {
    var c := w.status;
    var episode := Some((c.transition, c.changedAt));
    if c.serving then w.(point := Timing, current := c, offline := None, invalidated := false)
    else if w.offline != episode then w.(point := Timing, current := c, offline := episode, invalidated := false)
    else w.(point := Timing, current := c)
  }

  predicate Overdue(w: World) {
    w.offline.Some? && !w.invalidated && w.now >= w.offline.value.1 + w.grace
  }

  function ReadAgain(w: World): World {
    var o := w.status;
    if !o.serving && o.transition == w.current.transition then w.(point := Calling(o))
    else w.(invalidated := true, point := Top)
  }

  /** The callback compares the whole status with the one observed, and does nothing when they differ. */
  function CallBack(w: World, outcome: Outcome): World
    requires w.point.Calling?
  {
    var call := Call(w.point.observed, w.now, w.status, outcome);
    if outcome == Error then w.(calls := w.calls + [call], point := Done)
    else w.(calls := w.calls + [call], invalidated := true, point := Top)
  }

  /** One step of the watcher by itself; a change of status is taken before the timer. */
  function Step(w: World, outcome: Outcome): World {
    match w.point
    case Top => ReadStatus(w)
    case Timing => w.(point := if Overdue(w) then SecondRead else Waiting)
    case SecondRead => ReadAgain(w)
    case Calling(_) => CallBack(w, outcome)
    case Waiting =>
      if w.version != w.seen then w.(seen := w.version, point := Top)
      else if Overdue(w) then w.(point := Top)
      else w
    case Done => w
  }

  datatype Event = Published(epoch: nat, serving: bool) | Advanced(elapsed: nat) | Stepped(outcome: Outcome) | Stopped

  function Next(w: World, e: Event): World {
    match e
    case Published(epoch, serving) => Publish(w, epoch, serving)
    case Advanced(elapsed) => Advance(w, elapsed)
    case Stepped(outcome) => Step(w, outcome)
    case Stopped => if w.point == Waiting then w.(point := Done) else w
  }

  function After(w: World, events: seq<Event>): World
    decreases |events|
  {
    if events == [] then w else After(Next(w, events[0]), events[1..])
  }

  predicate Starts(w: World) {
    && w.point == Top && w.offline == None && !w.invalidated && w.calls == [] && w.seen == w.version
    && w.current == w.status && w.status.changedAt <= w.now
  }

  // ---- invariants ----

  /** The callback was invoked for episode `t`. */
  predicate Called(calls: seq<Call>, t: nat) {
    exists i :: 0 <= i < |calls| && calls[i].observed.transition == t
  }

  predicate CallsInv(w: World) {
    && (forall i :: 0 <= i < |w.calls| ==>
      var c := w.calls[i];
      !c.observed.serving && c.observed.changedAt + w.grace <= c.at <= w.now && c.observed.transition <= w.current.transition)
    && (forall i, j :: 0 <= i < j < |w.calls| ==> w.calls[i].observed.transition < w.calls[j].observed.transition)
  }

  /** The watcher's picture `s` of the world is the present one, or the transition has moved on since. */
  predicate Tracks(w: World, s: Status) {
    && s.transition <= w.status.transition
    && (s.transition == w.status.transition ==> s.serving == w.status.serving && s.changedAt == w.status.changedAt)
  }

  predicate WatcherInv(w: World) {
    && w.status.changedAt <= w.now && w.seen <= w.version
    && Tracks(w, w.current)
    && (w.point != Top && w.version == w.seen ==> w.current == w.status)
    && (w.offline == Picture(w.current) || (w.point == Top && w.offline == None && w.calls == []))
    && (w.point.SecondRead? || w.point.Calling? ==> Overdue(w))
    && (w.point.Calling? ==>
      && !w.point.observed.serving && w.point.observed.transition == w.current.transition
      && w.point.observed.changedAt == w.current.changedAt)
    && (w.invalidated ==>
      && !w.current.serving
      && (Called(w.calls, w.current.transition) || (w.point == Top && w.current.transition < w.status.transition)))
    && (Called(w.calls, w.current.transition) && !w.current.serving ==> w.invalidated || w.point == Done)
  }

  /** The offline episode that a status belongs to. */
  function Picture(s: Status): Option<(nat, nat)> {
    if s.serving then None else Some((s.transition, s.changedAt))
  }

  predicate Inv(w: World) {
    CallsInv(w) && WatcherInv(w)
  }

  lemma StartInv(w: World)
    requires Starts(w)
    ensures Inv(w)
  {
  }

  lemma PublishKeeps(w: World, epoch: nat, serving: bool)
    requires Inv(w)
    ensures Inv(Publish(w, epoch, serving))
  {
  }

  lemma ReadStatusKeeps(w: World)
    requires Inv(w) && w.point == Top
    ensures Inv(ReadStatus(w))
  {
    if w.status.transition != w.current.transition {
      assert !Called(w.calls, w.status.transition);
    }
  }

  lemma CallBackKeeps(w: World, outcome: Outcome)
    requires Inv(w) && w.point.Calling?
    ensures Inv(CallBack(w, outcome))
  {
    var w' := CallBack(w, outcome);
    assert !Called(w.calls, w.current.transition);
    assert w'.calls[|w.calls|].observed.transition == w.current.transition;
  }

  lemma StepKeeps(w: World, outcome: Outcome)
    requires Inv(w)
    ensures Inv(Step(w, outcome))
  {
    match w.point
    case Top => ReadStatusKeeps(w);
    case Calling(_) => CallBackKeeps(w, outcome);
    case _ => MoveKeeps(w, outcome);
  }

  /** The steps that call nothing and read no new picture. */
  lemma MoveKeeps(w: World, outcome: Outcome)
    requires Inv(w) && !w.point.Top? && !w.point.Calling?
    ensures Inv(Step(w, outcome))
  {
    hide Called;
  }

  lemma {:induction false} RunKeeps(w: World, events: seq<Event>)
    requires Inv(w)
    ensures Inv(After(w, events))
    decreases |events|
  {
    hide Inv, Next;
    if events == [] {
    } else {
      OneEventKeeps(w, events[0]);
      RunKeeps(Next(w, events[0]), events[1..]);
    }
  }

  lemma OneEventKeeps(w: World, e: Event)
    requires Inv(w)
    ensures Inv(Next(w, e))
  {
    hide Inv;
    match e
    case Published(epoch, serving) => PublishKeeps(w, epoch, serving);
    case Advanced(elapsed) => AdvanceKeeps(w, elapsed);
    case Stepped(outcome) => StepKeeps(w, outcome);
    case Stopped => StopKeeps(w);
  }

  lemma AdvanceKeeps(w: World, elapsed: nat)
    requires Inv(w)
    ensures Inv(Advance(w, elapsed))
  {
  }

  lemma StopKeeps(w: World)
    requires Inv(w)
    ensures Inv(Next(w, Stopped))
  {
  }

  // ---- every run ----

  ghost predicate Reachable(w: World) {
    exists start, events :: Starts(start) && After(start, events) == w
  }

  lemma ReachableInv(w: World)
    requires Reachable(w)
    ensures Inv(w)
  {
    hide Inv, After;
    var start, events :| Starts(start) && After(start, events) == w;
    StartInv(start);
    RunKeeps(start, events);
  }

  /** At most one call for an episode, only for an offline status, and only when its grace is over. */
  lemma CallsAreLawful(w: World, i: nat, j: nat)
    requires Reachable(w) && i < |w.calls| && j < |w.calls|
    ensures !w.calls[i].observed.serving
    ensures w.calls[i].at >= w.calls[i].observed.changedAt + w.grace
    ensures w.calls[i].observed.transition == w.calls[j].observed.transition ==> i == j
  {
    ReachableInv(w);
  }

  /** The provider is offline and its grace is over. */
  predicate Expired(w: World) {
    !w.status.serving && w.now >= w.status.changedAt + w.grace
  }

  /** Steps of the watcher itself. */
  function Steps(events: seq<Event>): nat {
    if events == [] then 0 else (if events[0].Stepped? then 1 else 0) + Steps(events[1..])
  }

  /** How many steps of its own the watcher is at most from calling for the present episode. */
  function Remaining(w: World): nat {
    if Called(w.calls, w.status.transition) then 0
    else
      var current := w.current.transition == w.status.transition;
      match w.point
      case Top => 4
      case Waiting => 5
      case Timing => if current then 3 else 6
      case SecondRead => if current then 2 else 5
      case Calling(_) => if current then 1 else 5
      case Done => 0
  }

  /** A step brings the call nearer, and nothing else takes it further away. */
  lemma OneEventNearer(w: World, e: Event)
    requires Inv(w) && Expired(w)
    requires var w' := Next(w, e); w'.status.transition == w.status.transition && w'.point != Done
    ensures Expired(Next(w, e))
    ensures Remaining(w) > 0 ==> Remaining(Next(w, e)) + (if e.Stepped? then 1 else 0) <= Remaining(w)
  {
    var w' := Next(w, e);
    if Called(w.calls, w.status.transition) {
    } else if e.Stepped? {
      if w.point.Calling? && w.current.transition == w.status.transition {
        assert w'.calls[|w.calls|].observed.transition == w.status.transition;
      }
    }
  }

  /** Transitions only grow, calls are kept, and a watcher that has ended stays so. */
  lemma {:induction false} EventsOnlyAdd(w: World, events: seq<Event>)
    ensures var end := After(w, events);
      && w.calls <= end.calls && w.status.transition <= end.status.transition
      && (w.point == Done ==> end.point == Done)
    decreases |events|
  {
    if events == [] {
    } else {
      assert w.calls <= Next(w, events[0]).calls;
      EventsOnlyAdd(Next(w, events[0]), events[1..]);
    }
  }

  lemma {:induction false} CalledInTime(w: World, events: seq<Event>)
    requires Inv(w) && Expired(w) && Steps(events) >= Remaining(w)
    requires var end := After(w, events); end.status.transition == w.status.transition && end.point != Done
    ensures Called(After(w, events).calls, w.status.transition)
    decreases |events|
  {
    hide Inv, Expired, Next;
    EventsOnlyAdd(w, events);
    var end := After(w, events);
    if Remaining(w) == 0 {
      var i :| 0 <= i < |w.calls| && w.calls[i].observed.transition == w.status.transition;
      assert end.calls[i] == w.calls[i];
    } else {
      var w' := Next(w, events[0]);
      EventsOnlyAdd(w', events[1..]);
      EventsOnlyAdd(w, events[..1]);
      assert events[..1][1..] == [] && After(w, events[..1]) == w';
      OneEventNearer(w, events[0]);
      OneEventKeeps(w, events[0]);
      CalledInTime(w', events[1..]);
    }
  }

  /**
   An episode whose grace is over is never skipped, whatever is published, however the clock moves and whatever the
   callback answers: by the watcher's sixth step it has been called for, unless it is over or the watcher has ended.
   */
  lemma ExpiredIsCalled(w: World, events: seq<Event>)
    requires Reachable(w) && Expired(w) && Steps(events) >= 6
    ensures var end := After(w, events);
      end.status.transition == w.status.transition && end.point != Done ==> Called(end.calls, w.status.transition)
  {
    ReachableInv(w);
    var end := After(w, events);
    if end.status.transition == w.status.transition && end.point != Done {
      CalledInTime(w, events);
    }
  }

  // ---- what the published status tells ----

  function Elapsed(events: seq<Event>): nat {
    if events == [] then 0 else (if events[0].Advanced? then events[0].elapsed else 0) + Elapsed(events[1..])
  }

  /** Where a publication turned `serving` around. */
  predicate Turns(serving: bool, e: Event) {
    e.Published? && e.serving != serving
  }

  function ServingAfter(serving: bool, events: seq<Event>): bool
    decreases |events|
  {
    if events == [] then serving else ServingAfter(if events[0].Published? then events[0].serving else serving, events[1..])
  }

  function EpochAfter(epoch: nat, events: seq<Event>): nat
    decreases |events|
  {
    if events == [] then epoch else EpochAfter(if events[0].Published? then events[0].epoch else epoch, events[1..])
  }

  /** How often it was turned around. */
  function TurnsIn(serving: bool, events: seq<Event>): nat
    decreases |events|
  {
    if events == [] then 0
    else (if Turns(serving, events[0]) then 1 else 0) + TurnsIn(ServingAfter(serving, events[..1]), events[1..])
  }

  /** The clock reading at the last turn, or `changedAt` if there was none. */
  function LastTurn(serving: bool, now: nat, changedAt: nat, events: seq<Event>): nat
    decreases |events|
  {
    if events == [] then changedAt
    else LastTurn(ServingAfter(serving, events[..1]), now + Elapsed(events[..1]),
                  if Turns(serving, events[0]) then now else changedAt, events[1..])
  }

  lemma OneEvent(serving: bool, epoch: nat, e: Event)
    ensures ServingAfter(serving, [e]) == (if e.Published? then e.serving else serving)
    ensures EpochAfter(epoch, [e]) == (if e.Published? then e.epoch else epoch)
    ensures Elapsed([e]) == if e.Advanced? then e.elapsed else 0
  {
    assert [e][1..] == [];
  }

  /**
   In every run the clock is what has passed, and the status is what was published last: an episode number for
   every turn between serving and not serving, and the time of the last one.
   */
  lemma {:induction false} StatusTellsHistory(w: World, events: seq<Event>)
    ensures var end, was := After(w, events), w.status;
      && end.now == w.now + Elapsed(events)
      && end.status.serving == ServingAfter(was.serving, events) && end.status.epoch == EpochAfter(was.epoch, events)
      && end.status.transition == was.transition + TurnsIn(was.serving, events)
      && end.status.changedAt == LastTurn(was.serving, w.now, was.changedAt, events)
    decreases |events|
  {
    if events == [] {
    } else {
      assert events[..1] == [events[0]];
      OneEvent(w.status.serving, w.status.epoch, events[0]);
      OneOnStatus(w, events[0]);
      hide Next;
      StatusTellsHistory(Next(w, events[0]), events[1..]);
    }
  }

  lemma OneOnStatus(w: World, e: Event)
    ensures var w', was := Next(w, e), w.status;
      && w'.now == w.now + (if e.Advanced? then e.elapsed else 0)
      && w'.status.serving == (if e.Published? then e.serving else was.serving)
      && w'.status.epoch == (if e.Published? then e.epoch else was.epoch)
      && w'.status.transition == was.transition + (if Turns(was.serving, e) then 1 else 0)
      && w'.status.changedAt == if Turns(was.serving, e) then w.now else was.changedAt
  {
  }

  /** The watcher ends exactly when it is stopped while it waits or its callback fails. */
  lemma EndsExactly(w: World, e: Event)
    requires w.point != Done
    ensures Next(w, e).point == Done <==> (e == Stopped && w.point == Waiting) || (e == Stepped(Error) && w.point.Calling?)
  {
  }

  // ---- what a call achieves ----

  /** Authorization of episode `t` was revoked: the callback was admitted and met the very status it was given. */
  predicate Revoked(w: World, t: nat) {
    exists i :: 0 <= i < |w.calls| &&
      w.calls[i].observed.transition == t && w.calls[i].found == w.calls[i].observed && w.calls[i].outcome == Admitted
  }

  /**
   About to call for an episode, the watcher revokes it, in any future, exactly when the status is still the one
   observed and the gateway admits the call: there is no second try.
   */
  lemma RevokedExactlyWhenUnchanged(w: World, outcome: Outcome, future: seq<Event>)
    requires Inv(w) && w.point.Calling?
    ensures var t := w.point.observed.transition;
      Revoked(After(Next(w, Stepped(outcome)), future), t) <==> w.status == w.point.observed && outcome == Admitted
  {
    hide Inv, After;
    var called := Next(w, Stepped(outcome));
    var end := After(called, future);
    EventsOnlyAdd(called, future);
    StepKeeps(w, outcome);
    RunKeeps(called, future);
    var i := |w.calls|;
    assert end.calls[i] == called.calls[i] == Call(w.point.observed, w.now, w.status, outcome);
    OneCall(end, i);
  }

  lemma OneCall(w: World, i: nat)
    requires Inv(w) && i < |w.calls|
    ensures Revoked(w, w.calls[i].observed.transition) <==> w.calls[i].found == w.calls[i].observed && w.calls[i].outcome == Admitted
  {
  }

  /** A provider that reconnects, still offline, between the second reading and the call. */
  function ReconnectDuringCall(): (World, seq<Event>) {
    var offline := Status(1, false, 1, 0);
    (World(10, offline, 0, 10, Top, 0, offline, None, false, []),
     [Stepped(Admitted), Stepped(Admitted), Stepped(Admitted), Published(2, false), Stepped(Admitted),
      Stepped(Admitted), Stepped(Admitted), Stepped(Admitted), Stepped(Admitted), Stepped(Admitted)])
  }

  /** That episode is never revoked, although the provider stays offline: the watcher rests until the next publication. */
  lemma ReconnectDuringCallIsNotRevoked(elapsed: nat, outcome: Outcome)
    ensures var (start, events) := ReconnectDuringCall();
      var end := After(start, events);
      && Starts(start) && Expired(end) && end.point == Waiting && Called(end.calls, end.status.transition)
      && !Revoked(end, end.status.transition)
      && Step(Advance(end, elapsed), outcome) == Advance(end, elapsed)
  {
    var (start, events) := ReconnectDuringCall();
    var w3 := Next(Next(Next(start, events[0]), events[1]), events[2]);
    assert w3.point == Calling(start.status);
    var w6 := Next(Next(Next(w3, events[3]), events[4]), events[5]);
    var w9 := Next(Next(Next(w6, events[6]), events[7]), events[8]);
    var end := Next(w9, events[9]);
    AfterTen(start, events);
    assert end == After(start, events);
    assert |end.calls| == 1;
    assert end.calls[0].observed.transition == end.status.transition;
  }

  lemma AfterTen(w: World, events: seq<Event>)
    requires |events| == 10
    ensures After(w, events) ==
      Next(Next(Next(Next(Next(Next(Next(Next(Next(Next(w, events[0]), events[1]), events[2]), events[3]), events[4]),
        events[5]), events[6]), events[7]), events[8]), events[9])
  {
    hide Next;
    var w5 := Next(Next(Next(Next(Next(w, events[0]), events[1]), events[2]), events[3]), events[4]);
    AfterFive(w, events);
    AfterFive(w5, events[5..]);
    assert events[5..][5..] == [];
  }

  lemma AfterFive(w: World, events: seq<Event>)
    requires |events| >= 5
    ensures After(w, events) ==
      After(Next(Next(Next(Next(Next(w, events[0]), events[1]), events[2]), events[3]), events[4]), events[5..])
  {
    hide Next;
    var w1 := Next(w, events[0]);
    var w2 := Next(w1, events[1]);
    var w3 := Next(w2, events[2]);
    var w4 := Next(w3, events[3]);
    assert events[1..][1..] == events[2..] && events[2..][1..] == events[3..];
    assert events[3..][1..] == events[4..] && events[4..][1..] == events[5..];
    assert After(w, events) == After(w1, events[1..]) == After(w2, events[2..]);
    assert After(w2, events[2..]) == After(w3, events[3..]) == After(w4, events[4..]);
  }
}
