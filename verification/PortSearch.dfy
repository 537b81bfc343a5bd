/** Automatic choice of one port for the device TCP listener and UDP socket. */
module PortSearch {
  import opened Bytes

  const FIRST: nat := 49_152
  const SPAN: nat := 16_384
  const ATTEMPTS: nat := 32

  type Port = p: nat | p < 65_536

  function NextAutoPort(port: Port): (r: Port)
    ensures FIRST <= r < FIRST + SPAN
  {
    FIRST + (Max(port - FIRST, 0) + 509) % SPAN
  }

  /** The port reached from `port` after `n` moves. */
  function Nth(port: Port, n: nat): Port {
    if n == 0 then port else NextAutoPort(Nth(port, n - 1))
  }

  lemma {:induction false} NthClosedForm(port: Port, n: nat)
    requires FIRST <= port
    ensures Nth(port, n) == FIRST + (port - FIRST + 509 * n) % SPAN
  {
    if n == 0 {
    } else {
      NthClosedForm(port, n - 1);
      AddAfterMod(port - FIRST + 509 * (n - 1));
    }
  }

  lemma AddAfterMod(x: nat)
    ensures (x % SPAN + 509) % SPAN == (x + 509) % SPAN
  {
    var q, r := x / SPAN, x % SPAN;
    assert x + 509 == SPAN * q + (r + 509);
  }

  /** 509 is invertible modulo 16384: 509 * 9045 == 1 + 16384 * 281. */
  lemma Coprime(d: int, m: int)
    requires 509 * d == SPAN * m
    ensures d == SPAN * (9_045 * m - 281 * d)
  {
  }

  /** Equal remainders differ by a multiple. */
  lemma SameRemainder(x: nat, y: nat)
    requires x % SPAN == y % SPAN
    ensures y - x == SPAN * (y / SPAN - x / SPAN)
  {
  }

  /** Fewer than a period of strides of 509 do not return to the same remainder. */
  lemma StridesStayApart(x: nat, y: nat, d: nat)
    requires 0 < d < SPAN && y == x + 509 * d
    ensures x % SPAN != y % SPAN
  {
    if x % SPAN == y % SPAN {
      SameRemainder(x, y);
      var m := y / SPAN - x / SPAN;
      Coprime(d, m);
      NotAMultiple(d, 9_045 * m - 281 * d);
    }
  }

  lemma NotAMultiple(d: nat, k: int)
    requires 0 < d < SPAN
    ensures d != SPAN * k
  {
  }

  /** Moves from `port` do not repeat a port within one period. */
  lemma NthIsInjective(port: Port, i: nat, j: nat)
    requires FIRST <= port && i < j < i + SPAN
    ensures Nth(port, i) != Nth(port, j)
  {
    hide Nth;
    NthClosedForm(port, i);
    NthClosedForm(port, j);
    StridesStayApart(port - FIRST + 509 * i, port - FIRST + 509 * j, j - i);
  }

  /** The number of moves from `from` to `to`. */
  function Moves(from: Port, to: Port): nat {
    (9_045 * (to - from)) % SPAN
  }

  /** Every port of the dynamic range is reached within one period. */
  lemma NthReachesAll(from: Port, to: Port)
    requires FIRST <= from && FIRST <= to
    ensures Moves(from, to) < SPAN && Nth(from, Moves(from, to)) == to
  {
    var n := Moves(from, to);
    NthClosedForm(from, n);
    var j := (9_045 * (to - from)) / SPAN;
    assert n == 9_045 * (to - from) - SPAN * j;
    assert from - FIRST + 509 * n == (to - FIRST) + SPAN * (281 * (to - from) - 509 * j);
    Offset(to - FIRST, 281 * (to - from) - 509 * j);
  }

  lemma Offset(r: nat, k: int)
    requires r < SPAN
    ensures (r + SPAN * k) % SPAN == r
  {
  }

  // ---- binding both sockets ----

  datatype BindError = AddrInUse | Os(code: int) | OtherError

  predicate Retryable(error: BindError, automatic: bool, windows: bool) {
    automatic && (error == AddrInUse || (windows && error == Os(10_013)))
  }

  /** A bound TCP listener with its port, a bound one whose address cannot be read, or a failure. */
  datatype TcpResult = Bound(port: Port) | Unnamed | Refused(error: BindError)

  /** What the operating system answers at each attempt. */
  datatype System = System(tcp: (nat, Port) -> TcpResult, udp: (nat, Port) -> Option<BindError>, windows: bool)

  /** Binding to a port gives that port; port zero gives some port. */
  ghost predicate Honest(os: System) {
    forall i, c :: os.tcp(i, c).Bound? ==> os.tcp(i, c).port != 0 && (c != 0 ==> os.tcp(i, c).port == c)
  }

  datatype Outcome = Paired(tcp: Port, udp: Port) | Unavailable

  /** Attempt `i` at `candidate` failed in a way that moves on to another port. */
  predicate MovesOn(os: System, automatic: bool, i: nat, candidate: Port) {
    automatic &&
    match os.tcp(i, candidate)
    case Refused(error) => Collides(os, error)
    case Unnamed => false
    case Bound(p) => os.udp(i, p).Some? && Collides(os, os.udp(i, p).value)
  }

  /** Somebody else has the port; Windows may say so by WSAEACCES. */
  predicate Collides(os: System, error: BindError) {
    match error
    case AddrInUse => true
    case Os(code) => os.windows && code == 10_013
    case OtherError => false
  }

  lemma CollisionsAreRetried(os: System, automatic: bool, error: BindError)
    ensures Retryable(error, automatic, os.windows) <==> automatic && Collides(os, error)
  {
  }

  predicate Succeeds(os: System, i: nat, candidate: Port) {
    os.tcp(i, candidate).Bound? && os.udp(i, os.tcp(i, candidate).port).None?
  }

  /** The port that attempt `i` at `candidate` probed. */
  function Probed(os: System, i: nat, candidate: Port): Port {
    if os.tcp(i, candidate).Bound? then os.tcp(i, candidate).port else candidate
  }

  /** A chain of probes: each next one is the move from the last. */
  predicate Chain(probed: seq<Port>) {
    forall k :: 0 <= k < |probed| - 1 ==> probed[k + 1] == NextAutoPort(probed[k])
  }

  predicate DistinctPorts(probed: seq<Port>) {
    forall i, j :: 0 <= i < j < |probed| && probed[i] != 0 ==> probed[i] != probed[j]
  }

  lemma {:induction false} ChainIsNth(probed: seq<Port>, i: nat, j: nat)
    requires Chain(probed) && i <= j < |probed|
    ensures probed[j] == Nth(probed[i], j - i)
  {
    if i == j {
    } else {
      ChainIsNth(probed, i, j - 1);
    }
  }

  /** Whatever port the system picked first, no other port is probed twice. */
  lemma ChainIsDistinct(probed: seq<Port>)
    requires Chain(probed) && |probed| <= ATTEMPTS
    ensures DistinctPorts(probed)
  {
    forall i, j | 0 <= i < j < |probed| && probed[i] != 0 ensures probed[i] != probed[j] {
      if FIRST <= probed[i] {
        ChainIsNth(probed, i, j);
        NthIsInjective(probed[i], 0, j - i);
      } else {
        assert probed[j] == NextAutoPort(probed[j - 1]);
      }
    }
  }

  /**
   Tries at most 32 candidates. It pairs both sockets on one port at the first attempt where the system allows
   it, gives up at the first failure that is not a collision, and never moves from an explicit port.
   */
  method BindDevicePair(os: System, requested: Port, first: Port) returns (r: Outcome, probed: seq<Port>)
    requires Honest(os)
    ensures 1 <= |probed| <= ATTEMPTS && Chain(probed) && DistinctPorts(probed)
    ensures requested != 0 ==> |probed| == 1 && probed[0] == Probed(os, 0, first)
    ensures r.Paired? ==> r.tcp == r.udp == probed[|probed| - 1] != 0
    ensures forall k :: 0 <= k < |probed| - 1 ==> MovesOn(os, requested == 0, k, Candidate(first, probed, k))
    ensures var last := |probed| - 1;
      && (r.Paired? <==> Succeeds(os, last, Candidate(first, probed, last)))
      && (r.Unavailable? ==> |probed| == ATTEMPTS || !MovesOn(os, requested == 0, last, Candidate(first, probed, last)))
  {
    hide Retryable, Collides;
    forall automatic, error ensures Retryable(error, automatic, os.windows) <==> automatic && Collides(os, error) {
      CollisionsAreRetried(os, automatic, error);
    }
    var candidate := first;
    probed := [];
    for attempt := 0 to ATTEMPTS
      invariant |probed| == attempt && Chain(probed)
      invariant candidate == Candidate(first, probed, attempt)
      invariant requested != 0 ==> attempt == 0
      invariant forall k :: 0 <= k < attempt ==> MovesOn(os, requested == 0, k, Candidate(first, probed, k))
      invariant attempt > 0 ==> !Succeeds(os, attempt - 1, Candidate(first, probed, attempt - 1))
    {
      ghost var before := probed;
      probed := probed + [Probed(os, attempt, candidate)];
      assert forall k :: 0 <= k < |before| ==> probed[k] == before[k];
      assert forall k :: 0 <= k <= attempt ==> Candidate(first, probed, k) == Candidate(first, before, k);
      var moved := candidate;
      match os.tcp(attempt, candidate) {
        case Refused(error) =>
          moved := NextAutoPort(candidate);
          if !Retryable(error, requested == 0, os.windows) {
            ChainIsDistinct(probed);
            return Unavailable, probed;
          }
        case Unnamed =>
          ChainIsDistinct(probed);
          return Unavailable, probed;
        case Bound(port) =>
          moved := NextAutoPort(port);
          match os.udp(attempt, port) {
            case None =>
              ChainIsDistinct(probed);
              return Paired(port, port), probed;
            case Some(error) =>
              if !Retryable(error, requested == 0, os.windows) {
                ChainIsDistinct(probed);
                return Unavailable, probed;
              }
          }
      }
      candidate := moved;
    }
    ChainIsDistinct(probed);
    r := Unavailable;
  }

  /** The candidate of attempt `k`. */
  function Candidate(first: Port, probed: seq<Port>, k: nat): Port
    requires k <= |probed|
  {
    if k == 0 then first else NextAutoPort(probed[k - 1])
  }
}
