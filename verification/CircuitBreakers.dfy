/** The per-source circuit breaker and the predicate on its history that it implements. */
module CircuitBreakers {
  import opened Sequences

  datatype CircuitState = Closed | Open | HalfOpen

  datatype Policy = Policy(failureThreshold: int, recoverySeconds: real)

  datatype Breaker = Breaker(state: CircuitState, failures: int, openedAt: real)

  const FRESH := Breaker(Closed, 0, 0.0)

  function Admits(p: Policy, b: Breaker, now: real): bool {
    b.state != Open || now - b.openedAt >= p.recoverySeconds
  }

  function AfterBefore(p: Policy, b: Breaker, now: real): Breaker {
    if b.state == Open && now - b.openedAt >= p.recoverySeconds then b.(state := HalfOpen) else b
  }

  function AfterSuccess(b: Breaker): Breaker {
    b.(failures := 0, state := Closed)
  }

  function AfterFailure(p: Policy, b: Breaker, now: real): Breaker {
    var failures := b.failures + 1;
    if b.state == HalfOpen || failures >= p.failureThreshold then Breaker(Open, failures, now)
    else b.(failures := failures)
  }

  class CircuitBreaker {
    const policy: Policy
    var state: CircuitState
    var failures: int
    var openedAt: real

    function Model(): Breaker
      reads this
    {
      Breaker(state, failures, openedAt)
    }

    constructor (policy: Policy)
      ensures this.policy == policy && Model() == FRESH
    {
      this.policy := policy;
      state, failures, openedAt := Closed, 0, 0.0;
    }

    /** `ok` is false where the source raises CircuitOpen. */
    method Before(now: real) returns (ok: bool)
      modifies this
      ensures ok == Admits(policy, old(Model()), now)
      ensures Model() == AfterBefore(policy, old(Model()), now)
      ensures ok ==> state == if old(state) == Open then HalfOpen else old(state)
      ensures failures == old(failures) && openedAt == old(openedAt) && (!ok ==> state == Open)
    {
      ok := true;
      if state == Open {
        if now - openedAt >= policy.recoverySeconds {
          state := HalfOpen;
        } else {
          ok := false;
        }
      }
    }

    method OnSuccess()
      modifies this
      ensures Model() == AfterSuccess(old(Model()))
    {
      failures := 0;
      state := Closed;
    }

    method OnFailure(now: real)
      modifies this
      ensures Model() == AfterFailure(policy, old(Model()), now)
    {
      failures := failures + 1;
      if state == HalfOpen || failures >= policy.failureThreshold {
        state := Open;
        openedAt := now;
      }
    }
  }

  /** One breaker per source; the policy seen first stays. */
  class BreakerRegistry {
    var store: map<string, CircuitBreaker>

    constructor ()
      ensures store == map[]
    {
      store := map[];
    }

    method Get(sourceId: string, policy: Policy) returns (b: CircuitBreaker)
      modifies this
      ensures sourceId in old(store) ==> store == old(store) && b == store[sourceId]
      ensures sourceId !in old(store) ==> fresh(b) && b.policy == policy && b.Model() == FRESH
      ensures sourceId !in old(store) ==> store == old(store)[sourceId := b]
    {
      if sourceId !in store {
        var made := new CircuitBreaker(policy);
        store := store[sourceId := made];
      }
      b := store[sourceId];
    }
  }

  // ---- Histories ----

  /** What happens to a breaker. `Gone` is an admitted run that ends without reporting an outcome. */
  datatype Event = Admit(at: real) | Refuse(at: real) | Success | Failure(at: real) | Gone

  function Apply(p: Policy, b: Breaker, e: Event): Breaker {
    match e
    case Admit(t) => AfterBefore(p, b, t)
    case Refuse(t) => AfterBefore(p, b, t)
    case Success => AfterSuccess(b)
    case Failure(t) => AfterFailure(p, b, t)
    case Gone => b
  }

  function After(p: Policy, hist: seq<Event>): Breaker {
    if hist == [] then FRESH else Apply(p, After(p, hist[..|hist| - 1]), hist[|hist| - 1])
  }

  function FailuresSinceSuccess(hist: seq<Event>): nat {
    if hist == [] then 0
    else match hist[|hist| - 1]
      case Success => 0
      case Failure(_) => FailuresSinceSuccess(hist[..|hist| - 1]) + 1
      case _ => FailuresSinceSuccess(hist[..|hist| - 1])
  }

  function LastFailure(hist: seq<Event>): Option<real> {
    if hist == [] then None
    else match hist[|hist| - 1]
      case Failure(t) => Some(t)
      case _ => LastFailure(hist[..|hist| - 1])
  }

  /** A threshold below one behaves like one: no breaker opens without a failure. */
  function Threshold(p: Policy): int { Max(1, p.failureThreshold) }

  /** The rule the breaker is meant to follow, with no state of its own. */
  predicate Rejects(p: Policy, hist: seq<Event>, now: real) {
    && FailuresSinceSuccess(hist) >= Threshold(p)
    && LastFailure(hist).Some? && now - LastFailure(hist).value < p.recoverySeconds
  }

  /** Clock readings never decrease and are at most `now`. */
  predicate Clocked(hist: seq<Event>, now: real) {
    hist == [] || match hist[|hist| - 1]
      case Admit(t) => t <= now && Clocked(hist[..|hist| - 1], t)
      case Refuse(t) => t <= now && Clocked(hist[..|hist| - 1], t)
      case Failure(t) => t <= now && Clocked(hist[..|hist| - 1], t)
      case _ => Clocked(hist[..|hist| - 1], now)
  }

  lemma {:induction false} ClockedLater(hist: seq<Event>, now: real, later: real)
    requires Clocked(hist, now) && now <= later
    ensures Clocked(hist, later)
  {
    if hist != [] {
      match hist[|hist| - 1]
      case Success => ClockedLater(hist[..|hist| - 1], now, later);
      case Gone => ClockedLater(hist[..|hist| - 1], now, later);
      case _ =>
    }
  }

  /**
   * What the fields mean: the failure count, CLOSED exactly below the threshold, and otherwise
   * `openedAt` is the last failure; HALF_OPEN only once the recovery time has passed.
   */
  lemma {:induction false} StateMeaning(p: Policy, hist: seq<Event>, now: real)
    requires Clocked(hist, now)
    ensures After(p, hist).failures == FailuresSinceSuccess(hist)
    ensures After(p, hist).state == Closed <==> FailuresSinceSuccess(hist) < Threshold(p)
    ensures FailuresSinceSuccess(hist) > 0 ==> LastFailure(hist).Some?
    ensures After(p, hist).state != Closed ==> LastFailure(hist) == Some(After(p, hist).openedAt)
    ensures After(p, hist).state == HalfOpen ==> now - After(p, hist).openedAt >= p.recoverySeconds
    decreases |hist|
  {
    if hist != [] {
      var init := hist[..|hist| - 1];
      match hist[|hist| - 1]
      case Admit(t) => StateMeaning(p, init, t);
      case Refuse(t) => StateMeaning(p, init, t);
      case Failure(t) => StateMeaning(p, init, t);
      case _ => StateMeaning(p, init, now);
    }
  }

  /** The stateful breaker rejects exactly when the rule on its history says so. */
  lemma BreakerFollowsRule(p: Policy, hist: seq<Event>, now: real)
    requires Clocked(hist, now)
    ensures Admits(p, After(p, hist), now) <==> !Rejects(p, hist, now)
  {
    StateMeaning(p, hist, now);
  }

  // ---- One run at a time ----

  /** Admitted runs that have not ended yet. */
  function InFlight(hist: seq<Event>): int {
    if hist == [] then 0
    else match hist[|hist| - 1]
      case Admit(_) => InFlight(hist[..|hist| - 1]) + 1
      case Refuse(_) => InFlight(hist[..|hist| - 1])
      case _ => InFlight(hist[..|hist| - 1]) - 1
  }

  /** Admissions and refusals are what the breaker decided. */
  predicate Legal(p: Policy, hist: seq<Event>) {
    hist == [] || (
      && Legal(p, hist[..|hist| - 1])
      && match hist[|hist| - 1]
         case Admit(t) => Admits(p, After(p, hist[..|hist| - 1]), t)
         case Refuse(t) => !Admits(p, After(p, hist[..|hist| - 1]), t)
         case _ => true)
  }

  /** At no time is more than one run in flight. */
  predicate Serial(hist: seq<Event>) {
    0 <= InFlight(hist) <= 1 && (hist != [] ==> Serial(hist[..|hist| - 1]))
  }

  /** A single run in flight is reported to a breaker that is not open. */
  lemma {:induction false} InFlightMeansNotOpen(p: Policy, hist: seq<Event>)
    requires Legal(p, hist) && Serial(hist) && InFlight(hist) == 1
    ensures After(p, hist).state != Open
    decreases |hist|
  {
    var init := hist[..|hist| - 1];
    match hist[|hist| - 1]
    case Refuse(_) => InFlightMeansNotOpen(p, init);
    case _ =>
  }

  // ---- Runs of a serial history ----

  /** How an admitted run has gone so far. `Lost` ended without reporting an outcome. */
  datatype Fate = InAir | Failed | Won | Lost

  datatype Flight = Flight(start: real, fate: Fate)

  function SetLast(fs: seq<Flight>, fate: Fate): seq<Flight> {
    if fs == [] then [] else fs[|fs| - 1 := fs[|fs| - 1].(fate := fate)]
  }

  /** Every admission of a serial history, in order. */
  function Flights(hist: seq<Event>): seq<Flight> {
    if hist == [] then []
    else
      var before := Flights(hist[..|hist| - 1]);
      match hist[|hist| - 1]
      case Admit(t) => before + [Flight(t, InAir)]
      case Refuse(_) => before
      case Success => SetLast(before, Won)
      case Failure(_) => SetLast(before, Failed)
      case Gone => SetLast(before, Lost)
  }

  function CountOf(fs: seq<Flight>, fate: Fate, lo: nat, hi: nat): nat
    requires lo <= hi <= |fs|
  {
    if lo == hi then 0 else CountOf(fs, fate, lo, hi - 1) + if fs[hi - 1].fate == fate then 1 else 0
  }

  function GoneCount(hist: seq<Event>): nat {
    if hist == [] then 0 else GoneCount(hist[..|hist| - 1]) + if hist[|hist| - 1].Gone? then 1 else 0
  }

  predicate NoSuccess(hist: seq<Event>) {
    forall i :: 0 <= i < |hist| ==> !hist[i].Success?
  }

  /** A negative recovery time behaves like none. */
  function Recovery(p: Policy): real {
    if p.recoverySeconds < 0.0 then 0.0 else p.recoverySeconds
  }

  /** Of the first n runs, the failed ones after the last success. */
  function FailedSince(fs: seq<Flight>, n: nat): nat
    requires n <= |fs|
  {
    if n == 0 then 0
    else match fs[n - 1].fate
      case Won => 0
      case Failed => FailedSince(fs, n - 1) + 1
      case _ => FailedSince(fs, n - 1)
  }

  /** Once the threshold is reached, a run starts at this time the gap after every failed one of the first j. */
  predicate Late(fs: seq<Flight>, j: nat, at: real, n: int, gap: real)
    requires j <= |fs|
  {
    FailedSince(fs, j) >= n ==> forall i :: 0 <= i < j && fs[i].fate == Failed ==> at - fs[i].start >= gap
  }

  predicate Ordered(fs: seq<Flight>) {
    forall i, j :: 0 <= i < j < |fs| ==> fs[i].start <= fs[j].start
  }

  predicate Paced(fs: seq<Flight>, n: int, gap: real) {
    Ordered(fs) && forall j :: 0 <= j < |fs| ==> Late(fs, j, fs[j].start, n, gap)
  }

  /** Only the last run can be in the air. */
  predicate Settled(fs: seq<Flight>) {
    forall i :: 0 <= i < |fs| - 1 ==> fs[i].fate != InAir
  }

  /** What a serial history keeps. */
  predicate FlightsTrack(p: Policy, hist: seq<Event>, now: real) {
    var fs := Flights(hist);
    && Settled(fs) && Paced(fs, Threshold(p), Recovery(p))
    && (InFlight(hist) == 1 <==> fs != [] && fs[|fs| - 1].fate == InAir)
    && FailuresSinceSuccess(hist) == FailedSince(fs, |fs|)
    && GoneCount(hist) == CountOf(fs, Lost, 0, |fs|)
    && Dated(fs, LastFailure(hist), now)
  }

  /** No run starts later than now, and no failed one later than the last failure. */
  predicate Dated(fs: seq<Flight>, last: Option<real>, now: real) {
    && (forall i :: 0 <= i < |fs| ==> fs[i].start <= now)
    && (forall i :: 0 <= i < |fs| && fs[i].fate == Failed ==> last.Some? && fs[i].start <= last.value <= now)
  }

  lemma DatedAdmit(was: seq<Flight>, last: Option<real>, t: real, now: real)
    requires Dated(was, last, t) && t <= now && Settled(was) && (was == [] || was[|was| - 1].fate != InAir)
    ensures Dated(was + [Flight(t, InAir)], last, now) && Settled(was + [Flight(t, InAir)])
  {
  }

  lemma DatedLanding(was: seq<Flight>, last: Option<real>, fate: Fate, at: real, now: real)
    requires Dated(was, last, at) && at <= now && Settled(was)
    requires was != [] && was[|was| - 1].fate == InAir && fate != InAir
    ensures Dated(SetLast(was, fate), if fate == Failed then Some(at) else last, now) && Settled(SetLast(was, fate))
  {
  }

  lemma {:induction false} CountBefore(fs: seq<Flight>, gs: seq<Flight>, fate: Fate, lo: nat, hi: nat)
    requires lo <= hi <= |fs| && hi <= |gs| && forall i :: lo <= i < hi ==> fs[i] == gs[i]
    ensures CountOf(fs, fate, lo, hi) == CountOf(gs, fate, lo, hi)
  {
    if lo < hi {
      CountBefore(fs, gs, fate, lo, hi - 1);
    }
  }

  lemma {:induction false} SinceBefore(fs: seq<Flight>, gs: seq<Flight>, n: nat)
    requires n <= |fs| && n <= |gs| && forall i :: 0 <= i < n ==> fs[i] == gs[i]
    ensures FailedSince(fs, n) == FailedSince(gs, n)
  {
    if n > 0 {
      SinceBefore(fs, gs, n - 1);
    }
  }

  lemma StillLate(fs: seq<Flight>, was: seq<Flight>, j: nat, at: real, n: int, gap: real)
    requires j <= |fs| && j <= |was| && forall k :: 0 <= k < j ==> fs[k] == was[k]
    requires Late(was, j, at, n, gap)
    ensures Late(fs, j, at, n, gap)
  {
    SinceBefore(fs, was, j);
  }

  lemma PacedAdmit(was: seq<Flight>, t: real, n: int, gap: real)
    requires Paced(was, n, gap) && Late(was, |was|, t, n, gap) && forall i :: 0 <= i < |was| ==> was[i].start <= t
    ensures Paced(was + [Flight(t, InAir)], n, gap)
  {
    var fs := was + [Flight(t, InAir)];
    forall j | 0 <= j < |fs| ensures Late(fs, j, fs[j].start, n, gap) {
      StillLate(fs, was, j, fs[j].start, n, gap);
    }
  }

  lemma PacedLanding(was: seq<Flight>, fate: Fate, n: int, gap: real)
    requires Paced(was, n, gap) && was != [] && was[|was| - 1].fate == InAir
    ensures Paced(SetLast(was, fate), n, gap)
  {
    var fs := SetLast(was, fate);
    forall j | 0 <= j < |fs| ensures Late(fs, j, fs[j].start, n, gap) {
      StillLate(fs, was, j, fs[j].start, n, gap);
    }
  }

  lemma CountAdmit(was: seq<Flight>, t: real)
    ensures var fs := was + [Flight(t, InAir)];
      CountOf(fs, Lost, 0, |fs|) == CountOf(was, Lost, 0, |was|) && FailedSince(fs, |fs|) == FailedSince(was, |was|)
  {
    var fs := was + [Flight(t, InAir)];
    CountBefore(fs, was, Lost, 0, |was|);
    SinceBefore(fs, was, |was|);
  }

  lemma CountLanding(was: seq<Flight>, landed: Fate)
    requires was != [] && was[|was| - 1].fate == InAir
    ensures var fs := SetLast(was, landed);
      CountOf(fs, Lost, 0, |fs|) == CountOf(was, Lost, 0, |was|) + if landed == Lost then 1 else 0
    ensures FailedSince(SetLast(was, landed), |was|) == match landed
      case Won => 0
      case Failed => FailedSince(was, |was|) + 1
      case _ => FailedSince(was, |was|)
  {
    var fs := SetLast(was, landed);
    CountBefore(fs, was, Lost, 0, |was| - 1);
    SinceBefore(fs, was, |was| - 1);
  }

  /** Past the threshold, a run is admitted only after the recovery time. */
  lemma AdmittedLate(p: Policy, init: seq<Event>, t: real)
    requires FlightsTrack(p, init, t) && !Rejects(p, init, t)
    ensures var was := Flights(init);
      Late(was, |was|, t, Threshold(p), Recovery(p))
  {
  }

  lemma TrackAdmit(p: Policy, init: seq<Event>, hist: seq<Event>, t: real, now: real)
    requires hist != [] && hist[..|hist| - 1] == init && hist[|hist| - 1] == Admit(t)
    requires FlightsTrack(p, init, t) && !Rejects(p, init, t) && InFlight(init) == 0 && t <= now
    ensures FlightsTrack(p, hist, now)
  {
    var was := Flights(init);
    CountAdmit(was, t);
    AdmittedLate(p, init, t);
    PacedAdmit(was, t, Threshold(p), Recovery(p));
    DatedAdmit(was, LastFailure(init), t, now);
  }

  function LandingOf(e: Event): Fate {
    match e
    case Success => Won
    case Failure(_) => Failed
    case _ => Lost
  }

  /** The run in the air comes down. */
  lemma TrackLanding(p: Policy, init: seq<Event>, hist: seq<Event>, at: real, now: real)
    requires hist != [] && hist[..|hist| - 1] == init && at <= now
    requires hist[|hist| - 1] == Failure(at) || hist[|hist| - 1] == Gone || hist[|hist| - 1] == Success
    requires FlightsTrack(p, init, at) && InFlight(init) == 1
    ensures FlightsTrack(p, hist, now)
  {
    var was, fate := Flights(init), LandingOf(hist[|hist| - 1]);
    CountLanding(was, fate);
    PacedLanding(was, fate, Threshold(p), Recovery(p));
    DatedLanding(was, LastFailure(init), fate, at, now);
    assert Flights(hist) == SetLast(was, fate);
  }

  lemma TrackRefuse(p: Policy, init: seq<Event>, hist: seq<Event>, t: real, now: real)
    requires hist != [] && hist[..|hist| - 1] == init && hist[|hist| - 1] == Refuse(t) && t <= now
    requires FlightsTrack(p, init, t)
    ensures FlightsTrack(p, hist, now)
  {
    assert Flights(hist) == Flights(init);
  }

  lemma {:induction false} SerialFlightsTrack(p: Policy, hist: seq<Event>, now: real)
    requires Legal(p, hist) && Serial(hist) && Clocked(hist, now)
    ensures FlightsTrack(p, hist, now)
    decreases |hist|
  {
    if hist != [] {
      var n := |hist| - 1;
      var init := hist[..n];
      match hist[n]
      case Admit(t) =>
        SerialFlightsTrack(p, init, t);
        BreakerFollowsRule(p, init, t);
        TrackAdmit(p, init, hist, t, now);
      case Refuse(t) =>
        SerialFlightsTrack(p, init, t);
        TrackRefuse(p, init, hist, t, now);
      case Failure(t) =>
        SerialFlightsTrack(p, init, t);
        TrackLanding(p, init, hist, t, now);
      case _ =>
        SerialFlightsTrack(p, init, now);
        TrackLanding(p, init, hist, now, now);
    }
  }

  // ---- How often a failing source is probed ----

  /** No run of the window but the last has succeeded. */
  predicate NoneWon(fs: seq<Flight>, lo: nat, hi: nat) {
    forall i :: lo <= i < hi && i < |fs| ==> fs[i].fate != Won
  }

  /** The last failed run of a window that holds one. */
  lemma {:induction false} LastFailedIn(fs: seq<Flight>, lo: nat, hi: nat) returns (k: nat)
    requires Settled(fs) && lo <= hi < |fs| && NoneWon(fs, lo, hi) && CountOf(fs, Lost, lo, hi) < hi - lo
    ensures lo <= k < hi && fs[k].fate == Failed
    ensures CountOf(fs, Lost, lo, hi) == CountOf(fs, Lost, lo, k + 1) + (hi - k - 1)
  {
    k := hi - 1;
    if fs[hi - 1].fate == Lost {
      k := LastFailedIn(fs, lo, hi - 1);
    }
  }

  lemma {:induction false} ReportedAreFailed(fs: seq<Flight>, lo: nat, hi: nat)
    requires Settled(fs) && lo <= hi < |fs| && NoneWon(fs, lo, hi)
    ensures hi - lo - CountOf(fs, Lost, lo, hi) <= FailedSince(fs, hi)
  {
    if lo < hi {
      ReportedAreFailed(fs, lo, hi - 1);
    }
  }

  /** The runs of a window that reported, or are still to report, beyond an allowance. */
  function Excess(fs: seq<Flight>, lo: nat, hi: nat, allowance: int): int
    requires lo <= hi < |fs|
  {
    hi - lo + 1 - CountOf(fs, Lost, lo, hi + 1) - allowance
  }

  /** k times the gap, and nothing for a negative k. */
  function Worth(k: int, gap: real): real {
    (Max(k, 0) as real) * gap
  }

  lemma OneTimeMore(x: real, y: real, gap: real)
    requires y == x + 1.0
    ensures y * gap == x * gap + gap
  {
  }

  lemma NoLess(x: real, y: real, gap: real)
    requires 0.0 <= x <= y && gap >= 0.0
    ensures 0.0 <= x * gap <= y * gap
  {
  }

  lemma OneMoreWorth(k: int, gap: real)
    ensures Worth(k, gap) == if k <= 0 then 0.0 else Worth(k - 1, gap) + gap
  {
    if k > 0 {
      var x, y := (k - 1) as real, k as real;
      OneTimeMore(x, y, gap);
    }
  }

  lemma WorthGrows(a: int, b: int, gap: real)
    requires a <= b && gap >= 0.0
    ensures 0.0 <= Worth(a, gap) <= Worth(b, gap)
  {
    NoLess(Max(a, 0) as real, Max(b, 0) as real, gap);
  }

  lemma GapAfterFailed(fs: seq<Flight>, n: int, gap: real, k: nat, hi: nat)
    requires Paced(fs, n, gap) && k < hi < |fs| && fs[k].fate == Failed && FailedSince(fs, hi) >= n
    ensures fs[hi].start - fs[k].start >= gap
  {
    assert Late(fs, hi, fs[hi].start, n, gap);
  }

  /** Some run of the window stands one excess lower and a gap earlier than its last. */
  ghost predicate HasEarlier(fs: seq<Flight>, n: int, gap: real, lo: nat, hi: nat)
    requires lo <= hi < |fs|
  {
    exists k: nat :: lo <= k < hi && Excess(fs, lo, hi, n) == Excess(fs, lo, k, n) + 1
                     && fs[hi].start - fs[k].start >= gap
  }

  /** That is so for every window with an excess that ends in a run with an outcome, or in the air. */
  ghost predicate Spaced(fs: seq<Flight>, n: int, gap: real) {
    forall lo, hi :: 0 <= lo <= hi < |fs| && NoneWon(fs, lo, hi) && Excess(fs, lo, hi, n) > 0 && fs[hi].fate != Lost ==>
      HasEarlier(fs, n, gap, lo, hi)
  }

  /** It is the last failed run of the window. */
  lemma PacedIsSpaced(fs: seq<Flight>, n: int, gap: real)
    requires n >= 1 && Settled(fs) && Paced(fs, n, gap)
    ensures Spaced(fs, n, gap)
  {
    forall lo, hi | 0 <= lo <= hi < |fs| && NoneWon(fs, lo, hi) && Excess(fs, lo, hi, n) > 0 && fs[hi].fate != Lost
      ensures HasEarlier(fs, n, gap, lo, hi)
    {
      ReportedAreFailed(fs, lo, hi);
      var k := LastFailedIn(fs, lo, hi);
      GapAfterFailed(fs, n, gap, k, hi);
      assert Excess(fs, lo, hi, n) == Excess(fs, lo, k, n) + 1;
    }
  }

  lemma {:induction false} WindowOfFlights(fs: seq<Flight>, n: int, gap: real, lo: nat, hi: nat)
    requires n >= 1 && Ordered(fs) && Spaced(fs, n, gap) && lo <= hi < |fs| && NoneWon(fs, lo, hi)
    ensures Worth(Excess(fs, lo, hi, n), gap) <= fs[hi].start - fs[lo].start
    decreases hi
  {
    OneMoreWorth(Excess(fs, lo, hi, n), gap);
    if Excess(fs, lo, hi, n) <= 0 {
      assert lo < hi ==> fs[lo].start <= fs[hi].start;
    } else if fs[hi].fate == Lost {
      WindowOfFlights(fs, n, gap, lo, hi - 1);
      assert fs[hi - 1].start <= fs[hi].start;
    } else {
      assert HasEarlier(fs, n, gap, lo, hi);
      var k: nat :| lo <= k < hi && Excess(fs, lo, hi, n) == Excess(fs, lo, k, n) + 1
                    && fs[hi].start - fs[k].start >= gap;
      WindowOfFlights(fs, n, gap, lo, k);
    }
  }

  /**
   * The bound for a source whose runs are serial: within any window without a success, the admissions,
   * the one in flight included, exceed the threshold and the runs that were lost without an outcome
   * by at most the window length divided by the recovery time.
   */
  lemma ProbeBound(p: Policy, hist: seq<Event>, now: real, lo: nat, hi: nat)
    requires Legal(p, hist) && Serial(hist) && Clocked(hist, now)
    requires lo <= hi < |Flights(hist)| && NoneWon(Flights(hist), lo, hi)
    ensures Worth(Excess(Flights(hist), lo, hi, Threshold(p)), Recovery(p))
      <= Flights(hist)[hi].start - Flights(hist)[lo].start
  {
    SerialFlightsTrack(p, hist, now);
    PacedIsSpaced(Flights(hist), Threshold(p), Recovery(p));
    WindowOfFlights(Flights(hist), Threshold(p), Recovery(p), lo, hi);
  }

  /** In every window without a success all admissions, lost ones too, beyond a fixed allowance are paid for. */
  predicate Bounded(p: Policy, hist: seq<Event>, allowance: int) {
    forall lo, hi :: 0 <= lo <= hi < |Flights(hist)| && NoneWon(Flights(hist), lo, hi) ==>
      Worth(hi - lo + 1 - allowance, Recovery(p)) <= Flights(hist)[hi].start - Flights(hist)[lo].start
  }

  /** A serial history in which at most `lost` runs ended without an outcome. */
  ghost predicate LosesAtMost(p: Policy, hist: seq<Event>, lost: nat) {
    Legal(p, hist) && Serial(hist) && GoneCount(hist) <= lost && exists now :: Clocked(hist, now)
  }

  lemma {:induction false} CountPart(fs: seq<Flight>, fate: Fate, lo: nat, hi: nat, n: nat)
    requires lo <= hi <= n <= |fs|
    ensures CountOf(fs, fate, lo, hi) <= CountOf(fs, fate, 0, n)
    decreases n
  {
    if hi < n {
      CountPart(fs, fate, lo, hi, n - 1);
    } else if lo < hi {
      CountPart(fs, fate, lo, hi - 1, n - 1);
    }
  }

  lemma AllowanceSuffices(p: Policy, hist: seq<Event>, lost: nat, allowance: int)
    requires LosesAtMost(p, hist, lost) && allowance >= Threshold(p) + lost
    ensures Bounded(p, hist, allowance)
  {
    var now :| Clocked(hist, now);
    SerialFlightsTrack(p, hist, now);
    var fs := Flights(hist);
    PacedIsSpaced(fs, Threshold(p), Recovery(p));
    forall lo, hi | 0 <= lo <= hi < |fs| && NoneWon(fs, lo, hi)
      ensures Worth(hi - lo + 1 - allowance, Recovery(p)) <= fs[hi].start - fs[lo].start
    {
      WindowOfFlights(fs, Threshold(p), Recovery(p), lo, hi);
      CountPart(fs, Lost, lo, hi + 1, |fs|);
      WorthGrows(hi - lo + 1 - allowance, Excess(fs, lo, hi, Threshold(p)), Recovery(p));
    }
  }

  // ---- Runs at one instant ----

  /** n runs admitted at this time that end without an outcome. */
  function LostRuns(hist: seq<Event>, at: real, n: nat): seq<Event> {
    if n == 0 then hist else LostRuns(hist, at, n - 1) + [Admit(at), Gone]
  }

  /** n runs admitted and failed at time zero. */
  function FailedRuns(hist: seq<Event>, n: nat): seq<Event> {
    if n == 0 then hist else FailedRuns(hist, n - 1) + [Admit(0.0), Failure(0.0)]
  }

  lemma TwoMore(hist: seq<Event>, a: Event, b: Event)
    ensures (hist + [a, b])[..|hist| + 1] == hist + [a] && (hist + [a])[..|hist|] == hist
    ensures (hist + [a, b])[|hist| + 1] == b && (hist + [a])[|hist|] == a
  {
  }

  /** What a run that is admitted and lost does to a history: nothing but one more admission. */
  lemma OneLost(p: Policy, hist: seq<Event>, at: real)
    requires Legal(p, hist) && Clocked(hist, at) && Admits(p, After(p, hist), at)
    ensures var next := hist + [Admit(at), Gone];
      && Legal(p, next) && Clocked(next, at) && InFlight(next) == InFlight(hist)
      && (Serial(hist) && InFlight(hist) == 0 ==> Serial(next))
      && (NoSuccess(hist) ==> NoSuccess(next)) && GoneCount(next) == GoneCount(hist) + 1
      && FailuresSinceSuccess(next) == FailuresSinceSuccess(hist) && LastFailure(next) == LastFailure(hist)
      && Flights(next) == Flights(hist) + [Flight(at, Lost)]
      && After(p, next) == AfterBefore(p, After(p, hist), at) && Admits(p, After(p, next), at)
  {
    TwoMore(hist, Admit(at), Gone);
    var one, next := hist + [Admit(at)], hist + [Admit(at), Gone];
    assert next[..|next| - 1] == one && one[..|one| - 1] == hist;
    assert Flights(one) == Flights(hist) + [Flight(at, InAir)];
    assert Legal(p, one) && Clocked(one, at) && InFlight(one) == InFlight(hist) + 1;
  }

  lemma OneFailed(p: Policy, hist: seq<Event>)
    requires Legal(p, hist) && Clocked(hist, 0.0) && FailuresSinceSuccess(hist) < Threshold(p)
    ensures var next := hist + [Admit(0.0), Failure(0.0)];
      && Legal(p, next) && Clocked(next, 0.0) && InFlight(next) == InFlight(hist)
      && (Serial(hist) && InFlight(hist) == 0 ==> Serial(next))
      && (NoSuccess(hist) ==> NoSuccess(next)) && GoneCount(next) == GoneCount(hist)
      && FailuresSinceSuccess(next) == FailuresSinceSuccess(hist) + 1 && LastFailure(next) == Some(0.0)
      && Flights(next) == Flights(hist) + [Flight(0.0, Failed)]
      && (FailuresSinceSuccess(next) == Threshold(p) ==> After(p, next) == Breaker(Open, Threshold(p), 0.0))
  {
    TwoMore(hist, Admit(0.0), Failure(0.0));
    var one, next := hist + [Admit(0.0)], hist + [Admit(0.0), Failure(0.0)];
    assert next[..|next| - 1] == one && one[..|one| - 1] == hist;
    StateMeaning(p, hist, 0.0);
    assert Flights(one) == Flights(hist) + [Flight(0.0, InAir)];
    assert Legal(p, one) && Clocked(one, 0.0) && InFlight(one) == InFlight(hist) + 1;
    assert After(p, one) == After(p, hist);
  }

  predicate StartAt(fs: seq<Flight>, from: nat, at: real) {
    from <= |fs| && forall i :: from <= i < |fs| ==> fs[i].start == at
  }

  lemma {:induction false} LostRunsFacts(p: Policy, hist: seq<Event>, at: real, n: nat)
    requires Legal(p, hist) && Clocked(hist, at) && Serial(hist) && InFlight(hist) == 0 && NoSuccess(hist)
    requires Admits(p, After(p, hist), at)
    ensures var next := LostRuns(hist, at, n);
      && Legal(p, next) && Clocked(next, at) && Serial(next) && InFlight(next) == 0 && NoSuccess(next)
      && GoneCount(next) == GoneCount(hist) + n && FailuresSinceSuccess(next) == FailuresSinceSuccess(hist)
      && LastFailure(next) == LastFailure(hist) && Admits(p, After(p, next), at)
      && |Flights(next)| == |Flights(hist)| + n && Flights(hist) <= Flights(next)
      && StartAt(Flights(next), |Flights(hist)|, at)
      && (n > 0 ==> After(p, next) == AfterBefore(p, After(p, hist), at))
  {
    if n > 0 {
      LostRunsFacts(p, hist, at, n - 1);
      OneLost(p, LostRuns(hist, at, n - 1), at);
    }
  }

  lemma {:induction false} FailedRunsFacts(p: Policy, hist: seq<Event>, n: nat)
    requires Legal(p, hist) && Clocked(hist, 0.0) && NoSuccess(hist)
    requires FailuresSinceSuccess(hist) == 0 && n <= Threshold(p)
    ensures var next := FailedRuns(hist, n);
      && Legal(p, next) && Clocked(next, 0.0) && InFlight(next) == InFlight(hist) && NoSuccess(next)
      && (Serial(hist) && InFlight(hist) == 0 ==> Serial(next))
      && GoneCount(next) == GoneCount(hist) && FailuresSinceSuccess(next) == n
      && |Flights(next)| == |Flights(hist)| + n && Flights(hist) <= Flights(next)
      && StartAt(Flights(next), |Flights(hist)|, 0.0)
      && (n == Threshold(p) ==> After(p, next) == Breaker(Open, n, 0.0) && LastFailure(next) == Some(0.0))
  {
    if n > 0 {
      FailedRunsFacts(p, hist, n - 1);
      OneFailed(p, FailedRuns(hist, n - 1));
    }
  }

  lemma EmptyHistory(p: Policy, now: real)
    ensures Legal(p, []) && Clocked([], now) && Serial([]) && InFlight([]) == 0 && NoSuccess([])
    ensures GoneCount([]) == 0 && FailuresSinceSuccess([]) == 0 && Flights([]) == [] && Admits(p, After(p, []), now)
  {
  }

  // ---- The bound needs outcomes ----

  /** Runs that report no outcome are admitted without limit at one instant, while the breaker is closed. */
  lemma LostRunsAreUnlimited(p: Policy, n: nat)
    ensures var hist := LostRuns([], 0.0, n);
      && Legal(p, hist) && Serial(hist) && Clocked(hist, 0.0) && NoSuccess(hist)
      && After(p, hist) == FRESH && |Flights(hist)| == n && StartAt(Flights(hist), 0, 0.0)
  {
    EmptyHistory(p, 0.0);
    LostRunsFacts(p, [], 0.0, n);
  }

  /** And just so once the threshold is reached and the recovery time is over: HALF_OPEN lets them all through. */
  lemma LostProbesAreUnlimited(p: Policy, n: nat)
    requires n > 0
    ensures var hist := LostRuns(FailedRuns([], Threshold(p)), Recovery(p), n);
      && Legal(p, hist) && Serial(hist) && Clocked(hist, Recovery(p)) && NoSuccess(hist)
      && FailuresSinceSuccess(hist) == Threshold(p) && After(p, hist).state == HalfOpen
      && |Flights(hist)| == Threshold(p) + n && StartAt(Flights(hist), Threshold(p), Recovery(p))
  {
    EmptyHistory(p, 0.0);
    FailedRunsFacts(p, [], Threshold(p));
    ClockedLater(FailedRuns([], Threshold(p)), 0.0, Recovery(p));
    LostRunsFacts(p, FailedRuns([], Threshold(p)), Recovery(p), n);
  }

  lemma {:induction false} NoSuccessNoneWon(hist: seq<Event>)
    requires NoSuccess(hist)
    ensures NoneWon(Flights(hist), 0, |Flights(hist)|)
  {
    if hist != [] {
      NoSuccessNoneWon(hist[..|hist| - 1]);
    }
  }

  /** Threshold failures and `lost` runs without an outcome, all at time zero. */
  lemma WorstCase(p: Policy, lost: nat) returns (hist: seq<Event>)
    ensures LosesAtMost(p, hist, lost) && |Flights(hist)| == Threshold(p) + lost && StartAt(Flights(hist), 0, 0.0)
    ensures NoneWon(Flights(hist), 0, |Flights(hist)|)
  {
    EmptyHistory(p, 0.0);
    LostRunsFacts(p, [], 0.0, lost);
    var idle := LostRuns([], 0.0, lost);
    FailedRunsFacts(p, idle, Threshold(p));
    hist := FailedRuns(idle, Threshold(p));
    assert Clocked(hist, 0.0);
    NoSuccessNoneWon(hist);
    forall i | 0 <= i < |Flights(hist)| ensures Flights(hist)[i].start == 0.0 {
      if i < |Flights(idle)| { assert Flights(hist)[i] == Flights(idle)[i]; }
    }
  }

  /**
   * The exact allowance: with at most `lost` runs that report nothing, admissions in a window exceed
   * `allowance` by no more than the window pays for, in every history, if and only if the allowance is
   * at least the threshold plus `lost`. In particular no allowance does when losses are unlimited.
   */
  lemma AllowanceIsExact(p: Policy, lost: nat, allowance: int)
    requires p.recoverySeconds > 0.0
    ensures allowance >= Threshold(p) + lost <==>
      forall hist :: LosesAtMost(p, hist, lost) ==> Bounded(p, hist, allowance)
  {
    if allowance >= Threshold(p) + lost {
      forall hist | LosesAtMost(p, hist, lost) ensures Bounded(p, hist, allowance) {
        AllowanceSuffices(p, hist, lost, allowance);
      }
    } else {
      var hist := WorstCase(p, lost);
      var n := |Flights(hist)|;
      WorthGrows(1, n - allowance, p.recoverySeconds);
      OneMoreWorth(1, p.recoverySeconds);
      assert Flights(hist)[n - 1].start - Flights(hist)[0].start == 0.0;
      assert !Bounded(p, hist, allowance);
    }
  }

  /** The threshold alone bounds all admissions if and only if every admitted run reports. */
  lemma BoundIffReported(p: Policy, lost: nat)
    requires p.recoverySeconds > 0.0
    ensures (forall hist :: LosesAtMost(p, hist, lost) ==> Bounded(p, hist, Threshold(p))) <==> lost == 0
  {
    AllowanceIsExact(p, lost, Threshold(p));
  }

  // ---- Two runs at a time ----

  /** With two in flight it can be open: the runs of one slot fail and open it, the other then succeeds. */
  lemma SuccessWhileOpen(p: Policy) returns (hist: seq<Event>)
    ensures Legal(p, hist) && Clocked(hist, 0.0) && InFlight(hist) == 1 && After(p, hist).state == Open
  {
    var one := [Admit(0.0)];
    EmptyHistory(p, 0.0);
    assert one[..0] == [] && Legal(p, one) && Clocked(one, 0.0) && InFlight(one) == 1;
    FailedRunsFacts(p, one, Threshold(p));
    hist := FailedRuns(one, Threshold(p));
  }
}
