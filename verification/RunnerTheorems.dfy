/** What concurrent executions guarantee, in every reachable state. */
module RunnerTheorems {
  import opened Sequences
  import opened FeedRunner
  import CB = CircuitBreakers
  import O = Outcome

  // ---- Concurrency limits ----

  /** No limit is ever exceeded, and when nobody is inside every permit is back. */
  lemma LimitsHold(w: World, s: string)
    requires Reachable(w) && s in w.sems
    ensures |Selected(w.execs, Global())| <= w.maxConcurrent
    ensures s in w.asked && |Selected(w.execs, Local(s))| <= Max(1, w.asked[s])
    ensures (forall e :: e in w.execs ==> w.execs[e].pc.Done?) ==>
      w.globalFree == w.maxConcurrent && w.sems[s].free == w.sems[s].cap
  {
    ReachableInv(w);
    assert LocalBalance(w, s);
    if forall e :: e in w.execs ==> w.execs[e].pc.Done? {
      SelectedNone(w.execs, Global());
      SelectedNone(w.execs, Local(s));
    }
  }

  /** The size of a source's semaphore is fixed by the first request for it. */
  lemma FirstRequestDecides(w: World, act: Action, s: string)
    requires Reachable(w) && Next(w, act).Some? && s in w.sems && s in w.asked
    ensures var w' := Next(w, act).value;
      && s in w'.sems && w'.sems[s].cap == w.sems[s].cap == Max(1, w.asked[s])
      && s in w'.asked && w'.asked[s] == w.asked[s]
  {
    SourceBalance(w, s);
    if !act.Tick? && !act.Start? {
      var e, p := PlanOf(w, act);
      PerformKeepsSizes(w, e, p, s);
    }
  }

  lemma PerformKeepsSizes(w: World, e: nat, p: Plan, s: string)
    requires Known(w, e) && s in w.sems
    ensures var w' := Perform(w, e, p); s in w'.sems && w'.sems[s].cap == w.sems[s].cap && w'.asked == w.asked
  {
  }

  lemma SourceBalance(w: World, s: string)
    requires Reachable(w) && s in w.sems
    ensures s in w.asked && LocalBalance(w, s)
  {
    ReachableInv(w);
  }

  lemma PlanOf(w: World, act: Action) returns (e: nat, p: Plan)
    requires Reachable(w) && Next(w, act).Some? && !act.Tick? && !act.Start?
    ensures Known(w, e) && Sound(w, e, p) && Next(w, act) == Some(Perform(w, e, p)) && e == act.e
    ensures OfExec(act) ==> Planned(w, e, act) == Some(p)
    ensures act.Interrupt? ==> Unwinding(w.execs[e].pc) == Some(p)
  {
    ReachableInv(w);
    e, p := NextIsPlan(w, act);
  }

  lemma TablesOf(w: World)
    requires Reachable(w)
    ensures RowsConsistent(w) && w.sources.Keys == w.initial.Keys
  {
    ReachableInv(w);
  }

  // ---- Progress ----

  /** What an execution that is free to run does next. */
  function Willing(e: nat, pc: Pc): Action {
    match pc
    case WaitGlobal => TakeGlobal(e)
    case WaitSource => TakeSource(e)
    case Checking => CheckBreaker(e)
    case Building => Build(e, true)
    case Opening => OpenRun(e, true)
    case Piping => PipelineRaises(e)
    case Closing(_, _) => FeedRunner.FinalizeRun(e, true)
    case Reporting(_) => Report(e)
    case Faulted => Report(e)
    case LeaveSource => ReleaseSource(e)
    case _ => ReleaseGlobal(e)
  }

  ghost predicate Blocked(w: World) {
    && (exists e :: e in w.execs && !w.execs[e].pc.Done?)
    && forall act :: OfExec(act) ==> Next(w, act).None?
  }

  lemma HolderMoves(w: World, e: nat)
    requires Known(w, e) && HoldsGlobal(w.execs[e].pc)
    requires w.execs[e].pc.WaitSource? ==> w.sems[w.execs[e].source].free > 0
    ensures OfExec(Willing(e, w.execs[e].pc)) && Next(w, Willing(e, w.execs[e].pc)).Some?
  {
  }

  lemma NobodyInside(w: World, e: nat)
    requires Inv(w) && e in w.execs && forall f :: f in w.execs ==> !HoldsSource(w.execs[f].pc)
    ensures Known(w, e) && w.sems[w.execs[e].source].free > 0
  {
    assert Known(w, e);
    var s := w.execs[e].source;
    BalanceOf(w, s);
    SelectedNone(w.execs, Local(s));
  }

  /** Whoever holds a source's permit can move; if nobody does, whoever waits for it can. */
  lemma SomeoneMoves(w: World, e: nat) returns (act: Action)
    requires Inv(w) && w.maxConcurrent >= 1 && e in w.execs && !w.execs[e].pc.Done?
    ensures OfExec(act) && Next(w, act).Some?
  {
    assert Known(w, e);
    if f :| f in w.execs && HoldsSource(w.execs[f].pc) {
      assert Known(w, f);
      HolderMoves(w, f);
      act := Willing(f, w.execs[f].pc);
    } else if f :| f in w.execs && HoldsGlobal(w.execs[f].pc) {
      NobodyInside(w, f);
      HolderMoves(w, f);
      act := Willing(f, w.execs[f].pc);
    } else {
      SelectedNone(w.execs, Global());
      act := TakeGlobal(e);
    }
  }

  lemma ReachableStep(w: World, act: Action)
    requires Reachable(w) && Next(w, act).Some?
    ensures Reachable(Next(w, act).value)
  {
    var max: int, initial, acts :| max >= 0 && Run(InitWorld(max, initial), acts) == Some(w);
    assert (acts + [act])[..|acts|] == acts;
    assert Run(InitWorld(max, initial), acts + [act]) == Next(w, act);
  }

  lemma InitReachable(max: int, initial: map<string, Watermark>)
    requires max >= 0
    ensures Reachable(InitWorld(max, initial))
  {
    assert Run(InitWorld(max, initial), []) == Some(InitWorld(max, initial));
  }

  /** Taking the global permit first and the source's second deadlocks only when there is no global permit at all. */
  lemma NoDeadlockIffPermits(max: int)
    requires max >= 0
    ensures (exists w: World :: w.maxConcurrent == max && Reachable(w) && Blocked(w)) <==> max == 0
  {
    if max == 0 {
      InitReachable(0, map[]);
      var act := Start(0, "source", "run", 1, CB.Policy(5, 300.0));
      ReachableStep(InitWorld(0, map[]), act);
      var w := Next(InitWorld(0, map[]), act).value;
      assert w.execs[0].pc == WaitGlobal && w.globalFree == 0;
      forall a | OfExec(a) ensures Next(w, a).None? {}
      assert Blocked(w) && w.maxConcurrent == max;
    }
    forall w: World | w.maxConcurrent == max && Reachable(w) && Blocked(w) ensures max == 0 {
      ReachableInv(w);
      if max >= 1 {
        var e :| e in w.execs && !w.execs[e].pc.Done?;
        var act := SomeoneMoves(w, e);
      }
    }
  }

  // ---- The breaker under the source's semaphore ----

  lemma TrackedGuard(w: World, s: string)
    requires Reachable(w) && s in w.guards
    ensures w.guards[s].breaker == CB.After(w.guards[s].policy, w.guards[s].hist) && CB.Clocked(w.guards[s].hist, w.now)
  {
    ReachableInv(w);
    assert GuardTracks(w, s);
  }

  /** An execution is admitted exactly when the rule on the source's history allows it. */
  lemma AdmissionFollowsRule(w: World, e: nat)
    requires Reachable(w) && Known(w, e) && w.execs[e].pc.Checking?
    ensures Next(w, CheckBreaker(e)).Some?
    ensures var g := w.guards[w.execs[e].source];
      Next(w, CheckBreaker(e)).value.execs[e].pc.Building? <==> !CB.Rejects(g.policy, g.hist, w.now)
  {
    var s := w.execs[e].source;
    TrackedGuard(w, s);
    CB.BreakerFollowsRule(w.guards[s].policy, w.guards[s].hist, w.now);
  }

  lemma SerialFacts(w: World, s: string)
    requires Reachable(w) && s in w.guards && s in w.asked && w.asked[s] <= 1
    ensures var g := w.guards[s];
      && g.breaker == CB.After(g.policy, g.hist) && CB.Legal(g.policy, g.hist)
      && CB.Clocked(g.hist, w.now) && CB.Serial(g.hist)
      && CB.InFlight(g.hist) == |Selected(w.execs, Flight(s))|
  {
    ReachableInv(w);
    assert LocalBalance(w, s) && GuardTracks(w, s);
  }

  /**
   * One run at a time; and in any window without a success only so many admissions, the one in flight
   * included, not counting runs that were lost without an outcome.
   */
  lemma FailingSourceIsProbedRarely(w: World, s: string, lo: nat, hi: nat)
    requires Reachable(w) && s in w.guards && s in w.asked && w.asked[s] <= 1
    requires lo <= hi < |CB.Flights(w.guards[s].hist)| && CB.NoneWon(CB.Flights(w.guards[s].hist), lo, hi)
    ensures |Selected(w.execs, Flight(s))| <= 1
    ensures var fs, p := CB.Flights(w.guards[s].hist), w.guards[s].policy;
      CB.Worth(CB.Excess(fs, lo, hi, CB.Threshold(p)), CB.Recovery(p)) <= fs[hi].start - fs[lo].start
  {
    SerialFacts(w, s);
    CB.ProbeBound(w.guards[s].policy, w.guards[s].hist, w.now, lo, hi);
  }

  /** A success is about to be reported to an open breaker. */
  ghost predicate OpenAtSuccess(w: World, e: nat) {
    Known(w, e) && w.execs[e].pc == Reporting(true) && w.guards[w.execs[e].source].breaker.state == CB.Open
  }

  lemma FlyingIsCounted(w: World, e: nat)
    requires e in w.execs && Flying(w.execs[e].pc)
    ensures |Selected(w.execs, Flight(w.execs[e].source))| >= 1
  {
    assert e in Selected(w.execs, Flight(w.execs[e].source));
  }

  lemma AskedOf(w: World, e: nat)
    requires Reachable(w) && Known(w, e)
    ensures w.execs[e].source in w.asked
  {
    ReachableInv(w);
  }

  lemma SerialNeverOpenAtSuccess(w: World, e: nat)
    requires Reachable(w) && OpenAtSuccess(w, e)
    ensures w.execs[e].source in w.asked && w.asked[w.execs[e].source] >= 2
  {
    var s := w.execs[e].source;
    AskedOf(w, e);
    if w.asked[s] <= 1 {
      SerialFacts(w, s);
      FlyingIsCounted(w, e);
      CB.InFlightMeansNotOpen(w.guards[s].policy, w.guards[s].hist);
    }
  }

  // ---- Steps of one execution ----

  /** What stays the same while one execution of source s goes its way. */
  predicate Around(w: World, w': World, e: nat, s: string) {
    && w'.now == w.now && w'.asked == w.asked && w'.maxConcurrent == w.maxConcurrent
    && w'.sources == w.sources && s in w.sems && s in w'.sems && s in w.guards && s in w'.guards
    && e in w.execs && e in w'.execs
    && w'.execs == w.execs[e := w'.execs[e]] && w'.execs[e].source == w.execs[e].source == s
    && w'.execs[e].runId == w.execs[e].runId
  }

  lemma Enters(w: World, e: nat) returns (w': World)
    requires Reachable(w) && Known(w, e) && w.execs[e].pc.WaitGlobal?
    requires w.globalFree > 0 && w.sems[w.execs[e].source].free > 0
    ensures var s := w.execs[e].source;
      && Reachable(w') && Around(w, w', e, s) && w'.execs[e].pc.Checking? && w'.rows == w.rows
      && w'.globalFree == w.globalFree - 1 && w'.sems[s].free == w.sems[s].free - 1 && w'.guards[s] == w.guards[s]
  {
    ReachableStep(w, TakeGlobal(e));
    w' := Next(w, TakeGlobal(e)).value;
    ReachableStep(w', TakeSource(e));
    w' := Next(w', TakeSource(e)).value;
  }

  lemma TakesOff(w: World, e: nat) returns (w': World)
    requires Reachable(w) && Known(w, e) && w.execs[e].pc.Checking?
    requires w.guards[w.execs[e].source].breaker.state == CB.Closed
    ensures var s := w.execs[e].source;
      && Reachable(w') && Around(w, w', e, s) && w'.execs[e].pc.Opening? && w'.rows == w.rows
      && w'.globalFree == w.globalFree && w'.sems[s] == w.sems[s]
      && w'.guards[s].breaker == w.guards[s].breaker && w'.guards[s].policy == w.guards[s].policy
  {
    ReachableStep(w, CheckBreaker(e));
    w' := Next(w, CheckBreaker(e)).value;
    ReachableStep(w', Build(e, true));
    w' := Next(w', Build(e, true)).value;
  }

  lemma OpensRun(w: World, e: nat) returns (w': World)
    requires Reachable(w) && Known(w, e) && w.execs[e].pc.Opening?
    requires w.execs[e].source in w.sources && w.execs[e].runId !in w.rows
    ensures var s := w.execs[e].source;
      && Reachable(w') && Around(w, w', e, s) && w'.execs[e].pc.Piping?
      && w'.rows.Keys == w.rows.Keys + {w.execs[e].runId}
      && w'.globalFree == w.globalFree && w'.sems[s] == w.sems[s] && w'.guards[s] == w.guards[s]
  {
    ReachableStep(w, OpenRun(e, true));
    w' := Next(w, OpenRun(e, true)).value;
  }

  lemma EndsPipeline(w: World, e: nat, result: RunState, watermark: Watermark) returns (w': World)
    requires Reachable(w) && Known(w, e) && w.execs[e].pc.Piping? && Terminal(result)
    ensures var s := w.execs[e].source;
      && Reachable(w') && Around(w, w', e, s) && w'.execs[e].pc == Closing(result, watermark) && w'.rows == w.rows
      && w'.globalFree == w.globalFree && w'.sems[s] == w.sems[s] && w'.guards[s] == w.guards[s]
  {
    ReachableStep(w, PipelineEnds(e, result, watermark));
    w' := Next(w, PipelineEnds(e, result, watermark)).value;
  }

  lemma FinalizesRun(w: World, e: nat) returns (w': World)
    requires Reachable(w) && Known(w, e) && w.execs[e].pc.Closing? && w.execs[e].runId in w.rows
    requires w.execs[e].source in w.sources && w.execs[e].pc.watermark == w.sources[w.execs[e].source]
    ensures var s := w.execs[e].source;
      && Reachable(w') && Around(w, w', e, s) && w'.execs[e].pc == Reporting(w.execs[e].pc.result == Success)
      && w'.rows.Keys == w.rows.Keys
      && w'.globalFree == w.globalFree && w'.sems[s] == w.sems[s] && w'.guards[s] == w.guards[s]
  {
    ReachableStep(w, FeedRunner.FinalizeRun(e, true));
    w' := Next(w, FeedRunner.FinalizeRun(e, true)).value;
    assert w'.sources == w.sources;
    assert w'.rows.Keys == w.rows.Keys;
  }

  lemma Completes(w: World, e: nat, result: RunState) returns (w': World)
    requires Reachable(w) && Known(w, e) && w.execs[e].pc.Opening? && Terminal(result)
    requires w.execs[e].source in w.sources && w.execs[e].runId !in w.rows
    ensures var s := w.execs[e].source;
      && Reachable(w') && Around(w, w', e, s) && w'.execs[e].pc == Reporting(result == Success)
      && w'.rows.Keys == w.rows.Keys + {w.execs[e].runId}
      && w'.globalFree == w.globalFree && w'.sems[s] == w.sems[s] && w'.guards[s] == w.guards[s]
  {
    w' := OpensRun(w, e);
    w' := EndsPipeline(w', e, result, w.sources[w.execs[e].source]);
    w' := FinalizesRun(w', e);
  }

  lemma FliesToReport(w: World, e: nat, result: RunState) returns (w': World)
    requires Reachable(w) && Known(w, e) && w.execs[e].pc.WaitGlobal? && Terminal(result)
    requires w.globalFree > 0 && w.sems[w.execs[e].source].free > 0
    requires w.guards[w.execs[e].source].breaker.state == CB.Closed
    requires w.execs[e].source in w.sources && w.execs[e].runId !in w.rows
    ensures var s := w.execs[e].source;
      && Reachable(w') && Around(w, w', e, s) && w'.execs[e].pc == Reporting(result == Success)
      && w'.rows.Keys == w.rows.Keys + {w.execs[e].runId}
      && w'.globalFree == w.globalFree - 1 && w'.sems[s].free == w.sems[s].free - 1
      && w'.guards[s].breaker == w.guards[s].breaker && w'.guards[s].policy == w.guards[s].policy
  {
    w' := Enters(w, e);
    w' := TakesOff(w', e);
    w' := Completes(w', e, result);
  }

  // ---- Executions one after the other ----

  /** The n-th run of a source, in a fresh worker with two global permits. */
  function RunName(n: nat): string { seq(n, i => 'x') }

  lemma RunNamesDiffer(m: nat, n: nat)
    requires m != n
    ensures RunName(m) != RunName(n)
  {
    assert |RunName(m)| == m && |RunName(n)| == n;
  }

  /** Executions 0, ..., `next` - 1 of source "s" have been started, and later run names are unused. */
  ghost predicate Ready(w: World, next: nat, parallel: int, policy: CB.Policy) {
    && Reachable(w) && w.now == 0.0 && "s" in w.sources
    && (forall e: nat :: e in w.execs <==> e < next)
    && (forall r :: r in w.rows ==> exists n: nat :: n < next && r == RunName(n))
    && (next == 0 ==> w.sems == map[] && w.guards == map[] && w.asked == map[])
    && (next > 0 ==>
          && "s" in w.asked && w.asked["s"] == parallel && "s" in w.sems && "s" in w.guards
          && w.guards["s"].policy == policy)
  }

  lemma FreshWorld(parallel: int, policy: CB.Policy) returns (w: World)
    ensures Ready(w, 0, parallel, policy) && w.globalFree == 2
  {
    w := InitWorld(2, map["s" := map[]]);
    InitReachable(2, map["s" := map[]]);
  }

  function GuardNow(w: World, policy: CB.Policy): Guard {
    if "s" in w.guards then w.guards["s"] else Guard(policy, CB.FRESH, [])
  }

  function FreeNow(w: World, parallel: int): int {
    if "s" in w.sems then w.sems["s"].free else Max(1, parallel)
  }

  lemma StartsOne(w: World, next: nat, parallel: int, policy: CB.Policy) returns (w': World)
    requires Ready(w, next, parallel, policy)
    ensures Ready(w', next + 1, parallel, policy) && Known(w', next)
    ensures w'.execs == w.execs[next := Exec("s", RunName(next), WaitGlobal)] && RunName(next) !in w'.rows
    ensures w'.globalFree == w.globalFree
    ensures w'.guards["s"] == GuardNow(w, policy) && w'.sems["s"].free == FreeNow(w, parallel)
  {
    ReachableStep(w, Start(next, "s", RunName(next), parallel, policy));
    w' := Next(w, Start(next, "s", RunName(next), parallel, policy)).value;
    if RunName(next) in w.rows {
      var n: nat :| n < next && RunName(next) == RunName(n);
      RunNamesDiffer(next, n);
    }
  }

  /** Steps of one execution keep the others, and the names, as they were. */
  lemma StaysReady(w: World, w': World, e: nat, next: nat, parallel: int, policy: CB.Policy)
    requires Ready(w, next, parallel, policy) && e < next && Around(w, w', e, "s") && Reachable(w')
    requires w'.rows.Keys <= w.rows.Keys + {RunName(e)} && w'.guards["s"].policy == policy
    ensures Ready(w', next, parallel, policy)
  {
  }

  /** An execution leaves both semaphores. */
  lemma Leaves(w: World, e: nat) returns (w': World)
    requires Reachable(w) && Known(w, e) && w.execs[e].pc.LeaveSource?
    ensures var s := w.execs[e].source;
      && Reachable(w') && Around(w, w', e, s) && w'.execs[e].pc.Done? && w'.rows == w.rows
      && w'.globalFree == w.globalFree + 1 && w'.sems[s].free == w.sems[s].free + 1 && w'.guards[s] == w.guards[s]
  {
    ReachableStep(w, ReleaseSource(e));
    w' := Next(w, ReleaseSource(e)).value;
    ReachableStep(w', ReleaseGlobal(e));
    w' := Next(w', ReleaseGlobal(e)).value;
  }

  /** An admitted execution is lost: its specification does not build, or it is cancelled. */
  lemma LosesRun(w: World, e: nat, cancelled: bool) returns (w': World)
    requires Reachable(w) && Known(w, e) && w.execs[e].pc.WaitGlobal?
    requires w.globalFree > 0 && w.sems[w.execs[e].source].free > 0
    requires var g := w.guards[w.execs[e].source]; CB.Admits(g.policy, g.breaker, w.now)
    ensures var s := w.execs[e].source;
      && Reachable(w') && Around(w, w', e, s) && w'.execs[e].pc.Done? && w'.rows == w.rows
      && w'.globalFree == w.globalFree && w'.sems[s].free == w.sems[s].free
      && w'.guards[s].policy == w.guards[s].policy
      && w'.guards[s].hist == w.guards[s].hist + [CB.Admit(w.now), CB.Gone]
      && w'.guards[s].breaker == CB.AfterBefore(w.guards[s].policy, w.guards[s].breaker, w.now)
  {
    var inside := Enters(w, e);
    var gone := AdmittedThenLost(inside, e, cancelled);
    w' := Leaves(gone, e);
    assert w.guards[w.execs[e].source].hist + [CB.Admit(w.now)] + [CB.Gone]
      == w.guards[w.execs[e].source].hist + [CB.Admit(w.now), CB.Gone];
  }

  lemma AdmittedThenLost(w: World, e: nat, cancelled: bool) returns (w': World)
    requires Reachable(w) && Known(w, e) && w.execs[e].pc.Checking?
    requires var g := w.guards[w.execs[e].source]; CB.Admits(g.policy, g.breaker, w.now)
    ensures var s := w.execs[e].source;
      && Reachable(w') && Around(w, w', e, s) && w'.execs[e].pc.LeaveSource? && w'.rows == w.rows
      && w'.globalFree == w.globalFree && w'.sems[s] == w.sems[s]
      && w'.guards[s].policy == w.guards[s].policy
      && w'.guards[s].hist == w.guards[s].hist + [CB.Admit(w.now)] + [CB.Gone]
      && w'.guards[s].breaker == CB.AfterBefore(w.guards[s].policy, w.guards[s].breaker, w.now)
  {
    var let := IsAdmitted(w, e);
    w' := IsLost(let, e, cancelled);
  }

  lemma IsAdmitted(w: World, e: nat) returns (w': World)
    requires Reachable(w) && Known(w, e) && w.execs[e].pc.Checking?
    requires var g := w.guards[w.execs[e].source]; CB.Admits(g.policy, g.breaker, w.now)
    ensures var s := w.execs[e].source;
      && Reachable(w') && Around(w, w', e, s) && w'.execs[e].pc.Building? && w'.rows == w.rows
      && w'.globalFree == w.globalFree && w'.sems[s] == w.sems[s]
      && w'.guards[s] == Guard(w.guards[s].policy,
           CB.AfterBefore(w.guards[s].policy, w.guards[s].breaker, w.now), w.guards[s].hist + [CB.Admit(w.now)])
  {
    ReachableStep(w, CheckBreaker(e));
    w' := Next(w, CheckBreaker(e)).value;
  }

  lemma IsLost(w: World, e: nat, cancelled: bool) returns (w': World)
    requires Reachable(w) && Known(w, e) && w.execs[e].pc.Building?
    ensures var s := w.execs[e].source;
      && Reachable(w') && Around(w, w', e, s) && w'.execs[e].pc.LeaveSource? && w'.rows == w.rows
      && w'.globalFree == w.globalFree && w'.sems[s] == w.sems[s]
      && w'.guards[s] == w.guards[s].(hist := w.guards[s].hist + [CB.Gone])
  {
    var act := if cancelled then Interrupt(e) else Build(e, false);
    ReachableStep(w, act);
    w' := Next(w, act).value;
  }

  /** Executions can be lost one after the other without end, at one instant and with parallelism one. */
  lemma {:induction false} LostRunsReachable(policy: CB.Policy, n: nat, cancelled: bool) returns (w: World)
    ensures Ready(w, n, 1, policy) && w.globalFree == 2 && FreeNow(w, 1) == 1
    ensures GuardNow(w, policy) == Guard(policy, CB.FRESH, CB.LostRuns([], 0.0, n))
  {
    if n == 0 {
      w := FreshWorld(1, policy);
    } else {
      var before := LostRunsReachable(policy, n - 1, cancelled);
      var started := StartsOne(before, n - 1, 1, policy);
      w := LosesRun(started, n - 1, cancelled);
      StaysReady(started, w, n - 1, n, 1, policy);
    }
  }

  /** One run lost and the next one admitted at the same instant. */
  lemma LostThenAdmitted(policy: CB.Policy) returns (w: World)
    ensures Reachable(w) && "s" in w.guards && "s" in w.asked && w.asked["s"] == 1
    ensures w.guards["s"].policy == policy && w.guards["s"].hist == [CB.Admit(0.0), CB.Gone, CB.Admit(0.0)]
  {
    w := LostRunsReachable(policy, 1, false);
    assert CB.LostRuns([], 0.0, 1) == [CB.Admit(0.0), CB.Gone] by { assert CB.LostRuns([], 0.0, 0) == []; }
    w := StartsOne(w, 1, 1, policy);
    w := Enters(w, 1);
    ReachableStep(w, CheckBreaker(1));
    w := Next(w, CheckBreaker(1)).value;
    assert w.guards["s"].hist == [CB.Admit(0.0), CB.Gone] + [CB.Admit(0.0)];
  }

  lemma LostThenAdmittedHistory(p: CB.Policy)
    requires p == CB.Policy(1, 300.0)
    ensures var hist := [CB.Admit(0.0), CB.Gone, CB.Admit(0.0)];
      && CB.GoneCount(hist) == 1 && !CB.Bounded(p, hist, CB.Threshold(p))
  {
    var one, two, hist := [CB.Admit(0.0)], [CB.Admit(0.0), CB.Gone], [CB.Admit(0.0), CB.Gone, CB.Admit(0.0)];
    assert one[..0] == [] && two[..1] == one && hist[..2] == two;
    assert CB.GoneCount([]) == 0 && CB.GoneCount(one) == 0 && CB.GoneCount(two) == 1;
    assert CB.Flights([]) == [] && CB.Flights(one) == [CB.Flight(0.0, CB.InAir)];
    assert CB.Flights(two) == [CB.Flight(0.0, CB.Lost)];
    assert CB.Flights(hist) == [CB.Flight(0.0, CB.Lost), CB.Flight(0.0, CB.InAir)];
    var fs := CB.Flights(hist);
    assert CB.Worth(1 - 0 + 1 - CB.Threshold(p), CB.Recovery(p)) > fs[1].start - fs[0].start;
  }

  /**
   * All admissions of a source in a window without a success are bounded by the threshold and the window,
   * in every reachable world with serial runs, if and only if no admitted run is lost without an outcome.
   */
  lemma AdmissionsBoundedIffReported(lost: nat)
    ensures (forall w: World, s :: Reachable(w) && SerialSource(w, s, lost) ==>
        CB.Bounded(w.guards[s].policy, w.guards[s].hist, CB.Threshold(w.guards[s].policy))) <==> lost == 0
  {
    if lost == 0 {
      forall w: World, s | Reachable(w) && SerialSource(w, s, lost)
        ensures CB.Bounded(w.guards[s].policy, w.guards[s].hist, CB.Threshold(w.guards[s].policy))
      {
        SerialFacts(w, s);
        CB.AllowanceSuffices(w.guards[s].policy, w.guards[s].hist, 0, CB.Threshold(w.guards[s].policy));
      }
    } else {
      var policy := CB.Policy(1, 300.0);
      var w := LostThenAdmitted(policy);
      LostThenAdmittedHistory(policy);
      assert SerialSource(w, "s", lost);
    }
  }

  /** A source whose runs are serial, with at most so many lost ones. */
  ghost predicate SerialSource(w: World, s: string, lost: nat) {
    && s in w.guards && s in w.asked && w.asked[s] <= 1 && w.guards[s].policy.recoverySeconds > 0.0
    && CB.GoneCount(w.guards[s].hist) <= lost
  }

  // ---- Two runs of one source at a time ----

  lemma ReportsFailure(w: World, e: nat) returns (w': World)
    requires Reachable(w) && Known(w, e) && w.execs[e].pc == Reporting(false)
    ensures var s := w.execs[e].source;
      && Reachable(w') && Around(w, w', e, s) && w'.execs[e].pc.LeaveSource? && w'.rows == w.rows
      && w'.globalFree == w.globalFree && w'.sems[s] == w.sems[s] && w'.guards[s].policy == w.guards[s].policy
      && w'.guards[s].breaker == CB.AfterFailure(w.guards[s].policy, w.guards[s].breaker, w.now)
  {
    ReachableStep(w, Report(e));
    w' := Next(w, Report(e)).value;
  }

  lemma FailsRun(w: World, e: nat) returns (w': World)
    requires Reachable(w) && Known(w, e) && w.execs[e].pc.WaitGlobal?
    requires w.globalFree > 0 && w.sems[w.execs[e].source].free > 0
    requires w.guards[w.execs[e].source].breaker.state == CB.Closed
    requires w.execs[e].source in w.sources && w.execs[e].runId !in w.rows
    ensures var s := w.execs[e].source;
      && Reachable(w') && Around(w, w', e, s) && w'.rows.Keys == w.rows.Keys + {w.execs[e].runId}
      && w'.globalFree == w.globalFree && w'.sems[s].free == w.sems[s].free && w'.guards[s].policy == w.guards[s].policy
      && w'.guards[s].breaker == CB.AfterFailure(w.guards[s].policy, w.guards[s].breaker, w.now)
  {
    var flown := FliesToReport(w, e, Failed);
    var told := ReportsFailure(flown, e);
    w' := Leaves(told, e);
  }

  /** The breaker after n failures at time zero. */
  function FailedBreaker(p: CB.Policy, n: nat): CB.Breaker {
    CB.Breaker(if n < CB.Threshold(p) then CB.Closed else CB.Open, n, 0.0)
  }

  /** One run stays up, about to report its success, while others of the source fail one after the other. */
  lemma {:induction false} OneUpOthersFail(policy: CB.Policy, parallel: int, n: nat) returns (w: World)
    requires parallel >= 2 && n <= CB.Threshold(policy)
    ensures Ready(w, n + 1, parallel, policy) && w.globalFree == 1 && w.sems["s"].free == parallel - 1
    ensures w.execs[0].source == "s" && w.execs[0].pc == Reporting(true)
    ensures w.guards["s"].breaker == FailedBreaker(policy, n)
  {
    if n == 0 {
      w := FreshWorld(parallel, policy);
      var started := StartsOne(w, 0, parallel, policy);
      w := FliesToReport(started, 0, Success);
      StaysReady(started, w, 0, 1, parallel, policy);
    } else {
      var before := OneUpOthersFail(policy, parallel, n - 1);
      var started := StartsOne(before, n, parallel, policy);
      w := FailsRun(started, n);
      StaysReady(started, w, n, n + 1, parallel, policy);
    }
  }

  /**
   * Whatever the policy, a success can meet an open breaker if and only if the source was first
   * requested with parallelism above one.
   */
  lemma OpenAtSuccessIffParallel(parallel: int, policy: CB.Policy)
    ensures parallel >= 2 <==> exists w: World, e ::
      Reachable(w) && OpenAtSuccess(w, e) && OfSource(w, e, parallel, policy)
  {
    if parallel >= 2 {
      var w := OneUpOthersFail(policy, parallel, CB.Threshold(policy));
      assert Known(w, 0) && OpenAtSuccess(w, 0) && OfSource(w, 0, parallel, policy);
    }
    forall w: World, e | Reachable(w) && OpenAtSuccess(w, e) && OfSource(w, e, parallel, policy)
      ensures parallel >= 2
    {
      SerialNeverOpenAtSuccess(w, e);
    }
  }

  /** The source of this execution was first requested with this parallelism and policy. */
  predicate OfSource(w: World, e: nat, parallel: int, policy: CB.Policy)
    requires Known(w, e)
  {
    var s := w.execs[e].source;
    s in w.asked && w.asked[s] == parallel && w.guards[s].policy == policy
  }

  // ---- Rows and watermarks ----

  predicate RowMoves(w: World, w': World, r: string) {
    && (r in w.rows ==> r in w'.rows)
    && (r in w.rows && w'.rows[r] != w.rows[r] ==> w.rows[r].state == Running && Terminal(w'.rows[r].state))
    && (r !in w.rows && r in w'.rows ==> w'.rows[r].state == Running)
    && (r in w'.rows ==> (w'.rows[r].finishedAt.Some? <==> Terminal(w'.rows[r].state)))
  }

  lemma PerformMovesRow(w: World, e: nat, p: Plan, r: string)
    requires Known(w, e) && Sound(w, e, p) && RowsConsistent(w)
    ensures RowMoves(w, Perform(w, e, p), r)
  {
    if p.tables.Finalizes? {
      assert OwnsRow(w.execs[e].pc);
    }
  }

  /** A row moves only from RUNNING to one terminal state; a new row is RUNNING when it becomes visible. */
  lemma RowLifecycle(w: World, act: Action, r: string)
    requires Reachable(w) && Next(w, act).Some?
    ensures var w' := Next(w, act).value;
      && (r in w.rows ==> r in w'.rows)
      && (r in w.rows && w'.rows[r] != w.rows[r] ==> w.rows[r].state == Running && Terminal(w'.rows[r].state))
      && (r !in w.rows && r in w'.rows ==> w'.rows[r].state == Running)
      && (r in w'.rows ==> (w'.rows[r].finishedAt.Some? <==> Terminal(w'.rows[r].state)))
  {
    TablesOf(w);
    if !act.Tick? && !act.Start? {
      var e, p := PlanOf(w, act);
      PerformMovesRow(w, e, p, r);
    }
  }

  /** A watermark moves only when a run of that source is finalized as SUCCESS, to that run's watermark. */
  lemma WatermarkMovesOnSuccess(w: World, act: Action, s: string)
    requires Reachable(w) && Next(w, act).Some? && s in w.sources
    ensures var w' := Next(w, act).value;
      && s in w'.sources
      && (w'.sources[s] != w.sources[s] ==>
            && act.FinalizeRun? && act.ok && act.e in w.execs && w.execs[act.e].source == s
            && w.execs[act.e].pc == Closing(Success, w'.sources[s])
            && w.execs[act.e].runId in w'.rows && w'.rows[w.execs[act.e].runId].state == Success)
  {
    if !act.Tick? && !act.Start? {
      var e, p := PlanOf(w, act);
      if p.tables.Finalizes? {
        assert w.execs[e].pc.Closing? && p.pc.Reporting?;
      }
    }
  }

  /** So at all times a watermark is the first one or that of a run recorded as SUCCESS. */
  lemma WatermarkIsEarned(w: World, s: string)
    requires Reachable(w) && s in w.sources
    ensures s in w.initial && WatermarkEarned(w, s)
  {
    ReachableInv(w);
  }

  // ---- Rows that are never finalized ----

  ghost predicate Orphan(w: World, r: string) {
    && r in w.rows && w.rows[r].state == Running
    && forall e :: e in w.execs && OwnsRow(w.execs[e].pc) ==> w.execs[e].runId != r
  }

  /** A step by which the execution that owns this row lets go of it without finalizing it. */
  predicate LetsGo(w: World, act: Action, r: string) {
    && (act.PipelineRaises? || act.Interrupt? || (act.FinalizeRun? && !act.ok))
    && act.e in w.execs && OwnsRow(w.execs[act.e].pc) && w.execs[act.e].runId == r
  }

  /** This execution owns the row before the step, and no longer after it. */
  predicate Releases(w: World, e: nat, p: Plan, r: string)
    requires e in w.execs
  {
    OwnsRow(w.execs[e].pc) && w.execs[e].runId == r && !OwnsRow(p.pc) && !p.tables.Finalizes?
  }

  lemma OrphanPerform(w: World, e: nat, p: Plan, r: string)
    requires Known(w, e) && Sound(w, e, p) && RowsConsistent(w)
    ensures Orphan(Perform(w, e, p), r) <==> Orphan(w, r) || Releases(w, e, p, r)
  {
    if Orphan(w, r) {
      StaysOrphan(w, e, p, r);
    } else if Releases(w, e, p, r) {
      ReleasedIsOrphan(w, e, p, r);
    } else {
      NoNewOrphan(w, e, p, r);
    }
  }

  lemma ReleasedIsOrphan(w: World, e: nat, p: Plan, r: string)
    requires Known(w, e) && Sound(w, e, p) && RowsConsistent(w) && Releases(w, e, p, r)
    ensures Orphan(Perform(w, e, p), r)
  {
    var w' := Perform(w, e, p);
    assert w.rows[r].state == Running && w'.rows == w.rows;
    forall f | f in w'.execs && OwnsRow(w'.execs[f].pc) ensures w'.execs[f].runId != r {
      assert f != e && w'.execs[f] == w.execs[f];
    }
  }

  lemma StaysOrphan(w: World, e: nat, p: Plan, r: string)
    requires Known(w, e) && Sound(w, e, p) && Orphan(w, r)
    ensures Orphan(Perform(w, e, p), r)
  {
    var x, w' := w.execs[e], Perform(w, e, p);
    if p.tables.Finalizes? {
      assert OwnsRow(x.pc);
    }
    forall f | f in w'.execs && OwnsRow(w'.execs[f].pc) ensures w'.execs[f].runId != r {
      if f != e {
        assert w'.execs[f] == w.execs[f];
      } else if p.tables.Untouched? {
        assert OwnsRow(x.pc);
      }
    }
  }

  lemma NoNewOrphan(w: World, e: nat, p: Plan, r: string)
    requires Known(w, e) && Sound(w, e, p) && RowsConsistent(w)
    requires !Orphan(w, r) && !Releases(w, e, p, r)
    ensures !Orphan(Perform(w, e, p), r)
  {
    var x, w' := w.execs[e], Perform(w, e, p);
    assert w'.execs[e] == x.(pc := p.pc);
    if r in w.rows && w.rows[r].state == Running {
      var f :| f in w.execs && OwnsRow(w.execs[f].pc) && w.execs[f].runId == r;
      if f != e {
        assert w'.execs[f] == w.execs[f];
      } else if p.tables.Finalizes? {
        assert x.pc.Closing? && Terminal(x.pc.result);
      }
    } else if p.tables.Opens? && r == x.runId {
      assert OwnsRow(w'.execs[e].pc);
    }
  }

  lemma ReleasedByPlan(w: World, act: Action, p: Plan, r: string)
    requires !act.Tick? && !act.Start? && Known(w, act.e) && RowsConsistent(w)
    requires OfExec(act) ==> Planned(w, act.e, act) == Some(p)
    requires act.Interrupt? ==> Unwinding(w.execs[act.e].pc) == Some(p)
    ensures Releases(w, act.e, p, r) <==> LetsGo(w, act, r)
  {
    if OwnsRow(w.execs[act.e].pc) {
      assert w.execs[act.e].runId in w.rows;
    }
  }

  /** A step that is no execution's leaves the rows and their owners alone. */
  lemma OrphansElsewhere(w: World, act: Action, r: string)
    requires Next(w, act).Some? && (act.Tick? || act.Start?)
    ensures Orphan(Next(w, act).value, r) <==> Orphan(w, r)
  {
    var w' := Next(w, act).value;
    assert forall e :: e in w.execs ==> e in w'.execs && w'.execs[e] == w.execs[e];
  }

  /**
   * A row is orphaned by exactly these steps: an exception that the framework does not know, a
   * cancellation while the row is owned, and a finalization that fails. An orphan stays one.
   */
  lemma OrphanedExactlyByLettingGo(w: World, act: Action, r: string)
    requires Reachable(w) && Next(w, act).Some?
    ensures Orphan(Next(w, act).value, r) <==> Orphan(w, r) || LetsGo(w, act, r)
  {
    if act.Tick? || act.Start? {
      OrphansElsewhere(w, act, r);
    } else {
      var e, p := PlanOf(w, act);
      TablesOf(w);
      ReleasedByPlan(w, act, p, r);
      OrphanPerform(w, e, p, r);
    }
  }

  /** Some continuation finalizes the row. */
  ghost predicate CanFinish(w: World, r: string) {
    exists acts :: Run(w, acts).Some? && r in Run(w, acts).value.rows && Terminal(Run(w, acts).value.rows[r].state)
  }

  lemma {:induction false} RunReachable(w: World, acts: seq<Action>)
    requires Reachable(w) && Run(w, acts).Some?
    ensures Reachable(Run(w, acts).value)
  {
    if acts != [] {
      RunReachable(w, acts[..|acts| - 1]);
      ReachableStep(Run(w, acts[..|acts| - 1]).value, acts[|acts| - 1]);
    }
  }

  lemma {:induction false} OrphanForEver(w: World, acts: seq<Action>, r: string)
    requires Reachable(w) && Orphan(w, r) && Run(w, acts).Some?
    ensures Orphan(Run(w, acts).value, r)
  {
    if acts != [] {
      var init := acts[..|acts| - 1];
      OrphanForEver(w, init, r);
      RunReachable(w, init);
      OrphanedExactlyByLettingGo(Run(w, init).value, acts[|acts| - 1], r);
    }
  }

  lemma RunOfOne(w: World, act: Action)
    ensures Run(w, [act]) == Next(w, act)
  {
    assert [act][..0] == [] && Run(w, []) == Some(w);
  }

  lemma RunOfTwo(w: World, first: Action, second: Action)
    requires Next(w, first).Some?
    ensures Run(w, [first, second]) == Next(Next(w, first).value, second)
  {
    RunOfOne(w, first);
    assert [first, second][..1] == [first];
  }

  /** Finalizing makes the row terminal. */
  lemma Finalizes(w: World, e: nat)
    requires Reachable(w) && Known(w, e) && w.execs[e].pc.Closing?
    ensures var w' := Next(w, FeedRunner.FinalizeRun(e, true));
      var r := w.execs[e].runId; w'.Some? && r in w'.value.rows && Terminal(w'.value.rows[r].state)
  {
    TablesOf(w);
  }

  lemma EndsWell(w: World, e: nat)
    requires Reachable(w) && Known(w, e) && w.execs[e].pc.Piping?
    ensures var w' := Next(w, PipelineEnds(e, Success, map[]));
      && w'.Some? && Reachable(w'.value) && Known(w'.value, e) && w'.value.execs[e].pc.Closing?
      && w'.value.execs[e].runId == w.execs[e].runId
  {
    ReachableStep(w, PipelineEnds(e, Success, map[]));
  }

  /** The owner of a row can finalize it. */
  lemma OwnerFinishes(w: World, e: nat)
    requires Reachable(w) && Known(w, e) && OwnsRow(w.execs[e].pc)
    ensures CanFinish(w, w.execs[e].runId)
  {
    var finalize := FeedRunner.FinalizeRun(e, true);
    if w.execs[e].pc.Closing? {
      Finalizes(w, e);
      RunOfOne(w, finalize);
    } else {
      var ends := PipelineEnds(e, Success, map[]);
      EndsWell(w, e);
      Finalizes(Next(w, ends).value, e);
      RunOfTwo(w, ends, finalize);
    }
  }

  /** A RUNNING row can still be finalized if and only if it is not an orphan. */
  lemma FinishableIffOwned(w: World, r: string)
    requires Reachable(w) && r in w.rows && w.rows[r].state == Running
    ensures CanFinish(w, r) <==> !Orphan(w, r)
  {
    if Orphan(w, r) {
      forall acts | Run(w, acts).Some? ensures Orphan(Run(w, acts).value, r) {
        OrphanForEver(w, acts, r);
      }
    } else {
      var e :| e in w.execs && OwnsRow(w.execs[e].pc) && w.execs[e].runId == r;
      KnownExec(w, e);
      OwnerFinishes(w, e);
    }
  }

  lemma KnownExec(w: World, e: nat)
    requires Reachable(w) && e in w.execs
    ensures Known(w, e)
  {
    ReachableInv(w);
  }

  /** How a pipeline ends, by what it raised. */
  function EndingOf(e: nat, thrown: Option<O.Failure>, watermark: Watermark): Action {
    match O.ResultOf(thrown)
    case Succeeded => PipelineEnds(e, Success, watermark)
    case Failed => PipelineEnds(e, Failed, watermark)
    case Partial => PipelineEnds(e, Partial, watermark)
    case Reraised => PipelineRaises(e)
  }

  /** The end of a pipeline orphans its row exactly when it raised, and nothing it raised is the framework's own. */
  lemma OrphanedByForeignExceptions(w: World, e: nat, thrown: Option<O.Failure>, watermark: Watermark)
    requires Reachable(w) && Known(w, e) && w.execs[e].pc.Piping?
    ensures Next(w, EndingOf(e, thrown, watermark)).Some?
    ensures Orphan(Next(w, EndingOf(e, thrown, watermark)).value, w.execs[e].runId) <==>
      thrown.Some? && forall leaf: O.Failure :: !leaf.Group? && O.Occurs(leaf, thrown.value) ==> leaf == O.Foreign
  {
    O.ResultMeaning(thrown);
    OrphanedExactlyByLettingGo(w, EndingOf(e, thrown, watermark), w.execs[e].runId);
  }
}
