/** What an execution writes to the run rows and the watermarks, and what it tells the breaker of its source. */
module Reports {
  import opened Sequences
  import opened FeedRunner
  import opened RunnerTheorems
  import CB = CircuitBreakers

  // ---- What a request sets up ----

  /** The first request for a source sizes its semaphore and fixes its policy; later ones change neither. */
  lemma FirstRequestSetsUp(w: World, e: nat, source: string, runId: string, parallel: int, policy: CB.Policy)
    requires Reachable(w) && e !in w.execs
    ensures var w' := Next(w, Start(e, source, runId, parallel, policy));
      && w'.Some? && w'.value.execs == w.execs[e := Exec(source, runId, WaitGlobal)]
      && w'.value.rows == w.rows && w'.value.sources == w.sources && w'.value.globalFree == w.globalFree
      && (source !in w.guards ==>
            && w'.value.guards == w.guards[source := Guard(policy, CB.FRESH, [])]
            && w'.value.sems == w.sems[source := if parallel < 1 then Sem(1, 1) else Sem(parallel, parallel)]
            && w'.value.asked == w.asked[source := parallel])
      && (source in w.guards ==>
            w'.value.guards == w.guards && w'.value.sems == w.sems && w'.value.asked == w.asked)
  {
    ReachableInv(w);
    assert w.guards.Keys == w.sems.Keys == w.asked.Keys;
  }

  // ---- What an execution writes ----

  /** Opening a run makes its row visible as RUNNING, or fails and leaves both tables alone. */
  lemma OpeningWrites(w: World, e: nat, ok: bool)
    requires Known(w, e) && w.execs[e].pc.Opening?
    ensures Next(w, OpenRun(e, ok)).Some?
    ensures var x, w' := w.execs[e], Next(w, OpenRun(e, ok)).value;
      && w'.sources == w.sources
      && if ok && x.source in w.sources && x.runId !in w.rows
         then w'.execs[e].pc == Piping && w'.rows == w.rows[x.runId := Row(x.source, Running, None, map[])]
         else w'.execs[e].pc == Faulted && w'.rows == w.rows
  {
  }

  /** What a pipeline returns is what is about to be recorded; what it raises is not recorded. */
  lemma PipelineLeaves(w: World, e: nat, result: RunState, watermark: Watermark)
    requires Known(w, e) && w.execs[e].pc.Piping?
    ensures var w' := Next(w, PipelineEnds(e, result, watermark));
      && (w'.Some? <==> Terminal(result))
      && (w'.Some? ==> w'.value.execs[e].pc == Closing(result, watermark))
      && (w'.Some? ==> w'.value.rows == w.rows && w'.value.sources == w.sources)
    ensures var w' := Next(w, PipelineRaises(e));
      w'.Some? && w'.value.execs[e].pc == Faulted && w'.value.rows == w.rows && w'.value.sources == w.sources
  {
  }

  /** Finalizing records result, time and watermark; only a success moves the source's watermark, and it does. */
  lemma FinalizingWrites(w: World, e: nat, ok: bool)
    requires Reachable(w) && Known(w, e) && w.execs[e].pc.Closing?
    ensures Next(w, FeedRunner.FinalizeRun(e, ok)).Some?
    ensures var x, w' := w.execs[e], Next(w, FeedRunner.FinalizeRun(e, ok)).value;
      if ok then
        && w'.execs[e].pc == Reporting(x.pc.result == Success)
        && w'.rows == w.rows[x.runId := Row(x.source, x.pc.result, Some(w.now), x.pc.watermark)]
        && w'.sources == if x.pc.result == Success && x.source in w.sources
          then w.sources[x.source := x.pc.watermark] else w.sources
      else w'.execs[e].pc == Faulted && w'.rows == w.rows && w'.sources == w.sources
  {
    TablesOf(w);
  }

  // ---- What an execution reports ----

  /** An execution that is about to report success or failure has recorded just that. */
  predicate ReportsRow(w: World, e: nat)
    requires e in w.execs
  {
    var x := w.execs[e];
    x.pc.Reporting? ==>
      && x.runId in w.rows && w.rows[x.runId].source == x.source
      && Terminal(w.rows[x.runId].state) && (x.pc.success <==> w.rows[x.runId].state == Success)
  }

  ghost predicate ReportsAreRows(w: World) {
    forall e :: e in w.execs ==> ReportsRow(w, e)
  }

  lemma RecordedSourceStays(w: World, e: nat, p: Plan, r: string)
    requires Known(w, e) && Sound(w, e, p) && RowsConsistent(w) && r in w.rows && Terminal(w.rows[r].state)
    ensures var w' := Perform(w, e, p); r in w'.rows && w'.rows[r] == w.rows[r]
  {
    PerformMovesRow(w, e, p, r);
  }

  lemma PlanReportsRow(w: World, act: Action, p: Plan)
    requires !act.Tick? && !act.Start? && Known(w, act.e) && Sound(w, act.e, p) && RowsConsistent(w)
    requires OfExec(act) ==> Planned(w, act.e, act) == Some(p)
    requires act.Interrupt? ==> Unwinding(w.execs[act.e].pc) == Some(p)
    ensures ReportsRow(Perform(w, act.e, p), act.e)
  {
    if p.pc.Reporting? {
      FinalizedReports(w, act, p);
    }
  }

  lemma FinalizedReports(w: World, act: Action, p: Plan)
    requires OfExec(act) && Known(w, act.e) && RowsConsistent(w) && p.pc.Reporting?
    requires Planned(w, act.e, act) == Some(p)
    ensures ReportsRow(Perform(w, act.e, p), act.e)
  {
    assert w.execs[act.e].pc.Closing? && p.tables.Finalizes?;
  }

  lemma PlanKeepsReports(w: World, act: Action, p: Plan)
    requires !act.Tick? && !act.Start? && Known(w, act.e) && Sound(w, act.e, p) && RowsConsistent(w)
    requires OfExec(act) ==> Planned(w, act.e, act) == Some(p)
    requires act.Interrupt? ==> Unwinding(w.execs[act.e].pc) == Some(p)
    requires ReportsAreRows(w)
    ensures ReportsAreRows(Perform(w, act.e, p))
  {
    var w' := Perform(w, act.e, p);
    PlanReportsRow(w, act, p);
    forall e | e in w'.execs && e != act.e ensures ReportsRow(w', e) {
      assert w'.execs[e] == w.execs[e] && ReportsRow(w, e);
      if w.execs[e].pc.Reporting? {
        RecordedSourceStays(w, act.e, p, w.execs[e].runId);
      }
    }
  }

  lemma OthersKeepReports(w: World, act: Action)
    requires (act.Tick? || act.Start?) && Next(w, act).Some? && ReportsAreRows(w)
    ensures ReportsAreRows(Next(w, act).value)
  {
    var w' := Next(w, act).value;
    forall e | e in w'.execs ensures ReportsRow(w', e) {
      assert e in w.execs ==> w'.execs[e] == w.execs[e] && ReportsRow(w, e);
    }
  }

  lemma {:induction false} RunsReportRows(max: int, initial: map<string, Watermark>, acts: seq<Action>)
    requires max >= 0 && Run(InitWorld(max, initial), acts).Some?
    ensures ReportsAreRows(Run(InitWorld(max, initial), acts).value)
  {
    if acts != [] {
      var init, act := acts[..|acts| - 1], acts[|acts| - 1];
      var w := Run(InitWorld(max, initial), init).value;
      RunsReportRows(max, initial, init);
      assert Reachable(w);
      if act.Tick? || act.Start? {
        OthersKeepReports(w, act);
      } else {
        var e, p := PlanOf(w, act);
        TablesOf(w);
        PlanKeepsReports(w, act, p);
      }
    }
  }

  lemma ReachableReports(w: World)
    requires Reachable(w)
    ensures ReportsAreRows(w)
  {
    var max: int, initial, acts :| max >= 0 && Run(InitWorld(max, initial), acts) == Some(w);
    RunsReportRows(max, initial, acts);
  }

  // ---- What the breaker is told ----

  /** This execution has recorded its run as SUCCESS. */
  predicate Recorded(w: World, e: nat) {
    e in w.execs && w.execs[e].pc.Reporting? && w.execs[e].runId in w.rows
    && w.rows[w.execs[e].runId].state == Success
  }

  /** What a step tells the breaker of this source. */
  predicate Tells(w: World, act: Action, s: string, events: seq<CB.Event>)
    requires s in w.guards
  {
    if act.Tick? || act.Start? || act.e !in w.execs || w.execs[act.e].source != s then events == []
    else match act
      case CheckBreaker(e) =>
        var g := w.guards[s];
        events == [if CB.Rejects(g.policy, g.hist, w.now) then CB.Refuse(w.now) else CB.Admit(w.now)]
      case Build(e, ok) => events == if ok then [] else [CB.Gone]
      case Report(e) => events == [if Recorded(w, e) then CB.Success else CB.Failure(w.now)]
      case Interrupt(e) => events == if Flying(w.execs[e].pc) then [CB.Gone] else []
      case _ => events == []
  }

  /** The breaker's history grows by what the step tells it, and by nothing else. */
  predicate Hears(w: World, w': World, s: string, events: seq<CB.Event>) {
    && s in w.guards && s in w'.guards
    && w'.guards[s].policy == w.guards[s].policy && w'.guards[s].hist == w.guards[s].hist + events
  }

  function EventsOf(p: Plan): seq<CB.Event> {
    if p.event.Some? then [p.event.value] else []
  }

  lemma PerformHears(w: World, e: nat, p: Plan, s: string)
    requires Known(w, e) && s in w.guards
    ensures Hears(w, Perform(w, e, p), s, if w.execs[e].source == s then EventsOf(p) else [])
  {
  }

  lemma PlannedTells(w: World, act: Action, p: Plan)
    requires OfExec(act) && Known(w, act.e) && ReportsRow(w, act.e) && Planned(w, act.e, act) == Some(p)
    requires var g := w.guards[w.execs[act.e].source];
      CB.Admits(g.policy, g.breaker, w.now) <==> !CB.Rejects(g.policy, g.hist, w.now)
    ensures Tells(w, act, w.execs[act.e].source, EventsOf(p))
  {
  }

  lemma UnwindingTells(w: World, e: nat, p: Plan)
    requires Known(w, e) && Unwinding(w.execs[e].pc) == Some(p)
    ensures Tells(w, Interrupt(e), w.execs[e].source, EventsOf(p))
  {
  }

  /**
   * A breaker is told of every decision to let a run in or not; that a run succeeded, exactly if it has been
   * recorded as SUCCESS; that it failed, at the time of the report, if it has been recorded as anything else
   * or has faulted; and that it is gone, if it could not be built or was cancelled on the way.
   */
  lemma BreakerIsTold(w: World, act: Action, s: string) returns (events: seq<CB.Event>)
    requires Reachable(w) && Next(w, act).Some? && s in w.guards
    ensures Tells(w, act, s, events) && Hears(w, Next(w, act).value, s, events)
  {
    events := [];
    if !act.Tick? && !act.Start? {
      var e, p := PlanOf(w, act);
      ReachableReports(w);
      TrackedGuard(w, s);
      CB.BreakerFollowsRule(w.guards[s].policy, w.guards[s].hist, w.now);
      PerformHears(w, e, p, s);
      if w.execs[e].source == s {
        if act.Interrupt? { UnwindingTells(w, e, p); } else { PlannedTells(w, act, p); }
        events := EventsOf(p);
      }
    }
  }

  /** Once a run recorded as SUCCESS has reported, the breaker is closed and remembers no failure. */
  lemma SuccessCloses(w: World, e: nat)
    requires Reachable(w) && Known(w, e) && Recorded(w, e)
    ensures Next(w, Report(e)).Some?
    ensures var s, w' := w.execs[e].source, Next(w, Report(e)).value;
      && w'.execs[e].pc == LeaveSource && s in w'.guards
      && w'.guards[s].hist == w.guards[s].hist + [CB.Success]
      && w'.guards[s].breaker.state == CB.Closed && w'.guards[s].breaker.failures == 0
      && forall t :: t in w.guards && t != s ==> t in w'.guards && w'.guards[t] == w.guards[t]
  {
    ReachableReports(w);
    assert ReportsRow(w, e);
  }

  /** A run recorded as PARTIAL or FAILED, or one that has faulted, adds one failure, at this moment. */
  lemma OthersFail(w: World, e: nat)
    requires Reachable(w) && Known(w, e) && !Recorded(w, e) && (w.execs[e].pc.Reporting? || w.execs[e].pc.Faulted?)
    ensures Next(w, Report(e)).Some?
    ensures var s, w' := w.execs[e].source, Next(w, Report(e)).value;
      && w'.execs[e].pc == LeaveSource && s in w'.guards
      && w'.guards[s].hist == w.guards[s].hist + [CB.Failure(w.now)]
      && w'.guards[s].breaker.failures == w.guards[s].breaker.failures + 1
      && (w'.guards[s].breaker.failures >= CB.Threshold(w.guards[s].policy) ==>
            w'.guards[s].breaker.state == CB.Open && w'.guards[s].breaker.openedAt == w.now)
      && forall t :: t in w.guards && t != s ==> t in w'.guards && w'.guards[t] == w.guards[t]
  {
    ReachableReports(w);
    assert ReportsRow(w, e);
    TrackedGuard(w, w.execs[e].source);
    var g := w.guards[w.execs[e].source];
    CB.StateMeaning(g.policy, g.hist, w.now);
  }
}
