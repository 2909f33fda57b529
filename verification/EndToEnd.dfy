/**
 * The runner and the pipeline together: each execution drives one pipeline run, and its result is what
 * that run raised. When a watermark has moved, everything it stands for has been stored.
 */
module EndToEnd {
  import opened Sequences
  import opened Models
  import opened FeedRunner
  import opened RunnerTheorems
  import O = Outcome
  import P = PipelineMachine
  import PublishStage
  import PipelineMeaning

  /** The pipeline run of one execution: how it was left, what the group raised, and the watermark it set. */
  datatype PipelineRun = PipelineRun(spec: P.Spec, left: P.State, thrown: Option<O.Failure>, watermark: Watermark)

  /** The group waits for all stages, and raises exactly if one of them did not return normally. */
  ghost predicate Ended(p: PipelineRun) {
    P.Reachable(p.spec, p.left) && P.AllStopped(p.left) && (p.thrown.None? <==> P.Healthy(p.left))
  }

  /** In this history every execution leaves its pipeline with the outcome of its own pipeline run. */
  ghost predicate Drives(acts: seq<Action>, runs: nat -> PipelineRun) {
    forall i :: 0 <= i < |acts| && (acts[i].PipelineEnds? || acts[i].PipelineRaises?) ==>
      var p := runs(acts[i].e); Ended(p) && acts[i] == EndingOf(acts[i].e, p.thrown, p.watermark)
  }

  /** Each pipeline run belongs to its execution's run and source. */
  predicate InContext(w: World, runs: nat -> PipelineRun) {
    forall e :: e in w.execs ==> runs(e).spec.ctx == RunContext(w.execs[e].runId, w.execs[e].source)
  }

  /** The run has stored all that its feed means, and handed it to every publisher with a buffer of its own. */
  ghost predicate StoredInFull(p: PipelineRun) {
    && p.left.persist.stored == P.Batches(p.spec)
    && Concat(p.left.persist.stored) == P.Meaning(p.spec)
    && (PublishStage.Unshared(p.spec.publishers, p.spec.batchSize) ==>
          forall k: nat :: k < |p.spec.publishers| ==>
            PublishStage.HandedTo(p.left.publish.fan, k) == P.Batches(p.spec))
  }

  /** A pipeline left with SUCCESS has stored everything. */
  lemma SuccessIsStored(acts: seq<Action>, runs: nat -> PipelineRun, e: nat, watermark: Watermark)
    requires Drives(acts, runs) && PipelineEnds(e, Success, watermark) in acts
    ensures StoredInFull(runs(e)) && runs(e).watermark == watermark
  {
    var i :| 0 <= i < |acts| && acts[i] == PipelineEnds(e, Success, watermark);
    var p := runs(acts[i].e);
    assert Ended(p) && acts[i] == EndingOf(acts[i].e, p.thrown, p.watermark);
    O.ResultMeaning(p.thrown);
    PipelineMeaning.SuccessIsComplete(p.spec, p.left);
  }

  // ---- Where watermarks come from ----

  /** An execution that is about to record a result was left with it by its pipeline. */
  predicate ClosingTraced(w: World, acts: seq<Action>) {
    forall e :: e in w.execs && w.execs[e].pc.Closing? ==>
      PipelineEnds(e, w.execs[e].pc.result, w.execs[e].pc.watermark) in acts
  }

  /** Some execution of this source has left its pipeline with SUCCESS and this watermark. */
  ghost predicate Brought(w: World, acts: seq<Action>, s: string, watermark: Watermark) {
    exists e :: e in w.execs && w.execs[e].source == s && PipelineEnds(e, Success, watermark) in acts
  }

  ghost predicate SourcesTraced(w: World, acts: seq<Action>) {
    forall s :: s in w.sources ==>
      (s in w.initial && w.sources[s] == w.initial[s]) || Brought(w, acts, s, w.sources[s])
  }

  lemma StillBrought(w: World, w': World, acts: seq<Action>, act: Action, s: string, watermark: Watermark)
    requires Brought(w, acts, s, watermark)
    requires forall e :: e in w.execs ==> e in w'.execs && w'.execs[e].source == w.execs[e].source
    ensures Brought(w', acts + [act], s, watermark)
  {
    var e :| e in w.execs && w.execs[e].source == s && PipelineEnds(e, Success, watermark) in acts;
    assert PipelineEnds(e, Success, watermark) in acts + [act];
  }

  lemma PlanTracesClosing(w: World, acts: seq<Action>, act: Action, p: Plan)
    requires ClosingTraced(w, acts) && !act.Tick? && !act.Start? && Known(w, act.e)
    requires OfExec(act) ==> Planned(w, act.e, act) == Some(p)
    requires act.Interrupt? ==> Unwinding(w.execs[act.e].pc) == Some(p)
    ensures ClosingTraced(Perform(w, act.e, p), acts + [act])
  {
    var w' := Perform(w, act.e, p);
    forall e | e in w'.execs && w'.execs[e].pc.Closing?
      ensures PipelineEnds(e, w'.execs[e].pc.result, w'.execs[e].pc.watermark) in acts + [act]
    {
      if e != act.e {
        assert w'.execs[e] == w.execs[e];
      }
    }
  }

  lemma PlanTracesSources(w: World, acts: seq<Action>, act: Action, p: Plan)
    requires ClosingTraced(w, acts) && SourcesTraced(w, acts) && !act.Tick? && Known(w, act.e)
    ensures SourcesTraced(Perform(w, act.e, p), acts + [act])
  {
    var x, w' := w.execs[act.e], Perform(w, act.e, p);
    forall s | s in w'.sources
      ensures (s in w'.initial && w'.sources[s] == w'.initial[s]) || Brought(w', acts + [act], s, w'.sources[s])
    {
      if w'.sources == w.sources || s != x.source {
        if Brought(w, acts, s, w.sources[s]) { StillBrought(w, w', acts, act, s, w.sources[s]); }
      } else {
        assert PipelineEnds(act.e, Success, x.pc.watermark) in acts;
        assert Brought(w, acts, s, x.pc.watermark);
        StillBrought(w, w', acts, act, s, x.pc.watermark);
      }
    }
  }

  lemma OthersTrace(w: World, acts: seq<Action>, act: Action)
    requires ClosingTraced(w, acts) && SourcesTraced(w, acts) && (act.Tick? || act.Start?) && Next(w, act).Some?
    ensures var w' := Next(w, act).value; ClosingTraced(w', acts + [act]) && SourcesTraced(w', acts + [act])
  {
    var w' := Next(w, act).value;
    assert forall e :: e in w.execs ==> e in w'.execs && w'.execs[e] == w.execs[e];
    forall s | s in w'.sources
      ensures (s in w'.initial && w'.sources[s] == w'.initial[s]) || Brought(w', acts + [act], s, w'.sources[s])
    {
      if Brought(w, acts, s, w.sources[s]) { StillBrought(w, w', acts, act, s, w.sources[s]); }
    }
  }

  lemma {:induction false} Traced(max: int, initial: map<string, Watermark>, acts: seq<Action>)
    requires max >= 0 && Run(InitWorld(max, initial), acts).Some?
    ensures var w := Run(InitWorld(max, initial), acts).value; ClosingTraced(w, acts) && SourcesTraced(w, acts)
  {
    if acts != [] {
      var init, act := acts[..|acts| - 1], acts[|acts| - 1];
      var w := Run(InitWorld(max, initial), init).value;
      assert acts == init + [act];
      Traced(max, initial, init);
      assert Reachable(w);
      if act.Tick? || act.Start? {
        OthersTrace(w, init, act);
      } else {
        var e, p := PlanOf(w, act);
        PlanTracesClosing(w, init, act, p);
        PlanTracesSources(w, init, act, p);
      }
    }
  }

  // ---- A watermark stands for what has been stored ----

  /**
   * At every moment of every history, under any interleaving and any failures, the watermark of a source
   * is its first one, or else some pipeline run of that source has stored all that its feed means and
   * left this watermark.
   */
  lemma WatermarkMeansStored(max: int, initial: map<string, Watermark>, acts: seq<Action>,
                             runs: nat -> PipelineRun, w: World, s: string)
    requires max >= 0 && Run(InitWorld(max, initial), acts) == Some(w)
    requires Drives(acts, runs) && InContext(w, runs) && s in w.sources
    ensures
      || (s in initial && w.sources[s] == initial[s])
      || exists e :: e in w.execs && runs(e).spec.ctx.sourceId == s
                     && StoredInFull(runs(e)) && runs(e).watermark == w.sources[s]
  {
    Traced(max, initial, acts);
    InitialStays(max, initial, acts);
    if Brought(w, acts, s, w.sources[s]) {
      var e :| e in w.execs && w.execs[e].source == s && PipelineEnds(e, Success, w.sources[s]) in acts;
      SuccessIsStored(acts, runs, e, w.sources[s]);
    }
  }

  lemma StepKeepsInitial(w: World, act: Action)
    requires Next(w, act).Some?
    ensures Next(w, act).value.initial == w.initial
  {
  }

  lemma {:induction false} InitialStays(max: int, initial: map<string, Watermark>, acts: seq<Action>)
    requires Run(InitWorld(max, initial), acts).Some?
    ensures Run(InitWorld(max, initial), acts).value.initial == initial
  {
    if acts != [] {
      var init := acts[..|acts| - 1];
      InitialStays(max, initial, init);
      StepKeepsInitial(Run(InitWorld(max, initial), init).value, acts[|acts| - 1]);
    }
  }

  /** And it moves only with an execution whose own pipeline run has stored everything. */
  lemma MovingWatermarkIsStored(max: int, initial: map<string, Watermark>, acts: seq<Action>,
                                runs: nat -> PipelineRun, w: World, act: Action, s: string)
    requires max >= 0 && Run(InitWorld(max, initial), acts) == Some(w) && Drives(acts, runs)
    requires Next(w, act).Some? && s in w.sources
    ensures var w' := Next(w, act).value;
      s in w'.sources && (w'.sources[s] != w.sources[s] ==>
        && act.FinalizeRun? && act.e in w.execs && w.execs[act.e].source == s
        && StoredInFull(runs(act.e)) && runs(act.e).watermark == w'.sources[s])
  {
    assert Reachable(w);
    WatermarkMovesOnSuccess(w, act, s);
    Traced(max, initial, acts);
    var w' := Next(w, act).value;
    if w'.sources[s] != w.sources[s] {
      assert PipelineEnds(act.e, Success, w'.sources[s]) in acts;
      SuccessIsStored(acts, runs, act.e, w'.sources[s]);
    }
  }

  // ---- A row tells what its run raised ----

  /** The execution that this finished row belongs to has left its pipeline with what the row says. */
  ghost predicate RowTraced(w: World, acts: seq<Action>, r: string) {
    r in w.rows && Terminal(w.rows[r].state) ==>
      exists e :: e in w.execs && w.execs[e].runId == r && w.execs[e].source == w.rows[r].source
                  && PipelineEnds(e, w.rows[r].state, w.rows[r].watermark) in acts
  }

  lemma StillTraced(w: World, w': World, acts: seq<Action>, act: Action, r: string)
    requires RowTraced(w, acts, r) && (r in w'.rows && Terminal(w'.rows[r].state) ==>
      r in w.rows && w'.rows[r] == w.rows[r])
    requires forall e :: e in w.execs ==>
      e in w'.execs && w'.execs[e].source == w.execs[e].source && w'.execs[e].runId == w.execs[e].runId
    ensures RowTraced(w', acts + [act], r)
  {
    if r in w'.rows && Terminal(w'.rows[r].state) {
      var e :| e in w.execs && w.execs[e].runId == r && w.execs[e].source == w.rows[r].source
               && PipelineEnds(e, w.rows[r].state, w.rows[r].watermark) in acts;
      assert PipelineEnds(e, w'.rows[r].state, w'.rows[r].watermark) in acts + [act];
    }
  }

  lemma PlanTracesRow(w: World, acts: seq<Action>, act: Action, p: Plan, r: string)
    requires ClosingTraced(w, acts) && RowTraced(w, acts, r) && RowsConsistent(w)
    requires !act.Tick? && Known(w, act.e) && Sound(w, act.e, p)
    ensures RowTraced(Perform(w, act.e, p), acts + [act], r)
  {
    var x, w' := w.execs[act.e], Perform(w, act.e, p);
    if p.tables.Finalizes? && r == x.runId {
      assert x.pc.Closing? && w'.rows[r] == Row(x.source, x.pc.result, Some(w.now), x.pc.watermark);
      assert PipelineEnds(act.e, x.pc.result, x.pc.watermark) in acts + [act];
      assert w'.execs[act.e].runId == r && w'.execs[act.e].source == x.source;
    } else {
      StillTraced(w, w', acts, act, r);
    }
  }

  lemma OthersTraceRow(w: World, acts: seq<Action>, act: Action, r: string)
    requires RowTraced(w, acts, r) && (act.Tick? || act.Start?) && Next(w, act).Some?
    ensures RowTraced(Next(w, act).value, acts + [act], r)
  {
    var w' := Next(w, act).value;
    assert w'.rows == w.rows && forall e :: e in w.execs ==> e in w'.execs && w'.execs[e] == w.execs[e];
    StillTraced(w, w', acts, act, r);
  }

  lemma {:induction false} RowsTraced(max: int, initial: map<string, Watermark>, acts: seq<Action>, r: string)
    requires max >= 0 && Run(InitWorld(max, initial), acts).Some?
    ensures RowTraced(Run(InitWorld(max, initial), acts).value, acts, r)
  {
    if acts != [] {
      var init, act := acts[..|acts| - 1], acts[|acts| - 1];
      var w := Run(InitWorld(max, initial), init).value;
      assert acts == init + [act];
      RowsTraced(max, initial, init, r);
      Traced(max, initial, init);
      assert Reachable(w);
      if act.Tick? || act.Start? {
        OthersTraceRow(w, init, act, r);
      } else {
        var e, p := PlanOf(w, act);
        TablesOf(w);
        PlanTracesRow(w, init, act, p, r);
      }
    }
  }

  /** SUCCESS stands for no exception, FAILED for one that is permanent, PARTIAL for others of the framework's own. */
  ghost predicate TellsOf(state: RunState, thrown: Option<O.Failure>) {
    && (state == Success <==> thrown.None?)
    && (state == Failed <==> thrown.Some? && exists leaf: O.Failure :: leaf.Permanent? && O.Occurs(leaf, thrown.value))
    && (thrown.Some? ==> exists leaf: O.Failure :: O.IsFramework(leaf) && O.Occurs(leaf, thrown.value))
  }

  lemma EndingTells(e: nat, thrown: Option<O.Failure>, watermark: Watermark)
    requires EndingOf(e, thrown, watermark).PipelineEnds?
    ensures TellsOf(EndingOf(e, thrown, watermark).result, thrown)
  {
    O.ResultMeaning(thrown);
  }

  /**
   * Whatever a finished row says is true of its own pipeline run: it has that run's watermark, and its state
   * tells what the run raised. Under SUCCESS all that the feed means has been stored.
   */
  lemma RowTellsOutcome(max: int, initial: map<string, Watermark>, acts: seq<Action>,
                        runs: nat -> PipelineRun, w: World, r: string) returns (e: nat)
    requires max >= 0 && Run(InitWorld(max, initial), acts) == Some(w) && Drives(acts, runs)
    requires r in w.rows && Terminal(w.rows[r].state)
    ensures e in w.execs && w.execs[e].runId == r && w.execs[e].source == w.rows[r].source
    ensures Ended(runs(e)) && w.rows[r].watermark == runs(e).watermark && TellsOf(w.rows[r].state, runs(e).thrown)
    ensures w.rows[r].state == Success ==> StoredInFull(runs(e))
  {
    RowsTraced(max, initial, acts, r);
    e :| e in w.execs && w.execs[e].runId == r && w.execs[e].source == w.rows[r].source
         && PipelineEnds(e, w.rows[r].state, w.rows[r].watermark) in acts;
    var i :| 0 <= i < |acts| && acts[i] == PipelineEnds(e, w.rows[r].state, w.rows[r].watermark);
    var p := runs(acts[i].e);
    assert Ended(p) && acts[i] == EndingOf(e, p.thrown, p.watermark);
    EndingTells(e, p.thrown, p.watermark);
    if w.rows[r].state == Success { SuccessIsStored(acts, runs, e, w.rows[r].watermark); }
  }
}
