/** Runs never deadlock, every run ends, and a run succeeds exactly when no plugin raises. */
module PipelineProgress {
  import opened Sequences
  import opened Models
  import opened StageQueues
  import opened PublishStage
  import opened PipelineMachine
  import opened PipelineSafety
  import opened PipelineMeaning

  // ---- Deadlock freedom ----

  /** No stage has returned by an exception or a cancellation; one may be about to. */
  predicate ReturnsAreNormal(s: State) {
    forall stage: Stage :: PhaseOf(s, stage).Stopped? ==> PhaseOf(s, stage).why.Normal?
  }

  /** A worker that cannot move although its output is empty is waiting for input. */
  lemma WorkerWaits<A, B>(f: A -> Emission<B>, maxsize: int, inq: Queue<A>, me: Worker<B>, outq: Queue<B>)
    requires WellFormed(outq) && WorkerInv(f, inq, me, outq)
    requires me.phase.Stopped? ==> me.phase.why.Normal?
    requires outq.buf == [] && !outq.ended && WorkerTurn(f, maxsize, inq, me, outq).None?
    ensures inq.buf == [] && !inq.ended
  {
  }

  lemma PersistWaits(spec: Spec, inq: Queue<Candidate>, me: Persister, outq: Queue<Sighting>)
    requires WellFormed(outq) && PersistInv(spec, inq, me, outq)
    requires me.phase.Stopped? ==> me.phase.why.Normal?
    requires outq.buf == [] && !outq.ended && PersistTurn(spec, inq, me, outq).None?
    ensures inq.buf == [] && !inq.ended
  {
  }

  /** For every queue size and batch size, an unfinished run without an early return has a stage that can move. */
  lemma SomeStageMoves(spec: Spec, s: State) returns (stage: Stage)
    requires Inv(spec, s) && ReturnsAreNormal(s) && !AllStopped(s)
    ensures TurnOf(spec, s, stage).Some?
  {
    if TurnOf(spec, s, Publish).Some? { return Publish; }
    if TurnOf(spec, s, Persist).Some? { return Persist; }
    if TurnOf(spec, s, Dedup).Some? { return Dedup; }
    if TurnOf(spec, s, Enrich).Some? { return Enrich; }
    if TurnOf(spec, s, Normalize).Some? { return Normalize; }
    if TurnOf(spec, s, Parse).Some? { return Parse; }
    stage := Fetch;
    if s.publish.phase.Running? {
      PublishBlockedUpToFetch(spec, s);
    } else {
      NormalReturns(s);
      FinishedDownToFetch(spec, s);
    }
  }

  lemma PublishBlockedUpToFetch(spec: Spec, s: State)
    requires Inv(spec, s) && ReturnsAreNormal(s) && s.publish.phase.Running?
    requires forall stage: Stage :: stage != Fetch ==> TurnOf(spec, s, stage).None?
    ensures TurnOf(spec, s, Fetch).Some?
  {
    assert TurnOf(spec, s, Publish).None? && TurnOf(spec, s, Persist).None? && TurnOf(spec, s, Dedup).None?;
    assert TurnOf(spec, s, Enrich).None? && TurnOf(spec, s, Normalize).None? && TurnOf(spec, s, Parse).None?;
    NormalReturns(s);
    PersistWaits(spec, s.qDedup, s.persist, s.qPersist);
    WorkerWaits(Deduper(), spec.maxsize, s.qEnriched, s.dedup, s.qDedup);
    WorkerWaits(Enricher(spec), spec.maxsize, s.qIndicators, s.enrich, s.qEnriched);
    WorkerWaits(Normalizer(spec), spec.maxsize, s.qRecords, s.normalize, s.qIndicators);
    WorkerWaits(spec.parse, spec.maxsize, s.qRaw, s.parse, s.qRecords);
  }

  lemma NormalReturns(s: State)
    requires ReturnsAreNormal(s)
    ensures s.fetch.phase.Stopped? ==> s.fetch.phase.why.Normal?
    ensures s.parse.phase.Stopped? ==> s.parse.phase.why.Normal?
    ensures s.normalize.phase.Stopped? ==> s.normalize.phase.why.Normal?
    ensures s.enrich.phase.Stopped? ==> s.enrich.phase.why.Normal?
    ensures s.dedup.phase.Stopped? ==> s.dedup.phase.why.Normal?
    ensures s.persist.phase.Stopped? ==> s.persist.phase.why.Normal?
    ensures s.publish.phase.Stopped? ==> s.publish.phase.why.Normal?
  {
    assert PhaseOf(s, Fetch) == s.fetch.phase && PhaseOf(s, Parse) == s.parse.phase;
    assert PhaseOf(s, Normalize) == s.normalize.phase && PhaseOf(s, Enrich) == s.enrich.phase;
    assert PhaseOf(s, Dedup) == s.dedup.phase && PhaseOf(s, Persist) == s.persist.phase;
    assert PhaseOf(s, Publish) == s.publish.phase;
  }

  lemma HealthyPhases(s: State)
    requires Healthy(s)
    ensures s.fetch.phase.Running? || s.fetch.phase.why.Normal?
    ensures s.parse.phase.Running? || s.parse.phase.why.Normal?
    ensures s.normalize.phase.Running? || s.normalize.phase.why.Normal?
    ensures s.enrich.phase.Running? || s.enrich.phase.why.Normal?
    ensures s.dedup.phase.Running? || s.dedup.phase.why.Normal?
    ensures s.persist.phase.Running? || s.persist.phase.why.Normal?
    ensures s.publish.phase.Running? || s.publish.phase.why.Normal?
  {
    assert PhaseOf(s, Fetch) == s.fetch.phase && PhaseOf(s, Parse) == s.parse.phase;
    assert PhaseOf(s, Normalize) == s.normalize.phase && PhaseOf(s, Enrich) == s.enrich.phase;
    assert PhaseOf(s, Dedup) == s.dedup.phase && PhaseOf(s, Persist) == s.persist.phase;
    assert PhaseOf(s, Publish) == s.publish.phase;
  }

  /** When no stage has returned early, the end of a stage means the end of all stages before it. */
  lemma EndsCascade(spec: Spec, s: State)
    requires Inv(spec, s) && ReturnsAreNormal(s)
    ensures s.qPersist.ended ==> s.persist.phase == Stopped(Normal)
    ensures s.persist.phase == Stopped(Normal) ==> s.qDedup.ended
    ensures s.qDedup.ended ==>
      && s.dedup.phase == Stopped(Normal) && s.enrich.phase == Stopped(Normal) && s.normalize.phase == Stopped(Normal)
      && s.parse.phase == Stopped(Normal) && s.fetch.phase == Stopped(Normal)
  {
    NormalReturns(s);
  }

  lemma FinishedDownToFetch(spec: Spec, s: State)
    requires Inv(spec, s) && ReturnsAreNormal(s) && s.publish.phase == Stopped(Normal)
    ensures AllStopped(s)
  {
    EndsCascade(spec, s);
  }

  lemma HealthyReturns(s: State)
    requires Healthy(s)
    ensures ReturnsAreNormal(s)
  {
  }

  /**
   * The stages never wait for each other in a circle: an unfinished run that cannot go on holds a stage
   * that has returned by an exception or a cancellation. So a failure always surfaces.
   */
  lemma NoDeadlock(spec: Spec, s: State)
    requires Reachable(spec, s) && !AllStopped(s)
    ensures
      || (exists stage: Stage :: Next(spec, s, Turn(stage)).Some?)
      || (exists stage: Stage :: PhaseOf(s, stage).Stopped? && !PhaseOf(s, stage).why.Normal?)
  {
    if ReturnsAreNormal(s) {
      ReachableInv(spec, s);
      var stage := SomeStageMoves(spec, s);
      assert Next(spec, s, Turn(stage)).Some?;
    }
  }

  // ---- Termination ----

  function PhaseRank(phase: Phase, running: nat): nat {
    match phase
    case Running => 2 + running
    case Closing(_) => 1
    case Stopped(_) => 0
  }

  function PersistRank(me: Persister): nat {
    match me.pc
    case Collect => 0
    case Flushing(_) => |me.batch| + 2
    case Forward(rest, _) => |rest| + 1
  }

  function PersistLeft(me: Persister): nat { PhaseRank(me.phase, PersistRank(me)) }

  function PublishRank(spec: Spec, me: Publisher): nat {
    match me.pc
    case Idle => 0
    case Fan(_, k) => if k <= |spec.publishers| then 2 * (|spec.publishers| - k) + 1 else 1
    case Pushing(_, k) => if k < |spec.publishers| then 2 * (|spec.publishers| - k) else 1
    case Final(k) => if k <= |spec.publishers| then |spec.publishers| - k + 1 else 1
  }

  /**
   * The work left, from upstream to downstream: a step of a stage takes from its input queue or
   * uses up its own work, and adds only to what stands after it.
   */
  function Rank(spec: Spec, s: State): seq<nat> {
    [ if s.aborting then 0 else 1,
      PhaseRank(s.fetch.phase, if s.fetch.next <= |spec.payloads| then |spec.payloads| - s.fetch.next else 0),
      |s.qRaw.buf|,
      PhaseRank(s.parse.phase, |s.parse.pending|),
      |s.qRecords.buf|,
      PhaseRank(s.normalize.phase, |s.normalize.pending|),
      |s.qIndicators.buf|,
      PhaseRank(s.enrich.phase, |s.enrich.pending|),
      |s.qEnriched.buf|,
      PhaseRank(s.dedup.phase, |s.dedup.pending|),
      |s.qDedup.buf|,
      PersistLeft(s.persist),
      |s.qPersist.buf|,
      PhaseRank(s.publish.phase, PublishRank(spec, s.publish)) ]
  }

  ghost predicate FirstDrop(a: seq<nat>, b: seq<nat>, i: nat) {
    && |a| == |b| && i < |a| && a[i] < b[i]
    && forall j :: 0 <= j < i ==> a[j] == b[j]
  }

  /** Lexicographic order on ranks of the same length. */
  ghost predicate Below(a: seq<nat>, b: seq<nat>) {
    exists i: nat :: FirstDrop(a, b, i)
  }

  lemma WorkerRankDrops<A, B>(f: A -> Emission<B>, maxsize: int, why: Exit,
                              inq: Queue<A>, me: Worker<B>, outq: Queue<B>)
    ensures var m := WorkerTurn(f, maxsize, inq, me, outq); m.Some? ==>
      || |m.value.inq.buf| < |inq.buf|
      || (m.value.inq == inq && PhaseRank(m.value.me.phase, |m.value.me.pending|) < PhaseRank(me.phase, |me.pending|))
    ensures var m := WorkerInterrupt(why, inq, me, outq); m.Some? ==>
      m.value.inq == inq && PhaseRank(m.value.me.phase, |m.value.me.pending|) < PhaseRank(me.phase, |me.pending|)
  {
  }

  lemma PersistRankDrops(spec: Spec, why: Exit, committed: bool,
                         inq: Queue<Candidate>, me: Persister, outq: Queue<Sighting>)
    ensures var m := PersistTurn(spec, inq, me, outq); m.Some? ==>
      || |m.value.inq.buf| < |inq.buf|
      || (m.value.inq == inq && PersistLeft(m.value.me) < PersistLeft(me))
    ensures var m := PersistInterrupt(spec, why, committed, inq, me, outq); m.Some? ==>
      m.value.inq == inq && PersistLeft(m.value.me) < PersistLeft(me)
  {
  }

  lemma FetchDrops(spec: Spec, s: State)
    requires TurnOf(spec, s, Fetch).Some?
    ensures Below(Rank(spec, TurnOf(spec, s, Fetch).value), Rank(spec, s))
  {
    var a, b := Rank(spec, TurnOf(spec, s, Fetch).value), Rank(spec, s);
    assert FirstDrop(a, b, 1);
  }

  lemma ParseDrops(spec: Spec, s: State)
    requires TurnOf(spec, s, Parse).Some?
    ensures Below(Rank(spec, TurnOf(spec, s, Parse).value), Rank(spec, s))
  {
    var a, b := Rank(spec, TurnOf(spec, s, Parse).value), Rank(spec, s);
    WorkerRankDrops(spec.parse, spec.maxsize, Raised, s.qRaw, s.parse, s.qRecords);
    if a[2] < b[2] {
      assert FirstDrop(a, b, 2);
    } else {
      assert FirstDrop(a, b, 3);
    }
  }

  lemma NormalizeDrops(spec: Spec, s: State)
    requires TurnOf(spec, s, Normalize).Some?
    ensures Below(Rank(spec, TurnOf(spec, s, Normalize).value), Rank(spec, s))
  {
    var a, b := Rank(spec, TurnOf(spec, s, Normalize).value), Rank(spec, s);
    WorkerRankDrops(Normalizer(spec), spec.maxsize, Raised, s.qRecords, s.normalize, s.qIndicators);
    if a[4] < b[4] {
      assert FirstDrop(a, b, 4);
    } else {
      assert FirstDrop(a, b, 5);
    }
  }

  lemma EnrichDrops(spec: Spec, s: State)
    requires TurnOf(spec, s, Enrich).Some?
    ensures Below(Rank(spec, TurnOf(spec, s, Enrich).value), Rank(spec, s))
  {
    var a, b := Rank(spec, TurnOf(spec, s, Enrich).value), Rank(spec, s);
    WorkerRankDrops(Enricher(spec), spec.maxsize, Raised, s.qIndicators, s.enrich, s.qEnriched);
    if a[6] < b[6] {
      assert FirstDrop(a, b, 6);
    } else {
      assert FirstDrop(a, b, 7);
    }
  }

  lemma DedupDrops(spec: Spec, s: State)
    requires TurnOf(spec, s, Dedup).Some?
    ensures Below(Rank(spec, TurnOf(spec, s, Dedup).value), Rank(spec, s))
  {
    var a, b := Rank(spec, TurnOf(spec, s, Dedup).value), Rank(spec, s);
    WorkerRankDrops(Deduper(), spec.maxsize, Raised, s.qEnriched, s.dedup, s.qDedup);
    if a[8] < b[8] {
      assert FirstDrop(a, b, 8);
    } else {
      assert FirstDrop(a, b, 9);
    }
  }

  lemma PersistDrops(spec: Spec, s: State)
    requires TurnOf(spec, s, Persist).Some?
    ensures Below(Rank(spec, TurnOf(spec, s, Persist).value), Rank(spec, s))
  {
    var a, b := Rank(spec, TurnOf(spec, s, Persist).value), Rank(spec, s);
    PersistRankDrops(spec, Raised, false, s.qDedup, s.persist, s.qPersist);
    if a[10] < b[10] {
      assert FirstDrop(a, b, 10);
    } else {
      assert FirstDrop(a, b, 11);
    }
  }

  lemma PublishDrops(spec: Spec, s: State)
    requires TurnOf(spec, s, Publish).Some?
    ensures Below(Rank(spec, TurnOf(spec, s, Publish).value), Rank(spec, s))
  {
    var a, b := Rank(spec, TurnOf(spec, s, Publish).value), Rank(spec, s);
    if a[12] < b[12] {
      assert FirstDrop(a, b, 12);
    } else {
      assert FirstDrop(a, b, 13);
    }
  }

  lemma TurnDrops(spec: Spec, s: State, stage: Stage)
    requires TurnOf(spec, s, stage).Some?
    ensures Below(Rank(spec, TurnOf(spec, s, stage).value), Rank(spec, s))
  {
    match stage
    case Fetch => FetchDrops(spec, s);
    case Parse => ParseDrops(spec, s);
    case Normalize => NormalizeDrops(spec, s);
    case Enrich => EnrichDrops(spec, s);
    case Dedup => DedupDrops(spec, s);
    case Persist => PersistDrops(spec, s);
    case Publish => PublishDrops(spec, s);
  }

  lemma UpstreamInterruptDrops(spec: Spec, s: State, stage: Stage, why: Exit, progress: nat)
    requires stage.Fetch? || stage.Parse? || stage.Normalize?
    requires InterruptOf(spec, s, stage, why, progress).Some?
    ensures Below(Rank(spec, InterruptOf(spec, s, stage, why, progress).value), Rank(spec, s))
  {
    var a, b := Rank(spec, InterruptOf(spec, s, stage, why, progress).value), Rank(spec, s);
    if stage.Fetch? {
      assert FirstDrop(a, b, 1);
    } else if stage.Parse? {
      assert FirstDrop(a, b, 3);
    } else {
      assert FirstDrop(a, b, 5);
    }
  }

  lemma MiddleInterruptDrops(spec: Spec, s: State, stage: Stage, why: Exit, progress: nat)
    requires stage.Enrich? || stage.Dedup?
    requires InterruptOf(spec, s, stage, why, progress).Some?
    ensures Below(Rank(spec, InterruptOf(spec, s, stage, why, progress).value), Rank(spec, s))
  {
    var a, b := Rank(spec, InterruptOf(spec, s, stage, why, progress).value), Rank(spec, s);
    assert FirstDrop(a, b, if stage.Enrich? then 7 else 9);
  }

  lemma DownstreamInterruptDrops(spec: Spec, s: State, stage: Stage, why: Exit, progress: nat)
    requires stage.Persist? || stage.Publish?
    requires InterruptOf(spec, s, stage, why, progress).Some?
    ensures Below(Rank(spec, InterruptOf(spec, s, stage, why, progress).value), Rank(spec, s))
  {
    var a, b := Rank(spec, InterruptOf(spec, s, stage, why, progress).value), Rank(spec, s);
    assert FirstDrop(a, b, if stage.Persist? then 11 else 13);
  }

  lemma InterruptDrops(spec: Spec, s: State, stage: Stage, why: Exit, progress: nat)
    requires InterruptOf(spec, s, stage, why, progress).Some?
    ensures Below(Rank(spec, InterruptOf(spec, s, stage, why, progress).value), Rank(spec, s))
  {
    if stage.Fetch? || stage.Parse? || stage.Normalize? {
      UpstreamInterruptDrops(spec, s, stage, why, progress);
    } else if stage.Enrich? || stage.Dedup? {
      MiddleInterruptDrops(spec, s, stage, why, progress);
    } else {
      DownstreamInterruptDrops(spec, s, stage, why, progress);
    }
  }

  /** Every step of every stage, and every failure or cancellation, leaves strictly less to do. */
  lemma StepDrops(spec: Spec, s: State, act: Action)
    requires Next(spec, s, act).Some?
    ensures Below(Rank(spec, Next(spec, s, act).value), Rank(spec, s))
  {
    match act
    case Turn(stage) => TurnDrops(spec, s, stage);
    case Fail(stage, progress) => InterruptDrops(spec, s, stage, Raised, progress);
    case Cancel(stage, progress) => InterruptDrops(spec, s, stage, Cancelled, progress);
    case WindDown =>
      assert FirstDrop(Rank(spec, Next(spec, s, act).value), Rank(spec, s), 0);
  }

  ghost predicate StepsTo(spec: Spec, s: State, t: State) {
    exists act :: Next(spec, s, act) == Some(t)
  }

  lemma StepsToDrops(spec: Spec, s: State, t: State)
    requires StepsTo(spec, s, t)
    ensures Below(Rank(spec, t), Rank(spec, s))
  {
    var act :| Next(spec, s, act) == Some(t);
    StepDrops(spec, s, act);
  }

  /** The lexicographic order is well founded: a sequence of ranks cannot drop for ever. */
  lemma {:induction false} RanksStopDropping(ranks: nat -> seq<nat>, i: nat) returns (gap: nat)
    requires forall j :: |ranks(j)| == 14
    ensures gap >= i && !Below(ranks(gap + 1), ranks(gap))
    decreases ranks(i)[0], ranks(i)[1], ranks(i)[2], ranks(i)[3], ranks(i)[4], ranks(i)[5], ranks(i)[6],
      ranks(i)[7], ranks(i)[8], ranks(i)[9], ranks(i)[10], ranks(i)[11], ranks(i)[12], ranks(i)[13]
  {
    gap := i;
    if Below(ranks(i + 1), ranks(i)) {
      gap := RanksStopDropping(ranks, i + 1);
    }
  }

  /** No run goes on for ever: any infinite sequence of states has a gap that is not a step. */
  lemma NoInfiniteRun(spec: Spec, run: nat -> State) returns (gap: nat)
    ensures !StepsTo(spec, run(gap), run(gap + 1))
  {
    var ranks: nat -> seq<nat> := i => Rank(spec, run(i));
    forall j: nat ensures |ranks(j)| == 14 {
      assert ranks(j) == Rank(spec, run(j));
    }
    gap := RanksStopDropping(ranks, 0);
    if StepsTo(spec, run(gap), run(gap + 1)) {
      StepsToDrops(spec, run(gap), run(gap + 1));
    }
  }

  // ---- A run succeeds exactly when no plugin raises ----

  lemma WorkerStaysHealthy<A, B>(f: A -> Emission<B>, maxsize: int,
                                 inq: Queue<A>, me: Worker<B>, outq: Queue<B>, all: seq<A>)
    requires WorkerInv(f, inq, me, outq) && inq.taken <= all && Clean(f, all)
    requires me.phase.Running? || me.phase.why.Normal?
    requires WorkerTurn(f, maxsize, inq, me, outq).Some?
    ensures var m := WorkerTurn(f, maxsize, inq, me, outq).value; m.me.phase.Running? || m.me.phase.why.Normal?
  {
    CleanPrefix(f, inq.taken, all);
  }

  /** The batch about to be published is the next batch of the meaning. */
  lemma NextBatchAccepted(spec: Spec, s: State)
    requires Inv(spec, s) && Healthy(s) && FaultFree(spec)
    requires s.persist.phase.Running? && s.persist.pc.Flushing?
    ensures spec.accepts(s.persist.batch)
  {
    var m := Max(1, spec.batchSize);
    SeenIsPrefix(spec, s);
    if s.persist.pc.last {
      HealthyReturns(s);
      EndsCascade(spec, s);
      CompleteUpToDedup(spec, s);
      assert s.qDedup.taken + [] == s.qDedup.taken;
    }
    NextChunk(s.persist.stored, s.persist.batch, Meaning(spec), m);
    assert Batches(spec)[|s.persist.stored|] == s.persist.batch;
  }

  lemma UpperWorkersStayHealthy(spec: Spec, s: State, stage: Stage)
    requires Inv(spec, s) && Healthy(s) && FaultFree(spec) && TurnOf(spec, s, stage).Some?
    requires stage.Parse? || stage.Normalize?
    ensures Healthy(TurnOf(spec, s, stage).value)
  {
    HealthyPhases(s);
    InputsArePrefixes(spec, s);
    if stage.Parse? {
      WorkerStaysHealthy(spec.parse, spec.maxsize, s.qRaw, s.parse, s.qRecords, spec.payloads);
    } else {
      WorkerStaysHealthy(Normalizer(spec), spec.maxsize, s.qRecords, s.normalize, s.qIndicators, Parsed(spec));
    }
    HealthyFromPhases(TurnOf(spec, s, stage).value);
  }

  lemma LowerWorkersStayHealthy(spec: Spec, s: State, stage: Stage)
    requires Inv(spec, s) && Healthy(s) && FaultFree(spec) && TurnOf(spec, s, stage).Some?
    requires stage.Enrich? || stage.Dedup?
    ensures Healthy(TurnOf(spec, s, stage).value)
  {
    HealthyPhases(s);
    InputsArePrefixes(spec, s);
    if stage.Enrich? {
      WorkerStaysHealthy(Enricher(spec), spec.maxsize, s.qIndicators, s.enrich, s.qEnriched, Candidates(spec));
    } else {
      DedupIsTransparent(Survivors(spec));
      WorkerStaysHealthy(Deduper(), spec.maxsize, s.qEnriched, s.dedup, s.qDedup, Survivors(spec));
    }
    HealthyFromPhases(TurnOf(spec, s, stage).value);
  }

  /** Once the publish stage has seen the end marker of a healthy run, it has seen the whole meaning. */
  lemma EndedIsMeaning(spec: Spec, s: State)
    requires Inv(spec, s) && Healthy(s) && s.qPersist.ended
    ensures s.qPersist.taken == Meaning(spec)
  {
    HealthyReturns(s);
    EndsCascade(spec, s);
    CompleteUpToDedup(spec, s);
    assert Items(s.qDedup.buf) == [] && s.qDedup.taken == Survivors(spec);
    assert Items(s.qPersist.buf) == [] && s.qPersist.taken == Sent(s.qPersist);
  }

  lemma TakenIsPrefix(spec: Spec, s: State)
    requires Inv(spec, s)
    ensures s.qPersist.taken <= Meaning(spec)
  {
    SeenIsPrefix(spec, s);
    PrefixTransitive(s.qPersist.taken, Sent(s.qPersist), Concat(s.persist.stored));
    PrefixTransitive(s.qPersist.taken, Concat(s.persist.stored), Attach(spec.ctx, s.qDedup.taken));
    PrefixTransitive(s.qPersist.taken, Attach(spec.ctx, s.qDedup.taken), Meaning(spec));
  }

  /** The batch about to be pushed lies within the publisher's plan for the whole meaning. */
  lemma PushWithinMeaning(spec: Spec, s: State, k: nat)
    requires Inv(spec, s) && Healthy(s) && s.publish.phase.Running? && InHand(spec, s.publish) == Some(k)
    ensures k < |spec.publishers|
    ensures WithinPlan(spec.publishers, spec.batchSize, Push(spec.publishers, s.publish.fan, k), Meaning(spec))
  {
    if s.publish.pc.Pushing? {
      TakenIsPrefix(spec, s);
      PushingWithinPlan(spec, s.publish, k, s.qPersist.taken, Meaning(spec));
    } else {
      EndedIsMeaning(spec, s);
      PushPlanned(spec, s.qPersist.taken, s.publish, k);
    }
  }

  lemma PushingWithinPlan(spec: Spec, me: Publisher, k: nat, taken: seq<Sighting>, all: seq<Sighting>)
    requires PublishPcInv(spec, taken, me) && me.pc.Pushing? && InHand(spec, me) == Some(k) && taken <= all
    ensures k < |spec.publishers| && WithinPlan(spec.publishers, spec.batchSize, Push(spec.publishers, me.fan, k), all)
  {
    MidFanWithinPlan(spec.publishers, spec.batchSize, Push(spec.publishers, me.fan, k), k + 1, me.pc.x, taken, all);
  }

  lemma NextPushTaken(spec: Spec, s: State, k: nat)
    requires Inv(spec, s) && Healthy(s) && AllTaken(spec)
    requires s.publish.phase.Running? && InHand(spec, s.publish) == Some(k)
    ensures k < |spec.publishers| && spec.push(k, BufOf(s.publish.fan, spec.publishers[k])).Taken?
  {
    PushWithinMeaning(spec, s, k);
    NextIsTaken(spec, s.publish.fan, k);
  }

  lemma NextIsTaken(spec: Spec, fan: Fanout<Sighting>, k: nat)
    requires AllTaken(spec) && k < |spec.publishers|
    requires WithinPlan(spec.publishers, spec.batchSize, Push(spec.publishers, fan, k), Meaning(spec))
    ensures spec.push(k, BufOf(fan, spec.publishers[k])).Taken?
  {
    NextOfPlan(spec.publishers, spec.batchSize, fan, k, Meaning(spec));
    assert Delivers(spec)(k, BufOf(fan, spec.publishers[k]));
  }

  /** Only a plugin that raises can make a stage end in an exception. */
  lemma FaultFreeStaysHealthy(spec: Spec, s: State, stage: Stage)
    requires Inv(spec, s) && Healthy(s) && FaultFree(spec) && TurnOf(spec, s, stage).Some?
    ensures Healthy(TurnOf(spec, s, stage).value)
  {
    match stage
    case Fetch => FetchStaysHealthy(spec, s);
    case Persist =>
      if s.persist.phase.Running? && s.persist.pc.Flushing? {
        NextBatchAccepted(spec, s);
      }
      PersistStaysHealthy(spec, s);
    case Publish =>
      if s.publish.phase.Running? {
        if k :| InHand(spec, s.publish) == Some(k) {
          NextPushTaken(spec, s, k);
        }
      }
      PublishStaysHealthy(spec, s);
    case Parse | Normalize => UpperWorkersStayHealthy(spec, s, stage);
    case Enrich | Dedup => LowerWorkersStayHealthy(spec, s, stage);
  }

  lemma FetchStaysHealthy(spec: Spec, s: State)
    requires Healthy(s) && !spec.fetchRaises && TurnOf(spec, s, Fetch).Some?
    ensures Healthy(TurnOf(spec, s, Fetch).value)
  {
    HealthyPhases(s);
    HealthyFromPhases(TurnOf(spec, s, Fetch).value);
  }

  lemma PersistStaysHealthy(spec: Spec, s: State)
    requires Healthy(s) && TurnOf(spec, s, Persist).Some?
    requires s.persist.phase.Running? && s.persist.pc.Flushing? ==> spec.accepts(s.persist.batch)
    ensures Healthy(TurnOf(spec, s, Persist).value)
  {
    HealthyPhases(s);
    HealthyFromPhases(TurnOf(spec, s, Persist).value);
  }

  lemma PublishStaysHealthy(spec: Spec, s: State)
    requires Healthy(s) && TurnOf(spec, s, Publish).Some?
    requires forall k: nat :: s.publish.phase.Running? && InHand(spec, s.publish) == Some(k) ==>
      k < |spec.publishers| && spec.push(k, BufOf(s.publish.fan, spec.publishers[k])).Taken?
    ensures Healthy(TurnOf(spec, s, Publish).value)
  {
    HealthyPhases(s);
    PushedStaysRunning(spec, s.qPersist, s.publish);
    HealthyFromPhases(TurnOf(spec, s, Publish).value);
  }

  lemma PushedStaysRunning(spec: Spec, inq: Queue<Sighting>, me: Publisher)
    requires me.phase.Running? && PublishTurn(spec, inq, me).Some?
    requires forall k: nat :: InHand(spec, me) == Some(k) ==>
      k < |spec.publishers| && spec.push(k, BufOf(me.fan, spec.publishers[k])).Taken?
    ensures var m := PublishTurn(spec, inq, me).value.1; m.phase.Running? || m.phase.why.Normal?
  {
    match me.pc
    case Pushing(_, k) =>
      if k < |spec.publishers| { assert InHand(spec, me) == Some(k); }
    case Final(k) =>
      if k < |spec.publishers| && BufOf(me.fan, spec.publishers[k]) != [] { assert InHand(spec, me) == Some(k); }
    case _ =>
  }

  lemma HealthyFromPhases(s: State)
    requires s.fetch.phase.Running? || s.fetch.phase.why.Normal?
    requires s.parse.phase.Running? || s.parse.phase.why.Normal?
    requires s.normalize.phase.Running? || s.normalize.phase.why.Normal?
    requires s.enrich.phase.Running? || s.enrich.phase.why.Normal?
    requires s.dedup.phase.Running? || s.dedup.phase.why.Normal?
    requires s.persist.phase.Running? || s.persist.phase.why.Normal?
    requires s.publish.phase.Running? || s.publish.phase.why.Normal?
    ensures Healthy(s)
  {
  }

  /**
   * `Pipeline.run` without outside interference, under any scheduler: `prefer` names the stage to
   * run next, and a stage that has to wait is passed over. It always returns; it succeeds if and
   * only if no plugin raises; and then everything has been stored and published.
   */
  method RunPipeline(spec: Spec, prefer: State -> Stage) returns (s: State, ok: bool)
    ensures Reachable(spec, s)
    ensures ok <==> FaultFree(spec)
    ensures ok ==> AllStopped(s) && s.persist.stored == Batches(spec)
    ensures ok && Unshared(spec.publishers, spec.batchSize) ==>
      forall k :: 0 <= k < |spec.publishers| ==>
        HandedTo(s.publish.fan, k) == Batches(spec)
    ensures !ok ==> Concat(s.persist.stored) <= Meaning(spec)
  {
    s := Init();
    ghost var actions: seq<Action> := [];
    while Healthy(s) && !AllStopped(s)
      invariant Run(spec, actions) == Some(s)
      invariant FaultFree(spec) ==> Healthy(s)
      decreases Rank(spec, s)[0], Rank(spec, s)[1], Rank(spec, s)[2], Rank(spec, s)[3], Rank(spec, s)[4],
        Rank(spec, s)[5], Rank(spec, s)[6], Rank(spec, s)[7], Rank(spec, s)[8], Rank(spec, s)[9],
        Rank(spec, s)[10], Rank(spec, s)[11], Rank(spec, s)[12], Rank(spec, s)[13]
    {
      var stage := PickStage(spec, s, prefer(s));
      TakenTurn(spec, actions, s, stage);
      actions := actions + [Turn(stage)];
      s := TurnOf(spec, s, stage).value;
    }
    ok := Healthy(s);
    if ok {
      SuccessIsComplete(spec, s);
    } else {
      DurabilityFence(spec, s, 0);
    }
  }

  lemma TakenTurn(spec: Spec, actions: seq<Action>, s: State, stage: Stage)
    requires Run(spec, actions) == Some(s) && TurnOf(spec, s, stage).Some?
    ensures var t := TurnOf(spec, s, stage).value;
      && Run(spec, actions + [Turn(stage)]) == Some(t)
      && (FaultFree(spec) && Healthy(s) ==> Healthy(t))
      && Below(Rank(spec, t), Rank(spec, s))
  {
    assert (actions + [Turn(stage)])[..|actions|] == actions;
    RunKeeps(spec, actions);
    TurnDrops(spec, s, stage);
    if FaultFree(spec) && Healthy(s) {
      FaultFreeStaysHealthy(spec, s, stage);
    }
  }

  // ---- The same for runs as sequences of actions ----

  lemma StageToMove(spec: Spec, actions: seq<Action>, s: State) returns (stage: Stage)
    requires Run(spec, actions) == Some(s) && Healthy(s) && !AllStopped(s)
    ensures TurnOf(spec, s, stage).Some?
  {
    RunKeeps(spec, actions);
    HealthyReturns(s);
    stage := SomeStageMoves(spec, s);
  }

  /** From any healthy state of a run without faults some continuation finishes. */
  lemma FinishFrom(spec: Spec, actions: seq<Action>, s: State) returns (t: State)
    requires Run(spec, actions) == Some(s) && Healthy(s) && FaultFree(spec)
    ensures Reachable(spec, t) && AllStopped(t) && Healthy(t)
  {
    t := s;
    var taken := actions;
    while !AllStopped(t)
      invariant Run(spec, taken) == Some(t) && Healthy(t)
      decreases Rank(spec, t)[0], Rank(spec, t)[1], Rank(spec, t)[2], Rank(spec, t)[3], Rank(spec, t)[4],
        Rank(spec, t)[5], Rank(spec, t)[6], Rank(spec, t)[7], Rank(spec, t)[8], Rank(spec, t)[9],
        Rank(spec, t)[10], Rank(spec, t)[11], Rank(spec, t)[12], Rank(spec, t)[13]
    {
      var stage := StageToMove(spec, taken, t);
      TakenTurn(spec, taken, t, stage);
      taken := taken + [Turn(stage)];
      t := TurnOf(spec, t, stage).value;
    }
  }

  /** Some run succeeds if and only if no plugin raises. */
  lemma SuccessIffFaultFree(spec: Spec)
    ensures (exists s :: Reachable(spec, s) && AllStopped(s) && Healthy(s)) <==> FaultFree(spec)
  {
    if FaultFree(spec) {
      var t := FinishFrom(spec, [], Init());
    }
    if s :| Reachable(spec, s) && AllStopped(s) && Healthy(s) {
      SuccessIsComplete(spec, s);
    }
  }

  predicate OnlyTurns(actions: seq<Action>) {
    forall i :: 0 <= i < |actions| ==> actions[i].Turn?
  }

  lemma {:induction false} TurnsStayHealthy(spec: Spec, actions: seq<Action>)
    requires FaultFree(spec) && OnlyTurns(actions) && Run(spec, actions).Some?
    ensures Healthy(Run(spec, actions).value)
  {
    if actions != [] {
      var n := |actions| - 1;
      TurnsStayHealthy(spec, actions[..n]);
      RunKeeps(spec, actions[..n]);
      FaultFreeStaysHealthy(spec, Run(spec, actions[..n]).value, actions[n].stage);
    }
  }

  /** And then every run that nobody interferes with and that cannot go on has succeeded. */
  lemma MaximalRunSucceeds(spec: Spec, actions: seq<Action>, s: State)
    requires FaultFree(spec) && OnlyTurns(actions) && Run(spec, actions) == Some(s)
    requires forall stage: Stage :: TurnOf(spec, s, stage).None?
    ensures AllStopped(s) && Healthy(s)
  {
    TurnsStayHealthy(spec, actions);
    RunKeeps(spec, actions);
    if !AllStopped(s) {
      HealthyReturns(s);
      var stage := SomeStageMoves(spec, s);
    }
  }

  /** The preferred stage, or else the first one that can move. */
  method PickStage(spec: Spec, s: State, preferred: Stage) returns (stage: Stage)
    requires Reachable(spec, s) && Healthy(s) && !AllStopped(s)
    ensures TurnOf(spec, s, stage).Some?
    ensures TurnOf(spec, s, preferred).Some? ==> stage == preferred
  {
    if TurnOf(spec, s, preferred).Some? { return preferred; }
    if TurnOf(spec, s, Fetch).Some? { return Fetch; }
    if TurnOf(spec, s, Parse).Some? { return Parse; }
    if TurnOf(spec, s, Normalize).Some? { return Normalize; }
    if TurnOf(spec, s, Enrich).Some? { return Enrich; }
    if TurnOf(spec, s, Dedup).Some? { return Dedup; }
    if TurnOf(spec, s, Persist).Some? { return Persist; }
    stage := Publish;
    SomeoneElseMoves(spec, s);
  }

  lemma SomeoneElseMoves(spec: Spec, s: State)
    requires Reachable(spec, s) && Healthy(s) && !AllStopped(s)
    ensures TurnOf(spec, s, Fetch).Some? || TurnOf(spec, s, Parse).Some? || TurnOf(spec, s, Normalize).Some?
      || TurnOf(spec, s, Enrich).Some? || TurnOf(spec, s, Dedup).Some? || TurnOf(spec, s, Persist).Some?
      || TurnOf(spec, s, Publish).Some?
  {
    ReachableInv(spec, s);
    HealthyReturns(s);
    var stage := SomeStageMoves(spec, s);
  }
}
