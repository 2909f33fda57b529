/** Whole-run safety: what is stored and published, against the sequential meaning of the run. */
module PipelineMeaning {
  import opened Sequences
  import opened Models
  import opened StageQueues
  import opened PublishStage
  import opened PipelineMachine
  import opened PipelineSafety

  // ---- The seven stages together mean one sequential program ----

  lemma {:induction false} OutputsAppend<A, B>(f: A -> Emission<B>, xs: seq<A>, ys: seq<A>)
    ensures Outputs(f, xs + ys) == Outputs(f, xs) + Outputs(f, ys)
    decreases |ys|
  {
    if ys == [] {
      assert xs + ys == xs;
    } else {
      var init, y := ys[..|ys| - 1], ys[|ys| - 1];
      assert xs + ys == (xs + init) + [y] && ys == init + [y];
      OutputsAppend(f, xs, init);
      OutputsSnoc(f, xs + init, y);
      OutputsSnoc(f, init, y);
    }
  }

  lemma {:induction false} DedupIsTransparent(cs: seq<Candidate>)
    ensures Outputs(Deduper(), cs) == cs && Clean(Deduper(), cs)
  {
    if cs != [] {
      var init, c := cs[..|cs| - 1], cs[|cs| - 1];
      assert cs == init + [c];
      DedupIsTransparent(init);
      OutputsSnoc(Deduper(), init, c);
      assert Deduper()(c) == Emission([c], false);
    }
  }

  lemma AttachAppend(ctx: RunContext, a: seq<Candidate>, b: seq<Candidate>)
    ensures Attach(ctx, a + b) == Attach(ctx, a) + Attach(ctx, b)
  {
  }

  lemma IngestIsStages(spec: Spec, r: Record)
    ensures Ingest(spec, r) == Attach(spec.ctx, Outputs(Enricher(spec), NormalizeOne(spec, r).items))
  {
    match spec.normalize(r)
    case Skip =>
    case Reject =>
    case Crash =>
    case Emit(ind) =>
      assert [(ind, r)] == [] + [(ind, r)];
      OutputsSnoc(Enricher(spec), [], (ind, r));
      assert Outputs(Enricher(spec), [(ind, r)]) == EnrichOne(spec, (ind, r)).items;
  }

  lemma {:induction false} IngestAllIsStages(spec: Spec, rs: seq<Record>)
    ensures IngestAll(spec, rs) == Attach(spec.ctx, Outputs(Enricher(spec), Outputs(Normalizer(spec), rs)))
  {
    if rs != [] {
      var init, r := rs[..|rs| - 1], rs[|rs| - 1];
      var before := Outputs(Normalizer(spec), init);
      IngestAllIsStages(spec, init);
      IngestIsStages(spec, r);
      OutputsAppend(Enricher(spec), before, NormalizeOne(spec, r).items);
      AttachAppend(spec.ctx, Outputs(Enricher(spec), before), Outputs(Enricher(spec), NormalizeOne(spec, r).items));
    }
  }

  lemma {:induction false} SequentialIsStages(spec: Spec, payloads: seq<RawPayload>)
    ensures Sequential(spec, payloads)
      == Attach(spec.ctx, Outputs(Enricher(spec), Outputs(Normalizer(spec), Outputs(spec.parse, payloads))))
  {
    if payloads != [] {
      var init := payloads[..|payloads| - 1];
      var records, more := Outputs(spec.parse, init), spec.parse(payloads[|payloads| - 1]).items;
      SequentialIsStages(spec, init);
      IngestAllIsStages(spec, more);
      OutputsAppend(Normalizer(spec), records, more);
      OutputsAppend(Enricher(spec), Outputs(Normalizer(spec), records), Outputs(Normalizer(spec), more));
      AttachAppend(spec.ctx, Outputs(Enricher(spec), Outputs(Normalizer(spec), records)),
                   Outputs(Enricher(spec), Outputs(Normalizer(spec), more)));
    }
  }

  lemma AttachPrefix(ctx: RunContext, a: seq<Candidate>, b: seq<Candidate>)
    requires a <= b
    ensures Attach(ctx, a) <= Attach(ctx, b)
  {
    assert Attach(ctx, a) == Attach(ctx, b)[..|a|];
  }

  // ---- Prefixes, in every reachable state ----

  lemma WorkerChain<A, B>(f: A -> Emission<B>, inq: Queue<A>, me: Worker<B>, outq: Queue<B>, all: seq<A>)
    requires WorkerInv(f, inq, me, outq) && inq.taken <= all
    ensures outq.taken <= Outputs(f, all)
  {
    OutputsPrefix(f, inq.taken, all);
    PrefixTransitive(Sent(outq), Outputs(f, inq.taken), Outputs(f, all));
    PrefixTransitive(outq.taken, Sent(outq), Outputs(f, all));
  }

  /** No stage ever sees anything but a prefix of the stream it would see in a complete run. */
  lemma InputsArePrefixes(spec: Spec, s: State)
    requires Inv(spec, s)
    ensures s.qRaw.taken <= spec.payloads && s.qRecords.taken <= Parsed(spec)
    ensures s.qIndicators.taken <= Candidates(spec) && s.qEnriched.taken <= Survivors(spec)
    ensures s.qDedup.taken <= Survivors(spec)
  {
    PrefixTransitive(s.qRaw.taken, Sent(s.qRaw), spec.payloads);
    WorkerChain(spec.parse, s.qRaw, s.parse, s.qRecords, spec.payloads);
    WorkerChain(Normalizer(spec), s.qRecords, s.normalize, s.qIndicators, Parsed(spec));
    WorkerChain(Enricher(spec), s.qIndicators, s.enrich, s.qEnriched, Candidates(spec));
    WorkerChain(Deduper(), s.qEnriched, s.dedup, s.qDedup, Survivors(spec));
    DedupIsTransparent(Survivors(spec));
  }

  lemma SeenIsPrefix(spec: Spec, s: State)
    requires Inv(spec, s)
    ensures Attach(spec.ctx, s.qDedup.taken) <= Meaning(spec)
  {
    InputsArePrefixes(spec, s);
    AttachPrefix(spec.ctx, s.qDedup.taken, Survivors(spec));
    SequentialIsStages(spec, spec.payloads);
  }

  /**
   * Durability fence. At every step of every run, under any interleaving and any failures: what a
   * publisher has been handed is a prefix of what was forwarded, which is a prefix of what is
   * durably stored, which is a prefix of the sequential meaning.
   */
  lemma DurabilityFence(spec: Spec, s: State, k: nat)
    requires Reachable(spec, s)
    ensures s.qPersist.taken <= Sent(s.qPersist) <= Concat(s.persist.stored) <= Meaning(spec)
    ensures k < |spec.publishers| && Unshared(spec.publishers, spec.batchSize) ==>
      Received(s.publish.fan, k) <= s.qPersist.taken
    ensures Chunked(s.persist.stored, Max(1, spec.batchSize), true)
  {
    ReachableInv(spec, s);
    SeenIsPrefix(spec, s);
    PrefixTransitive(Concat(s.persist.stored), Attach(spec.ctx, s.qDedup.taken), Meaning(spec));
    if k < |spec.publishers| && Unshared(spec.publishers, spec.batchSize) {
      ReceivedIsPrefix(spec, s, k);
    }
  }

  lemma {:induction false} ConcatPrefix<T>(a: seq<seq<T>>, b: seq<seq<T>>)
    requires a <= b
    ensures Concat(a) <= Concat(b)
  {
    assert b == a + b[|a|..];
    ConcatAppend(a, b[|a|..]);
  }

  lemma PlanIsStream(spec: Spec, xs: seq<Sighting>, k: nat)
    requires k < |spec.publishers| && Unshared(spec.publishers, spec.batchSize)
    ensures Concat(Plan(spec.publishers, spec.batchSize, xs, k)) == xs
  {
    PublishedIsComplete(spec.publishers, spec.batchSize, xs, k);
    ChunksAreChunked(xs, Max(1, spec.batchSize));
  }

  /** What publisher k has taken, and the batch it may have been sending when the stage stopped. */
  lemma ReceivedIsPrefix(spec: Spec, s: State, k: nat)
    requires Inv(spec, s) && k < |spec.publishers| && Unshared(spec.publishers, spec.batchSize)
    ensures Received(s.publish.fan, k) <= s.qPersist.taken
    ensures s.publish.torn.Some? && s.publish.torn.value.k == k ==>
      Received(s.publish.fan, k) + s.publish.torn.value.batch <= s.qPersist.taken
  {
    var taken, me := s.qPersist.taken, s.publish;
    if me.phase.Running? {
      AlwaysWithinPlan(spec, taken, me);
    }
    PlanIsStream(spec, taken, k);
    ConcatPrefix(HandedTo(me.fan, k), Plan(spec.publishers, spec.batchSize, taken, k));
    if me.torn.Some? && me.torn.value.k == k {
      ConcatSnoc(HandedTo(me.fan, k), me.torn.value.batch);
      ConcatPrefix(HandedTo(me.fan, k) + [me.torn.value.batch], Plan(spec.publishers, spec.batchSize, taken, k));
    }
  }

  /** When no buffer is shared, every publisher's plan is the reference cut of the meaning. */
  lemma AllTakenIsPerChunk(spec: Spec)
    requires Unshared(spec.publishers, spec.batchSize)
    ensures AllTaken(spec) <==>
      forall k: nat, batch :: k < |spec.publishers| && batch in Batches(spec) ==>
        spec.push(k, batch).Taken?
  {
    forall k: nat | k < |spec.publishers|
      ensures Plan(spec.publishers, spec.batchSize, Meaning(spec), k) == Batches(spec)
    {
      PublishedIsComplete(spec.publishers, spec.batchSize, Meaning(spec), k);
    }
    if AllTaken(spec) {
      forall k: nat, batch | k < |spec.publishers| && batch in Batches(spec)
        ensures spec.push(k, batch).Taken?
      {
        assert Delivers(spec)(k, batch);
      }
    }
  }

  /** Once the end marker is in, nothing more is put. */
  ghost predicate Frozen<T>(q: Queue<T>, r: Queue<T>) {
    Delivered(q) ==> Delivered(r) && Sent(r) == Sent(q)
  }

  lemma WorkerFreezes<A, B>(f: A -> Emission<B>, maxsize: int, why: Exit, inq: Queue<A>, me: Worker<B>, outq: Queue<B>)
    requires WellFormed(inq) && WellFormed(outq) && WorkerInv(f, inq, me, outq)
    ensures var m := WorkerTurn(f, maxsize, inq, me, outq);
      m.Some? ==> Frozen(inq, m.value.inq) && Frozen(outq, m.value.outq)
    ensures var m := WorkerInterrupt(why, inq, me, outq); m.Some? ==> Frozen(outq, m.value.outq)
  {
  }

  lemma PersistFreezes(spec: Spec, why: Exit, committed: bool,
                       inq: Queue<Candidate>, me: Persister, outq: Queue<Sighting>)
    requires WellFormed(inq) && WellFormed(outq) && PersistInv(spec, inq, me, outq)
    ensures var m := PersistTurn(spec, inq, me, outq);
      m.Some? ==> Frozen(inq, m.value.inq) && Frozen(outq, m.value.outq)
    ensures var m := PersistInterrupt(spec, why, committed, inq, me, outq);
      m.Some? ==> m.value.inq == inq && Frozen(outq, m.value.outq)
  {
  }

  ghost predicate AllFrozen(s: State, t: State) {
    && Frozen(s.qRaw, t.qRaw) && Frozen(s.qRecords, t.qRecords) && Frozen(s.qIndicators, t.qIndicators)
    && Frozen(s.qEnriched, t.qEnriched) && Frozen(s.qDedup, t.qDedup) && Frozen(s.qPersist, t.qPersist)
  }

  lemma UpstreamFreezes(spec: Spec, s: State, stage: Stage)
    requires Inv(spec, s) && TurnOf(spec, s, stage).Some?
    requires stage.Fetch? || stage.Parse? || stage.Normalize?
    ensures AllFrozen(s, TurnOf(spec, s, stage).value)
  {
    if stage.Parse? {
      WorkerFreezes(spec.parse, spec.maxsize, Raised, s.qRaw, s.parse, s.qRecords);
    } else if stage.Normalize? {
      WorkerFreezes(Normalizer(spec), spec.maxsize, Raised, s.qRecords, s.normalize, s.qIndicators);
    }
  }

  lemma DownstreamFreezes(spec: Spec, s: State, stage: Stage)
    requires Inv(spec, s) && TurnOf(spec, s, stage).Some?
    requires stage.Enrich? || stage.Dedup? || stage.Persist? || stage.Publish?
    ensures AllFrozen(s, TurnOf(spec, s, stage).value)
  {
    if stage.Enrich? {
      WorkerFreezes(Enricher(spec), spec.maxsize, Raised, s.qIndicators, s.enrich, s.qEnriched);
    } else if stage.Dedup? {
      WorkerFreezes(Deduper(), spec.maxsize, Raised, s.qEnriched, s.dedup, s.qDedup);
    } else {
      SinkFreezes(spec, s, stage);
    }
  }

  lemma SinkFreezes(spec: Spec, s: State, stage: Stage)
    requires Inv(spec, s) && TurnOf(spec, s, stage).Some? && (stage.Persist? || stage.Publish?)
    ensures AllFrozen(s, TurnOf(spec, s, stage).value)
  {
    if stage.Persist? {
      PersistFreezes(spec, Raised, false, s.qDedup, s.persist, s.qPersist);
    } else {
      PublishFreezes(spec, s.qPersist, s.publish);
    }
  }

  lemma PublishFreezes(spec: Spec, inq: Queue<Sighting>, me: Publisher)
    requires WellFormed(inq) && PublishTurn(spec, inq, me).Some?
    ensures Frozen(inq, PublishTurn(spec, inq, me).value.0)
  {
  }

  lemma TurnFreezes(spec: Spec, s: State, stage: Stage)
    requires Inv(spec, s) && TurnOf(spec, s, stage).Some?
    ensures AllFrozen(s, TurnOf(spec, s, stage).value)
  {
    if stage.Fetch? || stage.Parse? || stage.Normalize? {
      UpstreamFreezes(spec, s, stage);
    } else {
      DownstreamFreezes(spec, s, stage);
    }
  }

  lemma InterruptFreezes(spec: Spec, s: State, stage: Stage, why: Exit, progress: nat)
    requires Inv(spec, s) && InterruptOf(spec, s, stage, why, progress).Some?
    ensures AllFrozen(s, InterruptOf(spec, s, stage, why, progress).value)
  {
    match stage
    case Fetch =>
    case Parse => WorkerFreezes(spec.parse, spec.maxsize, why, s.qRaw, s.parse, s.qRecords);
    case Normalize => WorkerFreezes(Normalizer(spec), spec.maxsize, why, s.qRecords, s.normalize, s.qIndicators);
    case Enrich => WorkerFreezes(Enricher(spec), spec.maxsize, why, s.qIndicators, s.enrich, s.qEnriched);
    case Dedup => WorkerFreezes(Deduper(), spec.maxsize, why, s.qEnriched, s.dedup, s.qDedup);
    case Persist => PersistFreezes(spec, why, progress > 0, s.qDedup, s.persist, s.qPersist);
    case Publish =>
  }

  /** Each queue carries at most one end marker, at its very end, and nothing is ever put behind it. */
  lemma OneEndMarker(spec: Spec, s: State, act: Action)
    requires Reachable(spec, s) && Next(spec, s, act).Some?
    ensures QueuesWellFormed(s) && AllFrozen(s, Next(spec, s, act).value)
  {
    ReachableInv(spec, s);
    match act
    case Turn(stage) => TurnFreezes(spec, s, stage);
    case Fail(stage, progress) => InterruptFreezes(spec, s, stage, Raised, progress);
    case Cancel(stage, progress) => InterruptFreezes(spec, s, stage, Cancelled, progress);
    case WindDown =>
  }

  // ---- Runs that end well ----

  /** A stage that ended normally has been fed by a stage that ended normally. */
  lemma WorkerComplete<A, B>(f: A -> Emission<B>, inq: Queue<A>, me: Worker<B>, outq: Queue<B>, all: seq<A>)
    requires WellFormed(inq) && WorkerInv(f, inq, me, outq) && me.phase == Stopped(Normal) && Sent(inq) == all
    ensures Sent(outq) == Outputs(f, all) && Clean(f, all) && inq.taken == all && Delivered(inq)
  {
    assert inq.taken + [] == inq.taken;
  }

  lemma CompleteUpToDedup(spec: Spec, s: State)
    requires Inv(spec, s) && s.fetch.phase == Stopped(Normal) && s.parse.phase == Stopped(Normal)
    requires s.normalize.phase == Stopped(Normal) && s.enrich.phase == Stopped(Normal)
    requires s.dedup.phase == Stopped(Normal)
    ensures Sent(s.qDedup) == Survivors(spec) && Attach(spec.ctx, Survivors(spec)) == Meaning(spec)
    ensures !spec.fetchRaises && Clean(spec.parse, spec.payloads)
    ensures Clean(Normalizer(spec), Parsed(spec)) && Clean(Enricher(spec), Candidates(spec))
  {
    assert Sent(s.qRaw) == spec.payloads;
    WorkerComplete(spec.parse, s.qRaw, s.parse, s.qRecords, spec.payloads);
    WorkerComplete(Normalizer(spec), s.qRecords, s.normalize, s.qIndicators, Parsed(spec));
    WorkerComplete(Enricher(spec), s.qIndicators, s.enrich, s.qEnriched, Candidates(spec));
    WorkerComplete(Deduper(), s.qEnriched, s.dedup, s.qDedup, Survivors(spec));
    DedupIsTransparent(Survivors(spec));
    SequentialIsStages(spec, spec.payloads);
  }

  lemma AllNormal(s: State)
    requires AllStopped(s) && Healthy(s)
    ensures s.fetch.phase == s.parse.phase == s.normalize.phase == s.enrich.phase == Stopped(Normal)
    ensures s.dedup.phase == s.persist.phase == s.publish.phase == Stopped(Normal)
  {
    forall stage: Stage ensures PhaseOf(s, stage) == Stopped(Normal) {}
    assert PhaseOf(s, Fetch) == PhaseOf(s, Parse) == PhaseOf(s, Normalize) == PhaseOf(s, Enrich) == Stopped(Normal);
    assert PhaseOf(s, Dedup) == PhaseOf(s, Persist) == PhaseOf(s, Publish) == Stopped(Normal);
  }

  /**
   * A run whose seven stages all ended normally has stored the whole meaning, in the reference
   * batches, and its publishers have taken their whole plans; and nothing in its configuration raises.
   */
  lemma SuccessIsComplete(spec: Spec, s: State)
    requires Reachable(spec, s) && AllStopped(s) && Healthy(s)
    ensures s.persist.stored == Batches(spec)
    ensures Concat(s.persist.stored) == Meaning(spec) == Sent(s.qPersist)
    ensures s.publish.fan == Published(spec.publishers, spec.batchSize, Meaning(spec)) && s.publish.torn.None?
    ensures Unshared(spec.publishers, spec.batchSize) ==>
      forall k :: 0 <= k < |spec.publishers| ==>
        HandedTo(s.publish.fan, k) == Batches(spec)
    ensures FaultFree(spec)
  {
    ReachableInv(spec, s);
    var m := Max(1, spec.batchSize);
    AllNormal(s);
    CompleteUpToDedup(spec, s);
    assert Items(s.qDedup.buf) == [] && s.qDedup.taken == Survivors(spec);
    ChunkedIsChunks(s.persist.stored, m);
    assert Items(s.qPersist.buf) == [] && s.qPersist.taken == Meaning(spec);
    if Unshared(spec.publishers, spec.batchSize) {
      forall k | 0 <= k < |spec.publishers| ensures HandedTo(s.publish.fan, k) == Chunks(Meaning(spec), m) {
        PublishedIsComplete(spec.publishers, spec.batchSize, Meaning(spec), k);
      }
    }
  }
}
