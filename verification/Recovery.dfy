/** Crash and replay: the durability fence and the idempotent store together. */
module Recovery {
  import opened Sequences
  import opened Models
  import opened PipelineMachine
  import opened PipelineSafety
  import opened PipelineMeaning
  import opened PipelineProgress
  import opened IndicatorStore

  /** The canonical publisher is Postgres: a batch that names a row twice is refused. */
  ghost predicate RefusesRepeatedRows(spec: Spec) {
    forall batch: seq<Sighting> :: spec.accepts(batch) ==> DistinctIds(batch)
  }

  lemma StoredIsUpserts(spec: Spec, s: State, t: Table)
    requires RefusesRepeatedRows(spec) && Reachable(spec, s)
    ensures StoreAll(t, s.persist.stored) == UpsertAll(t, Indicators(Concat(s.persist.stored)))
    ensures Indicators(Concat(s.persist.stored)) <= Indicators(Meaning(spec))
  {
    ReachableInv(spec, s);
    BatchingIsIrrelevant(t, s.persist.stored);
    DurabilityFence(spec, s, 0);
    assert Indicators(Concat(s.persist.stored)) == Indicators(Meaning(spec))[..|Concat(s.persist.stored)|];
  }

  // ---- Runs of one feed at different times ----

  /** Normalization at two times: the same answer, up to the times it stamps. */
  predicate SameAnswer(a: Normalized, b: Normalized) {
    match (a, b)
    case (Emit(x), Emit(y)) => Untimed(x) == Untimed(y)
    case _ => a == b
  }

  predicate SameEnriched(a: Enriched, b: Enriched) {
    match (a, b)
    case (Keep(x), Keep(y)) => Untimed(x) == Untimed(y)
    case _ => a == b
  }

  /** An enricher that pays no attention to the times. */
  ghost predicate SameEnricher(e: Indicator -> Enriched, f: Indicator -> Enriched) {
    forall x, y :: Untimed(x) == Untimed(y) ==> SameEnriched(e(x), f(y))
  }

  /**
   * Two runs of the same feed: the same payloads and plugins, each run with a clock, a run id, a
   * publisher verdict and sizes of its own.
   */
  ghost predicate SameFeed(a: Spec, b: Spec) {
    && a.payloads == b.payloads && a.parse == b.parse
    && (forall r: Record :: SameAnswer(a.normalize(r), b.normalize(r)))
    && |a.enrichers| == |b.enrichers|
    && forall i :: 0 <= i < |a.enrichers| ==> SameEnricher(a.enrichers[i], b.enrichers[i])
  }

  lemma {:induction false} SameChain(es: seq<Indicator -> Enriched>, fs: seq<Indicator -> Enriched>,
                                     x: Indicator, y: Indicator)
    requires |es| == |fs| && forall i :: 0 <= i < |es| ==> SameEnricher(es[i], fs[i])
    requires Untimed(x) == Untimed(y)
    ensures SameEnriched(Chain(es, x), Chain(fs, y))
  {
    if es != [] {
      assert SameEnricher(es[0], fs[0]);
      if es[0](x).Keep? {
        SameChain(es[1..], fs[1..], es[0](x).indicator, fs[0](y).indicator);
      }
    }
  }

  lemma UntimedAppend(a: seq<Sighting>, b: seq<Sighting>)
    ensures UntimedAll(Indicators(a + b)) == UntimedAll(Indicators(a)) + UntimedAll(Indicators(b))
  {
  }

  lemma SameIngest(a: Spec, b: Spec, r: Record)
    requires SameFeed(a, b)
    ensures UntimedAll(Indicators(Ingest(a, r))) == UntimedAll(Indicators(Ingest(b, r)))
  {
    assert SameAnswer(a.normalize(r), b.normalize(r));
    if a.normalize(r).Emit? {
      SameChain(a.enrichers, b.enrichers, a.normalize(r).indicator, b.normalize(r).indicator);
    }
  }

  lemma {:induction false} SameIngestAll(a: Spec, b: Spec, rs: seq<Record>)
    requires SameFeed(a, b)
    ensures UntimedAll(Indicators(IngestAll(a, rs))) == UntimedAll(Indicators(IngestAll(b, rs)))
  {
    if rs != [] {
      var init, r := rs[..|rs| - 1], rs[|rs| - 1];
      SameIngestAll(a, b, init);
      SameIngest(a, b, r);
      UntimedAppend(IngestAll(a, init), Ingest(a, r));
      UntimedAppend(IngestAll(b, init), Ingest(b, r));
    }
  }

  /** Runs of the same feed mean the same indicators, up to their times. */
  lemma {:induction false} SameFeedSameStream(a: Spec, b: Spec, payloads: seq<RawPayload>)
    requires SameFeed(a, b)
    ensures UntimedAll(Indicators(Sequential(a, payloads))) == UntimedAll(Indicators(Sequential(b, payloads)))
  {
    if payloads != [] {
      var init, p := payloads[..|payloads| - 1], payloads[|payloads| - 1];
      SameFeedSameStream(a, b, init);
      SameIngestAll(a, b, a.parse(p).items);
      UntimedAppend(Sequential(a, init), IngestAll(a, a.parse(p).items));
      UntimedAppend(Sequential(b, init), IngestAll(b, b.parse(p).items));
    }
  }

  // ---- Crash recovery ----

  /** One run: what it was configured with and the state in which it was left. */
  datatype Attempt = Attempt(spec: Spec, left: State)

  /** An attempt at this feed that stopped anywhere, under any interleaving and any failures. */
  ghost predicate AttemptAt(a: Attempt, spec: Spec) {
    SameFeed(a.spec, spec) && RefusesRepeatedRows(a.spec) && Reachable(a.spec, a.left)
  }

  function StoredBy(a: Attempt): seq<Indicator> { Indicators(Concat(a.left.persist.stored)) }

  function AllStoredBy(attempts: seq<Attempt>): seq<seq<Indicator>> {
    seq(|attempts|, i requires 0 <= i < |attempts| => StoredBy(attempts[i]))
  }

  function TablesAfter(t: Table, attempts: seq<Attempt>): Table {
    if attempts == [] then t
    else StoreAll(TablesAfter(t, attempts[..|attempts| - 1]), attempts[|attempts| - 1].left.persist.stored)
  }

  /** What an attempt stored is a prefix of the feed, up to the times. */
  lemma AttemptIsPrefix(a: Attempt, spec: Spec, t: Table)
    requires AttemptAt(a, spec)
    ensures UntimedAll(StoredBy(a)) <= UntimedAll(Indicators(Meaning(spec)))
    ensures StoreAll(t, a.left.persist.stored) == UpsertAll(t, StoredBy(a))
  {
    StoredIsUpserts(a.spec, a.left, t);
    SameFeedSameStream(a.spec, spec, spec.payloads);
    assert UntimedAll(StoredBy(a)) == UntimedAll(Indicators(Meaning(a.spec)))[..|StoredBy(a)|];
  }

  lemma AttemptsArePrefixes(attempts: seq<Attempt>, spec: Spec)
    requires forall i :: 0 <= i < |attempts| ==> AttemptAt(attempts[i], spec)
    ensures AttemptsAt(AllStoredBy(attempts), Indicators(Meaning(spec)))
  {
    forall i | 0 <= i < |attempts|
      ensures UntimedAll(AllStoredBy(attempts)[i]) <= UntimedAll(Indicators(Meaning(spec)))
    {
      AttemptIsPrefix(attempts[i], spec, map[]);
    }
  }

  lemma {:induction false} TablesAreRuns(t: Table, attempts: seq<Attempt>, spec: Spec)
    requires forall i :: 0 <= i < |attempts| ==> AttemptAt(attempts[i], spec)
    ensures TablesAfter(t, attempts) == UpsertRuns(t, AllStoredBy(attempts))
  {
    if attempts != [] {
      var n := |attempts| - 1;
      TablesAreRuns(t, attempts[..n], spec);
      AttemptIsPrefix(attempts[n], spec, TablesAfter(t, attempts[..n]));
      assert AllStoredBy(attempts)[..n] == AllStoredBy(attempts[..n]);
    }
  }

  /** A complete run stores the whole feed. */
  lemma CompleteRunStores(spec: Spec, done: State, t: Table)
    requires RefusesRepeatedRows(spec) && Reachable(spec, done) && AllStopped(done) && Healthy(done)
    ensures StoreAll(t, done.persist.stored) == UpsertAll(t, Indicators(Meaning(spec)))
  {
    SuccessIsComplete(spec, done);
    StoredIsUpserts(spec, done, t);
  }

  /**
   * Any number of runs of a feed may stop anywhere, under any interleaving and any failure, each at
   * its own time. After one run that succeeds, every column but the two times is what a single
   * successful run would have stored.
   */
  lemma CrashRecovery(spec: Spec, attempts: seq<Attempt>, done: State, t: Table)
    requires RefusesRepeatedRows(spec) && Reachable(spec, done) && AllStopped(done) && Healthy(done)
    requires forall i :: 0 <= i < |attempts| ==> AttemptAt(attempts[i], spec)
    ensures UntimedTable(StoreAll(TablesAfter(t, attempts), done.persist.stored))
      == UntimedTable(StoreAll(t, done.persist.stored))
  {
    TablesAreRuns(t, attempts, spec);
    AttemptsArePrefixes(attempts, spec);
    CompleteRunStores(spec, done, TablesAfter(t, attempts));
    CompleteRunStores(spec, done, t);
    CompleteRunRepairs(t, AllStoredBy(attempts), Indicators(Meaning(spec)));
  }

  /** The times tell of the attempts: first seen when the row was first stored, last seen at the latest. */
  lemma RecoveredTimes(spec: Spec, attempts: seq<Attempt>, done: State, t: Table, id: Uuid)
    requires RefusesRepeatedRows(spec) && Reachable(spec, done) && AllStopped(done) && Healthy(done)
    requires forall i :: 0 <= i < |attempts| ==> AttemptAt(attempts[i], spec)
    requires id in StoreAll(TablesAfter(t, attempts), done.persist.stored)
    ensures var row, h := StoreAll(TablesAfter(t, attempts), done.persist.stored)[id],
                          Concat(AllStoredBy(attempts)) + Indicators(Meaning(spec));
      && (id in t || Occurrences(h, id) != [])
      && row.firstSeen == FirstTime(t, h, id) && row.lastSeen == LastTime(t, h, id)
  {
    TablesAreRuns(t, attempts, spec);
    CompleteRunStores(spec, done, TablesAfter(t, attempts));
    TimesAfterRepair(t, AllStoredBy(attempts), Indicators(Meaning(spec)), id);
  }

  /**
   * If no attempt saw a sighting later than the complete run, the whole table is that of a single
   * successful run exactly when no attempt stored a new row with another first-seen time.
   */
  lemma FullRecoveryIffSameFirstTimes(spec: Spec, attempts: seq<Attempt>, done: State, t: Table)
    requires RefusesRepeatedRows(spec) && Reachable(spec, done) && AllStopped(done) && Healthy(done)
    requires forall i :: 0 <= i < |attempts| ==> AttemptAt(attempts[i], spec)
    requires NoneLater(AllStoredBy(attempts), Indicators(Meaning(spec)))
    ensures StoreAll(TablesAfter(t, attempts), done.persist.stored) == StoreAll(t, done.persist.stored)
      <==> SameFirstTimes(t, AllStoredBy(attempts), Indicators(Meaning(spec)))
  {
    TablesAreRuns(t, attempts, spec);
    AttemptsArePrefixes(attempts, spec);
    CompleteRunStores(spec, done, TablesAfter(t, attempts));
    CompleteRunStores(spec, done, t);
    SameTableIffSameFirstTimes(t, AllStoredBy(attempts), Indicators(Meaning(spec)));
  }

  // ---- Feeds that repeat a row ----

  /** On every batch of the feed, the store's verdict: only one that repeats a row is refused. */
  predicate JudgedByStore(spec: Spec) {
    forall i :: 0 <= i < |Batches(spec)| ==> (spec.accepts(Batches(spec)[i]) <==> DistinctIds(Batches(spec)[i]))
  }

  /** No batch that the persist stage cuts out of the feed names a row twice. */
  predicate BatchesDistinct(spec: Spec) {
    forall i :: 0 <= i < |Batches(spec)| ==> DistinctIds(Batches(spec)[i])
  }

  /**
   * The dedup stage forwards repetitions, so with all other plugins clean a run can succeed exactly
   * when no batch repeats a row.
   */
  lemma SuccessIffBatchesDistinct(spec: Spec)
    requires JudgedByStore(spec) && CleanUpstream(spec) && AllTaken(spec)
    ensures (exists s :: Reachable(spec, s) && AllStopped(s) && Healthy(s)) <==> BatchesDistinct(spec)
  {
    SuccessIffFaultFree(spec);
    forall i | 0 <= i < |Batches(spec)|
      ensures var batch := Batches(spec)[i]; spec.accepts(batch) <==> DistinctIds(batch)
    {
    }
  }

  /** And then every undisturbed run that cannot go on has succeeded; otherwise none ever does. */
  lemma UndisturbedRunSucceedsIffDistinct(spec: Spec, actions: seq<Action>, s: State)
    requires JudgedByStore(spec) && CleanUpstream(spec) && AllTaken(spec)
    requires OnlyTurns(actions) && Run(spec, actions) == Some(s)
    requires forall stage: Stage :: TurnOf(spec, s, stage).None?
    ensures AllStopped(s) && Healthy(s) <==> BatchesDistinct(spec)
  {
    SuccessIffBatchesDistinct(spec);
    SuccessIffFaultFree(spec);
    if BatchesDistinct(spec) {
      MaximalRunSucceeds(spec, actions, s);
    }
    assert Reachable(spec, s);
  }

  // ---- A feed that can never succeed ----

  function Twice(ind: Indicator): Spec {
    Spec(RunContext("run", "source"), [RawPayload("", "text/csv")], false,
         p => Emission([map[], map[]], false), r => Emit(ind), true, [],
         batch => DistinctIds(batch), [], (k, batch) => Taken, 1000, 500)
  }

  /** Two records with the same value in one batch of the default size, and nothing else wrong. */
  lemma RepeatedRowNeverSucceeds(ind: Indicator, s: State)
    requires Reachable(Twice(ind), s)
    ensures JudgedByStore(Twice(ind)) && CleanUpstream(Twice(ind)) && AllTaken(Twice(ind))
    ensures !(AllStopped(s) && Healthy(s))
  {
    var spec := Twice(ind);
    var x := Observe(spec.ctx, (ind, map[]));
    var empty: Record := map[];
    assert spec.parse(spec.payloads[0]).items == [empty] + [empty];
    assert [empty, empty][..1] == [empty] && [empty][..0] == [];
    assert Ingest(spec, empty) == [x];
    assert IngestAll(spec, []) == [] && IngestAll(spec, [empty]) == [x];
    assert IngestAll(spec, [empty, empty]) == [x] + [x];
    assert spec.payloads[..0] == [] && Sequential(spec, []) == [];
    assert Meaning(spec) == [x, x];
    assert Chunks([x, x], 500) == [[x, x]];
    assert Batches(spec)[0] == [x, x];
    assert !DistinctIds([x, x]) by { assert [x, x][0].0.id == [x, x][1].0.id; }
    NothingRaises(ind);
    SuccessIffBatchesDistinct(spec);
  }

  lemma NothingRaises(ind: Indicator)
    ensures JudgedByStore(Twice(ind)) && CleanUpstream(Twice(ind)) && AllTaken(Twice(ind))
  {
    var spec := Twice(ind);
    forall c: Candidate ensures !Enricher(spec)(c).raises { assert Enricher(spec)(c) == EnrichOne(spec, c); }
    forall r: Record ensures !Normalizer(spec)(r).raises { assert Normalizer(spec)(r) == NormalizeOne(spec, r); }
  }
}
