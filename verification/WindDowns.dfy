/**
 * Winding down after a failure. A cancelled stage still closes its queue in `finally`, and that put
 * waits for room that a stopped consumer will never make. This module says exactly when a run can
 * get stuck that way.
 */
module WindDowns {
  import opened Sequences
  import opened Models
  import opened StageQueues
  import opened PipelineMachine
  import opened PipelineSafety
  import opened PipelineMeaning
  import opened PipelineProgress

  /** The group is aborting, some stage has not returned, and nothing can happen any more. */
  ghost predicate Stuck(spec: Spec, s: State) {
    s.aborting && !AllStopped(s) && forall act :: Next(spec, s, act).None?
  }

  /** A worker that is waiting, for good, to put its end marker. */
  predicate WaitsToClose<T>(maxsize: int, phase: Phase, outq: Queue<T>) {
    phase == Closing(Cancelled) && !Room(maxsize, outq)
  }

  predicate StoppedOrWaiting(spec: Spec, s: State) {
    && s.fetch.phase.Stopped?
    && (s.parse.phase.Stopped? || WaitsToClose(spec.maxsize, s.parse.phase, s.qRecords))
    && (s.normalize.phase.Stopped? || WaitsToClose(spec.maxsize, s.normalize.phase, s.qIndicators))
    && (s.enrich.phase.Stopped? || WaitsToClose(spec.maxsize, s.enrich.phase, s.qEnriched))
    && (s.dedup.phase.Stopped? || WaitsToClose(spec.maxsize, s.dedup.phase, s.qDedup))
    && (s.persist.phase.Stopped? || WaitsToClose(spec.maxsize, s.persist.phase, s.qPersist))
    && s.publish.phase.Stopped?
  }

  /** Neither a turn of this stage nor its cancellation is possible. */
  predicate AtRest(spec: Spec, s: State, stage: Stage) {
    Next(spec, s, Turn(stage)).None? && Next(spec, s, Cancel(stage, 0)).None?
  }

  lemma RestingStage(spec: Spec, s: State, stage: Stage)
    requires Inv(spec, s) && s.aborting && AtRest(spec, s, stage)
    ensures stage.Fetch? || stage.Publish? ==> PhaseOf(s, stage).Stopped?
    ensures PhaseOf(s, stage).Stopped? || PhaseOf(s, stage) == Closing(Cancelled)
    ensures stage.Parse? ==> s.parse.phase.Stopped? || !Room(spec.maxsize, s.qRecords)
    ensures stage.Normalize? ==> s.normalize.phase.Stopped? || !Room(spec.maxsize, s.qIndicators)
    ensures stage.Enrich? ==> s.enrich.phase.Stopped? || !Room(spec.maxsize, s.qEnriched)
    ensures stage.Dedup? ==> s.dedup.phase.Stopped? || !Room(spec.maxsize, s.qDedup)
    ensures stage.Persist? ==> s.persist.phase.Stopped? || !Room(spec.maxsize, s.qPersist)
  {
  }

  lemma NothingLeft(spec: Spec, s: State, act: Action)
    requires s.aborting && StoppedOrWaiting(spec, s)
    ensures Next(spec, s, act).None?
  {
  }

  /**
   * A run that is aborting is stuck exactly when some cancelled stage waits to close a full queue
   * and all others have returned or wait likewise.
   */
  lemma StuckShape(spec: Spec, s: State)
    requires Reachable(spec, s) && s.aborting
    ensures Stuck(spec, s) <==> StoppedOrWaiting(spec, s) && !AllStopped(s)
  {
    ReachableInv(spec, s);
    if Stuck(spec, s) {
      StuckWaits(spec, s);
    }
    if StoppedOrWaiting(spec, s) {
      forall act ensures Next(spec, s, act).None? {
        NothingLeft(spec, s, act);
      }
    }
  }

  lemma StuckWaits(spec: Spec, s: State)
    requires Inv(spec, s) && s.aborting
    requires forall act :: Next(spec, s, act).None?
    ensures StoppedOrWaiting(spec, s)
  {
    forall stage: Stage ensures AtRest(spec, s, stage) {}
    RestingStage(spec, s, Fetch);
    RestingStage(spec, s, Parse);
    RestingStage(spec, s, Normalize);
    RestingStage(spec, s, Enrich);
    RestingStage(spec, s, Dedup);
    RestingStage(spec, s, Persist);
    RestingStage(spec, s, Publish);
  }

  lemma {:induction false} ItemsCount<T>(buf: seq<Token<T>>)
    requires forall i :: 0 <= i < |buf| ==> buf[i].Item?
    ensures |Items(buf)| == |buf|
  {
    if buf != [] {
      ItemsCount(buf[..|buf| - 1]);
    }
  }

  /** A full queue without its end marker has had at least `maxsize` items put. */
  lemma FullQueueSent<T>(maxsize: int, q: Queue<T>)
    requires WellFormed(q) && !Delivered(q) && !Room(maxsize, q)
    ensures 0 < maxsize <= |Sent(q)|
  {
    ItemsCount(q.buf);
  }

  // ---- How much parse can put ----

  /** What a stage with these inputs puts before it raises, or at all if it never does. */
  function Sendable<A, B>(f: A -> Emission<B>, xs: seq<A>): seq<B> {
    if xs == [] then []
    else
      var init := xs[..|xs| - 1];
      Sendable(f, init) + if Clean(f, init) then f(xs[|xs| - 1]).items else []
  }

  lemma {:induction false} CleanIsSendable<A, B>(f: A -> Emission<B>, xs: seq<A>)
    requires xs == [] || Clean(f, xs[..|xs| - 1])
    ensures Sendable(f, xs) == Outputs(f, xs)
  {
    if |xs| > 1 {
      var init := xs[..|xs| - 1];
      CleanPrefix(f, init[..|init| - 1], init);
      CleanIsSendable(f, init);
    }
  }

  lemma {:induction false} SendableStops<A, B>(f: A -> Emission<B>, xs: seq<A>, ys: seq<A>)
    requires xs <= ys
    ensures Sendable(f, xs) <= Sendable(f, ys)
    ensures !Clean(f, xs) ==> Sendable(f, xs) == Sendable(f, ys)
    decreases |ys|
  {
    if xs != ys {
      var init := ys[..|ys| - 1];
      SendableStops(f, xs, init);
      if !Clean(f, xs) {
        var i :| 0 <= i < |xs| && f(xs[i]).raises;
        assert init[i] == xs[i];
      }
    }
  }

  /** Only the last input received can have raised. */
  predicate RaisesLast<A, B>(f: A -> Emission<B>, taken: seq<A>) {
    taken == [] || Clean(f, taken[..|taken| - 1])
  }

  lemma WorkerStopsReading<A, B>(f: A -> Emission<B>, maxsize: int, inq: Queue<A>, me: Worker<B>, outq: Queue<B>)
    requires WorkerInv(f, inq, me, outq) && RaisesLast(f, inq.taken) && WorkerTurn(f, maxsize, inq, me, outq).Some?
    ensures RaisesLast(f, WorkerTurn(f, maxsize, inq, me, outq).value.inq.taken)
  {
    var next := WorkerTurn(f, maxsize, inq, me, outq).value.inq.taken;
    assert next == inq.taken || next[..|inq.taken|] == inq.taken;
  }

  lemma OthersDoNotRead(spec: Spec, s: State, act: Action)
    requires Next(spec, s, act).Some? && act != Turn(Parse)
    ensures Next(spec, s, act).value.qRaw.taken == s.qRaw.taken
  {
  }

  lemma ParseStopsReading(spec: Spec, s: State, act: Action)
    requires Inv(spec, s) && RaisesLast(spec.parse, s.qRaw.taken) && Next(spec, s, act).Some?
    ensures RaisesLast(spec.parse, Next(spec, s, act).value.qRaw.taken)
  {
    if act == Turn(Parse) {
      WorkerStopsReading(spec.parse, spec.maxsize, s.qRaw, s.parse, s.qRecords);
    } else {
      OthersDoNotRead(spec, s, act);
    }
  }

  lemma {:induction false} ParseReadsUpToRaise(spec: Spec, actions: seq<Action>)
    requires Run(spec, actions).Some?
    ensures RaisesLast(spec.parse, Run(spec, actions).value.qRaw.taken)
  {
    if actions != [] {
      var n := |actions| - 1;
      ParseReadsUpToRaise(spec, actions[..n]);
      RunKeeps(spec, actions[..n]);
      ParseStopsReading(spec, Run(spec, actions[..n]).value, actions[n]);
    }
  }

  /** The records that parse can put into its queue. */
  function Records(spec: Spec): seq<Record> { Sendable(spec.parse, spec.payloads) }

  lemma SentRecords(spec: Spec, s: State)
    requires Reachable(spec, s)
    ensures Sent(s.qRecords) <= Records(spec)
  {
    ReachableInv(spec, s);
    InputsArePrefixes(spec, s);
    var actions :| Run(spec, actions) == Some(s);
    ParseReadsUpToRaise(spec, actions);
    var taken := s.qRaw.taken;
    CleanIsSendable(spec.parse, taken);
    SendableStops(spec.parse, taken, spec.payloads);
    PrefixTransitive(Sent(s.qRecords), Outputs(spec.parse, taken), Records(spec));
  }

  // ---- The other queues hold no more than that ----

  lemma {:induction false} AtMostOneEach<A, B>(f: A -> Emission<B>, xs: seq<A>)
    requires forall a :: |f(a).items| <= 1
    ensures |Outputs(f, xs)| <= |xs|
  {
    if xs != [] {
      AtMostOneEach(f, xs[..|xs| - 1]);
    }
  }

  lemma PassesOn<A, B>(f: A -> Emission<B>, inq: Queue<A>, me: Worker<B>, outq: Queue<B>)
    requires WorkerInv(f, inq, me, outq) && forall a :: |f(a).items| <= 1
    ensures |Sent(outq)| <= |Sent(inq)|
  {
    AtMostOneEach(f, inq.taken);
  }

  lemma EachAtMostOne(spec: Spec)
    ensures forall r :: |Normalizer(spec)(r).items| <= 1
    ensures forall c :: |Enricher(spec)(c).items| <= 1
    ensures forall c :: |Deduper()(c).items| <= 1
  {
    forall r ensures |Normalizer(spec)(r).items| <= 1 { assert Normalizer(spec)(r) == NormalizeOne(spec, r); }
    forall c ensures |Enricher(spec)(c).items| <= 1 { assert Enricher(spec)(c) == EnrichOne(spec, c); }
    forall c ensures |Deduper()(c).items| <= 1 { assert Deduper()(c) == DedupOne(c); }
  }

  /** No queue has been given more items than the records queue. */
  lemma RecordsAreMost(spec: Spec, s: State)
    requires Inv(spec, s)
    ensures |Sent(s.qIndicators)| <= |Sent(s.qRecords)| && |Sent(s.qEnriched)| <= |Sent(s.qRecords)|
    ensures |Sent(s.qDedup)| <= |Sent(s.qRecords)| && |Sent(s.qPersist)| <= |Sent(s.qRecords)|
  {
    EachAtMostOne(spec);
    PassesOn(Normalizer(spec), s.qRecords, s.normalize, s.qIndicators);
    PassesOn(Enricher(spec), s.qIndicators, s.enrich, s.qEnriched);
    PassesOn(Deduper(), s.qEnriched, s.dedup, s.qDedup);
    PrefixTransitive(Sent(s.qPersist), Concat(s.persist.stored), Attach(spec.ctx, s.qDedup.taken));
  }

  /** A cancelled stage that waits has not put its end marker yet. */
  lemma WaitingUndelivered(spec: Spec, s: State)
    requires Inv(spec, s)
    ensures s.parse.phase.Closing? ==> !Delivered(s.qRecords)
    ensures s.normalize.phase.Closing? ==> !Delivered(s.qIndicators)
    ensures s.enrich.phase.Closing? ==> !Delivered(s.qEnriched)
    ensures s.dedup.phase.Closing? ==> !Delivered(s.qDedup)
    ensures s.persist.phase.Closing? ==> !Delivered(s.qPersist)
    ensures QueuesWellFormed(s)
  {
  }

  lemma SomeoneWaits(spec: Spec, s: State)
    requires StoppedOrWaiting(spec, s) && !AllStopped(s)
    ensures WaitsToClose(spec.maxsize, s.parse.phase, s.qRecords)
      || WaitsToClose(spec.maxsize, s.normalize.phase, s.qIndicators)
      || WaitsToClose(spec.maxsize, s.enrich.phase, s.qEnriched) || WaitsToClose(spec.maxsize, s.dedup.phase, s.qDedup)
      || WaitsToClose(spec.maxsize, s.persist.phase, s.qPersist)
  {
  }

  /** A run can only get stuck when the records of its feed fill a bounded queue. */
  lemma StuckNeedsRecords(spec: Spec, s: State)
    requires Reachable(spec, s) && Stuck(spec, s)
    ensures 0 < spec.maxsize <= |Records(spec)|
  {
    ReachableInv(spec, s);
    StuckShape(spec, s);
    SomeoneWaits(spec, s);
    WaitingUndelivered(spec, s);
    SentRecords(spec, s);
    RecordsAreMost(spec, s);
    if WaitsToClose(spec.maxsize, s.parse.phase, s.qRecords) {
      FullQueueSent(spec.maxsize, s.qRecords);
    } else if WaitsToClose(spec.maxsize, s.normalize.phase, s.qIndicators) {
      FullQueueSent(spec.maxsize, s.qIndicators);
    } else if WaitsToClose(spec.maxsize, s.enrich.phase, s.qEnriched) {
      FullQueueSent(spec.maxsize, s.qEnriched);
    } else if WaitsToClose(spec.maxsize, s.dedup.phase, s.qDedup) {
      FullQueueSent(spec.maxsize, s.qDedup);
    } else {
      FullQueueSent(spec.maxsize, s.qPersist);
    }
  }

  // ---- A stuck run for every feed that fills its queue ----

  lemma ReachableStep(spec: Spec, s: State, act: Action)
    requires Reachable(spec, s) && Next(spec, s, act).Some?
    ensures Reachable(spec, Next(spec, s, act).value)
  {
    var actions :| Run(spec, actions) == Some(s);
    assert (actions + [act])[..|actions|] == actions;
    assert Run(spec, actions + [act]) == Next(spec, s, act);
  }

  /** Only fetch and parse have moved, and every payload put has been taken. */
  predicate Feeding(spec: Spec, s: State) {
    && s == Init().(fetch := s.fetch, qRaw := s.qRaw, parse := s.parse, qRecords := s.qRecords)
    && s.fetch.phase.Running? && s.fetch.next <= |spec.payloads|
    && s.qRaw == Queue([], spec.payloads[..s.fetch.next], false, false)
    && s.parse.phase.Running? && s.qRecords == Queue(s.qRecords.buf, [], false, false)
    && (forall i :: 0 <= i < |s.qRecords.buf| ==> s.qRecords.buf[i].Item?)
  }

  lemma FeedingStarts(spec: Spec)
    ensures Reachable(spec, Init()) && Feeding(spec, Init())
  {
    assert Run(spec, []) == Some(Init());
  }

  /** Parse puts one more record. */
  lemma PutsRecord(spec: Spec, s: State) returns (t: State)
    requires Reachable(spec, s) && Feeding(spec, s) && s.parse.pending != [] && |s.qRecords.buf| < spec.maxsize
    ensures Reachable(spec, t) && Feeding(spec, t) && |t.qRecords.buf| == |s.qRecords.buf| + 1
    ensures t.fetch.next == s.fetch.next && |t.parse.pending| < |s.parse.pending|
  {
    ReachableStep(spec, s, Turn(Parse));
    t := Next(spec, s, Turn(Parse)).value;
  }

  /** The state after fetch has put one more payload. */
  function WithPayload(spec: Spec, s: State): State
    requires s.fetch.next < |spec.payloads|
  {
    s.(fetch := s.fetch.(next := s.fetch.next + 1),
       qRaw := Queue([Item(spec.payloads[s.fetch.next])], spec.payloads[..s.fetch.next], false, false))
  }

  lemma PutsPayload(spec: Spec, s: State)
    requires Feeding(spec, s) && s.fetch.next < |spec.payloads| && 0 < spec.maxsize
    ensures Next(spec, s, Turn(Fetch)) == Some(WithPayload(spec, s))
  {
    assert s.qRaw.buf + [Item(spec.payloads[s.fetch.next])] == [Item(spec.payloads[s.fetch.next])];
  }

  lemma ParseTakes(spec: Spec, s: State)
    requires Feeding(spec, s) && s.parse.pending == [] && !s.parse.doomed && s.fetch.next < |spec.payloads|
    ensures var t := Next(spec, WithPayload(spec, s), Turn(Parse));
      t.Some? && Feeding(spec, t.value) && t.value.qRecords == s.qRecords && t.value.fetch.next == s.fetch.next + 1
  {
    var u, n := WithPayload(spec, s), s.fetch.next;
    assert u.qRaw.buf[1..] == [];
    assert spec.payloads[..n] + [spec.payloads[n]] == spec.payloads[..n + 1];
  }

  /** Fetch puts one more payload, and parse takes it. */
  lemma TakesPayload(spec: Spec, s: State) returns (t: State)
    requires Reachable(spec, s) && Feeding(spec, s) && s.parse.pending == [] && !s.parse.doomed
    requires s.fetch.next < |spec.payloads| && 0 < spec.maxsize
    ensures Reachable(spec, t) && Feeding(spec, t) && t.qRecords == s.qRecords && t.fetch.next == s.fetch.next + 1
  {
    PutsPayload(spec, s);
    ParseTakes(spec, s);
    ReachableStep(spec, s, Turn(Fetch));
    ReachableStep(spec, WithPayload(spec, s), Turn(Parse));
    t := Next(spec, WithPayload(spec, s), Turn(Parse)).value;
  }

  /** With nothing in hand and records still to come, parse has not raised and payloads are left. */
  lemma MoreToCome(spec: Spec, s: State)
    requires Reachable(spec, s) && Feeding(spec, s) && s.parse.pending == [] && |s.qRecords.buf| < |Records(spec)|
    ensures !s.parse.doomed && s.fetch.next < |spec.payloads|
  {
    ReachableInv(spec, s);
    SentRecords(spec, s);
    ItemsCount(s.qRecords.buf);
    var actions :| Run(spec, actions) == Some(s);
    ParseReadsUpToRaise(spec, actions);
    CleanIsSendable(spec.parse, s.qRaw.taken);
    SendableStops(spec.parse, s.qRaw.taken, spec.payloads);
    assert Sent(s.qRecords) + [] == Sent(s.qRecords);
    assert spec.payloads[..|spec.payloads|] == spec.payloads;
  }

  lemma {:induction false} FillsUp(spec: Spec, s: State) returns (t: State)
    requires 0 < spec.maxsize <= |Records(spec)|
    requires Reachable(spec, s) && Feeding(spec, s) && |s.qRecords.buf| <= spec.maxsize
    ensures Reachable(spec, t) && Feeding(spec, t) && |t.qRecords.buf| == spec.maxsize
    decreases |spec.payloads| - s.fetch.next, |s.parse.pending|
  {
    if |s.qRecords.buf| == spec.maxsize {
      t := s;
    } else if s.parse.pending != [] {
      t := PutsRecord(spec, s);
      t := FillsUp(spec, t);
    } else {
      MoreToCome(spec, s);
      t := TakesPayload(spec, s);
      t := FillsUp(spec, t);
    }
  }

  /** The run is being cancelled, parse still runs on a full queue, and normalize reads no more. */
  predicate Hanging(spec: Spec, s: State) {
    && s.aborting && s.parse.phase.Running? && !s.qRecords.closed && !Room(spec.maxsize, s.qRecords)
    && !s.normalize.phase.Running?
  }

  /** What any other stage does then leaves that as it is. */
  lemma OthersKeepHanging(spec: Spec, s: State, act: Action)
    requires Hanging(spec, s) && Next(spec, s, act).Some?
    requires (act.Turn? || act.Cancel?) && act.stage != Parse
    ensures Hanging(spec, Next(spec, s, act).value)
  {
  }

  lemma StepsOn(spec: Spec, s: State, act: Action) returns (t: State)
    requires Reachable(spec, s) && Hanging(spec, s) && Next(spec, s, act).Some?
    requires (act.Turn? || act.Cancel?) && act.stage != Parse
    ensures Reachable(spec, t) && Hanging(spec, t) && Below(Rank(spec, t), Rank(spec, s))
  {
    ReachableStep(spec, s, act);
    OthersKeepHanging(spec, s, act);
    StepDrops(spec, s, act);
    t := Next(spec, s, act).value;
  }

  /** Some other stage moves, unless none can. */
  lemma OtherMoves(spec: Spec, s: State) returns (t: State)
    requires Reachable(spec, s) && Hanging(spec, s)
    requires exists stage: Stage :: stage != Parse && !AtRest(spec, s, stage)
    ensures Reachable(spec, t) && Hanging(spec, t) && Below(Rank(spec, t), Rank(spec, s))
  {
    var stage: Stage :| stage != Parse && !AtRest(spec, s, stage);
    if Next(spec, s, Turn(stage)).Some? {
      t := StepsOn(spec, s, Turn(stage));
    } else {
      t := StepsOn(spec, s, Cancel(stage, 0));
    }
  }

  /** All other stages go on until none of them can. */
  lemma OthersFinish(spec: Spec, s: State) returns (t: State)
    requires Reachable(spec, s) && Hanging(spec, s)
    ensures Reachable(spec, t) && Hanging(spec, t)
    ensures forall stage: Stage :: stage != Parse ==> AtRest(spec, t, stage)
  {
    t := s;
    while exists stage: Stage :: stage != Parse && !AtRest(spec, t, stage)
      invariant Reachable(spec, t) && Hanging(spec, t)
      decreases Rank(spec, t)[0], Rank(spec, t)[1], Rank(spec, t)[2], Rank(spec, t)[3], Rank(spec, t)[4],
        Rank(spec, t)[5], Rank(spec, t)[6], Rank(spec, t)[7], Rank(spec, t)[8], Rank(spec, t)[9],
        Rank(spec, t)[10], Rank(spec, t)[11], Rank(spec, t)[12], Rank(spec, t)[13]
    {
      t := OtherMoves(spec, t);
    }
  }

  /** When they are done, cancelling parse leaves the run stuck. */
  lemma ParseHangs(spec: Spec, s: State) returns (t: State)
    requires Reachable(spec, s) && Hanging(spec, s)
    requires forall stage: Stage :: stage != Parse ==> AtRest(spec, s, stage)
    ensures Reachable(spec, t) && Stuck(spec, t)
  {
    ReachableInv(spec, s);
    RestingStage(spec, s, Fetch);
    RestingStage(spec, s, Normalize);
    RestingStage(spec, s, Enrich);
    RestingStage(spec, s, Dedup);
    RestingStage(spec, s, Persist);
    RestingStage(spec, s, Publish);
    t := CancelParse(spec, s);
    assert PhaseOf(t, Parse) == Closing(Cancelled);
    StuckShape(spec, t);
  }

  lemma CancelParse(spec: Spec, s: State) returns (t: State)
    requires Reachable(spec, s) && s.aborting && s.parse.phase.Running? && !s.qRecords.closed
    ensures Reachable(spec, t) && t.parse.phase == Closing(Cancelled)
    ensures t == s.(parse := t.parse, qRecords := Seal(s.qRecords))
  {
    ReachableStep(spec, s, Cancel(Parse, 0));
    t := Next(spec, s, Cancel(Parse, 0)).value;
  }

  lemma CancelNormalize(spec: Spec, s: State) returns (t: State)
    requires Reachable(spec, s) && s.aborting && s.normalize.phase.Running?
    ensures Reachable(spec, t) && !t.normalize.phase.Running?
    ensures t == s.(normalize := t.normalize, qIndicators := t.qIndicators)
  {
    ReachableStep(spec, s, Cancel(Normalize, 0));
    t := Next(spec, s, Cancel(Normalize, 0)).value;
  }

  /**
   * The run is cancelled while the records queue is full, normalize first: whatever the other stages
   * then do, parse can never close its queue.
   */
  lemma FullQueueSticks(spec: Spec) returns (s: State)
    requires 0 < spec.maxsize <= |Records(spec)|
    ensures Reachable(spec, s) && Stuck(spec, s)
  {
    FeedingStarts(spec);
    s := FillsUp(spec, Init());
    ReachableStep(spec, s, PipelineMachine.WindDown);
    s := CancelNormalize(spec, s.(aborting := true));
    s := OthersFinish(spec, s);
    s := ParseHangs(spec, s);
  }

  /**
   * A failed run of a feed can be left hanging if and only if the queues are bounded and the records
   * that parse puts before it raises, if it does, fill one.
   */
  lemma StickIffRecordsFillQueue(spec: Spec)
    ensures (exists s :: Reachable(spec, s) && Stuck(spec, s)) <==> 0 < spec.maxsize <= |Records(spec)|
  {
    if 0 < spec.maxsize <= |Records(spec)| {
      var s := FullQueueSticks(spec);
    }
    if s :| Reachable(spec, s) && Stuck(spec, s) {
      StuckNeedsRecords(spec, s);
    }
  }

  /** One payload that parses into as many records as a queue of size m holds. */
  function Burst(m: nat): Spec {
    Spec(RunContext("run", "source"), [RawPayload("", "text/plain")], false,
         p => Emission(seq(m, _ => map[]), false), r => Skip, true, [], batch => true, [],
         (k, batch) => Taken, m, 1)
  }

  lemma BurstRecords(m: nat)
    ensures |Records(Burst(m))| == m
  {
    var spec := Burst(m);
    assert spec.payloads[..0] == [] && Sendable(spec.parse, []) == [];
    assert Clean(spec.parse, []);
  }

  /** Some failed run can be left hanging if and only if the queues are bounded. */
  lemma StickIffBounded(maxsize: int)
    ensures (exists spec: Spec, s :: spec.maxsize == maxsize && Reachable(spec, s) && Stuck(spec, s)) <==> maxsize > 0
  {
    if maxsize > 0 {
      BurstRecords(maxsize);
      var s := FullQueueSticks(Burst(maxsize));
      assert Burst(maxsize).maxsize == maxsize;
    }
    forall spec: Spec, s | spec.maxsize == maxsize && Reachable(spec, s) && Stuck(spec, s) ensures maxsize > 0 {
      StuckNeedsRecords(spec, s);
    }
  }
}
