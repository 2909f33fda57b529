/**
 * What every step of the pipeline keeps. Each stage is tied to its own two queues only: to what it
 * has received and to what it has put. The whole-run theorems follow by composing prefixes.
 */
module PipelineSafety {
  import opened Sequences
  import opened Models
  import opened StageQueues
  import opened PublishStage
  import opened PipelineMachine

  // ---- Outputs of a stage ----

  lemma OutputsSnoc<A, B>(f: A -> Emission<B>, xs: seq<A>, x: A)
    ensures Outputs(f, xs + [x]) == Outputs(f, xs) + f(x).items
    ensures Clean(f, xs + [x]) <==> Clean(f, xs) && !f(x).raises
  {
    assert (xs + [x])[..|xs|] == xs;
    if Clean(f, xs + [x]) {
      assert (xs + [x])[|xs|] == x;
      forall i | 0 <= i < |xs| ensures !f(xs[i]).raises { assert (xs + [x])[i] == xs[i]; }
    }
  }

  lemma {:induction false} OutputsPrefix<A, B>(f: A -> Emission<B>, xs: seq<A>, ys: seq<A>)
    requires xs <= ys
    ensures Outputs(f, xs) <= Outputs(f, ys)
    decreases |ys|
  {
    if xs != ys {
      var init := ys[..|ys| - 1];
      OutputsPrefix(f, xs, init);
      PrefixTransitive(Outputs(f, xs), Outputs(f, init), Outputs(f, ys));
    }
  }

  lemma CleanPrefix<A, B>(f: A -> Emission<B>, xs: seq<A>, all: seq<A>)
    requires xs <= all && Clean(f, all)
    ensures Clean(f, xs)
  {
    forall i | 0 <= i < |xs| ensures !f(xs[i]).raises { assert xs[i] == all[i]; }
  }

  // ---- Invariants ----

  ghost predicate FetchInv(spec: Spec, me: Fetcher, outq: Queue<RawPayload>) {
    && me.next <= |spec.payloads|
    && Sent(outq) == spec.payloads[..me.next]
    && (me.phase.Running? ==> !outq.closed)
    && (me.phase.Closing? ==> me.phase.why.Normal? && outq.closed && !Delivered(outq))
    && (!me.phase.Running? && me.phase.why.Normal? ==> me.next == |spec.payloads| && !spec.fetchRaises)
    && (me.phase == Stopped(Normal) ==> Delivered(outq))
  }

  ghost predicate WorkerInv<A, B>(f: A -> Emission<B>, inq: Queue<A>, me: Worker<B>, outq: Queue<B>) {
    && Sent(outq) <= Outputs(f, inq.taken)
    && (me.phase.Running? ==>
          && !outq.closed && !inq.ended
          && Sent(outq) + me.pending == Outputs(f, inq.taken)
          && (me.doomed <==> !Clean(f, inq.taken)))
    && (me.phase.Closing? ==> outq.closed && !Delivered(outq))
    && (!me.phase.Running? && me.phase.why.Normal? ==>
          inq.ended && Clean(f, inq.taken) && Sent(outq) == Outputs(f, inq.taken))
    && (me.phase == Stopped(Normal) ==> Delivered(outq))
  }

  ghost predicate PersistInv(spec: Spec, inq: Queue<Candidate>, me: Persister, outq: Queue<Sighting>) {
    var seen := Attach(spec.ctx, inq.taken);
    var m := Max(1, spec.batchSize);
    && Concat(me.stored) <= seen
    && Sent(outq) <= Concat(me.stored)
    && (forall i :: 0 <= i < |me.stored| ==> spec.accepts(me.stored[i]))
    && Chunked(me.stored, m, true)
    && (me.phase.Running? ==> !outq.closed && PersistPcInv(spec, inq, me, outq))
    && (me.phase.Closing? ==> outq.closed && !Delivered(outq))
    && (!me.phase.Running? && me.phase.why.Normal? ==>
          inq.ended && Concat(me.stored) == seen && Sent(outq) == Concat(me.stored))
    && (me.phase == Stopped(Normal) ==> Delivered(outq))
  }

  ghost predicate PersistPcInv(spec: Spec, inq: Queue<Candidate>, me: Persister, outq: Queue<Sighting>) {
    var seen := Attach(spec.ctx, inq.taken);
    var m := Max(1, spec.batchSize);
    match me.pc
    case Collect =>
      && !inq.ended && |me.batch| < m && Chunked(me.stored, m, false)
      && Concat(me.stored) + me.batch == seen && Sent(outq) == Concat(me.stored)
    case Flushing(last) =>
      && (last <==> inq.ended) && 0 < |me.batch| <= m && (!last ==> |me.batch| == m)
      && Chunked(me.stored, m, false)
      && Concat(me.stored) + me.batch == seen && Sent(outq) == Concat(me.stored)
    case Forward(rest, last) =>
      && (last <==> inq.ended) && Chunked(me.stored, m, last)
      && Concat(me.stored) == seen && Sent(outq) + rest == Concat(me.stored)
  }

  /** The batch that was being sent is the next one of the publisher's plan. */
  ghost predicate TornWithin(spec: Spec, fan: Fanout<Sighting>, torn: Option<Torn>, xs: seq<Sighting>) {
    torn.None? || (
      && torn.value.k < |spec.publishers|
      && HandedTo(fan, torn.value.k) + [torn.value.batch] <= Plan(spec.publishers, spec.batchSize, xs, torn.value.k))
  }

  /** The buffers and everything handed over are exactly what the sequential stage has at this point. */
  ghost predicate PublishInv(spec: Spec, inq: Queue<Sighting>, me: Publisher) {
    && DeliveredSoFar(spec.publishers, me.fan, Delivers(spec))
    && (me.phase.Running? ==> me.torn.None? && PublishPcInv(spec, inq.taken, me))
    && (!me.phase.Running? ==>
          && WithinPlan(spec.publishers, spec.batchSize, me.fan, inq.taken)
          && TornWithin(spec, me.fan, me.torn, inq.taken))
    && (me.phase == Stopped(Normal) ==>
          me.torn.None? && me.fan == Published(spec.publishers, spec.batchSize, inq.taken))
  }

  ghost predicate PublishPcInv(spec: Spec, taken: seq<Sighting>, me: Publisher) {
    var names, size := spec.publishers, spec.batchSize;
    match me.pc
    case Idle => me.fan == Feed(names, size, taken)
    case Fan(x, j) => j <= |names| && FanOut(names, size, me.fan, j, x) == Feed(names, size, taken)
    case Pushing(x, j) =>
      j < |names| && FanOut(names, size, Push(names, me.fan, j), j + 1, x) == Feed(names, size, taken)
    case Final(j) => j <= |names| && FlushFrom(names, me.fan, j) == Published(names, size, taken)
  }

  /** The publish stage stops reading at the end marker, whatever its configuration. */
  predicate PublishFlow(inq: Queue<Sighting>, me: Publisher) {
    && !me.phase.Closing?
    && (me.phase.Running? ==> (me.pc.Final? <==> inq.ended))
    && (me.phase == Stopped(Normal) ==> inq.ended)
  }

  ghost predicate QueuesWellFormed(s: State) {
    && WellFormed(s.qRaw) && WellFormed(s.qRecords) && WellFormed(s.qIndicators)
    && WellFormed(s.qEnriched) && WellFormed(s.qDedup) && WellFormed(s.qPersist)
  }

  ghost predicate Inv(spec: Spec, s: State) {
    && QueuesWellFormed(s)
    && FetchInv(spec, s.fetch, s.qRaw)
    && WorkerInv(spec.parse, s.qRaw, s.parse, s.qRecords)
    && WorkerInv(Normalizer(spec), s.qRecords, s.normalize, s.qIndicators)
    && WorkerInv(Enricher(spec), s.qIndicators, s.enrich, s.qEnriched)
    && WorkerInv(Deduper(), s.qEnriched, s.dedup, s.qDedup)
    && PersistInv(spec, s.qDedup, s.persist, s.qPersist)
    && PublishFlow(s.qPersist, s.publish)
    && PublishInv(spec, s.qPersist, s.publish)
  }

  /** The producer of a queue cannot tell these two apart. */
  ghost predicate SameToProducer<T>(q: Queue<T>, r: Queue<T>) {
    Sent(q) == Sent(r) && q.closed == r.closed && Delivered(q) == Delivered(r)
  }

  /** The consumer of a queue has received the same from both. */
  predicate SameToConsumer<T(==)>(q: Queue<T>, r: Queue<T>) {
    q.taken == r.taken && q.ended == r.ended
  }

  // ---- Each stage keeps its invariant and its neighbours' view ----

  lemma FetchTurnKeeps(spec: Spec, me: Fetcher, outq: Queue<RawPayload>)
    requires WellFormed(outq) && FetchInv(spec, me, outq) && FetchTurn(spec, me, outq).Some?
    ensures var m := FetchTurn(spec, me, outq).value;
      WellFormed(m.1) && FetchInv(spec, m.0, m.1) && SameToConsumer(outq, m.1)
  {
    if me.phase.Running? && me.next < |spec.payloads| {
      assert spec.payloads[..me.next + 1] == spec.payloads[..me.next] + [spec.payloads[me.next]];
    }
  }

  lemma WorkerTurnKeeps<A, B>(f: A -> Emission<B>, maxsize: int, inq: Queue<A>, me: Worker<B>, outq: Queue<B>)
    requires WellFormed(inq) && WellFormed(outq) && WorkerInv(f, inq, me, outq)
    requires WorkerTurn(f, maxsize, inq, me, outq).Some?
    ensures var m := WorkerTurn(f, maxsize, inq, me, outq).value;
      && WellFormed(m.inq) && WellFormed(m.outq) && WorkerInv(f, m.inq, m.me, m.outq)
      && SameToProducer(inq, m.inq) && m.outq.taken == outq.taken && m.outq.ended == outq.ended
  {
    var m := WorkerTurn(f, maxsize, inq, me, outq).value;
    if me.phase.Running? {
      if me.pending != [] {
        assert Sent(m.outq) + m.me.pending == Sent(outq) + ([me.pending[0]] + me.pending[1..]);
        assert [me.pending[0]] + me.pending[1..] == me.pending;
      } else if !me.doomed && inq.buf[0].Item? {
        OutputsSnoc(f, inq.taken, inq.buf[0].value);
        assert Sent(outq) == Outputs(f, inq.taken);
      }
    }
  }

  lemma WorkerInterruptKeeps<A, B>(f: A -> Emission<B>, why: Exit, inq: Queue<A>, me: Worker<B>, outq: Queue<B>)
    requires WellFormed(outq) && WorkerInv(f, inq, me, outq) && !why.Normal?
    requires WorkerInterrupt(why, inq, me, outq).Some?
    ensures var m := WorkerInterrupt(why, inq, me, outq).value;
      && WellFormed(m.outq) && WorkerInv(f, inq, m.me, m.outq)
      && m.outq.taken == outq.taken && m.outq.ended == outq.ended
  {
  }

  lemma AttachSnoc(ctx: RunContext, cs: seq<Candidate>, c: Candidate)
    ensures Attach(ctx, cs + [c]) == Attach(ctx, cs) + [Observe(ctx, c)]
  {
  }

  lemma CollectKeeps(spec: Spec, inq: Queue<Candidate>, me: Persister, outq: Queue<Sighting>)
    requires WellFormed(inq) && WellFormed(outq) && PersistInv(spec, inq, me, outq)
    requires me.phase.Running? && me.pc.Collect? && inq.buf != []
    ensures var m := PersistTurn(spec, inq, me, outq).value;
      && WellFormed(m.inq) && WellFormed(m.outq) && PersistInv(spec, m.inq, m.me, m.outq)
      && SameToProducer(inq, m.inq) && SameToConsumer(outq, m.outq)
  {
    if inq.buf[0].Item? {
      var c := inq.buf[0].value;
      AttachSnoc(spec.ctx, inq.taken, c);
      var seen := Attach(spec.ctx, inq.taken);
      assert Concat(me.stored) + (me.batch + [Observe(spec.ctx, c)]) == seen + [Observe(spec.ctx, c)];
    }
  }

  lemma FlushingKeeps(spec: Spec, inq: Queue<Candidate>, me: Persister, outq: Queue<Sighting>)
    requires WellFormed(inq) && WellFormed(outq) && PersistInv(spec, inq, me, outq)
    requires me.phase.Running? && me.pc.Flushing?
    ensures var m := PersistTurn(spec, inq, me, outq).value;
      && m.inq == inq && WellFormed(m.outq) && PersistInv(spec, m.inq, m.me, m.outq) && SameToConsumer(outq, m.outq)
  {
    ConcatSnoc(me.stored, me.batch);
  }

  lemma ForwardKeeps(spec: Spec, inq: Queue<Candidate>, me: Persister, outq: Queue<Sighting>)
    requires WellFormed(inq) && WellFormed(outq) && PersistInv(spec, inq, me, outq)
    requires me.phase.Running? && me.pc.Forward? && PersistTurn(spec, inq, me, outq).Some?
    ensures var m := PersistTurn(spec, inq, me, outq).value;
      && m.inq == inq && WellFormed(m.outq) && PersistInv(spec, m.inq, m.me, m.outq) && SameToConsumer(outq, m.outq)
  {
    var rest := me.pc.rest;
    if rest != [] {
      ForwardPutKeeps(spec, inq, me, outq);
    } else {
      assert Sent(outq) + [] == Sent(outq);
      assert Concat(me.stored) + [] == Concat(me.stored);
    }
  }

  lemma ForwardPutKeeps(spec: Spec, inq: Queue<Candidate>, me: Persister, outq: Queue<Sighting>)
    requires WellFormed(outq) && PersistInv(spec, inq, me, outq)
    requires me.phase.Running? && me.pc.Forward? && me.pc.rest != []
    ensures var outq' := Put(outq, me.pc.rest[0]);
      WellFormed(outq') && PersistInv(spec, inq, me.(pc := Forward(me.pc.rest[1..], me.pc.last)), outq')
  {
    var rest := me.pc.rest;
    var outq' := Put(outq, rest[0]);
    var all := Concat(me.stored);
    assert Sent(outq') + rest[1..] == Sent(outq) + ([rest[0]] + rest[1..]);
    assert [rest[0]] + rest[1..] == rest;
    assert Sent(outq') == all[..|Sent(outq')|];
  }

  lemma PersistTurnKeeps(spec: Spec, inq: Queue<Candidate>, me: Persister, outq: Queue<Sighting>)
    requires WellFormed(inq) && WellFormed(outq) && PersistInv(spec, inq, me, outq)
    requires PersistTurn(spec, inq, me, outq).Some?
    ensures var m := PersistTurn(spec, inq, me, outq).value;
      && WellFormed(m.inq) && WellFormed(m.outq) && PersistInv(spec, m.inq, m.me, m.outq)
      && SameToProducer(inq, m.inq) && SameToConsumer(outq, m.outq)
  {
    if me.phase.Running? {
      match me.pc
      case Collect => CollectKeeps(spec, inq, me, outq);
      case Flushing(_) => FlushingKeeps(spec, inq, me, outq);
      case Forward(_, _) => ForwardKeeps(spec, inq, me, outq);
    }
  }

  lemma PersistInterruptKeeps(spec: Spec, why: Exit, committed: bool,
                              inq: Queue<Candidate>, me: Persister, outq: Queue<Sighting>)
    requires WellFormed(outq) && PersistInv(spec, inq, me, outq) && !why.Normal?
    requires PersistInterrupt(spec, why, committed, inq, me, outq).Some?
    ensures var m := PersistInterrupt(spec, why, committed, inq, me, outq).value;
      && m.inq == inq && WellFormed(m.outq) && PersistInv(spec, inq, m.me, m.outq) && SameToConsumer(outq, m.outq)
  {
    if me.pc.Flushing? {
      ConcatSnoc(me.stored, me.batch);
    }
  }

  lemma FanKeeps(spec: Spec, taken: seq<Sighting>, me: Publisher)
    requires me.pc.Fan? && me.pc.k < |spec.publishers| && PublishPcInv(spec, taken, me)
    requires DeliveredSoFar(spec.publishers, me.fan, Delivers(spec))
    ensures var fan := Append(spec.publishers, me.fan, me.pc.k, me.pc.x);
      var full := Full(spec.publishers, spec.batchSize, fan, me.pc.k);
      var pc := if full then Pushing(me.pc.x, me.pc.k) else Fan(me.pc.x, me.pc.k + 1);
      PublishPcInv(spec, taken, me.(pc := pc, fan := fan)) && DeliveredSoFar(spec.publishers, fan, Delivers(spec))
  {
    var fan := Append(spec.publishers, me.fan, me.pc.k, me.pc.x);
    assert Deliver(spec.publishers, spec.batchSize, me.fan, me.pc.k, me.pc.x) ==
      if Full(spec.publishers, spec.batchSize, fan, me.pc.k) then Push(spec.publishers, fan, me.pc.k) else fan;
    assert forall k: nat :: HandedTo(fan, k) == HandedTo(me.fan, k);
  }

  /** Where the batch in hand leads once it is taken. */
  lemma PushPlanned(spec: Spec, taken: seq<Sighting>, me: Publisher, k: nat)
    requires PublishPcInv(spec, taken, me) && InHand(spec, me) == Some(k)
    ensures k < |spec.publishers|
    ensures WithinPlan(spec.publishers, spec.batchSize, Push(spec.publishers, me.fan, k), taken)
  {
    var names, size := spec.publishers, spec.batchSize;
    if me.pc.Pushing? {
      MidFanWithinPlan(names, size, Push(names, me.fan, k), k + 1, me.pc.x, taken, taken);
    } else {
      MidFlushWithinPlan(names, size, Push(names, me.fan, k), k + 1, taken);
    }
  }

  lemma AlwaysWithinPlan(spec: Spec, taken: seq<Sighting>, me: Publisher)
    requires PublishPcInv(spec, taken, me)
    ensures WithinPlan(spec.publishers, spec.batchSize, me.fan, taken)
  {
    var names, size := spec.publishers, spec.batchSize;
    match me.pc
    case Idle =>
      forall k: nat | k < |names| ensures HandedTo(me.fan, k) <= Plan(names, size, taken, k) {
        FeedWithinPlan(names, size, taken, taken, k);
      }
    case Fan(x, j) => MidFanWithinPlan(names, size, me.fan, j, x, taken, taken);
    case Pushing(x, j) =>
      PushPlanned(spec, taken, me, j);
      NextOfPlan(names, size, me.fan, j, taken);
    case Final(j) => MidFlushWithinPlan(names, size, me.fan, j, taken);
  }

  lemma PushKeeps(spec: Spec, inq: Queue<Sighting>, me: Publisher, k: nat, next: PublishPc)
    requires PublishInv(spec, inq, me) && me.phase.Running? && InHand(spec, me) == Some(k)
    requires next == if me.pc.Pushing? then Fan(me.pc.x, k + 1) else Final(k + 1)
    ensures k < |spec.publishers| && PublishInv(spec, inq, PushTurn(spec, me, k, next))
  {
    var names := spec.publishers;
    PushPlanned(spec, inq.taken, me, k);
    NextOfPlan(names, spec.batchSize, me.fan, k, inq.taken);
    if spec.push(k, BufOf(me.fan, names[k])).Taken? {
      PushDelivers(names, me.fan, k, Delivers(spec));
    }
  }

  lemma IdleTurnKeeps(spec: Spec, inq: Queue<Sighting>, me: Publisher)
    requires WellFormed(inq) && PublishInv(spec, inq, me) && me.pc.Idle? && PublishTurn(spec, inq, me).Some?
    ensures var m := PublishTurn(spec, inq, me).value;
      WellFormed(m.0) && PublishInv(spec, m.0, m.1) && SameToProducer(inq, m.0)
  {
    if inq.buf[0].Item? {
      assert (inq.taken + [inq.buf[0].value])[..|inq.taken|] == inq.taken;
    }
  }

  lemma FinalTurnKeeps(spec: Spec, inq: Queue<Sighting>, me: Publisher)
    requires PublishInv(spec, inq, me) && me.pc.Final? && PublishTurn(spec, inq, me).Some?
    ensures PublishTurn(spec, inq, me).value.0 == inq && PublishInv(spec, inq, PublishTurn(spec, inq, me).value.1)
  {
    var k := me.pc.k;
    if k >= |spec.publishers| {
      AlwaysWithinPlan(spec, inq.taken, me);
    } else if BufOf(me.fan, spec.publishers[k]) != [] {
      PushKeeps(spec, inq, me, k, Final(k + 1));
    }
  }

  lemma PublishTurnKeeps(spec: Spec, inq: Queue<Sighting>, me: Publisher)
    requires WellFormed(inq) && PublishInv(spec, inq, me) && PublishTurn(spec, inq, me).Some?
    ensures var m := PublishTurn(spec, inq, me).value;
      WellFormed(m.0) && PublishInv(spec, m.0, m.1) && SameToProducer(inq, m.0)
  {
    match me.pc
    case Idle => IdleTurnKeeps(spec, inq, me);
    case Fan(x, k) =>
      if k < |spec.publishers| { FanKeeps(spec, inq.taken, me); }
    case Pushing(x, k) => PushKeeps(spec, inq, me, k, Fan(x, k + 1));
    case Final(k) => FinalTurnKeeps(spec, inq, me);
  }

  /** An interrupted publish leaves the next batch of the plan half-way out. */
  lemma PublishInterruptKeeps(spec: Spec, why: Exit, sent: nat, inq: Queue<Sighting>, me: Publisher)
    requires PublishInv(spec, inq, me) && !why.Normal? && PublishInterrupt(spec, why, sent, me).Some?
    ensures PublishInv(spec, inq, PublishInterrupt(spec, why, sent, me).value)
  {
    AlwaysWithinPlan(spec, inq.taken, me);
    match InHand(spec, me)
    case None =>
    case Some(k) =>
      PushPlanned(spec, inq.taken, me, k);
      NextOfPlan(spec.publishers, spec.batchSize, me.fan, k, inq.taken);
  }

  // ---- Every step, every run ----

  lemma InitInv(spec: Spec)
    ensures Inv(spec, Init())
  {
    InitPublishInv(spec);
    InitPersistInv(spec);
  }

  lemma InitPublishInv(spec: Spec)
    ensures PublishFlow(Init().qPersist, Init().publish) && PublishInv(spec, Init().qPersist, Init().publish)
  {
  }

  lemma InitPersistInv(spec: Spec)
    ensures PersistInv(spec, Init().qDedup, Init().persist, Init().qPersist)
  {
    assert Attach(spec.ctx, []) == [];
  }

  lemma TurnFetchKeeps(spec: Spec, s: State)
    requires Inv(spec, s) && TurnOf(spec, s, Fetch).Some?
    ensures Inv(spec, TurnOf(spec, s, Fetch).value)
  {
    FetchTurnKeeps(spec, s.fetch, s.qRaw);
  }

  lemma TurnParseKeeps(spec: Spec, s: State)
    requires Inv(spec, s) && TurnOf(spec, s, Parse).Some?
    ensures Inv(spec, TurnOf(spec, s, Parse).value)
  {
    WorkerTurnKeeps(spec.parse, spec.maxsize, s.qRaw, s.parse, s.qRecords);
  }

  lemma TurnNormalizeKeeps(spec: Spec, s: State)
    requires Inv(spec, s) && TurnOf(spec, s, Normalize).Some?
    ensures Inv(spec, TurnOf(spec, s, Normalize).value)
  {
    WorkerTurnKeeps(Normalizer(spec), spec.maxsize, s.qRecords, s.normalize, s.qIndicators);
  }

  lemma TurnEnrichKeeps(spec: Spec, s: State)
    requires Inv(spec, s) && TurnOf(spec, s, Enrich).Some?
    ensures Inv(spec, TurnOf(spec, s, Enrich).value)
  {
    WorkerTurnKeeps(Enricher(spec), spec.maxsize, s.qIndicators, s.enrich, s.qEnriched);
  }

  lemma TurnDedupKeeps(spec: Spec, s: State)
    requires Inv(spec, s) && TurnOf(spec, s, Dedup).Some?
    ensures Inv(spec, TurnOf(spec, s, Dedup).value)
  {
    WorkerTurnKeeps(Deduper(), spec.maxsize, s.qEnriched, s.dedup, s.qDedup);
  }

  lemma TurnPersistKeeps(spec: Spec, s: State)
    requires Inv(spec, s) && TurnOf(spec, s, Persist).Some?
    ensures Inv(spec, TurnOf(spec, s, Persist).value)
  {
    PersistTurnKeeps(spec, s.qDedup, s.persist, s.qPersist);
  }

  lemma TurnPublishKeeps(spec: Spec, s: State)
    requires Inv(spec, s) && TurnOf(spec, s, Publish).Some?
    ensures Inv(spec, TurnOf(spec, s, Publish).value)
  {
    PublishTurnKeeps(spec, s.qPersist, s.publish);
    PublishTurnFlows(spec, s.qPersist, s.publish);
    var m := PublishTurn(spec, s.qPersist, s.publish).value;
    PublishMoves(spec, s, m.0, m.1);
  }

  lemma PublishTurnFlows(spec: Spec, inq: Queue<Sighting>, me: Publisher)
    requires PublishFlow(inq, me) && PublishTurn(spec, inq, me).Some?
    ensures var m := PublishTurn(spec, inq, me).value; PublishFlow(m.0, m.1)
  {
  }

  /** A change at the last stage that its producer cannot see. */
  lemma PublishMoves(spec: Spec, s: State, inq: Queue<Sighting>, me: Publisher)
    requires Inv(spec, s) && WellFormed(inq) && SameToProducer(s.qPersist, inq)
    requires PublishFlow(inq, me) && PublishInv(spec, inq, me)
    ensures Inv(spec, s.(qPersist := inq, publish := me))
  {
  }

  lemma TurnKeeps(spec: Spec, s: State, stage: Stage)
    requires Inv(spec, s) && TurnOf(spec, s, stage).Some?
    ensures Inv(spec, TurnOf(spec, s, stage).value)
  {
    match stage
    case Fetch => TurnFetchKeeps(spec, s);
    case Parse => TurnParseKeeps(spec, s);
    case Normalize => TurnNormalizeKeeps(spec, s);
    case Enrich => TurnEnrichKeeps(spec, s);
    case Dedup => TurnDedupKeeps(spec, s);
    case Persist => TurnPersistKeeps(spec, s);
    case Publish => TurnPublishKeeps(spec, s);
  }

  lemma WorkerInterruptsKeep(spec: Spec, s: State, stage: Stage, why: Exit, progress: nat)
    requires Inv(spec, s) && !why.Normal? && InterruptOf(spec, s, stage, why, progress).Some?
    requires stage.Parse? || stage.Normalize? || stage.Enrich? || stage.Dedup?
    ensures Inv(spec, InterruptOf(spec, s, stage, why, progress).value)
  {
    if stage.Parse? {
      WorkerInterruptKeeps(spec.parse, why, s.qRaw, s.parse, s.qRecords);
    } else if stage.Normalize? {
      WorkerInterruptKeeps(Normalizer(spec), why, s.qRecords, s.normalize, s.qIndicators);
    } else if stage.Enrich? {
      WorkerInterruptKeeps(Enricher(spec), why, s.qIndicators, s.enrich, s.qEnriched);
    } else {
      WorkerInterruptKeeps(Deduper(), why, s.qEnriched, s.dedup, s.qDedup);
    }
  }

  lemma EndInterruptsKeep(spec: Spec, s: State, stage: Stage, why: Exit, progress: nat)
    requires Inv(spec, s) && !why.Normal? && InterruptOf(spec, s, stage, why, progress).Some?
    requires stage.Fetch? || stage.Publish?
    ensures Inv(spec, InterruptOf(spec, s, stage, why, progress).value)
  {
    if stage.Publish? {
      PublishInterruptKeeps(spec, why, progress, s.qPersist, s.publish);
    }
  }

  lemma PersistInterruptedKeeps(spec: Spec, s: State, why: Exit, progress: nat)
    requires Inv(spec, s) && !why.Normal? && InterruptOf(spec, s, Persist, why, progress).Some?
    ensures Inv(spec, InterruptOf(spec, s, Persist, why, progress).value)
  {
    PersistInterruptKeeps(spec, why, progress > 0, s.qDedup, s.persist, s.qPersist);
    var m := PersistInterrupt(spec, why, progress > 0, s.qDedup, s.persist, s.qPersist).value;
    PersistReplaced(spec, s, m.me, m.outq);
  }

  lemma PersistReplaced(spec: Spec, s: State, me: Persister, outq: Queue<Sighting>)
    requires Inv(spec, s) && WellFormed(outq)
    requires PersistInv(spec, s.qDedup, me, outq) && SameToConsumer(s.qPersist, outq)
    ensures Inv(spec, s.(persist := me, qPersist := outq))
  {
  }

  lemma InterruptKeeps(spec: Spec, s: State, stage: Stage, why: Exit, progress: nat)
    requires Inv(spec, s) && !why.Normal? && InterruptOf(spec, s, stage, why, progress).Some?
    ensures Inv(spec, InterruptOf(spec, s, stage, why, progress).value)
  {
    match stage
    case Persist => PersistInterruptedKeeps(spec, s, why, progress);
    case Fetch => EndInterruptsKeep(spec, s, stage, why, progress);
    case Publish => EndInterruptsKeep(spec, s, stage, why, progress);
    case _ => WorkerInterruptsKeep(spec, s, stage, why, progress);
  }

  lemma StepKeeps(spec: Spec, s: State, act: Action)
    requires Inv(spec, s) && Next(spec, s, act).Some?
    ensures Inv(spec, Next(spec, s, act).value)
  {
    match act
    case Turn(stage) => TurnKeeps(spec, s, stage);
    case Fail(stage, progress) => InterruptKeeps(spec, s, stage, Raised, progress);
    case Cancel(stage, progress) => InterruptKeeps(spec, s, stage, Cancelled, progress);
    case WindDown =>
  }

  lemma {:induction false} RunKeeps(spec: Spec, actions: seq<Action>)
    requires Run(spec, actions).Some?
    ensures Inv(spec, Run(spec, actions).value)
    decreases |actions|
  {
    if actions == [] {
      InitInv(spec);
    } else {
      var init := actions[..|actions| - 1];
      RunKeeps(spec, init);
      StepKeeps(spec, Run(spec, init).value, actions[|actions| - 1]);
    }
  }

  lemma ReachableInv(spec: Spec, s: State)
    requires Reachable(spec, s)
    ensures Inv(spec, s)
  {
    var actions :| Run(spec, actions) == Some(s);
    RunKeeps(spec, actions);
  }
}
