/**
 * The seven stages of one feed run as a transition system. A step is one scheduling turn of one
 * stage, a failure inside a stage, the delivery of a cancellation, or the group's decision to
 * wind down. Any interleaving of steps is a run.
 */
module PipelineMachine {
  import opened Sequences
  import opened Models
  import opened StageQueues
  import opened PublishStage

  // ---- What a run is configured with ----

  /** What a stage makes of one item: what it emits, and whether it then raises. */
  datatype Emission<+B> = Emission(items: seq<B>, raises: bool)

  /** `Reject` is an error that a lenient configuration skips; `Crash` is any other exception. */
  datatype Normalized = Emit(indicator: Indicator) | Skip | Reject | Crash

  datatype Enriched = Keep(indicator: Indicator) | Discard | Fault

  /** A publisher takes a batch, or raises after it has sent some of it. A TLP violation is a way of taking it. */
  datatype Verdict = Taken | Broken(sent: nat)

  /**
   * Plugins are arbitrary functions. `accepts` is the canonical publisher's verdict on a batch; a
   * refused batch makes its `publish` raise and stores nothing. `push` is the verdict of an extra
   * publisher, given by its position.
   */
  datatype Spec = Spec(
    ctx: RunContext,
    payloads: seq<RawPayload>,
    fetchRaises: bool,
    parse: RawPayload -> Emission<Record>,
    normalize: Record -> Normalized,
    skipOnError: bool,
    enrichers: seq<Indicator -> Enriched>,
    accepts: seq<Sighting> -> bool,
    publishers: seq<string>,
    push: (nat, seq<Sighting>) -> Verdict,
    maxsize: int,
    batchSize: int)

  function NormalizeOne(spec: Spec, r: Record): Emission<Candidate> {
    match spec.normalize(r)
    case Emit(ind) => Emission([(ind, r)], false)
    case Skip => Emission([], false)
    case Reject => Emission([], !spec.skipOnError)
    case Crash => Emission([], true)
  }

  function Chain(enrichers: seq<Indicator -> Enriched>, current: Indicator): Enriched {
    if enrichers == [] then Keep(current)
    else match enrichers[0](current)
      case Keep(next) => Chain(enrichers[1..], next)
      case Discard => Discard
      case Fault => Fault
  }

  function EnrichOne(spec: Spec, c: Candidate): Emission<Candidate> {
    match Chain(spec.enrichers, c.0)
    case Keep(ind) => Emission([(ind, c.1)], false)
    case Discard => Emission([], false)
    case Fault => Emission([], true)
  }

  /** The bloom cache is advisory: whatever it answers, the candidate goes through. */
  function DedupOne(c: Candidate): Emission<Candidate> {
    Emission([c], false)
  }

  function Observe(ctx: RunContext, c: Candidate): Sighting {
    (c.0, Observation(c.0.id, ctx.sourceId, ctx.runId, c.0.tlp, c.0.confidence, c.1))
  }

  function Attach(ctx: RunContext, cs: seq<Candidate>): seq<Sighting> {
    seq(|cs|, i requires 0 <= i < |cs| => Observe(ctx, cs[i]))
  }

  function Normalizer(spec: Spec): Record -> Emission<Candidate> { r => NormalizeOne(spec, r) }

  function Enricher(spec: Spec): Candidate -> Emission<Candidate> { c => EnrichOne(spec, c) }

  function Deduper(): Candidate -> Emission<Candidate> { c => DedupOne(c) }

  // ---- Local state of the stages ----

  datatype Exit = Normal | Raised | Cancelled

  /** `Closing` is the wait for room for the end marker. */
  datatype Phase = Running | Closing(why: Exit) | Stopped(why: Exit)

  datatype Fetcher = Fetcher(phase: Phase, next: nat)

  /** A stage between two queues: items it still has to put, and whether it raises after them. */
  datatype Worker<B> = Worker(phase: Phase, pending: seq<B>, doomed: bool)

  /** `last` marks the flush after the end of the input. */
  datatype PersistPc = Collect | Flushing(last: bool) | Forward(rest: seq<Sighting>, last: bool)

  /** `stored` records the batches the canonical publisher has made durable. */
  datatype Persister = Persister(phase: Phase, pc: PersistPc, batch: seq<Sighting>, stored: seq<seq<Sighting>>)

  /** `Pushing` is the wait for publisher k to take its full buffer. */
  datatype PublishPc = Idle | Fan(x: Sighting, k: nat) | Pushing(x: Sighting, k: nat) | Final(k: nat)

  /** A batch that publisher k was sending when the stage stopped, and how much of it was out. */
  datatype Torn = Torn(k: nat, batch: seq<Sighting>, sent: nat)

  datatype Publisher = Publisher(phase: Phase, pc: PublishPc, fan: Fanout<Sighting>, torn: Option<Torn>)

  datatype State = State(
    aborting: bool,
    fetch: Fetcher,
    qRaw: Queue<RawPayload>,
    parse: Worker<Record>,
    qRecords: Queue<Record>,
    normalize: Worker<Candidate>,
    qIndicators: Queue<Candidate>,
    enrich: Worker<Candidate>,
    qEnriched: Queue<Candidate>,
    dedup: Worker<Candidate>,
    qDedup: Queue<Candidate>,
    persist: Persister,
    qPersist: Queue<Sighting>,
    publish: Publisher)

  function Init(): State {
    State(false, Fetcher(Running, 0), Empty(), Worker(Running, [], false), Empty(),
          Worker(Running, [], false), Empty(), Worker(Running, [], false), Empty(),
          Worker(Running, [], false), Empty(), Persister(Running, Collect, [], []), Empty(),
          Publisher(Running, Idle, Fanout(map[], map[]), None))
  }

  // ---- Steps of one stage ----

  /** `close()`: a queue that is closed already gets no second end marker. */
  function AfterLoop<T>(why: Exit, q: Queue<T>): Phase {
    if q.closed then Stopped(why) else Closing(why)
  }

  datatype Moved<A, B> = Moved(inq: Queue<A>, me: Worker<B>, outq: Queue<B>)

  function Leave<A, B>(why: Exit, inq: Queue<A>, outq: Queue<B>): Moved<A, B> {
    Moved(inq, Worker(AfterLoop(why, outq), [], false), Seal(outq))
  }

  /** One turn of a stage that maps each input to some outputs; None when it has to wait. */
  function WorkerTurn<A, B>(f: A -> Emission<B>, maxsize: int, inq: Queue<A>, me: Worker<B>, outq: Queue<B>)
    : Option<Moved<A, B>>
  {
    match me.phase
    case Stopped(_) => None
    case Closing(why) =>
      if Room(maxsize, outq) then Some(Moved(inq, me.(phase := Stopped(why)), PutEnd(outq))) else None
    case Running =>
      if me.pending != [] then
        if Room(maxsize, outq) then Some(Moved(inq, me.(pending := me.pending[1..]), Put(outq, me.pending[0])))
        else None
      else if me.doomed then Some(Leave(Raised, inq, outq))
      else if inq.buf == [] then None
      else match inq.buf[0]
        case End => Some(Leave(Normal, Pop(inq), outq))
        case Item(a) => Some(Moved(Pop(inq), Worker(Running, f(a).items, f(a).raises), outq))
  }

  /**
   * A running stage leaves its loop by an exception and still closes its queue. A stage already
   * waiting in `close` can be cancelled there once, and then its end marker is never put.
   */
  function WorkerInterrupt<A, B>(why: Exit, inq: Queue<A>, me: Worker<B>, outq: Queue<B>): Option<Moved<A, B>> {
    match me.phase
    case Running => Some(Leave(why, inq, outq))
    case Closing(w) =>
      if why.Cancelled? && !w.Cancelled? then Some(Moved(inq, me.(phase := Stopped(Cancelled)), outq)) else None
    case Stopped(_) => None
  }

  function FetchTurn(spec: Spec, me: Fetcher, outq: Queue<RawPayload>): Option<(Fetcher, Queue<RawPayload>)> {
    match me.phase
    case Stopped(_) => None
    case Closing(why) =>
      if Room(spec.maxsize, outq) then Some((me.(phase := Stopped(why)), PutEnd(outq))) else None
    case Running =>
      if me.next < |spec.payloads| then
        if Room(spec.maxsize, outq) then Some((me.(next := me.next + 1), Put(outq, spec.payloads[me.next])))
        else None
      else if spec.fetchRaises then Some((me.(phase := Stopped(Raised)), outq))
      else Some((me.(phase := AfterLoop(Normal, outq)), Seal(outq)))
  }

  /** Fetch has no `finally`: a failed fetch leaves its queue open. */
  function FetchInterrupt(why: Exit, me: Fetcher): Option<Fetcher> {
    match me.phase
    case Running => Some(me.(phase := Stopped(why)))
    case Closing(_) => if why.Cancelled? then Some(me.(phase := Stopped(Cancelled))) else None
    case Stopped(_) => None
  }

  datatype PersistMoved = PersistMoved(inq: Queue<Candidate>, me: Persister, outq: Queue<Sighting>)

  function PersistLeave(why: Exit, inq: Queue<Candidate>, me: Persister, outq: Queue<Sighting>): PersistMoved {
    PersistMoved(inq, me.(phase := AfterLoop(why, outq), pc := Collect), Seal(outq))
  }

  function PersistTurn(spec: Spec, inq: Queue<Candidate>, me: Persister, outq: Queue<Sighting>): Option<PersistMoved> {
    match me.phase
    case Stopped(_) => None
    case Closing(why) =>
      if Room(spec.maxsize, outq) then Some(PersistMoved(inq, me.(phase := Stopped(why)), PutEnd(outq))) else None
    case Running =>
      match me.pc
      case Collect =>
        if inq.buf == [] then None
        else (match inq.buf[0]
          case End =>
            if me.batch == [] then Some(PersistLeave(Normal, Pop(inq), me, outq))
            else Some(PersistMoved(Pop(inq), me.(pc := Flushing(true)), outq))
          case Item(c) =>
            var batch := me.batch + [Observe(spec.ctx, c)];
            var pc := if |batch| >= spec.batchSize then Flushing(false) else Collect;
            Some(PersistMoved(Pop(inq), me.(batch := batch, pc := pc), outq)))
      case Flushing(last) =>
        if spec.accepts(me.batch) then
          Some(PersistMoved(inq, me.(stored := me.stored + [me.batch], pc := Forward(me.batch, last)), outq))
        else Some(PersistLeave(Raised, inq, me, outq))
      case Forward(rest, last) =>
        if rest != [] then
          if Room(spec.maxsize, outq) then
            Some(PersistMoved(inq, me.(pc := Forward(rest[1..], last)), Put(outq, rest[0])))
          else None
        else if last then Some(PersistLeave(Normal, inq, me.(batch := []), outq))
        else Some(PersistMoved(inq, me.(batch := [], pc := Collect), outq))
  }

  /** An interrupted `publish` may or may not have committed its batch. */
  function PersistInterrupt(spec: Spec, why: Exit, committed: bool,
                            inq: Queue<Candidate>, me: Persister, outq: Queue<Sighting>)
    : Option<PersistMoved>
  {
    match me.phase
    case Running =>
      var commits := me.pc.Flushing? && committed && spec.accepts(me.batch);
      var stored := if commits then me.stored + [me.batch] else me.stored;
      Some(PersistLeave(why, inq, me.(stored := stored), outq))
    case Closing(w) =>
      if why.Cancelled? && !w.Cancelled? then Some(PersistMoved(inq, me.(phase := Stopped(Cancelled)), outq)) else None
    case Stopped(_) => None
  }

  /** Publisher k takes its buffer, or raises and ends the stage. */
  function PushTurn(spec: Spec, me: Publisher, k: nat, next: PublishPc): Publisher
    requires k < |spec.publishers|
  {
    var batch := BufOf(me.fan, spec.publishers[k]);
    match spec.push(k, batch)
    case Taken => me.(pc := next, fan := Push(spec.publishers, me.fan, k))
    case Broken(sent) => me.(phase := Stopped(Raised), torn := Some(Torn(k, batch, sent)))
  }

  function PublishTurn(spec: Spec, inq: Queue<Sighting>, me: Publisher): Option<(Queue<Sighting>, Publisher)> {
    if !me.phase.Running? then None
    else match me.pc
      case Idle =>
        if inq.buf == [] then None
        else (match inq.buf[0]
          case End => Some((Pop(inq), me.(pc := Final(0))))
          case Item(x) => Some((Pop(inq), me.(pc := Fan(x, 0)))))
      case Fan(x, k) =>
        if k < |spec.publishers| then
          var fan := Append(spec.publishers, me.fan, k, x);
          var pc := if Full(spec.publishers, spec.batchSize, fan, k) then Pushing(x, k) else Fan(x, k + 1);
          Some((inq, me.(pc := pc, fan := fan)))
        else Some((inq, me.(pc := Idle)))
      case Pushing(x, k) =>
        if k < |spec.publishers| then Some((inq, PushTurn(spec, me, k, Fan(x, k + 1))))
        else Some((inq, me.(pc := Idle)))
      case Final(k) =>
        if k >= |spec.publishers| then Some((inq, me.(phase := Stopped(Normal))))
        else if BufOf(me.fan, spec.publishers[k]) == [] then Some((inq, me.(pc := Final(k + 1))))
        else Some((inq, PushTurn(spec, me, k, Final(k + 1))))
  }

  /** The publisher whose batch is being sent, if any. */
  function InHand(spec: Spec, me: Publisher): Option<nat> {
    match me.pc
    case Pushing(_, k) => if k < |spec.publishers| then Some(k) else None
    case Final(k) =>
      if k < |spec.publishers| && BufOf(me.fan, spec.publishers[k]) != [] then Some(k) else None
    case _ => None
  }

  /** The stage has no `finally`. A batch that is being sent stays half-way out. */
  function PublishInterrupt(spec: Spec, why: Exit, sent: nat, me: Publisher): Option<Publisher> {
    if !me.phase.Running? then None
    else
      var torn := match InHand(spec, me)
        case None => None
        case Some(k) => Some(Torn(k, BufOf(me.fan, spec.publishers[k]), sent));
      Some(me.(phase := Stopped(why), torn := torn))
  }

  // ---- Steps of the whole run ----

  datatype Stage = Fetch | Parse | Normalize | Enrich | Dedup | Persist | Publish

  /**
   * `progress` is how far an interrupted publish had come: for the canonical publisher whether it
   * had committed, for an extra one how many sightings it had sent.
   */
  datatype Action =
    | Turn(stage: Stage)
    | Fail(stage: Stage, progress: nat)
    | Cancel(stage: Stage, progress: nat)
    | WindDown

  function TurnOf(spec: Spec, s: State, stage: Stage): Option<State> {
    match stage
    case Fetch =>
      (match FetchTurn(spec, s.fetch, s.qRaw)
       case None => None
       case Some(m) => Some(s.(fetch := m.0, qRaw := m.1)))
    case Parse =>
      (match WorkerTurn(spec.parse, spec.maxsize, s.qRaw, s.parse, s.qRecords)
       case None => None
       case Some(m) => Some(s.(qRaw := m.inq, parse := m.me, qRecords := m.outq)))
    case Normalize =>
      (match WorkerTurn(Normalizer(spec), spec.maxsize, s.qRecords, s.normalize, s.qIndicators)
       case None => None
       case Some(m) => Some(s.(qRecords := m.inq, normalize := m.me, qIndicators := m.outq)))
    case Enrich =>
      (match WorkerTurn(Enricher(spec), spec.maxsize, s.qIndicators, s.enrich, s.qEnriched)
       case None => None
       case Some(m) => Some(s.(qIndicators := m.inq, enrich := m.me, qEnriched := m.outq)))
    case Dedup =>
      (match WorkerTurn(Deduper(), spec.maxsize, s.qEnriched, s.dedup, s.qDedup)
       case None => None
       case Some(m) => Some(s.(qEnriched := m.inq, dedup := m.me, qDedup := m.outq)))
    case Persist =>
      (match PersistTurn(spec, s.qDedup, s.persist, s.qPersist)
       case None => None
       case Some(m) => Some(s.(qDedup := m.inq, persist := m.me, qPersist := m.outq)))
    case Publish =>
      (match PublishTurn(spec, s.qPersist, s.publish)
       case None => None
       case Some(m) => Some(s.(qPersist := m.0, publish := m.1)))
  }

  function InterruptOf(spec: Spec, s: State, stage: Stage, why: Exit, progress: nat): Option<State> {
    match stage
    case Fetch =>
      (match FetchInterrupt(why, s.fetch)
       case None => None
       case Some(m) => Some(s.(fetch := m)))
    case Parse =>
      (match WorkerInterrupt(why, s.qRaw, s.parse, s.qRecords)
       case None => None
       case Some(m) => Some(s.(parse := m.me, qRecords := m.outq)))
    case Normalize =>
      (match WorkerInterrupt(why, s.qRecords, s.normalize, s.qIndicators)
       case None => None
       case Some(m) => Some(s.(normalize := m.me, qIndicators := m.outq)))
    case Enrich =>
      (match WorkerInterrupt(why, s.qIndicators, s.enrich, s.qEnriched)
       case None => None
       case Some(m) => Some(s.(enrich := m.me, qEnriched := m.outq)))
    case Dedup =>
      (match WorkerInterrupt(why, s.qEnriched, s.dedup, s.qDedup)
       case None => None
       case Some(m) => Some(s.(dedup := m.me, qDedup := m.outq)))
    case Persist =>
      (match PersistInterrupt(spec, why, progress > 0, s.qDedup, s.persist, s.qPersist)
       case None => None
       case Some(m) => Some(s.(persist := m.me, qPersist := m.outq)))
    case Publish =>
      (match PublishInterrupt(spec, why, progress, s.publish)
       case None => None
       case Some(m) => Some(s.(publish := m)))
  }

  /** The successor under an action, or None when it is not enabled. */
  function Next(spec: Spec, s: State, act: Action): Option<State> {
    match act
    case Turn(stage) => TurnOf(spec, s, stage)
    case Fail(stage, progress) => InterruptOf(spec, s, stage, Raised, progress)
    case Cancel(stage, progress) => if s.aborting then InterruptOf(spec, s, stage, Cancelled, progress) else None
    case WindDown => if s.aborting then None else Some(s.(aborting := true))
  }

  /** The state after a run, or None when some action was not enabled. */
  function Run(spec: Spec, actions: seq<Action>): Option<State> {
    if actions == [] then Some(Init())
    else match Run(spec, actions[..|actions| - 1])
      case None => None
      case Some(s) => Next(spec, s, actions[|actions| - 1])
  }

  ghost predicate Reachable(spec: Spec, s: State) {
    exists actions :: Run(spec, actions) == Some(s)
  }

  function PhaseOf(s: State, stage: Stage): Phase {
    match stage
    case Fetch => s.fetch.phase
    case Parse => s.parse.phase
    case Normalize => s.normalize.phase
    case Enrich => s.enrich.phase
    case Dedup => s.dedup.phase
    case Persist => s.persist.phase
    case Publish => s.publish.phase
  }

  predicate AllStopped(s: State) {
    forall stage: Stage :: PhaseOf(s, stage).Stopped?
  }

  /** No stage has failed or been cancelled. */
  predicate Healthy(s: State) {
    forall stage: Stage :: PhaseOf(s, stage).Running? || PhaseOf(s, stage).why.Normal?
  }

  // ---- Meaning ----

  /** All that a stage emits for a sequence of inputs. */
  function Outputs<A, B>(f: A -> Emission<B>, xs: seq<A>): seq<B> {
    if xs == [] then [] else Outputs(f, xs[..|xs| - 1]) + f(xs[|xs| - 1]).items
  }

  predicate Clean<A, B>(f: A -> Emission<B>, xs: seq<A>) {
    forall i :: 0 <= i < |xs| ==> !f(xs[i]).raises
  }

  function Parsed(spec: Spec): seq<Record> { Outputs(spec.parse, spec.payloads) }

  function Candidates(spec: Spec): seq<Candidate> { Outputs(Normalizer(spec), Parsed(spec)) }

  function Survivors(spec: Spec): seq<Candidate> { Outputs(Enricher(spec), Candidates(spec)) }

  /** What one record contributes when it is carried through on its own. */
  function Ingest(spec: Spec, r: Record): seq<Sighting> {
    match spec.normalize(r)
    case Skip => []
    case Reject => []
    case Crash => []
    case Emit(ind) =>
      match Chain(spec.enrichers, ind)
      case Discard => []
      case Fault => []
      case Keep(out) => [Observe(spec.ctx, (out, r))]
  }

  function IngestAll(spec: Spec, rs: seq<Record>): seq<Sighting> {
    if rs == [] then [] else IngestAll(spec, rs[..|rs| - 1]) + Ingest(spec, rs[|rs| - 1])
  }

  /**
   * The sequential meaning of a run: payload by payload, record by record, each carried through
   * normalization, enrichment and attachment before the next one is looked at.
   */
  function Sequential(spec: Spec, payloads: seq<RawPayload>): seq<Sighting> {
    if payloads == [] then []
    else Sequential(spec, payloads[..|payloads| - 1]) + IngestAll(spec, spec.parse(payloads[|payloads| - 1]).items)
  }

  function Meaning(spec: Spec): seq<Sighting> {
    Sequential(spec, spec.payloads)
  }

  /** The meaning, cut at the batch size. */
  function Batches(spec: Spec): seq<seq<Sighting>> {
    Chunks(Meaning(spec), Max(1, spec.batchSize))
  }

  /** Every batch the persist stage will cut out of the meaning is one the publisher accepts. */
  predicate AllAccepted(spec: Spec) {
    forall i :: 0 <= i < |Batches(spec)| ==> spec.accepts(Batches(spec)[i])
  }

  function Delivers(spec: Spec): (nat, seq<Sighting>) -> bool {
    (k: nat, batch: seq<Sighting>) => spec.push(k, batch).Taken?
  }

  /** Every batch that the publish stage will cut out of the meaning is one its publisher takes. */
  ghost predicate AllTaken(spec: Spec) {
    AllDelivered(spec.publishers, spec.batchSize, Meaning(spec), Delivers(spec))
  }

  /** The stages before the canonical publisher raise on nothing the run will show them. */
  predicate CleanUpstream(spec: Spec) {
    && !spec.fetchRaises
    && Clean(spec.parse, spec.payloads)
    && Clean(Normalizer(spec), Parsed(spec))
    && Clean(Enricher(spec), Candidates(spec))
  }

  /** No plugin raises on anything the run will show it. */
  ghost predicate FaultFree(spec: Spec) {
    CleanUpstream(spec) && AllAccepted(spec) && AllTaken(spec)
  }
}
