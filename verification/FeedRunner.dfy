/**
 * Concurrent executions of feed runs in one worker: the two semaphores, the breaker, the run row
 * and the watermark, stepped through in the order `execute` uses them and interleaved freely.
 */
module FeedRunner {
  import opened Sequences
  import CB = CircuitBreakers

  // ---- Run rows and watermarks ----

  datatype RunState = Pending | Running | Success | Partial | Failed

  type Watermark = map<string, string>

  datatype Row = Row(source: string, state: RunState, finishedAt: Option<real>, watermark: Watermark)

  predicate Terminal(s: RunState) { s == Success || s == Partial || s == Failed }

  function OpenRow(source: string): Row { Row(source, Pending, None, map[]) }

  function MarkedRunning(row: Row): Row { row.(state := Running) }

  function Finalized(row: Row, state: RunState, watermark: Watermark, now: real): Row {
    row.(state := state, finishedAt := Some(now), watermark := watermark)
  }

  /** The two tables behind `state.py`. */
  class RunStore {
    var sources: map<string, Watermark>
    var rows: map<string, Row>

    constructor (sources: map<string, Watermark>)
      ensures this.sources == sources && rows == map[]
    {
      this.sources, rows := sources, map[];
    }

    /** Fails where the source raises: an unregistered source, or a run id that is taken. */
    method OpenRun(source: string, runId: string) returns (snapshot: Option<Watermark>)
      modifies this
      ensures sources == old(sources)
      ensures snapshot.Some? <==> source in sources && runId !in old(rows)
      ensures snapshot.Some? ==> snapshot.value == sources[source]
      ensures snapshot.Some? ==> rows == old(rows)[runId := Row(source, Pending, None, map[])]
      ensures snapshot.None? ==> rows == old(rows)
    {
      if source !in sources || runId in rows {
        return None;
      }
      rows := rows[runId := Row(source, Pending, None, map[])];
      snapshot := Some(sources[source]);
    }

    method MarkRunning(runId: string)
      requires runId in rows
      modifies this
      ensures sources == old(sources) && rows == old(rows)[runId := old(rows)[runId].(state := Running)]
    {
      rows := rows[runId := rows[runId].(state := Running)];
    }

    /** The source's watermark moves only with a successful run. */
    method FinalizeRun(runId: string, state: RunState, watermark: Watermark, now: real)
      requires runId in rows
      modifies this
      ensures rows == old(rows)[runId := Row(old(rows)[runId].source, state, Some(now), watermark)]
      ensures sources == if state == Success && old(rows)[runId].source in old(sources)
        then old(sources)[old(rows)[runId].source := watermark] else old(sources)
    {
      var row := rows[runId].(state := state, finishedAt := Some(now));
      row := row.(watermark := watermark);
      rows := rows[runId := row];
      if state == Success && row.source in sources {
        sources := sources[row.source := watermark];
      }
    }
  }

  // ---- Semaphores ----

  datatype Sem = Sem(cap: int, free: int)

  function Sized(maxParallelism: int): Sem { Sem(Max(1, maxParallelism), Max(1, maxParallelism)) }

  function Took(sem: Sem): Sem { sem.(free := sem.free - 1) }

  function Returned(sem: Sem): Sem { sem.(free := sem.free + 1) }

  /** One semaphore per source, sized by the first request. */
  class PerSourceConcurrency {
    var sems: map<string, Sem>

    constructor ()
      ensures sems == map[]
    {
      sems := map[];
    }

    method Get(source: string, maxParallelism: int) returns (sem: Sem)
      modifies this
      ensures source in sems && sem == sems[source]
      ensures source in old(sems) ==> sems == old(sems)
      ensures source !in old(sems) ==>
        sems == old(sems)[source := if maxParallelism < 1 then Sem(1, 1) else Sem(maxParallelism, maxParallelism)]
    {
      if source !in sems {
        var cap := if maxParallelism < 1 then 1 else maxParallelism;
        sems := sems[source := Sem(cap, cap)];
      }
      sem := sems[source];
    }

    /** False where the caller has to wait. */
    method TryAcquire(source: string) returns (ok: bool)
      requires source in sems
      modifies this
      ensures ok <==> old(sems)[source].free > 0
      ensures !ok ==> sems == old(sems)
      ensures ok ==> sems == old(sems)[source := Sem(old(sems)[source].cap, old(sems)[source].free - 1)]
    {
      var sem := sems[source];
      ok := sem.free > 0;
      if ok {
        sems := sems[source := sem.(free := sem.free - 1)];
      }
    }

    method Release(source: string)
      requires source in sems
      modifies this
      ensures sems == old(sems)[source := Sem(old(sems)[source].cap, old(sems)[source].free + 1)]
    {
      sems := sems[source := sems[source].(free := sems[source].free + 1)];
    }
  }

  // ---- Executions ----

  /** Where one `execute` call stands; each point is a place where it can be suspended. */
  datatype Pc =
    | WaitGlobal
    | WaitSource
    | Checking
    | Building
    | Opening
    | Piping
    | Closing(result: RunState, watermark: Watermark)
    | Reporting(success: bool)
    | Faulted
    | LeaveSource
    | LeaveGlobal
    | Done

  datatype Exec = Exec(source: string, runId: string, pc: Pc)

  predicate HoldsGlobal(pc: Pc) { !pc.WaitGlobal? && !pc.Done? }

  predicate HoldsSource(pc: Pc) { HoldsGlobal(pc) && !pc.WaitSource? && !pc.LeaveGlobal? }

  /** Between `before()` and the outcome. */
  predicate Flying(pc: Pc) { HoldsSource(pc) && !pc.Checking? && !pc.LeaveSource? }

  /** `hist` records what has happened to the breaker. */
  datatype Guard = Guard(policy: CB.Policy, breaker: CB.Breaker, hist: seq<CB.Event>)

  datatype World = World(
    now: real,
    maxConcurrent: int,
    globalFree: int,
    asked: map<string, int>,
    sems: map<string, Sem>,
    guards: map<string, Guard>,
    initial: map<string, Watermark>,
    sources: map<string, Watermark>,
    rows: map<string, Row>,
    execs: map<nat, Exec>)

  function InitWorld(maxConcurrent: int, initial: map<string, Watermark>): World {
    World(0.0, maxConcurrent, maxConcurrent, map[], map[], map[], initial, initial, map[], map[])
  }

  datatype Action =
    | Tick(to: real)
    | Start(e: nat, source: string, runId: string, maxParallelism: int, policy: CB.Policy)
    | TakeGlobal(e: nat)
    | TakeSource(e: nat)
    | CheckBreaker(e: nat)
    | Build(e: nat, ok: bool)
    | OpenRun(e: nat, ok: bool)
    | PipelineEnds(e: nat, result: RunState, watermark: Watermark)
    | PipelineRaises(e: nat)
    | FinalizeRun(e: nat, ok: bool)
    | Report(e: nat)
    | ReleaseSource(e: nat)
    | ReleaseGlobal(e: nat)
    | Interrupt(e: nat)

  /** Everything one step of an execution may change besides the tables. */
  function Move(w: World, e: nat, pc: Pc, global: int, local: int, event: Option<CB.Event>): World
    requires e in w.execs && w.execs[e].source in w.sems && w.execs[e].source in w.guards
  {
    var src := w.execs[e].source;
    var guard := w.guards[src];
    var guard' := match event
      case None => guard
      case Some(ev) => Guard(guard.policy, CB.Apply(guard.policy, guard.breaker, ev), guard.hist + [ev]);
    w.(globalFree := w.globalFree + global,
       sems := w.sems[src := w.sems[src].(free := w.sems[src].free + local)],
       guards := w.guards[src := guard'],
       execs := w.execs[e := w.execs[e].(pc := pc)])
  }

  predicate Known(w: World, e: nat) {
    e in w.execs && w.execs[e].source in w.sems && w.execs[e].source in w.guards
  }

  function StartExec(w: World, e: nat, source: string, runId: string, maxParallelism: int, policy: CB.Policy): World {
    w.(asked := if source in w.asked then w.asked else w.asked[source := maxParallelism],
       sems := if source in w.sems then w.sems else w.sems[source := Sized(maxParallelism)],
       guards := if source in w.guards then w.guards else w.guards[source := Guard(policy, CB.FRESH, [])],
       execs := w.execs[e := Exec(source, runId, WaitGlobal)])
  }

  /** What a step does to the two tables. */
  datatype Tables = Untouched | Opens | Finalizes

  /** The next point, the permits taken (negative) or returned, and what the breaker is told. */
  datatype Plan = Plan(pc: Pc, global: int, local: int, event: Option<CB.Event>, tables: Tables)

  function Quiet(pc: Pc): Option<Plan> { Some(Plan(pc, 0, 0, None, Untouched)) }

  function Telling(pc: Pc, event: CB.Event): Option<Plan> { Some(Plan(pc, 0, 0, Some(event), Untouched)) }

  /** What execution e does at its present point, or None when it has to wait. */
  function Planned(w: World, e: nat, act: Action): Option<Plan>
    requires Known(w, e)
  {
    var x := w.execs[e];
    match x.pc
    case WaitGlobal =>
      if act.TakeGlobal? && w.globalFree > 0 then Some(Plan(WaitSource, -1, 0, None, Untouched)) else None
    case WaitSource =>
      if act.TakeSource? && w.sems[x.source].free > 0 then Some(Plan(Checking, 0, -1, None, Untouched)) else None
    case Checking =>
      if !act.CheckBreaker? then None
      else if CB.Admits(w.guards[x.source].policy, w.guards[x.source].breaker, w.now) then
        Telling(Building, CB.Admit(w.now))
      else Telling(LeaveSource, CB.Refuse(w.now))
    case Building =>
      if !act.Build? then None
      else if act.ok then Quiet(Opening)
      else Telling(LeaveSource, CB.Gone)
    case Opening =>
      if !act.OpenRun? then None
      else if act.ok && x.source in w.sources && x.runId !in w.rows then
        Some(Plan(Piping, 0, 0, None, Opens))
      else Quiet(Faulted)
    case Piping =>
      if act.PipelineEnds? && Terminal(act.result) then Quiet(Closing(act.result, act.watermark))
      else if act.PipelineRaises? then Quiet(Faulted)
      else None
    case Closing(result, _) =>
      if !act.FinalizeRun? then None
      else if act.ok && x.runId in w.rows then Some(Plan(Reporting(result == Success), 0, 0, None, Finalizes))
      else Quiet(Faulted)
    case Reporting(success) =>
      if act.Report? then Telling(LeaveSource, if success then CB.Success else CB.Failure(w.now)) else None
    case Faulted =>
      if act.Report? then Telling(LeaveSource, CB.Failure(w.now)) else None
    case LeaveSource =>
      if act.ReleaseSource? then Some(Plan(LeaveGlobal, 0, 1, None, Untouched)) else None
    case LeaveGlobal =>
      if act.ReleaseGlobal? then Some(Plan(Done, 1, 0, None, Untouched)) else None
    case Done => None
  }

  /** A cancellation unwinds through the semaphores; a run in flight reports no outcome. */
  function Unwinding(pc: Pc): Option<Plan> {
    match pc
    case WaitGlobal => Quiet(Done)
    case WaitSource => Quiet(LeaveGlobal)
    case Checking => Quiet(LeaveSource)
    case LeaveSource => None
    case LeaveGlobal => None
    case Done => None
    case _ => Telling(LeaveSource, CB.Gone)
  }

  function RowsAfter(w: World, x: Exec, tables: Tables): map<string, Row> {
    if tables.Opens? then w.rows[x.runId := MarkedRunning(OpenRow(x.source))]
    else if tables.Finalizes? && x.pc.Closing? && x.runId in w.rows then
      w.rows[x.runId := Finalized(w.rows[x.runId], x.pc.result, x.pc.watermark, w.now)]
    else w.rows
  }

  function SourcesAfter(w: World, x: Exec, tables: Tables): map<string, Watermark> {
    if tables.Finalizes? && x.pc.Closing? && x.pc.result == Success && x.source in w.sources then
      w.sources[x.source := x.pc.watermark]
    else w.sources
  }

  function Perform(w: World, e: nat, p: Plan): World
    requires Known(w, e)
  {
    Move(w, e, p.pc, p.global, p.local, p.event).(
      rows := RowsAfter(w, w.execs[e], p.tables),
      sources := SourcesAfter(w, w.execs[e], p.tables))
  }

  function Carried(w: World, e: nat, plan: Option<Plan>): Option<World>
    requires Known(w, e)
  {
    match plan
    case None => None
    case Some(p) => Some(Perform(w, e, p))
  }

  function Next(w: World, act: Action): Option<World> {
    match act
    case Tick(to) => if to >= w.now then Some(w.(now := to)) else None
    case Start(e, source, runId, maxParallelism, policy) =>
      if e in w.execs then None else Some(StartExec(w, e, source, runId, maxParallelism, policy))
    case Interrupt(e) => if Known(w, e) then Carried(w, e, Unwinding(w.execs[e].pc)) else None
    case _ => if Known(w, act.e) then Carried(w, act.e, Planned(w, act.e, act)) else None
  }

  /** The steps on a source's semaphore do what its object does. */
  lemma SemaphoreSteps(w: World, e: nat)
    requires Known(w, e)
    ensures var s := w.execs[e].source;
      && (w.execs[e].pc.WaitSource? ==>
            && (Next(w, TakeSource(e)).Some? <==> w.sems[s].free > 0)
            && (w.sems[s].free > 0 ==> Next(w, TakeSource(e)).value.sems == w.sems[s := Took(w.sems[s])]))
      && (w.execs[e].pc.LeaveSource? ==>
            Next(w, ReleaseSource(e)).Some? && Next(w, ReleaseSource(e)).value.sems == w.sems[s := Returned(w.sems[s])])
  {
  }

  function Run(w: World, acts: seq<Action>): Option<World> {
    if acts == [] then Some(w)
    else match Run(w, acts[..|acts| - 1])
      case None => None
      case Some(v) => Next(v, acts[|acts| - 1])
  }

  ghost predicate Reachable(w: World) {
    exists max: int, initial, acts :: max >= 0 && Run(InitWorld(max, initial), acts) == Some(w)
  }

  // ---- Counting executions ----

  function Selected(execs: map<nat, Exec>, sel: Exec -> bool): set<nat> {
    set e | e in execs && sel(execs[e])
  }

  function Global(): Exec -> bool { (x: Exec) => HoldsGlobal(x.pc) }

  function Local(source: string): Exec -> bool { (x: Exec) => x.source == source && HoldsSource(x.pc) }

  function Flight(source: string): Exec -> bool { (x: Exec) => x.source == source && Flying(x.pc) }

  function One(b: bool): int { if b then 1 else 0 }

  lemma SizeWithout<T>(s: set<T>, x: T)
    ensures |s| == |s - {x}| + One(x in s)
  {
    if x in s {
      assert s == (s - {x}) + {x};
    } else {
      assert s == s - {x};
    }
  }

  lemma SelectedMoves(execs: map<nat, Exec>, e: nat, x: Exec, sel: Exec -> bool)
    ensures |Selected(execs[e := x], sel)| == |Selected(execs, sel)| - One(e in execs && sel(execs[e])) + One(sel(x))
  {
    var before, after := Selected(execs, sel), Selected(execs[e := x], sel);
    SizeWithout(before, e);
    SizeWithout(after, e);
    assert after - {e} == before - {e} by {
      forall f | f != e ensures f in after <==> f in before {}
    }
  }

  lemma SelectedNone(execs: map<nat, Exec>, sel: Exec -> bool)
    requires forall e :: e in execs ==> !sel(execs[e])
    ensures |Selected(execs, sel)| == 0
  {
    assert Selected(execs, sel) == {};
  }

  // ---- Invariants ----

  /** Free permits and holders of a source add up to its capacity, which the first request fixed. */
  ghost predicate LocalBalance(w: World, s: string)
    requires s in w.sems && s in w.asked
  {
    && w.sems[s].cap == Max(1, w.asked[s]) && w.sems[s].free >= 0
    && w.sems[s].free + |Selected(w.execs, Local(s))| == w.sems[s].cap
  }

  ghost predicate PermitsBalance(w: World) {
    && (forall e :: e in w.execs ==> Known(w, e))
    && w.globalFree >= 0 && w.globalFree + |Selected(w.execs, Global())| == w.maxConcurrent
    && w.asked.Keys == w.sems.Keys
    && (forall s :: s in w.sems ==> LocalBalance(w, s))
  }

  ghost predicate GuardTracks(w: World, s: string)
    requires s in w.guards
  {
    var g := w.guards[s];
    && g.breaker == CB.After(g.policy, g.hist)
    && CB.Legal(g.policy, g.hist) && CB.Clocked(g.hist, w.now)
    && CB.InFlight(g.hist) == |Selected(w.execs, Flight(s))|
    && (s in w.sems && w.sems[s].cap == 1 ==> CB.Serial(g.hist))
  }

  ghost predicate GuardsTrack(w: World) {
    w.guards.Keys == w.sems.Keys && forall s :: s in w.guards ==> GuardTracks(w, s)
  }

  predicate OwnsRow(pc: Pc) { pc.Piping? || pc.Closing? }

  ghost predicate RowsConsistent(w: World) {
    && (forall e :: e in w.execs && OwnsRow(w.execs[e].pc) ==>
          w.execs[e].runId in w.rows && w.rows[w.execs[e].runId].state == Running
          && w.rows[w.execs[e].runId].source == w.execs[e].source)
    && (forall e :: e in w.execs && w.execs[e].pc.Closing? ==> Terminal(w.execs[e].pc.result))
    && (forall e, f :: e in w.execs && f in w.execs && e != f && OwnsRow(w.execs[e].pc) && OwnsRow(w.execs[f].pc) ==>
          w.execs[e].runId != w.execs[f].runId)
    && (forall r :: r in w.rows ==>
          w.rows[r].state != Pending && (w.rows[r].finishedAt.Some? <==> Terminal(w.rows[r].state)))
  }

  /** The row of a successful run of this source that recorded this watermark. */
  predicate Earns(row: Row, source: string, watermark: Watermark) {
    row.state == Success && row.source == source && row.watermark == watermark
  }

  /** The watermark of a source is its first one or was recorded by a successful run of that source. */
  ghost predicate WatermarkEarned(w: World, s: string)
    requires s in w.sources && s in w.initial
  {
    || w.sources[s] == w.initial[s]
    || exists r :: r in w.rows && Earns(w.rows[r], s, w.sources[s])
  }

  ghost predicate WatermarksEarned(w: World) {
    w.sources.Keys == w.initial.Keys && forall s :: s in w.sources ==> WatermarkEarned(w, s)
  }

  ghost predicate Inv(w: World) {
    PermitsBalance(w) && GuardsTrack(w) && RowsConsistent(w) && WatermarksEarned(w)
  }

  // ---- One step keeps them ----

  lemma MoveLocalBalance(w: World, e: nat, pc: Pc, global: int, local: int, event: Option<CB.Event>, s: string)
    requires Known(w, e) && s in w.sems && s in w.asked && LocalBalance(w, s)
    requires local == One(HoldsSource(w.execs[e].pc)) - One(HoldsSource(pc))
    requires w.sems[w.execs[e].source].free + local >= 0
    ensures LocalBalance(Move(w, e, pc, global, local, event), s)
  {
    SelectedMoves(w.execs, e, w.execs[e].(pc := pc), Local(s));
  }

  /** The permits an execution gives back are the ones its new point no longer needs. */
  lemma MoveKeepsPermits(w: World, e: nat, pc: Pc, global: int, local: int, event: Option<CB.Event>)
    requires PermitsBalance(w) && e in w.execs
    requires global == One(HoldsGlobal(w.execs[e].pc)) - One(HoldsGlobal(pc)) && w.globalFree + global >= 0
    requires local == One(HoldsSource(w.execs[e].pc)) - One(HoldsSource(pc))
    requires w.sems[w.execs[e].source].free + local >= 0
    ensures PermitsBalance(Move(w, e, pc, global, local, event))
  {
    assert Known(w, e);
    var w' := Move(w, e, pc, global, local, event);
    SelectedMoves(w.execs, e, w.execs[e].(pc := pc), Global());
    forall s | s in w'.sems ensures LocalBalance(w', s) {
      assert LocalBalance(w, s);
      MoveLocalBalance(w, e, pc, global, local, event, s);
    }
    forall f | f in w'.execs ensures Known(w', f) { assert f == e || Known(w, f); }
  }

  function Weight(event: Option<CB.Event>): int {
    match event
    case None => 0
    case Some(Admit(_)) => 1
    case Some(Refuse(_)) => 0
    case Some(_) => -1
  }

  /** The event is read off the clock and is what the breaker decides. */
  predicate Fitting(now: real, g: Guard, event: CB.Event) {
    match event
    case Admit(t) => t == now && CB.Admits(g.policy, g.breaker, t)
    case Refuse(t) => t == now && !CB.Admits(g.policy, g.breaker, t)
    case Failure(t) => t == now
    case _ => true
  }

  lemma FlightWithinHolders(w: World, s: string)
    ensures |Selected(w.execs, Flight(s))| <= |Selected(w.execs, Local(s))|
  {
    var flying, holding := Selected(w.execs, Flight(s)), Selected(w.execs, Local(s));
    assert flying <= holding;
    SubsetCount(flying, holding);
  }

  lemma SubsetCount(a: set<nat>, b: set<nat>)
    requires a <= b
    ensures |a| <= |b|
  {
    assert b == a + (b - a);
  }

  /** One event on a breaker keeps its bookkeeping, when it is what the breaker decided. */
  lemma HistoryExtends(g: Guard, ev: CB.Event, now: real, serial: bool)
    requires g.breaker == CB.After(g.policy, g.hist) && CB.Legal(g.policy, g.hist) && CB.Clocked(g.hist, now)
    requires Fitting(now, g, ev)
    requires serial ==> CB.Serial(g.hist) && 0 <= CB.InFlight(g.hist) + Weight(Some(ev)) <= 1
    ensures var hist := g.hist + [ev];
      && CB.Apply(g.policy, g.breaker, ev) == CB.After(g.policy, hist)
      && CB.Legal(g.policy, hist) && CB.Clocked(hist, now)
      && CB.InFlight(hist) == CB.InFlight(g.hist) + Weight(Some(ev))
      && (serial ==> CB.Serial(hist))
  {
    assert (g.hist + [ev])[..|g.hist|] == g.hist;
  }

  lemma MoveGuardTracks(w: World, e: nat, pc: Pc, global: int, local: int, event: Option<CB.Event>, s: string)
    requires Known(w, e) && s in w.guards && s in w.sems && s in w.asked && GuardTracks(w, s)
    requires LocalBalance(Move(w, e, pc, global, local, event), s)
    requires One(Flying(pc)) - One(Flying(w.execs[e].pc)) == Weight(event)
    requires event.Some? ==> Fitting(w.now, w.guards[w.execs[e].source], event.value)
    ensures GuardTracks(Move(w, e, pc, global, local, event), s)
  {
    var w' := Move(w, e, pc, global, local, event);
    SelectedMoves(w.execs, e, w.execs[e].(pc := pc), Flight(s));
    FlightWithinHolders(w', s);
    if s == w.execs[e].source && event.Some? {
      HistoryExtends(w.guards[s], event.value, w.now, w.sems[s].cap == 1);
    }
  }

  lemma BalanceOf(w: World, s: string)
    requires PermitsBalance(w) && s in w.sems
    ensures s in w.asked && LocalBalance(w, s)
  {
  }

  lemma GuardOf(w: World, s: string)
    requires GuardsTrack(w) && s in w.guards
    ensures s in w.sems && GuardTracks(w, s)
  {
  }

  lemma MoveKeepsGuards(w: World, e: nat, pc: Pc, global: int, local: int, event: Option<CB.Event>)
    requires PermitsBalance(w) && GuardsTrack(w) && Known(w, e)
    requires PermitsBalance(Move(w, e, pc, global, local, event))
    requires One(Flying(pc)) - One(Flying(w.execs[e].pc)) == Weight(event)
    requires event.Some? ==> Fitting(w.now, w.guards[w.execs[e].source], event.value)
    ensures GuardsTrack(Move(w, e, pc, global, local, event))
  {
    var w' := Move(w, e, pc, global, local, event);
    assert w'.guards.Keys == w.guards.Keys && w'.sems.Keys == w.sems.Keys;
    forall s | s in w'.guards ensures GuardTracks(w', s) {
      GuardOf(w, s);
      BalanceOf(w, s);
      BalanceOf(w', s);
      MoveGuardTracks(w, e, pc, global, local, event, s);
    }
  }

  lemma StartBalances(w: World, e: nat, x: Exec, w': World, s: string)
    requires e !in w.execs && x.pc.WaitGlobal?
    requires s in w.sems ==> s in w.asked && s in w.guards && LocalBalance(w, s) && GuardTracks(w, s)
    requires s !in w.sems ==> forall f :: f in w.execs ==> w.execs[f].source != s
    requires s in w'.sems && s in w'.asked && s in w'.guards && w'.execs == w.execs[e := x] && w'.now == w.now
    requires s in w.sems ==> w'.sems[s] == w.sems[s] && w'.asked[s] == w.asked[s] && w'.guards[s] == w.guards[s]
    requires s !in w.sems ==> w'.sems[s] == Sem(Max(1, w'.asked[s]), Max(1, w'.asked[s]))
    requires s !in w.sems ==> w'.guards[s].breaker == CB.FRESH && w'.guards[s].hist == []
    ensures LocalBalance(w', s) && GuardTracks(w', s)
  {
    SelectedMoves(w.execs, e, x, Local(s));
    SelectedMoves(w.execs, e, x, Flight(s));
    if s !in w.sems {
      SelectedNone(w.execs, Local(s));
      SelectedNone(w.execs, Flight(s));
    }
  }

  lemma SourceFacts(w: World, s: string)
    requires PermitsBalance(w) && GuardsTrack(w)
    ensures s in w.sems ==> s in w.asked && s in w.guards && LocalBalance(w, s) && GuardTracks(w, s)
    ensures s !in w.sems ==> s !in w.asked && s !in w.guards
    ensures s !in w.sems ==> forall f :: f in w.execs ==> w.execs[f].source != s
  {
    if s !in w.sems {
      forall f | f in w.execs ensures w.execs[f].source != s { assert Known(w, f); }
    }
  }

  lemma StartAt(w: World, e: nat, source: string, runId: string, maxParallelism: int, policy: CB.Policy, s: string)
    requires PermitsBalance(w) && GuardsTrack(w) && e !in w.execs
    requires s in StartExec(w, e, source, runId, maxParallelism, policy).sems
    ensures var w' := StartExec(w, e, source, runId, maxParallelism, policy);
      s in w'.asked && s in w'.guards && LocalBalance(w', s) && GuardTracks(w', s)
  {
    SourceFacts(w, s);
    StartFields(w, e, source, runId, maxParallelism, policy, s);
    StartBalances(w, e, Exec(source, runId, WaitGlobal), StartExec(w, e, source, runId, maxParallelism, policy), s);
  }

  lemma StartFields(w: World, e: nat, source: string, runId: string, maxParallelism: int, policy: CB.Policy, s: string)
    requires s in StartExec(w, e, source, runId, maxParallelism, policy).sems
    requires s in w.sems ==> s in w.asked && s in w.guards
    requires s !in w.sems ==> s !in w.asked && s !in w.guards
    ensures var w' := StartExec(w, e, source, runId, maxParallelism, policy);
      && s in w'.asked && s in w'.guards && w'.execs == w.execs[e := Exec(source, runId, WaitGlobal)] && w'.now == w.now
      && (s in w.sems ==> w'.sems[s] == w.sems[s] && w'.asked[s] == w.asked[s] && w'.guards[s] == w.guards[s])
      && (s !in w.sems ==> w'.sems[s] == Sem(Max(1, w'.asked[s]), Max(1, w'.asked[s])))
      && (s !in w.sems ==> w'.guards[s].breaker == CB.FRESH && w'.guards[s].hist == [])
  {
  }

  lemma StartKeepsLocals(w: World, e: nat, source: string, runId: string, maxParallelism: int, policy: CB.Policy)
    requires PermitsBalance(w) && GuardsTrack(w) && e !in w.execs
    ensures var w' := StartExec(w, e, source, runId, maxParallelism, policy);
      forall s :: s in w'.sems ==> s in w'.asked && LocalBalance(w', s)
  {
    var w' := StartExec(w, e, source, runId, maxParallelism, policy);
    forall s | s in w'.sems ensures s in w'.asked && LocalBalance(w', s) {
      StartAt(w, e, source, runId, maxParallelism, policy, s);
    }
  }

  lemma StartKeepsKnown(w: World, e: nat, source: string, runId: string, maxParallelism: int, policy: CB.Policy)
    requires PermitsBalance(w) && GuardsTrack(w) && e !in w.execs
    ensures var w' := StartExec(w, e, source, runId, maxParallelism, policy);
      (forall f :: f in w'.execs ==> Known(w', f)) && w'.asked.Keys == w'.sems.Keys
  {
    var w' := StartExec(w, e, source, runId, maxParallelism, policy);
    forall f | f in w'.execs ensures Known(w', f) { assert f == e || Known(w, f); }
  }

  lemma StartKeepsPermits(w: World, e: nat, source: string, runId: string, maxParallelism: int, policy: CB.Policy)
    requires PermitsBalance(w) && GuardsTrack(w) && e !in w.execs
    ensures PermitsBalance(StartExec(w, e, source, runId, maxParallelism, policy))
  {
    SelectedMoves(w.execs, e, Exec(source, runId, WaitGlobal), Global());
    StartKeepsLocals(w, e, source, runId, maxParallelism, policy);
    StartKeepsKnown(w, e, source, runId, maxParallelism, policy);
  }

  lemma StartKeepsGuards(w: World, e: nat, source: string, runId: string, maxParallelism: int, policy: CB.Policy)
    requires PermitsBalance(w) && GuardsTrack(w) && e !in w.execs
    ensures GuardsTrack(StartExec(w, e, source, runId, maxParallelism, policy))
  {
    var w' := StartExec(w, e, source, runId, maxParallelism, policy);
    assert w'.guards.Keys == w'.sems.Keys;
    forall s | s in w'.guards ensures GuardTracks(w', s) {
      StartAt(w, e, source, runId, maxParallelism, policy, s);
    }
  }

  /** An execution that stays off the run rows, or keeps its own, disturbs none. */
  lemma RowsFrame(w: World, w': World, e: nat, x: Exec)
    requires RowsConsistent(w) && w'.rows == w.rows && w'.execs == w.execs[e := x]
    requires OwnsRow(x.pc) ==> e in w.execs && OwnsRow(w.execs[e].pc)
    requires OwnsRow(x.pc) ==> x.runId == w.execs[e].runId && x.source == w.execs[e].source
    requires x.pc.Closing? ==> Terminal(x.pc.result)
    ensures RowsConsistent(w')
  {
    forall f | f in w'.execs && OwnsRow(w'.execs[f].pc)
      ensures w'.execs[f].runId in w'.rows && w'.rows[w'.execs[f].runId].state == Running
      ensures w'.rows[w'.execs[f].runId].source == w'.execs[f].source
    {
      assert f in w.execs && OwnsRow(w.execs[f].pc);
    }
    forall f, g | f in w'.execs && g in w'.execs && f != g && OwnsRow(w'.execs[f].pc) && OwnsRow(w'.execs[g].pc)
      ensures w'.execs[f].runId != w'.execs[g].runId
    {
      assert OwnsRow(w.execs[f].pc) && OwnsRow(w.execs[g].pc);
    }
  }

  lemma WatermarksFrame(w: World, w': World)
    requires WatermarksEarned(w) && w'.rows == w.rows && w'.sources == w.sources && w'.initial == w.initial
    ensures WatermarksEarned(w')
  {
    forall s | s in w'.sources ensures WatermarkEarned(w', s) { assert WatermarkEarned(w, s); }
  }

  lemma StartKeeps(w: World, e: nat, source: string, runId: string, maxParallelism: int, policy: CB.Policy)
    requires Inv(w) && e !in w.execs
    ensures Inv(StartExec(w, e, source, runId, maxParallelism, policy))
  {
    var w' := StartExec(w, e, source, runId, maxParallelism, policy);
    StartKeepsPermits(w, e, source, runId, maxParallelism, policy);
    StartKeepsGuards(w, e, source, runId, maxParallelism, policy);
    RowsFrame(w, w', e, Exec(source, runId, WaitGlobal));
    WatermarksFrame(w, w');
  }

  lemma TickKeeps(w: World, to: real)
    requires Inv(w) && to >= w.now
    ensures Inv(w.(now := to))
  {
    var w' := w.(now := to);
    forall f | f in w'.execs ensures Known(w', f) { assert Known(w, f); }
    forall s | s in w'.sems ensures LocalBalance(w', s) { assert LocalBalance(w, s); }
    forall s | s in w'.guards ensures GuardTracks(w', s) {
      assert GuardTracks(w, s);
      CB.ClockedLater(w.guards[s].hist, w.now, to);
    }
    WatermarksFrame(w, w');
  }

  // ---- Steps that touch no table ----

  /** The bookkeeping a move has to respect: permits follow the point, events follow the flight. */
  predicate Balanced(w: World, e: nat, pc: Pc, global: int, local: int, event: Option<CB.Event>)
    requires Known(w, e)
  {
    && global == One(HoldsGlobal(w.execs[e].pc)) - One(HoldsGlobal(pc)) && w.globalFree + global >= 0
    && local == One(HoldsSource(w.execs[e].pc)) - One(HoldsSource(pc)) && w.sems[w.execs[e].source].free + local >= 0
    && One(Flying(pc)) - One(Flying(w.execs[e].pc)) == Weight(event)
    && (event.Some? ==> Fitting(w.now, w.guards[w.execs[e].source], event.value))
  }

  lemma MoveKeepsBalances(w: World, e: nat, pc: Pc, global: int, local: int, event: Option<CB.Event>)
    requires PermitsBalance(w) && GuardsTrack(w) && Known(w, e) && Balanced(w, e, pc, global, local, event)
    ensures PermitsBalance(Move(w, e, pc, global, local, event)) && GuardsTrack(Move(w, e, pc, global, local, event))
  {
    MoveKeepsPermits(w, e, pc, global, local, event);
    MoveKeepsGuards(w, e, pc, global, local, event);
  }

  // ---- Steps on the tables ----

  /** Permits and breakers do not depend on the tables. */
  lemma TablesDoNotMatter(w: World, rows: map<string, Row>, sources: map<string, Watermark>)
    requires PermitsBalance(w) && GuardsTrack(w)
    ensures PermitsBalance(w.(rows := rows, sources := sources)) && GuardsTrack(w.(rows := rows, sources := sources))
  {
    var w' := w.(rows := rows, sources := sources);
    forall f | f in w'.execs ensures Known(w', f) { assert Known(w, f); }
    forall s | s in w'.sems ensures LocalBalance(w', s) { assert LocalBalance(w, s); }
    forall s | s in w'.guards ensures GuardTracks(w', s) { assert GuardTracks(w, s); }
  }

  lemma OpenedRows(w: World, w': World, e: nat, x: Exec, runId: string)
    requires RowsConsistent(w) && e in w.execs && runId == w.execs[e].runId && runId !in w.rows
    requires x == w.execs[e].(pc := x.pc) && x.pc.Piping? && w'.execs == w.execs[e := x]
    requires w'.rows == w.rows[runId := MarkedRunning(OpenRow(x.source))]
    ensures RowsConsistent(w')
  {
    forall f | f in w'.execs && f != e && OwnsRow(w'.execs[f].pc)
      ensures w'.execs[f].runId in w.rows && w'.execs[f].runId != runId
    {
      assert f in w.execs && OwnsRow(w.execs[f].pc);
    }
  }

  lemma OpenedWatermarks(w: World, w': World, runId: string)
    requires WatermarksEarned(w) && runId !in w.rows && w'.sources == w.sources && w'.initial == w.initial
    requires forall r :: r in w.rows ==> r in w'.rows && w'.rows[r] == w.rows[r]
    ensures WatermarksEarned(w')
  {
    forall s | s in w'.sources ensures WatermarkEarned(w', s) {
      assert WatermarkEarned(w, s);
      if w.sources[s] != w.initial[s] {
        var r :| r in w.rows && Earns(w.rows[r], s, w.sources[s]);
        assert r in w'.rows && w'.rows[r] == w.rows[r];
      }
    }
  }

  lemma FinalizedRows(w: World, w': World, e: nat, x: Exec)
    requires RowsConsistent(w) && e in w.execs && w.execs[e].pc.Closing? && w.execs[e].runId in w.rows
    requires x == w.execs[e].(pc := x.pc) && x.pc.Reporting? && w'.execs == w.execs[e := x]
    requires var pc := w.execs[e].pc;
      w'.rows == w.rows[x.runId := Finalized(w.rows[x.runId], pc.result, pc.watermark, w.now)]
    ensures RowsConsistent(w')
  {
    assert Terminal(w.execs[e].pc.result);
    forall f | f in w'.execs && OwnsRow(w'.execs[f].pc) ensures f in w.execs && f != e && w'.execs[f].runId != x.runId {
      assert OwnsRow(w.execs[e].pc);
    }
  }

  lemma FinalizedWatermarks(w: World, w': World, e: nat)
    requires RowsConsistent(w) && WatermarksEarned(w)
    requires e in w.execs && w.execs[e].pc.Closing? && w.execs[e].runId in w.rows
    requires var x := w.execs[e];
      w'.rows == w.rows[x.runId := Finalized(w.rows[x.runId], x.pc.result, x.pc.watermark, w.now)]
    requires var x := w.execs[e];
      w'.sources == SourcesAfter(w, x, Finalizes)
    requires w'.initial == w.initial
    ensures WatermarksEarned(w')
  {
    var x := w.execs[e];
    assert OwnsRow(x.pc);
    forall s | s in w'.sources ensures WatermarkEarned(w', s) {
      if x.pc.result == Success && s == x.source {
        assert x.runId in w'.rows && w'.rows[x.runId].watermark == w'.sources[s];
      } else {
        assert WatermarkEarned(w, s);
        if w.sources[s] != w.initial[s] {
          var r :| r in w.rows && Earns(w.rows[r], s, w.sources[s]);
          assert r != x.runId && w'.rows[r] == w.rows[r];
        }
      }
    }
  }

  /** A plan that touches no table may not enter the section in which a run owns its row. */
  predicate Sound(w: World, e: nat, p: Plan)
    requires Known(w, e)
  {
    var x := w.execs[e];
    && Balanced(w, e, p.pc, p.global, p.local, p.event)
    && (p.tables.Untouched? ==> (OwnsRow(p.pc) ==> OwnsRow(x.pc)) && (p.pc.Closing? ==> Terminal(p.pc.result)))
    && (p.tables.Opens? ==> p.pc.Piping? && x.runId !in w.rows)
    && (p.tables.Finalizes? ==> p.pc.Reporting? && x.pc.Closing? && x.runId in w.rows)
  }

  /** Everything `execute` does respects the bookkeeping. */
  lemma PlannedIsSound(w: World, e: nat, act: Action)
    requires Known(w, e) && Planned(w, e, act).Some? && w.globalFree >= 0 && w.sems[w.execs[e].source].free >= 0
    ensures Sound(w, e, Planned(w, e, act).value)
  {
  }

  lemma UnwindingIsSound(w: World, e: nat)
    requires Known(w, e) && Unwinding(w.execs[e].pc).Some? && w.globalFree >= 0 && w.sems[w.execs[e].source].free >= 0
    ensures Sound(w, e, Unwinding(w.execs[e].pc).value)
  {
  }

  lemma PerformKeepsBalances(w: World, e: nat, p: Plan)
    requires PermitsBalance(w) && GuardsTrack(w) && Known(w, e) && Sound(w, e, p)
    ensures PermitsBalance(Perform(w, e, p)) && GuardsTrack(Perform(w, e, p))
  {
    MoveKeepsBalances(w, e, p.pc, p.global, p.local, p.event);
    TablesDoNotMatter(Move(w, e, p.pc, p.global, p.local, p.event),
                      RowsAfter(w, w.execs[e], p.tables), SourcesAfter(w, w.execs[e], p.tables));
  }

  lemma PerformKeepsTables(w: World, e: nat, p: Plan)
    requires RowsConsistent(w) && WatermarksEarned(w) && Known(w, e) && Sound(w, e, p)
    ensures RowsConsistent(Perform(w, e, p)) && WatermarksEarned(Perform(w, e, p))
  {
    var x, w' := w.execs[e], Perform(w, e, p);
    match p.tables
    case Untouched =>
      RowsFrame(w, w', e, x.(pc := p.pc));
      WatermarksFrame(w, w');
    case Opens =>
      OpenedRows(w, w', e, x.(pc := p.pc), x.runId);
      OpenedWatermarks(w, w', x.runId);
    case Finalizes =>
      FinalizedRows(w, w', e, x.(pc := p.pc));
      FinalizedWatermarks(w, w', e);
  }

  lemma PerformKeeps(w: World, e: nat, p: Plan)
    requires Inv(w) && Known(w, e) && Sound(w, e, p)
    ensures Inv(Perform(w, e, p))
  {
    PerformKeepsBalances(w, e, p);
    PerformKeepsTables(w, e, p);
  }

  lemma FreeNonNegative(w: World, e: nat)
    requires Inv(w) && Known(w, e)
    ensures w.globalFree >= 0 && w.sems[w.execs[e].source].free >= 0
  {
    assert LocalBalance(w, w.execs[e].source);
  }

  predicate OfExec(act: Action) { !act.Tick? && !act.Start? && !act.Interrupt? }

  lemma InterruptCarries(w: World, e: nat)
    requires Next(w, Interrupt(e)).Some?
    ensures Known(w, e) && Unwinding(w.execs[e].pc).Some?
    ensures Next(w, Interrupt(e)) == Some(Perform(w, e, Unwinding(w.execs[e].pc).value))
  {
  }

  lemma InterruptIsPlan(w: World, e: nat) returns (p: Plan)
    requires Inv(w) && Next(w, Interrupt(e)).Some?
    ensures Known(w, e) && Sound(w, e, p) && Next(w, Interrupt(e)) == Some(Perform(w, e, p))
    ensures Unwinding(w.execs[e].pc) == Some(p)
  {
    InterruptCarries(w, e);
    FreeNonNegative(w, e);
    UnwindingIsSound(w, e);
    p := Unwinding(w.execs[e].pc).value;
  }

  lemma ExecIsPlan(w: World, act: Action) returns (p: Plan)
    requires Inv(w) && OfExec(act) && Next(w, act).Some?
    ensures Known(w, act.e) && Sound(w, act.e, p) && Next(w, act) == Some(Perform(w, act.e, p))
    ensures Planned(w, act.e, act) == Some(p)
  {
    FreeNonNegative(w, act.e);
    PlannedIsSound(w, act.e, act);
    p := Planned(w, act.e, act).value;
  }

  /** Every step is a tick, a start, or a sound plan carried out. */
  lemma NextIsPlan(w: World, act: Action) returns (e: nat, p: Plan)
    requires Inv(w) && Next(w, act).Some? && !act.Tick? && !act.Start?
    ensures Known(w, e) && Sound(w, e, p) && Next(w, act) == Some(Perform(w, e, p)) && e == act.e
    ensures OfExec(act) ==> Planned(w, e, act) == Some(p)
    ensures act.Interrupt? ==> Unwinding(w.execs[e].pc) == Some(p)
  {
    e := act.e;
    if act.Interrupt? {
      p := InterruptIsPlan(w, e);
    } else {
      p := ExecIsPlan(w, act);
    }
  }

  lemma NextKeeps(w: World, act: Action)
    requires Inv(w) && Next(w, act).Some?
    ensures Inv(Next(w, act).value)
  {
    if act.Tick? {
      TickKeeps(w, act.to);
    } else if act.Start? {
      StartKeeps(w, act.e, act.source, act.runId, act.maxParallelism, act.policy);
    } else {
      var e, p := NextIsPlan(w, act);
      PerformKeeps(w, e, p);
    }
  }

  lemma {:induction false} RunKeeps(max: int, initial: map<string, Watermark>, acts: seq<Action>)
    requires max >= 0 && Run(InitWorld(max, initial), acts).Some?
    ensures Inv(Run(InitWorld(max, initial), acts).value)
    decreases |acts|
  {
    var w0 := InitWorld(max, initial);
    if acts == [] {
      SelectedNone(w0.execs, Global());
      forall s | s in w0.sources ensures WatermarkEarned(w0, s) {}
    } else {
      RunKeeps(max, initial, acts[..|acts| - 1]);
      NextKeeps(Run(w0, acts[..|acts| - 1]).value, acts[|acts| - 1]);
    }
  }

  lemma ReachableInv(w: World)
    requires Reachable(w)
    ensures Inv(w)
  {
    var max: int, initial, acts :| max >= 0 && Run(InitWorld(max, initial), acts) == Some(w);
    RunKeeps(max, initial, acts);
  }
}
