/**
 * The durable store behind the canonical publisher: one upsert statement per batch, and what any
 * history of statements leaves in the indicator table.
 */
module IndicatorStore {
  import opened Sequences
  import opened Models

  type Table = map<Uuid, Indicator>

  datatype StoreError = RowAffectedTwice | UniqueViolation

  datatype Result<T> = Ok(value: T) | Err(error: StoreError)

  /** ON CONFLICT (id) DO UPDATE: three columns move, all others keep their first value. */
  function Merge(row: Indicator, excluded: Indicator): Indicator {
    row.(lastSeen := Max(row.lastSeen, excluded.lastSeen),
         confidence := Max(row.confidence, excluded.confidence),
         tags := excluded.tags)
  }

  /** One row at a time. */
  function Upsert(t: Table, ind: Indicator): Table {
    t[ind.id := if ind.id in t then Merge(t[ind.id], ind) else ind]
  }

  function UpsertAll(t: Table, inds: seq<Indicator>): Table {
    if inds == [] then t else Upsert(UpsertAll(t, inds[..|inds| - 1]), inds[|inds| - 1])
  }

  function Indicators(batch: seq<Sighting>): seq<Indicator> {
    seq(|batch|, i requires 0 <= i < |batch| => batch[i].0)
  }

  function Observations(batch: seq<Sighting>): seq<Observation> {
    seq(|batch|, i requires 0 <= i < |batch| => batch[i].1)
  }

  predicate DistinctIds(batch: seq<Sighting>) {
    forall i, j :: 0 <= i < j < |batch| ==> batch[i].0.id != batch[j].0.id
  }

  function Ids(batch: seq<Sighting>): set<Uuid> {
    set i | 0 <= i < |batch| :: batch[i].0.id
  }

  /** The row of the statement that carries this id. */
  function RowFor(batch: seq<Sighting>, id: Uuid): Indicator
    requires exists i :: 0 <= i < |batch| && batch[i].0.id == id
  {
    if batch[|batch| - 1].0.id == id then batch[|batch| - 1].0 else RowFor(batch[..|batch| - 1], id)
  }

  /** The effect of one INSERT ... ON CONFLICT statement: every row is judged against the table as it was. */
  function Statement(t: Table, batch: seq<Sighting>): Table {
    map id | id in t.Keys + Ids(batch) ::
      if id !in Ids(batch) then t[id]
      else if id in t then Merge(t[id], RowFor(batch, id)) else RowFor(batch, id)
  }

  /** UNIQUE (type, value). */
  predicate Unique(t: Table) {
    forall a, b :: a in t && b in t && t[a].kind == t[b].kind && t[a].value == t[b].value ==> a == b
  }

  lemma IdsSnoc(batch: seq<Sighting>, i: nat)
    requires i < |batch|
    ensures Ids(batch[..i + 1]) == Ids(batch[..i]) + {batch[i].0.id}
  {
    forall id | id in Ids(batch[..i + 1]) ensures id in Ids(batch[..i]) + {batch[i].0.id} {
      var j :| 0 <= j < |batch[..i + 1]| && batch[..i + 1][j].0.id == id;
      if j < i { assert batch[..i][j].0.id == id; }
    }
    forall id | id in Ids(batch[..i]) ensures id in Ids(batch[..i + 1]) {
      var j :| 0 <= j < |batch[..i]| && batch[..i][j].0.id == id;
      assert batch[..i + 1][j].0.id == id;
    }
    assert batch[..i + 1][i].0.id == batch[i].0.id;
  }

  /** One more row in a statement is one more upsert. */
  lemma StatementSnoc(t: Table, batch: seq<Sighting>)
    requires batch != [] && DistinctIds(batch)
    ensures Statement(t, batch) == Upsert(Statement(t, batch[..|batch| - 1]), batch[|batch| - 1].0)
  {
    var n := |batch| - 1;
    var init, ind := batch[..n], batch[n].0;
    IdsSnoc(batch, n);
    assert batch[..n + 1] == batch;
    assert forall j :: 0 <= j < |init| ==> init[j].0.id == batch[j].0.id;
    assert ind.id !in Ids(init);
    var left, right := Statement(t, batch), Upsert(Statement(t, init), ind);
    assert left.Keys == right.Keys;
    forall id | id in left ensures left[id] == right[id] {
      if id != ind.id && id in Ids(batch) {
        assert RowFor(batch, id) == RowFor(init, id);
      }
    }
  }

  /** With distinct ids the statement is the same as upserting its rows one after the other. */
  lemma {:induction false} StatementIsUpserts(t: Table, batch: seq<Sighting>)
    requires DistinctIds(batch)
    ensures Statement(t, batch) == UpsertAll(t, Indicators(batch))
    decreases |batch|
  {
    if batch == [] {
      assert Statement(t, batch) == t;
    } else {
      StatementIsUpserts(t, batch[..|batch| - 1]);
      StatementSnoc(t, batch);
      assert Indicators(batch)[..|batch| - 1] == Indicators(batch[..|batch| - 1]);
    }
  }

  /** One more row: its id has been seen, or the rows so far are distinct with it. */
  lemma NextId(batch: seq<Sighting>, i: nat)
    requires i < |batch| && DistinctIds(batch[..i])
    ensures batch[i].0.id in Ids(batch[..i]) ==> !DistinctIds(batch)
    ensures batch[i].0.id !in Ids(batch[..i]) ==> DistinctIds(batch[..i + 1])
    ensures Ids(batch[..i + 1]) == Ids(batch[..i]) + {batch[i].0.id}
  {
    IdsSnoc(batch, i);
    if batch[i].0.id in Ids(batch[..i]) {
      var j :| 0 <= j < i && batch[..i][j].0.id == batch[i].0.id;
      assert batch[j].0.id == batch[i].0.id;
    } else {
      assert forall j :: 0 <= j < i ==> batch[..i][j].0.id in Ids(batch[..i]);
    }
  }

  /** Each sighting's observation has been added, in order. */
  predicate Added(before: seq<Observation>, after: seq<Observation>, batch: seq<Sighting>) {
    && |after| == |before| + |batch| && before <= after
    && forall i :: 0 <= i < |batch| ==> after[|before| + i] == batch[i].1
  }

  lemma ObservationsAdded(before: seq<Observation>, batch: seq<Sighting>)
    ensures Added(before, before + Observations(batch), batch)
  {
  }

  class IndicatorRepo {
    var indicators: Table
    var observations: seq<Observation>

    constructor ()
      ensures indicators == map[] && observations == []
    {
      indicators, observations := map[], [];
    }

    /** One transaction: a refused statement leaves no trace. */
    method UpsertBatch(batch: seq<Sighting>) returns (r: Result<nat>)
      modifies this
      ensures r.Ok? <==> batch == [] || (DistinctIds(batch) && Unique(Statement(old(indicators), batch)))
      ensures r.Ok? ==> r.value == |batch|
      ensures r.Ok? ==> indicators == UpsertAll(old(indicators), Indicators(batch))
      ensures r.Ok? ==> Added(old(observations), observations, batch)
      ensures r == Err(RowAffectedTwice) <==> !DistinctIds(batch)
      ensures r.Err? ==> indicators == old(indicators) && observations == old(observations)
    {
      if batch == [] {
        return Ok(0);
      }
      var seen: set<Uuid> := {};
      for i := 0 to |batch|
        invariant unchanged(this)
        invariant seen == Ids(batch[..i]) && DistinctIds(batch[..i])
      {
        NextId(batch, i);
        if batch[i].0.id in seen {
          return Err(RowAffectedTwice);
        }
        seen := seen + {batch[i].0.id};
      }
      assert batch[..|batch|] == batch;
      var table := indicators;
      for i := 0 to |batch|
        invariant unchanged(this)
        invariant table == UpsertAll(indicators, Indicators(batch)[..i])
      {
        assert Indicators(batch)[..i + 1][..i] == Indicators(batch)[..i];
        table := Upsert(table, batch[i].0);
      }
      assert Indicators(batch)[..|batch|] == Indicators(batch);
      StatementIsUpserts(indicators, batch);
      if !Unique(table) {
        return Err(UniqueViolation);
      }
      indicators := table;
      ObservationsAdded(observations, batch);
      observations := observations + Observations(batch);
      r := Ok(|batch|);
    }
  }

  // ---- Batches do not matter ----

  function StoreAll(t: Table, batches: seq<seq<Sighting>>): Table {
    if batches == [] then t else Statement(StoreAll(t, batches[..|batches| - 1]), batches[|batches| - 1])
  }

  lemma {:induction false} UpsertAllAppend(t: Table, xs: seq<Indicator>, ys: seq<Indicator>)
    ensures UpsertAll(t, xs + ys) == UpsertAll(UpsertAll(t, xs), ys)
    decreases |ys|
  {
    if ys == [] {
      assert xs + ys == xs;
    } else {
      assert (xs + ys)[..|xs + ys| - 1] == xs + ys[..|ys| - 1];
      UpsertAllAppend(t, xs, ys[..|ys| - 1]);
    }
  }

  lemma IndicatorsAppend(a: seq<Sighting>, b: seq<Sighting>)
    ensures Indicators(a + b) == Indicators(a) + Indicators(b)
  {
  }

  /** Any cut into batches with distinct ids stores what upserting one by one stores. */
  lemma {:induction false} BatchingIsIrrelevant(t: Table, batches: seq<seq<Sighting>>)
    requires forall i :: 0 <= i < |batches| ==> DistinctIds(batches[i])
    ensures StoreAll(t, batches) == UpsertAll(t, Indicators(Concat(batches)))
    decreases |batches|
  {
    if batches != [] {
      var n := |batches| - 1;
      BatchingIsIrrelevant(t, batches[..n]);
      StatementIsUpserts(StoreAll(t, batches[..n]), batches[n]);
      UpsertAllAppend(t, Indicators(Concat(batches[..n])), Indicators(batches[n]));
      IndicatorsAppend(Concat(batches[..n]), batches[n]);
    }
  }

  // ---- Closed form of a row ----

  function Occurrences(xs: seq<Indicator>, id: Uuid): seq<Indicator> {
    if xs == [] then []
    else Occurrences(xs[..|xs| - 1], id) + if xs[|xs| - 1].id == id then [xs[|xs| - 1]] else []
  }

  /** The greatest confidence among `floor` and the sightings. */
  function MaxConfidence(floor: int, xs: seq<Indicator>): int {
    if xs == [] then floor else Max(MaxConfidence(floor, xs[..|xs| - 1]), xs[|xs| - 1].confidence)
  }

  function MaxLastSeen(floor: int, xs: seq<Indicator>): int {
    if xs == [] then floor else Max(MaxLastSeen(floor, xs[..|xs| - 1]), xs[|xs| - 1].lastSeen)
  }

  /** The row after these sightings of it, starting from a given row. */
  function Settled(base: Indicator, occ: seq<Indicator>): Indicator {
    if occ == [] then base
    else base.(lastSeen := MaxLastSeen(base.lastSeen, occ),
               confidence := MaxConfidence(base.confidence, occ),
               tags := occ[|occ| - 1].tags)
  }

  /**
   * Which rows exist and what is in them: identity columns from the row already there or else from
   * the first sighting, the two maxima over everything seen, tags from the last sighting.
   */
  lemma {:induction false} RowClosedForm(t: Table, xs: seq<Indicator>, id: Uuid)
    ensures id in UpsertAll(t, xs) <==> id in t || Occurrences(xs, id) != []
    ensures id in t ==> UpsertAll(t, xs)[id] == Settled(t[id], Occurrences(xs, id))
    ensures id !in t && Occurrences(xs, id) != [] ==>
      UpsertAll(t, xs)[id] == Settled(Occurrences(xs, id)[0], Occurrences(xs, id))
    decreases |xs|
  {
    if xs != [] {
      var init, x := xs[..|xs| - 1], xs[|xs| - 1];
      RowClosedForm(t, init, id);
      var before := Occurrences(init, id);
      if x.id != id {
        assert Occurrences(xs, id) == before;
      } else {
        if id in t {
          SettledSnoc(t[id], before, x);
        } else if before != [] {
          SettledSnoc(before[0], before, x);
        } else {
          assert Occurrences(xs, id) == [x];
          SettledSnoc(x, [], x);
          assert [] + [x] == [x];
        }
      }
    }
  }

  lemma SettledSnoc(base: Indicator, occ: seq<Indicator>, x: Indicator)
    ensures Settled(base, occ + [x]) == Merge(Settled(base, occ), x)
  {
    assert (occ + [x])[..|occ|] == occ;
  }

  // ---- Bounds that determine the maxima ----

  lemma {:induction false} MaximaAreGreatest(c: int, l: int, xs: seq<Indicator>)
    ensures MaxConfidence(c, xs) >= c && forall i :: 0 <= i < |xs| ==> xs[i].confidence <= MaxConfidence(c, xs)
    ensures MaxConfidence(c, xs) == c || exists i :: 0 <= i < |xs| && xs[i].confidence == MaxConfidence(c, xs)
    ensures MaxLastSeen(l, xs) >= l && forall i :: 0 <= i < |xs| ==> xs[i].lastSeen <= MaxLastSeen(l, xs)
    ensures MaxLastSeen(l, xs) == l || exists i :: 0 <= i < |xs| && xs[i].lastSeen == MaxLastSeen(l, xs)
  {
    if xs != [] {
      var n := |xs| - 1;
      MaximaAreGreatest(c, l, xs[..n]);
      forall i | 0 <= i < |xs|
        ensures xs[i].confidence <= MaxConfidence(c, xs) && xs[i].lastSeen <= MaxLastSeen(l, xs)
      {
        if i < n { assert xs[..n][i] == xs[i]; }
      }
      if MaxConfidence(c, xs) != c && MaxConfidence(c, xs) != xs[n].confidence {
        var i :| 0 <= i < n && xs[..n][i].confidence == MaxConfidence(c, xs[..n]);
        assert xs[i].confidence == MaxConfidence(c, xs);
      }
      if MaxLastSeen(l, xs) != l && MaxLastSeen(l, xs) != xs[n].lastSeen {
        var i :| 0 <= i < n && xs[..n][i].lastSeen == MaxLastSeen(l, xs[..n]);
        assert xs[i].lastSeen == MaxLastSeen(l, xs);
      }
    }
  }

  lemma {:induction false} OccurrencesAre(xs: seq<Indicator>, id: Uuid)
    ensures forall x :: x in Occurrences(xs, id) <==> x in xs && x.id == id
  {
    if xs != [] {
      OccurrencesAre(xs[..|xs| - 1], id);
      assert xs == xs[..|xs| - 1] + [xs[|xs| - 1]];
    }
  }

  /** The same sightings, whatever their order or multiplicity. */
  ghost predicate SameMembers(xs: seq<Indicator>, ys: seq<Indicator>) {
    forall x :: x in xs <==> x in ys
  }

  lemma SameMaxima(c: int, l: int, xs: seq<Indicator>, ys: seq<Indicator>)
    requires SameMembers(xs, ys)
    ensures MaxConfidence(c, xs) == MaxConfidence(c, ys) && MaxLastSeen(l, xs) == MaxLastSeen(l, ys)
  {
    MaximaAreGreatest(c, l, xs);
    MaximaAreGreatest(c, l, ys);
    MaximaBelow(c, l, xs, ys);
    MaximaBelow(c, l, ys, xs);
  }

  lemma {:induction false} MaximaBelow(c: int, l: int, xs: seq<Indicator>, ys: seq<Indicator>)
    requires forall x :: x in xs ==> x in ys
    ensures MaxConfidence(c, xs) <= MaxConfidence(c, ys) && MaxLastSeen(l, xs) <= MaxLastSeen(l, ys)
  {
    MaximaAreGreatest(c, l, ys);
    if xs != [] {
      assert xs[|xs| - 1] in ys;
      forall x | x in xs[..|xs| - 1] ensures x in ys { assert x in xs; }
      MaximaBelow(c, l, xs[..|xs| - 1], ys);
    }
  }

  /** A maximum that starts from one of the sightings does not depend on which one. */
  lemma AnyStart(a: Indicator, b: Indicator, xs: seq<Indicator>)
    requires a in xs && b in xs
    ensures MaxConfidence(a.confidence, xs) == MaxConfidence(b.confidence, xs)
    ensures MaxLastSeen(a.lastSeen, xs) == MaxLastSeen(b.lastSeen, xs)
  {
    MaximaAreGreatest(a.confidence, a.lastSeen, xs);
    MaximaAreGreatest(b.confidence, b.lastSeen, xs);
  }

  /**
   * Order independence: two histories with the same sightings, in any order, interleaving or
   * repetition, leave the same ids with the same confidence and last-seen time.
   */
  lemma OrderIsIrrelevant(t: Table, xs: seq<Indicator>, ys: seq<Indicator>, id: Uuid)
    requires SameMembers(xs, ys)
    ensures id in UpsertAll(t, xs) <==> id in UpsertAll(t, ys)
    ensures id in UpsertAll(t, xs) ==>
      && UpsertAll(t, xs)[id].confidence == UpsertAll(t, ys)[id].confidence
      && UpsertAll(t, xs)[id].lastSeen == UpsertAll(t, ys)[id].lastSeen
  {
    var a, b := Occurrences(xs, id), Occurrences(ys, id);
    RowClosedForm(t, xs, id);
    RowClosedForm(t, ys, id);
    OccurrencesAre(xs, id);
    OccurrencesAre(ys, id);
    assert SameMembers(a, b);
    if a != [] { assert a[0] in b; }
    if b != [] { assert b[0] in a; }
    if a != [] {
      var base := if id in t then t[id] else a[0];
      SameMaxima(base.confidence, base.lastSeen, a, b);
      AnyStart(a[0], b[0], b);
    }
  }

  /** Tags do depend on the order, and first-seen times on which sighting came first. */
  lemma OrderMattersForTags(x: Indicator, y: Indicator)
    requires x.id == y.id && x.tags != y.tags
    ensures UpsertAll(map[], [x, y])[x.id].tags == y.tags != UpsertAll(map[], [y, x])[x.id].tags
    ensures UpsertAll(map[], [x, y])[x.id].firstSeen == x.firstSeen
    ensures UpsertAll(map[], [y, x])[x.id].firstSeen == y.firstSeen
  {
    assert [x, y][..1] == [x] && [y, x][..1] == [y] && [x][..0] == [] && [y][..0] == [];
    assert UpsertAll(map[], [x]) == map[x.id := x];
    assert UpsertAll(map[], [y]) == map[y.id := y];
  }

  /** Over any history, rows stay, maxima never fall and the insert-only columns never change. */
  lemma RowsOnlyGrow(t: Table, xs: seq<Indicator>, id: Uuid)
    requires id in t
    ensures id in UpsertAll(t, xs)
    ensures UpsertAll(t, xs)[id].confidence >= t[id].confidence && UpsertAll(t, xs)[id].lastSeen >= t[id].lastSeen
    ensures var was := t[id];
      UpsertAll(t, xs)[id].(confidence := was.confidence, lastSeen := was.lastSeen, tags := was.tags) == was
  {
    RowClosedForm(t, xs, id);
    MaximaAreGreatest(t[id].confidence, t[id].lastSeen, Occurrences(xs, id));
  }

  // ---- Histories that differ only in their times ----

  /** Everything about a sighting but when it was made. */
  function Untimed(ind: Indicator): Indicator {
    ind.(firstSeen := 0, lastSeen := 0)
  }

  function UntimedAll(xs: seq<Indicator>): seq<Indicator> {
    seq(|xs|, i requires 0 <= i < |xs| => Untimed(xs[i]))
  }

  function UntimedTable(t: Table): Table {
    map id | id in t :: Untimed(t[id])
  }

  /** Upserting does not let times into the other columns. */
  lemma {:induction false} UntimedUpserts(t: Table, xs: seq<Indicator>)
    ensures UntimedTable(UpsertAll(t, xs)) == UpsertAll(UntimedTable(t), UntimedAll(xs))
  {
    if xs != [] {
      var n := |xs| - 1;
      UntimedUpserts(t, xs[..n]);
      assert UntimedAll(xs)[..n] == UntimedAll(xs[..n]);
      UntimedUpsert(UpsertAll(t, xs[..n]), xs[n]);
    }
  }

  lemma UntimedUpsert(t: Table, x: Indicator)
    ensures UntimedTable(Upsert(t, x)) == Upsert(UntimedTable(t), Untimed(x))
  {
  }

  // ---- Replay ----

  lemma {:induction false} OccurrencesPrefix(xs: seq<Indicator>, ys: seq<Indicator>, id: Uuid)
    requires xs <= ys
    ensures Occurrences(xs, id) <= Occurrences(ys, id)
    decreases |ys|
  {
    if xs != ys {
      OccurrencesPrefix(xs, ys[..|ys| - 1], id);
    }
  }

  /** Sightings already folded in are absorbed by folding in a sequence that starts with them. */
  lemma SettledAbsorbs(base: Indicator, p: seq<Indicator>, q: seq<Indicator>)
    requires p <= q
    ensures Settled(Settled(base, p), q) == Settled(base, q)
  {
    if p != [] {
      var mid := Settled(base, p);
      MaximaAreGreatest(base.confidence, base.lastSeen, p);
      MaximaAreGreatest(base.confidence, base.lastSeen, q);
      MaximaAreGreatest(mid.confidence, mid.lastSeen, q);
      forall i | 0 <= i < |p| ensures p[i] == q[i] {}
    }
  }

  /** Folding in the very same sightings again, from the beginning, changes nothing. */
  lemma SameSightingsAbsorb(t: Table, p: seq<Indicator>, xs: seq<Indicator>)
    requires p <= xs
    ensures UpsertAll(UpsertAll(t, p), xs) == UpsertAll(t, xs)
  {
    var left, right := UpsertAll(UpsertAll(t, p), xs), UpsertAll(t, xs);
    forall id ensures (id in left <==> id in right) && (id in left ==> left[id] == right[id]) {
      RowReplay(t, p, xs, id);
    }
    assert left.Keys == right.Keys;
  }

  lemma RowReplay(t: Table, p: seq<Indicator>, xs: seq<Indicator>, id: Uuid)
    requires p <= xs
    ensures id in UpsertAll(UpsertAll(t, p), xs) <==> id in UpsertAll(t, xs)
    ensures id in UpsertAll(t, xs) ==> UpsertAll(UpsertAll(t, p), xs)[id] == UpsertAll(t, xs)[id]
  {
    var op, ox := Occurrences(p, id), Occurrences(xs, id);
    RowClosedForm(t, p, id);
    RowClosedForm(UpsertAll(t, p), xs, id);
    RowClosedForm(t, xs, id);
    OccurrencesPrefix(p, xs, id);
    if id in t {
      SettledAbsorbs(t[id], op, ox);
    } else if op != [] {
      SettledAbsorbs(op[0], op, ox);
    }
  }

  /** A run that stopped after any prefix, repeated in full at another time, leaves the same rows up to their times. */
  lemma ReplayAbsorbs(t: Table, p: seq<Indicator>, xs: seq<Indicator>)
    requires UntimedAll(p) <= UntimedAll(xs)
    ensures UntimedTable(UpsertAll(UpsertAll(t, p), xs)) == UntimedTable(UpsertAll(t, xs))
  {
    UntimedUpserts(UpsertAll(t, p), xs);
    UntimedUpserts(t, p);
    UntimedUpserts(t, xs);
    SameSightingsAbsorb(UntimedTable(t), UntimedAll(p), UntimedAll(xs));
  }

  function UpsertRuns(t: Table, runs: seq<seq<Indicator>>): Table {
    if runs == [] then t else UpsertAll(UpsertRuns(t, runs[..|runs| - 1]), runs[|runs| - 1])
  }

  lemma {:induction false} RunsAreOneHistory(t: Table, runs: seq<seq<Indicator>>)
    ensures UpsertRuns(t, runs) == UpsertAll(t, Concat(runs))
  {
    if runs != [] {
      var n := |runs| - 1;
      RunsAreOneHistory(t, runs[..n]);
      UpsertAllAppend(t, Concat(runs[..n]), runs[n]);
    }
  }

  /** Attempts at one feed: each stopped after some prefix of it, at a time of its own. */
  predicate AttemptsAt(attempts: seq<seq<Indicator>>, xs: seq<Indicator>) {
    forall i :: 0 <= i < |attempts| ==> UntimedAll(attempts[i]) <= UntimedAll(xs)
  }

  /**
   * However many attempts stopped part-way, after one complete run every column except the two
   * times is what a single complete run would have stored.
   */
  lemma {:induction false} CompleteRunRepairs(t: Table, attempts: seq<seq<Indicator>>, xs: seq<Indicator>)
    requires AttemptsAt(attempts, xs)
    ensures UntimedTable(UpsertAll(UpsertRuns(t, attempts), xs)) == UntimedTable(UpsertAll(t, xs))
    decreases |attempts|
  {
    if attempts != [] {
      var n := |attempts| - 1;
      CompleteRunRepairs(t, attempts[..n], xs);
      ReplayAbsorbs(UpsertRuns(t, attempts[..n]), attempts[n], xs);
    }
  }

  /** When the row of this id was first stored, over a history that contains it. */
  function FirstTime(t: Table, xs: seq<Indicator>, id: Uuid): int
    requires id in t || Occurrences(xs, id) != []
  {
    if id in t then t[id].firstSeen else Occurrences(xs, id)[0].firstSeen
  }

  /** The latest of all times at which it was seen. */
  function LastTime(t: Table, xs: seq<Indicator>, id: Uuid): int
    requires id in t || Occurrences(xs, id) != []
  {
    MaxLastSeen(if id in t then t[id].lastSeen else Occurrences(xs, id)[0].lastSeen, Occurrences(xs, id))
  }

  /** The two times of every row, for any history. */
  lemma TimesOfRow(t: Table, xs: seq<Indicator>, id: Uuid)
    ensures id in UpsertAll(t, xs) <==> id in t || Occurrences(xs, id) != []
    ensures id in UpsertAll(t, xs) ==>
      && UpsertAll(t, xs)[id].firstSeen == FirstTime(t, xs, id)
      && UpsertAll(t, xs)[id].lastSeen == LastTime(t, xs, id)
  {
    RowClosedForm(t, xs, id);
  }

  lemma {:induction false} OccurrencesAppend(xs: seq<Indicator>, ys: seq<Indicator>, id: Uuid)
    ensures Occurrences(xs + ys, id) == Occurrences(xs, id) + Occurrences(ys, id)
    decreases |ys|
  {
    if ys == [] {
      assert xs + ys == xs;
    } else {
      assert (xs + ys)[..|xs + ys| - 1] == xs + ys[..|ys| - 1];
      OccurrencesAppend(xs, ys[..|ys| - 1], id);
    }
  }

  /** After attempts and a complete run: first seen at the earliest attempt with the row, last seen at the latest. */
  lemma TimesAfterRepair(t: Table, attempts: seq<seq<Indicator>>, xs: seq<Indicator>, id: Uuid)
    requires id in UpsertAll(UpsertRuns(t, attempts), xs)
    ensures var h, row := Concat(attempts) + xs, UpsertAll(UpsertRuns(t, attempts), xs)[id];
      && (id in t || Occurrences(h, id) != [])
      && row.firstSeen == FirstTime(t, h, id) && row.lastSeen == LastTime(t, h, id)
  {
    RunsAreOneHistory(t, attempts);
    UpsertAllAppend(t, Concat(attempts), xs);
    TimesOfRow(t, Concat(attempts) + xs, id);
  }

  lemma {:induction false} EarliestAttempt(attempts: seq<seq<Indicator>>, xs: seq<Indicator>, id: Uuid, i: nat)
    requires i < |attempts| && Occurrences(attempts[i], id) != []
    requires forall j :: 0 <= j < i ==> Occurrences(attempts[j], id) == []
    ensures Occurrences(Concat(attempts) + xs, id) != []
    ensures Occurrences(Concat(attempts) + xs, id)[0] == Occurrences(attempts[i], id)[0]
  {
    OccurrencesAppend(Concat(attempts), xs, id);
    assert attempts == attempts[..i] + [attempts[i]] + attempts[i + 1..];
    ConcatAppend(attempts[..i] + [attempts[i]], attempts[i + 1..]);
    ConcatSnoc(attempts[..i], attempts[i]);
    OccurrencesAppend(Concat(attempts[..i]) + attempts[i], Concat(attempts[i + 1..]), id);
    OccurrencesAppend(Concat(attempts[..i]), attempts[i], id);
    NoOccurrence(attempts[..i], id);
  }

  lemma {:induction false} NoOccurrence(attempts: seq<seq<Indicator>>, id: Uuid)
    requires forall j :: 0 <= j < |attempts| ==> Occurrences(attempts[j], id) == []
    ensures Occurrences(Concat(attempts), id) == []
  {
    if attempts != [] {
      var n := |attempts| - 1;
      NoOccurrence(attempts[..n], id);
      OccurrencesAppend(Concat(attempts[..n]), attempts[n], id);
    }
  }

  /** Two tables with the same rows up to times are equal exactly when the times agree. */
  lemma EqualIffTimesAgree(a: Table, b: Table)
    requires UntimedTable(a) == UntimedTable(b)
    ensures a.Keys == b.Keys
    ensures a == b <==> forall id :: id in a ==> a[id].firstSeen == b[id].firstSeen && a[id].lastSeen == b[id].lastSeen
  {
    assert a.Keys == UntimedTable(a).Keys && b.Keys == UntimedTable(b).Keys;
    if forall id :: id in a ==> a[id].firstSeen == b[id].firstSeen && a[id].lastSeen == b[id].lastSeen {
      forall id | id in a ensures a[id] == b[id] {
        assert UntimedTable(a)[id] == UntimedTable(b)[id];
      }
    }
  }

  /** The attempts saw every sighting no later than the complete run did. */
  predicate NoneLater(attempts: seq<seq<Indicator>>, xs: seq<Indicator>) {
    forall i, k :: 0 <= i < |attempts| && 0 <= k < |attempts[i]| && k < |xs| ==>
      attempts[i][k].lastSeen <= xs[k].lastSeen
  }

  predicate FirstTimeAgrees(t: Table, attempts: seq<seq<Indicator>>, xs: seq<Indicator>, id: Uuid) {
    id !in t && Occurrences(Concat(attempts), id) != [] && Occurrences(xs, id) != [] ==>
      Occurrences(Concat(attempts), id)[0].firstSeen == Occurrences(xs, id)[0].firstSeen
  }

  /** No row that was not there before was first stored, by an attempt, with another time than the complete run's. */
  ghost predicate SameFirstTimes(t: Table, attempts: seq<seq<Indicator>>, xs: seq<Indicator>) {
    forall id :: FirstTimeAgrees(t, attempts, xs, id)
  }

  /** A sighting of an attempt has its counterpart, no earlier, in the complete run. */
  lemma Counterpart(attempts: seq<seq<Indicator>>, xs: seq<Indicator>, o: Indicator, id: Uuid)
    requires AttemptsAt(attempts, xs) && NoneLater(attempts, xs) && o in Occurrences(Concat(attempts), id)
    ensures exists x :: x in Occurrences(xs, id) && o.lastSeen <= x.lastSeen
  {
    OccurrencesAre(Concat(attempts), id);
    InSomeBatch(attempts, o);
    var i :| 0 <= i < |attempts| && o in attempts[i];
    var k :| 0 <= k < |attempts[i]| && attempts[i][k] == o;
    assert UntimedAll(attempts[i])[k] == UntimedAll(xs)[k];
    OccurrencesAre(xs, id);
    assert xs[k] in xs;
  }

  lemma {:induction false} InSomeBatch(batches: seq<seq<Indicator>>, x: Indicator)
    requires x in Concat(batches)
    ensures exists i :: 0 <= i < |batches| && x in batches[i]
  {
    var n := |batches| - 1;
    if x in batches[n] {
    } else {
      InSomeBatch(batches[..n], x);
      var i :| 0 <= i < n && x in batches[..n][i];
      assert x in batches[i];
    }
  }

  /** Earlier sightings that are no later than the late ones do not raise the maximum. */
  lemma SameMaximum(a: int, b: int, early: seq<Indicator>, late: seq<Indicator>)
    requires a <= MaxLastSeen(b, late) && b <= MaxLastSeen(a, early + late)
    requires forall j :: 0 <= j < |early| ==> early[j].lastSeen <= MaxLastSeen(b, late)
    ensures MaxLastSeen(a, early + late) == MaxLastSeen(b, late)
  {
    MaximaAreGreatest(0, a, early + late);
    MaximaAreGreatest(0, b, late);
    assert forall j :: 0 <= j < |late| ==> (early + late)[|early| + j] == late[j];
    forall j | 0 <= j < |early + late| ensures (early + late)[j].lastSeen <= MaxLastSeen(b, late) {
      if j >= |early| { assert (early + late)[j] == late[j - |early|]; }
    }
  }

  lemma EarlyBelow(attempts: seq<seq<Indicator>>, xs: seq<Indicator>, id: Uuid,
                   early: seq<Indicator>, late: seq<Indicator>, b: int)
    requires AttemptsAt(attempts, xs) && NoneLater(attempts, xs)
    requires early == Occurrences(Concat(attempts), id) && late == Occurrences(xs, id)
    ensures forall j :: 0 <= j < |early| ==> early[j].lastSeen <= MaxLastSeen(b, late)
  {
    MaximaAreGreatest(0, b, late);
    forall j | 0 <= j < |early| ensures early[j].lastSeen <= MaxLastSeen(b, late) {
      Counterpart(attempts, xs, early[j], id);
    }
  }

  lemma LastTimesAgree(t: Table, attempts: seq<seq<Indicator>>, xs: seq<Indicator>, id: Uuid)
    requires AttemptsAt(attempts, xs) && NoneLater(attempts, xs) && (id in t || Occurrences(xs, id) != [])
    ensures id in t || Occurrences(Concat(attempts) + xs, id) != []
    ensures LastTime(t, Concat(attempts) + xs, id) == LastTime(t, xs, id)
  {
    var early: seq<Indicator>, late: seq<Indicator> := Occurrences(Concat(attempts), id), Occurrences(xs, id);
    OccurrencesAppend(Concat(attempts), xs, id);
    var a := if id in t then t[id].lastSeen else (early + late)[0].lastSeen;
    var b := if id in t then t[id].lastSeen else late[0].lastSeen;
    EarlyBelow(attempts, xs, id, early, late, b);
    MaximaAreGreatest(0, a, early + late);
    MaximaAreGreatest(0, b, late);
    assert early != [] ==> (early + late)[0] == early[0];
    assert late != [] ==> (early + late)[|early|] == late[0];
    SameMaximum(a, b, early, late);
  }

  /**
   * With a clock that does not run backwards between the attempts and the complete run, the whole
   * table is what a single complete run would have stored if and only if no new row was first
   * stored at another time.
   */
  lemma SameTableIffSameFirstTimes(t: Table, attempts: seq<seq<Indicator>>, xs: seq<Indicator>)
    requires AttemptsAt(attempts, xs) && NoneLater(attempts, xs)
    ensures UpsertAll(UpsertRuns(t, attempts), xs) == UpsertAll(t, xs) <==> SameFirstTimes(t, attempts, xs)
  {
    if SameFirstTimes(t, attempts, xs) {
      SameTimesSameTable(t, attempts, xs);
    } else {
      var id :| !FirstTimeAgrees(t, attempts, xs, id);
      RowClosedForm(t, xs, id);
      RowTimes(t, attempts, xs, id);
    }
  }

  lemma SameTimesSameTable(t: Table, attempts: seq<seq<Indicator>>, xs: seq<Indicator>)
    requires AttemptsAt(attempts, xs) && NoneLater(attempts, xs) && SameFirstTimes(t, attempts, xs)
    ensures UpsertAll(UpsertRuns(t, attempts), xs) == UpsertAll(t, xs)
  {
    var left, right := UpsertAll(UpsertRuns(t, attempts), xs), UpsertAll(t, xs);
    CompleteRunRepairs(t, attempts, xs);
    EqualIffTimesAgree(left, right);
    forall id | id in left
      ensures left[id].firstSeen == right[id].firstSeen && left[id].lastSeen == right[id].lastSeen
    {
      assert FirstTimeAgrees(t, attempts, xs, id);
      RowTimes(t, attempts, xs, id);
    }
  }

  lemma RowTimes(t: Table, attempts: seq<seq<Indicator>>, xs: seq<Indicator>, id: Uuid)
    requires AttemptsAt(attempts, xs) && NoneLater(attempts, xs) && id in UpsertAll(t, xs)
    ensures id in UpsertAll(UpsertRuns(t, attempts), xs)
    ensures var left, right := UpsertAll(UpsertRuns(t, attempts), xs)[id], UpsertAll(t, xs)[id];
      && left.lastSeen == right.lastSeen
      && (left.firstSeen == right.firstSeen <==> FirstTimeAgrees(t, attempts, xs, id))
  {
    CompleteRunRepairs(t, attempts, xs);
    assert id in UntimedTable(UpsertAll(t, xs));
    TimesAfterRepair(t, attempts, xs, id);
    TimesOfRow(t, xs, id);
    LastTimesAgree(t, attempts, xs, id);
    OccurrencesAppend(Concat(attempts), xs, id);
  }
}
