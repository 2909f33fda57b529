/** What an indicator's id says about its type and value, and why the table never holds a value twice. */
module Identity {
  import opened Sequences
  import opened Models
  import opened Text
  import opened Hashing
  import opened PipelineMachine
  import opened IndicatorStore
  import opened Recovery

  function TypeName(kind: IndicatorType): string {
    match kind
    case Ipv4 => "ipv4"
    case Ipv6 => "ipv6"
    case Domain => "domain"
    case Url => "url"
    case Sha256 => "sha256"
    case Sha1 => "sha1"
    case Md5 => "md5"
    case Email => "email"
    case FileName => "file_name"
    case Mutex => "mutex"
    case RegistryKey => "registry_key"
    case YaraRule => "yara_rule"
  }

  function IdName(kind: IndicatorType, canonical: string): string {
    TypeName(kind) + [':'] + canonical
  }

  function IndicatorUuid(lib: Library, kind: IndicatorType, value: string): Option<Uuid> {
    var canonical := Canonicalize(lib, kind, value);
    if canonical.Some? then Some(Uuid5(IdName(kind, canonical.value))) else None
  }

  /**
   * `Indicator.build`: the id comes from canonicalizing the canonical value once more, and the stored
   * value is stripped by the model's validator. `fields` carries the other fields.
   */
  function Build(lib: Library, kind: IndicatorType, value: string, fields: Indicator): Option<Indicator> {
    var canonical := Canonicalize(lib, kind, value);
    if canonical.None? then None else
    var id := IndicatorUuid(lib, kind, canonical.value);
    if id.None? || !(0 <= fields.confidence <= 100) then None
    else Some(fields.(id := id.value, kind := kind, value := Strip(canonical.value)))
  }

  // ---- The hashed name ----

  lemma TypeNames(a: IndicatorType, b: IndicatorType)
    ensures ':' !in TypeName(a)
    ensures TypeName(a) == TypeName(b) ==> a == b
  {
    if |TypeName(a)| == |TypeName(b)| && a != b {
      assert TypeName(a)[0] != TypeName(b)[0] || TypeName(a)[1] != TypeName(b)[1] || TypeName(a)[3] != TypeName(b)[3];
    }
  }

  /** No type name holds a colon, so the hashed name gives both the type and the value back. */
  lemma NameIsInjective(a: IndicatorType, x: string, b: IndicatorType, y: string)
    requires IdName(a, x) == IdName(b, y)
    ensures a == b && x == y
  {
    TypeNames(a, b);
    TypeNames(b, a);
    PartitionAt(TypeName(a), ':', x);
    PartitionAt(TypeName(b), ':', y);
  }

  // ---- Built indicators ----

  /** The id is the one that the indicator's own type and value give. */
  predicate Named(lib: Library, ind: Indicator) {
    IndicatorUuid(lib, ind.kind, ind.value) == Some(ind.id)
  }

  /** Although build canonicalizes twice for the id and once for the value, the two always agree. */
  lemma BuiltIsNamed(lib: Library, kind: IndicatorType, value: string, fields: Indicator)
    requires Build(lib, kind, value, fields).Some?
    ensures Named(lib, Build(lib, kind, value, fields).value)
  {
    StrippedFirst(lib, kind, Canonicalize(lib, kind, value).value);
  }

  /** Two named indicators share an id exactly when type and canonical value agree. */
  lemma SameIdIffSameCanonical(lib: Library, a: Indicator, b: Indicator)
    requires Named(lib, a) && Named(lib, b)
    ensures a.id == b.id <==>
      a.kind == b.kind && Canonicalize(lib, a.kind, a.value) == Canonicalize(lib, b.kind, b.value)
  {
    if a.id == b.id {
      var x, y := Canonicalize(lib, a.kind, a.value).value, Canonicalize(lib, b.kind, b.value).value;
      NameIsInjective(a.kind, x, b.kind, y);
    }
  }

  /** The id is the name of the canonical value itself exactly when canonicalizing that again changes nothing. */
  lemma IdNamesCanonicalIffStable(lib: Library, kind: IndicatorType, value: string, fields: Indicator)
    requires Build(lib, kind, value, fields).Some?
    ensures var c := Canonicalize(lib, kind, value).value;
      Build(lib, kind, value, fields).value.id == Uuid5(IdName(kind, c)) <==> Projects(lib, kind, value)
    ensures NoAddress(kind) ==> (Projects(lib, kind, value) <==> Stable(lib, kind, Strip(value)))
  {
    var c := Canonicalize(lib, kind, value).value;
    var second := Canonicalize(lib, kind, c).value;
    if IdName(kind, second) == IdName(kind, c) {
      NameIsInjective(kind, second, kind, c);
    }
    if NoAddress(kind) { ProjectionIffStable(lib, kind, value); }
  }

  // ---- Tables ----

  predicate NamedTable(lib: Library, t: Table) {
    forall id :: id in t ==> t[id].id == id && Named(lib, t[id])
  }

  /** Rows named by their content cannot repeat a type and value. */
  lemma NamedIsUnique(lib: Library, t: Table)
    requires NamedTable(lib, t)
    ensures Unique(t)
  {
  }

  lemma {:induction false} UpsertsStayNamed(lib: Library, t: Table, xs: seq<Indicator>)
    requires NamedTable(lib, t) && forall i :: 0 <= i < |xs| ==> Named(lib, xs[i])
    ensures NamedTable(lib, UpsertAll(t, xs))
  {
    if xs != [] {
      UpsertsStayNamed(lib, t, xs[..|xs| - 1]);
    }
  }

  /** On a table of named rows, a batch of named indicators is refused only for naming a row twice. */
  lemma OnlyRepetitionIsRefused(lib: Library, t: Table, batch: seq<Sighting>)
    requires NamedTable(lib, t) && DistinctIds(batch)
    requires forall i :: 0 <= i < |batch| ==> Named(lib, batch[i].0)
    ensures Unique(Statement(t, batch))
  {
    StatementIsUpserts(t, batch);
    UpsertsStayNamed(lib, t, Indicators(batch));
    NamedIsUnique(lib, UpsertAll(t, Indicators(batch)));
  }

  predicate AllNamed(lib: Library, xs: seq<Sighting>) {
    forall i :: 0 <= i < |xs| ==> Named(lib, xs[i].0)
  }

  /** The condition under which one upsert statement is accepted. */
  predicate Accepted(t: Table, batch: seq<Sighting>) {
    batch == [] || (DistinctIds(batch) && Unique(Statement(t, batch)))
  }

  /** The store's verdict on named indicators does not depend on the table. */
  lemma VerdictIsDistinctIds(lib: Library, t: Table, batch: seq<Sighting>)
    requires NamedTable(lib, t) && AllNamed(lib, batch)
    ensures Accepted(t, batch) <==> DistinctIds(batch)
  {
    if DistinctIds(batch) {
      OnlyRepetitionIsRefused(lib, t, batch);
    }
  }

  // ---- Whole runs ----

  /** Normalization names what it emits, and no enricher breaks the link between id, type and value. */
  ghost predicate KeepsNames(lib: Library, spec: Spec) {
    && (forall r: Record :: spec.normalize(r).Emit? ==> Named(lib, spec.normalize(r).indicator))
    && (forall e, ind: Indicator ::
          e in spec.enrichers && Named(lib, ind) && e(ind).Keep? ==> Named(lib, e(ind).indicator))
  }

  lemma {:induction false} ChainKeepsNames(lib: Library, enrichers: seq<Indicator -> Enriched>, ind: Indicator)
    requires Named(lib, ind)
    requires forall e, x: Indicator :: e in enrichers && Named(lib, x) && e(x).Keep? ==> Named(lib, e(x).indicator)
    ensures Chain(enrichers, ind).Keep? ==> Named(lib, Chain(enrichers, ind).indicator)
  {
    if enrichers != [] {
      assert enrichers[0] in enrichers;
      if enrichers[0](ind).Keep? {
        forall e | e in enrichers[1..] ensures e in enrichers {}
        ChainKeepsNames(lib, enrichers[1..], enrichers[0](ind).indicator);
      }
    }
  }

  lemma {:induction false} IngestAllNamed(lib: Library, spec: Spec, rs: seq<Record>)
    requires KeepsNames(lib, spec)
    ensures AllNamed(lib, IngestAll(spec, rs))
  {
    if rs != [] {
      var r := rs[|rs| - 1];
      IngestAllNamed(lib, spec, rs[..|rs| - 1]);
      if spec.normalize(r).Emit? {
        ChainKeepsNames(lib, spec.enrichers, spec.normalize(r).indicator);
      }
      assert AllNamed(lib, Ingest(spec, r));
    }
  }

  lemma {:induction false} SequentialNamed(lib: Library, spec: Spec, payloads: seq<RawPayload>)
    requires KeepsNames(lib, spec)
    ensures AllNamed(lib, Sequential(spec, payloads))
  {
    if payloads != [] {
      SequentialNamed(lib, spec, payloads[..|payloads| - 1]);
      IngestAllNamed(lib, spec, spec.parse(payloads[|payloads| - 1]).items);
    }
  }

  /** At every moment of every run the table it feeds keeps its rows named by content, hence unique. */
  lemma RunsKeepTablesUnique(lib: Library, spec: Spec, s: State, t: Table)
    requires KeepsNames(lib, spec) && RefusesRepeatedRows(spec) && Reachable(spec, s) && NamedTable(lib, t)
    ensures NamedTable(lib, StoreAll(t, s.persist.stored)) && Unique(StoreAll(t, s.persist.stored))
  {
    StoredIsUpserts(spec, s, t);
    SequentialNamed(lib, spec, spec.payloads);
    var part := Indicators(Concat(s.persist.stored));
    forall i | 0 <= i < |part| ensures Named(lib, part[i]) {
      assert part[i] == Indicators(Meaning(spec))[i];
    }
    UpsertsStayNamed(lib, t, part);
    NamedIsUnique(lib, StoreAll(t, s.persist.stored));
  }

  lemma {:induction false} ChunkMembers(xs: seq<Sighting>, m: int, i: nat)
    requires m > 0 && i < |Chunks(xs, m)|
    ensures forall x :: x in Chunks(xs, m)[i] ==> x in xs
    decreases |xs|
  {
    if |xs| > m && i > 0 {
      ChunkMembers(xs[m..], m, i - 1);
      assert Chunks(xs, m)[i] == Chunks(xs[m..], m)[i - 1];
      assert forall x :: x in xs[m..] ==> x in xs;
    }
  }

  /**
   * A feed whose plugins keep ids right is judged by distinctness alone, whatever named tables its
   * batches meet. So `SuccessIffBatchesDistinct` applies to the store itself.
   */
  lemma NamedFeedIsJudgedByStore(lib: Library, spec: Spec, tables: nat -> Table)
    requires KeepsNames(lib, spec) && forall i :: NamedTable(lib, tables(i))
    requires forall i :: 0 <= i < |Batches(spec)| ==>
      (spec.accepts(Batches(spec)[i]) <==> Accepted(tables(i), Batches(spec)[i]))
    ensures JudgedByStore(spec)
  {
    var m := Max(1, spec.batchSize);
    SequentialNamed(lib, spec, spec.payloads);
    forall i | 0 <= i < |Chunks(Meaning(spec), m)|
      ensures spec.accepts(Chunks(Meaning(spec), m)[i]) <==> DistinctIds(Chunks(Meaning(spec), m)[i])
    {
      var batch := Chunks(Meaning(spec), m)[i];
      ChunkMembers(Meaning(spec), m, i);
      forall k | 0 <= k < |batch| ensures Named(lib, batch[k].0) {
        assert batch[k] in Meaning(spec);
      }
      VerdictIsDistinctIds(lib, tables(i), batch);
    }
  }

  // ---- Where the links break ----

  /** Rewriting a value and keeping the id leaves the id right exactly when the canonical form stays the same. */
  lemma RewritingKeepsNameIff(lib: Library, x: Indicator, value: string)
    requires Named(lib, x)
    ensures Named(lib, x.(value := value)) <==> Canonicalize(lib, x.kind, value) == Canonicalize(lib, x.kind, x.value)
  {
    if Named(lib, x.(value := value)) {
      SameIdIffSameCanonical(lib, x, x.(value := value));
    }
  }

  /** An enricher that rewrites a value into another one's, and leaves the id, breaks both properties. */
  lemma RewritingBreaksUniqueness(lib: Library, x: Indicator, y: Indicator)
    requires Named(lib, x) && Named(lib, y) && x.kind == y.kind && x.id != y.id
    ensures var rewritten := x.(value := y.value);
      !Named(lib, rewritten) && !Unique(UpsertAll(map[], [rewritten, y]))
  {
    var rewritten := x.(value := y.value);
    TwoUpserts(rewritten, y);
    assert x.id in UpsertAll(map[], [rewritten, y]) && y.id in UpsertAll(map[], [rewritten, y]);
  }

  lemma TwoUpserts(a: Indicator, b: Indicator)
    requires a.id != b.id
    ensures UpsertAll(map[], [a, b]) == map[a.id := a, b.id := b]
  {
    assert [a, b][..1] == [a] && [a][..0] == [];
    assert UpsertAll(map[], [a]) == map[a.id := a];
  }
}
