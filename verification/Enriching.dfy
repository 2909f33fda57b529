/** What the chain of enrichers does to one indicator, and what a feed means, spelled out step by step. */
module Enriching {
  import opened Models
  import opened PipelineMachine

  // ---- The chain ----

  /** Each enricher in turn has kept an indicator and handed on the next one. */
  ghost predicate Trace(enrichers: seq<Indicator -> Enriched>, xs: seq<Indicator>) {
    1 <= |xs| <= |enrichers| + 1 && forall i :: 0 <= i < |xs| - 1 ==> enrichers[i](xs[i]) == Keep(xs[i + 1])
  }

  ghost predicate TraceFrom(enrichers: seq<Indicator -> Enriched>, x: Indicator, xs: seq<Indicator>) {
    Trace(enrichers, xs) && xs[0] == x
  }

  /** The trace has gone through all enrichers, or it has met one that drops the indicator or raises. */
  ghost predicate EndsIn(enrichers: seq<Indicator -> Enriched>, xs: seq<Indicator>, answer: Enriched)
    requires Trace(enrichers, xs)
  {
    if answer.Keep? then |xs| == |enrichers| + 1 && xs[|xs| - 1] == answer.indicator
    else |xs| <= |enrichers| && enrichers[|xs| - 1](xs[|xs| - 1]) == answer
  }

  ghost predicate Leads(enrichers: seq<Indicator -> Enriched>, x: Indicator, answer: Enriched) {
    exists xs :: TraceFrom(enrichers, x, xs) && EndsIn(enrichers, xs, answer)
  }

  lemma TraceOn(enrichers: seq<Indicator -> Enriched>, x: Indicator, xs: seq<Indicator>, answer: Enriched)
    requires enrichers != [] && Trace(enrichers[1..], xs) && enrichers[0](x) == Keep(xs[0])
    requires EndsIn(enrichers[1..], xs, answer)
    ensures TraceFrom(enrichers, x, [x] + xs) && EndsIn(enrichers, [x] + xs, answer)
  {
    var ys := [x] + xs;
    forall i | 0 <= i < |ys| - 1 ensures enrichers[i](ys[i]) == Keep(ys[i + 1]) {
      if i > 0 { assert enrichers[1..][i - 1](xs[i - 1]) == Keep(xs[i]); }
    }
  }

  lemma {:induction false} ChainHasTrace(enrichers: seq<Indicator -> Enriched>, x: Indicator)
    returns (xs: seq<Indicator>)
    ensures TraceFrom(enrichers, x, xs) && EndsIn(enrichers, xs, Chain(enrichers, x))
  {
    xs := [x];
    if enrichers != [] && enrichers[0](x).Keep? {
      var rest := ChainHasTrace(enrichers[1..], enrichers[0](x).indicator);
      TraceOn(enrichers, x, rest, Chain(enrichers, x));
      xs := [x] + rest;
    }
  }

  lemma {:induction false} TraceDecides(enrichers: seq<Indicator -> Enriched>, xs: seq<Indicator>, answer: Enriched)
    requires Trace(enrichers, xs) && EndsIn(enrichers, xs, answer)
    ensures Chain(enrichers, xs[0]) == answer
  {
    if |xs| > 1 {
      var rest := xs[1..];
      assert enrichers[0](xs[0]) == Keep(xs[1]);
      forall i | 0 <= i < |rest| - 1 ensures enrichers[1..][i](rest[i]) == Keep(rest[i + 1]) {
        assert enrichers[i + 1](xs[i + 1]) == Keep(xs[i + 2]);
      }
      TraceDecides(enrichers[1..], rest, answer);
    }
  }

  /**
   * The chain keeps y exactly if the enrichers, one after the other, lead from x to y; it drops the
   * indicator, or raises, exactly if they lead to one that does.
   */
  lemma ChainIffTrace(enrichers: seq<Indicator -> Enriched>, x: Indicator, answer: Enriched)
    ensures Chain(enrichers, x) == answer <==> Leads(enrichers, x, answer)
  {
    var xs := ChainHasTrace(enrichers, x);
    if ys :| TraceFrom(enrichers, x, ys) && EndsIn(enrichers, ys, answer) {
      TraceDecides(enrichers, ys, answer);
    }
  }

  /** The loop of the source; an enricher that raises ends it. */
  method EnrichInTurn(enrichers: seq<Indicator -> Enriched>, x: Indicator) returns (answer: Enriched)
    ensures Leads(enrichers, x, answer)
  {
    var current := x;
    ghost var xs := [x];
    for i := 0 to |enrichers|
      invariant |xs| == i + 1 && TraceFrom(enrichers, x, xs) && xs[i] == current
    {
      answer := enrichers[i](current);
      if !answer.Keep? {
        assert EndsIn(enrichers, xs, answer);
        return;
      }
      current := answer.indicator;
      xs := xs + [current];
    }
    answer := Keep(current);
    assert EndsIn(enrichers, xs, answer);
  }

  // ---- What a feed means ----

  /** This sighting stems from this record: normalized, led through the enrichers, and attached to this run. */
  ghost predicate StemsFrom(spec: Spec, r: Record, x: Sighting) {
    && spec.normalize(r).Emit? && Leads(spec.enrichers, spec.normalize(r).indicator, Keep(x.0))
    && x.1.indicatorId == x.0.id && x.1.sourceId == spec.ctx.sourceId && x.1.feedRunId == spec.ctx.runId
    && x.1.tlp == x.0.tlp && x.1.confidence == x.0.confidence && x.1.raw == r
  }

  lemma IngestStems(spec: Spec, r: Record, x: Sighting)
    ensures x in Ingest(spec, r) <==> StemsFrom(spec, r, x)
    ensures |Ingest(spec, r)| <= 1
  {
    if spec.normalize(r).Emit? {
      ChainIffTrace(spec.enrichers, spec.normalize(r).indicator, Keep(x.0));
    }
  }

  ghost predicate FromRecords(spec: Spec, rs: seq<Record>, x: Sighting) {
    exists r :: r in rs && StemsFrom(spec, r, x)
  }

  lemma {:induction false} IngestAllStems(spec: Spec, rs: seq<Record>, x: Sighting)
    ensures x in IngestAll(spec, rs) <==> FromRecords(spec, rs, x)
  {
    if rs != [] {
      var init, r := rs[..|rs| - 1], rs[|rs| - 1];
      assert rs == init + [r];
      IngestAllStems(spec, init, x);
      IngestStems(spec, r, x);
    }
  }

  ghost predicate FromPayloads(spec: Spec, payloads: seq<RawPayload>, x: Sighting) {
    exists p :: p in payloads && FromRecords(spec, spec.parse(p).items, x)
  }

  lemma {:induction false} SequentialStems(spec: Spec, payloads: seq<RawPayload>, x: Sighting)
    ensures x in Sequential(spec, payloads) <==> FromPayloads(spec, payloads, x)
  {
    if payloads != [] {
      var init, p := payloads[..|payloads| - 1], payloads[|payloads| - 1];
      assert payloads == init + [p];
      SequentialStems(spec, init, x);
      IngestAllStems(spec, spec.parse(p).items, x);
    }
  }

  /**
   * A feed means exactly the sightings that stem from some record of some payload. Each carries the record
   * it came from, the run and the source, and the id, TLP and confidence it has after enrichment.
   */
  lemma MeaningIsWhatStems(spec: Spec, x: Sighting)
    ensures x in Meaning(spec) <==>
      exists p :: p in spec.payloads && exists r :: r in spec.parse(p).items && StemsFrom(spec, r, x)
  {
    SequentialStems(spec, spec.payloads, x);
    assert FromPayloads(spec, spec.payloads, x) <==>
      exists p :: p in spec.payloads && FromRecords(spec, spec.parse(p).items, x);
  }

  // ---- What makes a feed clean ----

  /** A record ends the run: a rejected one unless errors are skipped, and any other exception. */
  predicate Ends(spec: Spec, r: Record) {
    spec.normalize(r).Crash? || (spec.normalize(r).Reject? && !spec.skipOnError)
  }

  lemma {:induction false} OutputsFrom<A, B>(f: A -> Emission<B>, xs: seq<A>, y: B)
    ensures y in Outputs(f, xs) <==> exists x :: x in xs && y in f(x).items
  {
    if xs != [] {
      var init, x := xs[..|xs| - 1], xs[|xs| - 1];
      assert xs == init + [x];
      OutputsFrom(f, init, y);
    }
  }

  lemma CleanMembers<A, B>(f: A -> Emission<B>, xs: seq<A>)
    ensures Clean(f, xs) <==> forall x :: x in xs ==> !f(x).raises
  {
    if Clean(f, xs) {
      forall x | x in xs ensures !f(x).raises {
        var i :| 0 <= i < |xs| && xs[i] == x;
      }
    }
  }

  lemma NormalizerRaises(spec: Spec, r: Record)
    ensures Normalizer(spec)(r).raises <==> Ends(spec, r)
  {
    assert Normalizer(spec)(r) == NormalizeOne(spec, r);
  }

  lemma EnricherRaises(spec: Spec, c: Candidate)
    ensures Enricher(spec)(c).raises <==> Leads(spec.enrichers, c.0, Fault)
  {
    assert Enricher(spec)(c) == EnrichOne(spec, c);
    ChainIffTrace(spec.enrichers, c.0, Fault);
  }

  ghost predicate IsRecord(spec: Spec, r: Record) {
    exists p :: p in spec.payloads && r in spec.parse(p).items
  }

  lemma CandidatesFrom(spec: Spec, c: Candidate)
    ensures c in Candidates(spec) <==> IsRecord(spec, c.1) && spec.normalize(c.1) == Emit(c.0)
  {
    OutputsFrom(Normalizer(spec), Parsed(spec), c);
    OutputsFrom(spec.parse, spec.payloads, c.1);
    forall r: Record ensures c in Normalizer(spec)(r).items <==> spec.normalize(r) == Emit(c.0) && r == c.1 {
      assert Normalizer(spec)(r) == NormalizeOne(spec, r);
    }
  }

  /** Parsing, normalizing and enriching this record raise nothing. */
  ghost predicate RaisesNothing(spec: Spec, r: Record) {
    !Ends(spec, r) && (spec.normalize(r).Emit? ==> !Leads(spec.enrichers, spec.normalize(r).indicator, Fault))
  }

  lemma RecordsRaiseNothing(spec: Spec)
    ensures Clean(Normalizer(spec), Parsed(spec)) && Clean(Enricher(spec), Candidates(spec))
      <==> forall r :: IsRecord(spec, r) ==> RaisesNothing(spec, r)
  {
    CleanMembers(Normalizer(spec), Parsed(spec));
    CleanMembers(Enricher(spec), Candidates(spec));
    forall r: Record
      ensures r in Parsed(spec) <==> IsRecord(spec, r)
      ensures Normalizer(spec)(r).raises <==> Ends(spec, r)
    {
      OutputsFrom(spec.parse, spec.payloads, r);
      NormalizerRaises(spec, r);
    }
    forall c: Candidate
      ensures c in Candidates(spec) <==> IsRecord(spec, c.1) && spec.normalize(c.1) == Emit(c.0)
      ensures Enricher(spec)(c).raises <==> Leads(spec.enrichers, c.0, Fault)
    {
      CandidatesFrom(spec, c);
      EnricherRaises(spec, c);
    }
    forall r | IsRecord(spec, r) && spec.normalize(r).Emit?
      ensures (spec.normalize(r).indicator, r) in Candidates(spec)
    {
    }
  }

  /** The stages before the store raise nothing exactly if fetching, every payload and every record are fine. */
  lemma CleanUpstreamIff(spec: Spec)
    ensures CleanUpstream(spec) <==>
      && !spec.fetchRaises && (forall p :: p in spec.payloads ==> !spec.parse(p).raises)
      && (forall r :: IsRecord(spec, r) ==> RaisesNothing(spec, r))
  {
    CleanMembers(spec.parse, spec.payloads);
    RecordsRaiseNothing(spec);
  }
}
