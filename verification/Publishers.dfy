/** The webhook and Kafka publishers: a TLP ceiling applied to each batch. */
module Publishers {
  import opened Sequences
  import opened Models
  import opened StageQueues
  import opened PublishStage
  import opened PipelineMachine
  import opened PipelineSafety
  import opened PipelineMeaning

  /** The sightings a publisher with this ceiling may see, in order. */
  function Allowed(ceiling: Tlp, xs: seq<Sighting>): seq<Sighting> {
    if xs == [] then []
    else Allowed(ceiling, xs[..|xs| - 1]) +
         if TooStrict(ceiling, xs[|xs| - 1]) then [] else [xs[|xs| - 1]]
  }

  predicate TooStrict(ceiling: Tlp, x: Sighting) { TlpRank(x.0.tlp) > TlpRank(ceiling) }

  /** Who may see what: CLEAR below GREEN below AMBER below AMBER+STRICT below RED, the ceiling included. */
  predicate MaySee(ceiling: Tlp, t: Tlp) {
    match ceiling
    case Clear => t == Clear
    case Green => t == Clear || t == Green
    case Amber => t == Clear || t == Green || t == Amber
    case AmberStrict => t != Red
    case Red => true
  }

  /** The ranks put the levels in that order. */
  lemma TooStrictIffAbove(ceiling: Tlp, x: Sighting)
    ensures TooStrict(ceiling, x) <==> !MaySee(ceiling, x.0.tlp)
    ensures TlpRank(x.0.tlp) <= TlpRank(ceiling) <==> MaySee(ceiling, x.0.tlp)
  {
  }

  /** Which sightings of a batch may be seen. */
  function Visible(ceiling: Tlp, xs: seq<Sighting>): seq<bool> {
    seq(|xs|, i requires 0 <= i < |xs| => MaySee(ceiling, xs[i].0.tlp))
  }

  /** These positions, in order, are exactly the wanted ones. */
  predicate Picks(wanted: seq<bool>, at: seq<nat>) {
    && (forall j, k :: 0 <= j < k < |at| ==> at[j] < at[k])
    && (forall k :: 0 <= k < |at| ==> at[k] < |wanted| && wanted[at[k]])
    && (forall i: nat :: i < |wanted| && wanted[i] ==> i in at)
  }

  lemma NoMorePick(wanted: seq<bool>, at: seq<nat>)
    requires Picks(wanted, at)
    ensures Picks(wanted + [false], at)
  {
  }

  lemma OneMorePick(wanted: seq<bool>, at: seq<nat>)
    requires Picks(wanted, at)
    ensures Picks(wanted + [true], at + [|wanted|])
  {
    var all, next := wanted + [true], at + [|wanted|];
    forall i: nat | i < |all| && all[i] ensures i in next {
      if i < |wanted| {
        assert wanted[i] && i in at;
      } else {
        assert next[|at|] == i;
      }
    }
  }

  function At<T>(xs: seq<T>, at: seq<nat>): seq<T>
    requires forall k :: 0 <= k < |at| ==> at[k] < |xs|
  {
    seq(|at|, k requires 0 <= k < |at| => xs[at[k]])
  }

  lemma SamePlaces<T>(xs: seq<T>, x: T, at: seq<nat>)
    requires forall k :: 0 <= k < |at| ==> at[k] < |xs|
    ensures At(xs + [x], at) == At(xs, at) && At(xs + [x], at + [|xs|]) == At(xs, at) + [x]
  {
  }

  /** What may be sent is picked out of the batch in order: nothing too strict, and nothing else left out. */
  lemma {:induction false} AllowedArePicked(ceiling: Tlp, xs: seq<Sighting>) returns (at: seq<nat>)
    ensures Picks(Visible(ceiling, xs), at) && Allowed(ceiling, xs) == At(xs, at)
  {
    at := [];
    if xs != [] {
      var init, x := xs[..|xs| - 1], xs[|xs| - 1];
      at := AllowedArePicked(ceiling, init);
      assert xs == init + [x];
      TooStrictIffAbove(ceiling, x);
      SamePlaces(init, x, at);
      assert Visible(ceiling, xs) == Visible(ceiling, init) + [MaySee(ceiling, x.0.tlp)];
      if MaySee(ceiling, x.0.tlp) {
        OneMorePick(Visible(ceiling, init), at);
        at := at + [|init|];
      } else {
        NoMorePick(Visible(ceiling, init), at);
      }
    }
  }

  lemma AllowedSnoc(ceiling: Tlp, xs: seq<Sighting>, x: Sighting)
    ensures Allowed(ceiling, xs + [x]) == Allowed(ceiling, xs) + if TooStrict(ceiling, x) then [] else [x]
  {
    assert (xs + [x])[..|xs|] == xs;
  }

  lemma {:induction false} NothingAllowed(ceiling: Tlp, xs: seq<Sighting>)
    ensures Allowed(ceiling, xs) == [] <==> forall x :: x in xs ==> TooStrict(ceiling, x)
  {
    if xs != [] {
      var init, x := xs[..|xs| - 1], xs[|xs| - 1];
      assert xs == init + [x];
      NothingAllowed(ceiling, init);
      AllowedSnoc(ceiling, init, x);
    }
  }

  /**
   * One Kafka `publish` call: a batch with nothing to send raises a TLP violation instead. `breaksAt`
   * is the position of the first send that raises; what was sent before it stays sent.
   */
  method PublishBatch(ceiling: Tlp, batch: seq<Sighting>, breaksAt: nat)
    returns (emitted: seq<Sighting>, violation: bool, broken: bool)
    ensures violation <==> forall x :: x in batch ==> !MaySee(ceiling, x.0.tlp)
    ensures emitted == FirstOf(Allowed(ceiling, batch), breaksAt)
    ensures broken <==> breaksAt < |Allowed(ceiling, batch)|
  {
    var filtered: seq<Sighting> := [];
    for i := 0 to |batch|
      invariant filtered == Allowed(ceiling, batch[..i])
    {
      AllowedSnoc(ceiling, batch[..i], batch[i]);
      assert batch[..i + 1] == batch[..i] + [batch[i]];
      if !TooStrict(ceiling, batch[i]) {
        filtered := filtered + [batch[i]];
      }
    }
    assert batch[..|batch|] == batch;
    NothingAllowed(ceiling, batch);
    forall x ensures TooStrict(ceiling, x) <==> !MaySee(ceiling, x.0.tlp) { TooStrictIffAbove(ceiling, x); }
    emitted, violation, broken := [], false, false;
    if filtered == [] {
      return [], true, false;
    }
    for i := 0 to |filtered|
      invariant emitted == filtered[..i] && i <= breaksAt
    {
      if i == breaksAt {
        return emitted, false, true;
      }
      emitted := emitted + [filtered[i]];
    }
  }

  /** What a publisher has emitted after these calls; a violating batch is discarded. */
  function Emitted(ceiling: Tlp, batches: seq<seq<Sighting>>): seq<Sighting> {
    if batches == [] then []
    else Emitted(ceiling, batches[..|batches| - 1]) + Allowed(ceiling, batches[|batches| - 1])
  }

  lemma {:induction false} AllowedAppend(ceiling: Tlp, a: seq<Sighting>, b: seq<Sighting>)
    ensures Allowed(ceiling, a + b) == Allowed(ceiling, a) + Allowed(ceiling, b)
    decreases |b|
  {
    if b == [] {
      assert a + b == a;
    } else {
      assert (a + b)[..|a + b| - 1] == a + b[..|b| - 1];
      AllowedAppend(ceiling, a, b[..|b| - 1]);
    }
  }

  lemma AllowedPrefix(ceiling: Tlp, a: seq<Sighting>, b: seq<Sighting>)
    requires a <= b
    ensures Allowed(ceiling, a) <= Allowed(ceiling, b)
  {
    assert b == a + b[|a|..];
    AllowedAppend(ceiling, a, b[|a|..]);
  }

  /** Cutting a stream into batches changes nothing of what is emitted. */
  lemma {:induction false} EmittedIsAllowed(ceiling: Tlp, batches: seq<seq<Sighting>>)
    ensures Emitted(ceiling, batches) == Allowed(ceiling, Concat(batches))
  {
    if batches != [] {
      var init := batches[..|batches| - 1];
      EmittedIsAllowed(ceiling, init);
      AllowedAppend(ceiling, Concat(init), batches[|batches| - 1]);
    }
  }

  /** What publisher k has sent so far, with the part of a batch that was out when the stage stopped. */
  function SentBy(ceiling: Tlp, me: Publisher, k: nat): seq<Sighting> {
    Emitted(ceiling, HandedTo(me.fan, k)) +
    match me.torn {
      case None => []
      case Some(torn) => if torn.k == k then FirstOf(Allowed(ceiling, torn.batch), torn.sent) else []
    }
  }

  function FirstOf<T>(xs: seq<T>, n: nat): (r: seq<T>)
    ensures r <= xs
  {
    if n < |xs| then xs[..n] else xs
  }

  lemma PrefixAfter<T>(a: seq<T>, b: seq<T>, c: seq<T>, all: seq<T>)
    requires b <= c && a + c <= all
    ensures a + b <= all
  {
    assert a + b <= a + c;
    PrefixTransitive(a + b, a + c, all);
  }

  /**
   * Batching is invisible downstream. At every step a publisher has sent a prefix of the stored stream
   * filtered by its ceiling, even when it was stopped half-way through a batch; after a successful
   * run it has sent exactly the filtered meaning.
   */
  lemma BatchingIsInvisible(spec: Spec, s: State, k: nat, ceiling: Tlp)
    requires Reachable(spec, s) && k < |spec.publishers| && Unshared(spec.publishers, spec.batchSize)
    ensures SentBy(ceiling, s.publish, k) <= Allowed(ceiling, Concat(s.persist.stored))
    ensures AllStopped(s) && Healthy(s) ==> SentBy(ceiling, s.publish, k) == Allowed(ceiling, Meaning(spec))
  {
    SentIsStored(spec, s, k, ceiling);
    if AllStopped(s) && Healthy(s) {
      SentIsMeaning(spec, s, k, ceiling);
    }
  }

  lemma SentIsStored(spec: Spec, s: State, k: nat, ceiling: Tlp)
    requires Reachable(spec, s) && k < |spec.publishers| && Unshared(spec.publishers, spec.batchSize)
    ensures SentBy(ceiling, s.publish, k) <= Allowed(ceiling, Concat(s.persist.stored))
  {
    var received, stored := Received(s.publish.fan, k), Concat(s.persist.stored);
    InHandIsStored(spec, s, k);
    EmittedIsAllowed(ceiling, HandedTo(s.publish.fan, k));
    if s.publish.torn.Some? && s.publish.torn.value.k == k {
      var torn := s.publish.torn.value;
      AllowedPrefix(ceiling, received + torn.batch, stored);
      AllowedAppend(ceiling, received, torn.batch);
      PrefixAfter(Allowed(ceiling, received), FirstOf(Allowed(ceiling, torn.batch), torn.sent),
                  Allowed(ceiling, torn.batch), Allowed(ceiling, stored));
    } else {
      AllowedPrefix(ceiling, received, stored);
    }
  }

  lemma InHandIsStored(spec: Spec, s: State, k: nat)
    requires Reachable(spec, s) && k < |spec.publishers| && Unshared(spec.publishers, spec.batchSize)
    ensures Received(s.publish.fan, k) <= Concat(s.persist.stored)
    ensures s.publish.torn.Some? && s.publish.torn.value.k == k ==>
      Received(s.publish.fan, k) + s.publish.torn.value.batch <= Concat(s.persist.stored)
  {
    ReachableInv(spec, s);
    ReceivedIsPrefix(spec, s, k);
    DurabilityFence(spec, s, k);
    var taken := s.qPersist.taken;
    PrefixTransitive(taken, Sent(s.qPersist), Concat(s.persist.stored));
    PrefixTransitive(Received(s.publish.fan, k), taken, Concat(s.persist.stored));
    if s.publish.torn.Some? && s.publish.torn.value.k == k {
      PrefixTransitive(Received(s.publish.fan, k) + s.publish.torn.value.batch, taken, Concat(s.persist.stored));
    }
  }

  lemma SentIsMeaning(spec: Spec, s: State, k: nat, ceiling: Tlp)
    requires Reachable(spec, s) && AllStopped(s) && Healthy(s)
    requires k < |spec.publishers| && Unshared(spec.publishers, spec.batchSize)
    ensures SentBy(ceiling, s.publish, k) == Allowed(ceiling, Meaning(spec))
  {
    SuccessIsComplete(spec, s);
    ChunksAreChunked(Meaning(spec), Max(1, spec.batchSize));
    EmittedIsAllowed(ceiling, HandedTo(s.publish.fan, k));
  }
}
