/**
 * The publish stage: every sighting is appended to one buffer per publisher name, and a buffer that
 * reaches the batch size is handed to the publisher whose turn it is.
 */
module PublishStage {
  import opened Sequences

  /** `bufs` is the dictionary of buffers; `handed[k]` records the batches given to publisher k. */
  datatype Fanout<T> = Fanout(bufs: map<string, seq<T>>, handed: map<nat, seq<seq<T>>>)

  function BufOf<T>(st: Fanout<T>, name: string): seq<T> {
    if name in st.bufs then st.bufs[name] else []
  }

  function HandedTo<T>(st: Fanout<T>, k: nat): seq<seq<T>> {
    if k in st.handed then st.handed[k] else []
  }

  /** All that publisher k has been given, in order. */
  function Received<T>(st: Fanout<T>, k: nat): seq<T> {
    Concat(HandedTo(st, k))
  }

  function HandOver<T>(names: seq<string>, st: Fanout<T>, k: nat, batch: seq<T>): Fanout<T>
    requires k < |names|
  {
    Fanout(st.bufs[names[k] := []], st.handed[k := HandedTo(st, k) + [batch]])
  }

  function Append<T>(names: seq<string>, st: Fanout<T>, k: nat, x: T): Fanout<T>
    requires k < |names|
  {
    st.(bufs := st.bufs[names[k] := BufOf(st, names[k]) + [x]])
  }

  /** Publisher k's buffer has reached the batch size. */
  predicate Full<T>(names: seq<string>, batchSize: int, st: Fanout<T>, k: nat)
    requires k < |names|
  {
    |BufOf(st, names[k])| >= batchSize
  }

  /** Publisher k has taken its buffer. */
  function Push<T>(names: seq<string>, st: Fanout<T>, k: nat): Fanout<T>
    requires k < |names|
  {
    HandOver(names, st, k, BufOf(st, names[k]))
  }

  /** Publisher k's share of one sighting: append, and flush a full buffer. */
  function Deliver<T>(names: seq<string>, batchSize: int, st: Fanout<T>, k: nat, x: T): Fanout<T>
    requires k < |names|
  {
    var grown := Append(names, st, k, x);
    if Full(names, batchSize, grown, k) then Push(names, grown, k) else grown
  }

  /** Publisher k's flush at the end of the stream. */
  function Flush<T>(names: seq<string>, st: Fanout<T>, k: nat): Fanout<T>
    requires k < |names|
  {
    if BufOf(st, names[k]) == [] then st else Push(names, st, k)
  }

  /** The publisher list and batch size under which no buffer is ever shared. */
  predicate Unshared(names: seq<string>, batchSize: int) {
    Distinct(names) || batchSize <= 1
  }

  /** Publisher k has received, or holds in its buffer, exactly `upto`, in batches of the right size. */
  ghost predicate Holds<T>(names: seq<string>, batchSize: int, st: Fanout<T>, k: nat, upto: seq<T>)
    requires k < |names|
  {
    && Received(st, k) + BufOf(st, names[k]) == upto
    && |BufOf(st, names[k])| < Max(1, batchSize)
    && Chunked(HandedTo(st, k), Max(1, batchSize), false)
  }

  /** Publisher k has been flushed for good. */
  ghost predicate Drained<T>(names: seq<string>, batchSize: int, st: Fanout<T>, k: nat, upto: seq<T>)
    requires k < |names|
  {
    && Received(st, k) == upto
    && BufOf(st, names[k]) == []
    && Chunked(HandedTo(st, k), Max(1, batchSize), true)
  }

  /** Delivering to publisher j extends what j holds by x. */
  lemma DeliverKeeps<T>(names: seq<string>, batchSize: int, st: Fanout<T>, j: nat, x: T, upto: seq<T>)
    requires j < |names| && Holds(names, batchSize, st, j, upto)
    ensures Holds(names, batchSize, Deliver(names, batchSize, st, j, x), j, upto + [x])
  {
    var buf := BufOf(st, names[j]) + [x];
    assert Received(st, j) + buf == upto + [x];
    if |buf| >= batchSize {
      HandOverKeeps(names, batchSize, st, j, buf);
    } else {
      assert HandedTo(Deliver(names, batchSize, st, j, x), j) == HandedTo(st, j);
    }
  }

  lemma HandOverKeeps<T>(names: seq<string>, batchSize: int, st: Fanout<T>, j: nat, buf: seq<T>)
    requires j < |names| && Chunked(HandedTo(st, j), Max(1, batchSize), false) && |buf| == Max(1, batchSize)
    ensures Holds(names, batchSize, HandOver(names, st, j, buf), j, Received(st, j) + buf)
  {
    ConcatSnoc(HandedTo(st, j), buf);
    var st' := HandOver(names, st, j, buf);
    assert HandedTo(st', j) == HandedTo(st, j) + [buf] && BufOf(st', names[j]) == [];
    assert Received(st', j) + [] == Received(st', j);
  }

  /** Delivering to publisher j leaves every other publisher alone. */
  lemma DeliverSpares<T>(names: seq<string>, batchSize: int, st: Fanout<T>, j: nat, x: T, k: nat, upto: seq<T>)
    requires Unshared(names, batchSize) && j < |names| && k < |names| && k != j
    requires Holds(names, batchSize, st, k, upto)
    ensures Holds(names, batchSize, Deliver(names, batchSize, st, j, x), k, upto)
  {
    var st' := Deliver(names, batchSize, st, j, x);
    assert HandedTo(st', k) == HandedTo(st, k);
    if names[j] == names[k] {
      assert BufOf(st, names[k]) == [];
    }
    assert BufOf(st', names[k]) == BufOf(st, names[k]);
  }

  lemma FlushKeeps<T>(names: seq<string>, batchSize: int, st: Fanout<T>, j: nat, upto: seq<T>)
    requires j < |names| && Holds(names, batchSize, st, j, upto)
    ensures Drained(names, batchSize, Flush(names, st, j), j, upto)
  {
    ConcatSnoc(HandedTo(st, j), BufOf(st, names[j]));
  }

  lemma FlushSpares<T>(names: seq<string>, batchSize: int, st: Fanout<T>, j: nat, k: nat, upto: seq<T>)
    requires Unshared(names, batchSize) && j < |names| && k < |names| && k != j
    ensures Holds(names, batchSize, st, k, upto) ==> Holds(names, batchSize, Flush(names, st, j), k, upto)
    ensures Drained(names, batchSize, st, k, upto) ==> Drained(names, batchSize, Flush(names, st, j), k, upto)
  {
    var st' := Flush(names, st, j);
    assert HandedTo(st', k) == HandedTo(st, k);
    if names[j] != names[k] {
      assert BufOf(st', names[k]) == BufOf(st, names[k]);
    }
  }

  // ---- The stage as one sequential program ----

  function FanOut<T>(names: seq<string>, batchSize: int, st: Fanout<T>, k: nat, x: T): Fanout<T>
    requires k <= |names|
    decreases |names| - k
  {
    if k == |names| then st
    else FanOut(names, batchSize, Deliver(names, batchSize, st, k, x), k + 1, x)
  }

  function Feed<T>(names: seq<string>, batchSize: int, xs: seq<T>): Fanout<T> {
    if xs == [] then Fanout(map[], map[])
    else FanOut(names, batchSize, Feed(names, batchSize, xs[..|xs| - 1]), 0, xs[|xs| - 1])
  }

  function FlushFrom<T>(names: seq<string>, st: Fanout<T>, k: nat): Fanout<T>
    requires k <= |names|
    decreases |names| - k
  {
    if k == |names| then st else FlushFrom(names, Flush(names, st, k), k + 1)
  }

  function Published<T>(names: seq<string>, batchSize: int, xs: seq<T>): Fanout<T> {
    FlushFrom(names, Feed(names, batchSize, xs), 0)
  }

  // ---- Batches only accumulate ----

  lemma {:induction false} FanOutGrows<T>(names: seq<string>, batchSize: int, st: Fanout<T>, j: nat, x: T, k: nat)
    requires j <= |names|
    ensures HandedTo(st, k) <= HandedTo(FanOut(names, batchSize, st, j, x), k)
    decreases |names| - j
  {
    if j < |names| {
      FanOutGrows(names, batchSize, Deliver(names, batchSize, st, j, x), j + 1, x, k);
    }
  }

  lemma {:induction false} FlushFromGrows<T>(names: seq<string>, st: Fanout<T>, j: nat, k: nat)
    requires j <= |names|
    ensures HandedTo(st, k) <= HandedTo(FlushFrom(names, st, j), k)
    decreases |names| - j
  {
    if j < |names| {
      FlushFromGrows(names, Flush(names, st, j), j + 1, k);
    }
  }

  lemma {:induction false} FeedGrows<T>(names: seq<string>, batchSize: int, xs: seq<T>, ys: seq<T>, k: nat)
    requires xs <= ys
    ensures HandedTo(Feed(names, batchSize, xs), k) <= HandedTo(Feed(names, batchSize, ys), k)
    decreases |ys|
  {
    if xs != ys {
      var init, y := ys[..|ys| - 1], ys[|ys| - 1];
      FeedGrows(names, batchSize, xs, init, k);
      FanOutGrows(names, batchSize, Feed(names, batchSize, init), 0, y, k);
    }
  }

  /** What the stage would hand to publisher k over the whole stream. */
  function Plan<T>(names: seq<string>, batchSize: int, xs: seq<T>, k: nat): seq<seq<T>> {
    HandedTo(Published(names, batchSize, xs), k)
  }

  /** Feeding a part of the stream hands over a part of the plan. */
  lemma FeedWithinPlan<T>(names: seq<string>, batchSize: int, xs: seq<T>, ys: seq<T>, k: nat)
    requires xs <= ys
    ensures HandedTo(Feed(names, batchSize, xs), k) <= Plan(names, batchSize, ys, k)
  {
    FeedGrows(names, batchSize, xs, ys, k);
    FlushFromGrows(names, Feed(names, batchSize, ys), 0, k);
  }

  ghost predicate WithinPlan<T>(names: seq<string>, batchSize: int, st: Fanout<T>, xs: seq<T>) {
    forall k: nat :: k < |names| ==> HandedTo(st, k) <= Plan(names, batchSize, xs, k)
  }

  /** Every batch handed over so far is one its publisher delivers. */
  ghost predicate DeliveredSoFar<T(!new)>(names: seq<string>, st: Fanout<T>, delivers: (nat, seq<T>) -> bool) {
    forall k: nat, batch :: k < |names| && batch in HandedTo(st, k) ==> delivers(k, batch)
  }

  /** Every batch of the plan is one its publisher delivers. */
  ghost predicate AllDelivered<T(!new)>(names: seq<string>, batchSize: int, xs: seq<T>,
                                        delivers: (nat, seq<T>) -> bool)
  {
    forall k: nat, batch :: k < |names| && batch in Plan(names, batchSize, xs, k) ==> delivers(k, batch)
  }

  lemma PushDelivers<T(!new)>(names: seq<string>, st: Fanout<T>, k: nat, delivers: (nat, seq<T>) -> bool)
    requires k < |names| && DeliveredSoFar(names, st, delivers) && delivers(k, BufOf(st, names[k]))
    ensures DeliveredSoFar(names, Push(names, st, k), delivers)
  {
    var next := Push(names, st, k);
    forall j: nat, batch | j < |names| && batch in HandedTo(next, j) ensures delivers(j, batch) {
      if j == k {
        assert HandedTo(next, k) == HandedTo(st, k) + [BufOf(st, names[k])];
      } else {
        assert HandedTo(next, j) == HandedTo(st, j);
      }
    }
  }

  /** In the middle of a sighting, what has been handed over is within the plan. */
  lemma MidFanWithinPlan<T>(names: seq<string>, batchSize: int, st: Fanout<T>, j: nat, x: T, xs: seq<T>, ys: seq<T>)
    requires j <= |names| && xs <= ys && FanOut(names, batchSize, st, j, x) == Feed(names, batchSize, xs)
    ensures WithinPlan(names, batchSize, st, ys)
  {
    forall k: nat | k < |names| ensures HandedTo(st, k) <= Plan(names, batchSize, ys, k) {
      FanOutGrows(names, batchSize, st, j, x, k);
      FeedWithinPlan(names, batchSize, xs, ys, k);
    }
  }

  lemma MidFlushWithinPlan<T>(names: seq<string>, batchSize: int, st: Fanout<T>, j: nat, xs: seq<T>)
    requires j <= |names| && FlushFrom(names, st, j) == Published(names, batchSize, xs)
    ensures WithinPlan(names, batchSize, st, xs)
  {
    forall k: nat | k < |names| ensures HandedTo(st, k) <= Plan(names, batchSize, xs, k) {
      FlushFromGrows(names, st, j, k);
    }
  }

  /** The batch in hand is the next one of the plan. */
  lemma NextOfPlan<T>(names: seq<string>, batchSize: int, st: Fanout<T>, k: nat, xs: seq<T>)
    requires k < |names| && WithinPlan(names, batchSize, Push(names, st, k), xs)
    ensures HandedTo(st, k) + [BufOf(st, names[k])] <= Plan(names, batchSize, xs, k)
    ensures WithinPlan(names, batchSize, st, xs)
    ensures BufOf(st, names[k]) in Plan(names, batchSize, xs, k)
  {
    var next, plan := Push(names, st, k), Plan(names, batchSize, xs, k);
    assert HandedTo(next, k) == HandedTo(st, k) + [BufOf(st, names[k])];
    assert plan[|HandedTo(st, k)|] == HandedTo(next, k)[|HandedTo(st, k)|];
    forall j: nat | j < |names| ensures HandedTo(st, j) <= Plan(names, batchSize, xs, j) {
      if j == k {
        PrefixTransitive(HandedTo(st, k), HandedTo(next, k), plan);
      } else {
        assert HandedTo(next, j) == HandedTo(st, j);
      }
    }
  }

  /** Handing over the next batch of the plan: it goes well, or not everything in the plan is delivered. */
  lemma NextPush<T(!new)>(names: seq<string>, batchSize: int, st: Fanout<T>, k: nat, xs: seq<T>,
      delivers: (nat, seq<T>) -> bool)
    requires k < |names| && WithinPlan(names, batchSize, Push(names, st, k), xs) && DeliveredSoFar(names, st, delivers)
    ensures WithinPlan(names, batchSize, st, xs)
    ensures if delivers(k, BufOf(st, names[k])) then DeliveredSoFar(names, Push(names, st, k), delivers)
      else !AllDelivered(names, batchSize, xs, delivers)
  {
    NextOfPlan(names, batchSize, st, k, xs);
    if delivers(k, BufOf(st, names[k])) {
      PushDelivers(names, st, k, delivers);
    }
  }

  /** When no buffer is shared, each publisher has been handed the first batches of the stream. */
  ghost predicate HandedInOrder<T>(names: seq<string>, batchSize: int, st: Fanout<T>, xs: seq<T>) {
    Unshared(names, batchSize) ==> forall k: nat :: k < |names| ==> HandedTo(st, k) <= Chunks(xs, Max(1, batchSize))
  }

  lemma WithinPlanIsInOrder<T>(names: seq<string>, batchSize: int, st: Fanout<T>, xs: seq<T>)
    requires WithinPlan(names, batchSize, st, xs)
    ensures HandedInOrder(names, batchSize, st, xs)
  {
    if Unshared(names, batchSize) {
      forall k: nat | k < |names| ensures HandedTo(st, k) <= Chunks(xs, Max(1, batchSize)) {
        PublishedIsComplete(names, batchSize, xs, k);
      }
    }
  }

  /**
   * The stage as the source runs it: one dictionary of buffers, appended to and cleared in place. A
   * publisher that raises anything but a TLP violation ends the loop with its batch in hand.
   */
  method RunPublish<T(!new)>(names: seq<string>, xs: seq<T>, batchSize: int, delivers: (nat, seq<T>) -> bool)
    returns (st: Fanout<T>, ok: bool)
    ensures ok <==> AllDelivered(names, batchSize, xs, delivers)
    ensures ok && names != [] ==> st == Published(names, batchSize, xs)
    ensures names == [] ==> st.handed == map[]
    ensures WithinPlan(names, batchSize, st, xs) && DeliveredSoFar(names, st, delivers)
    ensures HandedInOrder(names, batchSize, st, xs)
  {
    st, ok := Fanout(map[], map[]), true;
    if names == [] {
      return;
    }
    assert xs[..0] == [];
    for i := 0 to |xs|
      invariant st == Feed(names, batchSize, xs[..i]) && DeliveredSoFar(names, st, delivers)
    {
      assert xs[..i + 1][..i] == xs[..i];
      for k := 0 to |names|
        invariant FanOut(names, batchSize, st, k, xs[i]) == Feed(names, batchSize, xs[..i + 1])
        invariant DeliveredSoFar(names, st, delivers)
      {
        st := Append(names, st, k, xs[i]);
        if |BufOf(st, names[k])| >= batchSize {
          MidFanWithinPlan(names, batchSize, Push(names, st, k), k + 1, xs[i], xs[..i + 1], xs);
          NextPush(names, batchSize, st, k, xs, delivers);
          if !delivers(k, BufOf(st, names[k])) {
            WithinPlanIsInOrder(names, batchSize, st, xs);
            return st, false;
          }
          st := Push(names, st, k);
        }
      }
    }
    assert xs[..|xs|] == xs;
    for k := 0 to |names|
      invariant FlushFrom(names, st, k) == Published(names, batchSize, xs) && DeliveredSoFar(names, st, delivers)
    {
      if BufOf(st, names[k]) != [] {
        MidFlushWithinPlan(names, batchSize, Push(names, st, k), k + 1, xs);
        NextPush(names, batchSize, st, k, xs, delivers);
        if !delivers(k, BufOf(st, names[k])) {
          WithinPlanIsInOrder(names, batchSize, st, xs);
          return st, false;
        }
        st := Push(names, st, k);
      }
    }
    WithinPlanIsInOrder(names, batchSize, st, xs);
  }

  /** What publisher k has been given while a sighting is going round and has reached publisher j. */
  function GivenAt<T>(upto: seq<T>, x: T, k: nat, j: nat): seq<T> { if k < j then upto + [x] else upto }

  lemma DeliverInTurn<T>(names: seq<string>, batchSize: int, st: Fanout<T>, j: nat, x: T, upto: seq<T>, k: nat)
    requires Unshared(names, batchSize) && j < |names| && k < |names|
    requires Holds(names, batchSize, st, k, GivenAt(upto, x, k, j))
    ensures Holds(names, batchSize, Deliver(names, batchSize, st, j, x), k, GivenAt(upto, x, k, j + 1))
  {
    if k == j {
      DeliverKeeps(names, batchSize, st, j, x, upto);
    } else {
      DeliverSpares(names, batchSize, st, j, x, k, GivenAt(upto, x, k, j));
    }
  }

  lemma {:induction false} FanOutKeeps<T>(names: seq<string>, batchSize: int, st: Fanout<T>, j: nat, x: T, upto: seq<T>)
    requires Unshared(names, batchSize) && j <= |names|
    requires forall k: nat :: k < |names| ==> Holds(names, batchSize, st, k, GivenAt(upto, x, k, j))
    ensures forall k: nat :: k < |names| ==> Holds(names, batchSize, FanOut(names, batchSize, st, j, x), k, upto + [x])
    decreases |names| - j
  {
    if j == |names| {
      forall k: nat | k < |names| ensures Holds(names, batchSize, st, k, upto + [x]) {
        assert GivenAt(upto, x, k, j) == upto + [x];
      }
    } else {
      var st', next := Deliver(names, batchSize, st, j, x), j + 1;
      forall k: nat | k < |names| ensures Holds(names, batchSize, st', k, GivenAt(upto, x, k, next)) {
        DeliverInTurn(names, batchSize, st, j, x, upto, k);
      }
      FanOutKeeps(names, batchSize, st', next, x, upto);
    }
  }

  lemma {:induction false} FeedKeeps<T>(names: seq<string>, batchSize: int, xs: seq<T>)
    requires Unshared(names, batchSize)
    ensures forall k :: 0 <= k < |names| ==> Holds(names, batchSize, Feed(names, batchSize, xs), k, xs)
  {
    if xs != [] {
      var init, x := xs[..|xs| - 1], xs[|xs| - 1];
      FeedKeeps(names, batchSize, init);
      assert forall k: nat :: k < |names| ==> GivenAt(init, x, k, 0) == init;
      FanOutKeeps(names, batchSize, Feed(names, batchSize, init), 0, x, init);
      assert init + [x] == xs;
    }
  }

  lemma {:induction false} FlushFromKeeps<T>(names: seq<string>, batchSize: int, st: Fanout<T>, j: nat, upto: seq<T>)
    requires Unshared(names, batchSize) && j <= |names|
    requires forall k :: 0 <= k < j ==> Drained(names, batchSize, st, k, upto)
    requires forall k :: j <= k < |names| ==> Holds(names, batchSize, st, k, upto)
    ensures forall k :: 0 <= k < |names| ==> Drained(names, batchSize, FlushFrom(names, st, j), k, upto)
    decreases |names| - j
  {
    if j < |names| {
      FlushKeeps(names, batchSize, st, j, upto);
      forall k | 0 <= k < |names| && k != j
        ensures Holds(names, batchSize, st, k, upto) ==> Holds(names, batchSize, Flush(names, st, j), k, upto)
        ensures Drained(names, batchSize, st, k, upto) ==> Drained(names, batchSize, Flush(names, st, j), k, upto)
      {
        FlushSpares(names, batchSize, st, j, k, upto);
      }
      FlushFromKeeps(names, batchSize, Flush(names, st, j), j + 1, upto);
    }
  }

  /** Each publisher is given the whole stream, cut at the batch size, whatever the others do. */
  lemma PublishedIsComplete<T>(names: seq<string>, batchSize: int, xs: seq<T>, k: nat)
    requires Unshared(names, batchSize) && k < |names|
    ensures HandedTo(Published(names, batchSize, xs), k) == Chunks(xs, Max(1, batchSize))
  {
    FeedKeeps(names, batchSize, xs);
    FlushFromKeeps(names, batchSize, Feed(names, batchSize, xs), 0, xs);
    assert Drained(names, batchSize, Published(names, batchSize, xs), k, xs);
    ChunkedIsChunks(HandedTo(Published(names, batchSize, xs), k), Max(1, batchSize));
  }

  // ---- Shared names ----

  /** Publisher k has been given at least two items, or its buffer holds two. */
  ghost predicate Copies<T>(names: seq<string>, st: Fanout<T>, k: nat)
    requires k < |names|
  {
    |Received(st, k)| >= 2 || |BufOf(st, names[k])| >= 2
  }

  ghost predicate Doubled<T>(names: seq<string>, st: Fanout<T>) {
    exists k :: 0 <= k < |names| && Copies(names, st, k)
  }

  lemma SecondItemIsCopy<T>(names: seq<string>, batchSize: int, st: Fanout<T>, j: nat, x: T)
    requires j < |names| && |BufOf(st, names[j])| >= 1
    ensures Copies(names, Deliver(names, batchSize, st, j, x), j)
  {
    ConcatSnoc(HandedTo(st, j), BufOf(st, names[j]) + [x]);
  }

  lemma DeliverKeepsCopies<T>(names: seq<string>, batchSize: int, st: Fanout<T>, j: nat, x: T, k: nat)
    requires j < |names| && k < |names| && Copies(names, st, k) && BufOf(st, names[j]) == []
    ensures Copies(names, Deliver(names, batchSize, st, j, x), k)
  {
    ConcatSnoc(HandedTo(st, j), [x]);
    assert [] + [x] == [x];
  }

  lemma DeliverKeepsDoubled<T>(names: seq<string>, batchSize: int, st: Fanout<T>, j: nat, x: T)
    requires j < |names|
    requires Doubled(names, st) || |BufOf(st, names[j])| >= 1
    ensures Doubled(names, Deliver(names, batchSize, st, j, x))
  {
    if |BufOf(st, names[j])| >= 1 {
      SecondItemIsCopy(names, batchSize, st, j, x);
    } else {
      var k :| 0 <= k < |names| && Copies(names, st, k);
      DeliverKeepsCopies(names, batchSize, st, j, x, k);
    }
  }

  lemma {:induction false} FanOutKeepsDoubled<T>(names: seq<string>, batchSize: int, st: Fanout<T>, j: nat, x: T)
    requires j <= |names| && Doubled(names, st)
    ensures Doubled(names, FanOut(names, batchSize, st, j, x))
    decreases |names| - j
  {
    if j < |names| {
      DeliverKeepsDoubled(names, batchSize, st, j, x);
      var st' := Deliver(names, batchSize, st, j, x);
      FanOutKeepsDoubled(names, batchSize, st', j + 1, x);
    }
  }

  lemma FlushKeepsCopies<T>(names: seq<string>, st: Fanout<T>, j: nat, k: nat) returns (w: nat)
    requires j < |names| && k < |names|
    requires |Received(st, k)| >= 2 || (j <= k && |BufOf(st, names[k])| >= 2)
    ensures w < |names|
    ensures |Received(Flush(names, st, j), w)| >= 2 || (j + 1 <= w && |BufOf(Flush(names, st, j), names[w])| >= 2)
  {
    ConcatSnoc(HandedTo(st, j), BufOf(st, names[j]));
    w := if |Received(st, k)| < 2 && names[j] == names[k] then j else k;
  }

  lemma {:induction false} FlushFromKeepsCopies<T>(names: seq<string>, st: Fanout<T>, j: nat, k: nat) returns (w: nat)
    requires j <= |names| && k < |names|
    requires |Received(st, k)| >= 2 || (j <= k && |BufOf(st, names[k])| >= 2)
    ensures w < |names| && |Received(FlushFrom(names, st, j), w)| >= 2
    decreases |names| - j
  {
    w := k;
    if j < |names| {
      w := FlushKeepsCopies(names, st, j, k);
      w := FlushFromKeepsCopies(names, Flush(names, st, j), j + 1, w);
    }
  }

  /** Up to the second use of a name, one sighting only fills buffers; the second use doubles it. */
  lemma {:induction false} SecondUseDoubles<T>(names: seq<string>, batchSize: int, st: Fanout<T>,
                                               j: nat, i: nat, d: nat, x: T)
    requires batchSize >= 2 && j <= d && i < d < |names| && names[i] == names[d]
    requires j <= i || |BufOf(st, names[i])| >= 1
    ensures Doubled(names, FanOut(names, batchSize, st, j, x))
    decreases d - j
  {
    var st' := Deliver(names, batchSize, st, j, x);
    if |BufOf(st, names[j])| >= 1 {
      DeliverKeepsDoubled(names, batchSize, st, j, x);
      FanOutKeepsDoubled(names, batchSize, st', j + 1, x);
    } else {
      assert names[j] != names[i] || j <= i;
      SecondUseDoubles(names, batchSize, st', j + 1, i, d, x);
    }
  }

  /**
   * Every publisher is handed exactly the stream, for every stream, if and only if no buffer is
   * shared: the names are distinct or batches hold a single sighting.
   */
  lemma CompleteIffUnshared<T>(names: seq<string>, batchSize: int, witnessItem: T)
    ensures (forall xs: seq<T>, k :: 0 <= k < |names| ==> Received(Published(names, batchSize, xs), k) == xs)
      <==> Unshared(names, batchSize)
  {
    if Unshared(names, batchSize) {
      forall xs: seq<T>, k | 0 <= k < |names|
        ensures Received(Published(names, batchSize, xs), k) == xs
      {
        PublishedIsComplete(names, batchSize, xs, k);
        ChunksAreChunked(xs, Max(1, batchSize));
      }
    } else {
      var i, d :| 0 <= i < d < |names| && names[i] == names[d];
      var xs := [witnessItem];
      assert xs[..0] == [];
      SecondUseDoubles(names, batchSize, Feed<T>(names, batchSize, []), 0, i, d, witnessItem);
      var fed := Feed(names, batchSize, xs);
      var c :| 0 <= c < |names| && Copies(names, fed, c);
      var k := FlushFromKeepsCopies(names, fed, 0, c);
      assert Received(Published(names, batchSize, xs), k) != xs;
    }
  }
}
