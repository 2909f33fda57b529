/** The persist stage as the source runs it over one input stream. */
module PersistStage {
  import opened Sequences

  /**
   * One buffer is filled, published and cleared in a loop. `accepts` is the canonical publisher: a
   * refused batch raises out of the loop. Everything stored has been forwarded, and nothing else.
   */
  method RunPersist<T>(accepts: seq<T> -> bool, xs: seq<T>, batchSize: int)
    returns (stored: seq<seq<T>>, forwarded: seq<T>, ok: bool)
    ensures stored <= Chunks(xs, Max(1, batchSize))
    ensures forwarded == Concat(stored)
    ensures forall i :: 0 <= i < |stored| ==> accepts(stored[i])
    ensures ok ==> stored == Chunks(xs, Max(1, batchSize))
    ensures !ok ==> |stored| < |Chunks(xs, Max(1, batchSize))| && !accepts(Chunks(xs, Max(1, batchSize))[|stored|])
  {
    ghost var m := Max(1, batchSize);
    var batch: seq<T> := [];
    stored, forwarded, ok := [], [], true;
    var i := 0;
    while i < |xs|
      invariant 0 <= i <= |xs| && |batch| < m
      invariant Chunked(stored, m, false) && Concat(stored) + batch == xs[..i]
      invariant forwarded == Concat(stored) && stored <= Chunks(xs, m)
      invariant forall j :: 0 <= j < |stored| ==> accepts(stored[j])
    {
      batch := batch + [xs[i]];
      i := i + 1;
      assert Concat(stored) + batch == xs[..i];
      if |batch| >= batchSize {
        StoreBatch(stored, batch, xs, m);
        if !accepts(batch) {
          return stored, forwarded, false;
        }
        stored := stored + [batch];
        forwarded := forwarded + batch;
        batch := [];
      }
    }
    assert xs[..i] == xs;
    if batch != [] {
      StoreBatch(stored, batch, xs, m);
      if !accepts(batch) {
        return stored, forwarded, false;
      }
      stored := stored + [batch];
      forwarded := forwarded + batch;
    }
    assert Concat(stored) == xs;
    ChunkedIsChunks(stored, m);
  }

  /** The batch in hand is the next one of the reference cut. */
  lemma StoreBatch<T>(stored: seq<seq<T>>, batch: seq<T>, whole: seq<T>, m: int)
    requires m > 0 && Chunked(stored, m, false) && stored <= Chunks(whole, m)
    requires Concat(stored) + batch <= whole && 0 < |batch| <= m
    requires |batch| == m || Concat(stored) + batch == whole
    ensures |stored| < |Chunks(whole, m)| && Chunks(whole, m)[|stored|] == batch
    ensures stored + [batch] <= Chunks(whole, m)
    ensures Concat(stored + [batch]) == Concat(stored) + batch
    ensures Chunked(stored + [batch], m, |batch| < m)
  {
    NextChunk(stored, batch, whole, m);
    ConcatSnoc(stored, batch);
    PrefixGrows(stored, batch, Chunks(whole, m));
  }

  lemma PrefixGrows<T>(a: seq<T>, x: T, whole: seq<T>)
    requires a <= whole && |a| < |whole| && whole[|a|] == x
    ensures a + [x] <= whole
  {
  }
}
