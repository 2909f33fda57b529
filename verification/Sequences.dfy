/** Sequence vocabulary shared by the stage, publisher and storage modules. */
module Sequences {

  datatype Option<+T> = None | Some(value: T)

  /** The items of all batches, in order. */
  function Concat<T>(batches: seq<seq<T>>): seq<T> {
    if batches == [] then [] else Concat(batches[..|batches| - 1]) + batches[|batches| - 1]
  }

  lemma ConcatSnoc<T>(batches: seq<seq<T>>, batch: seq<T>)
    ensures Concat(batches + [batch]) == Concat(batches) + batch
  {
    assert (batches + [batch])[..|batches|] == batches;
  }

  lemma {:induction false} ConcatAppend<T>(a: seq<seq<T>>, b: seq<seq<T>>)
    ensures Concat(a + b) == Concat(a) + Concat(b)
  {
    if b == [] {
      assert a + b == a;
    } else {
      var init, last := b[..|b| - 1], b[|b| - 1];
      assert b == init + [last] && a + b == (a + init) + [last];
      ConcatSnoc(a + init, last);
      ConcatAppend(a, init);
    }
  }

  lemma PrefixTransitive<T>(a: seq<T>, b: seq<T>, c: seq<T>)
    requires a <= b <= c
    ensures a <= c
  {
    assert a == b[..|a|] == c[..|a|];
  }

  predicate Distinct<T(==)>(s: seq<T>) {
    forall i, j :: 0 <= i < j < |s| ==> s[i] != s[j]
  }

  function Max(a: int, b: int): int {
    if a < b then b else a
  }

  /**
   * Batches cut from a stream at size m: none is empty, none is longer than m, and only the last
   * one may be shorter, and that only when the stream has ended.
   */
  predicate Chunked<T>(batches: seq<seq<T>>, m: int, ended: bool) {
    forall i :: 0 <= i < |batches| ==>
      0 < |batches[i]| <= m && ((i < |batches| - 1 || !ended) ==> |batches[i]| == m)
  }

  /** Reference definition of cutting a whole stream into batches. */
  function Chunks<T>(s: seq<T>, m: int): seq<seq<T>>
    requires m > 0
    decreases |s|
  {
    if s == [] then []
    else if |s| <= m then [s]
    else [s[..m]] + Chunks(s[m..], m)
  }

  /** The cut is unique: a chunked sequence of batches is the reference cut of its own content. */
  lemma {:induction false} ChunkedIsChunks<T>(batches: seq<seq<T>>, m: int)
    requires m > 0 && Chunked(batches, m, true)
    ensures batches == Chunks(Concat(batches), m)
    decreases |batches|
  {
    if |batches| == 1 {
      assert batches == [] + [batches[0]];
      ConcatSnoc([], batches[0]);
      assert Concat(batches) == batches[0];
    } else if |batches| > 1 {
      var head, tail := batches[0], batches[1..];
      assert batches == [head] + tail;
      ConcatCons(head, tail);
      assert tail[0] == batches[1] && |head| == m;
      ConcatNonEmpty(tail);
      ChunkedTail(batches, m);
      ChunkedIsChunks(tail, m);
      ChunksCons(head, Concat(tail), m);
    }
  }

  lemma ChunkedTail<T>(batches: seq<seq<T>>, m: int)
    requires |batches| > 0 && Chunked(batches, m, true)
    ensures Chunked(batches[1..], m, true)
  {
    var tail := batches[1..];
    assert forall i :: 0 <= i < |tail| ==> tail[i] == batches[i + 1];
  }

  /** A full batch in front of a non-empty rest is the first one cut. */
  lemma ChunksCons<T>(head: seq<T>, rest: seq<T>, m: int)
    requires m > 0 && |head| == m && rest != []
    ensures Chunks(head + rest, m) == [head] + Chunks(rest, m)
  {
    assert (head + rest)[..m] == head && (head + rest)[m..] == rest;
  }

  lemma ConcatNonEmpty<T>(batches: seq<seq<T>>)
    requires |batches| > 0 && batches[0] != []
    ensures Concat(batches) != []
  {
    assert batches == [batches[0]] + batches[1..];
    ConcatCons(batches[0], batches[1..]);
  }

  lemma ConcatCons<T>(head: seq<T>, tail: seq<seq<T>>)
    ensures Concat([head] + tail) == head + Concat(tail)
  {
    assert [head] == [] + [head];
    ConcatSnoc([], head);
    assert Concat<T>([]) + head == head;
    ConcatAppend([head], tail);
  }

  /** The reference cut loses nothing and has the promised shape. */
  lemma {:induction false} ChunksAreChunked<T>(s: seq<T>, m: int)
    requires m > 0
    ensures Concat(Chunks(s, m)) == s && Chunked(Chunks(s, m), m, true)
    decreases |s|
  {
    if s == [] {
    } else if |s| <= m {
      assert [s] + [] == [s];
      ConcatCons(s, []);
    } else {
      var head, rest := s[..m], Chunks(s[m..], m);
      ChunksAreChunked(s[m..], m);
      ConcatCons(head, rest);
      assert s == head + s[m..];
      forall i | 0 <= i < |[head] + rest|
        ensures 0 < |([head] + rest)[i]| <= m && (i < |[head] + rest| - 1 ==> |([head] + rest)[i]| == m)
      {
        if i > 0 { assert ([head] + rest)[i] == rest[i - 1]; }
      }
    }
  }

  /** The batch that follows some full batches is the next one of the reference cut. */
  lemma {:induction false} NextChunk<T>(batches: seq<seq<T>>, batch: seq<T>, whole: seq<T>, m: int)
    requires m > 0 && Chunked(batches, m, false)
    requires Concat(batches) + batch <= whole && 0 < |batch| <= m
    requires |batch| == m || Concat(batches) + batch == whole
    ensures |batches| < |Chunks(whole, m)| && Chunks(whole, m)[|batches|] == batch
    decreases |batches|
  {
    if batches == [] {
      assert Concat(batches) + batch == batch;
      assert batch == whole[..|batch|];
    } else {
      var head, tail := batches[0], batches[1..];
      assert batches == [head] + tail;
      ConcatCons(head, tail);
      assert Concat(batches) + batch == head + (Concat(tail) + batch);
      assert |head| == m && head == whole[..m];
      assert whole[m..][..|Concat(tail) + batch|] == Concat(tail) + batch;
      NextChunk(tail, batch, whole[m..], m);
    }
  }
}
