/** How the exceptions of a run become its outcome. */
module Outcome {
  import opened Sequences

  /** A leaf exception by its place in the error hierarchy, or an exception group. */
  datatype Failure = Permanent(text: string) | OtherFramework(text: string) | Foreign | Group(subs: seq<Failure>)

  datatype Result = Succeeded | Failed | Partial | Reraised

  predicate IsFramework(f: Failure) { f.Permanent? || f.OtherFramework? }

  /** The leaves from left to right. */
  function Leaves(f: Failure): seq<Failure>
    decreases f, 1
  {
    match f
    case Group(subs) => LeavesOf(subs)
    case _ => [f]
  }

  function LeavesOf(subs: seq<Failure>): seq<Failure>
    decreases subs, 0
  {
    if subs == [] then [] else Leaves(subs[0]) + LeavesOf(subs[1..])
  }

  /** Somewhere in the tree, at any depth, there is this exception. */
  predicate Occurs(leaf: Failure, f: Failure)
    decreases f
  {
    match f
    case Group(subs) => exists i :: 0 <= i < |subs| && Occurs(leaf, subs[i])
    case _ => leaf == f
  }

  method Flatten(f: Failure) returns (out: seq<Failure>)
    ensures out == Leaves(f)
    decreases f
  {
    if !f.Group? {
      return [f];
    }
    out := [];
    for i := 0 to |f.subs|
      invariant out + LeavesOf(f.subs[i..]) == Leaves(f)
    {
      var inner := Flatten(f.subs[i]);
      assert f.subs[i..][1..] == f.subs[i + 1..];
      assert (out + inner) + LeavesOf(f.subs[i + 1..]) == out + (inner + LeavesOf(f.subs[i + 1..]));
      out := out + inner;
    }
    assert f.subs[|f.subs|..] == [];
    assert out + [] == out;
  }

  /** Flattening neither loses nor invents an exception. */
  lemma {:induction false} LeavesAreOccurrences(leaf: Failure, f: Failure)
    ensures leaf in Leaves(f) <==> !leaf.Group? && Occurs(leaf, f)
    decreases f, 1
  {
    if f.Group? {
      LeavesOfAreOccurrences(leaf, f.subs);
    }
  }

  lemma {:induction false} LeavesOfAreOccurrences(leaf: Failure, subs: seq<Failure>)
    ensures leaf in LeavesOf(subs) <==> !leaf.Group? && exists i :: 0 <= i < |subs| && Occurs(leaf, subs[i])
    decreases subs, 0
  {
    if subs != [] {
      LeavesAreOccurrences(leaf, subs[0]);
      LeavesOfAreOccurrences(leaf, subs[1..]);
      if i :| 0 <= i < |subs| && Occurs(leaf, subs[i]) {
        if i > 0 { assert subs[1..][i - 1] == subs[i]; }
      }
      if i :| 0 <= i < |subs[1..]| && Occurs(leaf, subs[1..][i]) {
        assert subs[i + 1] == subs[1..][i];
      }
    }
  }

  /** The leaves of a group are those of its members, one member after the other. */
  lemma {:induction false} LeavesInOrder(f: Failure, a: seq<Failure>, b: seq<Failure>)
    ensures Leaves(Group([f])) == Leaves(f) && (!f.Group? ==> Leaves(f) == [f])
    ensures Leaves(Group(a + b)) == Leaves(Group(a)) + Leaves(Group(b))
  {
    assert LeavesOf([f]) == Leaves(f) + LeavesOf([f][1..]) && [f][1..] == [] && LeavesOf([]) == [];
    assert Leaves(f) + [] == Leaves(f);
    if a == [] {
      assert a + b == b;
    } else {
      assert (a + b)[0] == a[0] && (a + b)[1..] == a[1..] + b;
      LeavesInOrder(f, a[1..], b);
    }
  }

  /** What `run_with_outcome` makes of what the run raised, if anything. */
  function ResultOf(thrown: Option<Failure>): Result {
    match thrown
    case None => Succeeded
    case Some(f) =>
      if exists i :: 0 <= i < |Leaves(f)| && Leaves(f)[i].Permanent? then Failed
      else if exists i :: 0 <= i < |Leaves(f)| && IsFramework(Leaves(f)[i]) then Partial
      else Reraised
  }

  /** Each result by what occurs in the exception tree. */
  lemma ResultMeaning(thrown: Option<Failure>)
    ensures ResultOf(thrown) == Succeeded <==> thrown.None?
    ensures ResultOf(thrown) == Failed <==>
      thrown.Some? && exists leaf: Failure :: leaf.Permanent? && Occurs(leaf, thrown.value)
    ensures ResultOf(thrown) == Reraised <==>
      thrown.Some? && forall leaf: Failure :: !leaf.Group? && Occurs(leaf, thrown.value) ==> leaf == Foreign
  {
    if thrown.Some? {
      var flat := Leaves(thrown.value);
      forall leaf: Failure ensures leaf in flat <==> !leaf.Group? && Occurs(leaf, thrown.value) {
        LeavesAreOccurrences(leaf, thrown.value);
      }
      if leaf: Failure :| leaf.Permanent? && Occurs(leaf, thrown.value) {
        assert leaf in flat;
      }
      if leaf: Failure :| !leaf.Group? && Occurs(leaf, thrown.value) && leaf != Foreign {
        assert leaf in flat && IsFramework(leaf);
      }
      if i :| 0 <= i < |flat| && IsFramework(flat[i]) {
        assert flat[i] in flat && flat[i] != Foreign;
      }
    }
  }

  method Classify(thrown: Option<Failure>) returns (r: Result)
    ensures r == ResultOf(thrown)
  {
    if thrown.None? {
      return Succeeded;
    }
    var flat := Flatten(thrown.value);
    if i :| 0 <= i < |flat| && flat[i].Permanent? {
      return Failed;
    }
    if i :| 0 <= i < |flat| && IsFramework(flat[i]) {
      return Partial;
    }
    r := Reraised;
  }
}
