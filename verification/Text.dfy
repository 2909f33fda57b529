/** The text operations of the source's language on ASCII strings. */
module Text {

  // ---- Characters ----

  predicate IsUpper(c: char) { 'A' <= c <= 'Z' }

  predicate IsLower(c: char) { 'a' <= c <= 'z' }

  predicate IsDigit(c: char) { '0' <= c <= '9' }

  predicate IsAlpha(c: char) { IsUpper(c) || IsLower(c) }

  predicate IsAlnum(c: char) { IsAlpha(c) || IsDigit(c) }

  /** A character of `\w`. */
  predicate IsWord(c: char) { IsAlnum(c) || c == '_' }

  /** What `strip` removes. */
  predicate IsSpace(c: char) {
    c == ' ' || '\t' <= c <= '\r' || (28 <= c as int <= 31)
  }

  function LowerChar(c: char): (r: char)
    ensures !IsUpper(r) && (!IsUpper(c) ==> r == c) && (IsUpper(c) ==> IsLower(r) && r - 'a' == c - 'A')
    ensures IsSpace(r) <==> IsSpace(c)
  {
    if IsUpper(c) then (c as int + 32) as char else c
  }

  function Lower(s: string): (r: string)
    ensures |r| == |s| && forall i :: 0 <= i < |s| ==> r[i] == LowerChar(s[i])
  {
    seq(|s|, i requires 0 <= i < |s| => LowerChar(s[i]))
  }

  lemma LowerIdempotent(s: string)
    ensures Lower(Lower(s)) == Lower(s)
  {
  }

  lemma LowerConcat(a: string, b: string)
    ensures Lower(a + b) == Lower(a) + Lower(b)
  {
  }

  lemma LowerKeeps(s: string, c: char)
    requires c !in s && !IsAlpha(c)
    ensures c !in Lower(s)
  {
  }

  // ---- strip ----

  /** The first position from i on that is not white space, or the length of s. */
  function FirstText(s: string, i: nat): (k: nat)
    requires i <= |s|
    ensures i <= k <= |s| && (k < |s| ==> !IsSpace(s[k]))
    ensures (i < |s| && !IsSpace(s[i])) ==> k == i
    decreases |s| - i
  {
    if i < |s| && IsSpace(s[i]) then FirstText(s, i + 1) else i
  }

  /** Where the white space that ends s[i..n] begins. */
  function LastText(s: string, i: nat, n: nat): (k: nat)
    requires i <= n <= |s|
    ensures i <= k <= n && (i < k ==> !IsSpace(s[k - 1]))
    ensures (i < n && !IsSpace(s[n - 1])) ==> k == n
    ensures (i < n && !IsSpace(s[i])) ==> i < k
  {
    if i < n && IsSpace(s[n - 1]) then LastText(s, i, n - 1) else n
  }

  /** No white space at either end. */
  predicate Trimmed(s: string) {
    s == "" || (!IsSpace(s[0]) && !IsSpace(s[|s| - 1]))
  }

  function Strip(s: string): (r: string)
    ensures Trimmed(r) && |r| <= |s| && (Trimmed(s) <==> r == s) && (|r| == |s| ==> r == s)
    ensures (s != "" && !IsSpace(s[0])) ==> r != ""
  {
    var i := FirstText(s, 0);
    s[i..LastText(s, i, |s|)]
  }

  // ---- split, partition ----

  /** The first position of c from i on, or the length of s. */
  function IndexFrom(s: string, c: char, i: nat): (k: nat)
    requires i <= |s|
    ensures i <= k <= |s|
    decreases |s| - i
  {
    if i < |s| && s[i] != c then IndexFrom(s, c, i + 1) else i
  }

  function IndexOf(s: string, c: char): (k: nat)
    ensures k <= |s|
  {
    IndexFrom(s, c, 0)
  }

  lemma {:induction false} IndexFromIsFirst(s: string, c: char, i: nat)
    requires i <= |s|
    ensures forall j :: i <= j < IndexFrom(s, c, i) ==> s[j] != c
    ensures IndexFrom(s, c, i) < |s| ==> s[IndexFrom(s, c, i)] == c
    decreases |s| - i
  {
    if i < |s| && s[i] != c {
      IndexFromIsFirst(s, c, i + 1);
    }
  }

  lemma IndexOfIsFirst(s: string, c: char)
    ensures c !in s[..IndexOf(s, c)] && (IndexOf(s, c) < |s| ==> s[IndexOf(s, c)] == c)
    ensures IndexOf(s, c) == |s| <==> c !in s
  {
    IndexFromIsFirst(s, c, 0);
  }

  lemma IndexOfFirst(a: string, c: char, b: string)
    requires c !in a
    ensures IndexOf(a + [c] + b, c) == |a|
  {
    var s := a + [c] + b;
    IndexOfIsFirst(s, c);
    assert s[|a|] == c;
    assert s[..|a|] == a;
  }

  lemma CutAt(a: string, c: char, b: string)
    ensures (a + [c] + b)[..|a|] == a && (a + [c] + b)[|a| + 1..] == b
  {
  }

  /** The text before the first c, and the text after it. */
  function Partition(s: string, c: char): (string, string) {
    var i := IndexOf(s, c);
    if i < |s| then (s[..i], s[i + 1..]) else (s, "")
  }

  lemma PartitionShape(s: string, c: char)
    ensures c !in Partition(s, c).0
    ensures Partition(s, c) == (s, "") || s == Partition(s, c).0 + [c] + Partition(s, c).1
  {
    IndexOfIsFirst(s, c);
    var i := IndexOf(s, c);
    if i < |s| {
      assert s == s[..i] + [s[i]] + s[i + 1..];
    }
  }

  lemma PartitionAt(a: string, c: char, b: string)
    requires c !in a
    ensures Partition(a + [c] + b, c) == (a, b)
  {
    IndexOfFirst(a, c, b);
    CutAt(a, c, b);
  }

  lemma PartitionNone(a: string, c: char)
    requires c !in a
    ensures Partition(a, c) == (a, "")
  {
    IndexOfIsFirst(a, c);
  }

  /** The last position of c before n, or -1. */
  function LastIndexBefore(s: string, c: char, n: nat): (k: int)
    requires n <= |s|
    ensures -1 <= k < n
  {
    if n > 0 && s[n - 1] != c then LastIndexBefore(s, c, n - 1) else n - 1
  }

  function LastIndexOf(s: string, c: char): (k: int)
    ensures -1 <= k < |s|
  {
    LastIndexBefore(s, c, |s|)
  }

  lemma {:induction false} LastIndexBeforeIsLast(s: string, c: char, n: nat)
    requires n <= |s|
    ensures forall j :: LastIndexBefore(s, c, n) < j < n ==> s[j] != c
    ensures LastIndexBefore(s, c, n) >= 0 ==> s[LastIndexBefore(s, c, n)] == c
  {
    if n > 0 && s[n - 1] != c {
      LastIndexBeforeIsLast(s, c, n - 1);
    }
  }

  lemma LastIndexOfIsLast(s: string, c: char)
    ensures c !in s[LastIndexOf(s, c) + 1..]
    ensures LastIndexOf(s, c) >= 0 ==> s[LastIndexOf(s, c)] == c
    ensures LastIndexOf(s, c) == -1 <==> c !in s
  {
    LastIndexBeforeIsLast(s, c, |s|);
    NotAfter(s, c, LastIndexOf(s, c));
  }

  lemma NotAfter(s: string, c: char, k: int)
    requires -1 <= k < |s| && forall j :: k < j < |s| ==> s[j] != c
    ensures c !in s[k + 1..]
  {
    var t := s[k + 1..];
    assert forall i :: 0 <= i < |t| ==> t[i] == s[k + 1 + i];
  }

  lemma LastIndexOfLast(a: string, c: char, b: string)
    requires c !in b
    ensures LastIndexOf(a + [c] + b, c) == |a|
  {
    var s := a + [c] + b;
    LastIndexOfIsLast(s, c);
    assert s[|a|] == c;
    assert s[|a| + 1..] == b;
    assert c in s;
  }

  function Split(s: string, c: char): (parts: seq<string>)
    ensures parts != []
    decreases |s|
  {
    var i := IndexOf(s, c);
    if i == |s| then [s] else [s[..i]] + Split(s[i + 1..], c)
  }

  // ---- replace ----

  predicate EndsWith(s: string, t: string) { |t| <= |s| && s[|s| - |t|..] == t }

  lemma EndHolds(s: string, t: string, c: char)
    requires EndsWith(s, t) && c in t
    ensures c in s
  {
  }

  predicate Occurs(t: string, s: string) {
    t <= s || (s != "" && Occurs(t, s[1..]))
  }

  /** Every occurrence of src replaced, found from the left without overlap. */
  function Replace(s: string, src: string, dst: string): string
    requires src != ""
    decreases |s|
  {
    if s == "" then ""
    else if src <= s then dst + Replace(s[|src|..], src, dst)
    else [s[0]] + Replace(s[1..], src, dst)
  }

  /** Replacing leaves a text as it is if the sought text does not occur, and otherwise makes it shorter. */
  lemma {:induction false} ReplaceShape(s: string, src: string, dst: string)
    requires |dst| < |src|
    ensures !Occurs(src, s) ==> Replace(s, src, dst) == s
    ensures Occurs(src, s) ==> |Replace(s, src, dst)| <= |s| - (|src| - |dst|)
    decreases |s|
  {
    if s == "" {
    } else if src <= s {
      ReplaceShape(s[|src|..], src, dst);
    } else {
      ReplaceShape(s[1..], src, dst);
    }
  }

  /** A text in front that lacks the first sought character is passed over. */
  lemma {:induction false} ReplaceAfter(a: string, s: string, src: string, dst: string)
    requires src != "" && src[0] !in a
    ensures Replace(a + s, src, dst) == a + Replace(s, src, dst)
    decreases |a|
  {
    if a == "" {
      assert a + s == s;
    } else {
      ReplaceAfter(a[1..], s, src, dst);
      assert (a + s)[1..] == a[1..] + s && (a + s)[0] == a[0];
      assert a == [a[0]] + a[1..];
    }
  }

  lemma {:induction false} OccursNeeds(t: string, s: string, c: char)
    requires c in t && c !in s
    ensures !Occurs(t, s)
  {
    if s != "" {
      OccursNeeds(t, s[1..], c);
    }
  }

  lemma {:induction false} ReplaceAddsNothing(s: string, src: string, dst: string, c: char)
    requires src != "" && c !in s && c !in dst
    ensures c !in Replace(s, src, dst)
    decreases |s|
  {
    if s == "" {
    } else if src <= s {
      ReplaceAddsNothing(s[|src|..], src, dst, c);
    } else {
      ReplaceAddsNothing(s[1..], src, dst, c);
    }
  }
}
