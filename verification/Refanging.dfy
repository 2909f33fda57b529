/** Undoing the common ways of defanging an indicator, applied before every domain and URL is canonicalized. */
module Refanging {
  import opened Text

  const TOKENS: seq<(string, string)> :=
    [("[.]", "."), ("(.)", "."), ("[:]", ":"), ("[at]", "@"), ("[://]", "://")]

  function Replaced(s: string, k: nat): string
    requires k <= |TOKENS|
  {
    if k == 0 then s else Replace(Replaced(s, k - 1), TOKENS[k - 1].0, TOKENS[k - 1].1)
  }

  /** The length of a match of `hxxp(s?)://`, in any case, at the front of s; 0 if there is none. */
  function HxxpLength(s: string): (n: nat)
    ensures n <= |s| && (n == 0 || n == 7 || n == 8)
  {
    if |s| < 7 || Lower(s[..4]) != "hxxp" then 0
    else if s[4..7] == "://" then 7
    else if |s| >= 8 && LowerChar(s[4]) == 's' && s[5..8] == "://" then 8
    else 0
  }

  /** Substitution of `http` for `hxxp`, only where a word begins. */
  function SubHxxp(s: string, inWord: bool): string
    decreases |s|
  {
    if s == "" then ""
    else if !inWord && HxxpLength(s) > 0 then
      "http" + s[4..HxxpLength(s)] + SubHxxp(s[HxxpLength(s)..], false)
    else [s[0]] + SubHxxp(s[1..], IsWord(s[0]))
  }

  predicate HasHxxp(s: string, inWord: bool)
    decreases |s|
  {
    s != "" && ((!inWord && HxxpLength(s) > 0) || HasHxxp(s[1..], IsWord(s[0])))
  }

  function Refang(v: string): string {
    SubHxxp(Replaced(v, |TOKENS|), false)
  }

  /** The loop of the source. */
  method RefangInPlace(value: string) returns (out: string)
    ensures out == Refang(value)
  {
    out := value;
    for k := 0 to |TOKENS|
      invariant out == Replaced(value, k)
    {
      out := Replace(out, TOKENS[k].0, TOKENS[k].1);
    }
    out := SubHxxp(out, false);
  }

  /** One of the first k tokens occurs in the text. */
  predicate HasToken(s: string, k: nat)
    requires k <= |TOKENS|
  {
    k > 0 && (Occurs(TOKENS[k - 1].0, s) || HasToken(s, k - 1))
  }

  /** The text still contains something to refang. */
  predicate Defanged(s: string) {
    HasToken(s, |TOKENS|) || HasHxxp(s, false)
  }

  lemma {:induction false} ReplacedShape(s: string, k: nat)
    requires k <= |TOKENS|
    ensures !HasToken(s, k) ==> Replaced(s, k) == s
    ensures HasToken(s, k) ==> |Replaced(s, k)| <= |s| - 2
  {
    if k > 0 {
      ReplacedShape(s, k - 1);
      ReplaceShape(Replaced(s, k - 1), TOKENS[k - 1].0, TOKENS[k - 1].1);
    }
  }

  /** Same characters, except that some letters became lower-case letters. */
  predicate LettersMoved(s: string, r: string) {
    |r| == |s| && forall i :: 0 <= i < |s| ==> r[i] == s[i] || (IsLower(r[i]) && IsAlpha(s[i]))
  }

  /** The letters of a match. */
  lemma MatchLetters(s: string)
    requires HxxpLength(s) > 0
    ensures LowerChar(s[0]) == 'h' && LowerChar(s[1]) == 'x' && LowerChar(s[2]) == 'x' && LowerChar(s[3]) == 'p'
  {
    var front := Lower(s[..4]);
    assert front == "hxxp";
    assert front[0] == 'h' && front[1] == 'x' && front[2] == 'x' && front[3] == 'p';
  }

  lemma LettersJoin(a: string, b: string, x: string, y: string)
    requires LettersMoved(a, x) && LettersMoved(b, y)
    ensures LettersMoved(a + b, x + y)
  {
  }

  lemma MatchMoved(s: string, rest: string)
    requires HxxpLength(s) > 0 && LettersMoved(s[HxxpLength(s)..], rest)
    ensures LettersMoved(s, "http" + s[4..HxxpLength(s)] + rest) && "http" + s[4..HxxpLength(s)] + rest != s
  {
    var n := HxxpLength(s);
    MatchLetters(s);
    assert LettersMoved(s[..4], "http");
    LettersJoin(s[..4], s[4..n], "http", s[4..n]);
    LettersJoin(s[..4] + s[4..n], s[n..], "http" + s[4..n], rest);
    assert s == s[..4] + s[4..n] + s[n..];
    assert ("http" + s[4..n] + rest)[1] == 't';
  }

  lemma {:induction false} SubHxxpShape(s: string, inWord: bool)
    ensures LettersMoved(s, SubHxxp(s, inWord))
    ensures HasHxxp(s, inWord) <==> SubHxxp(s, inWord) != s
    decreases |s|
  {
    if s != "" {
      var n := HxxpLength(s);
      if !inWord && n > 0 {
        SubHxxpShape(s[n..], false);
        MatchMoved(s, SubHxxp(s[n..], false));
      } else {
        SubHxxpShape(s[1..], IsWord(s[0]));
        assert s == [s[0]] + s[1..];
        assert SubHxxp(s, inWord)[1..] == SubHxxp(s[1..], IsWord(s[0]));
      }
    }
  }

  /**
   * Refanging leaves a text as it is exactly when there is nothing to refang. A bracketed token
   * shortens the text by two characters at least; hxxp alone keeps its length.
   */
  lemma RefangShape(s: string)
    ensures Refang(s) == s <==> !Defanged(s)
    ensures HasToken(s, |TOKENS|) ==> |Refang(s)| <= |s| - 2
    ensures !HasToken(s, |TOKENS|) ==> LettersMoved(s, Refang(s))
  {
    ReplacedShape(s, |TOKENS|);
    SubHxxpShape(Replaced(s, |TOKENS|), false);
  }

  /** Text without brackets and colons has nothing to refang. */
  lemma PlainText(s: string)
    requires '[' !in s && '(' !in s && ':' !in s
    ensures Refang(s) == s
  {
    NoBracketNoToken(s, |TOKENS|);
    NoColonNoHxxp(s, false);
    RefangShape(s);
  }

  lemma HxxpHasColon(s: string)
    requires HxxpLength(s) > 0
    ensures ':' in s
  {
    assert s[4..7] == "://" ==> s[4..7][0] == s[4] == ':';
    assert |s| >= 8 && s[5..8] == "://" ==> s[5..8][0] == s[5] == ':';
  }

  lemma {:induction false} NoColonNoHxxp(s: string, inWord: bool)
    requires ':' !in s
    ensures !HasHxxp(s, inWord)
    decreases |s|
  {
    if s != "" {
      if HxxpLength(s) > 0 { HxxpHasColon(s); }
      NoColonNoHxxp(s[1..], IsWord(s[0]));
    }
  }

  lemma {:induction false} NoBracketNoToken(s: string, k: nat)
    requires k <= |TOKENS| && '[' !in s && '(' !in s
    ensures !HasToken(s, k)
  {
    if k > 0 {
      OccursNeeds(TOKENS[k - 1].0, s, if k == 2 then '(' else '[');
      NoBracketNoToken(s, k - 1);
    }
  }

  lemma {:induction false} ReplacedAddsNoBreak(s: string, k: nat)
    requires k <= |TOKENS| && '\n' !in s
    ensures '\n' !in Replaced(s, k)
  {
    if k > 0 {
      ReplacedAddsNoBreak(s, k - 1);
      ReplaceAddsNothing(Replaced(s, k - 1), TOKENS[k - 1].0, TOKENS[k - 1].1, '\n');
    }
  }

  lemma RefangAddsNoBreak(s: string)
    requires '\n' !in s
    ensures '\n' !in Refang(s)
  {
    ReplacedAddsNoBreak(s, |TOKENS|);
    var t := Replaced(s, |TOKENS|);
    SubHxxpShape(t, false);
    assert forall i :: 0 <= i < |t| ==> t[i] in t;
  }
}
