/** What the defang enricher makes of a text, and when a second application changes nothing more. */
module Undefanging {
  import opened Text
  import opened Refanging
  import opened Defanging
  import PlainUrls

  // ---- The five marks, in any case ----

  datatype Mark = Dot | RoundDot | CurlyDot | At | Slashes

  /** A stretch of text without opening brackets, or a mark as it was found. */
  datatype Piece = Word(text: string) | Disguised(mark: Mark, found: string)

  function Disguise(m: Mark): string {
    match m
    case Dot => "[.]"
    case RoundDot => "(.)"
    case CurlyDot => "{dot}"
    case At => "[at]"
    case Slashes => "[://]"
  }

  function Meaning(m: Mark): string {
    match m
    case Dot | RoundDot | CurlyDot => "."
    case At => "@"
    case Slashes => "://"
  }

  function Turn(m: Mark): nat {
    match m
    case Dot => 0
    case RoundDot => 1
    case CurlyDot => 2
    case At => 3
    case Slashes => 4
  }

  function MarkAt(k: nat): Mark
    requires k < |PATTERNS|
  {
    if k == 0 then Dot else if k == 1 then RoundDot else if k == 2 then CurlyDot else if k == 3 then At else Slashes
  }

  predicate WellWritten(p: Piece) {
    match p
    case Word(text) => Unbracketed(text)
    case Disguised(m, found) => Lower(found) == Disguise(m)
  }

  predicate Written(ps: seq<Piece>) { forall i :: 0 <= i < |ps| ==> WellWritten(ps[i]) }

  function Spelled(ps: seq<Piece>): string {
    if ps == [] then "" else (if ps[0].Word? then ps[0].text else ps[0].found) + Spelled(ps[1..])
  }

  function Meant(ps: seq<Piece>): string {
    if ps == [] then "" else (if ps[0].Word? then ps[0].text else Meaning(ps[0].mark)) + Meant(ps[1..])
  }

  /** The text after the first k replacements. */
  function TextAfter(ps: seq<Piece>, k: nat): string {
    if ps == [] then "" else PieceAfter(ps[0], k) + TextAfter(ps[1..], k)
  }

  function PieceAfter(p: Piece, k: nat): string {
    match p
    case Word(text) => text
    case Disguised(m, found) => if Turn(m) < k then Meaning(m) else found
  }

  lemma PatternOf(m: Mark)
    ensures PATTERNS[Turn(m)] == (Disguise(m), Meaning(m)) && Unbracketed(Meaning(m))
    ensures |Disguise(m)| >= 3 && Unbracketed(Disguise(m)[1..]) && !IsAlpha(Disguise(m)[0])
  {
  }

  lemma Different(a: Mark, b: Mark)
    requires a != b
    ensures Disguise(a)[0] != Disguise(b)[0] || Disguise(a)[1] != Disguise(b)[1]
  {
  }

  lemma FoundLetters(m: Mark, found: string)
    requires Lower(found) == Disguise(m)
    ensures |found| == |Disguise(m)| && forall i :: 0 <= i < |found| ==> LowerChar(found[i]) == Disguise(m)[i]
    ensures Unbracketed(found[1..])
  {
    PatternOf(m);
    assert forall i :: 0 <= i < |found| ==> Lower(found)[i] == LowerChar(found[i]);
    assert forall i :: 0 <= i < |found| - 1 ==> found[1..][i] == found[i + 1];
    assert forall i :: 0 <= i < |found| - 1 ==> Disguise(m)[1..][i] == Disguise(m)[i + 1];
    assert forall i :: 0 <= i < |found| - 1 ==> LowerChar(found[1..][i]) in Disguise(m)[1..];
  }

  /** A mark is not found where another one stands. */
  lemma NotInFront(m: Mark, other: Mark, found: string, rest: string)
    requires m != other && Lower(found) == Disguise(other)
    ensures var s := found + rest; |Disguise(m)| > |s| || Lower(s[..|Disguise(m)|]) != Disguise(m)
  {
    Different(m, other);
    PatternOf(m);
    PatternOf(other);
    FoundLetters(other, found);
    var s, n := found + rest, |Disguise(m)|;
    if n <= |s| {
      var low := Lower(s[..n]);
      assert low[0] == LowerChar(found[0]) && low[1] == LowerChar(found[1]);
    }
  }

  lemma PassFirst(c: char, rest: string, src: string, dst: string)
    requires src != "" && (|src| > |rest| + 1 || Lower(([c] + rest)[..|src|]) != src)
    ensures ReplaceAnyCase([c] + rest, src, dst) == [c] + ReplaceAnyCase(rest, src, dst)
  {
    assert ([c] + rest)[1..] == rest;
  }

  lemma FirstOff(t: string, rest: string)
    requires t != ""
    ensures t + rest == [t[0]] + (t[1..] + rest)
  {
  }

  lemma PassOver(t: string, rest: string, src: string, dst: string)
    requires src != "" && t != "" && !IsAlpha(src[0]) && src[0] !in t[1..]
    requires |src| > |t + rest| || Lower((t + rest)[..|src|]) != src
    ensures ReplaceAnyCase(t + rest, src, dst) == t + ReplaceAnyCase(rest, src, dst)
  {
    FirstOff(t, rest);
    PassFirst(t[0], t[1..] + rest, src, dst);
    NoMatchBefore(t[1..], rest, src, dst);
    FirstOff(t, ReplaceAnyCase(rest, src, dst));
  }

  lemma MarkReplaced(found: string, src: string, dst: string, rest: string)
    requires src != "" && Lower(found) == src
    ensures ReplaceAnyCase(found + rest, src, dst) == dst + ReplaceAnyCase(rest, src, dst)
  {
    assert (found + rest)[|src|..] == rest && (found + rest)[..|src|] == found;
  }

  lemma OtherPassed(p: Piece, k: nat, rest: string)
    requires k < |PATTERNS| && WellWritten(p) && p.Disguised? && Turn(p.mark) > k
    ensures ReplaceAnyCase(p.found + rest, PATTERNS[k].0, PATTERNS[k].1) ==
      p.found + ReplaceAnyCase(rest, PATTERNS[k].0, PATTERNS[k].1)
  {
    var m := MarkAt(k);
    PatternOf(m);
    PatternOf(p.mark);
    FoundLetters(p.mark, p.found);
    NotInFront(m, p.mark, p.found, rest);
    PassOver(p.found, rest, PATTERNS[k].0, PATTERNS[k].1);
  }

  lemma PieceReplaced(p: Piece, k: nat, rest: string)
    requires k < |PATTERNS| && WellWritten(p)
    ensures ReplaceAnyCase(PieceAfter(p, k) + rest, PATTERNS[k].0, PATTERNS[k].1) ==
      PieceAfter(p, k + 1) + ReplaceAnyCase(rest, PATTERNS[k].0, PATTERNS[k].1)
  {
    var m := MarkAt(k);
    PatternOf(m);
    if p.Disguised? && Turn(p.mark) == k {
      assert p.mark == m;
      MarkReplaced(p.found, Disguise(m), Meaning(m), rest);
    } else if p.Disguised? && Turn(p.mark) > k {
      OtherPassed(p, k, rest);
    } else {
      if p.Disguised? { PatternOf(p.mark); }
      NoMatchBefore(PieceAfter(p, k), rest, PATTERNS[k].0, PATTERNS[k].1);
    }
  }

  lemma {:induction false} TextReplaced(ps: seq<Piece>, k: nat)
    requires k < |PATTERNS| && Written(ps)
    ensures ReplaceAnyCase(TextAfter(ps, k), PATTERNS[k].0, PATTERNS[k].1) == TextAfter(ps, k + 1)
  {
    if ps != [] {
      PieceReplaced(ps[0], k, TextAfter(ps[1..], k));
      TextReplaced(ps[1..], k);
    }
  }

  lemma {:induction false} ReplacedAfter(ps: seq<Piece>, k: nat)
    requires k <= |PATTERNS| && Written(ps)
    ensures Replacements(TextAfter(ps, 0), k) == TextAfter(ps, k)
  {
    if k > 0 {
      ReplacedAfter(ps, k - 1);
      TextReplaced(ps, k - 1);
    }
  }

  lemma {:induction false} FirstAndLast(ps: seq<Piece>)
    ensures TextAfter(ps, 0) == Spelled(ps) && TextAfter(ps, |PATTERNS|) == Meant(ps)
  {
    if ps != [] {
      FirstAndLast(ps[1..]);
    }
  }

  lemma {:induction false} MeantIsUnbracketed(ps: seq<Piece>)
    requires Written(ps)
    ensures Unbracketed(Meant(ps))
  {
    if ps != [] {
      assert WellWritten(ps[0]);
      if ps[0].Disguised? { PatternOf(ps[0].mark); }
      MeantIsUnbracketed(ps[1..]);
    }
  }

  lemma MovedHoldsNoBracket(s: string, t: string)
    requires LettersMoved(s, t) && Unbracketed(s)
    ensures Unbracketed(t)
  {
    assert forall i :: 0 <= i < |t| ==> t[i] == s[i] || IsLower(t[i]);
    assert forall i :: 0 <= i < |s| ==> s[i] in s;
  }

  /** Every mark becomes what it means, wherever it stands and in whatever case; then hxxp becomes http. */
  lemma MarksAreUndone(ps: seq<Piece>)
    requires Written(ps)
    ensures Rewritten(Spelled(ps)) == SubHxxp(Meant(ps), false)
  {
    FirstAndLast(ps);
    ReplacedAfter(ps, |PATTERNS|);
    MeantIsUnbracketed(ps);
    SubHxxpShape(Meant(ps), false);
    MovedHoldsNoBracket(Meant(ps), SubHxxp(Meant(ps), false));
    NothingBracketed(SubHxxp(Meant(ps), false), false);
  }

  lemma BracketedMatch(front: string, rest: string)
    requires Lower(front) == "h[ttp]" || Lower(front) == "h[ttp]s"
    ensures BracketedLength(front + ("://" + rest)) == |front| + 3
  {
    var s, n := front + ("://" + rest), |front|;
    assert forall i :: 0 <= i < n ==> Lower(front)[i] == LowerChar(front[i]);
    assert forall i :: 0 <= i < 6 ==> Lower(s[..6])[i] == Lower(front)[i];
    assert Lower(s[..6]) == "h[ttp]";
    assert s[n..n + 3] == "://";
    if n == 7 {
      assert s[6] == front[6] && s[6..9][0] == s[6];
    }
  }

  /** A scheme with brackets is put right; the letter behind it stays as it is. */
  lemma BracketedSchemeIsUndone(front: string, rest: string)
    requires Lower(front) == "h[ttp]" || Lower(front) == "h[ttp]s"
    ensures SubBracketed(front + ("://" + rest), false) == "http" + front[6..] + ("://" + SubBracketed(rest, false))
  {
    var s, n := front + ("://" + rest), |front|;
    BracketedMatch(front, rest);
    assert s[6..n + 3] == front[6..] + "://" && s[n + 3..] == rest;
  }

  // ---- The two substitutions and the text around them ----

  /** No letter h, with which every match and every substitute begins. */
  predicate NoH(s: string) { forall i :: 0 <= i < |s| ==> LowerChar(s[i]) != 'h' }

  lemma BracketedLetters(s: string)
    requires BracketedLength(s) > 0
    ensures forall j :: 0 <= j < 6 ==> LowerChar(s[j]) == "h[ttp]"[j]
    ensures var n := BracketedLength(s);
      (n == 10 ==> LowerChar(s[6]) == 's') && s[n - 3] == ':' && s[n - 2] == '/' && s[n - 1] == '/'
  {
    assert forall j :: 0 <= j < 6 ==> LowerChar(s[j]) == Lower(s[..6])[j];
    var n := BracketedLength(s);
    var mark := s[n - 3..n];
    assert mark == "://";
    assert s[n - 3] == mark[0] && s[n - 2] == mark[1] && s[n - 1] == mark[2];
  }

  lemma HeadAndTail(c: char, a: string, n: nat)
    requires n <= |a|
    ensures ([c] + a)[..n + 1] == [c] + a[..n]
  {
  }

  lemma NoHTail(s: string, k: nat)
    requires 0 < k <= |s| && NoH(s[..k])
    ensures LowerChar(s[0]) != 'h' && NoH(s[1..][..k - 1])
  {
    var front, rest := s[..k], s[1..][..k - 1];
    assert front[0] == s[0];
    assert forall i :: 0 <= i < |rest| ==> rest[i] == front[i + 1];
  }

  lemma {:induction false} BracketedKeepsFront(s: string, inWord: bool, k: nat)
    requires k <= |s| && NoH(s[..k])
    ensures k <= |SubBracketed(s, inWord)| && SubBracketed(s, inWord)[..k] == s[..k]
    decreases k
  {
    if k > 0 {
      NoHTail(s, k);
      if BracketedLength(s) > 0 { BracketedLetters(s); }
      BracketedKeepsFront(s[1..], IsWord(s[0]), k - 1);
      HeadAndTail(s[0], SubBracketed(s[1..], IsWord(s[0])), k - 1);
      HeadAndTail(s[0], s[1..], k - 1);
      assert s == [s[0]] + s[1..];
    }
  }

  lemma {:induction false} BracketedShowsFront(s: string, inWord: bool, k: nat)
    requires k <= |SubBracketed(s, inWord)| && NoH(SubBracketed(s, inWord)[..k])
    ensures k <= |s| && s[..k] == SubBracketed(s, inWord)[..k]
    decreases k
  {
    var t := SubBracketed(s, inWord);
    if k > 0 {
      NoHTail(t, k);
      var rest := SubBracketed(s[1..], IsWord(s[0]));
      assert t[1..] == rest;
      BracketedShowsFront(s[1..], IsWord(s[0]), k - 1);
      HeadAndTail(s[0], rest, k - 1);
      HeadAndTail(s[0], s[1..], k - 1);
      assert s == [s[0]] + s[1..];
    }
  }

  lemma {:induction false} HxxpKeepsFront(s: string, inWord: bool, k: nat)
    requires k <= |s| && NoH(s[..k])
    ensures k <= |SubHxxp(s, inWord)| && SubHxxp(s, inWord)[..k] == s[..k]
    decreases k
  {
    if k > 0 {
      NoHTail(s, k);
      if HxxpLength(s) > 0 { PlainUrls.MatchText(s); }
      HxxpKeepsFront(s[1..], IsWord(s[0]), k - 1);
      HeadAndTail(s[0], SubHxxp(s[1..], IsWord(s[0])), k - 1);
      HeadAndTail(s[0], s[1..], k - 1);
      assert s == [s[0]] + s[1..];
    }
  }

  lemma {:induction false} HxxpShowsFront(s: string, inWord: bool, k: nat)
    requires k <= |SubHxxp(s, inWord)| && NoH(SubHxxp(s, inWord)[..k])
    ensures k <= |s| && s[..k] == SubHxxp(s, inWord)[..k]
    decreases k
  {
    var t := SubHxxp(s, inWord);
    if k > 0 {
      NoHTail(t, k);
      var rest := SubHxxp(s[1..], IsWord(s[0]));
      assert t[1..] == rest;
      HxxpShowsFront(s[1..], IsWord(s[0]), k - 1);
      HeadAndTail(s[0], rest, k - 1);
      HeadAndTail(s[0], s[1..], k - 1);
      assert s == [s[0]] + s[1..];
    }
  }

  // ---- Tokens under the two substitutions ----

  predicate AtFront(t: string, s: string) { |t| <= |s| && Lower(s[..|t|]) == t }

  /** A mark's text: an opening bracket, and neither an h nor the first letter of `ttp` behind the bracket. */
  predicate MarkText(t: string) {
    |t| >= 2 && t[0] in {'[', '(', '{'} && t[1] != 't' && NoH(t)
  }

  lemma DisguiseIsMarkText(k: nat)
    requires k < |PATTERNS|
    ensures MarkText(PATTERNS[k].0)
  {
  }

  lemma LowerNoH(s: string)
    ensures NoH(Lower(s)) <==> NoH(s)
  {
    assert forall i :: 0 <= i < |s| ==> Lower(s)[i] == LowerChar(s[i]);
  }

  lemma FrontLetter(t: string, s: string)
    requires t != "" && AtFront(t, s)
    ensures LowerChar(s[0]) == t[0] && (|t| > 1 ==> LowerChar(s[1]) == t[1])
  {
    var low := Lower(s[..|t|]);
    assert low[0] == LowerChar(s[0]) && (|t| > 1 ==> low[1] == LowerChar(s[1]));
  }

  lemma {:induction false} OccursAfter(t: string, head: string, s: string)
    requires t != "" && !IsAlpha(t[0]) && t[0] !in head
    ensures OccursAnyCase(t, head + s) <==> OccursAnyCase(t, s)
    decreases |head|
  {
    if head == "" {
      assert head + s == s;
    } else {
      assert (head + s)[1..] == head[1..] + s;
      if AtFront(t, head + s) { FrontLetter(t, head + s); }
      OccursAfter(t, head[1..], s);
    }
  }

  lemma BracketedFrontIff(t: string, s: string, inWord: bool)
    requires MarkText(t)
    ensures AtFront(t, s) <==> AtFront(t, SubBracketed(s, inWord))
  {
    if AtFront(t, s) {
      LowerNoH(s[..|t|]);
      BracketedKeepsFront(s, inWord, |t|);
    }
    if AtFront(t, SubBracketed(s, inWord)) {
      LowerNoH(SubBracketed(s, inWord)[..|t|]);
      BracketedShowsFront(s, inWord, |t|);
    }
  }

  lemma HxxpFrontIff(t: string, s: string, inWord: bool)
    requires MarkText(t)
    ensures AtFront(t, s) <==> AtFront(t, SubHxxp(s, inWord))
  {
    if AtFront(t, s) {
      LowerNoH(s[..|t|]);
      HxxpKeepsFront(s, inWord, |t|);
    }
    if AtFront(t, SubHxxp(s, inWord)) {
      LowerNoH(SubHxxp(s, inWord)[..|t|]);
      HxxpShowsFront(s, inWord, |t|);
    }
  }

  lemma OccursUnfold(t: string, s: string)
    requires s != ""
    ensures OccursAnyCase(t, s) <==> AtFront(t, s) || OccursAnyCase(t, s[1..])
  {
  }

  lemma NotAtFront(t: string, s: string)
    requires t != "" && s != "" && LowerChar(s[0]) != t[0]
    ensures OccursAnyCase(t, s) <==> OccursAnyCase(t, s[1..])
  {
    if AtFront(t, s) { FrontLetter(t, s); }
    OccursUnfold(t, s);
  }

  /** No mark begins inside a match of `h[ttp]://`. */
  lemma NoneInBracketed(t: string, s: string)
    requires MarkText(t) && BracketedLength(s) > 0
    ensures OccursAnyCase(t, s) <==> OccursAnyCase(t, s[BracketedLength(s)..])
  {
    var n := BracketedLength(s);
    BracketedLetters(s);
    NotAtFront(t, s);
    var u := s[1..];
    if AtFront(t, u) { FrontLetter(t, u); }
    OccursUnfold(t, u);
    var head := s[2..n];
    assert u[1..] == head + s[n..];
    assert forall i :: 0 <= i < |head| ==> head[i] == s[i + 2];
    OccursAfter(t, head, s[n..]);
  }

  /** Nor inside a match of `hxxp://`. */
  lemma NoneInHxxp(t: string, s: string)
    requires MarkText(t) && HxxpLength(s) > 0
    ensures OccursAnyCase(t, s) <==> OccursAnyCase(t, s[HxxpLength(s)..])
  {
    var n := HxxpLength(s);
    PlainUrls.MatchText(s);
    assert s == s[..n] + s[n..];
    OccursAfter(t, s[..n], s[n..]);
  }

  /** One character is copied, and the rest is known. */
  lemma CopyKeepsMarks(t: string, s: string, rest: string)
    requires t != "" && s != "" && (AtFront(t, [s[0]] + rest) <==> AtFront(t, s))
    requires OccursAnyCase(t, rest) <==> OccursAnyCase(t, s[1..])
    ensures OccursAnyCase(t, [s[0]] + rest) <==> OccursAnyCase(t, s)
  {
    OccursUnfold(t, s);
    OccursUnfold(t, [s[0]] + rest);
    assert ([s[0]] + rest)[1..] == rest;
  }

  lemma CutsHoldNoMark(s: string, i: nat, n: nat)
    requires i <= n <= |s| && forall j :: i <= j < n ==> s[j] !in {'[', '(', '{'}
    ensures Unbracketed("http" + s[i..n])
  {
  }

  lemma {:induction false} BracketedKeepsMarks(t: string, s: string, inWord: bool)
    requires MarkText(t)
    ensures OccursAnyCase(t, SubBracketed(s, inWord)) <==> OccursAnyCase(t, s)
    decreases |s|
  {
    if s != "" {
      var n := BracketedLength(s);
      if !inWord && n > 0 {
        var rest := SubBracketed(s[n..], false);
        BracketedLetters(s);
        CutsHoldNoMark(s, 6, n);
        NoneInBracketed(t, s);
        BracketedKeepsMarks(t, s[n..], false);
        OccursAfter(t, "http" + s[6..n], rest);
      } else {
        BracketedKeepsMarks(t, s[1..], IsWord(s[0]));
        BracketedFrontIff(t, s, inWord);
        CopyKeepsMarks(t, s, SubBracketed(s[1..], IsWord(s[0])));
      }
    }
  }

  lemma {:induction false} HxxpKeepsMarks(t: string, s: string, inWord: bool)
    requires MarkText(t)
    ensures OccursAnyCase(t, SubHxxp(s, inWord)) <==> OccursAnyCase(t, s)
    decreases |s|
  {
    if s != "" {
      var n := HxxpLength(s);
      if !inWord && n > 0 {
        var rest := SubHxxp(s[n..], false);
        PlainUrls.MatchText(s);
        CutsHoldNoMark(s, 4, n);
        NoneInHxxp(t, s);
        HxxpKeepsMarks(t, s[n..], false);
        OccursAfter(t, "http" + s[4..n], rest);
      } else {
        HxxpKeepsMarks(t, s[1..], IsWord(s[0]));
        HxxpFrontIff(t, s, inWord);
        CopyKeepsMarks(t, s, SubHxxp(s[1..], IsWord(s[0])));
      }
    }
  }

  lemma {:induction false} MarksAreKept(s: string, k: nat)
    requires k <= |PATTERNS|
    ensures HoldsToken(SubBracketed(SubHxxp(s, false), false), k) <==> HoldsToken(s, k)
  {
    if k > 0 {
      MarksAreKept(s, k - 1);
      DisguiseIsMarkText(k - 1);
      BracketedKeepsMarks(PATTERNS[k - 1].0, SubHxxp(s, false), false);
      HxxpKeepsMarks(PATTERNS[k - 1].0, s, false);
    }
  }

  // ---- No match is left or comes about ----

  function WordAt(s: string, inWord: bool, k: nat): bool
    requires k <= |s|
  {
    if k == 0 then inWord else IsWord(s[k - 1])
  }

  lemma {:induction false} HxxpLater(s: string, inWord: bool, k: nat)
    requires k <= |s| && HasHxxp(s[k..], WordAt(s, inWord, k))
    ensures HasHxxp(s, inWord)
    decreases k
  {
    if k > 0 {
      assert s[1..][k - 1..] == s[k..];
      HxxpLater(s[1..], IsWord(s[0]), k - 1);
    } else {
      assert s[0..] == s;
    }
  }

  lemma NoHInMatch(t: string, n: nat)
    requires n == HxxpLength(t) > 0
    ensures NoH(t[1..][..n - 1]) && IsWord(t[0])
  {
    PlainUrls.MatchText(t);
    var more := t[1..][..n - 1];
    assert forall i :: 0 <= i < n - 1 ==> more[i] == t[i + 1];
  }

  lemma NoHInBracketed(t: string, n: nat)
    requires n == BracketedLength(t) > 0
    ensures NoH(t[1..][..n - 1]) && IsWord(t[0])
  {
    BracketedLetters(t);
    var more := t[1..][..n - 1];
    assert forall i :: 0 <= i < n - 1 ==> more[i] == t[i + 1];
  }

  /** What a copied character and the substituted rest begin with, the text itself begins with. */
  lemma CopiedFront(s: string, t: string, n: nat)
    requires s != "" && t == [s[0]] + SubBracketed(s[1..], IsWord(s[0])) && 0 < n <= |t| && NoH(t[1..][..n - 1])
    ensures n <= |s| && s[..n] == t[..n]
  {
    var rest := SubBracketed(s[1..], IsWord(s[0]));
    assert t[1..] == rest;
    BracketedShowsFront(s[1..], IsWord(s[0]), n - 1);
    HeadAndTail(s[0], rest, n - 1);
    HeadAndTail(s[0], s[1..], n - 1);
    assert s == [s[0]] + s[1..];
  }

  lemma {:induction false} NoHxxpComesBack(s: string, inWord: bool)
    requires !HasHxxp(s, inWord)
    ensures !HasHxxp(SubBracketed(s, inWord), inWord)
    decreases |s|
  {
    if s != "" {
      var n, t := BracketedLength(s), SubBracketed(s, inWord);
      if !inWord && n > 0 {
        BracketedLetters(s);
        if HasHxxp(s[n..], false) { HxxpLater(s, inWord, n); }
        NoHxxpComesBack(s[n..], false);
        PlainUrls.HttpHasNone(s[6..n], SubBracketed(s[n..], false));
      } else {
        NoHxxpComesBack(s[1..], IsWord(s[0]));
        assert t[1..] == SubBracketed(s[1..], IsWord(s[0]));
        var m := HxxpLength(t);
        if m > 0 {
          NoHInMatch(t, m);
          CopiedFront(s, t, m);
          PlainUrls.SameFront(t, s);
        }
      }
    }
  }

  lemma SameBracketedFront(s: string, t: string)
    requires 0 < BracketedLength(s) <= |t| && s[..BracketedLength(s)] == t[..BracketedLength(s)]
    ensures BracketedLength(t) > 0
  {
    var n := BracketedLength(s);
    var a, b := s[..n], t[..n];
    assert s[..6] == a[..6] && t[..6] == b[..6];
    assert s[n - 3..n] == a[n - 3..n] && t[n - 3..n] == b[n - 3..n];
    assert s[6] == a[6] && t[6] == b[6];
  }

  lemma {:induction false} NoneWithoutH(x: string, rest: string, inWord: bool)
    requires NoH(x) && (if x == "" then !inWord else !IsWord(x[|x| - 1])) && !HasBracketed(rest, false)
    ensures !HasBracketed(x + rest, inWord)
    decreases |x|
  {
    if x == "" {
      assert x + rest == rest;
    } else {
      assert (x + rest)[0] == x[0];
      if BracketedLength(x + rest) > 0 { BracketedLetters(x + rest); }
      assert (x + rest)[1..] == x[1..] + rest;
      NoneWithoutH(x[1..], rest, IsWord(x[0]));
    }
  }

  lemma NoneBehindHttp(tail: string, rest: string)
    requires tail != "" && !IsWord(tail[|tail| - 1]) && NoH(tail) && !HasBracketed(rest, false)
    ensures !HasBracketed("http" + tail + rest, false)
  {
    var s := "http" + tail + rest;
    if BracketedLength(s) > 0 {
      BracketedLetters(s);
    }
    assert s[1..] == ("ttp" + tail) + rest;
    NoneWithoutH("ttp" + tail, rest, true);
  }

  lemma CutIsNoH(s: string, n: nat)
    requires n == BracketedLength(s) > 0
    ensures NoH(s[6..n]) && s[6..n] != "" && !IsWord(s[6..n][|s[6..n]| - 1])
  {
    BracketedLetters(s);
    assert forall i :: 0 <= i < n - 6 ==> s[6..n][i] == s[6 + i];
  }

  lemma {:induction false} NoneIsLeft(s: string, inWord: bool)
    ensures !HasBracketed(SubBracketed(s, inWord), inWord)
    decreases |s|
  {
    if s != "" {
      var n, t := BracketedLength(s), SubBracketed(s, inWord);
      if !inWord && n > 0 {
        NoneIsLeft(s[n..], false);
        CutIsNoH(s, n);
        NoneBehindHttp(s[6..n], SubBracketed(s[n..], false));
      } else {
        NoneIsLeft(s[1..], IsWord(s[0]));
        assert t[1..] == SubBracketed(s[1..], IsWord(s[0]));
        var m := BracketedLength(t);
        if m > 0 && !inWord {
          NoHInBracketed(t, m);
          CopiedFront(s, t, m);
          SameBracketedFront(t, s);
        }
      }
    }
  }

  // ---- The enricher twice ----

  /**
   * A second application changes nothing exactly if replacing the five marks in turn has left none of them.
   * A mark is left when a later replacement completes one that has been looked for already.
   */
  lemma TwiceIsOnceIff(s: string)
    ensures Rewritten(Rewritten(s)) == Rewritten(s) <==> !HoldsToken(Replacements(s, |PATTERNS|), |PATTERNS|)
  {
    var t := Replacements(s, |PATTERNS|);
    PlainUrls.SubstitutedHasNone(t, false);
    NoHxxpComesBack(SubHxxp(t, false), false);
    NoneIsLeft(SubHxxp(t, false), false);
    MarksAreKept(t, |PATTERNS|);
    RewrittenIffHoldsPattern(Rewritten(s));
  }

  lemma {:induction false} NoMarksLeft(s: string, k: nat)
    requires k <= |PATTERNS| && Unbracketed(s)
    ensures !HoldsToken(s, k)
  {
    if k > 0 {
      NoMarksLeft(s, k - 1);
      var t := PATTERNS[k - 1].0;
      DisguiseIsMarkText(k - 1);
      assert s + "" == s;
      OccursAfter(t, s, "");
    }
  }

  /** On texts whose only opening brackets are those of marks, the enricher is idempotent. */
  lemma TwiceIsOnce(ps: seq<Piece>)
    requires Written(ps)
    ensures Rewritten(Rewritten(Spelled(ps))) == Rewritten(Spelled(ps))
  {
    FirstAndLast(ps);
    ReplacedAfter(ps, |PATTERNS|);
    MeantIsUnbracketed(ps);
    NoMarksLeft(Meant(ps), |PATTERNS|);
    TwiceIsOnceIff(Spelled(ps));
  }

  lemma Later(s: string, src: string, dst: string)
    requires |s| >= 3 && |src| >= 3 && src[0] == '[' && '[' !in s[1..] && LowerChar(s[1]) != src[1]
    ensures ReplaceAnyCase(s, src, dst) == s
  {
    if |src| <= |s| { assert Lower(s[..|src|])[1] == LowerChar(s[1]); }
    FirstOff(s, "");
    assert s + "" == s && s[1..] + "" == s[1..];
    PassFirst(s[0], s[1..], src, dst);
    NothingToReplace(s[1..], src, dst, '[');
  }

  lemma RoundInside(s: string)
    requires s == "[(.)]"
    ensures ReplaceAnyCase(s, "(.)", ".") == "[.]"
  {
    var front: string, mark: string, back: string :| front == "[" && mark == "(.)" && back == "]";
    assert s == front + (mark + back);
    NoMatchBefore(front, mark + back, "(.)", ".");
    MarkReplaced(mark, "(.)", ".", back);
    NothingToReplace(back, "(.)", ".", '(');
  }

  lemma NestedReplacements(s: string, t: string)
    requires s == "[(.)]" && t == "[.]"
    ensures Replacements(s, |PATTERNS|) == t
  {
    Later(s, "[.]", ".");
    assert Replacements(s, 0) == s && Replacements(s, 1) == s;
    RoundInside(s);
    NothingToReplace(t, "{dot}", ".", '{');
    Later(t, "[at]", "@");
    Later(t, "[://]", "://");
    assert Replacements(s, 2) == t && Replacements(s, 3) == t && Replacements(s, 4) == t;
  }

  /** In general it is not idempotent, for all that it is described so. */
  lemma TwiceIsMore() returns (s: string)
    ensures s == "[(.)]" && Rewritten(Rewritten(s)) != Rewritten(s)
  {
    var t: string;
    s, t :| s == "[(.)]" && t == "[.]";
    NestedReplacements(s, t);
    assert AtFront(PATTERNS[0].0, t);
    assert HoldsToken(t, 1) && HoldsToken(t, 2) && HoldsToken(t, 3) && HoldsToken(t, 4);
    TwiceIsOnceIff(s);
  }
}
