/** The ways of writing a mark that refanging undoes, in any text. */
module Spellings {
  import opened Text
  import opened Refanging

  datatype Mark = Dot | RoundDot | Colon | At | Slashes

  /** A stretch of text without opening brackets, or a mark as feeds disguise it. */
  datatype Piece = Word(text: string) | Disguised(mark: Mark)

  function Disguise(m: Mark): string {
    match m
    case Dot => "[.]"
    case RoundDot => "(.)"
    case Colon => "[:]"
    case At => "[at]"
    case Slashes => "[://]"
  }

  function Plain(m: Mark): string {
    match m
    case Dot | RoundDot => "."
    case Colon => ":"
    case At => "@"
    case Slashes => "://"
  }

  /** When the replacements come to the mark. */
  function Turn(m: Mark): nat {
    match m
    case Dot => 0
    case RoundDot => 1
    case Colon => 2
    case At => 3
    case Slashes => 4
  }

  /** The text after the first k replacements: their marks are plain, the others still disguised. */
  function TextAfter(ps: seq<Piece>, k: nat): string {
    if ps == [] then "" else PieceAfter(ps[0], k) + TextAfter(ps[1..], k)
  }

  function PieceAfter(p: Piece, k: nat): string {
    match p
    case Word(text) => text
    case Disguised(m) => if Turn(m) < k then Plain(m) else Disguise(m)
  }

  /** The text as written. */
  function Spelled(ps: seq<Piece>): string {
    if ps == [] then "" else (if ps[0].Word? then ps[0].text else Disguise(ps[0].mark)) + Spelled(ps[1..])
  }

  /** The text as meant. */
  function Meant(ps: seq<Piece>): string {
    if ps == [] then "" else (if ps[0].Word? then ps[0].text else Plain(ps[0].mark)) + Meant(ps[1..])
  }

  predicate Unopened(s: string) { '[' !in s && '(' !in s }

  predicate Words(ps: seq<Piece>) {
    forall i :: 0 <= i < |ps| ==> ps[i].Word? ==> Unopened(ps[i].text)
  }

  lemma TokenOf(m: Mark)
    ensures TOKENS[Turn(m)] == (Disguise(m), Plain(m)) && |Plain(m)| < |Disguise(m)|
    ensures Unopened(Plain(m)) && Unopened(Disguise(m)[1..])
    ensures |Disguise(m)| >= 3 && (Disguise(m)[0] == '[' || Disguise(m)[0] == '(')
  {
  }

  function MarkAt(k: nat): Mark
    requires k < |TOKENS|
  {
    if k == 0 then Dot else if k == 1 then RoundDot else if k == 2 then Colon else if k == 3 then At else Slashes
  }

  lemma Different(a: Mark, b: Mark)
    requires a != b
    ensures Disguise(a)[0] != Disguise(b)[0] || Disguise(a)[1] != Disguise(b)[1] || Disguise(a)[2] != Disguise(b)[2]
  {
  }

  lemma PassFirst(s: string, src: string, dst: string)
    requires src != "" && s != "" && !(src <= s)
    ensures Replace(s, src, dst) == [s[0]] + Replace(s[1..], src, dst)
  {
  }

  lemma PassOver(t: string, rest: string, src: string, dst: string)
    requires src != "" && t != "" && src[0] !in t[1..] && !(src <= t + rest)
    ensures Replace(t + rest, src, dst) == t + Replace(rest, src, dst)
  {
    PassFirst(t + rest, src, dst);
    assert (t + rest)[1..] == t[1..] + rest;
    ReplaceAfter(t[1..], rest, src, dst);
    Regroup(t, Replace(rest, src, dst));
  }

  lemma Regroup(t: string, r: string)
    requires t != ""
    ensures [t[0]] + (t[1..] + r) == t + r
  {
  }

  lemma NotInFront(m: Mark, other: Mark, rest: string)
    requires m != other
    ensures !(Disguise(m) <= Disguise(other) + rest)
  {
    Different(m, other);
    TokenOf(m);
    TokenOf(other);
    var s := Disguise(other) + rest;
    assert s[0] == Disguise(other)[0] && s[1] == Disguise(other)[1] && s[2] == Disguise(other)[2];
  }

  lemma MarkReplaced(src: string, dst: string, rest: string)
    requires src != ""
    ensures Replace(src + rest, src, dst) == dst + Replace(rest, src, dst)
  {
    assert (src + rest)[|src|..] == rest;
  }

  /** One replacement on one piece. */
  lemma PieceReplaced(p: Piece, k: nat, rest: string)
    requires k < |TOKENS| && (p.Word? ==> Unopened(p.text))
    ensures Replace(PieceAfter(p, k) + rest, TOKENS[k].0, TOKENS[k].1) ==
      PieceAfter(p, k + 1) + Replace(rest, TOKENS[k].0, TOKENS[k].1)
  {
    var m := MarkAt(k);
    TokenOf(m);
    if p.Disguised? && Turn(p.mark) == k {
      assert p.mark == m;
      MarkReplaced(Disguise(m), Plain(m), rest);
    } else if p.Disguised? && Turn(p.mark) > k {
      NotInFront(m, p.mark, rest);
      TokenOf(p.mark);
      PassOver(Disguise(p.mark), rest, TOKENS[k].0, TOKENS[k].1);
    } else {
      if p.Disguised? { TokenOf(p.mark); }
      ReplaceAfter(PieceAfter(p, k), rest, TOKENS[k].0, TOKENS[k].1);
    }
  }

  lemma {:induction false} TextReplaced(ps: seq<Piece>, k: nat)
    requires k < |TOKENS| && Words(ps)
    ensures Replace(TextAfter(ps, k), TOKENS[k].0, TOKENS[k].1) == TextAfter(ps, k + 1)
  {
    if ps != [] {
      PieceReplaced(ps[0], k, TextAfter(ps[1..], k));
      TextReplaced(ps[1..], k);
    }
  }

  lemma {:induction false} ReplacedAfter(ps: seq<Piece>, k: nat)
    requires k <= |TOKENS| && Words(ps)
    ensures Replaced(TextAfter(ps, 0), k) == TextAfter(ps, k)
  {
    if k > 0 {
      ReplacedAfter(ps, k - 1);
      TextReplaced(ps, k - 1);
    }
  }

  lemma {:induction false} FirstAndLast(ps: seq<Piece>)
    ensures TextAfter(ps, 0) == Spelled(ps) && TextAfter(ps, |TOKENS|) == Meant(ps)
  {
    if ps != [] {
      FirstAndLast(ps[1..]);
    }
  }

  /** However its marks are disguised, a text is replaced by what it means. */
  lemma DisguisesGo(ps: seq<Piece>)
    requires Words(ps)
    ensures Replaced(Spelled(ps), |TOKENS|) == Meant(ps)
  {
    FirstAndLast(ps);
    ReplacedAfter(ps, |TOKENS|);
  }
}
