/** What canonicalizing a value for the first time gives, for every way of writing it. */
module FirstPass {
  import opened Sequences
  import opened Models
  import opened Text
  import opened Refanging
  import opened Spellings
  import opened Hashing

  // ---- Names as written ----

  /** The ways of writing the dot between two labels. */
  predicate DotText(dot: string) { dot == "." || dot == "[.]" || dot == "(.)" }

  predicate DotTexts(dots: seq<string>) { forall i :: 0 <= i < |dots| ==> DotText(dots[i]) }

  /** Labels and, in between, dots as written. */
  function Name(labels: seq<string>, dots: seq<string>): string
    requires |labels| == |dots| + 1
  {
    if dots == [] then labels[0] else labels[0] + dots[0] + Name(labels[1..], dots[1..])
  }

  function Dots(dots: seq<string>): string {
    if dots == [] then "" else dots[0] + Dots(dots[1..])
  }

  /** The labels with plain dots in between. */
  function Joined(labels: seq<string>): string
    requires labels != []
  {
    if |labels| == 1 then labels[0] else labels[0] + "." + Joined(labels[1..])
  }

  function PlainDots(n: nat): string { seq(n, _ => '.') }

  /** No dots, nothing to refang. */
  predicate Simple(l: string) { '.' !in l && ':' !in l && Unopened(l) }

  predicate AllSimple(labels: seq<string>) { forall i :: 0 <= i < |labels| ==> Simple(labels[i]) }

  function DotPiece(dot: string): Piece {
    if dot == "[.]" then Disguised(Mark.Dot) else if dot == "(.)" then Disguised(RoundDot) else Word(dot)
  }

  function DotPieces(dots: seq<string>): seq<Piece> {
    if dots == [] then [] else [DotPiece(dots[0])] + DotPieces(dots[1..])
  }

  function NamePieces(labels: seq<string>, dots: seq<string>, trailing: seq<string>): seq<Piece>
    requires |labels| == |dots| + 1
  {
    [Word(labels[0])] +
    if dots == [] then DotPieces(trailing) else [DotPiece(dots[0])] + NamePieces(labels[1..], dots[1..], trailing)
  }

  lemma OnePiece(p: Piece, ps: seq<Piece>)
    ensures Spelled([p] + ps) == (if p.Word? then p.text else Disguise(p.mark)) + Spelled(ps)
    ensures Meant([p] + ps) == (if p.Word? then p.text else Plain(p.mark)) + Meant(ps)
    ensures Words(ps) && (p.Word? ==> Unopened(p.text)) ==> Words([p] + ps)
  {
    assert ([p] + ps)[1..] == ps;
  }

  lemma DotAsPiece(dot: string, ps: seq<Piece>)
    requires DotText(dot)
    ensures Spelled([DotPiece(dot)] + ps) == dot + Spelled(ps) && Meant([DotPiece(dot)] + ps) == "." + Meant(ps)
    ensures Words(ps) ==> Words([DotPiece(dot)] + ps)
  {
    OnePiece(DotPiece(dot), ps);
  }

  lemma OneMore(n: nat)
    ensures PlainDots(n + 1) == "." + PlainDots(n)
  {
  }

  lemma {:induction false} DotsSpelled(dots: seq<string>)
    requires DotTexts(dots)
    ensures Spelled(DotPieces(dots)) == Dots(dots) && Meant(DotPieces(dots)) == PlainDots(|dots|)
    ensures Words(DotPieces(dots))
  {
    if dots != [] {
      DotsSpelled(dots[1..]);
      DotAsPiece(dots[0], DotPieces(dots[1..]));
      OneMore(|dots| - 1);
    }
  }

  predicate Spells(ps: seq<Piece>, text: string, meaning: string) {
    Words(ps) && Spelled(ps) == text && Meant(ps) == meaning
  }

  lemma NameStep(first: string, dot: string, rest: seq<Piece>, text: string, meaning: string)
    requires Simple(first) && DotText(dot) && Spells(rest, text, meaning)
    ensures Spells([Word(first)] + ([DotPiece(dot)] + rest), first + (dot + text), first + ("." + meaning))
  {
    DotAsPiece(dot, rest);
    OnePiece(Word(first), [DotPiece(dot)] + rest);
  }

  lemma Regrouped(a: string, b: string, c: string, d: string)
    ensures a + (b + (c + d)) == a + b + c + d
  {
  }

  lemma {:induction false} NameSpelled(labels: seq<string>, dots: seq<string>, trailing: seq<string>)
    requires |labels| == |dots| + 1 && AllSimple(labels) && DotTexts(dots) && DotTexts(trailing)
    ensures Spells(NamePieces(labels, dots, trailing),
                   Name(labels, dots) + Dots(trailing), Joined(labels) + PlainDots(|trailing|))
    decreases |dots|
  {
    assert Simple(labels[0]);
    if dots == [] {
      DotsSpelled(trailing);
      OnePiece(Word(labels[0]), DotPieces(trailing));
    } else {
      var name, joined := Name(labels[1..], dots[1..]), Joined(labels[1..]);
      var rest := NamePieces(labels[1..], dots[1..], trailing);
      NameSpelled(labels[1..], dots[1..], trailing);
      NameStep(labels[0], dots[0], rest, name + Dots(trailing), joined + PlainDots(|trailing|));
      Regrouped(labels[0], dots[0], name, Dots(trailing));
      Regrouped(labels[0], ".", joined, PlainDots(|trailing|));
    }
  }

  lemma {:induction false} NoColon(labels: seq<string>)
    requires labels != [] && AllSimple(labels)
    ensures ':' !in Joined(labels)
  {
    assert Simple(labels[0]);
    if |labels| > 1 {
      assert AllSimple(labels[1..]);
      NoColon(labels[1..]);
    }
  }

  /** Refanging a name gives its labels with plain dots. */
  lemma NameRefanged(labels: seq<string>, dots: seq<string>, trailing: seq<string>)
    requires |labels| == |dots| + 1 && AllSimple(labels) && DotTexts(dots) && DotTexts(trailing)
    ensures Refang(Name(labels, dots) + Dots(trailing)) == Joined(labels) + PlainDots(|trailing|)
  {
    var ps, t := NamePieces(labels, dots, trailing), Joined(labels) + PlainDots(|trailing|);
    NameSpelled(labels, dots, trailing);
    DisguisesGo(ps);
    NoColon(labels);
    NoColonNoHxxp(t, false);
    SubHxxpShape(t, false);
  }

  // ---- Names as accepted ----

  function LowerAll(labels: seq<string>): (r: seq<string>)
    ensures |r| == |labels| && forall i :: 0 <= i < |r| ==> r[i] == Lower(labels[i])
  {
    seq(|labels|, i requires 0 <= i < |labels| => Lower(labels[i]))
  }

  lemma {:induction false} JoinedLower(labels: seq<string>)
    requires labels != []
    ensures Lower(Joined(labels)) == Joined(LowerAll(labels))
  {
    if |labels| > 1 {
      JoinedLower(labels[1..]);
      assert LowerAll(labels)[1..] == LowerAll(labels[1..]);
      LowerConcat(labels[0] + ".", Joined(labels[1..]));
      LowerConcat(labels[0], ".");
      assert Lower(".") == ".";
    }
  }

  lemma {:induction false} SplitJoined(labels: seq<string>)
    requires labels != [] && forall i :: 0 <= i < |labels| ==> '.' !in labels[i]
    ensures Split(Joined(labels), '.') == labels
  {
    if |labels| == 1 {
      IndexOfIsFirst(labels[0], '.');
    } else {
      SplitJoined(labels[1..]);
      var rest := Joined(labels[1..]);
      assert Joined(labels) == labels[0] + ['.'] + rest;
      IndexOfFirst(labels[0], '.', rest);
      CutAt(labels[0], '.', rest);
    }
  }

  lemma {:induction false} DotsStripped(s: string, n: nat)
    requires s == "" || s[|s| - 1] != '.'
    ensures StripDots(s + PlainDots(n)) == s
  {
    if n == 0 {
      assert s + PlainDots(0) == s;
    } else {
      DotsStripped(s, n - 1);
      assert (s + PlainDots(n))[..|s| + n - 1] == s + PlainDots(n - 1);
    }
  }

  /** The last label is not empty, unless it is the only one. */
  predicate Ends(labels: seq<string>) {
    labels != [] && (|labels| == 1 || labels[|labels| - 1] != "")
  }

  lemma {:induction false} JoinedEnd(labels: seq<string>)
    requires Ends(labels) && AllSimple(labels)
    ensures Joined(labels) == "" || Joined(labels)[|Joined(labels)| - 1] != '.'
    ensures |labels| > 1 ==> Joined(labels) != ""
  {
    assert Simple(labels[0]);
    if |labels| > 1 {
      assert AllSimple(labels[1..]);
      JoinedEnd(labels[1..]);
      assert Simple(labels[1]);
    }
  }

  /** The label pattern within the length that a label may have. */
  predicate Label(l: string) { LabelMatches(l) && |l| <= 63 }

  predicate AllLabels(labels: seq<string>) { forall i :: 0 <= i < |labels| ==> Label(labels[i]) }

  lemma CoreLower(l: string)
    ensures LabelCore(Lower(l)) <==> LabelCore(l)
  {
    assert LabelCore(Lower(l)) ==> forall i :: 0 <= i < |l| ==> IsAlnum(Lower(l)[i]) || Lower(l)[i] == '-';
  }

  lemma LabelLower(l: string)
    ensures Label(Lower(l)) <==> Label(l)
  {
    CoreLower(l);
    if l != "" {
      CoreLower(l[..|l| - 1]);
      assert Lower(l)[..|l| - 1] == Lower(l[..|l| - 1]);
    }
  }

  lemma LabelsLower(labels: seq<string>)
    requires labels != []
    ensures ValidLabels(LowerAll(labels)) <==> AllLabels(labels)
  {
    var low := LowerAll(labels);
    forall i | 0 <= i < |labels| ensures (Label(low[i]) <==> Label(labels[i])) && low[i] in low {
      LabelLower(labels[i]);
    }
    assert ValidLabels(low) ==> AllLabels(low);
  }

  lemma SimpleLower(labels: seq<string>)
    requires AllSimple(labels)
    ensures forall i :: 0 <= i < |labels| ==> '.' !in LowerAll(labels)[i]
  {
    forall i | 0 <= i < |labels| ensures '.' !in LowerAll(labels)[i] {
      assert Simple(labels[i]);
      LowerKeeps(labels[i], '.');
    }
  }

  lemma DotsLower(s: string, n: nat)
    ensures Lower(s + PlainDots(n)) == Lower(s) + PlainDots(n)
  {
  }

  /**
   * However its dots are written, and with any number of dots behind it, a name is accepted exactly when
   * all its labels are, and then it becomes its lower-case labels with plain dots in between.
   */
  lemma DomainFirstPass(labels: seq<string>, dots: seq<string>, trailing: seq<string>)
    requires |labels| == |dots| + 1 && Ends(labels) && AllSimple(labels) && DotTexts(dots) && DotTexts(trailing)
    ensures CanonicalDomain(Name(labels, dots) + Dots(trailing)) ==
      if AllLabels(labels) then Some(Joined(LowerAll(labels))) else None
  {
    NameRefanged(labels, dots, trailing);
    DotsLower(Joined(labels), |trailing|);
    JoinedLower(labels);
    JoinedEnd(labels);
    assert Lower(Joined(labels)) == "" || Lower(Joined(labels))[|Joined(labels)| - 1] != '.';
    DotsStripped(Lower(Joined(labels)), |trailing|);
    SimpleLower(labels);
    SplitJoined(LowerAll(labels));
    LabelsLower(labels);
  }

  /** Letters, digits and hyphens. */
  predicate Hyphenated(s: string) {
    forall i :: 0 <= i < |s| ==> 'a' <= s[i] <= 'z' || 'A' <= s[i] <= 'Z' || '0' <= s[i] <= '9' || s[i] == '-'
  }

  /** The label pattern, read off its pieces: one letter or digit, or two with up to 61 characters in between. */
  lemma LabelPattern(a: char, inner: string, b: char)
    ensures !Label("")
    ensures Label([a]) <==> IsAlnum(a)
    ensures Label([a, '\n']) <==> IsAlnum(a)
    ensures b != '\n' ==>
      (Label([a] + inner + [b]) <==> IsAlnum(a) && IsAlnum(b) && |inner| <= 61 && Hyphenated(inner))
    ensures Label([a] + inner + [b, '\n']) <==> IsAlnum(a) && IsAlnum(b) && |inner| <= 60 && Hyphenated(inner)
  {
    CoreOf(a, inner, b);
    assert LabelCore([a]) <==> IsAlnum(a);
    assert [a, '\n'][..1] == [a];
    var l, m := [a] + inner + [b, '\n'], [a] + inner + [b];
    assert l[..|l| - 1] == m;
    assert !LabelCore(l);
  }

  lemma CoreOf(a: char, inner: string, b: char)
    ensures LabelCore([a] + inner + [b]) <==> IsAlnum(a) && IsAlnum(b) && |inner| <= 61 && Hyphenated(inner)
  {
    var l := [a] + inner + [b];
    assert forall i :: 0 <= i < |inner| ==> inner[i] == l[i + 1];
    assert l[0] == a && l[|l| - 1] == b;
  }

  // ---- Mail addresses ----

  predicate Without(labels: seq<string>, c: char) { forall i :: 0 <= i < |labels| ==> c !in labels[i] }

  lemma {:induction false} DotsHoldNone(dots: seq<string>, c: char)
    requires DotTexts(dots) && (c == '@' || c == '\n')
    ensures c !in Dots(dots)
  {
    if dots != [] {
      assert DotText(dots[0]) && DotTexts(dots[1..]);
      DotsHoldNone(dots[1..], c);
    }
  }

  lemma {:induction false} NameHoldsNone(labels: seq<string>, dots: seq<string>, c: char)
    requires |labels| == |dots| + 1 && Without(labels, c) && DotTexts(dots) && (c == '@' || c == '\n')
    ensures c !in Name(labels, dots)
    decreases |dots|
  {
    if dots != [] {
      assert DotText(dots[0]) && DotTexts(dots[1..]) && Without(labels[1..], c);
      NameHoldsNone(labels[1..], dots[1..], c);
    }
  }

  /** The local part is kept in lower case, whatever it holds, and the domain is read like any other. */
  lemma MailFirstPass(local: string, labels: seq<string>, dots: seq<string>, trailing: seq<string>)
    requires |labels| == |dots| + 1 && Ends(labels) && AllSimple(labels) && DotTexts(dots) && DotTexts(trailing)
    requires Without(labels, '@')
    ensures CanonicalEmail(local + ['@'] + (Name(labels, dots) + Dots(trailing))) ==
      if AllLabels(labels) then Some(Lower(local) + ['@'] + Joined(LowerAll(labels))) else None
  {
    var text := Name(labels, dots) + Dots(trailing);
    NameHoldsNone(labels, dots, '@');
    DotsHoldNone(trailing, '@');
    LastIndexOfLast(local, '@', text);
    CutAt(local, '@', text);
    DomainFirstPass(labels, dots, trailing);
    JoinedLower(labels);
    LowerIdempotent(Joined(labels));
    AddressText(local, Joined(LowerAll(labels)));
  }

  /** The at sign has to be there as it is: one that is disguised is not looked for. */
  lemma AtIsNeeded(value: string)
    requires '@' !in value
    ensures CanonicalEmail(value) == None
  {
    LastIndexOfIsLast(value, '@');
  }

  // ---- White space around a value ----

  predicate White(s: string) { forall i :: 0 <= i < |s| ==> IsSpace(s[i]) }

  lemma {:induction false} LeadSkipped(s: string, i: nat, n: nat)
    requires i <= n <= |s| && forall k :: i <= k < n ==> IsSpace(s[k])
    requires n == |s| || !IsSpace(s[n])
    ensures FirstText(s, i) == n
    decreases n - i
  {
    if i < n {
      LeadSkipped(s, i + 1, n);
    }
  }

  lemma {:induction false} TailSkipped(s: string, i: nat, m: nat, n: nat)
    requires i <= m <= n <= |s| && forall k :: m <= k < n ==> IsSpace(s[k])
    requires m == i || !IsSpace(s[m - 1])
    ensures LastText(s, i, n) == m
    decreases n - m
  {
    if m < n {
      TailSkipped(s, i, m, n - 1);
    }
  }

  /** Exactly the white space at both ends is stripped. */
  lemma StripSurrounded(lead: string, core: string, tail: string)
    requires White(lead) && White(tail) && Trimmed(core)
    ensures Strip(lead + core + tail) == core
  {
    var s, n := lead + core + tail, |lead| + |core|;
    assert forall k :: n <= k < |s| ==> s[k] == tail[k - n];
    if core == "" {
      LeadSkipped(s, 0, |s|);
    } else {
      assert s[|lead|] == core[0] && s[n - 1] == core[|core| - 1];
      LeadSkipped(s, 0, |lead|);
      TailSkipped(s, |lead|, n, |s|);
      assert s[|lead|..n] == core;
    }
  }

  // ---- canonicalize, kind by kind ----

  lemma BlankIsRejected(lib: Library, kind: IndicatorType, value: string)
    requires White(value)
    ensures Canonicalize(lib, kind, value) == None
  {
    StripSurrounded(value, "", "");
    assert value + "" + "" == value;
  }

  lemma DomainValue(lib: Library, lead: string, tail: string,
                    labels: seq<string>, dots: seq<string>, trailing: seq<string>)
    requires |labels| == |dots| + 1 && Ends(labels) && AllSimple(labels) && DotTexts(dots) && DotTexts(trailing)
    requires White(lead) && White(tail) && Trimmed(Name(labels, dots) + Dots(trailing))
    ensures Canonicalize(lib, IndicatorType.Domain, lead + (Name(labels, dots) + Dots(trailing)) + tail) ==
      if AllLabels(labels) then Some(Joined(LowerAll(labels))) else None
  {
    StripSurrounded(lead, Name(labels, dots) + Dots(trailing), tail);
    DomainFirstPass(labels, dots, trailing);
  }

  lemma MailValue(lib: Library, lead: string, tail: string,
                  local: string, labels: seq<string>, dots: seq<string>, trailing: seq<string>)
    requires |labels| == |dots| + 1 && Ends(labels) && AllSimple(labels) && DotTexts(dots) && DotTexts(trailing)
    requires Without(labels, '@') && White(lead) && White(tail)
    requires Trimmed(local + ['@'] + (Name(labels, dots) + Dots(trailing)))
    ensures Canonicalize(lib, IndicatorType.Email,
                         lead + (local + ['@'] + (Name(labels, dots) + Dots(trailing))) + tail) ==
      if AllLabels(labels) then Some(Lower(local) + ['@'] + Joined(LowerAll(labels))) else None
  {
    StripSurrounded(lead, local + ['@'] + (Name(labels, dots) + Dots(trailing)), tail);
    MailFirstPass(local, labels, dots, trailing);
  }

  predicate HexDigit(c: char) { '0' <= c <= '9' || 'a' <= c <= 'f' || 'A' <= c <= 'F' }

  predicate HexDigits(s: string) { forall i :: 0 <= i < |s| ==> HexDigit(s[i]) }

  lemma HexLower(s: string)
    ensures HexDigits(s) <==> forall i :: 0 <= i < |s| ==> IsHex(Lower(s)[i])
  {
    assert forall i :: 0 <= i < |s| ==> (HexDigit(s[i]) <==> IsHex(Lower(s)[i]));
  }

  /** A digest is accepted for its length and its digits, in any case. */
  lemma DigestValue(lib: Library, kind: IndicatorType, lead: string, core: string, tail: string)
    requires White(lead) && White(tail) && Trimmed(core) && (kind == Md5 || kind == Sha1 || kind == Sha256)
    ensures Canonicalize(lib, kind, lead + core + tail) ==
      if HexDigits(core) && |core| == (match kind case Md5 => 32 case Sha1 => 40 case _ => 64)
      then Some(Lower(core)) else None
  {
    StripSurrounded(lead, core, tail);
    HexLower(core);
  }

  /** Names of files and of mutexes, registry keys and YARA rules are only put into lower case. */
  lemma TextValue(lib: Library, kind: IndicatorType, lead: string, core: string, tail: string)
    requires White(lead) && White(tail) && Trimmed(core) && core != ""
    requires kind == FileName || kind == Mutex || kind == RegistryKey || kind == YaraRule
    ensures Canonicalize(lib, kind, lead + core + tail) == Some(Lower(core))
  {
    StripSurrounded(lead, core, tail);
  }

  /** Addresses are the library's, which is asked about the stripped text. */
  lemma AddressValue(lib: Library, lead: string, core: string, tail: string)
    requires White(lead) && White(tail) && Trimmed(core) && core != ""
    ensures Canonicalize(lib, Ipv4, lead + core + tail) == lib.ipv4(core)
    ensures Canonicalize(lib, Ipv6, lead + core + tail) == lib.ipv6(core)
  {
    StripSurrounded(lead, core, tail);
  }
}
