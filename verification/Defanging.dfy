/** The enricher that refangs values once more, after they have been canonicalized and named. */
module Defanging {
  import opened Sequences
  import opened Models
  import opened Text
  import opened Refanging
  import opened Urls
  import opened Hashing
  import opened IndicatorStore
  import opened Identity
  import opened PipelineMachine
  import PlainUrls

  const PATTERNS: seq<(string, string)> :=
    [("[.]", "."), ("(.)", "."), ("{dot}", "."), ("[at]", "@"), ("[://]", "://")]

  /** Every occurrence of a lower-case src, in any case, replaced from the left. */
  function ReplaceAnyCase(s: string, src: string, dst: string): string
    requires src != ""
    decreases |s|
  {
    if s == "" then ""
    else if |src| <= |s| && Lower(s[..|src|]) == src then dst + ReplaceAnyCase(s[|src|..], src, dst)
    else [s[0]] + ReplaceAnyCase(s[1..], src, dst)
  }

  function Replacements(s: string, k: nat): string
    requires k <= |PATTERNS|
  {
    if k == 0 then s else ReplaceAnyCase(Replacements(s, k - 1), PATTERNS[k - 1].0, PATTERNS[k - 1].1)
  }

  /** The length of a match of `h[ttp](s?)://`, in any case, at the front of s; 0 if there is none. */
  function BracketedLength(s: string): (n: nat)
    ensures n <= |s| && (n == 0 || n == 9 || n == 10)
  {
    if |s| < 9 || Lower(s[..6]) != "h[ttp]" then 0
    else if s[6..9] == "://" then 9
    else if |s| >= 10 && LowerChar(s[6]) == 's' && s[7..10] == "://" then 10
    else 0
  }

  function SubBracketed(s: string, inWord: bool): string
    decreases |s|
  {
    if s == "" then ""
    else if !inWord && BracketedLength(s) > 0 then
      "http" + s[6..BracketedLength(s)] + SubBracketed(s[BracketedLength(s)..], false)
    else [s[0]] + SubBracketed(s[1..], IsWord(s[0]))
  }

  function Rewritten(value: string): string {
    SubBracketed(SubHxxp(Replacements(value, |PATTERNS|), false), false)
  }

  /** The enricher: the value changes, the id does not. */
  function Enrich(ind: Indicator): Enriched {
    Keep(ind.(value := Rewritten(ind.value)))
  }

  /** The loop of the source. */
  method EnrichInPlace(ind: Indicator) returns (r: Enriched)
    ensures r == Enrich(ind)
  {
    var value := ind.value;
    for k := 0 to |PATTERNS|
      invariant value == Replacements(ind.value, k)
    {
      value := ReplaceAnyCase(value, PATTERNS[k].0, PATTERNS[k].1);
    }
    value := SubHxxp(value, false);
    value := SubBracketed(value, false);
    if value != ind.value {
      r := Keep(ind.(value := value));
    } else {
      r := Keep(ind);
    }
  }

  // ---- Exactly when a value is rewritten ----

  predicate OccursAnyCase(t: string, s: string) {
    (|t| <= |s| && Lower(s[..|t|]) == t) || (s != "" && OccursAnyCase(t, s[1..]))
  }

  /** One of the first k tokens occurs in the text, in any case. */
  predicate HoldsToken(s: string, k: nat)
    requires k <= |PATTERNS|
  {
    k > 0 && (OccursAnyCase(PATTERNS[k - 1].0, s) || HoldsToken(s, k - 1))
  }

  predicate HasBracketed(s: string, inWord: bool)
    decreases |s|
  {
    s != "" && ((!inWord && BracketedLength(s) > 0) || HasBracketed(s[1..], IsWord(s[0])))
  }

  /** One of the seven patterns of the enricher occurs in the value. */
  predicate HoldsPattern(s: string) {
    HoldsToken(s, |PATTERNS|) || HasHxxp(s, false) || HasBracketed(s, false)
  }

  lemma {:induction false} ReplaceAnyCaseShape(s: string, src: string, dst: string)
    requires |dst| < |src|
    ensures !OccursAnyCase(src, s) ==> ReplaceAnyCase(s, src, dst) == s
    ensures OccursAnyCase(src, s) ==> |ReplaceAnyCase(s, src, dst)| <= |s| - (|src| - |dst|)
    decreases |s|
  {
    if s == "" {
    } else if |src| <= |s| && Lower(s[..|src|]) == src {
      ReplaceAnyCaseShape(s[|src|..], src, dst);
    } else {
      ReplaceAnyCaseShape(s[1..], src, dst);
    }
  }

  lemma {:induction false} ReplacementsShape(s: string, k: nat)
    requires k <= |PATTERNS|
    ensures !HoldsToken(s, k) ==> Replacements(s, k) == s
    ensures HoldsToken(s, k) ==> |Replacements(s, k)| <= |s| - 2
  {
    if k > 0 {
      ReplacementsShape(s, k - 1);
      ReplaceAnyCaseShape(Replacements(s, k - 1), PATTERNS[k - 1].0, PATTERNS[k - 1].1);
    }
  }

  lemma {:induction false} SubBracketedShape(s: string, inWord: bool)
    ensures !HasBracketed(s, inWord) ==> SubBracketed(s, inWord) == s
    ensures HasBracketed(s, inWord) ==> |SubBracketed(s, inWord)| <= |s| - 2
    decreases |s|
  {
    if s != "" {
      var n := BracketedLength(s);
      if !inWord && n > 0 {
        SubBracketedShape(s[n..], false);
      } else {
        SubBracketedShape(s[1..], IsWord(s[0]));
        assert s == [s[0]] + s[1..];
      }
    }
  }

  /**
   * The enricher rewrites exactly the values that hold one of its patterns. It makes them shorter by two
   * characters at least, unless hxxp at a word boundary is all there is.
   */
  lemma RewrittenIffHoldsPattern(s: string)
    ensures Rewritten(s) != s <==> HoldsPattern(s)
    ensures HoldsPattern(s) ==>
      |Rewritten(s)| <= |s| - 2 || (Rewritten(s) == SubHxxp(s, false) && HasHxxp(s, false))
  {
    var t := Replacements(s, |PATTERNS|);
    var u := SubHxxp(t, false);
    ReplacementsShape(s, |PATTERNS|);
    SubHxxpShape(t, false);
    SubBracketedShape(u, false);
  }

  // ---- Exactly when the link survives ----

  /** The id stays right exactly when the old and the new value have the same canonical form. */
  lemma EnrichKeepsNameIff(lib: Library, ind: Indicator)
    requires Named(lib, ind)
    ensures Named(lib, Enrich(ind).indicator) <==>
      Canonicalize(lib, ind.kind, Rewritten(ind.value)) == Canonicalize(lib, ind.kind, ind.value)
  {
    RewritingKeepsNameIff(lib, ind, Rewritten(ind.value));
  }

  lemma MovedIsTrimmed(s: string, t: string)
    requires LettersMoved(s, t) && Trimmed(s)
    ensures Strip(t) == t
  {
  }

  /** A letter that moved is still another letter in lower case. */
  lemma MovedIsOther(s: string, t: string)
    requires LettersMoved(s, t) && t != s
    ensures Lower(t) != s
  {
    assert exists i :: 0 <= i < |s| && t[i] != s[i];
  }

  /** A canonical text that is nothing but text. */
  lemma TextChanges(v: string)
    requires Trimmed(v) && v != "" && Lower(v) == v
    ensures var t := Strip(Rewritten(v)); (t != "" && Lower(t) == v) <==> !HoldsPattern(v)
  {
    var t := Rewritten(v);
    RewrittenIffHoldsPattern(v);
    if HoldsPattern(v) {
      if |t| <= |v| - 2 {
        assert |Lower(Strip(t))| < |v|;
      } else {
        SubHxxpShape(v, false);
        MovedIsTrimmed(v, t);
        MovedIsOther(v, t);
      }
    }
  }

  predicate IsText(kind: IndicatorType) {
    kind == FileName || kind == Mutex || kind == RegistryKey || kind == YaraRule
  }

  lemma TextIsRightIff(lib: Library, ind: Indicator)
    requires Named(lib, ind) && IsText(ind.kind) && Trimmed(ind.value) && ind.value != ""
    requires Lower(ind.value) == ind.value
    ensures Named(lib, Enrich(ind).indicator) <==> !HoldsPattern(ind.value)
  {
    EnrichKeepsNameIff(lib, ind);
    TextChanges(ind.value);
  }

  // ---- Mail addresses ----

  /** An address whose domain holds nothing to rewrite. */
  predicate PlainAddress(v: string, local: string, x: string) {
    v == local + ['@'] + x && Trimmed(v) && Lower(local) == local && PlainName(x)
  }

  lemma StripOneBreak(y: string)
    requires Trimmed(y) && y != ""
    ensures Strip(y + ['\n']) == y
  {
    var s := y + ['\n'];
    assert s[0] == y[0] && s[|s| - 2] == y[|y| - 1];
    assert FirstText(s, 0) == 0 && LastText(s, 0, |s|) == LastText(s, 0, |s| - 1) == |y|;
  }

  /** What can be rewritten, or has to be, in the name that an address ends with: nothing. */
  predicate PlainName(x: string) {
    x != "" && IsAlnum(x[|x| - 1]) && Lower(x) == x && Plain(x) && '@' !in x
  }

  lemma NamePart(d: string) returns (x: string)
    requires CanonicalName(d)
    ensures PlainName(x) && d == x + if EndsInBreak(d) then ['\n'] else ""
  {
    x := if EndsInBreak(d) then d[..|d| - 1] else d;
    assert forall i :: 0 <= i < |x| ==> x[i] == d[i] && DomainChar(d[i]);
    assert forall i :: 0 <= i < |x| ==> LowerChar(x[i]) == LowerChar(d[i]) == Lower(d)[i];
  }

  lemma AddressTrimmed(local: string, x: string)
    requires PlainName(x) && (local == "" || !IsSpace(local[0]))
    ensures Trimmed(local + ['@'] + x)
  {
    var v := local + ['@'] + x;
    assert v[0] == (if local == "" then '@' else local[0]) && v[|v| - 1] == x[|x| - 1];
  }

  /** What the value of a built address is made of. */
  lemma BuiltAddress(raw: string, e: string) returns (local: string, x: string)
    requires CanonicalEmail(raw) == Some(e) && Trimmed(raw)
    ensures PlainAddress(Strip(e), local, x)
  {
    var d: string;
    local, d := EmailIsAddress(raw, e);
    x := NamePart(d);
    AddressTrimmed(local, x);
    var v := local + ['@'] + x;
    if EndsInBreak(d) {
      assert e == v + ['\n'];
      StripOneBreak(v);
    } else {
      assert e == v;
    }
  }

  lemma PlainDomain(x: string)
    requires PlainName(x)
    ensures CanonicalDomain(x).Some? ==> CanonicalDomain(x) == Some(x)
  {
    PlainText(x);
  }

  /** Canonicalizing an address with some other local part. */
  lemma AddressWith(local: string, x: string)
    requires PlainName(x)
    ensures CanonicalEmail(local + ['@'] + x) ==
      if CanonicalDomain(x).Some? then Some(Lower(local) + ['@'] + x) else None
  {
    var v := local + ['@'] + x;
    LastIndexOfLast(local, '@', x);
    CutAt(local, '@', x);
    PlainDomain(x);
    AddressText(local, x);
    assert v[..LastIndexOf(v, '@')] == local && v[LastIndexOf(v, '@') + 1..] == x;
  }

  /** A match of hxxp does not reach across the sign. */
  lemma LengthBefore(a: string, y: string)
    requires a != "" && y != "" && y[0] == '@'
    ensures HxxpLength(a + y) == HxxpLength(a)
  {
    PlainUrls.LengthAtJoint(a, y);
    if HxxpLength(a) > 0 {
      assert (a + y)[..4] == a[..4] && (a + y)[4..7] == a[4..7];
      assert |a| >= 8 ==> (a + y)[5..8] == a[5..8] && (a + y)[4] == a[4];
      assert |a| == 7 ==> a[4..7] == "://";
    }
  }

  lemma MatchStep(s: string, front: string, rest: string)
    requires HxxpLength(s) > 0 && front == s[4..HxxpLength(s)] && rest == s[HxxpLength(s)..]
    ensures SubHxxp(s, false) == "http" + front + SubHxxp(rest, false)
  {
  }

  lemma OtherStep(s: string, inWord: bool, rest: string)
    requires s != "" && (inWord || HxxpLength(s) == 0) && rest == s[1..]
    ensures SubHxxp(s, inWord) == [s[0]] + SubHxxp(rest, IsWord(s[0]))
  {
  }

  lemma JoinLast(a: string, b: string, y: string)
    ensures a + (b + y) == a + b + y
  {
  }

  lemma SlicesOfJoin(a: string, y: string, i: nat, n: nat)
    requires i <= n <= |a|
    ensures (a + y)[n..] == a[n..] + y && (a + y)[i..n] == a[i..n]
  {
  }

  lemma AfterMatch(a: string, y: string, front: string, rest: string, all: string)
    requires y != "" && y[0] == '@' && HxxpLength(a) > 0 && all == a + y
    requires front == a[4..HxxpLength(a)] && rest == a[HxxpLength(a)..]
    requires SubHxxp(rest + y, false) == SubHxxp(rest, false) + y
    ensures SubHxxp(all, false) == SubHxxp(a, false) + y
  {
    LengthBefore(a, y);
    SlicesOfJoin(a, y, 4, HxxpLength(a));
    MatchStep(a, front, rest);
    MatchStep(all, front, rest + y);
    JoinLast("http" + front, SubHxxp(rest, false), y);
  }

  lemma AfterOther(a: string, y: string, inWord: bool, rest: string, all: string)
    requires y != "" && y[0] == '@' && a != "" && (inWord || HxxpLength(a) == 0) && all == a + y && rest == a[1..]
    requires SubHxxp(rest + y, IsWord(a[0])) == SubHxxp(rest, IsWord(a[0])) + y
    ensures SubHxxp(all, inWord) == SubHxxp(a, inWord) + y
  {
    LengthBefore(a, y);
    SlicesOfJoin(a, y, 0, 1);
    OtherStep(a, inWord, rest);
    OtherStep(all, inWord, rest + y);
    JoinLast([a[0]], SubHxxp(rest, IsWord(a[0])), y);
  }

  lemma {:induction false} SubHxxpBefore(a: string, y: string, inWord: bool)
    requires y != "" && y[0] == '@' && ':' !in y
    ensures SubHxxp(a + y, inWord) == SubHxxp(a, inWord) + y
    decreases |a|
  {
    if a == "" {
      assert a + y == y;
      NoColonNoHxxp(y, inWord);
      SubHxxpShape(y, inWord);
    } else if !inWord && HxxpLength(a) > 0 {
      SubHxxpBefore(a[HxxpLength(a)..], y, false);
      AfterMatch(a, y, a[4..HxxpLength(a)], a[HxxpLength(a)..], a + y);
    } else {
      SubHxxpBefore(a[1..], y, IsWord(a[0]));
      AfterOther(a, y, inWord, a[1..], a + y);
    }
  }

  lemma SubHxxpOfAddress(v: string, local: string, x: string)
    requires PlainAddress(v, local, x)
    ensures SubHxxp(v, false) == SubHxxp(local, false) + ['@'] + x
  {
    var y := ['@'] + x;
    assert v == local + y;
    SubHxxpBefore(local, y, false);
  }

  lemma OtherLocalPart(local: string, moved: string, x: string)
    requires PlainName(x) && LettersMoved(local, moved) && moved != local
    ensures CanonicalEmail(moved + ['@'] + x) != Some(local + ['@'] + x)
  {
    AddressWith(moved, x);
    MovedIsOther(local, moved);
    var a, b := Lower(moved) + ['@'] + x, local + ['@'] + x;
    assert a[..|local|] == Lower(moved) && b[..|local|] == local;
  }

  /** If hxxp is all there is to rewrite, the local part changes. */
  lemma LocalPartChanges(v: string, local: string, x: string)
    requires PlainAddress(v, local, x) && HasHxxp(v, false)
    ensures CanonicalEmail(Strip(SubHxxp(v, false))) != Some(v)
  {
    SubHxxpShape(v, false);
    SubHxxpShape(local, false);
    SubHxxpOfAddress(v, local, x);
    MovedIsTrimmed(v, SubHxxp(v, false));
    OtherLocalPart(local, SubHxxp(local, false), x);
  }

  lemma AddressChanges(v: string, local: string, x: string)
    requires PlainAddress(v, local, x) && CanonicalEmail(v) == Some(v)
    ensures CanonicalEmail(Strip(Rewritten(v))) == Some(v) <==> !HoldsPattern(v)
  {
    RewrittenIffHoldsPattern(v);
    if |Rewritten(v)| <= |v| - 2 {
      EmailShrinks(Strip(Rewritten(v)));
    } else if HoldsPattern(v) {
      LocalPartChanges(v, local, x);
    }
  }

  lemma AddressIsRightIff(lib: Library, ind: Indicator, local: string, x: string)
    requires Named(lib, ind) && ind.kind == Email && PlainAddress(ind.value, local, x)
    ensures Named(lib, Enrich(ind).indicator) <==> !HoldsPattern(ind.value)
  {
    EnrichKeepsNameIff(lib, ind);
    AddressWith(local, x);
    AddressChanges(ind.value, local, x);
  }

  // ---- URLs ----

  /** Canonicalizing never makes up for what the enricher cuts away. */
  lemma UrlGrowsByOne(check: BracketCheck, raw: string)
    requires CanonicalUrl(check, raw).Some?
    ensures |CanonicalUrl(check, raw).value| <= |raw| + 1
  {
    RefangShape(raw);
    OutputShape(check, Urls.Clean(raw));
    UnbrokenText(Urls.Clean(raw));
  }

  lemma UrlIsRightIff(lib: Library, ind: Indicator)
    requires Named(lib, ind) && ind.kind == IndicatorType.Url
    requires CanonicalUrl(lib.brackets, ind.value) == Some(ind.value) && TextSettled(ind.value) && ind.value != ""
    ensures Named(lib, Enrich(ind).indicator) <==> !HoldsPattern(ind.value)
  {
    var v := ind.value;
    var t := Strip(Rewritten(v));
    EnrichKeepsNameIff(lib, ind);
    RewrittenIffHoldsPattern(v);
    CanonicalOfUrl(lib, v);
    if t != "" {
      CanonicalOfUrl(lib, t);
      if CanonicalUrl(lib.brackets, t).Some? {
        UrlGrowsByOne(lib.brackets, t);
      }
    }
  }

  lemma StableUrlIsSettled(lib: Library, value: string)
    requires Projects(lib, IndicatorType.Url, value)
    ensures var c := Canonicalize(lib, IndicatorType.Url, value).value;
      CanonicalUrl(lib.brackets, c) == Some(c) && TextSettled(c) && c != ""
  {
    var c := Canonicalize(lib, IndicatorType.Url, value).value;
    ProjectionIffStable(lib, IndicatorType.Url, value);
    CanonicalOfUrl(lib, Strip(value));
    CanonicalOfUrl(lib, Strip(c));
  }

  // ---- Values without brackets ----

  lemma {:induction false} NothingToReplace(s: string, src: string, dst: string, c: char)
    requires src != "" && c in src && c !in s && !IsAlpha(c)
    ensures ReplaceAnyCase(s, src, dst) == s
    decreases |s|
  {
    if s != "" {
      if |src| <= |s| {
        LowerKeeps(s[..|src|], c);
      }
      NothingToReplace(s[1..], src, dst, c);
      assert s == [s[0]] + s[1..];
    }
  }

  lemma {:induction false} NothingBracketed(s: string, inWord: bool)
    requires '[' !in s
    ensures SubBracketed(s, inWord) == s
    decreases |s|
  {
    if s != "" {
      if |s| >= 9 {
        LowerKeeps(s[..6], '[');
        assert "h[ttp]"[1] == '[';
      }
      NothingBracketed(s[1..], IsWord(s[0]));
      assert s == [s[0]] + s[1..];
    }
  }

  predicate Plain(s: string) { '[' !in s && '(' !in s && '{' !in s && ':' !in s }

  lemma {:induction false} PlainReplacements(s: string, k: nat)
    requires k <= |PATTERNS| && Plain(s)
    ensures Replacements(s, k) == s
  {
    if k > 0 {
      PlainReplacements(s, k - 1);
      NothingToReplace(s, PATTERNS[k - 1].0, PATTERNS[k - 1].1, if k == 2 then '(' else if k == 3 then '{' else '[');
    }
  }

  lemma PlainIsKept(s: string)
    requires Plain(s)
    ensures Rewritten(s) == s
  {
    PlainReplacements(s, |PATTERNS|);
    NoColonNoHxxp(s, false);
    SubHxxpShape(s, false);
    NothingBracketed(s, false);
  }

  /** Built domains and digests hold nothing to rewrite, so for them the enricher changes nothing. */
  lemma DomainsAndDigestsAreKept(lib: Library, kind: IndicatorType, value: string, fields: Indicator)
    requires kind in {Domain, Sha256, Sha1, Md5} && Build(lib, kind, value, fields).Some?
    ensures var ind := Build(lib, kind, value, fields).value; Enrich(ind) == Keep(ind)
  {
    var c := Canonicalize(lib, kind, value).value;
    if kind == Domain {
      DomainResult(Strip(value));
      NameIsPlain(c);
    } else {
      DigestIsPlain(kind, Strip(value), c);
    }
    PlainIsKept(Strip(c));
  }

  lemma NameIsPlain(d: string)
    requires CanonicalName(d)
    ensures Plain(Strip(d))
  {
  }

  lemma DigestIsPlain(kind: IndicatorType, raw: string, c: string)
    requires CanonicalHash(kind, raw) == Some(c)
    ensures Plain(Strip(c))
  {
  }

  // ---- The exact condition, for all built indicators ----

  lemma BuiltText(lib: Library, kind: IndicatorType, value: string, fields: Indicator)
    requires IsText(kind) && Build(lib, kind, value, fields).Some?
    ensures var ind := Build(lib, kind, value, fields).value;
      Trimmed(ind.value) && ind.value != "" && Lower(ind.value) == ind.value && ind.kind == kind
  {
    TextIsStable(Strip(value));
  }

  lemma BuiltAddressIsRightIff(lib: Library, value: string, fields: Indicator)
    requires Build(lib, Email, value, fields).Some?
    ensures var ind := Build(lib, Email, value, fields).value;
      Named(lib, Enrich(ind).indicator) <==> !HoldsPattern(ind.value)
  {
    var c := Canonicalize(lib, Email, value).value;
    var ind := Build(lib, Email, value, fields).value;
    var local, x := BuiltAddress(Strip(value), c);
    BuiltIsNamed(lib, Email, value, fields);
    AddressIsRightIff(lib, ind, local, x);
  }

  lemma BuiltUrlIsRightIff(lib: Library, value: string, fields: Indicator)
    requires Build(lib, IndicatorType.Url, value, fields).Some? && Projects(lib, IndicatorType.Url, value)
    ensures var ind := Build(lib, IndicatorType.Url, value, fields).value;
      Named(lib, Enrich(ind).indicator) <==> !HoldsPattern(ind.value)
  {
    StableUrlIsSettled(lib, value);
    BuiltIsNamed(lib, IndicatorType.Url, value, fields);
    UrlIsRightIff(lib, Build(lib, IndicatorType.Url, value, fields).value);
  }

  /**
   * The enricher leaves the id of a built indicator right if and only if its value holds none of the seven
   * patterns: for every kind that is not an IP address, and for URLs whose canonical form is a fixed point.
   */
  lemma EnrichedIsNamedIffNoPattern(lib: Library, kind: IndicatorType, value: string, fields: Indicator)
    requires Build(lib, kind, value, fields).Some? && NoAddress(kind)
    requires kind.Url? ==> Projects(lib, kind, value)
    ensures var ind := Build(lib, kind, value, fields).value;
      Named(lib, Enrich(ind).indicator) <==> !HoldsPattern(ind.value)
  {
    var ind := Build(lib, kind, value, fields).value;
    BuiltIsNamed(lib, kind, value, fields);
    match kind
    case Url => BuiltUrlIsRightIff(lib, value, fields);
    case Email => BuiltAddressIsRightIff(lib, value, fields);
    case Domain | Sha256 | Sha1 | Md5 =>
      DomainsAndDigestsAreKept(lib, kind, value, fields);
      RewrittenIffHoldsPattern(ind.value);
    case FileName | Mutex | RegistryKey | YaraRule =>
      BuiltText(lib, kind, value, fields);
      TextIsRightIff(lib, ind);
  }

  // ---- Two values that end up as one ----

  /** A canonical value that is rewritten into another one: the table refuses the two together. */
  lemma RewrittenCollides(lib: Library, kind: IndicatorType, a: string, b: string, fields: Indicator)
    requires Canonicalize(lib, kind, a) == Some(a) && Canonicalize(lib, kind, b) == Some(b) && a != b
    requires Trimmed(a) && Trimmed(b) && Rewritten(a) == b == Rewritten(b) && 0 <= fields.confidence <= 100
    ensures var x, y := Build(lib, kind, a, fields), Build(lib, kind, b, fields);
      && x.Some? && y.Some? && x.value.id != y.value.id
      && Enrich(y.value) == Keep(y.value) && !Named(lib, Enrich(x.value).indicator)
      && !Unique(UpsertAll(map[], [Enrich(x.value).indicator, y.value]))
  {
    var x, y := Build(lib, kind, a, fields).value, Build(lib, kind, b, fields).value;
    BuiltIsNamed(lib, kind, a, fields);
    BuiltIsNamed(lib, kind, b, fields);
    SameIdIffSameCanonical(lib, x, y);
    RewritingBreaksUniqueness(lib, x, y);
  }

  lemma {:induction false} NoMatchBefore(a: string, s: string, src: string, dst: string)
    requires src != "" && !IsAlpha(src[0]) && src[0] !in a
    ensures ReplaceAnyCase(a + s, src, dst) == a + ReplaceAnyCase(s, src, dst)
    decreases |a|
  {
    if a == "" {
      assert a + s == s;
    } else {
      NoMatchBefore(a[1..], s, src, dst);
      assert (a + s)[1..] == a[1..] + s;
      assert |src| <= |a + s| ==> Lower((a + s)[..|src|])[0] == LowerChar(a[0]);
      assert a == [a[0]] + a[1..];
    }
  }

  /** The k-th token, between texts that hold no bracket. */
  lemma TokenReplaced(head: string, found: string, tail: string, k: nat)
    requires k < |PATTERNS| && Unbracketed(head) && Unbracketed(tail) && Lower(found) == PATTERNS[k].0
    ensures ReplaceAnyCase(head + (found + tail), PATTERNS[k].0, PATTERNS[k].1) == head + (PATTERNS[k].1 + tail)
  {
    var src, dst := PATTERNS[k].0, PATTERNS[k].1;
    var s := found + tail;
    assert s[..|src|] == found && s[|src|..] == tail;
    NothingToReplace(tail, src, dst, src[0]);
    NoMatchBefore(head, s, src, dst);
  }

  predicate Unbracketed(s: string) { '[' !in s && '(' !in s && '{' !in s }

  lemma RewrittenMutex()
    ensures Rewritten("a[.]b") == "a.b"
  {
    var s := "a[.]b";
    assert s == "a" + ("[.]" + "b") && "a" + ("." + "b") == "a.b";
    TokenReplaced("a", "[.]", "b", 0);
    assert Replacements(s, 0) == s && Replacements(s, 1) == "a.b";
    RestIsKept(s, 1);
    NothingElse("a.b");
  }

  /** Of the tokens, {dot} is the only one in this text. */
  lemma DotWord(s: string, head: string, tail: string)
    requires s == head + ("{dot}" + tail) && Unbracketed(head) && Unbracketed(tail)
    ensures Replacements(s, |PATTERNS|) == head + ("." + tail)
  {
    NothingToReplace(s, "[.]", ".", '[');
    NothingToReplace(s, "(.)", ".", '(');
    TokenReplaced(head, "{dot}", tail, 2);
    assert Replacements(s, 0) == s && Replacements(s, 1) == s && Replacements(s, 2) == s;
    RestIsKept(s, 3);
  }

  lemma RewrittenUrl()
    ensures Rewritten("http://a{dot}b/") == "http://a.b/"
  {
    assert "http://a{dot}b/" == "http://a" + ("{dot}" + "b/") && "http://a" + ("." + "b/") == "http://a.b/";
    DotWord("http://a{dot}b/", "http://a", "b/");
    NothingElse("http://a.b/");
  }

  lemma NothingAtAll(s: string)
    requires Unbracketed(s) && 'x' !in s && 'X' !in s
    ensures Rewritten(s) == s
  {
    assert Replacements(s, 0) == s;
    RestIsKept(s, 0);
    NothingElse(s);
  }

  lemma NothingElse(s: string)
    requires '[' !in s && 'x' !in s && 'X' !in s
    ensures SubBracketed(SubHxxp(s, false), false) == s
  {
    NoXNoHxxp(s, false);
    SubHxxpShape(s, false);
    NothingBracketed(s, false);
  }

  lemma {:induction false} RestIsKept(s: string, k: nat)
    requires k <= |PATTERNS| && Unbracketed(Replacements(s, k))
    ensures Replacements(s, |PATTERNS|) == Replacements(s, k)
    decreases |PATTERNS| - k
  {
    if k < |PATTERNS| {
      NothingToReplace(Replacements(s, k), PATTERNS[k].0, PATTERNS[k].1, PATTERNS[k].0[0]);
      RestIsKept(s, k + 1);
    }
  }

  lemma MutexNames(lib: Library)
    ensures Canonicalize(lib, Mutex, "a[.]b") == Some("a[.]b") && Canonicalize(lib, Mutex, "a.b") == Some("a.b")
  {
    assert Trimmed("a[.]b") && Trimmed("a.b");
    assert Lower("a[.]b") == "a[.]b" && Lower("a.b") == "a.b";
  }

  /** Two mutexes, built and then enriched, carry the same value under different ids. */
  lemma EnrichedMutexesCollide(lib: Library, fields: Indicator)
    requires 0 <= fields.confidence <= 100
    ensures var x, y := Build(lib, Mutex, "a[.]b", fields), Build(lib, Mutex, "a.b", fields);
      && x.Some? && y.Some? && x.value.id != y.value.id
      && Enrich(y.value) == Keep(y.value) && !Named(lib, Enrich(x.value).indicator)
      && !Unique(UpsertAll(map[], [Enrich(x.value).indicator, y.value]))
  {
    MutexNames(lib);
    RewrittenMutex();
    NothingAtAll("a.b");
    RewrittenCollides(lib, Mutex, "a[.]b", "a.b", fields);
  }

  lemma HostIsCanonical(lib: Library, host: string)
    requires PlainHost(host) && host != "" && ':' !in host
    ensures Canonicalize(lib, IndicatorType.Url, PlainUrl(host)) == Some(PlainUrl(host)) && Trimmed(PlainUrl(host))
  {
    DefaultPortGoes("http", host);
    if EndsWith(host, ":80") { EndHolds(host, ":80", ':'); }
    PlainUrlLands(lib.brackets, host, host);
    CanonicalOfUrl(lib, PlainUrl(host));
  }

  lemma HostsAsWritten()
    ensures PlainUrl("a{dot}b") == "http://a{dot}b/" && PlainUrl("a.b") == "http://a.b/"
  {
  }

  lemma KeptUrl()
    ensures Rewritten("http://a.b/") == "http://a.b/"
  {
    NothingAtAll("http://a.b/");
  }

  /** The same with URLs: canonicalization leaves {dot} alone, and the enricher does not. */
  lemma EnrichedUrlsCollide(lib: Library, fields: Indicator) returns (a: string, b: string)
    requires 0 <= fields.confidence <= 100
    ensures a == "http://a{dot}b/" && b == "http://a.b/"
    ensures var x, y := Build(lib, IndicatorType.Url, a, fields), Build(lib, IndicatorType.Url, b, fields);
      && x.Some? && y.Some? && x.value.id != y.value.id
      && Enrich(y.value) == Keep(y.value) && !Named(lib, Enrich(x.value).indicator)
      && !Unique(UpsertAll(map[], [Enrich(x.value).indicator, y.value]))
  {
    a, b := PlainUrl("a{dot}b"), PlainUrl("a.b");
    HostsAsWritten();
    HostIsCanonical(lib, "a{dot}b");
    HostIsCanonical(lib, "a.b");
    RewrittenUrl();
    KeptUrl();
    RewrittenCollides(lib, IndicatorType.Url, a, b, fields);
  }
}
