/** Canonical values of indicators, and exactly when canonicalizing them again changes nothing. */
module Hashing {
  import opened Sequences
  import opened Models
  import opened Text
  import opened Refanging
  import opened Urls
  import PlainUrls

  /** What the standard library's address parsing answers. */
  datatype Library = Library(ipv4: string -> Option<string>, ipv6: string -> Option<string>, brackets: BracketCheck)

  // ---- Domains ----

  predicate LabelCore(l: string) {
    && 1 <= |l| <= 63 && IsAlnum(l[0]) && IsAlnum(l[|l| - 1])
    && forall i :: 0 <= i < |l| ==> IsAlnum(l[i]) || l[i] == '-'
  }

  /** The label pattern; its `$` also matches just before a line break at the very end. */
  predicate LabelMatches(l: string) {
    LabelCore(l) || (l != "" && l[|l| - 1] == '\n' && LabelCore(l[..|l| - 1]))
  }

  /** The IDNA codec on an ASCII name: only the lengths of the labels are checked. */
  predicate IdnaAccepts(labels: seq<string>)
    requires labels != []
  {
    labels == [""] ||
    ((forall i :: 0 <= i < |labels| - 1 ==> 0 < |labels[i]|) && forall i :: 0 <= i < |labels| ==> |labels[i]| < 64)
  }

  predicate ValidLabels(labels: seq<string>)
    requires labels != []
  {
    IdnaAccepts(labels) && forall l :: l in labels ==> LabelMatches(l)
  }

  function StripDots(s: string): (r: string)
    ensures r <= s && (r == "" || r[|r| - 1] != '.')
    ensures (s == "" || s[|s| - 1] != '.') ==> r == s
  {
    if s != "" && s[|s| - 1] == '.' then StripDots(s[..|s| - 1]) else s
  }

  function CanonicalDomain(value: string): Option<string> {
    var domain := StripDots(Lower(Refang(value)));
    if ValidLabels(Split(domain, '.')) then Some(domain) else None
  }

  predicate DomainChar(c: char) { IsAlnum(c) || c == '-' || c == '.' || c == '\n' }

  predicate DomainText(d: string) {
    && d != "" && IsAlnum(d[0]) && (IsAlnum(d[|d| - 1]) || (d[|d| - 1] == '\n' && |d| > 1 && IsAlnum(d[|d| - 2])))
    && forall i :: 0 <= i < |d| ==> DomainChar(d[i])
  }

  lemma {:induction false} ValidDomainText(d: string)
    requires forall l :: l in Split(d, '.') ==> LabelMatches(l)
    ensures DomainText(d)
    decreases |d|
  {
    var i := IndexOf(d, '.');
    IndexOfIsFirst(d, '.');
    if i == |d| {
      assert d in Split(d, '.');
      LabelText(d);
    } else {
      var rest := d[i + 1..];
      assert Split(d, '.') == [d[..i]] + Split(rest, '.');
      ValidDomainText(rest);
      assert d[..i] in Split(d, '.');
      LabelText(d[..i]);
      JoinedText(d, i);
    }
  }

  lemma LabelText(l: string)
    requires LabelMatches(l)
    ensures DomainText(l)
  {
    if !LabelCore(l) {
      assert l == l[..|l| - 1] + [l[|l| - 1]];
    }
  }

  lemma JoinedText(d: string, i: nat)
    requires i < |d| && d[i] == '.' && DomainText(d[..i]) && DomainText(d[i + 1..])
    ensures DomainText(d)
  {
    var rest := d[i + 1..];
    assert d == d[..i] + [d[i]] + rest;
    assert d[|d| - 1] == rest[|rest| - 1];
  }

  /** What canonicalizing a domain ends with. */
  predicate CanonicalName(d: string) {
    DomainText(d) && Lower(d) == d && ValidLabels(Split(d, '.'))
  }

  lemma DomainResult(value: string)
    requires CanonicalDomain(value).Some?
    ensures CanonicalName(CanonicalDomain(value).value)
  {
    ValidDomainText(CanonicalDomain(value).value);
  }

  lemma DomainShrinks(value: string)
    ensures CanonicalDomain(value).Some? ==> |CanonicalDomain(value).value| <= |value|
  {
    RefangShape(value);
  }

  lemma DomainStays(d: string)
    requires CanonicalName(d)
    ensures CanonicalDomain(d) == Some(d)
  {
    PlainText(d);
  }

  predicate EndsInBreak(s: string) { s != "" && s[|s| - 1] == '\n' }

  lemma NameIsTrimmed(d: string)
    requires CanonicalName(d)
    ensures d != "" && '@' !in d && (Trimmed(d) <==> !EndsInBreak(d))
  {
  }

  /** A canonical domain is a fixed point exactly when it does not end in a line break. */
  lemma DomainIsFixedIffUnbroken(d: string)
    requires CanonicalName(d)
    ensures CanonicalDomain(Strip(d)) == Some(d) <==> !EndsInBreak(d)
  {
    NameIsTrimmed(d);
    if Trimmed(d) {
      DomainStays(d);
    } else {
      DomainShrinks(Strip(d));
    }
  }

  // ---- Hashes, mail addresses and the rest ----

  function DigestLength(kind: IndicatorType): nat {
    if kind == Md5 then 32 else if kind == Sha1 then 40 else 64
  }

  predicate IsHex(c: char) { IsDigit(c) || 'a' <= c <= 'f' }

  function CanonicalHash(kind: IndicatorType, value: string): Option<string> {
    var cleaned := Lower(Strip(value));
    if |cleaned| != DigestLength(kind) then None
    else if forall i :: 0 <= i < |cleaned| ==> IsHex(cleaned[i]) then Some(cleaned)
    else None
  }

  function CanonicalEmail(value: string): Option<string> {
    var at := LastIndexOf(value, '@');
    if at < 0 then None else
    var domain := CanonicalDomain(value[at + 1..]);
    if domain.Some? then Some(Lower(value[..at] + ['@'] + domain.value)) else None
  }

  /** A mail address in canonical form: some local part and a canonical domain. */
  predicate CanonicalAddress(e: string, local: string, d: string) {
    e == local + ['@'] + d && CanonicalName(d) && Lower(local) == local
  }

  lemma EmailResult(local: string, d: string)
    requires CanonicalName(d)
    ensures CanonicalAddress(Lower(local + ['@'] + d), Lower(local), d)
  {
    AddressText(local, d);
    LowerIdempotent(local);
  }

  lemma AddressText(local: string, d: string)
    requires Lower(d) == d
    ensures Lower(local + ['@'] + d) == Lower(local) + ['@'] + d
  {
    LowerConcat(local + ['@'], d);
    LowerConcat(local, ['@']);
  }

  lemma EmailShrinks(value: string)
    ensures CanonicalEmail(value).Some? ==> |CanonicalEmail(value).value| <= |value|
  {
    DomainShrinks(value[LastIndexOf(value, '@') + 1..]);
  }

  lemma EmailStays(e: string, local: string, d: string)
    requires CanonicalAddress(e, local, d)
    ensures CanonicalEmail(e) == Some(e)
  {
    NameIsTrimmed(d);
    LastIndexOfLast(local, '@', d);
    CutAt(local, '@', d);
    DomainStays(d);
    assert e[..LastIndexOf(e, '@')] == local && e[LastIndexOf(e, '@') + 1..] == d;
    AddressText(local, d);
  }

  lemma AddressIsTrimmed(e: string, local: string, d: string)
    requires CanonicalAddress(e, local, d) && (local == "" || !IsSpace(local[0]))
    ensures Trimmed(e) <==> !EndsInBreak(e)
  {
    NameIsTrimmed(d);
    assert e[|e| - 1] == d[|d| - 1];
  }

  lemma EmailIsFixedIffUnbroken(e: string, local: string, d: string)
    requires CanonicalAddress(e, local, d) && (local == "" || !IsSpace(local[0]))
    ensures CanonicalEmail(Strip(e)) == Some(e) <==> !EndsInBreak(e)
  {
    AddressIsTrimmed(e, local, d);
    if Trimmed(e) {
      EmailStays(e, local, d);
    } else {
      EmailShrinks(Strip(e));
    }
  }

  // ---- canonicalize ----

  /** None stands for ValueError. */
  function Canonicalize(lib: Library, kind: IndicatorType, value: string): Option<string> {
    var raw := Strip(value);
    if raw == "" then None else CanonicalOf(lib, kind, raw)
  }

  function CanonicalOf(lib: Library, kind: IndicatorType, raw: string): Option<string> {
    match kind
    case Ipv4 => lib.ipv4(raw)
    case Ipv6 => lib.ipv6(raw)
    case Domain => CanonicalDomain(raw)
    case Url => CanonicalUrl(lib.brackets, raw)
    case Sha256 | Sha1 | Md5 => CanonicalHash(kind, raw)
    case Email => CanonicalEmail(raw)
    case FileName | Mutex | RegistryKey | YaraRule => Some(Lower(raw))
  }

  /** Canonicalizing the canonical value again gives the same value. */
  predicate Projects(lib: Library, kind: IndicatorType, value: string) {
    var c := Canonicalize(lib, kind, value);
    c.Some? && Canonicalize(lib, kind, c.value) == c
  }

  predicate FixedOf(lib: Library, kind: IndicatorType, c: string) {
    Strip(c) != "" && CanonicalOf(lib, kind, Strip(c)) == Some(c)
  }

  /** Neither kind of address: their parsing is the library's. */
  predicate NoAddress(kind: IndicatorType) { kind != Ipv4 && kind != Ipv6 }

  /** What is left of a name after refanging it and stripping its dots. */
  function NameText(raw: string): string { StripDots(Refang(raw)) }

  /** What decides that, read off the stripped value: the end of a name, or the parts of a URL. */
  predicate Stable(lib: Library, kind: IndicatorType, raw: string)
    requires NoAddress(kind)
  {
    match kind
    case Domain => !EndsInBreak(NameText(raw))
    case Email => !EndsInBreak(NameText(raw[LastIndexOf(raw, '@') + 1..]))
    case Url => UrlStable(lib.brackets, raw)
    case _ => true
  }

  lemma StrippedFirst(lib: Library, kind: IndicatorType, value: string)
    ensures Canonicalize(lib, kind, Strip(value)) == Canonicalize(lib, kind, value)
  {
  }

  lemma TextIsStable(raw: string)
    requires Trimmed(raw) && raw != ""
    ensures Strip(Lower(raw)) == Lower(raw) != "" && Lower(Lower(raw)) == Lower(raw)
  {
  }

  lemma HashIsStable(kind: IndicatorType, raw: string, c: string)
    requires CanonicalHash(kind, raw) == Some(c)
    ensures Strip(c) == c != "" && CanonicalHash(kind, c) == Some(c)
  {
    assert Strip(raw) != "";
    TextIsStable(Strip(raw));
  }

  lemma {:induction false} StripDotsLower(s: string)
    ensures StripDots(Lower(s)) == Lower(StripDots(s))
  {
    if s != "" && s[|s| - 1] == '.' {
      assert Lower(s)[..|s| - 1] == Lower(s[..|s| - 1]);
      StripDotsLower(s[..|s| - 1]);
    }
  }

  /** A canonical name ends like the name as written. */
  lemma NameEnd(raw: string, d: string)
    requires CanonicalDomain(raw) == Some(d)
    ensures EndsInBreak(d) <==> EndsInBreak(NameText(raw))
  {
    StripDotsLower(Refang(raw));
  }

  lemma DomainIsStable(raw: string, d: string)
    requires CanonicalDomain(raw) == Some(d)
    ensures Strip(d) != "" && (CanonicalDomain(Strip(d)) == Some(d) <==> !EndsInBreak(NameText(raw)))
  {
    DomainResult(raw);
    NameIsTrimmed(d);
    DomainIsFixedIffUnbroken(d);
    NameEnd(raw, d);
  }

  lemma EmailIsAddress(raw: string, e: string) returns (local: string, d: string)
    requires CanonicalEmail(raw) == Some(e) && Trimmed(raw)
    ensures CanonicalAddress(e, local, d) && (local == "" || !IsSpace(local[0]))
    ensures EndsInBreak(d) <==> EndsInBreak(NameText(raw[LastIndexOf(raw, '@') + 1..]))
  {
    var at := LastIndexOf(raw, '@');
    local, d := Lower(raw[..at]), CanonicalDomain(raw[at + 1..]).value;
    DomainResult(raw[at + 1..]);
    EmailResult(raw[..at], d);
    NameEnd(raw[at + 1..], d);
    assert at > 0 ==> local[0] == LowerChar(raw[0]);
  }

  lemma EmailIsStable(raw: string, e: string)
    requires CanonicalEmail(raw) == Some(e) && Trimmed(raw)
    ensures Strip(e) != ""
    ensures CanonicalEmail(Strip(e)) == Some(e) <==> !EndsInBreak(NameText(raw[LastIndexOf(raw, '@') + 1..]))
  {
    var local, d := EmailIsAddress(raw, e);
    assert e[0] == if local == "" then '@' else local[0];
    EmailIsFixedIffUnbroken(e, local, d);
    assert e[|e| - 1] == d[|d| - 1];
  }

  lemma CanonicalOfUrl(lib: Library, raw: string)
    ensures CanonicalOf(lib, IndicatorType.Url, raw) == CanonicalUrl(lib.brackets, raw)
  {
  }

  lemma FixedUrl(lib: Library, r: string)
    ensures FixedOf(lib, IndicatorType.Url, r) <==> Strip(r) != "" && CanonicalUrl(lib.brackets, Strip(r)) == Some(r)
  {
    CanonicalOfUrl(lib, Strip(r));
  }

  lemma UrlIsStable(lib: Library, raw: string, r: string)
    requires CanonicalUrl(lib.brackets, raw) == Some(r)
    ensures FixedOf(lib, IndicatorType.Url, r) <==> UrlStable(lib.brackets, raw)
  {
    FixedUrl(lib, r);
    UrlText(lib.brackets, raw, r);
    UrlIsFixedIffSettled(lib.brackets, raw, r);
  }

  lemma FixedIffStable(lib: Library, kind: IndicatorType, raw: string, c: string)
    requires CanonicalOf(lib, kind, raw) == Some(c) && Trimmed(raw) && raw != "" && NoAddress(kind)
    ensures FixedOf(lib, kind, c) <==> Stable(lib, kind, raw)
  {
    match kind
    case Domain =>
      DomainIsStable(raw, c);
    case Email =>
      EmailIsStable(raw, c);
    case Url =>
      CanonicalOfUrl(lib, raw);
      UrlIsStable(lib, raw, c);
    case Sha256 | Sha1 | Md5 =>
      HashIsStable(kind, raw, c);
    case FileName | Mutex | RegistryKey | YaraRule =>
      TextIsStable(raw);
  }

  /** canonicalize is a projection on exactly the stable values. */
  lemma ProjectionIffStable(lib: Library, kind: IndicatorType, value: string)
    requires Canonicalize(lib, kind, value).Some? && NoAddress(kind)
    ensures Projects(lib, kind, value) <==> Stable(lib, kind, Strip(value))
  {
    FixedIffStable(lib, kind, Strip(value), Canonicalize(lib, kind, value).value);
  }

  lemma BreaklessName(raw: string)
    requires '\n' !in raw
    ensures !EndsInBreak(NameText(raw))
  {
    RefangAddsNoBreak(raw);
  }

  /** On values without line breaks canonicalize is a projection for every kind that is not an address or a URL. */
  lemma ProjectionWithoutBreaks(lib: Library, kind: IndicatorType, value: string)
    requires Canonicalize(lib, kind, value).Some? && '\n' !in value
    requires NoAddress(kind) && !kind.Url?
    ensures Projects(lib, kind, value)
  {
    var raw := Strip(value);
    ProjectionIffStable(lib, kind, value);
    BreaklessName(raw);
    BreaklessName(raw[LastIndexOf(raw, '@') + 1..]);
  }

  /**
   * On ordinary URLs, with a scheme, a host, at most one colon in the netloc, and no brackets, parentheses
   * or white space after refanging, canonicalize succeeds and is a projection.
   */
  lemma OrdinaryUrlProjects(lib: Library, value: string)
    requires PlainUrls.Ordinary(Clean(Strip(value)))
    ensures Projects(lib, IndicatorType.Url, value)
  {
    var raw := Strip(value);
    RefangShape(raw);
    PlainUrls.OrdinaryIsStable(lib.brackets, raw);
    CanonicalOfUrl(lib, raw);
    ProjectionIffStable(lib, IndicatorType.Url, value);
  }
}
