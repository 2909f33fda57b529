/** The indicators that are built from values as feeds write them: id, type and value. */
module Building {
  import opened Sequences
  import opened Models
  import opened Text
  import opened Hashing
  import opened Identity
  import opened FirstPass
  import opened PlainUrls
  import S = Spellings
  import F = UrlFirstPass
  import Urls
  import Defanging

  /** What is built from a value whose canonical form is c: the name says type and value. */
  predicate BuiltAs(built: Option<Indicator>, name: string, kind: IndicatorType, c: string, fields: Indicator) {
    built == if 0 <= fields.confidence <= 100
      then Some(fields.(id := Uuid5(name + [':'] + c), kind := kind, value := c)) else None
  }

  lemma StableIsBuilt(lib: Library, kind: IndicatorType, value: string, c: string, fields: Indicator)
    requires Canonicalize(lib, kind, value) == Some(c) && Projects(lib, kind, value) && Trimmed(c)
    ensures BuiltAs(Build(lib, kind, value, fields), TypeName(kind), kind, c, fields)
  {
  }

  lemma SurroundedIsBuilt(lib: Library, kind: IndicatorType, lead: string, core: string, tail: string, c: string,
                          fields: Indicator)
    requires White(lead) && White(tail) && Trimmed(core) && Trimmed(c)
    requires Canonicalize(lib, kind, core) == Some(c) && Projects(lib, kind, core)
    ensures BuiltAs(Build(lib, kind, lead + core + tail, fields), TypeName(kind), kind, c, fields)
  {
    StripSurrounded(lead, core, tail);
    StrippedFirst(lib, kind, lead + core + tail);
    StableIsBuilt(lib, kind, lead + core + tail, c, fields);
  }

  /** A name of labels without line breaks is accepted, and its canonical form is a fixed point. */
  predicate ProperName(labels: seq<string>, dots: seq<string>, trailing: seq<string>) {
    && |labels| == |dots| + 1 && Ends(labels) && AllSimple(labels) && DotTexts(dots) && DotTexts(trailing)
    && AllLabels(labels) && Without(labels, '\n') && Without(labels, '@')
  }

  lemma {:induction false} JoinedHoldsNone(labels: seq<string>, c: char)
    requires labels != [] && Without(labels, c) && c != '.'
    ensures c !in Joined(labels)
  {
    if |labels| > 1 {
      assert Without(labels[1..], c);
      JoinedHoldsNone(labels[1..], c);
    }
  }

  lemma ProperResult(labels: seq<string>, dots: seq<string>, trailing: seq<string>)
    requires ProperName(labels, dots, trailing)
    ensures var d := Joined(LowerAll(labels)); CanonicalName(d) && Trimmed(d) && d != ""
    ensures '\n' !in Name(labels, dots) + Dots(trailing)
  {
    DomainFirstPass(labels, dots, trailing);
    DomainResult(Name(labels, dots) + Dots(trailing));
    var d := Joined(LowerAll(labels));
    NameIsTrimmed(d);
    JoinedLower(labels);
    JoinedHoldsNone(labels, '\n');
    LowerKeeps(Joined(labels), '\n');
    NameHoldsNone(labels, dots, '\n');
    DotsHoldNone(trailing, '\n');
  }

  /** However a domain name is written, it is named by its lower-case labels with plain dots in between. */
  lemma DomainIsBuilt(lib: Library, lead: string, tail: string,
                      labels: seq<string>, dots: seq<string>, trailing: seq<string>, fields: Indicator)
    requires ProperName(labels, dots, trailing) && White(lead) && White(tail)
    requires Trimmed(Name(labels, dots) + Dots(trailing))
    ensures BuiltAs(Build(lib, Domain, lead + (Name(labels, dots) + Dots(trailing)) + tail, fields),
                    "domain", Domain, Joined(LowerAll(labels)), fields)
  {
    var core := Name(labels, dots) + Dots(trailing);
    ProperResult(labels, dots, trailing);
    AtBothEnds(core);
    DomainValue(lib, "", "", labels, dots, trailing);
    ProjectionWithoutBreaks(lib, Domain, core);
    SurroundedIsBuilt(lib, Domain, lead, core, tail, Joined(LowerAll(labels)), fields);
  }

  lemma AtBothEnds(core: string)
    ensures "" + core + "" == core
  {
  }

  lemma AddressEnds(local: string, x: string, d: string)
    requires Trimmed(local + ['@'] + x) && Trimmed(d) && d != ""
    ensures Trimmed(Lower(local) + ['@'] + d)
  {
    var v, c := local + ['@'] + x, Lower(local) + ['@'] + d;
    assert c[0] == LowerChar(v[0]) && c[|c| - 1] == d[|d| - 1];
  }

  lemma AddressIsBuilt(lib: Library, lead: string, tail: string, core: string, c: string, fields: Indicator)
    requires White(lead) && White(tail) && Trimmed(core) && Trimmed(c) && '\n' !in core
    requires Canonicalize(lib, Email, core) == Some(c)
    ensures BuiltAs(Build(lib, Email, lead + core + tail, fields), "email", Email, c, fields)
  {
    ProjectionWithoutBreaks(lib, Email, core);
    SurroundedIsBuilt(lib, Email, lead, core, tail, c, fields);
  }

  /** An address is named by its local part in lower case and its domain like any other. */
  lemma MailIsBuilt(lib: Library, lead: string, tail: string, local: string,
                    labels: seq<string>, dots: seq<string>, trailing: seq<string>, fields: Indicator)
    requires ProperName(labels, dots, trailing) && White(lead) && White(tail) && '\n' !in local
    requires Trimmed(local + ['@'] + (Name(labels, dots) + Dots(trailing)))
    ensures BuiltAs(Build(lib, Email, lead + (local + ['@'] + (Name(labels, dots) + Dots(trailing))) + tail, fields),
                    "email", Email, Lower(local) + ['@'] + Joined(LowerAll(labels)), fields)
  {
    var name, d := Name(labels, dots) + Dots(trailing), Joined(LowerAll(labels));
    ProperResult(labels, dots, trailing);
    AtBothEnds(local + ['@'] + name);
    MailValue(lib, "", "", local, labels, dots, trailing);
    AddressEnds(local, name, d);
    AddressIsBuilt(lib, lead, tail, local + ['@'] + name, Lower(local) + ['@'] + d, fields);
  }

  /** A digest is named by its digits in lower case. */
  lemma DigestIsBuilt(lib: Library, kind: IndicatorType, lead: string, core: string, tail: string, fields: Indicator)
    requires White(lead) && White(tail) && Trimmed(core) && HexDigits(core)
    requires kind == Md5 || kind == Sha1 || kind == Sha256
    requires |core| == match kind case Md5 => 32 case Sha1 => 40 case _ => 64
    ensures BuiltAs(Build(lib, kind, lead + core + tail, fields),
                    match kind case Md5 => "md5" case Sha1 => "sha1" case _ => "sha256", kind, Lower(core), fields)
  {
    AtBothEnds(core);
    DigestValue(lib, kind, "", core, "");
    ProjectionIffStable(lib, kind, core);
    SurroundedIsBuilt(lib, kind, lead, core, tail, Lower(core), fields);
  }

  /** Any other text is named by itself in lower case. */
  lemma TextIsBuilt(lib: Library, kind: IndicatorType, lead: string, core: string, tail: string, fields: Indicator)
    requires White(lead) && White(tail) && Trimmed(core) && core != ""
    requires kind == FileName || kind == Mutex || kind == RegistryKey || kind == YaraRule
    ensures BuiltAs(Build(lib, kind, lead + core + tail, fields),
                    match kind case FileName => "file_name" case Mutex => "mutex"
                      case RegistryKey => "registry_key" case _ => "yara_rule",
                    kind, Lower(core), fields)
  {
    AtBothEnds(core);
    TextValue(lib, kind, "", core, "");
    ProjectionIffStable(lib, kind, core);
    SurroundedIsBuilt(lib, kind, lead, core, tail, Lower(core), fields);
  }

  // ---- URLs ----

  lemma PartsArePlain(front: string, scheme: string, u: F.Parts)
    requires Lower(front) == scheme && (scheme == "http" || scheme == "https") && F.Separated(u)
    requires AllPlain(F.AfterScheme(u))
    ensures AllPlain(front + ("://" + F.AfterScheme(u))) && HostAndPort(u.host + u.port)
  {
    F.SchemeLetters(front);
    F.PortLooks(u.port);
    assert forall i :: 0 <= i < |front| ==> Urls.IsSchemeChar(front[i]) && PlainChar(front[i]);
    assert AllPlain("://");
  }

  lemma PartsAreOrdinary(front: string, scheme: string, u: F.Parts)
    requires Lower(front) == scheme && (scheme == "http" || scheme == "https") && F.Separated(u)
    requires AllPlain(F.AfterScheme(u)) && Urls.NoBreaks(front + ("://" + F.AfterScheme(u)))
    ensures Ordinary(front + ("://" + F.AfterScheme(u)))
  {
    PartsArePlain(front, scheme, u);
    F.SchemeLetters(front);
    F.Dissected(front, u);
    Urls.UnbrokenText(front + ("://" + F.AfterScheme(u)));
  }

  lemma WrittenIsStable(lib: Library, ps: seq<S.Piece>, scheme: string, u: F.Parts)
    requires S.Words(ps) && S.Meant(ps) == F.PartsText(u) && Trimmed(S.Spelled(ps))
    requires F.Means(u.scheme, scheme) && F.Separated(u) && Quiet(F.AfterScheme(u)) && F.Unspaced(F.AfterScheme(u))
    requires AllPlain(F.AfterScheme(u))
    ensures Projects(lib, IndicatorType.Url, S.Spelled(ps))
  {
    var front := F.UrlRefanged(ps, scheme, u);
    F.FrontIsClean(front, scheme, F.AfterScheme(u));
    PartsAreOrdinary(front, scheme, u);
    OrdinaryUrlProjects(lib, S.Spelled(ps));
  }

  lemma StableUrlIsTrimmed(lib: Library, core: string, c: string)
    requires Projects(lib, IndicatorType.Url, core) && Canonicalize(lib, IndicatorType.Url, core) == Some(c)
    ensures Trimmed(c)
  {
    Defanging.StableUrlIsSettled(lib, core);
  }

  lemma StableUrlIsBuilt(lib: Library, lead: string, core: string, tail: string, c: string, fields: Indicator)
    requires White(lead) && White(tail) && Trimmed(core) && Projects(lib, IndicatorType.Url, core)
    requires Canonicalize(lib, IndicatorType.Url, core) == Some(c)
    ensures BuiltAs(Build(lib, IndicatorType.Url, lead + core + tail, fields), "url", IndicatorType.Url, c, fields)
  {
    StableUrlIsTrimmed(lib, core, c);
    SurroundedIsBuilt(lib, IndicatorType.Url, lead, core, tail, c, fields);
  }

  lemma SpelledUrl(lib: Library, ps: seq<S.Piece>, scheme: string, u: F.Parts)
    requires S.Words(ps) && S.Meant(ps) == F.PartsText(u) && Trimmed(S.Spelled(ps)) && S.Spelled(ps) != ""
    requires F.Means(u.scheme, scheme) && F.Separated(u) && Quiet(F.AfterScheme(u)) && F.Unspaced(F.AfterScheme(u))
    ensures Canonicalize(lib, IndicatorType.Url, S.Spelled(ps)) == Some(F.Result(scheme, u))
  {
    AtBothEnds(S.Spelled(ps));
    F.UrlValue(lib, "", ps, "", scheme, u);
  }

  /** A URL is named by its canonical text, however it was written. */
  lemma UrlIsBuilt(lib: Library, lead: string, ps: seq<S.Piece>, tail: string, scheme: string, u: F.Parts,
                   fields: Indicator)
    requires S.Words(ps) && S.Meant(ps) == F.PartsText(u) && Trimmed(S.Spelled(ps)) && S.Spelled(ps) != ""
    requires F.Means(u.scheme, scheme) && F.Separated(u) && Quiet(F.AfterScheme(u)) && F.Unspaced(F.AfterScheme(u))
    requires AllPlain(F.AfterScheme(u)) && White(lead) && White(tail)
    ensures BuiltAs(Build(lib, IndicatorType.Url, lead + S.Spelled(ps) + tail, fields),
                    "url", IndicatorType.Url, F.Result(scheme, u), fields)
  {
    WrittenIsStable(lib, ps, scheme, u);
    SpelledUrl(lib, ps, scheme, u);
    StableUrlIsBuilt(lib, lead, S.Spelled(ps), tail, F.Result(scheme, u), fields);
  }
}
