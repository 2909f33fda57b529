/**
 * URLs that refanging changes twice. The enricher does then what a second canonicalization does, and the id,
 * which comes from canonicalizing twice, is right although the value has been rewritten.
 */
module NestedTokens {
  import opened Sequences
  import opened Models
  import opened Text
  import opened Refanging
  import opened Urls
  import opened Hashing
  import opened Identity
  import opened Defanging

  lemma NothingFound(s: string, src: string, dst: string)
    requires |dst| < |src| && src[0] !in s
    ensures Replace(s, src, dst) == s
  {
    OccursNeeds(src, s, src[0]);
    ReplaceShape(s, src, dst);
  }

  lemma FoundOnce(head: string, src: string, dst: string, tail: string)
    requires |dst| < |src| && src[0] !in head && src[0] !in tail
    ensures Replace(head + (src + tail), src, dst) == head + (dst + tail)
  {
    var s := src + tail;
    assert src <= s && s[|src|..] == tail;
    NothingFound(tail, src, dst);
    ReplaceAfter(head, s, src, dst);
  }

  lemma StartsOtherwise(s: string, src: string, dst: string)
    requires |dst| < |src| && s != "" && src[0] !in s[1..] && !(src <= s)
    ensures Replace(s, src, dst) == s
  {
    NothingFound(s[1..], src, dst);
    assert s == [s[0]] + s[1..];
  }

  /** A text with the first character of src in one place, where src is not found. */
  lemma NotFound(head: string, s: string, src: string, dst: string)
    requires |dst| < |src| && src[0] !in head && s != "" && src[0] !in s[1..] && !(src <= s)
    ensures Replace(head + s, src, dst) == head + s
  {
    StartsOtherwise(s, src, dst);
    ReplaceAfter(head, s, src, dst);
  }

  /** The first pass of refanging makes a token that it has already looked for. */
  lemma NestedToken(head: string, tail: string)
    requires Unbracketed(head) && Unbracketed(tail) && |tail| == 1
    ensures Replaced(head + ("[(.)]" + tail), |TOKENS|) == head + ("[.]" + tail)
    ensures Replaced(head + ("[.]" + tail), |TOKENS|) == head + ("." + tail)
  {
    NestedReplaced(head, tail);
    LooseReplaced(head, tail);
  }

  lemma NestedOnce(s: string, head: string, tail: string)
    requires Unbracketed(head) && Unbracketed(tail) && s == head + ("[(.)]" + tail)
    ensures Replaced(s, 1) == s
  {
    assert ("[(.)]" + tail)[1] == '(';
    NotFound(head, "[(.)]" + tail, "[.]", ".");
    assert Replaced(s, 0) == s;
  }

  lemma NestedTwice(s: string, head: string, tail: string)
    requires '(' !in head && '(' !in tail && s == head + ("[(.)]" + tail)
    ensures Replace(s, "(.)", ".") == head + ("[.]" + tail)
  {
    assert s == (head + "[") + ("(.)" + ("]" + tail));
    assert head + ("[.]" + tail) == (head + "[") + ("." + ("]" + tail));
    FoundOnce(head + "[", "(.)", ".", "]" + tail);
  }

  lemma NestedReplaced(head: string, tail: string)
    requires Unbracketed(head) && Unbracketed(tail) && |tail| == 1
    ensures Replaced(head + ("[(.)]" + tail), |TOKENS|) == head + ("[.]" + tail)
  {
    var s, t := head + ("[(.)]" + tail), head + ("[.]" + tail);
    NestedOnce(s, head, tail);
    NestedTwice(s, head, tail);
    RestOfTokens(head, tail);
    assert Replaced(s, 2) == t;
    assert Replaced(s, 3) == t && Replaced(s, 4) == t && Replaced(s, 5) == t;
  }

  lemma RestOfTokens(head: string, tail: string)
    requires Unbracketed(head) && Unbracketed(tail) && |tail| == 1
    ensures var t := head + ("[.]" + tail);
      Replace(t, "[:]", ":") == t && Replace(t, "[at]", "@") == t && Replace(t, "[://]", "://") == t
  {
    var s := "[.]" + tail;
    assert s[1] == '.';
    NotFound(head, s, "[:]", ":");
    NotFound(head, s, "[at]", "@");
    NotFound(head, s, "[://]", "://");
  }

  lemma LooseReplaced(head: string, tail: string)
    requires Unbracketed(head) && Unbracketed(tail)
    ensures Replaced(head + ("[.]" + tail), |TOKENS|) == head + ("." + tail)
  {
    var s, t := head + ("[.]" + tail), head + ("." + tail);
    FoundOnce(head, "[.]", ".", tail);
    assert Replaced(s, 0) == s && Replaced(s, 1) == t;
    NoTokenLeft(t);
    assert Replaced(s, 2) == t && Replaced(s, 3) == t && Replaced(s, 4) == t && Replaced(s, 5) == t;
  }

  lemma NoTokenLeft(t: string)
    requires Unbracketed(t)
    ensures Replace(t, "(.)", ".") == t && Replace(t, "[:]", ":") == t && Replace(t, "[at]", "@") == t
    ensures Replace(t, "[://]", "://") == t
  {
    NothingFound(t, "(.)", ".");
    NothingFound(t, "[:]", ":");
    NothingFound(t, "[at]", "@");
    NothingFound(t, "[://]", "://");
  }

  /** The text of a URL with this path. */
  function AtPath(path: string): string { "http://a" + path }

  lemma PathLands(check: BracketCheck, path: string)
    requires path != "" && path[0] == '/' && PlainTail(path) && ';' !in path
    ensures LandsOn(check, AtPath(path), AtPath(path))
  {
    var p := Urls.Url.Url("http", "a", path, "", "");
    PathIsCanonical(path);
    DefaultPortGoes("http", "a");
    if EndsWith("a", ":80") { EndHolds("a", ":80", ':'); }
    SecondPass(check, p);
  }

  lemma PathIsCanonical(path: string)
    requires path != "" && path[0] == '/' && PlainTail(path) && ';' !in path
    ensures var p := Urls.Url.Url("http", "a", path, "", ""); Canonical(p) && Unparse(p) == AtPath(path)
  {
    var p := Urls.Url.Url("http", "a", path, "", "");
    LastSegmentIsSlash(path);
    assert TailText(p) == path;
    PlainIsCanonical("a");
  }

  /** Cleaning a text without x whose tokens have been replaced. */
  lemma CleanedTo(raw: string, path: string)
    requires Replaced(raw, |TOKENS|) == AtPath(path) && path != "" && path[|path| - 1] == '/'
    requires 'x' !in path && 'X' !in path
    ensures Urls.Clean(raw) == AtPath(path)
  {
    NoXNoHxxp(AtPath(path), false);
    SubHxxpShape(AtPath(path), false);
  }

  lemma PassTo(lib: Library, raw: string, path: string)
    requires Replaced(raw, |TOKENS|) == AtPath(path) && path != "" && path[0] == '/' && path[|path| - 1] == '/'
    requires PlainTail(path) && ';' !in path && 'x' !in path && 'X' !in path && Trimmed(raw) && raw != ""
    ensures Canonicalize(lib, IndicatorType.Url, raw) == Some(AtPath(path))
  {
    CleanedTo(raw, path);
    PathLands(lib.brackets, path);
    CanonicalUrlLands(lib.brackets, raw, AtPath(path));
    CanonicalOfUrl(lib, raw);
  }

  // ---- Canonicalizing twice does what the enricher does ----

  lemma TextsAsWritten(head: string, tail: string)
    requires head == "http://a/" && tail == "/"
    ensures head + ("[(.)]" + tail) == "http://a/[(.)]/"
    ensures head + ("[.]" + tail) == AtPath("/[.]/") && head + ("." + tail) == AtPath("/./")
    ensures Unbracketed(head) && Unbracketed(tail) && 'x' !in head && 'X' !in head && 'x' !in tail && 'X' !in tail
  {
  }

  lemma UnbracketedStays(s: string)
    requires Unbracketed(s)
    ensures Replaced(s, |TOKENS|) == s
  {
    NoBracketNoToken(s, |TOKENS|);
    ReplacedShape(s, |TOKENS|);
  }

  lemma PathsArePlain()
    ensures PlainTail("/[.]/") && PlainTail("/./") && ';' !in "/[.]/" && ';' !in "/./"
    ensures 'x' !in "/[.]/" && 'X' !in "/[.]/" && 'x' !in "/./" && 'X' !in "/./"
  {
  }

  /** The first two passes change the URL, and the third does not. */
  lemma ThreePasses(lib: Library, head: string, tail: string) returns (raw: string, once: string, twice: string)
    requires head == "http://a/" && tail == "/"
    ensures raw == head + ("[(.)]" + tail) && once == head + ("[.]" + tail) && twice == head + ("." + tail)
    ensures Trimmed(once) && Trimmed(twice) && once != "" && twice != ""
    ensures Canonicalize(lib, IndicatorType.Url, raw) == Some(once)
    ensures Canonicalize(lib, IndicatorType.Url, once) == Some(twice)
    ensures Canonicalize(lib, IndicatorType.Url, twice) == Some(twice)
  {
    raw, once, twice := head + ("[(.)]" + tail), head + ("[.]" + tail), head + ("." + tail);
    TextsAsWritten(head, tail);
    NestedToken(head, tail);
    UnbracketedStays(twice);
    PathsArePlain();
    PassTo(lib, raw, "/[.]/");
    PassTo(lib, once, "/./");
    PassTo(lib, twice, "/./");
  }

  lemma RewrittenToo(once: string, head: string, tail: string)
    requires head == "http://a/" && tail == "/" && once == head + ("[.]" + tail)
    ensures Rewritten(once) == head + ("." + tail)
  {
    TextsAsWritten(head, tail);
    TokenReplaced(head, "[.]", tail, 0);
    assert Replacements(once, 0) == once && Replacements(once, 1) == head + ("." + tail);
    RestIsKept(once, 1);
    NothingElse(head + ("." + tail));
  }

  /** A built URL that holds a pattern, and whose id is right all the same after it has been rewritten. */
  lemma RewrittenButNamed(lib: Library, fields: Indicator) returns (raw: string)
    requires 0 <= fields.confidence <= 100
    ensures raw == "http://a/[(.)]/" && Build(lib, IndicatorType.Url, raw, fields).Some?
    ensures var ind := Build(lib, IndicatorType.Url, raw, fields).value;
      HoldsPattern(ind.value) && Enrich(ind).indicator.value != ind.value && Named(lib, Enrich(ind).indicator)
    ensures !Projects(lib, IndicatorType.Url, raw)
  {
    var head: string, tail: string :| head == "http://a/" && tail == "/";
    var once: string, twice: string;
    raw, once, twice := ThreePasses(lib, head, tail);
    TextsAsWritten(head, tail);
    RewrittenToo(once, head, tail);
    assert |once| != |twice|;
    RewrittenIffHoldsPattern(once);
  }
}
