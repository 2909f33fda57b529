/**
 * URL canonicalization. Splitting and joining follow urllib.parse of Python 3.12.4 and later on
 * ASCII text; its check of a bracketed host is a parameter.
 */
module Urls {
  import opened Sequences
  import opened Text
  import opened Refanging

  datatype Url = Url(scheme: string, netloc: string, path: string, params: string, query: string)

  /** Is this netloc, which holds both brackets, accepted as an IP literal? */
  type BracketCheck = string -> bool

  // ---- Splitting ----

  /** Schemes whose last path segment may carry `;params`. */
  const USES_PARAMS: set<string> :=
    {"", "ftp", "hdl", "prospero", "http", "https", "shttp", "rtsp", "rtsps", "sip", "sips", "mms", "sftp", "tel"}

  predicate IsSchemeChar(c: char) { IsAlnum(c) || c == '+' || c == '-' || c == '.' }

  predicate IsBreak(c: char) { c == '\t' || c == '\r' || c == '\n' }

  predicate NoBreaks(s: string) { '\t' !in s && '\r' !in s && '\n' !in s }

  /** The first position from i on that holds neither a control character nor a space. */
  function FirstPrintable(s: string, i: nat): (k: nat)
    requires i <= |s|
    ensures i <= k <= |s|
    decreases |s| - i
  {
    if i < |s| && s[i] <= ' ' then FirstPrintable(s, i + 1) else i
  }

  function DropControls(s: string): string { s[FirstPrintable(s, 0)..] }

  /** The first n characters without tabs and line breaks. */
  function WithoutBreaks(s: string, n: nat): (r: string)
    requires n <= |s|
    ensures |r| <= n
  {
    if n == 0 then "" else WithoutBreaks(s, n - 1) + if IsBreak(s[n - 1]) then "" else [s[n - 1]]
  }

  function Unbroken(s: string): string {
    var t := DropControls(s);
    WithoutBreaks(t, |t|)
  }

  lemma {:induction false} WithoutBreaksShape(s: string, n: nat)
    requires n <= |s|
    ensures NoBreaks(WithoutBreaks(s, n))
    ensures NoBreaks(s) || |WithoutBreaks(s, n)| == n ==> WithoutBreaks(s, n) == s[..n]
  {
    if n > 0 {
      WithoutBreaksShape(s, n - 1);
    }
  }

  lemma UnbrokenText(s: string)
    ensures NoBreaks(Unbroken(s)) && |Unbroken(s)| <= |s| && (|Unbroken(s)| == |s| ==> Unbroken(s) == s)
    ensures s != "" && IsAlpha(s[0]) && NoBreaks(s) ==> Unbroken(s) == s
  {
    var t := DropControls(s);
    WithoutBreaksShape(t, |t|);
    assert t[..|t|] == t;
  }

  /** The length of the scheme, 0 if there is none. */
  function SchemeLength(u: string): (n: nat)
    ensures n > 0 ==> n < |u|
  {
    var i := IndexOf(u, ':');
    if 0 < i < |u| && IsAlpha(u[0]) && forall k :: 0 <= k < i ==> IsSchemeChar(u[k]) then i else 0
  }

  predicate EndsNetloc(c: char) { c == '/' || c == '?' || c == '#' }

  predicate NetlocText(s: string) { '/' !in s && '?' !in s && '#' !in s }

  function NetlocEnd(s: string, i: nat): (n: nat)
    requires i <= |s|
    ensures i <= n <= |s|
    decreases |s| - i
  {
    if i < |s| && !EndsNetloc(s[i]) then NetlocEnd(s, i + 1) else i
  }

  lemma {:induction false} NetlocEndIsFirst(s: string, i: nat)
    requires i <= |s|
    ensures forall j :: i <= j < NetlocEnd(s, i) ==> !EndsNetloc(s[j])
    ensures NetlocEnd(s, i) < |s| ==> EndsNetloc(s[NetlocEnd(s, i)])
    decreases |s| - i
  {
    if i < |s| && !EndsNetloc(s[i]) {
      NetlocEndIsFirst(s, i + 1);
    }
  }

  predicate BracketsAllowed(check: BracketCheck, netloc: string) {
    ('[' in netloc <==> ']' in netloc) && ('[' in netloc ==> check(netloc))
  }

  /** Where the last segment of a path begins. */
  function LastSegment(path: string): (i: nat)
    ensures i <= |path|
  {
    Max(LastIndexOf(path, '/'), 0)
  }

  function SplitParams(scheme: string, path: string): (string, string) {
    var i := IndexFrom(path, ';', LastSegment(path));
    if scheme in USES_PARAMS && i < |path| then (path[..i], path[i + 1..]) else (path, "")
  }

  /** What follows the netloc; the fragment is dropped. */
  function SplitTail(scheme: string, netloc: string, rest: string): Url {
    var found := Partition(Partition(rest, '#').0, '?');
    var last := SplitParams(scheme, found.0);
    Url(scheme, netloc, last.0, last.1, found.1)
  }

  /** The netloc that a double slash introduces, and what follows it. */
  function Authority(after: string): (string, string) {
    if |after| >= 2 && after[0] == '/' && after[1] == '/' then
      var e := NetlocEnd(after, 2);
      (after[2..e], after[e..])
    else ("", after)
  }

  /** Scheme, netloc and the rest, as written. */
  datatype Pieces = Pieces(scheme: string, netloc: string, rest: string)

  function Dissect(u: string): Pieces {
    var n := SchemeLength(u);
    var split := Authority(if n > 0 then u[n + 1..] else u);
    Pieces(u[..n], split.0, split.1)
  }

  function ParseUrl(check: BracketCheck, text: string): Option<Url> {
    var d := Dissect(Unbroken(text));
    if BracketsAllowed(check, d.netloc) then Some(SplitTail(Lower(d.scheme), d.netloc, d.rest)) else None
  }

  // ---- Joining and canonicalizing ----

  function TailText(p: Url): string {
    p.path + (if p.params == "" then "" else ";" + p.params) + if p.query == "" then "" else "?" + p.query
  }

  function Unparse(p: Url): string {
    p.scheme + "://" + p.netloc + TailText(p)
  }

  predicate HasDefaultPort(scheme: string, netloc: string) {
    (scheme == "http" && EndsWith(netloc, ":80")) || (scheme == "https" && EndsWith(netloc, ":443"))
  }

  function WithoutDefaultPort(scheme: string, netloc: string): (r: string)
    ensures r <= netloc
  {
    var k := LastIndexOf(netloc, ':');
    if HasDefaultPort(scheme, netloc) && k >= 0 then netloc[..k] else netloc
  }

  lemma DefaultPortGoes(scheme: string, netloc: string)
    ensures WithoutDefaultPort(scheme, netloc) == netloc <==> !HasDefaultPort(scheme, netloc)
  {
    LastIndexOfIsLast(netloc, ':');
    if HasDefaultPort(scheme, netloc) {
      EndHolds(netloc, if scheme == "http" then ":80" else ":443", ':');
    }
  }

  function Normal(p: Url): Url {
    p.(netloc := WithoutDefaultPort(p.scheme, Lower(p.netloc)), path := if p.path == "" then "/" else p.path)
  }

  /** The parts of the canonical URL, or nothing when the text is no URL. */
  function UrlParts(check: BracketCheck, text: string): Option<Url> {
    var p := ParseUrl(check, text);
    if p.None? || p.value.scheme == "" || p.value.netloc == "" then None else Some(Normal(p.value))
  }

  function Clean(value: string): string { Strip(Refang(value)) }

  function CanonicalUrl(check: BracketCheck, value: string): Option<string> {
    var p := UrlParts(check, Clean(value));
    if p.Some? then Some(Unparse(p.value)) else None
  }

  // ---- The form every canonical URL has ----

  predicate PlainTail(s: string) {
    '?' !in s && '#' !in s && NoBreaks(s)
  }

  predicate Canonical(p: Url) { CanonicalHost(p) && CanonicalTail(p) }

  predicate CanonicalHost(p: Url) {
    && p.scheme != "" && IsAlpha(p.scheme[0]) && Lower(p.scheme) == p.scheme
    && (forall k :: 0 <= k < |p.scheme| ==> IsSchemeChar(p.scheme[k]))
    && NetlocText(p.netloc) && NoBreaks(p.netloc) && Lower(p.netloc) == p.netloc
  }

  predicate CanonicalTail(p: Url) {
    && p.path != "" && p.path[0] == '/' && PlainTail(p.path) && PlainTail(p.params)
    && (p.params != "" ==> p.scheme in USES_PARAMS && '/' !in p.params)
    && (p.scheme in USES_PARAMS ==> ';' !in p.path[LastSegment(p.path)..])
    && '#' !in p.query && NoBreaks(p.query)
  }

  /** Where the last segment of a path begins with its slash. */
  lemma LastSegmentIsSlash(path: string)
    requires path != "" && path[0] == '/'
    ensures LastSegment(path) == LastIndexOf(path, '/') < |path| && path[LastSegment(path)] == '/'
  {
    LastIndexOfIsLast(path, '/');
    assert path[0] in path;
  }

  lemma ParamsShape(scheme: string, path: string)
    requires path == "" || path[0] == '/'
    ensures var r := SplitParams(scheme, path);
      && (r.0 == "" <==> path == "") && r.0 <= path
      && (r == (path, "") || path == r.0 + ";" + r.1)
  {
    if path != "" {
      LastSegmentIsSlash(path);
      var i := IndexFrom(path, ';', LastSegment(path));
      IndexFromIsFirst(path, ';', LastSegment(path));
      if i < |path| {
        assert path == path[..i] + [path[i]] + path[i + 1..];
      }
    }
  }

  /** A text cut in two at a mark, and joined again only if the second part is not empty. */
  lemma JoinShape(a: string, mark: string, b: string, s: string, j: string)
    requires |mark| == 1
    requires (b == "" && a == s) || s == a + mark + b
    requires j == a + if b == "" then "" else mark + b
    ensures |j| <= |s| && (|j| == |s| ==> j == s)
  {
  }

  /** The tail of a URL as cut: nothing is invented, and it is the whole text if it is as long as the text. */
  lemma TailShape(scheme: string, netloc: string, rest: string)
    requires rest == "" || EndsNetloc(rest[0])
    ensures var p := SplitTail(scheme, netloc, rest);
      && (p.path == "" || p.path[0] == '/')
      && (p.path == "" ==> p.params == "" && (rest == "" || rest[0] != '/'))
      && |TailText(p)| <= |rest| && (|TailText(p)| == |rest| ==> TailText(p) == rest)
  {
    var p := SplitTail(scheme, netloc, rest);
    var f := Partition(rest, '#').0;
    var found := Partition(f, '?');
    PartitionShape(rest, '#');
    PartitionShape(f, '?');
    assert f <= rest && found.0 <= f;
    ParamsShape(scheme, found.0);
    var local := p.path + if p.params == "" then "" else ";" + p.params;
    JoinShape(p.path, ";", p.params, found.0, local);
    assert TailText(p) == local + if p.query == "" then "" else "?" + p.query;
    JoinShape(found.0, "?", p.query, f, found.0 + if p.query == "" then "" else "?" + p.query);
  }

  lemma SchemeShape(u: string)
    requires SchemeLength(u) > 0
    ensures u[SchemeLength(u)] == ':' && IsAlpha(u[0])
    ensures forall k :: 0 <= k < SchemeLength(u) ==> IsSchemeChar(u[k])
  {
    IndexOfIsFirst(u, ':');
  }

  lemma AuthorityShape(after: string)
    requires Authority(after).0 != ""
    ensures var a := Authority(after);
      && after == "//" + a.0 + a.1
      && NetlocText(a.0) && (a.1 == "" || EndsNetloc(a.1[0]))
  {
    NetlocEndIsFirst(after, 2);
    var e := NetlocEnd(after, 2);
    assert after == after[..2] + after[2..e] + after[e..];
  }

  /** The pieces of a text that has both a scheme and a netloc. */
  lemma DissectShape(u: string)
    requires Dissect(u).scheme != "" && Dissect(u).netloc != ""
    ensures u == Dissect(u).scheme + "://" + Dissect(u).netloc + Dissect(u).rest
    ensures IsAlpha(Dissect(u).scheme[0])
    ensures forall k :: 0 <= k < |Dissect(u).scheme| ==> IsSchemeChar(Dissect(u).scheme[k])
    ensures NetlocText(Dissect(u).netloc) && (Dissect(u).rest == "" || EndsNetloc(Dissect(u).rest[0]))
  {
    var n := SchemeLength(u);
    SchemeShape(u);
    AuthorityShape(u[n + 1..]);
    var a := Authority(u[n + 1..]);
    Rejoined(u, n, a.0, a.1);
  }

  lemma Rejoined(u: string, n: nat, netloc: string, rest: string)
    requires n < |u| && u[n] == ':' && u[n + 1..] == "//" + netloc + rest
    ensures u == u[..n] + "://" + netloc + rest
  {
    assert u == u[..n] + [u[n]] + u[n + 1..];
  }

  /**
   * What canonicalizing does to the length: at most the slash of an empty path is added. If the length
   * stays the same, then only case has changed, or else a slash has moved.
   */
  lemma OutputLength(d: Pieces, netloc: string, slash: string, tail: string, u: string, r: string)
    requires u == d.scheme + "://" + d.netloc + d.rest && r == Lower(d.scheme) + "://" + netloc + slash + tail
    requires netloc <= Lower(d.netloc) && NetlocText(d.netloc)
    requires |tail| <= |d.rest| && (|tail| == |d.rest| ==> tail == d.rest)
    requires slash == "" || (slash == "/" && (d.rest == "" || d.rest[0] != '/'))
    ensures |r| <= |u| + 1
    ensures |r| == |u| + 1 ==> r[|r| - 1] == '/' || r[|r| - 1] == u[|u| - 1]
    ensures |r| == |u| ==> CaseChanged(u, r) || SlashMoved(u, r)
  {
    if |r| == |u| && slash == "/" {
      var k := |d.scheme| + 3 + |netloc|;
      assert r[k] == '/';
      if |netloc| < |d.netloc| { assert u[k] == d.netloc[|netloc|]; }
      assert SlashMoved(u, r);
    } else if |r| == |u| {
      assert tail == d.rest && netloc == Lower(d.netloc);
    }
  }

  predicate CaseChanged(u: string, r: string) {
    |u| == |r| && forall k :: 0 <= k < |r| ==> r[k] == u[k] || r[k] == LowerChar(u[k])
  }

  predicate SlashMoved(u: string, r: string) {
    |u| == |r| && exists k :: 0 <= k < |r| && r[k] == '/' && u[k] != '/'
  }

  lemma SlashAdded(p: Url)
    requires p.path == "" ==> p.params == ""
    ensures Unparse(Normal(p)) ==
      p.scheme + "://" + Normal(p).netloc + (if p.path == "" then "/" else "") + TailText(p)
  {
    if p.path == "" {
      assert TailText(Normal(p)) == "/" + TailText(p);
    }
  }

  lemma OutputShape(check: BracketCheck, text: string)
    requires UrlParts(check, text).Some?
    ensures var u, r := Unbroken(text), Unparse(UrlParts(check, text).value);
      && |r| <= |u| + 1
      && (|r| == |u| + 1 ==> r[|r| - 1] == '/' || r[|r| - 1] == u[|u| - 1])
      && (|r| == |u| ==> CaseChanged(u, r) || SlashMoved(u, r))
  {
    var u := Unbroken(text);
    DissectShape(u);
    var d, p := Dissect(u), ParseUrl(check, text).value;
    TailShape(p.scheme, p.netloc, d.rest);
    SlashAdded(p);
    OutputLength(d, Normal(p).netloc, if p.path == "" then "/" else "", TailText(p), u, Unparse(Normal(p)));
  }

  // ---- Every canonical URL is in canonical form ----

  lemma ParamsPlain(scheme: string, path: string)
    requires path != "" && path[0] == '/'
    ensures var r := SplitParams(scheme, path);
      && (r.1 != "" ==> scheme in USES_PARAMS && '/' !in r.1)
      && (scheme in USES_PARAMS ==> ';' !in r.0[LastSegment(r.0)..])
  {
    LastSegmentIsSlash(path);
    LastIndexOfIsLast(path, '/');
    var from := LastSegment(path);
    var i := IndexFrom(path, ';', from);
    IndexFromIsFirst(path, ';', from);
    if i < |path| {
      SameLastSegment(path, i);
      assert path[i + 1..] == path[from + 1..][i - from..];
    }
  }

  /** Cutting a path after its last slash keeps its last segment where it was. */
  lemma SameLastSegment(path: string, i: nat)
    requires 0 <= LastIndexOf(path, '/') < i <= |path|
    ensures LastSegment(path[..i]) == LastSegment(path)
  {
    var k := LastIndexOf(path, '/');
    var b := path[k + 1..][..i - k - 1];
    LastIndexOfIsLast(path, '/');
    LastIndexOfLast(path[..k], '/', b);
    CutAgain(path, k, i);
  }

  lemma CutAgain(s: string, k: nat, i: nat)
    requires k < i <= |s|
    ensures s[..i] == s[..k] + [s[k]] + s[k + 1..][..i - k - 1]
  {
  }

  lemma SomePiece(scheme: string, path: string, c: char)
    requires c !in path
    ensures c !in SplitParams(scheme, path).0 && c !in SplitParams(scheme, path).1
  {
  }

  lemma TailIsPlain(scheme: string, netloc: string, rest: string)
    requires NoBreaks(rest)
    ensures var p := SplitTail(scheme, netloc, rest);
      && PlainTail(p.path) && PlainTail(p.params) && '#' !in p.query && NoBreaks(p.query)
  {
    var f := Partition(rest, '#').0;
    var path := Partition(f, '?').0;
    PartitionShape(rest, '#');
    PartitionShape(f, '?');
    SomePiece(scheme, path, '?');
    SomePiece(scheme, path, '#');
    SomePiece(scheme, path, '\t');
    SomePiece(scheme, path, '\r');
    SomePiece(scheme, path, '\n');
  }

  lemma CanonicalForm(check: BracketCheck, text: string)
    requires UrlParts(check, text).Some?
    ensures Canonical(UrlParts(check, text).value)
  {
    var u := Unbroken(text);
    UnbrokenText(text);
    DissectShape(u);
    PiecesAreCanonical(Dissect(u));
  }

  lemma PiecesAreCanonical(d: Pieces)
    requires d.scheme != "" && IsAlpha(d.scheme[0]) && forall k :: 0 <= k < |d.scheme| ==> IsSchemeChar(d.scheme[k])
    requires NetlocText(d.netloc) && (d.rest == "" || EndsNetloc(d.rest[0]))
    requires NoBreaks(d.netloc) && NoBreaks(d.rest)
    ensures Canonical(Normal(SplitTail(Lower(d.scheme), d.netloc, d.rest)))
  {
    NetlocStays(Lower(d.scheme), d.netloc);
    CanonicalTailOf(Lower(d.scheme), d.netloc, d.rest);
  }

  lemma CanonicalTailOf(scheme: string, netloc: string, rest: string)
    requires (rest == "" || EndsNetloc(rest[0])) && NoBreaks(rest)
    ensures CanonicalTail(Normal(SplitTail(scheme, netloc, rest)))
  {
    var p := SplitTail(scheme, netloc, rest);
    TailShape(scheme, netloc, rest);
    TailIsPlain(scheme, netloc, rest);
    if p.path == "" {
      assert Normal(p).path == "/";
      LastSegmentIsSlash("/");
    } else {
      TailPath(rest);
      ParamsPlain(scheme, Partition(Partition(rest, '#').0, '?').0);
    }
  }

  lemma TailPath(rest: string)
    requires rest == "" || EndsNetloc(rest[0])
    ensures var path := Partition(Partition(rest, '#').0, '?').0; path == "" || path[0] == '/'
  {
    PartitionShape(rest, '#');
    PartitionShape(Partition(rest, '#').0, '?');
  }

  lemma NetlocStays(scheme: string, netloc: string)
    requires NetlocText(netloc) && NoBreaks(netloc)
    ensures var r := WithoutDefaultPort(scheme, Lower(netloc)); NetlocText(r) && NoBreaks(r) && Lower(r) == r
  {
    LowerKeeps(netloc, '/');
    LowerKeeps(netloc, '?');
    LowerKeeps(netloc, '#');
    LowerKeeps(netloc, '\t');
    LowerKeeps(netloc, '\r');
    LowerKeeps(netloc, '\n');
  }

  // ---- Reading a canonical URL back ----

  lemma NotEnded(s: string, netloc: string, rest: string)
    requires NetlocText(netloc) && s == "//" + netloc + rest
    ensures forall j :: 2 <= j < |netloc| + 2 ==> !EndsNetloc(s[j])
  {
    assert forall j :: 2 <= j < |netloc| + 2 ==> s[j] == netloc[j - 2];
  }

  lemma NetlocEndAt(netloc: string, rest: string)
    requires NetlocText(netloc) && (rest == "" || EndsNetloc(rest[0]))
    ensures NetlocEnd("//" + netloc + rest, 2) == |netloc| + 2
  {
    var s := "//" + netloc + rest;
    NotEnded(s, netloc, rest);
    NetlocEndIsFirst(s, 2);
    assert rest != "" ==> s[|netloc| + 2] == rest[0];
  }

  lemma SchemeLengthAt(scheme: string, after: string)
    requires scheme != "" && IsAlpha(scheme[0]) && forall k :: 0 <= k < |scheme| ==> IsSchemeChar(scheme[k])
    ensures SchemeLength(scheme + [':'] + after) == |scheme|
  {
    var u := scheme + [':'] + after;
    IndexOfFirst(scheme, ':', after);
    assert forall k :: 0 <= k < |scheme| ==> u[k] == scheme[k];
  }

  lemma DissectCanonical(scheme: string, netloc: string, rest: string)
    requires scheme != "" && IsAlpha(scheme[0]) && forall k :: 0 <= k < |scheme| ==> IsSchemeChar(scheme[k])
    requires NetlocText(netloc) && (rest == "" || EndsNetloc(rest[0]))
    ensures Dissect(scheme + "://" + netloc + rest) == Pieces(scheme, netloc, rest)
  {
    var after := "//" + netloc + rest;
    Reassociate(scheme, netloc, rest);
    SchemeLengthAt(scheme, after);
    AuthorityAt(netloc, rest);
    CutAt(scheme, ':', after);
  }

  lemma Reassociate(scheme: string, netloc: string, rest: string)
    ensures scheme + "://" + netloc + rest == scheme + [':'] + ("//" + netloc + rest)
  {
  }

  lemma AuthorityAt(netloc: string, rest: string)
    requires NetlocText(netloc) && (rest == "" || EndsNetloc(rest[0]))
    ensures Authority("//" + netloc + rest) == (netloc, rest)
  {
    var after := "//" + netloc + rest;
    NetlocEndAt(netloc, rest);
    assert after[2..2 + |netloc|] == netloc && after[2 + |netloc|..] == rest;
  }

  lemma ParamsBack(scheme: string, path: string, params: string)
    requires path != "" && path[0] == '/' && '/' !in params
    requires params != "" ==> scheme in USES_PARAMS
    requires scheme in USES_PARAMS ==> ';' !in path[LastSegment(path)..]
    ensures SplitParams(scheme, path + if params == "" then "" else ";" + params) == (path, params)
  {
    var from := LastSegment(path);
    LastSegmentIsSlash(path);
    if params == "" {
      assert path + "" == path;
      IndexFromIsFirst(path, ';', from);
    } else {
      var whole := path + [';'] + params;
      assert path + (";" + params) == whole;
      SlashStays(path, params);
      SemicolonAt(path, params, from);
      CutAt(path, ';', params);
    }
  }

  lemma SlashStays(path: string, params: string)
    requires path != "" && path[0] == '/' && '/' !in params
    ensures LastSegment(path + [';'] + params) == LastSegment(path)
  {
    LastSegmentIsSlash(path);
    LastIndexOfIsLast(path, '/');
    var from := LastSegment(path);
    assert path == path[..from] + ['/'] + path[from + 1..];
    assert path + [';'] + params == path[..from] + ['/'] + (path[from + 1..] + [';'] + params);
    LastIndexOfLast(path[..from], '/', path[from + 1..] + [';'] + params);
  }

  lemma SemicolonAt(path: string, params: string, from: nat)
    requires from <= |path| && ';' !in path[from..]
    ensures IndexFrom(path + [';'] + params, ';', from) == |path|
  {
    var whole := path + [';'] + params;
    IndexFromIsFirst(whole, ';', from);
    assert whole[|path|] == ';';
    assert forall j :: from <= j < |path| ==> whole[j] == path[from..][j - from];
  }

  lemma TailBack(p: Url)
    requires Canonical(p)
    ensures SplitTail(p.scheme, p.netloc, TailText(p)) == p
  {
    var local := p.path + if p.params == "" then "" else ";" + p.params;
    assert '?' !in local && '#' !in local;
    assert '#' !in TailText(p);
    PartitionNone(TailText(p), '#');
    if p.query == "" {
      assert TailText(p) == local;
      PartitionNone(local, '?');
    } else {
      assert TailText(p) == local + ['?'] + p.query;
      PartitionAt(local, '?', p.query);
    }
    ParamsBack(p.scheme, p.path, p.params);
  }

  lemma UnbrokenBack(p: Url)
    requires Canonical(p)
    ensures Unbroken(Unparse(p)) == Unparse(p)
  {
    assert Unparse(p)[0] == p.scheme[0];
    assert NoBreaks(p.scheme) && NoBreaks(TailText(p));
    UnbrokenText(Unparse(p));
  }

  /** Parsing is the inverse of joining on canonical parts. */
  lemma Reparse(check: BracketCheck, p: Url)
    requires Canonical(p)
    ensures ParseUrl(check, Unparse(p)) == if BracketsAllowed(check, p.netloc) then Some(p) else None
  {
    UnbrokenBack(p);
    assert TailText(p)[0] == p.path[0];
    DissectCanonical(p.scheme, p.netloc, TailText(p));
    TailBack(p);
  }

  // ---- When canonicalizing again changes nothing ----

  /**
   * Canonicalizing the result again accepts it and leaves it alone: there is still a host, the default
   * port has not come back, brackets in the host are accepted, and the text holds nothing to refang or strip.
   */
  predicate Settled(check: BracketCheck, p: Url) {
    HostSettled(check, p) && TextSettled(Unparse(p))
  }

  predicate HostSettled(check: BracketCheck, p: Url) {
    p.netloc != "" && BracketsAllowed(check, p.netloc) && !HasDefaultPort(p.scheme, p.netloc)
  }

  predicate TextSettled(r: string) { Trimmed(r) && !Defanged(r) }

  /** The text is canonicalized to r. */
  predicate LandsOn(check: BracketCheck, text: string, r: string) {
    UrlParts(check, text).Some? && Unparse(UrlParts(check, text).value) == r
  }

  lemma FirstIsLetter(p: Url)
    requires Canonical(p)
    ensures Unparse(p)[0] == p.scheme[0] && IsAlpha(Unparse(p)[0])
  {
  }

  /** The parts that a canonical text which cleaning leaves alone is canonicalized to. */
  lemma SecondPass(check: BracketCheck, p: Url)
    requires Canonical(p)
    ensures UrlParts(check, Unparse(p)) ==
      if p.netloc != "" && BracketsAllowed(check, p.netloc)
      then Some(p.(netloc := WithoutDefaultPort(p.scheme, p.netloc))) else None
  {
    Reparse(check, p);
  }

  lemma SecondPassFixes(check: BracketCheck, p: Url)
    requires Canonical(p)
    ensures LandsOn(check, Unparse(p), Unparse(p)) <==> HostSettled(check, p)
  {
    SecondPass(check, p);
    DefaultPortGoes(p.scheme, p.netloc);
    var q := p.(netloc := WithoutDefaultPort(p.scheme, p.netloc));
    assert TailText(q) == TailText(p);
    assert |Unparse(q)| - |q.netloc| == |Unparse(p)| - |p.netloc|;
  }

  predicate CleanedFrom(r: string, t: string) {
    && |t| <= |r| && Trimmed(t) && (|t| == |r| ==> LettersMoved(r, t))
    && (|t| == |r| - 1 ==> r != "" && IsSpace(r[|r| - 1]))
  }

  /** Cleaning shortens a text by one character only if that is white space at its end. */
  lemma CleanShape(r: string)
    requires r != "" && IsAlpha(r[0])
    ensures CleanedFrom(r, Clean(Strip(r)))
  {
    var s := Strip(r);
    RefangShape(s);
    assert |Refang(s)| <= |s|;
    if s == r && !HasToken(r, |TOKENS|) {
      assert Trimmed(Refang(r));
    }
  }

  lemma CleanFixed(r: string)
    requires r != "" && IsAlpha(r[0])
    ensures Clean(Strip(r)) == r <==> TextSettled(r)
  {
    var s := Strip(r);
    var f := Refang(s);
    RefangShape(s);
    if Strip(f) == r {
      assert |f| == |r| && s == r;
    }
  }

  lemma UnbrokenIsWhole(r: string, t: string)
    requires NoBreaks(r) && r != "" && IsAlpha(r[0]) && LettersMoved(r, t)
    ensures Unbroken(t) == t
  {
    assert forall i :: 0 <= i < |t| ==> t[i] == r[i] || IsLower(t[i]);
    assert forall i :: 0 <= i < |r| ==> r[i] in r;
    UnbrokenText(t);
  }

  /** A cleaned text t, of which u is left to parse, cannot be canonicalized back to a different r. */
  lemma NoWayBack(r: string, t: string, u: string)
    requires r != "" && CleanedFrom(r, t) && |u| <= |t| && |r| <= |u| + 1
    requires |u| == |t| || LettersMoved(r, t) ==> u == t
    requires |r| == |u| + 1 ==> r[|r| - 1] == '/' || (u != "" && r[|r| - 1] == u[|u| - 1])
    requires |r| == |u| ==> CaseChanged(u, r) || SlashMoved(u, r)
    ensures t == r
  {
  }

  lemma CleaningChangedNothing(check: BracketCheck, p: Url, t: string)
    requires Canonical(p) && LandsOn(check, t, Unparse(p))
    requires CleanedFrom(Unparse(p), t)
    ensures t == Unparse(p)
  {
    OutputShape(check, t);
    UnbrokenShape(p, t);
    FirstIsLetter(p);
    NoWayBack(Unparse(p), t, Unbroken(t));
  }

  lemma UnbrokenShape(p: Url, t: string)
    requires Canonical(p)
    ensures |Unbroken(t)| <= |t| && (|Unbroken(t)| == |t| ==> Unbroken(t) == t)
    ensures LettersMoved(Unparse(p), t) ==> Unbroken(t) == t
  {
    FirstIsLetter(p);
    UnbrokenText(Unparse(p));
    UnbrokenBack(p);
    UnbrokenText(t);
    if LettersMoved(Unparse(p), t) { UnbrokenIsWhole(Unparse(p), t); }
  }

  lemma CanonicalUrlLands(check: BracketCheck, value: string, r: string)
    ensures CanonicalUrl(check, value) == Some(r) <==> LandsOn(check, Clean(value), r)
  {
  }

  lemma SettledIsFixed(check: BracketCheck, p: Url)
    requires Canonical(p) && Settled(check, p)
    ensures CanonicalUrl(check, Strip(Unparse(p))) == Some(Unparse(p))
  {
    FirstIsLetter(p);
    CleanFixed(Unparse(p));
    SecondPassFixes(check, p);
    CanonicalUrlLands(check, Strip(Unparse(p)), Unparse(p));
  }

  lemma FixedIsClean(check: BracketCheck, p: Url)
    requires Canonical(p) && CanonicalUrl(check, Strip(Unparse(p))) == Some(Unparse(p))
    ensures Clean(Strip(Unparse(p))) == Unparse(p)
  {
    var r := Unparse(p);
    FirstIsLetter(p);
    CanonicalUrlLands(check, Strip(r), r);
    CleanShape(r);
    CleaningChangedNothing(check, p, Clean(Strip(r)));
  }

  lemma FixedIsSettled(check: BracketCheck, p: Url)
    requires Canonical(p) && CanonicalUrl(check, Strip(Unparse(p))) == Some(Unparse(p))
    ensures Settled(check, p)
  {
    FirstIsLetter(p);
    FixedIsClean(check, p);
    CleanFixed(Unparse(p));
    CanonicalUrlLands(check, Strip(Unparse(p)), Unparse(p));
    SecondPassFixes(check, p);
  }

  predicate UrlStable(check: BracketCheck, raw: string) {
    var p := UrlParts(check, Clean(raw));
    p.Some? && Settled(check, p.value)
  }

  lemma StripsToText(p: Url)
    requires Canonical(p)
    ensures Strip(Unparse(p)) != ""
  {
    FirstIsLetter(p);
  }

  lemma UrlText(check: BracketCheck, raw: string, r: string)
    requires CanonicalUrl(check, raw) == Some(r)
    ensures Strip(r) != ""
  {
    CanonicalForm(check, Clean(raw));
    StripsToText(UrlParts(check, Clean(raw)).value);
  }

  /** Exactly which canonical URLs are fixed points. */
  lemma UrlIsFixedIffSettled(check: BracketCheck, raw: string, r: string)
    requires CanonicalUrl(check, raw) == Some(r)
    ensures CanonicalUrl(check, Strip(r)) == Some(r) <==> UrlStable(check, raw)
  {
    CanonicalForm(check, Clean(raw));
    var p := UrlParts(check, Clean(raw)).value;
    if Settled(check, p) {
      SettledIsFixed(check, p);
    } else if CanonicalUrl(check, Strip(r)) == Some(r) {
      FixedIsSettled(check, p);
    }
  }

  // ---- A URL that is not a fixed point ----

  /** Lower-case letters but x, digits, and some marks that canonicalization leaves alone. */
  predicate PlainHostChar(c: char) {
    IsDigit(c) || (IsLower(c) && c != 'x') || c == ':' || c == '.' || c == '{' || c == '}'
  }

  predicate PlainHost(host: string) {
    forall i :: 0 <= i < |host| ==> PlainHostChar(host[i])
  }

  function PlainUrl(host: string): string { "http://" + host + "/" }

  function PlainParts(host: string): Url { Url("http", host, "/", "", "") }

  lemma PlainIsJoined(host: string)
    ensures Unparse(PlainParts(host)) == PlainUrl(host)
  {
    assert TailText(PlainParts(host)) == "/";
  }

  lemma PlainIsCanonical(host: string)
    requires PlainHost(host)
    ensures Canonical(PlainParts(host))
  {
    assert forall i :: 0 <= i < |host| ==> LowerChar(host[i]) == host[i];
    assert Lower("http") == "http";
    LastSegmentIsSlash("/");
  }

  lemma PlainIsClean(host: string)
    requires PlainHost(host)
    ensures Clean(PlainUrl(host)) == PlainUrl(host)
  {
    var s := PlainUrl(host);
    assert s[0] == 'h' && s[|s| - 1] == '/';
    NoXNothingToRefang(s);
  }

  lemma DefaultPortOf(rest: string)
    ensures WithoutDefaultPort("http", rest + [':'] + "80") == rest
  {
    var host := rest + [':'] + "80";
    LastIndexOfLast(rest, ':', "80");
    assert host[|host| - 3..] == ":80" && host[..|rest|] == rest;
  }

  /** What a plain URL is canonicalized to, without its default port. */
  lemma PlainLands(check: BracketCheck, host: string, rest: string)
    requires PlainHost(host) && host != "" && WithoutDefaultPort("http", host) == rest
    ensures LandsOn(check, PlainUrl(host), PlainUrl(rest))
  {
    PlainIsCanonical(host);
    PlainIsJoined(host);
    PlainIsJoined(rest);
    assert BracketsAllowed(check, host);
    SecondPass(check, PlainParts(host));
    assert PlainParts(host).(netloc := rest) == PlainParts(rest);
  }

  lemma PlainUrlLands(check: BracketCheck, host: string, rest: string)
    requires PlainHost(host) && host != "" && WithoutDefaultPort("http", host) == rest
    ensures CanonicalUrl(check, PlainUrl(host)) == Some(PlainUrl(rest))
  {
    PlainLands(check, host, rest);
    PlainIsClean(host);
    CanonicalUrlLands(check, PlainUrl(host), PlainUrl(rest));
  }

  /** Canonicalizing drops one default port. */
  lemma OnePortDropped(check: BracketCheck, rest: string)
    requires PlainHost(rest)
    ensures CanonicalUrl(check, PlainUrl(rest + [':'] + "80")) == Some(PlainUrl(rest))
  {
    var host := rest + [':'] + "80";
    DefaultPortOf(rest);
    PlainUrlLands(check, host, rest);
  }

  lemma PortsAsWritten()
    ensures PlainUrl("a" + [':'] + "80") == "http://a:80/"
    ensures PlainUrl("a" + [':'] + "80" + [':'] + "80") == "http://a:80:80/"
    ensures PlainUrl("a") == "http://a/" && PlainUrl("") == "http:///"
    ensures PlainUrl("" + [':'] + "80") == "http://:80/"
  {
  }

  lemma PortIsPlain(rest: string)
    requires PlainHost(rest)
    ensures PlainHost(rest + [':'] + "80")
  {
  }

  lemma TwoPorts(check: BracketCheck, rest: string) returns (twice: string, once: string, never: string)
    requires PlainHost(rest)
    ensures twice == PlainUrl(rest + [':'] + "80" + [':'] + "80")
    ensures once == PlainUrl(rest + [':'] + "80") && never == PlainUrl(rest)
    ensures CanonicalUrl(check, twice) == Some(once) && CanonicalUrl(check, once) == Some(never)
  {
    var port := rest + [':'] + "80";
    twice, once, never := PlainUrl(port + [':'] + "80"), PlainUrl(port), PlainUrl(rest);
    PortIsPlain(rest);
    OnePortDropped(check, rest);
    OnePortDropped(check, port);
  }

  /** A default port given twice: the first pass leaves one, so the canonical form is not a fixed point. */
  lemma PortGivenTwice(check: BracketCheck) returns (twice: string, once: string, never: string)
    ensures twice == "http://a:80:80/" && once == "http://a:80/" && never == "http://a/"
    ensures CanonicalUrl(check, twice) == Some(once) && CanonicalUrl(check, once) == Some(never)
  {
    twice, once, never := TwoPorts(check, "a");
    PortsAsWritten();
  }

  /** A default port without a host: the first pass leaves no netloc, and the second finds no URL. */
  lemma PortWithoutHost(check: BracketCheck)
    ensures CanonicalUrl(check, "http://:80/") == Some("http:///")
    ensures CanonicalUrl(check, "http:///").None?
  {
    PortsAsWritten();
    OnePortDropped(check, "");
    PlainIsCanonical("");
    PlainIsJoined("");
    SecondPass(check, PlainParts(""));
    PlainIsClean("");
  }

  lemma NoXNothingToRefang(s: string)
    requires s != "" && Trimmed(s) && '[' !in s && '(' !in s && 'x' !in s && 'X' !in s
    ensures Clean(s) == s
  {
    NoBracketNoToken(s, |TOKENS|);
    NoXNoHxxp(s, false);
    RefangShape(s);
  }

  lemma {:induction false} NoXNoHxxp(s: string, inWord: bool)
    requires 'x' !in s && 'X' !in s
    ensures !HasHxxp(s, inWord)
    decreases |s|
  {
    if s != "" {
      if |s| >= 4 {
        assert s[1] in s;
        assert Lower(s[..4])[1] != "hxxp"[1];
      }
      NoXNoHxxp(s[1..], IsWord(s[0]));
    }
  }
}
