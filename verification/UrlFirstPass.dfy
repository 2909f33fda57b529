/** What canonicalizing a URL for the first time gives, for every way of writing it. */
module UrlFirstPass {
  import opened Sequences
  import opened Text
  import opened Refanging
  import opened Spellings
  import opened Urls
  import opened PlainUrls
  import Models
  import Hashing
  import FirstPass

  // ---- The parts of a URL as written ----

  /** The scheme, the host, a port with its colon or nothing, the path, and what may follow it. */
  datatype Parts = Parts(scheme: string, host: string, port: string, path: string,
                         params: Option<string>, query: Option<string>, fragment: Option<string>)

  function Marked(mark: string, part: Option<string>): string {
    if part.Some? then mark + part.value else ""
  }

  /** A part that is there but empty is dropped with its mark. */
  function Filled(mark: string, part: Option<string>): string {
    if part.Some? && part.value != "" then mark + part.value else ""
  }

  function LocalText(u: Parts): string { u.path + Marked(";", u.params) }

  function RestText(u: Parts): string { LocalText(u) + Marked("?", u.query) + Marked("#", u.fragment) }

  function AfterScheme(u: Parts): string { u.host + u.port + RestText(u) }

  /** The text of the URL once every disguise is gone, but for hxxp. */
  function PartsText(u: Parts): string { u.scheme + ("://" + AfterScheme(u)) }

  /** The scheme that is meant, in lower case. */
  predicate Means(written: string, scheme: string) {
    || (scheme == "http" && (Lower(written) == "http" || Lower(written) == "hxxp"))
    || (scheme == "https" && (Lower(written) == "https" || Lower(written) == "hxxps"))
  }

  predicate HostText(s: string) {
    NetlocText(s) && ':' !in s && '[' !in s && ']' !in s
  }

  predicate PortText(s: string) {
    s == "" || (s[0] == ':' && forall i :: 0 < i < |s| ==> IsDigit(s[i]))
  }

  /** Each part holds none of the marks that end it. */
  predicate Separated(u: Parts) {
    && u.host != "" && HostText(u.host)
    && PortText(u.port)
    && (u.path == "" || u.path[0] == '/') && '?' !in u.path && '#' !in u.path
    && (u.path == "" ==> u.params.None?) && ';' !in u.path[LastSegment(u.path)..]
    && (u.params.Some? ==> '/' !in u.params.value && '?' !in u.params.value && '#' !in u.params.value)
    && (u.query.Some? ==> '#' !in u.query.value)
  }

  predicate DefaultPort(scheme: string, port: string) {
    (scheme == "http" && port == ":80") || (scheme == "https" && port == ":443")
  }

  function ResultHost(scheme: string, u: Parts): string {
    Lower(u.host) + if DefaultPort(scheme, u.port) then "" else u.port
  }

  function ResultTail(u: Parts): string {
    (if u.path == "" then "/" else u.path) + Filled(";", u.params) + Filled("?", u.query)
  }

  /** The canonical text: no default port, a slash for an empty path, no empty parts and no fragment. */
  function Result(scheme: string, u: Parts): string {
    scheme + "://" + ResultHost(scheme, u) + ResultTail(u)
  }

  // ---- hxxp ----

  lemma NotHxxp(s: string)
    requires |s| >= 2 && LowerChar(s[1]) == 't'
    ensures HxxpLength(s) == 0
  {
    if HxxpLength(s) > 0 { MatchText(s); }
  }

  lemma FrontLetters(front: string, scheme: string)
    requires Lower(front) == scheme
    ensures |front| == |scheme| && forall i :: 0 <= i < |scheme| ==> LowerChar(front[i]) == scheme[i]
  {
  }

  /** The letters after the first are part of a word and are copied. */
  lemma {:induction false} WordCopied(front: string, rest: string)
    requires forall i :: 0 <= i < |front| ==> IsWord(front[i])
    ensures SubHxxp(front + rest, true) == front + SubHxxp(rest, true)
    decreases |front|
  {
    if front == "" {
      assert front + rest == rest;
    } else {
      assert (front + rest)[1..] == front[1..] + rest && (front + rest)[0] == front[0];
      WordCopied(front[1..], rest);
      assert front == [front[0]] + front[1..];
    }
  }

  lemma CopyOne(c: char, rest: string, inWord: bool)
    requires inWord || HxxpLength([c] + rest) == 0
    ensures SubHxxp([c] + rest, inWord) == [c] + SubHxxp(rest, IsWord(c))
  {
    assert ([c] + rest)[1..] == rest;
  }

  lemma MarkCopied(rest: string)
    ensures SubHxxp([':'] + (['/'] + (['/'] + rest)), true) == [':'] + (['/'] + (['/'] + SubHxxp(rest, false)))
  {
    var b := ['/'] + rest;
    var a := ['/'] + b;
    NoMatchHere(a);
    NoMatchHere(b);
    CopyOne('/', rest, false);
    CopyOne('/', b, false);
    CopyOne(':', a, true);
  }

  lemma AsMark(rest: string)
    ensures [':'] + (['/'] + (['/'] + rest)) == "://" + rest
  {
  }

  lemma NoMatchHere(s: string)
    requires s != "" && LowerChar(s[0]) != 'h'
    ensures HxxpLength(s) == 0
  {
    if HxxpLength(s) > 0 { MatchText(s); }
  }

  lemma HttpStarts(front: string, rest: string)
    requires Lower(front) == "http" || Lower(front) == "https"
    ensures front != "" && forall i :: 0 <= i < |front| ==> IsWord(front[i])
    ensures HxxpLength(front + rest) == 0
  {
    FrontLetters(front, Lower(front));
    assert (front + rest)[1] == front[1];
    NotHxxp(front + rest);
  }

  lemma FirstOff(front: string, rest: string)
    requires front != ""
    ensures front + rest == [front[0]] + (front[1..] + rest)
  {
  }

  lemma HttpThenRest(front: string, rest: string)
    requires Lower(front) == "http" || Lower(front) == "https"
    ensures SubHxxp(front + rest, false) == front + SubHxxp(rest, true)
  {
    HttpStarts(front, rest);
    var c, more := front[0], front[1..];
    FirstOff(front, rest);
    CopyOne(c, more + rest, false);
    WordCopied(more, rest);
    FirstOff(front, SubHxxp(rest, true));
  }

  lemma SlashesCopied(rest: string)
    ensures SubHxxp("://" + rest, true) == "://" + SubHxxp(rest, false)
  {
    AsMark(rest);
    MarkCopied(rest);
    AsMark(SubHxxp(rest, false));
  }

  /** A scheme that is not disguised is copied. */
  lemma HttpCopied(front: string, rest: string)
    requires Lower(front) == "http" || Lower(front) == "https"
    ensures SubHxxp(front + ("://" + rest), false) == front + ("://" + SubHxxp(rest, false))
  {
    HttpThenRest(front, "://" + rest);
    SlashesCopied(rest);
  }

  lemma MatchLength(front: string, rest: string)
    requires Lower(front) == "hxxp" || Lower(front) == "hxxps"
    ensures HxxpLength(front + ("://" + rest)) == |front| + 3
  {
    var s, n := front + ("://" + rest), |front|;
    FrontLetters(front, Lower(front));
    assert forall i :: 0 <= i < 4 ==> Lower(s[..4])[i] == LowerChar(front[i]);
    assert Lower(s[..4]) == "hxxp";
    assert s[n..n + 3] == "://";
    if n == 5 {
      assert s[4] == front[4] && s[4..7][0] == s[4];
    }
  }

  /** A disguised scheme is put right; the letter behind it stays as it is. */
  lemma HxxpReplaced(front: string, rest: string)
    requires Lower(front) == "hxxp" || Lower(front) == "hxxps"
    ensures SubHxxp(front + ("://" + rest), false) == "http" + front[4..] + ("://" + SubHxxp(rest, false))
  {
    var s, n := front + ("://" + rest), |front|;
    MatchLength(front, rest);
    assert s[4..n + 3] == front[4..] + "://" && s[n + 3..] == rest;
  }

  lemma HxxpMeans(front: string, scheme: string)
    requires Means(front, scheme) && Lower(front) != scheme
    ensures Lower("http" + front[4..]) == scheme
  {
    FrontLetters(front, Lower(front));
    LowerConcat("http", front[4..]);
    assert Lower("http") == "http" && Lower(front[4..]) == Lower(front)[4..] == scheme[4..];
    assert scheme == "http" + scheme[4..];
  }

  /** Whichever way the scheme is written, a scheme of that meaning comes out. */
  lemma SchemeRefanged(front: string, scheme: string, rest: string) returns (out: string)
    requires Means(front, scheme)
    ensures Lower(out) == scheme && SubHxxp(front + ("://" + rest), false) == out + ("://" + SubHxxp(rest, false))
  {
    if Lower(front) == scheme {
      out := front;
      HttpCopied(front, rest);
    } else {
      out := "http" + front[4..];
      HxxpReplaced(front, rest);
      HxxpMeans(front, scheme);
    }
  }

  // ---- Taking the text apart ----

  function Content(part: Option<string>): string {
    if part.Some? then part.value else ""
  }

  lemma PartitionMarked(a: string, c: char, part: Option<string>)
    requires c !in a
    ensures Partition(a + Marked([c], part), c) == (a, Content(part))
  {
    if part.Some? {
      assert a + Marked([c], part) == a + [c] + part.value;
      PartitionAt(a, c, part.value);
    } else {
      assert a + "" == a;
      PartitionNone(a, c);
    }
  }

  lemma MarkedHolds(mark: char, part: Option<string>, c: char)
    requires c != mark && (part.Some? ==> c !in part.value)
    ensures c !in Marked([mark], part)
  {
  }

  lemma ParamsCut(scheme: string, path: string, params: Option<string>)
    requires path == "" || path[0] == '/'
    requires scheme in USES_PARAMS && (path == "" ==> params.None?) && ';' !in path[LastSegment(path)..]
    requires params.Some? ==> '/' !in params.value
    ensures SplitParams(scheme, path + Marked(";", params)) == (path, Content(params))
  {
    if params.Some? {
      var whole := path + [';'] + params.value;
      assert path + (";" + params.value) == whole;
      SlashStays(path, params.value);
      SemicolonAt(path, params.value, LastSegment(path));
      CutAt(path, ';', params.value);
    } else {
      assert path + "" == path;
      NoSemicolon(path);
    }
  }

  lemma NoSemicolon(path: string)
    requires ';' !in path[LastSegment(path)..]
    ensures IndexFrom(path, ';', LastSegment(path)) == |path|
  {
    var from := LastSegment(path);
    IndexFromIsFirst(path, ';', from);
    assert forall k :: from <= k < |path| ==> path[from..][k - from] == path[k];
  }

  /** The parts that the text behind the netloc is cut into. */
  lemma TailCut(scheme: string, netloc: string, u: Parts)
    requires Separated(u) && scheme in USES_PARAMS
    ensures SplitTail(scheme, netloc, RestText(u)) == Url(scheme, netloc, u.path, Content(u.params), Content(u.query))
  {
    var local := LocalText(u);
    MarkedHolds(';', u.params, '?');
    MarkedHolds(';', u.params, '#');
    MarkedHolds('?', u.query, '#');
    PartitionMarked(local + Marked("?", u.query), '#', u.fragment);
    PartitionMarked(local, '?', u.query);
    ParamsCut(scheme, u.path, u.params);
  }

  lemma RestStarts(u: Parts)
    requires Separated(u)
    ensures RestText(u) == "" || EndsNetloc(RestText(u)[0])
  {
  }

  lemma PortLooks(port: string)
    requires PortText(port)
    ensures NetlocText(port) && '[' !in port && ']' !in port && Lower(port) == port
    ensures port != "" ==> port == [':'] + port[1..] && ':' !in port[1..]
  {
  }

  lemma SchemeLetters(front: string)
    requires Lower(front) == "http" || Lower(front) == "https"
    ensures front != "" && IsAlpha(front[0]) && forall k :: 0 <= k < |front| ==> IsSchemeChar(front[k])
  {
    FrontLetters(front, Lower(front));
  }

  lemma Regrouped(front: string, netloc: string, rest: string)
    ensures front + ("://" + (netloc + rest)) == front + "://" + netloc + rest
  {
  }

  lemma NetlocParts(u: Parts)
    requires Separated(u)
    ensures var netloc := u.host + u.port;
      NetlocText(netloc) && '[' !in netloc && ']' !in netloc && AfterScheme(u) == netloc + RestText(u)
  {
    PortLooks(u.port);
  }

  lemma Dissected(front: string, u: Parts)
    requires (Lower(front) == "http" || Lower(front) == "https") && Separated(u)
    ensures Dissect(front + ("://" + AfterScheme(u))) == Pieces(front, u.host + u.port, RestText(u))
  {
    SchemeLetters(front);
    RestStarts(u);
    NetlocParts(u);
    DissectCanonical(front, u.host + u.port, RestText(u));
    Regrouped(front, u.host + u.port, RestText(u));
  }

  lemma Parsed(check: BracketCheck, front: string, scheme: string, u: Parts)
    requires Lower(front) == scheme && (scheme == "http" || scheme == "https") && Separated(u)
    requires NoBreaks(front + ("://" + AfterScheme(u)))
    ensures ParseUrl(check, front + ("://" + AfterScheme(u))) ==
      Some(Url(scheme, u.host + u.port, u.path, Content(u.params), Content(u.query)))
  {
    Dissected(front, u);
    SchemeLetters(front);
    UnbrokenText(front + ("://" + AfterScheme(u)));
    NetlocParts(u);
    TailCut(scheme, u.host + u.port, u);
  }

  // ---- The port ----

  lemma EndsInPort(host: string, port: string, want: string)
    requires ':' !in host && PortText(port)
    requires want != "" && want[0] == ':' && ':' !in want[1..]
    ensures EndsWith(host + port, want) <==> port == want
  {
    var s := host + port;
    assert s[|host|..] == port;
    if EndsWith(s, want) {
      var k := |s| - |want|;
      assert s[k..][0] == s[k];
      assert k == |host|;
    }
  }

  lemma PortDropped(scheme: string, host: string, port: string)
    requires ':' !in host && PortText(port)
    ensures WithoutDefaultPort(scheme, host + port) == host + if DefaultPort(scheme, port) then "" else port
  {
    EndsInPort(host, port, ":80");
    EndsInPort(host, port, ":443");
    if DefaultPort(scheme, port) {
      PortLooks(port);
      LastIndexOfLast(host, ':', port[1..]);
      assert host + port == host + [':'] + port[1..];
    }
  }

  // ---- The canonical text ----

  lemma HostKept(scheme: string, u: Parts)
    requires Separated(u)
    ensures WithoutDefaultPort(scheme, Lower(u.host + u.port)) == ResultHost(scheme, u)
  {
    PortLooks(u.port);
    LowerConcat(u.host, u.port);
    LowerKeeps(u.host, ':');
    PortDropped(scheme, Lower(u.host), u.port);
  }

  lemma FilledContent(mark: string, part: Option<string>)
    ensures Filled(mark, part) == if Content(part) == "" then "" else mark + Content(part)
  {
  }

  lemma TailFilled(u: Parts, q: Url)
    requires q.path == (if u.path == "" then "/" else u.path)
    requires q.params == Content(u.params) && q.query == Content(u.query)
    ensures TailText(q) == ResultTail(u)
  {
    FilledContent(";", u.params);
    FilledContent("?", u.query);
  }

  lemma Unparsed(scheme: string, u: Parts)
    requires Separated(u)
    ensures Unparse(Normal(Url(scheme, u.host + u.port, u.path, Content(u.params), Content(u.query)))) ==
      Result(scheme, u)
  {
    HostKept(scheme, u);
    var q := Normal(Url(scheme, u.host + u.port, u.path, Content(u.params), Content(u.query)));
    TailFilled(u, q);
    assert q.scheme == scheme && q.netloc == ResultHost(scheme, u);
  }

  lemma Lands(check: BracketCheck, text: string, p: Url, r: string)
    requires ParseUrl(check, text) == Some(p) && p.scheme != "" && p.netloc != "" && Unparse(Normal(p)) == r
    ensures LandsOn(check, text, r)
  {
  }

  /** A URL free of disguises, in any case. */
  lemma CleanUrl(check: BracketCheck, front: string, scheme: string, u: Parts)
    requires Lower(front) == scheme && (scheme == "http" || scheme == "https") && Separated(u)
    requires NoBreaks(front + ("://" + AfterScheme(u)))
    ensures LandsOn(check, front + ("://" + AfterScheme(u)), Result(scheme, u))
  {
    Parsed(check, front, scheme, u);
    Unparsed(scheme, u);
    var p := Url(scheme, u.host + u.port, u.path, Content(u.params), Content(u.query));
    Lands(check, front + ("://" + AfterScheme(u)), p, Result(scheme, u));
  }

  // ---- The first pass ----

  lemma QuietRest(front: string, scheme: string, rest: string) returns (out: string)
    requires Means(front, scheme) && Quiet(rest)
    ensures Lower(out) == scheme && SubHxxp(front + ("://" + rest), false) == out + ("://" + rest)
  {
    SubHxxpShape(rest, false);
    out := SchemeRefanged(front, scheme, rest);
  }

  /** Refanging a URL whose marks are disguised in any way, and whose scheme may be hxxp in any case. */
  lemma UrlRefanged(ps: seq<Piece>, scheme: string, u: Parts) returns (front: string)
    requires Words(ps) && Meant(ps) == PartsText(u) && Means(u.scheme, scheme) && Quiet(AfterScheme(u))
    ensures Lower(front) == scheme && Refang(Spelled(ps)) == front + ("://" + AfterScheme(u))
  {
    DisguisesGo(ps);
    front := QuietRest(u.scheme, scheme, AfterScheme(u));
  }

  /** No white space where a text would be stripped or broken. */
  predicate Unspaced(s: string) { NoBreaks(s) && s != "" && !IsSpace(s[|s| - 1]) }

  lemma FrontIsClean(front: string, scheme: string, rest: string)
    requires Lower(front) == scheme && (scheme == "http" || scheme == "https") && Unspaced(rest)
    ensures NoBreaks(front + ("://" + rest)) && Strip(front + ("://" + rest)) == front + ("://" + rest)
  {
    SchemeLetters(front);
    var s := front + ("://" + rest);
    assert s[0] == front[0] && s[|s| - 1] == rest[|rest| - 1];
    assert NoBreaks(front);
  }

  /**
   * However a URL is written, with its scheme as http or hxxp and its marks plain or disguised, the scheme
   * and the host come out in lower case and the default port and the fragment go. Path, parameters and
   * query stay as they were.
   */
  lemma EveryWriting(check: BracketCheck, ps: seq<Piece>, scheme: string, u: Parts)
    requires Words(ps) && Meant(ps) == PartsText(u)
    requires Means(u.scheme, scheme) && Separated(u) && Quiet(AfterScheme(u)) && Unspaced(AfterScheme(u))
    ensures CanonicalUrl(check, Spelled(ps)) == Some(Result(scheme, u))
  {
    var front := UrlRefanged(ps, scheme, u);
    FrontIsClean(front, scheme, AfterScheme(u));
    CleanUrl(check, front, scheme, u);
    CanonicalUrlLands(check, Spelled(ps), Result(scheme, u));
  }

  lemma UrlValue(lib: Hashing.Library, lead: string, ps: seq<Piece>, tail: string, scheme: string, u: Parts)
    requires Words(ps) && Meant(ps) == PartsText(u)
    requires Means(u.scheme, scheme) && Separated(u) && Quiet(AfterScheme(u)) && Unspaced(AfterScheme(u))
    requires FirstPass.White(lead) && FirstPass.White(tail) && Trimmed(Spelled(ps)) && Spelled(ps) != ""
    ensures Hashing.Canonicalize(lib, Models.IndicatorType.Url, lead + Spelled(ps) + tail) == Some(Result(scheme, u))
  {
    FirstPass.StripSurrounded(lead, Spelled(ps), tail);
    EveryWriting(lib.brackets, ps, scheme, u);
    Hashing.CanonicalOfUrl(lib, Spelled(ps));
  }
}
