/**
 * URLs as they come: a condition on the refanged text under which canonicalizing once is enough. A
 * match of `hxxp://` must not appear where the text is cut and joined again.
 */
module PlainUrls {
  import opened Sequences
  import opened Text
  import opened Refanging
  import opened Urls

  // ---- Matches of hxxp under joining and changes of case ----

  predicate SameButCase(s: string, t: string) { |s| == |t| && Lower(s) == Lower(t) }

  lemma SameLength(s: string, t: string)
    requires SameButCase(s, t)
    ensures HxxpLength(s) == HxxpLength(t)
  {
    assert forall i :: 0 <= i < |s| ==> LowerChar(s[i]) == Lower(s)[i] == Lower(t)[i] == LowerChar(t[i]);
    if |s| >= 7 {
      assert Lower(s[..4]) == Lower(t[..4]);
      assert s[4..7] == "://" <==> t[4..7] == "://";
      assert |s| >= 8 ==> (s[5..8] == "://" <==> t[5..8] == "://");
    }
  }

  lemma {:induction false} CaseIsIrrelevant(s: string, t: string, inWord: bool)
    requires SameButCase(s, t)
    ensures HasHxxp(s, inWord) <==> HasHxxp(t, inWord)
    decreases |s|
  {
    if s != "" {
      SameLength(s, t);
      assert LowerChar(s[0]) == Lower(s)[0] == Lower(t)[0] == LowerChar(t[0]);
      assert Lower(s[1..]) == Lower(s)[1..] && Lower(t[1..]) == Lower(t)[1..];
      CaseIsIrrelevant(s[1..], t[1..], IsWord(s[0]));
    }
  }

  /** A match can run across neither of these joints. */
  predicate Joint(x: string, y: string) {
    || x == "" || y == "" || y[0] == '?' || y[0] == ';' || y[0] == '#' || y[0] == '@'
    || (y[0] == '/' && x[|x| - 1] != ':' && x[|x| - 1] != '/')
    || (y == "/" && x[|x| - 1] != '/')
  }

  function EndsInWord(x: string, inWord: bool): bool {
    if x == "" then inWord else IsWord(x[|x| - 1])
  }

  /** The four letters of a match, and the mark that ends it. */
  lemma MatchText(s: string)
    requires HxxpLength(s) > 0
    ensures forall j :: 0 <= j < 4 ==> LowerChar(s[j]) == "hxxp"[j]
    ensures var n := HxxpLength(s); s[n - 3] == ':' && s[n - 2] == '/' && s[n - 1] == '/'
    ensures HxxpLength(s) == 8 ==> LowerChar(s[4]) == 's'
  {
    assert forall j :: 0 <= j < 4 ==> LowerChar(s[j]) == Lower(s[..4])[j];
    var n := HxxpLength(s);
    var mark := s[n - 3..n];
    assert mark == "://";
    assert s[n - 3] == mark[0] && s[n - 2] == mark[1] && s[n - 1] == mark[2];
  }

  /** What can stand inside a match. */
  lemma MatchChars(s: string, i: nat)
    requires 0 < i < HxxpLength(s)
    ensures s[i] != '?' && s[i] != ';' && s[i] != '#' && s[i] != '@'
    ensures s[i] == '/' ==> s[i - 1] == ':' || s[i - 1] == '/'
    ensures s[i] == '/' && i == HxxpLength(s) - 1 ==> s[i - 1] == '/'
  {
    MatchText(s);
  }

  lemma SameFront(s: string, t: string)
    requires 0 < HxxpLength(s) <= |t| && s[..HxxpLength(s)] == t[..HxxpLength(s)]
    ensures HxxpLength(t) > 0
  {
    var n := HxxpLength(s);
    var a, b := s[..n], t[..n];
    assert s[..4] == a[..4] && t[..4] == b[..4];
    assert s[n - 3..n] == a[n - 3..n] && t[n - 3..n] == b[n - 3..n];
    assert s[4] == a[4] && t[4] == b[4];
  }

  lemma LengthAtJoint(x: string, y: string)
    requires x != "" && Joint(x, y)
    ensures HxxpLength(x + y) > 0 <==> HxxpLength(x) > 0
  {
    var s, n := x + y, HxxpLength(x + y);
    if n > |x| {
      MatchChars(s, |x|);
    } else if n > 0 {
      SameFront(s, x);
    }
    if HxxpLength(x) > 0 {
      SameFront(x, s);
    }
  }

  lemma {:induction false} MatchesOfJoin(x: string, y: string, inWord: bool)
    requires Joint(x, y)
    ensures HasHxxp(x + y, inWord) <==> HasHxxp(x, inWord) || HasHxxp(y, EndsInWord(x, inWord))
    decreases |x|
  {
    if x == "" {
      assert x + y == y;
    } else {
      LengthAtJoint(x, y);
      assert (x + y)[1..] == x[1..] + y;
      MatchesOfJoin(x[1..], y, IsWord(x[0]));
    }
  }

  lemma {:induction false} MatchesOfPrefix(x: string, y: string, inWord: bool)
    requires HasHxxp(x, inWord)
    ensures HasHxxp(x + y, inWord)
    decreases |x|
  {
    assert (x + y)[1..] == x[1..] + y;
    if !inWord && HxxpLength(x) > 0 {
      SameFront(x, x + y);
    } else {
      MatchesOfPrefix(x[1..], y, IsWord(x[0]));
    }
  }

  // ---- Substituting http for hxxp leaves no hxxp behind ----

  lemma {:induction false} WordIsCopied(s: string, k: nat)
    requires k < |s| && forall i :: 0 <= i < k ==> IsWord(s[i])
    ensures |SubHxxp(s, true)| == |s| && forall i :: 0 <= i <= k ==> SubHxxp(s, true)[i] == s[i]
    decreases k
  {
    SubHxxpShape(s, true);
    if k > 0 {
      WordIsCopied(s[1..], k - 1);
      assert forall i :: 0 < i <= k ==> SubHxxp(s, true)[i] == SubHxxp(s[1..], true)[i - 1];
    }
  }

  lemma FrontCopied(s: string, t: string)
    requires HxxpLength(t) > 0 && LettersMoved(s, t) && forall i :: 0 <= i < 5 ==> t[i] == s[i]
    ensures HxxpLength(s) > 0
  {
    var n := HxxpLength(t);
    MatchText(t);
    assert s[..n] == t[..n];
    SameFront(t, s);
  }

  lemma FrontMoved(s: string, rest: string)
    requires s != "" && LettersMoved(s[1..], rest) && HxxpLength([s[0]] + rest) > 0
    ensures |rest| > 3 && IsWord(s[0]) && forall i :: 0 <= i < 3 ==> IsWord(s[1..][i])
    ensures LettersMoved(s, [s[0]] + rest)
  {
    var t := [s[0]] + rest;
    MatchText(t);
    assert forall i :: 0 < i < |s| ==> s[i] == s[1..][i - 1] && t[i] == rest[i - 1];
    assert rest[0] == t[1] && rest[1] == t[2] && rest[2] == t[3];
    assert LowerChar(t[0]) == 'h' && LowerChar(t[1]) == 'x' && LowerChar(t[2]) == 'x' && LowerChar(t[3]) == 'p';
    var x := s[1..];
    assert IsWord(x[0]) && IsWord(x[1]) && IsWord(x[2]);
  }

  /** Substituting later on makes no match at the front. */
  lemma NoNewMatch(s: string, rest: string)
    requires s != "" && HxxpLength(s) == 0 && rest == SubHxxp(s[1..], IsWord(s[0]))
    ensures HxxpLength([s[0]] + rest) == 0
  {
    SubHxxpShape(s[1..], IsWord(s[0]));
    if HxxpLength([s[0]] + rest) > 0 {
      FrontMoved(s, rest);
      WordIsCopied(s[1..], 3);
      assert forall i :: 0 < i < 5 ==> ([s[0]] + rest)[i] == rest[i - 1] && s[i] == s[1..][i - 1];
      FrontCopied(s, [s[0]] + rest);
    }
  }

  lemma {:induction false} NoMatchWithoutH(x: string, rest: string, inWord: bool)
    requires forall i :: 0 <= i < |x| ==> LowerChar(x[i]) != 'h'
    requires if x == "" then !inWord else !IsWord(x[|x| - 1])
    requires !HasHxxp(rest, false)
    ensures !HasHxxp(x + rest, inWord)
    decreases |x|
  {
    if x == "" {
      assert x + rest == rest;
    } else {
      assert (x + rest)[0] == x[0];
      if HxxpLength(x + rest) > 0 { MatchText(x + rest); }
      assert (x + rest)[1..] == x[1..] + rest;
      NoMatchWithoutH(x[1..], rest, IsWord(x[0]));
    }
  }

  lemma HttpHasNone(tail: string, rest: string)
    requires tail != "" && !IsWord(tail[|tail| - 1]) && forall i :: 0 <= i < |tail| ==> LowerChar(tail[i]) != 'h'
    requires !HasHxxp(rest, false)
    ensures !HasHxxp("http" + tail + rest, false)
  {
    var s := "http" + tail + rest;
    if HxxpLength(s) > 0 {
      MatchText(s);
    }
    assert s[1..] == ("ttp" + tail) + rest;
    NoMatchWithoutH("ttp" + tail, rest, true);
  }

  lemma {:induction false} SubstitutedHasNone(s: string, inWord: bool)
    ensures !HasHxxp(SubHxxp(s, inWord), inWord)
    decreases |s|
  {
    if s != "" {
      var n := HxxpLength(s);
      if !inWord && n > 0 {
        SubstitutedHasNone(s[n..], false);
        MatchText(s);
        HttpHasNone(s[4..n], SubHxxp(s[n..], false));
      } else {
        var rest := SubHxxp(s[1..], IsWord(s[0]));
        SubstitutedHasNone(s[1..], IsWord(s[0]));
        assert ([s[0]] + rest)[1..] == rest;
        if !inWord {
          NoNewMatch(s, rest);
        }
      }
    }
  }

  // ---- Texts without a match, cut and joined ----

  predicate Quiet(s: string) { !HasHxxp(s, false) }

  predicate SeparatorFirst(y: string) {
    y != "" && (y[0] == '?' || y[0] == ';' || y[0] == '#' || y[0] == '/')
  }

  lemma SeparatorIgnoresWord(y: string)
    requires SeparatorFirst(y)
    ensures HasHxxp(y, true) <==> Quiet(y) == false
  {
    if HxxpLength(y) > 0 {
      MatchText(y);
    }
  }

  lemma QuietCut(x: string, y: string)
    requires Quiet(x + y) && SeparatorFirst(y) && Joint(x, y)
    ensures Quiet(x) && Quiet(y)
  {
    MatchesOfJoin(x, y, false);
    SeparatorIgnoresWord(y);
  }

  lemma QuietJoin(x: string, y: string)
    requires Quiet(x) && Quiet(y) && (y == "" || SeparatorFirst(y)) && Joint(x, y)
    ensures Quiet(x + y)
  {
    if y == "" {
      assert x + y == x;
    } else {
      MatchesOfJoin(x, y, false);
      SeparatorIgnoresWord(y);
    }
  }

  lemma QuietPrefix(x: string, y: string)
    requires Quiet(x + y)
    ensures Quiet(x)
  {
    if !Quiet(x) { MatchesOfPrefix(x, y, false); }
  }

  lemma {:induction false} QuietSuffix(s: string, k: nat)
    requires Quiet(s) && k <= |s| && forall i :: 0 <= i < k ==> !IsWord(s[i])
    ensures Quiet(s[k..])
    decreases k
  {
    if k > 0 {
      QuietSuffix(s[1..], k - 1);
      assert s[1..][k - 1..] == s[k..];
    }
  }

  // ---- The pieces of a URL are quiet ----

  /** What stands before the mark, and the mark with what follows it. */
  lemma QuietPartition(head: string, s: string, c: char)
    requires Quiet(head + s) && SeparatorFirst([c]) && c != '/'
    ensures Quiet(head + Partition(s, c).0)
    ensures Partition(s, c).1 != "" ==> Quiet([c] + Partition(s, c).1)
  {
    PartitionShape(s, c);
    var a, b := Partition(s, c).0, Partition(s, c).1;
    if s == a + [c] + b {
      assert head + s == (head + a) + ([c] + b);
      QuietCut(head + a, [c] + b);
    }
  }

  lemma QuietParams(head: string, scheme: string, path: string)
    requires Quiet(head + path) && (path == "" || path[0] == '/')
    ensures var r := SplitParams(scheme, path); Quiet(head + r.0) && (r.1 != "" ==> Quiet(";" + r.1))
  {
    var r := SplitParams(scheme, path);
    ParamsShape(scheme, path);
    if r != (path, "") {
      assert head + path == (head + r.0) + (";" + r.1);
      QuietCut(head + r.0, ";" + r.1);
    }
  }

  lemma QuietPieces(head: string, scheme: string, netloc: string, rest: string)
    requires Quiet(head + rest) && (rest == "" || EndsNetloc(rest[0]))
    ensures var p := SplitTail(scheme, netloc, rest);
      && Quiet(head + p.path)
      && (p.params != "" ==> Quiet(";" + p.params)) && (p.query != "" ==> Quiet("?" + p.query))
  {
    var f := Partition(rest, '#').0;
    QuietPartition(head, rest, '#');
    QuietPartition(head, f, '?');
    TailPath(rest);
    QuietParams(head, scheme, Partition(f, '?').0);
  }

  predicate QuietPart(s: string) { Quiet(s) && (s == "" || s[0] == '?' || s[0] == ';') }

  lemma QuietParts(front: string, path: string, params: string, query: string)
    requires Quiet(front + path) && QuietPart(params) && QuietPart(query)
    ensures Quiet(front + (path + params + query))
  {
    QuietJoin(front + path, params);
    QuietJoin(front + path + params, query);
    assert front + (path + params + query) == front + path + params + query;
  }

  lemma QuietTail(front: string, p: Url)
    requires Quiet(front + p.path)
    requires (p.params != "" ==> Quiet(";" + p.params)) && (p.query != "" ==> Quiet("?" + p.query))
    ensures Quiet(front + TailText(p))
  {
    var params := if p.params == "" then "" else ";" + p.params;
    var query := if p.query == "" then "" else "?" + p.query;
    assert TailText(p) == p.path + params + query;
    assert Quiet("");
    QuietParts(front, p.path, params, query);
  }

  /** Case does not matter, nor does what is cut off at the end. */
  lemma QuietInCase(s: string, t: string)
    requires Quiet(s) && |t| <= |s| && Lower(t) == Lower(s)[..|t|]
    ensures Quiet(t)
  {
    assert s == s[..|t|] + s[|t|..];
    QuietPrefix(s[..|t|], s[|t|..]);
    CaseIsIrrelevant(t, s[..|t|], false);
  }

  /** A path moved from behind one host to behind another. */
  lemma QuietMove(head: string, front: string, path: string)
    requires Quiet(head + path) && Quiet(front) && head != "" && front != ""
    requires path != "" && path[0] == '/'
    requires head[|head| - 1] != ':' && head[|head| - 1] != '/'
    requires front[|front| - 1] != ':' && front[|front| - 1] != '/'
    ensures Quiet(front + path)
  {
    QuietCut(head, path);
    QuietJoin(front, path);
  }

  lemma QuietSlash(front: string)
    requires Quiet(front) && front != "" && front[|front| - 1] != '/'
    ensures Quiet(front + "/")
  {
    assert Quiet("/");
    QuietJoin(front, "/");
  }

  // ---- The host ----

  /** A host, and a port or none. */
  predicate HostAndPort(netloc: string) {
    && netloc != "" && netloc[0] != ':'
    && forall i, j :: 0 <= i < j < |netloc| ==> netloc[i] != ':' || netloc[j] != ':'
  }

  predicate EndsPlain(s: string) { s != "" && s[|s| - 1] != ':' && s[|s| - 1] != '/' }

  lemma OnlyColon(netloc: string, k: nat)
    requires HostAndPort(netloc) && k < |netloc| && netloc[k] == ':'
    ensures k > 0 && ':' !in netloc[..k]
  {
    assert forall i :: 0 <= i < k ==> netloc[..k][i] == netloc[i];
  }

  lemma LowerKeepsColons(netloc: string)
    requires HostAndPort(netloc)
    ensures HostAndPort(Lower(netloc))
  {
  }

  /** Dropping the default port leaves a host, and no default port. */
  lemma HostStays(scheme: string, netloc: string)
    requires HostAndPort(netloc) && '/' !in netloc
    ensures var r := WithoutDefaultPort(scheme, netloc);
      && r != "" && '/' !in r && !HasDefaultPort(scheme, r)
      && (r == netloc || (EndsPlain(r) && EndsPlain(netloc)))
  {
    DefaultPortGoes(scheme, netloc);
    if HasDefaultPort(scheme, netloc) {
      LastIndexOfIsLast(netloc, ':');
      EndHolds(netloc, if scheme == "http" then ":80" else ":443", ':');
      PortEnd(netloc, if scheme == "http" then ":80" else ":443");
      var r := netloc[..LastIndexOf(netloc, ':')];
      OnlyColon(netloc, LastIndexOf(netloc, ':'));
      if HasDefaultPort(scheme, r) {
        EndHolds(r, if scheme == "http" then ":80" else ":443", ':');
      }
    }
  }

  lemma PortEnd(netloc: string, port: string)
    requires EndsWith(netloc, port) && EndsPlain(port)
    ensures EndsPlain(netloc)
  {
    assert netloc[|netloc| - |port|..][|port| - 1] == netloc[|netloc| - 1];
  }

  // ---- The canonical text has nothing to refang ----

  lemma FrontLower(scheme: string, netloc: string, host: string)
    requires host <= Lower(netloc)
    ensures var s, t := scheme + "://" + netloc, Lower(scheme) + "://" + host;
      |t| <= |s| && Lower(t) == Lower(s)[..|t|]
  {
  }

  lemma SameFrontLower(scheme: string, netloc: string, path: string)
    ensures Lower(Lower(scheme) + "://" + Lower(netloc) + path) == Lower(scheme + "://" + netloc + path)
  {
  }

  /** Scheme, host and path of the canonical URL. */
  lemma QuietFront(scheme: string, netloc: string, path: string, host: string)
    requires Quiet(scheme + "://" + netloc + path) && (path == "" || path[0] == '/')
    requires host <= Lower(netloc) && host != "" && '/' !in host
    requires host == Lower(netloc) || (EndsPlain(host) && EndsPlain(netloc))
    ensures Quiet(Lower(scheme) + "://" + host + if path == "" then "/" else path)
  {
    var head, front := scheme + "://" + netloc, Lower(scheme) + "://" + host;
    QuietPrefix(head, path);
    FrontLower(scheme, netloc, host);
    QuietInCase(head, front);
    if path == "" {
      QuietSlash(front);
    } else if host == Lower(netloc) {
      SameFrontLower(scheme, netloc, path);
      QuietInCase(head + path, front + path);
    } else {
      QuietMove(head, front, path);
    }
  }

  lemma EndsPlainLower(netloc: string)
    requires EndsPlain(Lower(netloc))
    ensures EndsPlain(netloc)
  {
  }

  lemma QuietUrl(d: Pieces)
    requires Quiet(d.scheme + "://" + d.netloc + d.rest) && (d.rest == "" || EndsNetloc(d.rest[0]))
    requires NetlocText(d.netloc) && HostAndPort(d.netloc)
    ensures Quiet(Unparse(Normal(SplitTail(Lower(d.scheme), d.netloc, d.rest))))
  {
    var p := SplitTail(Lower(d.scheme), d.netloc, d.rest);
    var q := Normal(p);
    QuietPieces(d.scheme + "://" + d.netloc, Lower(d.scheme), d.netloc, d.rest);
    TailShape(Lower(d.scheme), d.netloc, d.rest);
    LowerKeeps(d.netloc, '/');
    LowerKeepsColons(d.netloc);
    HostStays(p.scheme, Lower(d.netloc));
    if EndsPlain(Lower(d.netloc)) { EndsPlainLower(d.netloc); }
    QuietFront(d.scheme, d.netloc, p.path, q.netloc);
    QuietTail(Lower(d.scheme) + "://" + q.netloc, q);
  }

  // ---- Characters of the canonical text ----

  predicate PlainChar(c: char) {
    !IsSpace(c) && c != '[' && c != ']' && c != '(' && c != ')'
  }

  predicate AllPlain(s: string) { forall i :: 0 <= i < |s| ==> PlainChar(s[i]) }

  lemma PlainLower(s: string)
    requires AllPlain(s)
    ensures AllPlain(Lower(s))
  {
    assert forall i :: 0 <= i < |s| ==> PlainChar(s[i]) && Lower(s)[i] == LowerChar(s[i]);
  }

  lemma PlainPartition(s: string, c: char)
    requires AllPlain(s)
    ensures AllPlain(Partition(s, c).0) && AllPlain(Partition(s, c).1)
  {
  }

  lemma PlainParams(scheme: string, path: string)
    requires AllPlain(path)
    ensures AllPlain(SplitParams(scheme, path).0) && AllPlain(SplitParams(scheme, path).1)
  {
  }

  lemma PlainPieces(scheme: string, netloc: string, rest: string)
    requires AllPlain(rest)
    ensures var p := SplitTail(scheme, netloc, rest); AllPlain(p.path) && AllPlain(p.params) && AllPlain(p.query)
  {
    var f := Partition(rest, '#').0;
    PlainPartition(rest, '#');
    PlainPartition(f, '?');
    PlainParams(scheme, Partition(f, '?').0);
  }

  lemma PlainJoined(p: Url)
    requires AllPlain(p.scheme) && AllPlain(p.netloc) && AllPlain(p.path) && AllPlain(p.params) && AllPlain(p.query)
    ensures AllPlain(Unparse(p))
  {
    var params := if p.params == "" then "" else ";" + p.params;
    var query := if p.query == "" then "" else "?" + p.query;
    assert AllPlain(params) && AllPlain(query) && AllPlain("://");
    assert AllPlain(p.path + params + query);
  }

  lemma PlainOutput(d: Pieces)
    requires AllPlain(d.scheme) && AllPlain(d.netloc) && AllPlain(d.rest)
    ensures AllPlain(Unparse(Normal(SplitTail(Lower(d.scheme), d.netloc, d.rest))))
  {
    PlainLower(d.scheme);
    PlainLower(d.netloc);
    PlainPieces(Lower(d.scheme), d.netloc, d.rest);
    PlainJoined(Normal(SplitTail(Lower(d.scheme), d.netloc, d.rest)));
  }

  // ---- The condition on the refanged text ----

  /**
   * No brackets, parentheses or white space; a scheme; and a netloc that is a host with a port or
   * without. All of this can be checked before canonicalizing.
   */
  predicate Ordinary(text: string) {
    var d := Dissect(Unbroken(text));
    AllPlain(text) && d.scheme != "" && HostAndPort(d.netloc)
  }

  lemma {:induction false} FirstTextSkips(s: string, i: nat)
    requires i <= |s|
    ensures forall j :: i <= j < FirstText(s, i) ==> IsSpace(s[j])
    decreases |s| - i
  {
    if i < |s| && IsSpace(s[i]) { FirstTextSkips(s, i + 1); }
  }

  lemma {:induction false} FirstPrintableSkips(s: string, i: nat)
    requires i <= |s|
    ensures forall j :: i <= j < FirstPrintable(s, i) ==> s[j] <= ' '
    decreases |s| - i
  {
    if i < |s| && s[i] <= ' ' { FirstPrintableSkips(s, i + 1); }
  }

  lemma QuietSlice(s: string, i: nat, n: nat)
    requires Quiet(s) && i <= n <= |s| && forall j :: 0 <= j < i ==> !IsWord(s[j])
    ensures Quiet(s[i..n])
  {
    QuietSuffix(s, i);
    assert s[i..] == s[i..n] + s[n..];
    QuietPrefix(s[i..n], s[n..]);
  }

  lemma StripIsQuiet(s: string)
    requires Quiet(s)
    ensures Quiet(Strip(s))
  {
    FirstTextSkips(s, 0);
    QuietSlice(s, FirstText(s, 0), LastText(s, FirstText(s, 0), |s|));
  }

  lemma SubstitutedIsQuiet(s: string)
    ensures Quiet(Strip(SubHxxp(s, false)))
  {
    SubstitutedHasNone(s, false);
    StripIsQuiet(SubHxxp(s, false));
  }

  /** A refanged and stripped text holds no hxxp. */
  lemma CleanIsQuiet(value: string)
    ensures Quiet(Clean(value))
  {
    SubstitutedIsQuiet(Replaced(value, |TOKENS|));
  }

  lemma UnbrokenIsQuiet(text: string)
    requires Quiet(text) && AllPlain(text)
    ensures Quiet(Unbroken(text)) && AllPlain(Unbroken(text))
  {
    var k := FirstPrintable(text, 0);
    var t := text[k..];
    FirstPrintableSkips(text, 0);
    QuietSuffix(text, k);
    WithoutBreaksShape(t, |t|);
    assert t[..|t|] == t;
  }

  lemma PiecesArePlain(u: string, d: Pieces)
    requires AllPlain(u) && u == d.scheme + "://" + d.netloc + d.rest
    ensures AllPlain(d.scheme) && AllPlain(d.netloc) && AllPlain(d.rest)
  {
    var n, m := |d.scheme|, |d.scheme| + 3 + |d.netloc|;
    assert d.scheme == u[..n] && d.netloc == u[n + 3..m] && d.rest == u[m..];
  }

  lemma PlainBrackets(check: BracketCheck, netloc: string)
    requires AllPlain(netloc)
    ensures BracketsAllowed(check, netloc)
  {
  }

  lemma PlainTextSettled(r: string)
    requires AllPlain(r) && Quiet(r)
    ensures TextSettled(r)
  {
    assert '[' !in r && '(' !in r;
    NoBracketNoToken(r, |TOKENS|);
  }

  /** What an ordinary text is cut into. */
  lemma OrdinaryPieces(text: string)
    requires Ordinary(text) && Quiet(text)
    ensures var d := Dissect(Unbroken(text));
      && AllPlain(d.scheme) && AllPlain(d.netloc) && AllPlain(d.rest)
      && NetlocText(d.netloc) && (d.rest == "" || EndsNetloc(d.rest[0]))
      && Quiet(d.scheme + "://" + d.netloc + d.rest)
  {
    UnbrokenIsQuiet(text);
    DissectShape(Unbroken(text));
    PiecesArePlain(Unbroken(text), Dissect(Unbroken(text)));
  }

  lemma OrdinaryParts(check: BracketCheck, text: string)
    requires Ordinary(text) && AllPlain(Dissect(Unbroken(text)).netloc)
    ensures var d := Dissect(Unbroken(text));
      UrlParts(check, text) == Some(Normal(SplitTail(Lower(d.scheme), d.netloc, d.rest)))
  {
    var d := Dissect(Unbroken(text));
    PlainBrackets(check, d.netloc);
  }

  lemma OrdinaryHost(check: BracketCheck, d: Pieces)
    requires AllPlain(d.netloc) && NetlocText(d.netloc) && HostAndPort(d.netloc)
    ensures HostSettled(check, Normal(SplitTail(Lower(d.scheme), d.netloc, d.rest)))
  {
    LowerKeepsColons(d.netloc);
    LowerKeeps(d.netloc, '/');
    HostStays(Lower(d.scheme), Lower(d.netloc));
    PlainLower(d.netloc);
    PlainBrackets(check, WithoutDefaultPort(Lower(d.scheme), Lower(d.netloc)));
  }

  /** An ordinary URL is accepted, and canonicalizing its canonical form again changes nothing. */
  lemma OrdinaryIsStable(check: BracketCheck, raw: string)
    requires Ordinary(Clean(raw))
    ensures UrlStable(check, raw)
  {
    var d := Dissect(Unbroken(Clean(raw)));
    CleanIsQuiet(raw);
    OrdinaryPieces(Clean(raw));
    OrdinaryParts(check, Clean(raw));
    OrdinaryHost(check, d);
    QuietUrl(d);
    PlainOutput(d);
    PlainTextSettled(Unparse(Normal(SplitTail(Lower(d.scheme), d.netloc, d.rest))));
  }
}
