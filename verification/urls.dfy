/**
 * URL splitting and reassembly as urllib.parse does it (urlparse, ParseResult.geturl),
 * the track-URL canonicaliser clean_track_url and the link normaliser normalize_link.
 * urllib.parse follows Python 3.13; urljoin is passed in as a function.
 */
module Urls {
  import opened Text

  datatype UrlParts = UrlParts(scheme: string, netloc: string, path: string, params: string, query: string, fragment: string)

  /** urllib.parse.uses_netloc */
  const USES_NETLOC: set<string> := {
    "", "ftp", "http", "gopher", "nntp", "telnet", "imap", "wais", "file", "mms", "https", "shttp",
    "snews", "prospero", "rtsp", "rtsps", "rtspu", "rsync", "svn", "svn+ssh", "sftp", "nfs", "git",
    "git+ssh", "ws", "wss", "itms-services"
  }

  /** urllib.parse.uses_params */
  const USES_PARAMS: set<string> := {
    "", "ftp", "hdl", "prospero", "http", "imap", "https", "shttp", "rtsp", "rtsps", "rtspu",
    "sip", "sips", "mms", "sftp", "tel"
  }

  predicate IsSchemeChar(c: char) {
    IsAsciiAlpha(c) || IsAsciiDigit(c) || c == '+' || c == '-' || c == '.'
  }

  /** The characters urlsplit strips from the front of a URL (C0 controls and space). */
  predicate IsC0OrSpace(c: char) { c <= ' ' }

  /** The characters urlsplit deletes everywhere in a URL. */
  predicate IsUnsafe(c: char) { c == '\t' || c == '\r' || c == '\n' }

  const UNSAFE: set<char> := {'\t', '\r', '\n'}

  /** The number of C0 controls and spaces at the front of s. */
  function LeadingC0(s: string): (n: nat)
    ensures n <= |s| && (n < |s| ==> !IsC0OrSpace(s[n]))
    ensures forall k :: 0 <= k < n ==> IsC0OrSpace(s[k])
    ensures s == [] || !IsC0OrSpace(s[0]) ==> n == 0
  {
    if s != [] && IsC0OrSpace(s[0]) then 1 + LeadingC0(s[1..]) else 0
  }

  function LStripC0(s: string): string {
    s[LeadingC0(s)..]
  }

  /**
   * Deletes every tab, CR and LF. The one-character ensures and RemoveUnsafeConcat
   * together fix the result: the other characters are kept, in order.
   */
  function RemoveUnsafe(s: string): (r: string)
    ensures HasNo(r, UNSAFE)
    ensures Within(r, s)
    ensures HasNo(s, UNSAFE) ==> r == s
    ensures |s| == 1 ==> r == if s[0] in UNSAFE then [] else s
  {
    if s == [] then []
    else
      var rest := RemoveUnsafe(s[1..]);
      SliceWithin(s, 1, |s|);
      if s[0] in UNSAFE then rest
      else
        HasNoConcat([s[0]], rest, UNSAFE);
        forall cs | HasNo(s, cs) ensures HasNo([s[0]] + rest, cs) {
          HasNoConcat([s[0]], rest, cs);
        }
        [s[0]] + rest
  }

  /** Removing the unsafe characters works piece by piece. */
  lemma {:induction false} RemoveUnsafeConcat(a: string, b: string)
    ensures RemoveUnsafe(a + b) == RemoveUnsafe(a) + RemoveUnsafe(b)
  {
    if a != [] {
      assert (a + b)[1..] == a[1..] + b;
      RemoveUnsafeConcat(a[1..], b);
    } else {
      assert a + b == b;
    }
  }

  /** The scheme test of urlsplit: text before the first ':', starting with an ASCII letter, all scheme characters. */
  function SplitScheme(u: string): (r: (string, string))
    ensures forall k :: 0 <= k < |r.0| ==> IsSchemeChar(r.0[k])
    ensures r.0 == "" || IsAsciiAlpha(r.0[0])
    ensures Lower(r.0) == r.0
    ensures Within(r.1, u)
  {
    var i := IndexOf(u, ':', 0);
    if 0 < i < |u| && IsAsciiAlpha(u[0]) && (forall k :: 0 <= k < i ==> IsSchemeChar(u[k])) then
      LowerIdempotent(u[..i]);
      SliceWithin(u, i + 1, |u|);
      (Lower(u[..i]), u[i + 1..])
    else
      ("", u)
  }

  /**
   * When urlsplit takes a scheme: exactly when some ':' follows a non-empty run of scheme
   * characters starting with a letter; the scheme is that run lower-cased, and the rest
   * is what follows the ':'. Otherwise u is left whole.
   */
  lemma SplitSchemeSpec(u: string)
    ensures var r := SplitScheme(u);
      && (r.0 == "" ==> r.1 == u)
      && (r.0 != "" ==> |r.0| < |u| && u[|r.0|] == ':' && Lower(u[..|r.0|]) == r.0 && r.1 == u[|r.0| + 1..])
      && ((exists i :: 0 < i < |u| && u[i] == ':' && IsAsciiAlpha(u[0]) && forall k :: 0 <= k < i ==> IsSchemeChar(u[k]))
          ==> r.0 != "")
  {
  }

  /** The network location: after a leading "//", up to the first '/', '?' or '#'. */
  function SplitNetloc(rest: string): (r: (string, string))
    ensures HasNo(r.0, {'/', '?', '#'})
    ensures Within(r.0, rest) && Within(r.1, rest)
    ensures r.0 != "" ==> r.1 == [] || r.1[0] in {'/', '?', '#'}
  {
    if StartsWith(rest, "//") then
      var k := IndexOfAny(rest, {'/', '?', '#'}, 2);
      SliceWithin(rest, 2, k);
      SliceWithin(rest, k, |rest|);
      (rest[2..k], rest[k..])
    else
      ("", rest)
  }

  /**
   * A network location is split off only after a leading "//": it runs up to the first
   * '/', '?' or '#' (or the end), and "//", it and the rest give back the input.
   */
  lemma SplitNetlocSpec(rest: string)
    ensures var r := SplitNetloc(rest);
      && (StartsWith(rest, "//") ==> "//" + r.0 + r.1 == rest && (r.1 == [] || r.1[0] in {'/', '?', '#'}))
      && (!StartsWith(rest, "//") ==> r == ("", rest))
  {
  }

  /** Splits at the first occurrence of c, which is dropped; (s, "") when c does not occur. */
  function SplitFirst(s: string, c: char): (r: (string, string))
    ensures HasNo(r.0, {c})
    ensures |r.0| <= |s| && r.0 == s[..|r.0|]
    ensures Within(r.0, s) && Within(r.1, s)
  {
    var j := IndexOf(s, c, 0);
    SliceWithin(s, 0, j);
    if j < |s| then
      SliceWithin(s, j + 1, |s|);
      (s[..j], s[j + 1..])
    else (s, "")
  }

  /** When c occurs, the two parts are what comes before its first occurrence and what follows it. */
  predicate CutAt(s: string, c: char, before: string, after: string) {
    && (c in s ==> s == before + [c] + after && c !in before)
    && (c !in s ==> before == s && after == "")
  }

  lemma SplitFirstSpec(s: string, c: char)
    ensures CutAt(s, c, SplitFirst(s, c).0, SplitFirst(s, c).1)
  {
    var j := IndexOf(s, c, 0);
    if j < |s| {
      assert s == s[..j] + [c] + s[j + 1..];
      HasNoIn(s[..j], c);
    } else {
      HasNoIn(s, c);
    }
  }

  /** _splitparams: the ';' parameters of the last path segment. */
  function SplitParams(u: string): (string, string)
    requires ';' in u
  {
    match RFind(u, '/')
    case Some(s) =>
      var i := IndexOf(u, ';', s);
      if i == |u| then (u, "") else (u[..i], u[i + 1..])
    case None =>
      var i := IndexOf(u, ';', 0);
      (u[..i], u[i + 1..])
  }

  /** Both parts are made of characters of u; with parameters they rejoin to u, without them the path is a prefix of u. */
  lemma SplitParamsFacts(u: string)
    requires ';' in u
    ensures var r := SplitParams(u);
      && Within(r.0, u) && Within(r.1, u)
      && (r.1 != "" ==> r.0 + ";" + r.1 == u)
      && (r.1 == "" ==> |r.0| <= |u| && r.0 == u[..|r.0|])
  {
    var from := match RFind(u, '/') case Some(s) => s case None => 0;
    var i := IndexOf(u, ';', from);
    if i < |u| {
      assert u == u[..i] + ";" + u[i + 1..];
      SliceWithin(u, 0, i);
      SliceWithin(u, i + 1, |u|);
    } else {
      SliceWithin(u, 0, |u|);
      assert u[0..|u|] == u;
    }
    assert "" == u[0..0];
    SliceWithin(u, 0, 0);
  }

  function SplitPathParams(scheme: string, path: string): (string, string) {
    if scheme in USES_PARAMS && ';' in path then SplitParams(path) else (path, "")
  }

  /** Both parts are made of characters of the path, and rejoined they give a prefix of it. */
  lemma SplitPathParamsFacts(scheme: string, path: string)
    ensures var r := SplitPathParams(scheme, path);
      && Within(r.0, path) && Within(r.1, path)
      && var w := JoinPathParams(r.0, r.1); |w| <= |path| && w == path[..|w|]
  {
    if scheme in USES_PARAMS && ';' in path {
      SplitParamsFacts(path);
    } else {
      SliceWithin(path, 0, |path|);
      assert path[0..|path|] == path;
      assert "" == path[0..0];
      SliceWithin(path, 0, 0);
    }
  }

  function JoinPathParams(path: string, params: string): string {
    if params != "" then path + ";" + params else path
  }

  /** urlparse(url): the scheme is lower-cased scheme characters, the network location holds no delimiter. */
  function UrlParse(url: string): (r: UrlParts)
    ensures Lower(r.scheme) == r.scheme && forall k :: 0 <= k < |r.scheme| ==> IsSchemeChar(r.scheme[k])
    ensures HasNo(r.netloc, {'/', '?', '#'})
  {
    var u := RemoveUnsafe(LStripC0(url));
    var (scheme, rest) := SplitScheme(u);
    var (netloc, rest2) := SplitNetloc(rest);
    var (rest3, fragment) := SplitFirst(rest2, '#');
    var (path0, query) := SplitFirst(rest3, '?');
    var (path, params) := SplitPathParams(scheme, path0);
    UrlParts(scheme, netloc, path, params, query, fragment)
  }

  /** What urlparse has left of the URL once the scheme and the network location are split off. */
  function AfterNetloc(url: string): string {
    SplitNetloc(SplitScheme(RemoveUnsafe(LStripC0(url))).1).1
  }

  /**
   * urlparse cuts the fragment after the first '#' of what follows the network location, the
   * query after the first '?' of what precedes that '#', and splits the rest into path and
   * parameters.
   */
  lemma UrlParseCuts(url: string)
    ensures var p := UrlParse(url);
      var w := AfterNetloc(url);
      var h := SplitFirst(w, '#').0;
      var path0 := SplitFirst(h, '?').0;
      && CutAt(w, '#', h, p.fragment)
      && CutAt(h, '?', path0, p.query)
      && (p.path, p.params) == SplitPathParams(p.scheme, path0)
  {
    var w := AfterNetloc(url);
    SplitFirstSpec(w, '#');
    SplitFirstSpec(SplitFirst(w, '#').0, '?');
  }

  /** The path and network-location part of urlunsplit. */
  function JoinNetloc(scheme: string, netloc: string, url: string): string {
    if netloc != "" then "//" + netloc + (if url != "" && url[0] != '/' then "/" + url else url)
    else if StartsWith(url, "//") then "//" + url
    else if scheme != "" && scheme in USES_NETLOC && (url == "" || url[0] == '/') then "//" + url
    else url
  }

  /** urlunparse(parts), which is also ParseResult.geturl(): "scheme:" leads, "#fragment" ends. */
  function UrlUnparse(p: UrlParts): (r: string)
    ensures p.scheme != "" ==> StartsWith(r, p.scheme + ":")
    ensures p.fragment != "" ==> |p.fragment| < |r| && r[|r| - |p.fragment| - 1..] == "#" + p.fragment
  {
    (if p.scheme != "" then p.scheme + ":" else "")
    + JoinNetloc(p.scheme, p.netloc, JoinPathParams(p.path, p.params))
    + (if p.query != "" then "?" + p.query else "")
    + (if p.fragment != "" then "#" + p.fragment else "")
  }

  predicate IsTrackingParam(param: string) {
    StartsWith(param, "in=")
  }

  /**
   * The list comprehension over the parameters: a single parameter is kept exactly when it is
   * not a tracking parameter, and DropTrackingParamsConcat makes the filter work piece by piece,
   * so the kept parameters keep their order and their repetitions.
   */
  function DropTrackingParams(params: seq<string>): (kept: seq<string>)
    ensures forall x :: x in kept <==> x in params && !IsTrackingParam(x)
    ensures |kept| <= |params|
    ensures |params| == 1 ==> kept == if IsTrackingParam(params[0]) then [] else params
  {
    if params == [] then []
    else if IsTrackingParam(params[0]) then DropTrackingParams(params[1..])
    else [params[0]] + DropTrackingParams(params[1..])
  }

  lemma {:induction false} DropTrackingParamsConcat(a: seq<string>, b: seq<string>)
    ensures DropTrackingParams(a + b) == DropTrackingParams(a) + DropTrackingParams(b)
    decreases |a|
  {
    if a == [] {
      assert a + b == b;
    } else {
      var ab := a + b;
      assert ab[0] == a[0] && ab[1..] == a[1..] + b;
      DropTrackingParamsConcat(a[1..], b);
      var rest := DropTrackingParams(a[1..]) + DropTrackingParams(b);
      assert DropTrackingParams(ab) == if IsTrackingParam(a[0]) then rest else [a[0]] + rest;
    }
  }

  /** The query parameters clean_track_url keeps: the '&'-separated pieces not starting with "in=". */
  function SurvivingParams(query: string): (kept: seq<string>)
    ensures forall k :: 0 <= k < |kept| ==> !IsTrackingParam(kept[k]) && HasNo(kept[k], {'&'}) && Within(kept[k], query)
    ensures query != "" ==> forall x :: x in kept <==> x in SplitOn(query, '&') && !IsTrackingParam(x)
    ensures query != "" ==> kept == DropTrackingParams(SplitOn(query, '&'))
    ensures query == "" ==> kept == []
  {
    if query == "" then []
    else
      var parts := SplitOn(query, '&');
      var kept := DropTrackingParams(parts);
      assert forall k :: 0 <= k < |kept| ==> kept[k] in parts;
      kept
  }

  /** clean_track_url, as written: a surviving query is stored with its own '?', so geturl() writes "??". */
  function CleanTrackUrl(url: string): (r: string)
    ensures '#' !in r
    ensures r == [] || r[|r| - 1] != '?'
  {
    ParsedHasNoHash(url);
    CleanParts(UrlParse(url))
  }

  /** clean_track_url once urlparse has split the URL: new query, no fragment, trailing '?' dropped. */
  function CleanParts(p: UrlParts): (r: string)
    requires HasNo(p.scheme, {'#'}) && HasNo(p.netloc, {'#'}) && HasNo(p.path, {'#'}) && HasNo(p.params, {'#'})
    requires HasNo(p.query, {'#'})
    ensures '#' !in r
    ensures r == [] || r[|r| - 1] != '?'
  {
    var base := p.(query := CleanedQuery(p.query), fragment := "");
    UnparseHasNo(base, {'#'});
    var joined := UrlUnparse(base);
    RStripKeepsHasNo(joined);
    RStripChar(joined, '?')
  }

  lemma RStripKeepsHasNo(joined: string)
    requires HasNo(joined, {'#'})
    ensures var r := RStripChar(joined, '?'); '#' !in r && (r == [] || r[|r| - 1] != '?')
  {
    var r := RStripChar(joined, '?');
    SliceWithin(joined, 0, |r|);
    HasNoIn(r, '#');
  }

  /** The new query text: "?" followed by the surviving parameters, or nothing. */
  function CleanedQuery(query: string): (q: string)
    ensures HasNo(query, {'#'}) ==> HasNo(q, {'#'})
  {
    var kept := SurvivingParams(query);
    KeptHasNo(query, {'#'});
    HasNoConcat("?", JoinWith(kept, "&"), {'#'});
    if kept != [] then "?" + JoinWith(kept, "&") else ""
  }

  /** The surviving parameters, rejoined with '&', avoid every class the query and '&' avoid. */
  lemma KeptHasNo(query: string, cs: set<char>)
    ensures HasNo(query, cs) && '&' !in cs ==> HasNo(JoinWith(SurvivingParams(query), "&"), cs)
  {
    if HasNo(query, cs) && '&' !in cs {
      JoinWithHasNo(SurvivingParams(query), "&", cs);
    }
  }

  lemma ParsedHasNoHash(url: string)
    ensures var p := UrlParse(url);
      HasNo(p.scheme, {'#'}) && HasNo(p.netloc, {'#'}) && HasNo(p.path, {'#'}) && HasNo(p.params, {'#'})
      && HasNo(p.query, {'#'})
  {
    var u := RemoveUnsafe(LStripC0(url));
    var (scheme, rest) := SplitScheme(u);
    var (netloc, rest2) := SplitNetloc(rest);
    var (rest3, fragment) := SplitFirst(rest2, '#');
    var (path0, query) := SplitFirst(rest3, '?');
    var (path, params) := SplitPathParams(scheme, path0);
    SplitPathParamsFacts(scheme, path0);
    assert HasNo(path0, {'#'});
    assert HasNo(query, {'#'});
    assert HasNo(netloc, {'#'});
    assert HasNo(path, {'#'}) && HasNo(params, {'#'});
  }

  /** urlunparse adds only ':', '/', ';', and '?' or '#' before a non-empty query or fragment. */
  lemma UnparseHasNo(p: UrlParts, cs: set<char>)
    requires HasNo(p.scheme, cs) && HasNo(p.netloc, cs) && HasNo(p.path, cs) && HasNo(p.params, cs)
    requires HasNo(p.query, cs) && HasNo(p.fragment, cs)
    requires ':' !in cs && '/' !in cs && ';' !in cs
    requires p.query != "" ==> '?' !in cs
    requires p.fragment != "" ==> '#' !in cs
    ensures HasNo(UrlUnparse(p), cs)
  {
    var url := JoinPathParams(p.path, p.params);
    assert HasNo(";", cs) && HasNo("/", cs) && HasNo("//", cs) && HasNo(":", cs);
    if p.params != "" {
      HasNoConcat(p.path, ";", cs);
      HasNoConcat(p.path + ";", p.params, cs);
    }
    HasNoConcat("/", url, cs);
    HasNoConcat("//", url, cs);
    HasNoConcat("//", p.netloc, cs);
    HasNoConcat("//" + p.netloc, url, cs);
    HasNoConcat("//" + p.netloc, "/" + url, cs);
    var sp := if p.scheme != "" then p.scheme + ":" else "";
    HasNoConcat(p.scheme, ":", cs);
    var net := JoinNetloc(p.scheme, p.netloc, url);
    assert HasNo(net, cs);
    var q := if p.query != "" then "?" + p.query else "";
    HasNoConcat("?", p.query, cs);
    var f := if p.fragment != "" then "#" + p.fragment else "";
    HasNoConcat("#", p.fragment, cs);
    HasNoConcat(sp, net, cs);
    HasNoConcat(sp + net, q, cs);
    HasNoConcat(sp + net + q, f, cs);
  }

  /**
   * A parse with a host and no query or fragment, as clean_track_url leaves it when no
   * parameter survives: the shape that reassembles and re-parses to itself.
   */
  ghost predicate Canonical(b: UrlParts) {
    && b.netloc != "" && b.query == "" && b.fragment == ""
    && (forall k :: 0 <= k < |b.scheme| ==> IsSchemeChar(b.scheme[k]))
    && (b.scheme == "" || IsAsciiAlpha(b.scheme[0]))
    && Lower(b.scheme) == b.scheme
    && HasNo(b.netloc, {'/', '?', '#'}) && HasNo(b.netloc, UNSAFE)
    && var w := JoinPathParams(b.path, b.params);
       (w == "" || w[0] == '/') && HasNo(w, {'?', '#'}) && HasNo(w, UNSAFE)
       && SplitPathParams(b.scheme, w) == (b.path, b.params)
  }

  /** Scheme characters are letters, digits, '+', '-' and '.', so the scheme avoids any class without them. */
  lemma SchemeHasNo(scheme: string, cs: set<char>)
    requires forall k :: 0 <= k < |scheme| ==> IsSchemeChar(scheme[k])
    requires forall c :: IsSchemeChar(c) ==> c !in cs
    ensures HasNo(scheme, cs)
  {
  }

  lemma JoinPathParamsHasNo(path: string, params: string, cs: set<char>)
    requires HasNo(JoinPathParams(path, params), cs)
    ensures HasNo(path, cs) && HasNo(params, cs)
  {
    if params != "" {
      HasNoConcat(path + ";", params, cs);
      HasNoConcat(path, ";", cs);
    }
  }

  /** Re-splitting the ';' parameters of a rejoined path gives the same path and parameters. */
  lemma ParamsStable(scheme: string, path0: string)
    ensures var r := SplitPathParams(scheme, path0);
      SplitPathParams(scheme, JoinPathParams(r.0, r.1)) == r
  {
    var r := SplitPathParams(scheme, path0);
    if scheme in USES_PARAMS && ';' in path0 {
      SplitParamsFacts(path0);
    }
    if scheme in USES_PARAMS && ';' in path0 && r.1 == "" {
      match RFind(path0, '/')
      case Some(s) =>
        var i := IndexOf(path0, ';', s);
        if i < |path0| {
          var a := path0[..i];
          assert r.0 == a;
          assert s < i;
          assert a[s] == '/';
          assert RFind(a, '/') == Some(s);
          assert IndexOf(a, ';', s) == |a|;
        }
      case None =>
        var i := IndexOf(path0, ';', 0);
        assert r.0 == path0[..i];
        assert ';' !in r.0;
    }
  }

  lemma ParseIsCanonical(url: string)
    requires UrlParse(url).netloc != ""
    ensures Canonical(UrlParse(url).(query := "", fragment := ""))
  {
    var u := RemoveUnsafe(LStripC0(url));
    var (scheme, rest) := SplitScheme(u);
    var (netloc, rest2) := SplitNetloc(rest);
    var (rest3, fragment) := SplitFirst(rest2, '#');
    var (path0, query) := SplitFirst(rest3, '?');
    assert UrlParse(url) == UrlParts(scheme, netloc, SplitPathParams(scheme, path0).0, SplitPathParams(scheme, path0).1, query, fragment);
    assert path0 == rest2[..|path0|];
    if path0 != "" {
      assert path0[0] == rest2[0];
    }
    assert HasNo(path0, {'?', '#'}) by {
      assert HasNo(path0, {'#'});
      assert HasNo(path0, {'?'});
    }
    assert HasNo(netloc, UNSAFE) && HasNo(path0, UNSAFE);
    CanonicalFromParts(scheme, netloc, path0);
  }

  /** A host and a path with the shapes urlparse gives them make a canonical parse. */
  lemma CanonicalFromParts(scheme: string, netloc: string, path0: string)
    requires forall k :: 0 <= k < |scheme| ==> IsSchemeChar(scheme[k])
    requires scheme == "" || IsAsciiAlpha(scheme[0])
    requires Lower(scheme) == scheme
    requires netloc != "" && HasNo(netloc, {'/', '?', '#'}) && HasNo(netloc, UNSAFE)
    requires path0 == "" || path0[0] == '/'
    requires HasNo(path0, {'?', '#'}) && HasNo(path0, UNSAFE)
    ensures var r := SplitPathParams(scheme, path0);
      Canonical(UrlParts(scheme, netloc, r.0, r.1, "", ""))
  {
    var r := SplitPathParams(scheme, path0);
    SplitPathParamsFacts(scheme, path0);
    ParamsStable(scheme, path0);
    var w := JoinPathParams(r.0, r.1);
    if w != "" {
      assert w[0] == path0[0];
    }
    SliceWithin(path0, 0, |w|);
  }

  /** Reassembling a canonical parse gives "scheme:" (if any), "//", the host and the path. */
  lemma UnparseCanonical(b: UrlParts)
    requires Canonical(b)
    ensures UrlUnparse(b) == (if b.scheme != "" then b.scheme + ":" else "") + "//" + b.netloc + JoinPathParams(b.path, b.params)
    ensures HasNo(UrlUnparse(b), UNSAFE + {'?', '#'})
  {
    UnparseWithHost(b);
    CanonicalHasNo(b, UNSAFE + {'?', '#'});
  }

  /** With a host and a path that is empty or starts with '/', urlunparse writes "//" + host + path. */
  lemma UnparseWithHost(b: UrlParts)
    requires b.netloc != "" && b.query == "" && b.fragment == ""
    requires var w := JoinPathParams(b.path, b.params); w == "" || w[0] == '/'
    ensures UrlUnparse(b) == (if b.scheme != "" then b.scheme + ":" else "") + "//" + b.netloc + JoinPathParams(b.path, b.params)
  {
    var w := JoinPathParams(b.path, b.params);
    assert JoinNetloc(b.scheme, b.netloc, w) == "//" + b.netloc + w;
  }

  /** A canonical parse reassembles without query, fragment or unsafe characters. */
  lemma CanonicalHasNo(b: UrlParts, cs: set<char>)
    requires Canonical(b)
    requires cs == UNSAFE + {'?', '#'}
    ensures HasNo(UrlUnparse(b), cs)
  {
    var w := JoinPathParams(b.path, b.params);
    assert HasNo(b.scheme, cs) by {
      SchemeHasNo(b.scheme, cs);
    }
    assert HasNo(b.netloc, cs) by {
      HasNoUnion(b.netloc, {'/', '?', '#'}, UNSAFE, cs);
    }
    assert HasNo(b.path, cs) && HasNo(b.params, cs) by {
      HasNoUnion(w, {'?', '#'}, UNSAFE, cs);
      JoinPathParamsHasNo(b.path, b.params, cs);
    }
    UnparseHasNo(b, cs);
  }

  lemma HasNoUnion(s: string, a: set<char>, b: set<char>, cs: set<char>)
    requires HasNo(s, a) && HasNo(s, b) && cs <= a + b
    ensures HasNo(s, cs)
  {
  }

  /** The scheme split of a reassembled URL finds the scheme it was built from. */
  lemma SplitSchemeOfBuilt(scheme: string, rest: string)
    requires forall k :: 0 <= k < |scheme| ==> IsSchemeChar(scheme[k])
    requires scheme == "" || IsAsciiAlpha(scheme[0])
    requires Lower(scheme) == scheme
    requires StartsWith(rest, "/")
    ensures SplitScheme((if scheme != "" then scheme + ":" else "") + rest) == (scheme, rest)
  {
    var t := (if scheme != "" then scheme + ":" else "") + rest;
    if scheme != "" {
      assert forall k :: 0 <= k < |scheme| ==> t[k] == scheme[k] && IsSchemeChar(t[k]);
      assert t[|scheme|] == ':';
      assert IndexOf(t, ':', 0) == |scheme|;
      assert t[..|scheme|] == scheme;
      assert t[|scheme| + 1..] == rest;
    } else {
      assert rest[..1][0] == rest[0] == '/';
      assert t == rest && !IsAsciiAlpha(t[0]);
    }
  }

  /** The network-location split of "//" + host + path, for a host without '/', '?', '#'. */
  lemma SplitNetlocOfBuilt(netloc: string, w: string)
    requires HasNo(netloc, {'/', '?', '#'})
    requires w == "" || w[0] == '/'
    ensures SplitNetloc("//" + netloc + w) == (netloc, w)
  {
    var rest := "//" + netloc + w;
    assert IndexOfAny(rest, {'/', '?', '#'}, 2) == 2 + |netloc| by {
      forall k | 2 <= k < 2 + |netloc| ensures rest[k] !in {'/', '?', '#'} {
        assert rest[k] == netloc[k - 2];
      }
      if w != "" { assert rest[2 + |netloc|] == '/'; }
    }
    assert rest[2..2 + |netloc|] == netloc;
    assert rest[2 + |netloc|..] == w;
  }

  lemma ReparseCanonical(b: UrlParts)
    requires Canonical(b)
    ensures UrlParse(UrlUnparse(b)) == b
  {
    var w := JoinPathParams(b.path, b.params);
    var rest := "//" + b.netloc + w;
    var t := UrlUnparse(b);
    assert t == (if b.scheme != "" then b.scheme + ":" else "") + rest && HasNo(t, UNSAFE + {'?', '#'}) by {
      UnparseCanonical(b);
    }
    assert LStripC0(t) == t by {
      assert t[0] == '/' || IsAsciiAlpha(t[0]);
    }
    assert RemoveUnsafe(t) == t by {
      assert HasNo(t, UNSAFE);
    }
    SplitSchemeOfBuilt(b.scheme, rest);
    SplitNetlocOfBuilt(b.netloc, w);
    UrlParseOfSplit(t, t, b.scheme, rest, b.netloc, w);
  }

  /** urlparse once the scheme and network location are known and the rest has no query or fragment. */
  lemma UrlParseOfSplit(url: string, u: string, scheme: string, rest: string, netloc: string, w: string)
    requires RemoveUnsafe(LStripC0(url)) == u
    requires SplitScheme(u) == (scheme, rest) && SplitNetloc(rest) == (netloc, w)
    requires HasNo(w, {'?', '#'})
    ensures UrlParse(url) == UrlParts(scheme, netloc, SplitPathParams(scheme, w).0, SplitPathParams(scheme, w).1, "", "")
  {
    HasNoIn(w, '#');
    HasNoIn(w, '?');
    assert SplitFirst(w, '#') == (w, "");
    assert SplitFirst(w, '?') == (w, "");
  }

  /**
   * When no query parameter survives and the URL has a host, clean_track_url gives exactly
   * scheme://netloc + path (with any ';' parameters), and cleaning that again changes nothing.
   */
  lemma CleanIdempotentWithoutSurvivors(url: string)
    requires UrlParse(url).netloc != ""
    requires SurvivingParams(UrlParse(url).query) == []
    ensures var p := UrlParse(url);
      CleanTrackUrl(url) == (if p.scheme != "" then p.scheme + ":" else "") + "//" + p.netloc + JoinPathParams(p.path, p.params)
    ensures CleanTrackUrl(CleanTrackUrl(url)) == CleanTrackUrl(url)
  {
    var p := UrlParse(url);
    var b := p.(query := "", fragment := "");
    ParseIsCanonical(url);
    UnparseCanonical(b);
    var t := UrlUnparse(b);
    assert t == [] || t[|t| - 1] != '?';
    assert RStripChar(t, '?') == t;
    assert CleanTrackUrl(url) == t;
    ReparseCanonical(b);
    assert CleanedQuery("") == "";
    assert CleanTrackUrl(t) == RStripChar(UrlUnparse(b), '?');
  }

  /**
   * A surviving parameter keeps the '?' that clean_track_url prepends to it, and geturl()
   * adds its own, so the result holds "??".
   * When some query parameter survives, the cleaned URL is the query-less URL followed by
   * "??" and the surviving parameters joined with '&', with trailing '?' removed.
   */
  lemma CleanWithSurvivors(url: string)
    requires SurvivingParams(UrlParse(url).query) != []
    ensures CleanTrackUrl(url)
      == RStripChar(UrlUnparse(UrlParse(url).(query := "", fragment := "")) + "??"
                    + JoinWith(SurvivingParams(UrlParse(url).query), "&"), '?')
  {
    var p := UrlParse(url);
    var j := JoinWith(SurvivingParams(p.query), "&");
    var a := UrlUnparse(p.(query := "", fragment := ""));
    assert CleanedQuery(p.query) == "?" + j;
    UnparseWithQuery(p.(fragment := ""), "?" + j);
    DoubleMark(a, j);
  }

  lemma DoubleMark(a: string, j: string)
    ensures a + "?" + ("?" + j) == a + "??" + j
  {
    assert a + "?" + ("?" + j) == a + ("??" + j);
  }

  lemma UnparseWithQuery(p: UrlParts, q: string)
    requires q != "" && p.fragment == ""
    ensures UrlUnparse(p.(query := q)) == UrlUnparse(p.(query := "")) + "?" + q
  {
  }

  /** For instance https://x/a?in=z&q=1 is cleaned to https://x/a??q=1. */
  lemma CleanKeepsDoubleQuestionMark(url: string)
    requires url == "https://x/a?in=z&q=1"
    ensures CleanTrackUrl(url) == "https://x/a??q=1"
  {
    ParseExample(url);
    QueryExample();
    UnparseExample();
  }

  lemma ParseExample(url: string)
    requires url == "https://x/a?in=z&q=1"
    ensures UrlParse(url) == UrlParts("https", "x", "/a", "", "in=z&q=1", "")
  {
    var rest, w := "//x/a?in=z&q=1", "/a?in=z&q=1";
    ExampleUntouched(url);
    ExampleScheme(url, rest);
    ExampleNetloc(rest, w);
    ExampleCuts(w);
    ExamplePath("https", "/a");
    UrlParseOfParts(url, url, "https", rest, "x", w, w, "", "/a", "in=z&q=1");
  }

  lemma ExamplePath(scheme: string, path0: string)
    requires path0 == "/a"
    ensures SplitPathParams(scheme, path0) == (path0, "")
  {
    assert path0[0] != ';' && path0[1] != ';';
  }

  /** urlparse, step by step: the parts each step splits off make up the result. */
  lemma UrlParseOfParts(url: string, u: string, scheme: string, rest: string, netloc: string, w: string,
                        h: string, fragment: string, path0: string, query: string)
    requires RemoveUnsafe(LStripC0(url)) == u
    requires SplitScheme(u) == (scheme, rest) && SplitNetloc(rest) == (netloc, w)
    requires SplitFirst(w, '#') == (h, fragment) && SplitFirst(h, '?') == (path0, query)
    ensures UrlParse(url) == UrlParts(scheme, netloc, SplitPathParams(scheme, path0).0, SplitPathParams(scheme, path0).1, query, fragment)
  {
  }

  lemma ExampleUntouched(url: string)
    requires url == "https://x/a?in=z&q=1"
    ensures RemoveUnsafe(LStripC0(url)) == url
  {
    assert LStripC0(url) == url by {
      assert !IsC0OrSpace(url[0]);
    }
    assert HasNo(url, UNSAFE);
  }

  lemma ExampleScheme(url: string, rest: string)
    requires url == "https://x/a?in=z&q=1" && rest == "//x/a?in=z&q=1"
    ensures SplitScheme(url) == ("https", rest)
  {
    assert url == "https" + ":" + rest;
    SplitSchemeOfBuilt("https", rest);
  }

  lemma ExampleNetloc(rest: string, w: string)
    requires rest == "//x/a?in=z&q=1" && w == "/a?in=z&q=1"
    ensures SplitNetloc(rest) == ("x", w)
  {
    assert rest == "//" + "x" + w;
    SplitNetlocOfBuilt("x", w);
  }

  lemma ExampleCuts(w: string)
    requires w == "/a?in=z&q=1"
    ensures SplitFirst(w, '#') == (w, "") && SplitFirst(w, '?') == ("/a", "in=z&q=1")
  {
    assert forall k :: 0 <= k < |w| ==> w[k] != '#';
    IndexOfAt(w, '?', 0, 2);
    assert w[..2] == "/a" && w[3..] == "in=z&q=1";
  }

  lemma UnparseExample()
    ensures RStripChar(UrlUnparse(UrlParts("https", "x", "/a", "", "?q=1", "")), '?') == "https://x/a??q=1"
  {
    assert JoinNetloc("https", "x", "/a") == "//x/a";
    var t := UrlUnparse(UrlParts("https", "x", "/a", "", "?q=1", ""));
    assert t == "https://x/a??q=1";
    assert TrailingRunStart(t, '?') == |t|;
  }

  lemma QueryExample()
    ensures CleanedQuery("in=z&q=1") == "?q=1"
  {
    var q := "in=z&q=1";
    assert IndexOf(q, '&', 0) == 4;
    assert q[..4] == "in=z" && q[5..] == "q=1";
    assert IndexOf("q=1", '&', 0) == 3;
    assert SplitOn("q=1", '&') == ["q=1"];
    assert SplitOn(q, '&') == ["in=z", "q=1"];
    assert IsTrackingParam("in=z") && !IsTrackingParam("q=1");
    assert DropTrackingParams(["in=z", "q=1"]) == ["q=1"];
  }

  lemma PrefixOfConcat(a: string, b: string)
    ensures StartsWith(a + b, a)
  {
    assert (a + b)[..|a|] == a;
  }

  /** A link starting with '/' is neither "http://" nor "https://" absolute. */
  lemma SlashNotHttp(s: string)
    requires StartsWith(s, "/") || StartsWith(s, "//")
    ensures !StartsWith(s, "http://") && !StartsWith(s, "https://")
  {
    if StartsWith(s, "//") { assert s[0] == s[..2][0] == '/'; } else { assert s[0] == s[..1][0] == '/'; }
  }

  lemma ConcatPrefix(a: string, b: string)
    ensures a + "://" + b == (a + ":") + ("//" + b) == (a + "://") + b
    ensures StartsWith(a + "://" + b, a + ":") && StartsWith(a + "://" + b, a + "://")
  {
    assert a + "://" + b == (a + ":") + ("//" + b) == (a + "://") + b;
    PrefixOfConcat(a + ":", "//" + b);
    PrefixOfConcat(a + "://", b);
  }

  /** normalize_link: protocol-relative, root-relative and absolute http(s) links are completed by hand, the rest by urljoin. */
  function NormalizeLink(trackUrl: string, href: string, urljoin: (string, string) -> string): (r: string)
    ensures StartsWith(href, "/") ==> StartsWith(r, UrlParse(trackUrl).scheme + "://")
    ensures StartsWith(href, "//") ==> r == UrlParse(trackUrl).scheme + ":" + href
    ensures StartsWith(href, "/") && !StartsWith(href, "//")
            ==> r == UrlParse(trackUrl).scheme + "://" + UrlParse(trackUrl).netloc + href
    ensures StartsWith(href, "http://") || StartsWith(href, "https://") ==> r == href
    ensures !StartsWith(href, "/") && !StartsWith(href, "http://") && !StartsWith(href, "https://")
            ==> r == urljoin(trackUrl, href)
  {
    if StartsWith(href, "//") then
      SlashNotHttp(href);
      assert href == "//" + href[2..];
      ConcatPrefix(UrlParse(trackUrl).scheme, href[2..]);
      UrlParse(trackUrl).scheme + ":" + href
    else if StartsWith(href, "/") then
      SlashNotHttp(href);
      ConcatPrefix(UrlParse(trackUrl).scheme, UrlParse(trackUrl).netloc + href);
      UrlParse(trackUrl).scheme + "://" + UrlParse(trackUrl).netloc + href
    else if StartsWith(href, "http://") || StartsWith(href, "https://") then
      href
    else
      urljoin(trackUrl, href)
  }

  /** A link that starts with "http://" or "https://" once the scheme is one of those two. */
  lemma HttpSchemePrefix(scheme: string, r: string)
    requires scheme in {"http", "https"}
    requires StartsWith(r, scheme + "://")
    ensures StartsWith(r, "http://") || StartsWith(r, "https://")
  {
    if scheme == "http" {
      assert scheme + "://" == "http://";
    } else {
      assert scheme + "://" == "https://";
    }
  }

  /**
   * On an http or https track page, a relative link that starts with '/' is completed to an
   * absolute link of the same scheme, and normalising that link again leaves it unchanged.
   */
  lemma NormalizeRootRelativeIdempotent(trackUrl: string, href: string, urljoin: (string, string) -> string)
    requires UrlParse(trackUrl).scheme in {"http", "https"}
    requires StartsWith(href, "/")
    ensures NormalizeLink(trackUrl, NormalizeLink(trackUrl, href, urljoin), urljoin) == NormalizeLink(trackUrl, href, urljoin)
  {
    HttpSchemePrefix(UrlParse(trackUrl).scheme, NormalizeLink(trackUrl, href, urljoin));
  }
}
