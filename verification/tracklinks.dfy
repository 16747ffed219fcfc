/**
 * Track links found in the anchors of a playlist page: the track-URL pattern, the reserved
 * path check and the anchor filter of parse_track_links_from_html.
 */
module TrackLinks {
  import opened Text
  import opened Urls

  /** Second path segments that name a profile page rather than a track. */
  const RESERVED_TRACK_SLUGS: set<string> := {
    "sets", "albums", "tracks", "followers", "following", "likes", "reposts", "library",
    "popular-tracks", "groups", "comments", "events"
  }

  const RESERVED_FIRST_SEGMENTS: set<string> := {
    "about", "contributors", "discover", "popular", "charts", "company", "jobs", "press", "legal",
    "advertisers", "terms-of-use", "privacy", "pages", "stream", "stations", "getstarted",
    "the-upload", "you"
  }

  const RESERVED_SECOND_SEGMENTS: set<string> := {
    "sets", "albums", "tracks", "followers", "following", "library", "likes", "comments",
    "reposts", "popular-tracks"
  }

  /** is_reserved_path: the checks in the order the program makes them. */
  function IsReservedPath(segments: seq<string>): (r: bool)
    ensures |segments| >= 2 ==> r == IsReservedPath(segments[..2])
  {
    if segments == [] then true
    else
      var first := Lower(segments[0]);
      if first in RESERVED_FIRST_SEGMENTS then true
      else if |segments| >= 2 && Lower(segments[1]) in RESERVED_SECOND_SEGMENTS then true
      else if StartsWith(first, "pages") || first in {"charts", "company", "getstarted"} then true
      else false
  }

  /**
   * is_reserved_path holds in exactly three cases; the final test of "charts", "company" and
   * "getstarted" adds nothing, as all three are reserved first segments already.
   */
  lemma ReservedPathCases(segments: seq<string>)
    ensures IsReservedPath(segments) <==>
      || segments == []
      || Lower(segments[0]) in RESERVED_FIRST_SEGMENTS || StartsWith(Lower(segments[0]), "pages")
      || (|segments| >= 2 && Lower(segments[1]) in RESERVED_SECOND_SEGMENTS)
  {
  }

  lemma ReservedFirstSegmentExample()
    ensures IsReservedPath(["about"])
  {
    assert Lower("about") == "about";
  }

  lemma ReservedSecondSegmentExample()
    ensures IsReservedPath(["alice", "popular-tracks", "x"])
  {
    assert Lower("popular-tracks") == "popular-tracks";
  }

  lemma ReservedPagesPrefixExample()
    ensures IsReservedPath(["Pages-Help", "x"])
  {
    assert Lower("Pages-Help")[..5] == "pages";
  }

  lemma TrackPathExample()
    ensures !IsReservedPath(["alice", "my-track"])
  {
    assert Lower("alice") == "alice";
    assert Lower("my-track") == "my-track";
    assert "alice" !in RESERVED_FIRST_SEGMENTS;
    assert "my-track" !in RESERVED_SECOND_SEGMENTS;
    assert "alice"[..5][0] != "pages"[0];
  }

  const TRACK_URL_PREFIX: string := "https://soundcloud.com/"

  /**
   * One character of the literal start of TRACK_URL_PATTERN under re.IGNORECASE: letters match
   * case-insensitively, and the unescaped '.' matches any character but a newline.
   */
  predicate PatternCharMatches(p: char, c: char) {
    if p == '.' then c != '\n' else FoldEq(p, c)
  }

  predicate PrefixMatches(url: string) {
    |url| >= |TRACK_URL_PREFIX|
    && forall k :: 0 <= k < |TRACK_URL_PREFIX| ==> PatternCharMatches(TRACK_URL_PREFIX[k], url[k])
  }

  /**
   * The regular expression ^https://soundcloud.com/([^/]+)/([^/?#]+)(?:[/?#]|$) matches url
   * with groups user and slug.
   */
  ghost predicate PatternMatchesWith(url: string, user: string, slug: string) {
    var n := |TRACK_URL_PREFIX|;
    && PrefixMatches(url)
    && user != [] && HasNo(user, {'/'})
    && slug != [] && HasNo(slug, {'/', '?', '#'})
    && n + |user| + 1 + |slug| <= |url|
    && url[n..n + |user|] == user && url[n + |user|] == '/'
    && url[n + |user| + 1..n + |user| + 1 + |slug|] == slug
    && var e := n + |user| + 1 + |slug|; e == |url| || url[e] in {'/', '?', '#'}
  }

  /** TRACK_URL_PATTERN.match(url): the two groups, or None. */
  function MatchTrackUrl(url: string): (m: Option<(string, string)>)
    ensures m.Some? ==> PatternMatchesWith(url, m.value.0, m.value.1)
  {
    var n := |TRACK_URL_PREFIX|;
    if !PrefixMatches(url) then None
    else
      var i := IndexOf(url, '/', n);
      if i == n || i == |url| then None
      else
        var j := IndexOfAny(url, {'/', '?', '#'}, i + 1);
        if j == i + 1 then None
        else
          assert HasNo(url[n..i], {'/'});
          assert HasNo(url[i + 1..j], {'/', '?', '#'});
          Some((url[n..i], url[i + 1..j]))
  }

  /** The pattern has at most one match, and MatchTrackUrl finds it whenever there is one. */
  lemma {:induction false} MatchTrackUrlComplete(url: string, user: string, slug: string)
    requires PatternMatchesWith(url, user, slug)
    ensures MatchTrackUrl(url) == Some((user, slug))
  {
    var n := |TRACK_URL_PREFIX|;
    var i := n + |user|;
    forall k | n <= k < i ensures url[k] != '/' {
      assert url[k] == url[n..i][k - n] == user[k - n];
    }
    IndexOfAt(url, '/', n, i);
    var e := i + 1 + |slug|;
    forall k | i + 1 <= k < e ensures url[k] !in {'/', '?', '#'} {
      assert url[k] == url[i + 1..e][k - i - 1] == slug[k - i - 1];
    }
    assert IndexOfAny(url, {'/', '?', '#'}, i + 1) == e;
  }

  /**
   * [seg for seg in path.split("/") if seg]. A path without '/' is its own only segment
   * (none when empty), and PathSegmentsAtSlash splits at every '/': the segments are the
   * maximal non-empty runs of non-'/' characters, in order.
   */
  function PathSegments(path: string): (segs: seq<string>)
    ensures forall k :: 0 <= k < |segs| ==> segs[k] != [] && HasNo(segs[k], {'/'})
    ensures HasNo(path, {'/'}) ==> segs == if path == [] then [] else [path]
  {
    assert HasNo(path, {'/'}) ==> IndexOf(path, '/', 0) == |path| && SplitOn(path, '/') == [path];
    assert [path][1..] == [] && NonEmpty([path]) == if path == [] then [] else [path];
    NonEmpty(SplitOn(path, '/'))
  }

  function NonEmpty(parts: seq<string>): (r: seq<string>)
    ensures forall k :: 0 <= k < |r| ==> r[k] != [] && exists j :: 0 <= j < |parts| && parts[j] == r[k]
  {
    if parts == [] then []
    else if parts[0] == [] then NonEmpty(parts[1..])
    else [parts[0]] + NonEmpty(parts[1..])
  }

  lemma {:induction false} NonEmptyConcat(a: seq<string>, b: seq<string>)
    ensures NonEmpty(a + b) == NonEmpty(a) + NonEmpty(b)
  {
    if a == [] {
      assert a + b == b;
    } else {
      assert (a + b)[1..] == a[1..] + b;
      NonEmptyConcat(a[1..], b);
    }
  }

  /** The segments on the two sides of a '/' are the segments of the whole path. */
  lemma PathSegmentsAtSlash(a: string, b: string)
    ensures PathSegments(a + "/" + b) == PathSegments(a) + PathSegments(b)
  {
    assert a + "/" + b == a + ['/'] + b;
    SplitOnAt(a, b, '/');
    NonEmptyConcat(SplitOn(a, '/'), SplitOn(b, '/'));
  }

  /** A leading '/' is resolved against https://soundcloud.com by urljoin. */
  function ResolveHref(href: string, urljoin: (string, string) -> string): string {
    if StartsWith(href, "/") then urljoin("https://soundcloud.com", href) else href
  }

  /** What one anchor contributes to parse_track_links_from_html: the cleaned track URL, or nothing. */
  function AnchorTrackLink(href: string, urljoin: (string, string) -> string): (r: Option<string>)
    ensures r.Some? ==> AcceptedTrackLink(r.value)
  {
    var h := ResolveHref(href, urljoin);
    match MatchTrackUrl(h)
    case None => None
    case Some(groups) =>
      if Lower(groups.1) in RESERVED_TRACK_SLUGS then None
      else
        var cleaned := CleanTrackUrl(h);
        var segments := PathSegments(UrlParse(cleaned).path);
        if |segments| < 2 || IsReservedPath(segments) then None
        else Some(cleaned)
  }

  /**
   * An anchor contributes link exactly when its resolved href matches the track pattern with
   * a slug that is not reserved, link is that href cleaned, and the cleaned path has at least
   * two segments and is not reserved.
   */
  lemma AnchorTrackLinkIff(href: string, urljoin: (string, string) -> string, link: string)
    ensures AnchorTrackLink(href, urljoin) == Some(link) <==>
      && link == CleanTrackUrl(ResolveHref(href, urljoin))
      && (exists user, slug :: PatternMatchesWith(ResolveHref(href, urljoin), user, slug) && Lower(slug) !in RESERVED_TRACK_SLUGS)
      && |PathSegments(UrlParse(link).path)| >= 2
      && !IsReservedPath(PathSegments(UrlParse(link).path))
  {
    var h := ResolveHref(href, urljoin);
    if exists user, slug :: PatternMatchesWith(h, user, slug) && Lower(slug) !in RESERVED_TRACK_SLUGS {
      var user, slug :| PatternMatchesWith(h, user, slug) && Lower(slug) !in RESERVED_TRACK_SLUGS;
      MatchTrackUrlComplete(h, user, slug);
    }
  }

  /** The shape of every link parse_track_links_from_html keeps. */
  ghost predicate AcceptedTrackLink(link: string) {
    && '#' !in link
    && (link == [] || link[|link| - 1] != '?')
    && |PathSegments(UrlParse(link).path)| >= 2
    && !IsReservedPath(PathSegments(UrlParse(link).path))
  }

  /** The values of the Some results of f over s. */
  ghost function SomeValues(s: seq<string>, f: string -> Option<string>): set<string> {
    if s == [] then {}
    else
      var last := f(s[|s| - 1]);
      SomeValues(s[..|s| - 1], f) + (if last.Some? then {last.value} else {})
  }

  lemma SomeValuesSnoc(s: seq<string>, f: string -> Option<string>, i: int)
    requires 0 <= i < |s|
    ensures SomeValues(s[..i + 1], f) == SomeValues(s[..i], f) + (if f(s[i]).Some? then {f(s[i]).value} else {})
  {
    assert s[..i + 1][..i] == s[..i];
  }

  lemma {:induction false} SomeValuesMembers(s: seq<string>, f: string -> Option<string>, v: string)
    ensures v in SomeValues(s, f) <==> exists i :: 0 <= i < |s| && f(s[i]) == Some(v)
  {
    if s != [] {
      var init := s[..|s| - 1];
      SomeValuesMembers(init, f, v);
      if v in SomeValues(init, f) {
        var i :| 0 <= i < |init| && f(init[i]) == Some(v);
        assert s[i] == init[i];
      }
      if exists i :: 0 <= i < |s| && f(s[i]) == Some(v) {
        var i :| 0 <= i < |s| && f(s[i]) == Some(v);
        if i < |init| { assert init[i] == s[i]; }
      }
    }
  }

  function AnchorTrackLinkOf(urljoin: (string, string) -> string): string -> Option<string> {
    href => AnchorTrackLink(href, urljoin)
  }

  /**
   * parse_track_links_from_html over the href values of the page's anchors, in document
   * order (the HTML parsing itself is not part of this model).
   */
  method ParseTrackLinks(hrefs: seq<string>, urljoin: (string, string) -> string) returns (links: set<string>)
    ensures links == SomeValues(hrefs, AnchorTrackLinkOf(urljoin))
  {
    links := {};
    var i := 0;
    while i < |hrefs|
      invariant 0 <= i <= |hrefs|
      invariant links == SomeValues(hrefs[..i], AnchorTrackLinkOf(urljoin))
    {
      var found := AnchorTrackLink(hrefs[i], urljoin);
      if found.Some? {
        links := links + {found.value};
      }
      SomeValuesSnoc(hrefs, AnchorTrackLinkOf(urljoin), i);
      assert AnchorTrackLinkOf(urljoin)(hrefs[i]) == found;
      i := i + 1;
    }
    assert hrefs[..i] == hrefs;
  }

  /** A link is kept exactly when some anchor contributes it. */
  lemma TrackLinksMembers(hrefs: seq<string>, urljoin: (string, string) -> string, link: string)
    ensures link in SomeValues(hrefs, AnchorTrackLinkOf(urljoin))
      <==> exists i :: 0 <= i < |hrefs| && AnchorTrackLink(hrefs[i], urljoin) == Some(link)
  {
    SomeValuesMembers(hrefs, AnchorTrackLinkOf(urljoin), link);
  }

  /** Every link parse_track_links_from_html keeps has the accepted shape. */
  lemma TrackLinksAccepted(hrefs: seq<string>, urljoin: (string, string) -> string, link: string)
    requires link in SomeValues(hrefs, AnchorTrackLinkOf(urljoin))
    ensures AcceptedTrackLink(link)
  {
    TrackLinksMembers(hrefs, urljoin, link);
    var i :| 0 <= i < |hrefs| && AnchorTrackLink(hrefs[i], urljoin) == Some(link);
  }
}
