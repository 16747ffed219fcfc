/**
 * The per-track classifier: the page title, and analyze_links, which files the keyword links
 * of a track page under the first store whose domain they point to, keeps links to unknown
 * shops only when no known store was found, and falls back to one "others" record.
 */
module Classifier {
  import opened Text
  import opened Urls
  import opened Dicts

  /** One record of the program's output (the LinkRecord dataclass). */
  datatype LinkRecord = LinkRecord(category: string, title: string, trackUrl: string, linkUrl: string, linkText: string)

  /** An anchor with an href: the raw attribute and its text with every piece stripped. */
  datatype Anchor = Anchor(href: string, text: string)

  const TITLE_SUFFIXES: seq<string> := [" | SoundCloud", " | Listen online for free on SoundCloud"]

  lemma SliceOfSlice(s: string, i: nat, j: nat, a: nat, b: nat)
    requires i <= j <= |s| && a <= b <= j - i
    ensures s[i..j][a..b] == s[i + a..i + b]
  {
    assert forall m :: 0 <= m < b - a ==> s[i..j][a..b][m] == s[i + a + m];
  }

  /** No occurrence of w in s means none in any slice of s either. */
  lemma NoOccurrenceInSlice(s: string, w: string, i: nat, j: nat)
    requires i <= j <= |s| && !Contains(s, w)
    ensures !Contains(s[i..j], w)
  {
    var t := s[i..j];
    forall k | OccursAt(t, w, k) ensures OccursAt(s, w, i + k) {
      SliceOfSlice(s, i, j, k, k + |w|);
    }
  }

  /** The text before the first occurrence of w holds no occurrence of w. */
  lemma NoOccurrenceBeforeFirst(s: string, w: string)
    requires w != [] && Find(s, w).Some?
    ensures !Contains(s[..Find(s, w).value], w)
  {
    var f := Find(s, w).value;
    var t := s[..f];
    assert t == s[0..f];
    forall k | OccursAt(t, w, k) ensures OccursAt(s, w, k) {
      SliceOfSlice(s, 0, f, k, k + |w|);
    }
  }

  /** title.split(suffix)[0].strip() for the first suffix the title contains, else the title. */
  function CutSuffix(title: string, suffixes: seq<string>): string {
    if suffixes == [] then title
    else if Contains(title, suffixes[0]) then Strip(title[..Find(title, suffixes[0]).value])
    else CutSuffix(title, suffixes[1..])
  }

  /** Cutting yields a slice of the title. */
  lemma {:induction false} CutSuffixIsSlice(title: string, suffixes: seq<string>)
    ensures exists i, j :: 0 <= i <= j <= |title| && CutSuffix(title, suffixes) == title[i..j]
  {
    if suffixes == [] {
      assert title == title[0..|title|];
    } else if Contains(title, suffixes[0]) {
      var cut := title[..Find(title, suffixes[0]).value];
      StripTrims(cut);
      var i, j :| 0 <= i <= j <= |cut| && Strip(cut) == cut[i..j];
      SliceOfSlice(title, 0, |cut|, i, j);
    } else {
      CutSuffixIsSlice(title, suffixes[1..]);
    }
  }

  /**
   * When suffixes[k] is the first suffix the title contains, the result contains none of
   * suffixes[0..k], and with no suffix present the title is kept as it is.
   */
  lemma {:induction false} CutSuffixDrops(title: string, suffixes: seq<string>, k: nat)
    requires k <= |suffixes| && forall m :: 0 <= m < |suffixes| ==> suffixes[m] != []
    requires forall m :: 0 <= m < k ==> !Contains(title, suffixes[m])
    requires k < |suffixes| ==> Contains(title, suffixes[k])
    ensures forall m :: 0 <= m <= k && m < |suffixes| ==> !Contains(CutSuffix(title, suffixes), suffixes[m])
    ensures k == |suffixes| ==> CutSuffix(title, suffixes) == title
    decreases k
  {
    if k == 0 {
      if suffixes != [] {
        var f := Find(title, suffixes[0]).value;
        var cut := title[..f];
        NoOccurrenceBeforeFirst(title, suffixes[0]);
        StripTrims(cut);
        var i, j :| 0 <= i <= j <= |cut| && Strip(cut) == cut[i..j];
        NoOccurrenceInSlice(cut, suffixes[0], i, j);
      }
    } else {
      CutSuffixDrops(title, suffixes[1..], k - 1);
      var r := CutSuffix(title, suffixes);
      assert r == CutSuffix(title, suffixes[1..]);
      forall m | 0 < m <= k && m < |suffixes| ensures !Contains(r, suffixes[m]) {
        assert suffixes[m] == suffixes[1..][m - 1];
      }
      if k == |suffixes| {
        assert r == title;
      }
      CutSuffixIsSlice(title, suffixes);
      var i, j :| 0 <= i <= j <= |title| && r == title[i..j];
      NoOccurrenceInSlice(title, suffixes[0], i, j);
    }
  }

  /** extract_title, for the text of the page's <title> element (None without one). */
  const UNKNOWN_TITLE: string := "Unknown title"

  /**
   * A missing or empty title is "Unknown title"; otherwise the stripped title t is cut
   * before the first occurrence of the first suffix it contains and stripped again, and
   * kept whole when it contains neither suffix.
   */
  function ExtractTitle(title: Option<string>): (r: string)
    ensures title.None? || title.value == [] ==> r == UNKNOWN_TITLE
    ensures title.Some? && title.value != [] ==>
              var t := Strip(title.value);
              && (Contains(t, TITLE_SUFFIXES[0]) ==> r == Strip(t[..Find(t, TITLE_SUFFIXES[0]).value]))
              && (!Contains(t, TITLE_SUFFIXES[0]) && Contains(t, TITLE_SUFFIXES[1])
                  ==> r == Strip(t[..Find(t, TITLE_SUFFIXES[1]).value]))
              && (!Contains(t, TITLE_SUFFIXES[0]) && !Contains(t, TITLE_SUFFIXES[1]) ==> r == t)
  {
    if title.None? || title.value == [] then UNKNOWN_TITLE
    else
      var t := Strip(title.value);
      CutSuffixTwo(t, TITLE_SUFFIXES);
      CutSuffix(t, TITLE_SUFFIXES)
  }

  /** Cutting with two suffixes tries the first, then the second. */
  lemma CutSuffixTwo(title: string, suffixes: seq<string>)
    requires |suffixes| == 2
    ensures Contains(title, suffixes[0]) ==> CutSuffix(title, suffixes) == Strip(title[..Find(title, suffixes[0]).value])
    ensures !Contains(title, suffixes[0]) && Contains(title, suffixes[1])
            ==> CutSuffix(title, suffixes) == Strip(title[..Find(title, suffixes[1]).value])
    ensures !Contains(title, suffixes[0]) && !Contains(title, suffixes[1]) ==> CutSuffix(title, suffixes) == title
  {
    var rest := suffixes[1..];
    assert rest[0] == suffixes[1] && rest[1..] == [];
    assert CutSuffix(title, rest[1..]) == title;
    assert CutSuffix(title, suffixes) == if Contains(title, suffixes[0]) then Strip(title[..Find(title, suffixes[0]).value]) else CutSuffix(title, rest);
  }

  /** A title with text gives a piece of that text: extract_title only strips and cuts. */
  lemma ExtractTitleIsPiece(title: string)
    requires title != []
    ensures exists i, j :: 0 <= i <= j <= |title| && ExtractTitle(Some(title)) == title[i..j]
  {
    var t := Strip(title);
    assert ExtractTitle(Some(title)) == CutSuffix(t, TITLE_SUFFIXES);
    StripTrims(title);
    var a, b :| 0 <= a <= b <= |title| && t == title[a..b];
    CutSuffixIsSlice(t, TITLE_SUFFIXES);
    var i, j :| 0 <= i <= j <= |t| && CutSuffix(t, TITLE_SUFFIXES) == t[i..j];
    SliceOfSlice(title, a, b, i, j);
    assert title[a + i..a + j] == t[i..j];
  }

  lemma TitleSuffixesNonEmpty()
    ensures forall m :: 0 <= m < |TITLE_SUFFIXES| ==> TITLE_SUFFIXES[m] != []
  {
  }

  /** A title with neither suffix comes back stripped and otherwise unchanged. */
  lemma ExtractTitleKeepsPlainTitle(title: string)
    requires title != []
    requires !Contains(Strip(title), TITLE_SUFFIXES[0]) && !Contains(Strip(title), TITLE_SUFFIXES[1])
    ensures ExtractTitle(Some(title)) == Strip(title)
  {
    TitleSuffixesNonEmpty();
    CutSuffixDrops(Strip(title), TITLE_SUFFIXES, 2);
  }

  /** " | SoundCloud" never survives extract_title. */
  lemma ExtractTitleDropsSoundCloud(title: string)
    requires title != [] && Contains(Strip(title), TITLE_SUFFIXES[0])
    ensures !Contains(ExtractTitle(Some(title)), TITLE_SUFFIXES[0])
  {
    TitleSuffixesNonEmpty();
    CutSuffixDrops(Strip(title), TITLE_SUFFIXES, 0);
  }

  /** Without " | SoundCloud", the longer suffix is cut and neither suffix remains. */
  lemma ExtractTitleDropsListenOnline(title: string)
    requires title != [] && !Contains(Strip(title), TITLE_SUFFIXES[0]) && Contains(Strip(title), TITLE_SUFFIXES[1])
    ensures !Contains(ExtractTitle(Some(title)), TITLE_SUFFIXES[0])
    ensures !Contains(ExtractTitle(Some(title)), TITLE_SUFFIXES[1])
  {
    TitleSuffixesNonEmpty();
    CutSuffixDrops(Strip(title), TITLE_SUFFIXES, 1);
  }

  const LINK_KEYWORDS: set<string> := {"download", "free download", "free d/l", "buy", "purchase", "premiere", "kup"}

  /** The store tags in the order STORE_DOMAINS lists them. */
  const STORE_TAGS: seq<string> := ["bandcamp", "beatport", "junodownload", "hypeddit"]

  const STORE_DOMAINS: map<string, set<string>> := map[
    "bandcamp" := {"bandcamp.com"},
    "beatport" := {"beatport.com"},
    "junodownload" := {"junodownload.com", "juno.co.uk"},
    "hypeddit" := {"hypeddit.com", "hypd.it"}
  ]

  /** Some keyword of LINK_KEYWORDS occurs in the (lower-cased) anchor text. */
  predicate HasKeyword(textLower: string) {
    exists kw :: kw in LINK_KEYWORDS && Contains(textLower, kw)
  }

  /** One of the store's domains occurs in the (lower-cased) netloc. */
  predicate PointsTo(domain: string, tag: string)
    requires tag in STORE_DOMAINS
  {
    exists target :: target in STORE_DOMAINS[tag] && Contains(domain, target)
  }

  /** The index of the first store, from i on, that the domain points to; |STORE_TAGS| when there is none. */
  function StoreIndex(domain: string, i: nat): (k: nat)
    requires i <= |STORE_TAGS|
    ensures i <= k <= |STORE_TAGS|
    ensures k < |STORE_TAGS| ==> PointsTo(domain, STORE_TAGS[k])
    ensures forall m :: i <= m < k ==> !PointsTo(domain, STORE_TAGS[m])
    decreases |STORE_TAGS| - i
  {
    if i == |STORE_TAGS| then i
    else if PointsTo(domain, STORE_TAGS[i]) then i
    else StoreIndex(domain, i + 1)
  }

  /** The category the matching loop over STORE_DOMAINS picks for a domain. */
  function StoreTag(domain: string): (r: Option<string>)
    ensures r.Some? <==> exists m :: 0 <= m < |STORE_TAGS| && PointsTo(domain, STORE_TAGS[m])
    ensures r.Some? ==> r.value in STORE_DOMAINS && PointsTo(domain, r.value)
    ensures forall k, m :: 0 <= m < k < |STORE_TAGS| && r == Some(STORE_TAGS[k]) ==> !PointsTo(domain, STORE_TAGS[m])
  {
    var k := StoreIndex(domain, 0);
    if k < |STORE_TAGS| then Some(STORE_TAGS[k]) else None
  }

  /** urlparse(link).netloc.lower() */
  function Domain(link: string): string {
    Lower(UrlParse(link).netloc)
  }

  /** What one anchor amounts to: nothing, a link to a known store, or a keyword link to another shop. */
  datatype Kind = Skipped | Store(tag: string, link: string, text: string) | Unlisted(link: string, text: string)

  /** One turn of the anchor loop of analyze_links. */
  function Classify(trackUrl: string, a: Anchor, urljoin: (string, string) -> string): (k: Kind)
    ensures k.Skipped? <==> Strip(a.href) == [] || !HasKeyword(Lower(a.text))
    ensures k.Store? ==> StoreTag(Domain(k.link)) == Some(k.tag)
    ensures k.Unlisted? ==> StoreTag(Domain(k.link)).None?
    ensures !k.Skipped? ==> k.link == NormalizeLink(trackUrl, Strip(a.href), urljoin) && k.text == a.text
  {
    var rawHref := Strip(a.href);
    if rawHref == [] || !HasKeyword(Lower(a.text)) then Skipped
    else
      var linkUrl := NormalizeLink(trackUrl, rawHref, urljoin);
      match StoreTag(Domain(linkUrl))
      case Some(tag) => Store(tag, linkUrl, a.text)
      case None => Unlisted(linkUrl, a.text)
  }

  /** The anchors, classified one by one. */
  function Kinds(trackUrl: string, anchors: seq<Anchor>, urljoin: (string, string) -> string): (ks: seq<Kind>)
    ensures |ks| == |anchors|
  {
    if anchors == [] then []
    else Kinds(trackUrl, anchors[..|anchors| - 1], urljoin) + [Classify(trackUrl, anchors[|anchors| - 1], urljoin)]
  }

  /** Each anchor is classified on its own: the i-th kind is the i-th anchor's. */
  lemma {:induction false} KindsAt(trackUrl: string, anchors: seq<Anchor>, urljoin: (string, string) -> string, i: nat)
    requires i < |anchors|
    ensures Kinds(trackUrl, anchors, urljoin)[i] == Classify(trackUrl, anchors[i], urljoin)
    decreases |anchors|
  {
    var n := |anchors| - 1;
    var init := Kinds(trackUrl, anchors[..n], urljoin);
    assert Kinds(trackUrl, anchors, urljoin) == init + [Classify(trackUrl, anchors[n], urljoin)];
    if i < n {
      KindsAt(trackUrl, anchors[..n], urljoin, i);
      assert anchors[..n][i] == anchors[i];
    }
  }

  lemma KindsSnoc(trackUrl: string, anchors: seq<Anchor>, i: nat, urljoin: (string, string) -> string)
    requires i < |anchors|
    ensures Kinds(trackUrl, anchors[..i + 1], urljoin) == Kinds(trackUrl, anchors[..i], urljoin) + [Classify(trackUrl, anchors[i], urljoin)]
  {
    assert anchors[..i + 1][..i] == anchors[..i];
  }

  /** The records filed under store tags, in anchor order (the categories dict before the flush). */
  function StoreRecords(trackUrl: string, kinds: seq<Kind>): Dict<LinkRecord> {
    if kinds == [] then []
    else
      var d := StoreRecords(trackUrl, kinds[..|kinds| - 1]);
      match kinds[|kinds| - 1]
      case Store(tag, link, text) => Extend(d, tag, [LinkRecord(tag, "", trackUrl, link, text)])
      case _ => d
  }

  lemma StoreRecordsSnoc(trackUrl: string, kinds: seq<Kind>, kind: Kind)
    ensures StoreRecords(trackUrl, kinds + [kind]) == if kind.Store? then Extend(StoreRecords(trackUrl, kinds), kind.tag, [LinkRecord(kind.tag, "", trackUrl, kind.link, kind.text)]) else StoreRecords(trackUrl, kinds)
    ensures UnlistedLinks(kinds + [kind]) == if kind.Unlisted? then UnlistedLinks(kinds) + [(kind.link, kind.text)] else UnlistedLinks(kinds)
  {
    assert (kinds + [kind])[..|kinds|] == kinds;
  }

  /** The buffered keyword links that point to no known store, in anchor order. */
  function UnlistedLinks(kinds: seq<Kind>): seq<(string, string)> {
    if kinds == [] then []
    else
      var b := UnlistedLinks(kinds[..|kinds| - 1]);
      match kinds[|kinds| - 1]
      case Unlisted(link, text) => b + [(link, text)]
      case _ => b
  }

  function OthersRecords(trackUrl: string, buffer: seq<(string, string)>): (rs: seq<LinkRecord>)
    ensures |rs| == |buffer|
  {
    seq(|buffer|, i requires 0 <= i < |buffer| => LinkRecord("others", "", trackUrl, buffer[i].0, buffer[i].1))
  }

  const NO_STORE_TEXT: string := "No store link found"

  /** What analyze_links returns, in terms of the classified anchors. */
  function AnalyzeResult(trackUrl: string, kinds: seq<Kind>): (r: Dict<LinkRecord>)
    ensures r != []
    ensures StoreRecords(trackUrl, kinds) == [] ==> Keys(r) == ["others"]
  {
    var stores := StoreRecords(trackUrl, kinds);
    if stores != [] then stores
    else if UnlistedLinks(kinds) != [] then [Entry("others", OthersRecords(trackUrl, UnlistedLinks(kinds)))]
    else [Entry("others", [LinkRecord("others", "", trackUrl, trackUrl, NO_STORE_TEXT)])]
  }

  /** The steps the loop of analyze_links takes on one anchor, up to the store match. */
  method ClassifyAnchor(trackUrl: string, a: Anchor, urljoin: (string, string) -> string) returns (kind: Kind)
    ensures kind == Classify(trackUrl, a, urljoin)
  {
    var rawHref := Strip(a.href);
    if rawHref == [] {
      return Skipped;
    }
    var linkUrl := NormalizeLink(trackUrl, rawHref, urljoin);
    var text := a.text;
    var textLower := Lower(text);
    if !HasKeyword(textLower) {
      return Skipped;
    }
    var domain := Domain(linkUrl);
    var matchedCategory := StoreTag(domain);
    if matchedCategory.Some? {
      return Store(matchedCategory.value, linkUrl, text);
    }
    return Unlisted(linkUrl, text);
  }

  /** The flush of the buffered links into "others", when no known store was found. */
  method FlushUnlisted(trackUrl: string, buffer: seq<(string, string)>) returns (categories: Dict<LinkRecord>)
    requires buffer != []
    ensures categories == [Entry("others", OthersRecords(trackUrl, buffer))]
  {
    categories := [];
    var j := 0;
    while j < |buffer|
      invariant 0 <= j <= |buffer|
      invariant categories == if j == 0 then [] else [Entry("others", OthersRecords(trackUrl, buffer[..j]))]
    {
      var (linkUrl, text) := buffer[j];
      if j == 0 {
        assert OthersRecords(trackUrl, buffer[..1]) == [LinkRecord("others", "", trackUrl, linkUrl, text)];
      }
      assert OthersRecords(trackUrl, buffer[..j + 1])
        == OthersRecords(trackUrl, buffer[..j]) + [LinkRecord("others", "", trackUrl, linkUrl, text)];
      ghost var before := categories;
      categories := Extend(categories, "others", [LinkRecord("others", "", trackUrl, linkUrl, text)]);
      if j > 0 {
        assert categories == [Entry("others", before[0].values + [LinkRecord("others", "", trackUrl, linkUrl, text)])] + before[1..];
      }
      j := j + 1;
    }
    assert buffer[..j] == buffer;
  }

  /**
   * The anchor loop of analyze_links: the categories filled so far, the known-store flag and
   * the buffer of keyword links to unknown shops.
   */
  method ScanAnchors(trackUrl: string, anchors: seq<Anchor>, urljoin: (string, string) -> string)
    returns (categories: Dict<LinkRecord>, knownStoreFound: bool, unknownStoreLinks: seq<(string, string)>)
    ensures categories == StoreRecords(trackUrl, Kinds(trackUrl, anchors, urljoin))
    ensures knownStoreFound == (categories != [])
    ensures unknownStoreLinks == UnlistedLinks(Kinds(trackUrl, anchors, urljoin))
  {
    categories := [];
    knownStoreFound := false;
    unknownStoreLinks := [];
    ghost var kinds: seq<Kind> := [];
    var i := 0;
    while i < |anchors|
      invariant 0 <= i <= |anchors|
      invariant kinds == Kinds(trackUrl, anchors[..i], urljoin)
      invariant categories == StoreRecords(trackUrl, kinds)
      invariant knownStoreFound == (categories != [])
      invariant unknownStoreLinks == UnlistedLinks(kinds)
    {
      var kind := ClassifyAnchor(trackUrl, anchors[i], urljoin);
      KindsSnoc(trackUrl, anchors, i, urljoin);
      ghost var before := kinds;
      kinds := kinds + [kind];
      StoreRecordsSnoc(trackUrl, before, kind);
      i := i + 1;
      match kind
      case Store(tag, linkUrl, text) =>
        categories := Extend(categories, tag, [LinkRecord(tag, "", trackUrl, linkUrl, text)]);
        knownStoreFound := true;
      case Unlisted(linkUrl, text) =>
        unknownStoreLinks := unknownStoreLinks + [(linkUrl, text)];
      case Skipped =>
    }
    assert anchors[..i] == anchors;
  }

  /**
   * analyze_links over the page's anchors that have an href, in document order; the result
   * dict's keys are in the order they were first appended to.
   */
  method AnalyzeLinks(trackUrl: string, anchors: seq<Anchor>, urljoin: (string, string) -> string)
    returns (categories: Dict<LinkRecord>)
    ensures categories == AnalyzeResult(trackUrl, Kinds(trackUrl, anchors, urljoin))
  {
    var knownStoreFound, unknownStoreLinks;
    categories, knownStoreFound, unknownStoreLinks := ScanAnchors(trackUrl, anchors, urljoin);
    if !knownStoreFound {
      if unknownStoreLinks != [] {
        categories := FlushUnlisted(trackUrl, unknownStoreLinks);
      } else {
        categories := Extend(categories, "others", [LinkRecord("others", "", trackUrl, trackUrl, NO_STORE_TEXT)]);
      }
    }
  }

  /** The store records name each tag once. */
  lemma {:induction false} StoreRecordsDistinct(trackUrl: string, kinds: seq<Kind>)
    ensures DistinctKeys(StoreRecords(trackUrl, kinds))
  {
    if kinds != [] {
      StoreRecordsDistinct(trackUrl, kinds[..|kinds| - 1]);
    }
  }

  /** There are store records exactly when some keyword link points to a known store. */
  lemma {:induction false} StoreRecordsNonEmpty(trackUrl: string, kinds: seq<Kind>)
    ensures StoreRecords(trackUrl, kinds) != [] <==> exists i :: 0 <= i < |kinds| && kinds[i].Store?
  {
    if kinds != [] {
      var init := kinds[..|kinds| - 1];
      StoreRecordsNonEmpty(trackUrl, init);
      var last := kinds[|kinds| - 1];
      if exists i :: 0 <= i < |init| && init[i].Store? {
        var i :| 0 <= i < |init| && init[i].Store?;
        assert kinds[i] == init[i];
      }
      if last.Store? {
        var d := StoreRecords(trackUrl, init);
        assert Keys(Extend(d, last.tag, [LinkRecord(last.tag, "", trackUrl, last.link, last.text)])) != [];
      } else if exists i :: 0 <= i < |kinds| && kinds[i].Store? {
        var i :| 0 <= i < |kinds| && kinds[i].Store?;
        assert init[i] == kinds[i];
      }
    }
  }

  /** A record is filed under tag t exactly when it comes from a keyword link that points to store t. */
  lemma {:induction false} StoreRecordsLookup(trackUrl: string, kinds: seq<Kind>, t: string, rec: LinkRecord)
    ensures rec in Lookup(StoreRecords(trackUrl, kinds), t) <==>
      rec == LinkRecord(t, "", trackUrl, rec.linkUrl, rec.linkText) && Store(t, rec.linkUrl, rec.linkText) in kinds
  {
    if kinds != [] {
      var init := kinds[..|kinds| - 1];
      var last := kinds[|kinds| - 1];
      assert kinds == init + [last];
      StoreRecordsLookup(trackUrl, init, t, rec);
      if last.Store? {
        ExtendLookup(StoreRecords(trackUrl, init), last.tag, [LinkRecord(last.tag, "", trackUrl, last.link, last.text)], t);
      }
    }
  }

  /** The buffered links are the links of the keyword anchors that point to no known store. */
  lemma {:induction false} UnlistedLinksMembers(kinds: seq<Kind>)
    ensures forall l, t :: (l, t) in UnlistedLinks(kinds) <==> exists i :: 0 <= i < |kinds| && kinds[i] == Unlisted(l, t)
  {
    if kinds != [] {
      var init := kinds[..|kinds| - 1];
      UnlistedLinksMembers(init);
      forall i | 0 <= i < |init| ensures kinds[i] == init[i] { }
    }
  }

  /** analyze_links never returns an empty dict, and none of its lists is empty. */
  lemma AnalyzeNeverEmpty(trackUrl: string, kinds: seq<Kind>)
    ensures AnalyzeResult(trackUrl, kinds) != []
    ensures forall t :: t in Keys(AnalyzeResult(trackUrl, kinds)) ==> Lookup(AnalyzeResult(trackUrl, kinds), t) != []
  {
    var d := StoreRecords(trackUrl, kinds);
    if d != [] {
      forall t | t in Keys(d) ensures Lookup(d, t) != [] {
        KeyHasRecord(trackUrl, kinds, t);
        var i :| 0 <= i < |kinds| && kinds[i].Store? && kinds[i].tag == t;
        var rec := LinkRecord(t, "", trackUrl, kinds[i].link, kinds[i].text);
        StoreRecordsLookup(trackUrl, kinds, t, rec);
      }
    }
  }

  /** Every key of the store records came from a store link with that tag. */
  lemma {:induction false} KeyHasRecord(trackUrl: string, kinds: seq<Kind>, t: string)
    requires t in Keys(StoreRecords(trackUrl, kinds))
    ensures exists i :: 0 <= i < |kinds| && kinds[i].Store? && kinds[i].tag == t
  {
    var init := kinds[..|kinds| - 1];
    var last := kinds[|kinds| - 1];
    if !(last.Store? && last.tag == t) {
      KeyHasRecord(trackUrl, init, t);
      var i :| 0 <= i < |init| && init[i].Store? && init[i].tag == t;
      assert kinds[i] == init[i];
    }
  }

  /**
   * Once a keyword link points to a known store, the result is exactly the store records:
   * no "others" list, and under each tag the records of the links filed under it.
   */
  lemma StoreMatchExcludesOthers(trackUrl: string, kinds: seq<Kind>)
    requires exists i :: 0 <= i < |kinds| && kinds[i].Store?
    requires forall i :: 0 <= i < |kinds| && kinds[i].Store? ==> kinds[i].tag in STORE_DOMAINS
    ensures AnalyzeResult(trackUrl, kinds) == StoreRecords(trackUrl, kinds)
    ensures "others" !in Keys(AnalyzeResult(trackUrl, kinds))
  {
    StoreRecordsNonEmpty(trackUrl, kinds);
    if "others" in Keys(StoreRecords(trackUrl, kinds)) {
      KeyHasRecord(trackUrl, kinds, "others");
    }
  }

  /** Without a known store, the keyword links to other shops become "others" records, in anchor order. */
  lemma UnlistedBecomeOthers(trackUrl: string, kinds: seq<Kind>)
    requires forall i :: 0 <= i < |kinds| ==> !kinds[i].Store?
    requires exists i :: 0 <= i < |kinds| && kinds[i].Unlisted?
    ensures AnalyzeResult(trackUrl, kinds) == [Entry("others", OthersRecords(trackUrl, UnlistedLinks(kinds)))]
  {
    StoreRecordsNonEmpty(trackUrl, kinds);
    UnlistedLinksMembers(kinds);
    var i :| 0 <= i < |kinds| && kinds[i].Unlisted?;
    assert (kinds[i].link, kinds[i].text) in UnlistedLinks(kinds);
  }

  /** Without any keyword link, the result is the single fallback record pointing at the track itself. */
  lemma NoKeywordLinkFallback(trackUrl: string, kinds: seq<Kind>)
    requires forall i :: 0 <= i < |kinds| ==> kinds[i].Skipped?
    ensures AnalyzeResult(trackUrl, kinds) == [Entry("others", [LinkRecord("others", "", trackUrl, trackUrl, NO_STORE_TEXT)])]
  {
    StoreRecordsNonEmpty(trackUrl, kinds);
    if UnlistedLinks(kinds) != [] {
      var p := UnlistedLinks(kinds)[0];
      assert (p.0, p.1) in UnlistedLinks(kinds);
      UnlistedLinksMembers(kinds);
      assert false;
    }
  }


  /** A page may be filed under two stores at once: bandcamp and beatport links both keep their lists. */
  lemma TwoStoresKept(trackUrl: string, kinds: seq<Kind>, i: nat, j: nat)
    requires i < |kinds| && j < |kinds|
    requires kinds[i].Store? && kinds[i].tag == "bandcamp" && kinds[j].Store? && kinds[j].tag == "beatport"
    ensures "bandcamp" in Keys(AnalyzeResult(trackUrl, kinds)) && "beatport" in Keys(AnalyzeResult(trackUrl, kinds))
  {
    StoreRecordsNonEmpty(trackUrl, kinds);
    var d := StoreRecords(trackUrl, kinds);
    StoreRecordsLookup(trackUrl, kinds, "bandcamp", LinkRecord("bandcamp", "", trackUrl, kinds[i].link, kinds[i].text));
    StoreRecordsLookup(trackUrl, kinds, "beatport", LinkRecord("beatport", "", trackUrl, kinds[j].link, kinds[j].text));
    assert LinkRecord("bandcamp", "", trackUrl, kinds[i].link, kinds[i].text) in Lookup(d, "bandcamp");
    assert LinkRecord("beatport", "", trackUrl, kinds[j].link, kinds[j].text) in Lookup(d, "beatport");
  }

  /** Every tag Classify files a link under is a STORE_DOMAINS key. */
  lemma {:induction false} KindsTagsAreStores(trackUrl: string, anchors: seq<Anchor>, urljoin: (string, string) -> string)
    ensures forall i :: 0 <= i < |anchors| && Kinds(trackUrl, anchors, urljoin)[i].Store? ==>
      Kinds(trackUrl, anchors, urljoin)[i].tag in STORE_DOMAINS
  {
    if anchors != [] {
      var init := anchors[..|anchors| - 1];
      KindsTagsAreStores(trackUrl, init, urljoin);
      var ks := Kinds(trackUrl, anchors, urljoin);
      forall i | 0 <= i < |anchors| - 1 ensures ks[i] == Kinds(trackUrl, init, urljoin)[i] { }
    }
  }

  /** analyze_links names each category once, and every record it makes belongs to the track. */
  lemma AnalyzeRecordsOfTrack(trackUrl: string, kinds: seq<Kind>, t: string, rec: LinkRecord)
    ensures DistinctKeys(AnalyzeResult(trackUrl, kinds))
    ensures rec in Lookup(AnalyzeResult(trackUrl, kinds), t) ==> rec.trackUrl == trackUrl && rec.category == t
  {
    StoreRecordsDistinct(trackUrl, kinds);
    StoreRecordsLookup(trackUrl, kinds, t, rec);
  }
}
