/**
 * summarize_categories: the collected records turned into the exported summary, one list per
 * name of CATEGORY_NAMES in that order. Store lists are copied as {title, track_url,
 * shop_link}; the catch-all "others" list (with "other" as an old alias, and any unknown tag)
 * keeps only the records of tracks that no other category mentions.
 */
module Summary {
  import opened Dicts
  import opened Classifier

  const CATEGORY_NAMES: seq<string> := ["hypeddit", "bandcamp", "beatport", "junodownload", "others"]

  /** One exported entry: {"title": ..., "track_url": ..., "shop_link": ...}. */
  datatype Item = Item(title: string, trackUrl: string, shopLink: string)

  function ItemOf(rec: LinkRecord): (item: Item)
    ensures item.title == rec.title && item.trackUrl == rec.trackUrl && item.shopLink == rec.linkUrl
  {
    Item(rec.title, rec.trackUrl, rec.linkUrl)
  }

  function Items(records: seq<LinkRecord>): (items: seq<Item>)
    ensures |items| == |records|
  {
    seq(|records|, i requires 0 <= i < |records| => ItemOf(records[i]))
  }

  /** The catch-all categories, the current name and the old one. */
  predicate IsCatchAll(category: string) {
    category == "others" || category == "other"
  }

  /** The output list a category's records go to: "other" and unknown tags become "others". */
  function Target(category: string): (out: string)
    ensures out in CATEGORY_NAMES
    ensures out != "others" <==> category in CATEGORY_NAMES && category != "others"
    ensures out != "others" ==> out == category
  {
    var renamed := if category == "other" then "others" else category;
    if renamed in CATEGORY_NAMES then renamed else "others"
  }

  /** The summary before any record: every category name with an empty list. */
  function Initial(): (s: Dict<Item>)
    ensures Keys(s) == CATEGORY_NAMES
  {
    seq(|CATEGORY_NAMES|, i requires 0 <= i < |CATEGORY_NAMES| => Entry(CATEGORY_NAMES[i], []))
  }

  function TrackUrls(records: seq<LinkRecord>): set<string> {
    if records == [] then {} else TrackUrls(records[..|records| - 1]) + {records[|records| - 1].trackUrl}
  }

  /** tracks_in_other_categories: the track URLs of every record outside the catch-all categories. */
  function Excluded(d: Dict<LinkRecord>): set<string> {
    if d == [] then {}
    else
      var last := d[|d| - 1];
      Excluded(d[..|d| - 1]) + if IsCatchAll(last.key) then {} else TrackUrls(last.values)
  }

  /** The entries a category's records give in list `out`: an "others" entry is skipped when its track is excluded. */
  function Kept(out: string, records: seq<LinkRecord>, excluded: set<string>): seq<Item> {
    if records == [] then []
    else
      var rest := Kept(out, records[..|records| - 1], excluded);
      var rec := records[|records| - 1];
      if out == "others" && rec.trackUrl in excluded then rest else rest + [ItemOf(rec)]
  }

  /** The second pass: each category's kept entries appended to its output list, in input order. */
  function Fill(d: Dict<LinkRecord>, excluded: set<string>): Dict<Item> {
    if d == [] then Initial()
    else
      var last := d[|d| - 1];
      Extend(Fill(d[..|d| - 1], excluded), Target(last.key), Kept(Target(last.key), last.values, excluded))
  }

  function Summarize(d: Dict<LinkRecord>): (r: Dict<Item>)
    ensures Keys(r) == CATEGORY_NAMES
  {
    SummaryKeys(d, Excluded(d));
    Fill(d, Excluded(d))
  }

  /** for record in records: tracks_in_other_categories.add(record.track_url) */
  method AddTrackUrls(excluded: set<string>, records: seq<LinkRecord>) returns (r: set<string>)
    ensures r == excluded + TrackUrls(records)
  {
    r := excluded;
    var j := 0;
    while j < |records|
      invariant j <= |records|
      invariant r == excluded + TrackUrls(records[..j])
    {
      assert records[..j + 1][..j] == records[..j];
      r := r + {records[j].trackUrl};
      j := j + 1;
    }
    assert records[..j] == records;
  }

  lemma KeptSnoc(out: string, records: seq<LinkRecord>, j: nat, excluded: set<string>)
    requires j < |records|
    ensures Kept(out, records[..j + 1], excluded)
      == if out == "others" && records[j].trackUrl in excluded then Kept(out, records[..j], excluded)
         else Kept(out, records[..j], excluded) + [ItemOf(records[j])]
  {
    assert records[..j + 1][..j] == records[..j];
  }

  /** The inner loop of the second pass, with the renaming and setdefault before it. */
  method FileRecords(summary: Dict<Item>, category: string, records: seq<LinkRecord>, excluded: set<string>)
    returns (r: Dict<Item>)
    ensures r == Extend(summary, Target(category), Kept(Target(category), records, excluded))
  {
    var out := if category == "other" then "others" else category;
    if out !in CATEGORY_NAMES {
      out := "others";
    }
    r := Extend(summary, out, []);
    var j := 0;
    while j < |records|
      invariant j <= |records|
      invariant r == Extend(summary, out, Kept(out, records[..j], excluded))
    {
      var rec := records[j];
      KeptSnoc(out, records, j, excluded);
      if !(out == "others" && rec.trackUrl in excluded) {
        ExtendExtend(summary, out, Kept(out, records[..j], excluded), [ItemOf(rec)]);
        r := Extend(r, out, [ItemOf(rec)]);
      }
      j := j + 1;
    }
    assert records[..j] == records;
  }

  method SummarizeCategories(categorized: Dict<LinkRecord>) returns (summary: Dict<Item>)
    ensures summary == Summarize(categorized)
  {
    summary := Initial();
    var excluded: set<string> := {};
    var i := 0;
    while i < |categorized|
      invariant i <= |categorized|
      invariant excluded == Excluded(categorized[..i])
    {
      assert categorized[..i + 1][..i] == categorized[..i];
      var category := categorized[i].key;
      if category != "others" && category != "other" {
        excluded := AddTrackUrls(excluded, categorized[i].values);
      }
      i := i + 1;
    }
    assert categorized[..i] == categorized;
    i := 0;
    while i < |categorized|
      invariant i <= |categorized|
      invariant summary == Fill(categorized[..i], excluded)
    {
      assert categorized[..i + 1][..i] == categorized[..i];
      summary := FileRecords(summary, categorized[i].key, categorized[i].values, excluded);
      i := i + 1;
    }
    assert categorized[..i] == categorized;
  }

  /** The summary's keys are exactly CATEGORY_NAMES, in that order, whatever the input. */
  lemma {:induction false} SummaryKeys(d: Dict<LinkRecord>, excluded: set<string>)
    ensures Keys(Fill(d, excluded)) == CATEGORY_NAMES
  {
    if d != [] {
      SummaryKeys(d[..|d| - 1], excluded);
    }
  }

  /** The entries list `t` receives, category by category, in input order. */
  function Filed(d: Dict<LinkRecord>, excluded: set<string>, t: string): seq<Item> {
    if d == [] then []
    else
      var last := d[|d| - 1];
      Filed(d[..|d| - 1], excluded, t) + if Target(last.key) == t then Kept(t, last.values, excluded) else []
  }

  lemma {:induction false} InitialLookup(t: string)
    ensures Lookup(Initial(), t) == []
  {
    LookupFirstEmpty(Initial(), t, 0);
    assert Initial()[0..] == Initial();
  }

  /** A dict whose lists are all empty gives [] for every key, from any position k on. */
  lemma {:induction false} LookupFirstEmpty(s: Dict<Item>, t: string, k: nat)
    requires k <= |s|
    requires forall i :: 0 <= i < |s| ==> s[i].values == []
    ensures Lookup(s[k..], t) == []
    decreases |s| - k
  {
    if k < |s| {
      assert s[k..][1..] == s[k + 1..];
      LookupFirstEmpty(s, t, k + 1);
    }
  }

  lemma {:induction false} FillLookup(d: Dict<LinkRecord>, excluded: set<string>, t: string)
    ensures Lookup(Fill(d, excluded), t) == Filed(d, excluded, t)
  {
    if d == [] {
      InitialLookup(t);
    } else {
      var init := d[..|d| - 1];
      var last := d[|d| - 1];
      FillLookup(init, excluded, t);
      ExtendLookup(Fill(init, excluded), Target(last.key), Kept(Target(last.key), last.values, excluded), t);
    }
  }

  /** Outside "others" nothing is filtered: a list receives every record of its category. */
  lemma {:induction false} KeptAll(out: string, records: seq<LinkRecord>, excluded: set<string>)
    requires out != "others"
    ensures Kept(out, records, excluded) == Items(records)
  {
    if records != [] {
      KeptAll(out, records[..|records| - 1], excluded);
    }
  }

  /**
   * Every record of a store category is kept, in order, as {title, track_url, shop_link}:
   * the list of a store name is exactly the input list of that name, converted.
   */
  lemma {:induction false} StoreListKept(d: Dict<LinkRecord>, c: string)
    requires DistinctKeys(d)
    requires c in CATEGORY_NAMES && c != "others"
    ensures Lookup(Summarize(d), c) == Items(Lookup(d, c))
  {
    FillLookup(d, Excluded(d), c);
    StoreFiled(d, Excluded(d), c);
  }

  lemma {:induction false} StoreFiled(d: Dict<LinkRecord>, excluded: set<string>, c: string)
    requires DistinctKeys(d)
    requires c in CATEGORY_NAMES && c != "others"
    ensures Filed(d, excluded, c) == Items(Lookup(d, c))
  {
    if d != [] {
      var init := d[..|d| - 1];
      var last := d[|d| - 1];
      assert d == init + [last];
      DistinctSnoc(init, last);
      StoreFiled(init, excluded, c);
      LookupSnoc(init, last, c);
      if last.key == c {
        KeptAll(c, last.values, excluded);
        assert Lookup(init, c) == [];
        assert Items([]) == [];
        AppendNil(Items(last.values));
        assert [] + Items(last.values) == Items(last.values);
      } else {
        AppendNil(Items(Lookup(init, c)));
      }
    }
  }

  lemma {:induction false} TrackUrlsHas(records: seq<LinkRecord>, k: nat)
    requires k < |records|
    ensures records[k].trackUrl in TrackUrls(records)
  {
    if k < |records| - 1 {
      TrackUrlsHas(records[..|records| - 1], k);
    }
  }

  /** A record outside the catch-all categories puts its track into the exclusion set. */
  lemma {:induction false} ExcludedHas(d: Dict<LinkRecord>, i: nat, k: nat)
    requires i < |d| && k < |d[i].values| && !IsCatchAll(d[i].key)
    ensures d[i].values[k].trackUrl in Excluded(d)
  {
    if i < |d| - 1 {
      ExcludedHas(d[..|d| - 1], i, k);
    } else {
      TrackUrlsHas(d[i].values, k);
    }
  }

  lemma {:induction false} KeptFrom(out: string, records: seq<LinkRecord>, excluded: set<string>, item: Item)
    requires item in Kept(out, records, excluded)
    ensures exists k :: 0 <= k < |records| && item == ItemOf(records[k]) && !(out == "others" && records[k].trackUrl in excluded)
  {
    var init := records[..|records| - 1];
    if item in Kept(out, init, excluded) {
      KeptFrom(out, init, excluded, item);
      var k :| 0 <= k < |init| && item == ItemOf(init[k]) && !(out == "others" && init[k].trackUrl in excluded);
      assert records[k] == init[k];
    }
  }

  lemma {:induction false} KeptHas(out: string, records: seq<LinkRecord>, excluded: set<string>, k: nat)
    requires k < |records| && !(out == "others" && records[k].trackUrl in excluded)
    ensures ItemOf(records[k]) in Kept(out, records, excluded)
  {
    if k < |records| - 1 {
      KeptHas(out, records[..|records| - 1], excluded, k);
    }
  }

  lemma {:induction false} FiledFrom(d: Dict<LinkRecord>, excluded: set<string>, t: string, item: Item)
    requires item in Filed(d, excluded, t)
    ensures exists i, k ::
              && 0 <= i < |d| && 0 <= k < |d[i].values| && Target(d[i].key) == t
              && item == ItemOf(d[i].values[k]) && !(t == "others" && d[i].values[k].trackUrl in excluded)
  {
    var init := d[..|d| - 1];
    var last := d[|d| - 1];
    if item in Filed(init, excluded, t) {
      FiledFrom(init, excluded, t, item);
      var i, k :| 0 <= i < |init| && 0 <= k < |init[i].values| && Target(init[i].key) == t
        && item == ItemOf(init[i].values[k]) && !(t == "others" && init[i].values[k].trackUrl in excluded);
      assert d[i] == init[i];
    } else {
      KeptFrom(t, last.values, excluded, item);
      var k :| 0 <= k < |last.values| && item == ItemOf(last.values[k]) && !(t == "others" && last.values[k].trackUrl in excluded);
      assert d[|d| - 1] == last;
    }
  }

  lemma {:induction false} FiledHas(d: Dict<LinkRecord>, excluded: set<string>, i: nat, k: nat)
    requires i < |d| && k < |d[i].values|
    requires !(Target(d[i].key) == "others" && d[i].values[k].trackUrl in excluded)
    ensures ItemOf(d[i].values[k]) in Filed(d, excluded, Target(d[i].key))
  {
    if i < |d| - 1 {
      FiledHas(d[..|d| - 1], excluded, i, k);
    } else {
      KeptHas(Target(d[i].key), d[i].values, excluded, k);
    }
  }

  /**
   * Every "others" entry comes from a record filed under "others" or "other" whose track no other
   * category mentions; records under unknown tags never appear.
   */
  lemma OthersFromCatchAll(d: Dict<LinkRecord>, item: Item)
    requires item in Lookup(Summarize(d), "others")
    ensures exists i, k ::
              && 0 <= i < |d| && 0 <= k < |d[i].values| && IsCatchAll(d[i].key)
              && item == ItemOf(d[i].values[k]) && d[i].values[k].trackUrl !in Excluded(d)
  {
    FillLookup(d, Excluded(d), "others");
    FiledFrom(d, Excluded(d), "others", item);
    var i, k :| 0 <= i < |d| && 0 <= k < |d[i].values| && Target(d[i].key) == "others"
      && item == ItemOf(d[i].values[k]) && d[i].values[k].trackUrl !in Excluded(d);
    if !IsCatchAll(d[i].key) {
      ExcludedHas(d, i, k);
    }
  }

  /** A catch-all record whose track no other category mentions is kept under "others". */
  lemma CatchAllKept(d: Dict<LinkRecord>, i: nat, k: nat)
    requires i < |d| && k < |d[i].values| && IsCatchAll(d[i].key)
    requires d[i].values[k].trackUrl !in Excluded(d)
    ensures ItemOf(d[i].values[k]) in Lookup(Summarize(d), "others")
  {
    FillLookup(d, Excluded(d), "others");
    FiledHas(d, Excluded(d), i, k);
  }

  /** A catch-all record of a track that some store list holds is dropped: no track is in both. */
  lemma OthersExcludesStoreTracks(d: Dict<LinkRecord>, c: string, a: Item, b: Item)
    requires c in CATEGORY_NAMES && c != "others"
    requires a in Lookup(Summarize(d), "others") && b in Lookup(Summarize(d), c)
    ensures a.trackUrl != b.trackUrl
  {
    OthersFromCatchAll(d, a);
    FillLookup(d, Excluded(d), c);
    FiledFrom(d, Excluded(d), c, b);
    var i, k :| 0 <= i < |d| && 0 <= k < |d[i].values| && Target(d[i].key) == c
      && b == ItemOf(d[i].values[k]);
    ExcludedHas(d, i, k);
  }
}
