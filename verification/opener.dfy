/**
 * The open command: load_json_file's structural checks on a saved summary, and the part of
 * open_links_in_browser that decides which links are opened (category choice, flattening,
 * skip and limit, shop link or track fallback) and counts them. The browser is a parameter
 * telling whether open_new_tab succeeded for a link.
 */
module Opener {
  import opened Text
  import opened JsonValue
  import opened Dicts
  import opened Summary

  /** A summary as the open command reads it: category name to list of JSON objects. */
  type Loaded = map<string, seq<map<string, Json>>>

  /** A category's value passes the checks: a list of objects, each with a "track_url" key. */
  predicate ValidList(v: Json) {
    v.JArr? && forall i :: 0 <= i < |v.items| ==> v.items[i].JObj? && "track_url" in v.items[i].fields
  }

  function Objects(v: Json): (objs: seq<map<string, Json>>)
    requires ValidList(v)
    ensures |objs| == |v.items| && forall i :: 0 <= i < |objs| ==> JObj(objs[i]) == v.items[i]
  {
    seq(|v.items|, i requires 0 <= i < |v.items| => v.items[i].fields)
  }

  /** What load_json_file returns for decoded data: the data itself, or None for the ValueError it raises. */
  function LoadSummary(data: Json): (r: Option<Loaded>)
    ensures !data.JObj? ==> r.None?
    ensures data.JObj? && (exists k :: k in data.fields && !ValidList(data.fields[k])) ==> r.None?
    ensures data.JObj? && (forall k :: k in data.fields ==> ValidList(data.fields[k])) ==> r.Some?
    ensures r.Some? ==> data.JObj? && r.value.Keys == data.fields.Keys
    ensures r.Some? ==> forall k :: k in r.value ==> ValidList(data.fields[k]) && r.value[k] == Objects(data.fields[k])
  {
    if !data.JObj? then None
    else if exists k :: k in data.fields && !ValidList(data.fields[k]) then None
    else Some(map k | k in data.fields :: Objects(data.fields[k]))
  }

  /** for item in items: the isinstance(item, dict) and "track_url" checks */
  method CheckItems(v: Json) returns (ok: bool)
    ensures ok == ValidList(v)
  {
    if !v.JArr? {
      return false;
    }
    var i := 0;
    while i < |v.items|
      invariant i <= |v.items|
      invariant forall j :: 0 <= j < i ==> v.items[j].JObj? && "track_url" in v.items[j].fields
    {
      if !v.items[i].JObj? || "track_url" !in v.items[i].fields {
        return false;
      }
      i := i + 1;
    }
    return true;
  }

  /** The validation of load_json_file, category by category in some order. */
  method ValidateSummary(data: Json) returns (r: Option<Loaded>)
    ensures r == LoadSummary(data)
  {
    if !data.JObj? {
      return None;
    }
    var unchecked := data.fields.Keys;
    while unchecked != {}
      invariant unchecked <= data.fields.Keys
      invariant forall k :: k in data.fields && k !in unchecked ==> ValidList(data.fields[k])
      decreases unchecked
    {
      var k :| k in unchecked;
      var ok := CheckItems(data.fields[k]);
      if !ok {
        return None;
      }
      unchecked := unchecked - {k};
    }
    return Some(map k | k in data.fields :: Objects(data.fields[k]));
  }

  /** The JSON form of an exported summary entry. */
  function ItemJson(item: Item): map<string, Json> {
    map["title" := JStr(item.title), "track_url" := JStr(item.trackUrl), "shop_link" := JStr(item.shopLink)]
  }

  function ListJson(items: seq<Item>): (v: Json)
    ensures v.JArr? && |v.items| == |items|
  {
    JArr(seq(|items|, i requires 0 <= i < |items| => JObj(ItemJson(items[i]))))
  }

  /** The summary as json.dump writes it and json.load reads it back. */
  function SummaryJson(s: Dict<Item>): Json {
    JObj(map k | k in Keys(s) :: ListJson(Lookup(s, k)))
  }

  /** A summary the dig command exports passes the checks of load_json_file. */
  lemma ExportedSummaryLoads(s: Dict<Item>)
    ensures LoadSummary(SummaryJson(s)).Some?
    ensures LoadSummary(SummaryJson(s)).value.Keys == set k | k in Keys(s)
  {
    var fields := SummaryJson(s).fields;
    forall k | k in fields ensures ValidList(fields[k]) {
      var items := Lookup(s, k);
      forall i | 0 <= i < |items| ensures fields[k].items[i] == JObj(ItemJson(items[i])) { }
    }
  }

  /** categories_to_open */
  function Categories(category: string): (cats: seq<string>)
    ensures category == "all" ==> cats == CATEGORY_NAMES
    ensures category != "all" ==> cats == [category]
  {
    if category == "all" then CATEGORY_NAMES else [category]
  }

  /** summary.get(cat, []) */
  function ItemsOf(summary: Loaded, cat: string): seq<map<string, Json>> {
    if cat in summary then summary[cat] else []
  }

  function Tagged(cat: string, items: seq<map<string, Json>>): (r: seq<(string, map<string, Json>)>)
    ensures |r| == |items|
  {
    seq(|items|, i requires 0 <= i < |items| => (cat, items[i]))
  }

  /** The records of the chosen categories, category by category, each list in its own order. */
  function Flatten(summary: Loaded, cats: seq<string>): seq<(string, map<string, Json>)> {
    if cats == [] then []
    else
      var cat := cats[|cats| - 1];
      Flatten(summary, cats[..|cats| - 1]) + Tagged(cat, ItemsOf(summary, cat))
  }

  /** records[skip:] for a skip the caller has already raised to at least 0 (`if skip` only skips the no-op). */
  function DropFirst<T>(s: seq<T>, skip: nat): (r: seq<T>)
    ensures |r| == if skip <= |s| then |s| - skip else 0
  {
    if skip == 0 then s else if skip <= |s| then s[skip..] else []
  }

  /** records[:limit] with Python's slicing: a negative limit drops that many from the end. */
  function TakeFirst<T>(s: seq<T>, limit: Option<int>): (r: seq<T>)
    ensures r <= s
    ensures limit.None? ==> r == s
    ensures limit.Some? && 0 <= limit.value ==> |r| == if limit.value <= |s| then limit.value else |s|
    ensures limit.Some? && limit.value < 0 ==> |r| == if -limit.value <= |s| then |s| + limit.value else 0
  {
    if limit.None? then s
    else if 0 <= limit.value then (if limit.value <= |s| then s[..limit.value] else s)
    else if -limit.value <= |s| then s[..|s| + limit.value]
    else []
  }

  /** The records the loop goes through. */
  function Selected(summary: Loaded, category: string, skip: nat, limit: Option<int>): seq<(string, map<string, Json>)> {
    TakeFirst(DropFirst(Flatten(summary, Categories(category)), skip), limit)
  }

  /** (item.get(key) or "").strip(), or None when the value is a truthy non-string and .strip() raises. */
  function FieldText(item: map<string, Json>, key: string): (r: Option<string>)
    ensures key !in item ==> r == Some([])
    ensures key in item && item[key].JStr? ==> r == Some(Strip(item[key].s))
  {
    var v := Get(item, key);
    if !Truthy(v) then Some([])
    else if v.JStr? then Some(Strip(v.s))
    else None
  }

  datatype Choice = OpenShop(link: string) | OpenTrack(link: string) | NoLink

  /** Which link an item opens, or None when reading its fields raises. */
  function Choose(item: map<string, Json>): (r: Option<Choice>)
    ensures r.Some? && !r.value.NoLink? ==> r.value.link != []
  {
    var shop := FieldText(item, "shop_link");
    var track := FieldText(item, "track_url");
    if shop.None? || track.None? then None
    else if shop.value != [] && shop.value != track.value then Some(OpenShop(shop.value))
    else if track.value == [] then Some(NoLink)
    else Some(OpenTrack(track.value))
  }

  /**
   * An item raises exactly when one of its two fields does; otherwise a non-empty shop link
   * that differs from the track URL wins, a non-empty track URL is the fallback, and an item
   * with neither opens nothing.
   */
  lemma ChooseSpec(item: map<string, Json>)
    ensures var r := Choose(item);
      && (r.None? <==> FieldText(item, "shop_link").None? || FieldText(item, "track_url").None?)
      && (r.Some? && r.value.OpenShop? ==>
            r.value.link != [] && FieldText(item, "shop_link") == Some(r.value.link) && FieldText(item, "track_url") != Some(r.value.link))
      && (r.Some? && r.value.OpenTrack? ==>
            r.value.link != [] && FieldText(item, "track_url") == Some(r.value.link)
            && FieldText(item, "shop_link") in {Some([]), Some(r.value.link)})
      && (r.Some? && r.value.NoLink? ==>
            FieldText(item, "track_url") == Some([]) && FieldText(item, "shop_link") == Some([]))
  {
  }

  /** The links handed to open_new_tab, in order, and the three counters. */
  datatype Report = Report(attempted: seq<string>, totalOpened: nat, shopLinksOpened: nat, trackLinksOpened: nat)

  /** The counters after one item: a shop link or a track fallback is tried, and counted as opened when the browser takes it. */
  function Step(rep: Report, choice: Choice, opens: string -> bool): Report {
    match choice
    case NoLink => rep
    case OpenShop(l) =>
      Report(rep.attempted + [l], rep.totalOpened + (if opens(l) then 1 else 0), rep.shopLinksOpened + 1, rep.trackLinksOpened)
    case OpenTrack(l) =>
      Report(rep.attempted + [l], rep.totalOpened + (if opens(l) then 1 else 0), rep.shopLinksOpened, rep.trackLinksOpened + 1)
  }

  /** Choose as a value, so that the loop below can be stated for any way of choosing. */
  function Chooser(): map<string, Json> -> Option<Choice> {
    item => Choose(item)
  }

  /**
   * The loop over the selected records, with `choose` deciding each item (Chooser() in the
   * command); `opens` says whether open_new_tab succeeded. None: an item raised.
   */
  function Plan(records: seq<(string, map<string, Json>)>, choose: map<string, Json> -> Option<Choice>, opens: string -> bool): (r: Option<Report>)
    ensures r.Some? ==> |r.value.attempted| <= |records|
  {
    if records == [] then Some(Report([], 0, 0, 0))
    else
      var before := Plan(records[..|records| - 1], choose, opens);
      var choice := choose(records[|records| - 1].1);
      if before.None? || choice.None? then None
      else Some(Step(before.value, choice.value, opens))
  }

  /** The flattening loop: records.extend((cat, item) for item in items), skipping empty lists. */
  method FlattenCategories(summary: Loaded, cats: seq<string>) returns (records: seq<(string, map<string, Json>)>)
    ensures records == Flatten(summary, cats)
  {
    records := [];
    var i := 0;
    while i < |cats|
      invariant i <= |cats|
      invariant records == Flatten(summary, cats[..i])
    {
      assert cats[..i + 1][..i] == cats[..i];
      var items := ItemsOf(summary, cats[i]);
      if items != [] {
        records := records + Tagged(cats[i], items);
      }
      i := i + 1;
    }
    assert cats[..i] == cats;
  }

  /** The opening loop with its three counters. */
  method OpenRecords(records: seq<(string, map<string, Json>)>, opens: string -> bool) returns (r: Option<Report>)
    ensures r == Plan(records, Chooser(), opens)
  {
    var attempted: seq<string> := [];
    var totalOpened: nat := 0;
    var shopLinksOpened: nat := 0;
    var trackLinksOpened: nat := 0;
    var i := 0;
    while i < |records|
      invariant i <= |records|
      invariant Plan(records[..i], Chooser(), opens) == Some(Report(attempted, totalOpened, shopLinksOpened, trackLinksOpened))
    {
      ChosenPlanSnoc(records, opens, i);
      var choice := Choose(records[i].1);
      if choice.None? {
        ChosenPlanRaises(records, opens, i);
        return None;
      }
      attempted, totalOpened, shopLinksOpened, trackLinksOpened :=
        Tally(attempted, totalOpened, shopLinksOpened, trackLinksOpened, choice.value, opens);
      i := i + 1;
    }
    assert records[..i] == records;
    r := Some(Report(attempted, totalOpened, shopLinksOpened, trackLinksOpened));
  }

  /** The body of the opening loop for one item whose fields could be read. */
  method Tally(attempted: seq<string>, totalOpened: nat, shopLinksOpened: nat, trackLinksOpened: nat, choice: Choice, opens: string -> bool)
    returns (attempted2: seq<string>, totalOpened2: nat, shopLinksOpened2: nat, trackLinksOpened2: nat)
    ensures Report(attempted2, totalOpened2, shopLinksOpened2, trackLinksOpened2)
      == Step(Report(attempted, totalOpened, shopLinksOpened, trackLinksOpened), choice, opens)
  {
    attempted2, totalOpened2, shopLinksOpened2, trackLinksOpened2 := attempted, totalOpened, shopLinksOpened, trackLinksOpened;
    match choice {
      case OpenShop(link) =>
        attempted2 := attempted2 + [link];
        shopLinksOpened2 := shopLinksOpened2 + 1;
        if opens(link) {
          totalOpened2 := totalOpened2 + 1;
        }
      case OpenTrack(link) =>
        attempted2 := attempted2 + [link];
        trackLinksOpened2 := trackLinksOpened2 + 1;
        if opens(link) {
          totalOpened2 := totalOpened2 + 1;
        }
      case NoLink =>
    }
  }

  /** One more record of the command's loop, read with Choose. */
  lemma ChosenPlanSnoc(records: seq<(string, map<string, Json>)>, opens: string -> bool, i: nat)
    requires i < |records|
    ensures Plan(records[..i + 1], Chooser(), opens) ==
      if Plan(records[..i], Chooser(), opens).None? || Choose(records[i].1).None? then None
      else Some(Step(Plan(records[..i], Chooser(), opens).value, Choose(records[i].1).value, opens))
  {
    PlanSnoc(records, Chooser(), opens, i);
    assert Chooser()(records[i].1) == Choose(records[i].1);
  }

  /** A record whose fields raise ends the command's loop with None. */
  lemma ChosenPlanRaises(records: seq<(string, map<string, Json>)>, opens: string -> bool, i: nat)
    requires i < |records| && Choose(records[i].1).None?
    ensures Plan(records, Chooser(), opens).None?
  {
    assert Chooser()(records[i].1) == Choose(records[i].1);
    PlanRaisesFrom(records, Chooser(), opens, i);
  }

  lemma PlanSnoc(records: seq<(string, map<string, Json>)>, choose: map<string, Json> -> Option<Choice>, opens: string -> bool, i: nat)
    requires i < |records|
    ensures Plan(records[..i + 1], choose, opens) ==
      if Plan(records[..i], choose, opens).None? || choose(records[i].1).None? then None
      else Some(Step(Plan(records[..i], choose, opens).value, choose(records[i].1).value, opens))
  {
    assert records[..i + 1][..i] == records[..i];
  }

  /** An item that raises ends the whole command: later items cannot bring the result back. */
  lemma {:induction false} PlanRaisesFrom(records: seq<(string, map<string, Json>)>, choose: map<string, Json> -> Option<Choice>, opens: string -> bool, i: nat)
    requires i < |records| && choose(records[i].1).None?
    ensures Plan(records, choose, opens).None?
    decreases |records|
  {
    var init := records[..|records| - 1];
    if i < |init| {
      assert init[i] == records[i];
      PlanRaisesFrom(init, choose, opens, i);
    }
  }

  /**
   * open_links_in_browser over a summary whose values are lists of objects: None when an item
   * raises, an empty report when opening is disabled or nothing is left to open.
   */
  method OpenLinksInBrowser(summary: Loaded, category: string, skip: nat, limit: Option<int>, disableOpen: bool, opens: string -> bool)
    returns (r: Option<Report>)
    ensures disableOpen ==> r == Some(Report([], 0, 0, 0))
    ensures !disableOpen ==> r == Plan(Selected(summary, category, skip, limit), Chooser(), opens)
  {
    if disableOpen {
      return Some(Report([], 0, 0, 0));
    }
    var categoriesToOpen := if category == "all" then CATEGORY_NAMES else [category];
    var records := FlattenCategories(summary, categoriesToOpen);
    if records == [] {
      return Some(Report([], 0, 0, 0));
    }
    if skip != 0 {
      records := if skip <= |records| then records[skip..] else [];
    }
    if limit.Some? {
      records := TakeFirst(records, limit);
    }
    if records == [] {
      return Some(Report([], 0, 0, 0));
    }
    r := OpenRecords(records, opens);
  }

  /** The counters agree with the links tried: every link is a shop link or a track fallback, and no more open than were tried. */
  lemma {:induction false} PlanCounts(records: seq<(string, map<string, Json>)>, choose: map<string, Json> -> Option<Choice>, opens: string -> bool)
    requires Plan(records, choose, opens).Some?
    ensures var rep := Plan(records, choose, opens).value;
      && rep.shopLinksOpened + rep.trackLinksOpened == |rep.attempted|
      && rep.totalOpened <= |rep.attempted|
  {
    if records != [] {
      PlanCounts(records[..|records| - 1], choose, opens);
    }
  }

  /** The number of records whose choice is a shop link (shop) or a track fallback (!shop). */
  function CountChosen(records: seq<(string, map<string, Json>)>, choose: map<string, Json> -> Option<Choice>, shop: bool): nat {
    if records == [] then 0
    else
      var c := choose(records[|records| - 1].1);
      CountChosen(records[..|records| - 1], choose, shop)
      + (if c.Some? && (if shop then c.value.OpenShop? else c.value.OpenTrack?) then 1 else 0)
  }

  /** The number of links the browser takes. */
  function CountOpened(links: seq<string>, opens: string -> bool): nat {
    if links == [] then 0
    else CountOpened(links[..|links| - 1], opens) + (if opens(links[|links| - 1]) then 1 else 0)
  }

  /**
   * What each counter counts: shop_links_opened the records whose shop link is chosen,
   * track_links_opened those that fall back to the track URL (both whether or not the
   * browser takes the link), total_opened the tried links the browser takes.
   */
  lemma {:induction false} PlanCounters(records: seq<(string, map<string, Json>)>, choose: map<string, Json> -> Option<Choice>, opens: string -> bool)
    requires Plan(records, choose, opens).Some?
    ensures var rep := Plan(records, choose, opens).value;
      && rep.shopLinksOpened == CountChosen(records, choose, true)
      && rep.trackLinksOpened == CountChosen(records, choose, false)
      && rep.totalOpened == CountOpened(rep.attempted, opens)
  {
    if records != [] {
      var init := records[..|records| - 1];
      PlanCounters(init, choose, opens);
      var before := Plan(init, choose, opens).value;
      match choose(records[|records| - 1].1).value
      case NoLink =>
      case OpenShop(l) =>
        assert (before.attempted + [l])[..|before.attempted|] == before.attempted;
      case OpenTrack(l) =>
        assert (before.attempted + [l])[..|before.attempted|] == before.attempted;
    }
  }

  /** Every link tried is the shop link or the track fallback chosen for one of the records. */
  lemma {:induction false} PlanLinksChosen(records: seq<(string, map<string, Json>)>, choose: map<string, Json> -> Option<Choice>, opens: string -> bool, k: nat)
    requires Plan(records, choose, opens).Some? && k < |Plan(records, choose, opens).value.attempted|
    ensures var l := Plan(records, choose, opens).value.attempted[k];
      exists j :: 0 <= j < |records| && choose(records[j].1) in {Some(OpenShop(l)), Some(OpenTrack(l))}
  {
    var n := |records| - 1;
    var init := records[..n];
    var before := Plan(init, choose, opens).value;
    var l := Plan(records, choose, opens).value.attempted[k];
    if k < |before.attempted| {
      PlanLinksChosen(init, choose, opens, k);
      var j :| 0 <= j < |init| && choose(init[j].1) in {Some(OpenShop(l)), Some(OpenTrack(l))};
      assert records[j] == init[j];
    } else {
      assert choose(records[n].1) in {Some(OpenShop(l)), Some(OpenTrack(l))};
    }
  }

  /** Every link the command tries is non-empty. */
  lemma AttemptedLinksNonEmpty(records: seq<(string, map<string, Json>)>, opens: string -> bool, k: nat)
    requires Plan(records, Chooser(), opens).Some? && k < |Plan(records, Chooser(), opens).value.attempted|
    ensures Plan(records, Chooser(), opens).value.attempted[k] != []
  {
    PlanLinksChosen(records, Chooser(), opens, k);
    var l := Plan(records, Chooser(), opens).value.attempted[k];
    var j :| 0 <= j < |records| && Chooser()(records[j].1) in {Some(OpenShop(l)), Some(OpenTrack(l))};
    assert Choose(records[j].1) in {Some(OpenShop(l)), Some(OpenTrack(l))};
    ChooseSpec(records[j].1);
  }

  /** When every record yields a link, the links tried are exactly the chosen ones, record by record. */
  lemma {:induction false} PlanAttemptsAllUsable(records: seq<(string, map<string, Json>)>, choose: map<string, Json> -> Option<Choice>, opens: string -> bool)
    requires forall k :: 0 <= k < |records| ==> choose(records[k].1).Some? && !choose(records[k].1).value.NoLink?
    ensures Plan(records, choose, opens).Some?
    ensures var att := Plan(records, choose, opens).value.attempted;
      && |att| == |records|
      && forall k :: 0 <= k < |records| ==> choose(records[k].1) in {Some(OpenShop(att[k])), Some(OpenTrack(att[k]))}
  {
    if records != [] {
      var n := |records| - 1;
      var init := records[..n];
      assert forall k :: 0 <= k < n ==> init[k] == records[k];
      PlanAttemptsAllUsable(init, choose, opens);
    }
  }

  /** Skip and limit cut a window out of the flattened records: the selection starts skip records in. */
  lemma SelectionIsWindow(summary: Loaded, category: string, skip: nat, limit: Option<int>)
    ensures var all := Flatten(summary, Categories(category));
      var sel := Selected(summary, category, skip, limit);
      skip <= |all| ==> sel == all[skip..skip + |sel|]
    ensures limit.Some? && limit.value >= 0 ==> |Selected(summary, category, skip, limit)| <= limit.value
  {
    var all := Flatten(summary, Categories(category));
    var rest := DropFirst(all, skip);
    var sel := TakeFirst(rest, limit);
    if skip <= |all| {
      assert rest == all[skip..];
      assert sel == rest[..|sel|];
    }
  }

  /** A flattened record is a (category, item) pair of one of the chosen categories' lists. */
  lemma {:induction false} FlattenMembers(summary: Loaded, cats: seq<string>, cat: string, item: map<string, Json>)
    ensures (cat, item) in Flatten(summary, cats) <==> cat in cats && item in ItemsOf(summary, cat)
  {
    if cats != [] {
      var init := cats[..|cats| - 1];
      var last := cats[|cats| - 1];
      FlattenMembers(summary, init, cat, item);
      assert cats == init + [last];
      if cat == last && item in ItemsOf(summary, cat) {
        var k :| 0 <= k < |ItemsOf(summary, cat)| && ItemsOf(summary, cat)[k] == item;
        assert Tagged(last, ItemsOf(summary, last))[k] == (cat, item);
      }
    }
  }

  /** The summary as the dig command hands it over, every entry a JSON object of strings. */
  function SummaryLoaded(s: Dict<Item>): Loaded {
    map k | k in Keys(s) :: seq(|Lookup(s, k)|, i requires 0 <= i < |Lookup(s, k)| => ItemJson(Lookup(s, k)[i]))
  }

  /** An item whose values are all strings. */
  predicate StringFields(item: map<string, Json>) {
    forall key :: key in item ==> item[key].JStr?
  }

  /** Opening items whose values are all strings never raises. */
  lemma {:induction false} StringItemsNeverRaise(records: seq<(string, map<string, Json>)>, opens: string -> bool)
    requires forall k :: 0 <= k < |records| ==> StringFields(records[k].1)
    ensures Plan(records, Chooser(), opens).Some?
  {
    if records != [] {
      var init := records[..|records| - 1];
      forall k | 0 <= k < |init| ensures StringFields(init[k].1) {
        assert init[k] == records[k];
      }
      StringItemsNeverRaise(init, opens);
      var item := records[|records| - 1].1;
      assert StringFields(item);
      assert Chooser()(item) == Choose(item);
    }
  }


  /** The entries of an exported summary are objects of strings, so opening them never raises. */
  lemma ExportedItemsAreStrings(s: Dict<Item>, k: string, i: nat)
    requires k in SummaryLoaded(s) && i < |SummaryLoaded(s)[k]|
    ensures StringFields(SummaryLoaded(s)[k][i])
  {
    assert SummaryLoaded(s)[k][i] == ItemJson(Lookup(s, k)[i]);
  }
}
