/**
 * extract_links_from_hydration_data: the playlist entries of the decoded window.__sc_hydration
 * array give the track links and the declared track count. An exception that escapes the
 * function (a "data" that is not a dict, "tracks" that cannot be iterated, a truthy permalink
 * that is not a string) is the result None.
 */
module Hydration {
  import opened Text
  import opened JsonValue
  import opened Urls

  /** What has been gathered so far: the cleaned links and the declared count. */
  datatype Gathered = Gathered(links: set<string>, declared: Option<int>)

  /** declared = declared or int(track_count), for a track_count that is not None; a failing int() changes nothing. */
  function CountStep(declared: Option<int>, trackCount: Json, parseInt: string -> Option<int>): (d: Option<int>)
    ensures declared.Some? && declared.value != 0 ==> d == declared
    ensures trackCount.JNull? ==> d == declared
    ensures d != declared ==> d == PyInt(trackCount, parseInt)
    ensures PyInt(trackCount, parseInt).None? ==> d == declared
    ensures !trackCount.JNull? && (declared.None? || declared == Some(0)) && PyInt(trackCount, parseInt).Some?
            ==> d == PyInt(trackCount, parseInt)
  {
    if trackCount.JNull? then declared
    else if declared.Some? && declared.value != 0 then declared
    else
      match PyInt(trackCount, parseInt)
      case None => declared
      case Some(n) => Some(n)
  }

  /**
   * The items `for track in tracks` visits, or None when iterating raises. Iterating a string
   * or a dict yields strings, which the loop skips, so both stand for no items here.
   */
  function TrackItems(tracks: Json): (r: Option<seq<Json>>)
    ensures tracks.JArr? ==> r == Some(tracks.items)
    ensures tracks.JNull? || tracks.JBool? || tracks.JInt? ==> r.None?
  {
    match tracks
    case JArr(items) => Some(items)
    case JStr(_) => Some([])
    case JObj(_) => Some([])
    case _ => None
  }

  /** One track: Some(None) when skipped, Some(Some(link)) when a link is added, None when clean_track_url raises. */
  function TrackLink(track: Json): (r: Option<Option<string>>)
    ensures r == Some(None) <==> !track.JObj? || !Truthy(Or(Get(track.fields, "permalink_url"), Get(track.fields, "permalink")))
    ensures r.Some? && r.value.Some? ==> '#' !in r.value.value && (r.value.value == [] || r.value.value[|r.value.value| - 1] != '?')
    ensures track.JObj? ==>
              var p := Or(Get(track.fields, "permalink_url"), Get(track.fields, "permalink"));
              Truthy(p) ==> (p.JStr? ==> r == Some(Some(CleanTrackUrl(p.s)))) && (!p.JStr? ==> r.None?)
  {
    if !track.JObj? then Some(None)
    else
      var permalink := Or(Get(track.fields, "permalink_url"), Get(track.fields, "permalink"));
      if !Truthy(permalink) then Some(None)
      else if permalink.JStr? then Some(Some(CleanTrackUrl(permalink.s)))
      else None
  }

  /** The links f yields over items, or None as soon as f raises on one of them. */
  function CollectLinks(items: seq<Json>, f: Json -> Option<Option<string>>): (r: Option<set<string>>)
  {
    if items == [] then Some({})
    else
      match CollectLinks(items[..|items| - 1], f)
      case None => None
      case Some(ls) =>
        match f(items[|items| - 1])
        case None => None
        case Some(None) => Some(ls)
        case Some(Some(l)) => Some(ls + {l})
  }

  /** The links of a list of tracks, or None if one of them raises. */
  function TracksLinks(items: seq<Json>): Option<set<string>> {
    CollectLinks(items, TrackLink)
  }

  predicate IsPlaylistEntry(entry: Json) {
    entry.JObj? && Get(entry.fields, "hydratable") == JStr("playlist")
  }

  /** The tracks a playlist entry's loop visits, or None when reading them raises. */
  function EntryItems(entry: Json): Option<seq<Json>>
    requires IsPlaylistEntry(entry)
  {
    var data := GetOr(entry.fields, "data", JObj(map[]));
    if !data.JObj? then None else TrackItems(GetOr(data.fields, "tracks", JArr([])))
  }

  /**
   * One entry of the hydration array, applied to what was gathered before it. A playlist
   * entry adds exactly the links of its tracks, and raises exactly when reading its tracks
   * or one of their permalinks raises.
   */
  function EntryStep(g: Gathered, entry: Json, parseInt: string -> Option<int>): (r: Option<Gathered>)
    ensures !IsPlaylistEntry(entry) ==> r == Some(g)
    ensures IsPlaylistEntry(entry) ==>
              (r.None? <==> EntryItems(entry).None? || TracksLinks(EntryItems(entry).value).None?)
    ensures IsPlaylistEntry(entry) && r.Some? ==> r.value.links == g.links + TracksLinks(EntryItems(entry).value).value
    ensures r.Some? ==> g.links <= r.value.links
    ensures r.Some? && g.declared.Some? && g.declared.value != 0 ==> r.value.declared == g.declared
  {
    if !IsPlaylistEntry(entry) then Some(g)
    else
      var data := GetOr(entry.fields, "data", JObj(map[]));
      if !data.JObj? then None
      else
        var d1 := CountStep(g.declared, Get(data.fields, "track_count"), parseInt);
        var tracks := GetOr(data.fields, "tracks", JArr([]));
        var d2 := if tracks.JArr? && d1.None? then Some(|tracks.items|) else d1;
        match TrackItems(tracks)
        case None => None
        case Some(items) =>
          match TracksLinks(items)
          case None => None
          case Some(ls) => Some(Gathered(g.links + ls, d2))
  }

  /** The entries folded from the left, stopping at the first one that raises. */
  function Entries(g: Gathered, entries: seq<Json>, parseInt: string -> Option<int>): (r: Option<Gathered>)
  {
    if entries == [] then Some(g)
    else
      match Entries(g, entries[..|entries| - 1], parseInt)
      case None => None
      case Some(g1) => EntryStep(g1, entries[|entries| - 1], parseInt)
  }

  /** extract_links_from_hydration_data(dataset) */
  function ExtractHydration(dataset: Json, parseInt: string -> Option<int>): (r: Option<Gathered>)
    ensures !dataset.JArr? || dataset.items == [] ==> r == Some(Gathered({}, None))
  {
    if !dataset.JArr? then Some(Gathered({}, None))
    else Entries(Gathered({}, None), dataset.items, parseInt)
  }

  /** The program's loops over the entries and their tracks; None stands for the escaping exception. */
  method ExtractLinksFromHydrationData(dataset: Json, parseInt: string -> Option<int>) returns (r: Option<Gathered>)
    ensures r == ExtractHydration(dataset, parseInt)
  {
    var links: set<string> := {};
    var declared: Option<int> := None;
    if !dataset.JArr? {
      return Some(Gathered(links, declared));
    }
    var entries := dataset.items;
    var i := 0;
    while i < |entries|
      invariant 0 <= i <= |entries|
      invariant Entries(Gathered({}, None), entries[..i], parseInt) == Some(Gathered(links, declared))
    {
      assert entries[..i + 1][..i] == entries[..i];
      var next := VisitEntry(links, declared, entries[i], parseInt);
      if next.None? {
        EntriesRaiseFrom(Gathered({}, None), entries, i + 1, parseInt);
        return None;
      }
      links, declared := next.value.links, next.value.declared;
      i := i + 1;
    }
    assert entries[..i] == entries;
    return Some(Gathered(links, declared));
  }

  /** The body of the loop over the entries: one entry read into the links and count gathered so far. */
  method VisitEntry(links: set<string>, declared: Option<int>, entry: Json, parseInt: string -> Option<int>) returns (r: Option<Gathered>)
    ensures r == EntryStep(Gathered(links, declared), entry, parseInt)
  {
    if !IsPlaylistEntry(entry) {
      return Some(Gathered(links, declared));
    }
    var data := GetOr(entry.fields, "data", JObj(map[]));
    if !data.JObj? {
      return None;
    }
    var trackCount := Get(data.fields, "track_count");
    var count := CountStep(declared, trackCount, parseInt);
    var tracks := GetOr(data.fields, "tracks", JArr([]));
    if tracks.JArr? && count.None? {
      count := Some(|tracks.items|);
    }
    var items := TrackItems(tracks);
    if items.None? {
      return None;
    }
    var entryLinks := CollectTrackLinks(items.value);
    if entryLinks.None? {
      return None;
    }
    return Some(Gathered(links + entryLinks.value, count));
  }

  /** The inner loop over the tracks of one playlist entry; None stands for the exception a bad permalink raises. */
  method CollectTrackLinks(items: seq<Json>) returns (r: Option<set<string>>)
    ensures r == TracksLinks(items)
  {
    var links: set<string> := {};
    var j := 0;
    while j < |items|
      invariant 0 <= j <= |items|
      invariant CollectLinks(items[..j], TrackLink) == Some(links)
    {
      assert items[..j + 1][..j] == items[..j];
      var found := TrackLink(items[j]);
      if found.None? {
        CollectLinksRaises(items, TrackLink, j);
        return None;
      }
      if found.value.Some? {
        links := links + {found.value.value};
      }
      j := j + 1;
    }
    assert items[..j] == items;
    return Some(links);
  }

  /** Once an entry raises, the whole array raises. */
  lemma {:induction false} EntriesRaiseFrom(g: Gathered, entries: seq<Json>, k: nat, parseInt: string -> Option<int>)
    requires k <= |entries| && Entries(g, entries[..k], parseInt).None?
    ensures Entries(g, entries, parseInt).None?
    decreases |entries|
  {
    if k < |entries| {
      assert entries[..|entries| - 1][..k] == entries[..k];
      EntriesRaiseFrom(g, entries[..|entries| - 1], k, parseInt);
    } else {
      assert entries[..k] == entries;
    }
  }

  /** An item on which f raises makes the whole collection raise. */
  lemma {:induction false} CollectLinksRaises(items: seq<Json>, f: Json -> Option<Option<string>>, j: nat)
    requires j < |items| && f(items[j]).None?
    ensures CollectLinks(items, f).None?
    decreases |items|
  {
    if j < |items| - 1 {
      CollectLinksRaises(items[..|items| - 1], f, j);
    }
  }

  /** A dataset that is not a list gives no links and no count. */
  lemma NonListGivesNothing(dataset: Json, parseInt: string -> Option<int>)
    requires !dataset.JArr?
    ensures ExtractHydration(dataset, parseInt) == Some(Gathered({}, None))
  {
  }

  /** The entries that are playlist dicts, in order. */
  function PlaylistEntries(entries: seq<Json>): (r: seq<Json>)
    ensures |r| <= |entries|
    ensures forall k :: 0 <= k < |r| ==> IsPlaylistEntry(r[k])
  {
    if entries == [] then []
    else
      var init := PlaylistEntries(entries[..|entries| - 1]);
      if IsPlaylistEntry(entries[|entries| - 1]) then init + [entries[|entries| - 1]] else init
  }

  /** Entries that are not dicts, or whose "hydratable" is not "playlist", change nothing. */
  lemma {:induction false} IgnoredEntriesChangeNothing(g: Gathered, entries: seq<Json>, parseInt: string -> Option<int>)
    ensures Entries(g, entries, parseInt) == Entries(g, PlaylistEntries(entries), parseInt)
  {
    if entries != [] {
      var init := entries[..|entries| - 1];
      var last := entries[|entries| - 1];
      IgnoredEntriesChangeNothing(g, init, parseInt);
      if IsPlaylistEntry(last) {
        var p := PlaylistEntries(init) + [last];
        assert p[..|p| - 1] == PlaylistEntries(init);
      }
    }
  }

  /** Once the declared count is a non-zero number, no later entry changes it. */
  lemma {:induction false} NonZeroCountKept(g: Gathered, entries: seq<Json>, parseInt: string -> Option<int>)
    requires g.declared.Some? && g.declared.value != 0
    ensures Entries(g, entries, parseInt).Some? ==> Entries(g, entries, parseInt).value.declared == g.declared
  {
    if entries != [] {
      NonZeroCountKept(g, entries[..|entries| - 1], parseInt);
    }
  }

  /** Once there is a declared count, there stays one: the len(tracks) fallback only fills an absent count. */
  lemma {:induction false} CountStaysPresent(g: Gathered, entries: seq<Json>, parseInt: string -> Option<int>)
    requires g.declared.Some?
    ensures Entries(g, entries, parseInt).Some? ==> Entries(g, entries, parseInt).value.declared.Some?
  {
    if entries != [] {
      CountStaysPresent(g, entries[..|entries| - 1], parseInt);
      match Entries(g, entries[..|entries| - 1], parseInt)
      case None =>
      case Some(g1) =>
        var entry := entries[|entries| - 1];
        if IsPlaylistEntry(entry) {
          var data := GetOr(entry.fields, "data", JObj(map[]));
          if data.JObj? {
            var d1 := CountStep(g1.declared, Get(data.fields, "track_count"), parseInt);
            assert d1.Some?;
          }
        }
    }
  }

  /** A playlist entry whose "tracks" list comes with no usable count declares the length of that list. */
  lemma LengthFallback(g: Gathered, entry: Json, parseInt: string -> Option<int>)
    requires IsPlaylistEntry(entry) && g.declared.None?
    requires var data := GetOr(entry.fields, "data", JObj(map[]));
      data.JObj? && GetOr(data.fields, "tracks", JArr([])).JArr?
      && CountStep(None, Get(data.fields, "track_count"), parseInt).None?
    ensures var r := EntryStep(g, entry, parseInt);
      r.Some? ==> r.value.declared == Some(|GetOr(GetOr(entry.fields, "data", JObj(map[])).fields, "tracks", JArr([])).items|)
  {
  }

  /** A count that int(track_count) provides, or that was already there, wins over len(tracks). */
  lemma ParsedCountBeatsLength(g: Gathered, entry: Json, parseInt: string -> Option<int>)
    requires IsPlaylistEntry(entry)
    requires var data := GetOr(entry.fields, "data", JObj(map[]));
      data.JObj? && CountStep(g.declared, Get(data.fields, "track_count"), parseInt).Some?
    ensures var r := EntryStep(g, entry, parseInt);
      r.Some? ==> r.value.declared == CountStep(g.declared, Get(GetOr(entry.fields, "data", JObj(map[])).fields, "track_count"), parseInt)
  {
  }

  /** With no count from track_count or before, and "tracks" not a list, there is still no count. */
  lemma NoCountWithoutList(g: Gathered, entry: Json, parseInt: string -> Option<int>)
    requires IsPlaylistEntry(entry)
    requires var data := GetOr(entry.fields, "data", JObj(map[]));
      data.JObj? && !GetOr(data.fields, "tracks", JArr([])).JArr?
      && CountStep(g.declared, Get(data.fields, "track_count"), parseInt).None?
    ensures var r := EntryStep(g, entry, parseInt); r.Some? ==> r.value.declared.None?
  {
  }

  /** A link is collected exactly when one of the items yields it. */
  lemma {:induction false} CollectLinksMembers(items: seq<Json>, f: Json -> Option<Option<string>>, l: string)
    requires CollectLinks(items, f).Some?
    ensures l in CollectLinks(items, f).value <==> exists j :: 0 <= j < |items| && f(items[j]) == Some(Some(l))
  {
    if items != [] {
      var init := items[..|items| - 1];
      CollectLinksMembers(init, f, l);
      if exists j :: 0 <= j < |init| && f(init[j]) == Some(Some(l)) {
        var j :| 0 <= j < |init| && f(init[j]) == Some(Some(l));
        assert items[j] == init[j];
      }
      if exists j :: 0 <= j < |items| && f(items[j]) == Some(Some(l)) {
        var j :| 0 <= j < |items| && f(items[j]) == Some(Some(l));
        if j < |init| { assert init[j] == items[j]; }
      }
    }
  }

  /** The entry is a playlist whose tracks include one that adds the link l. */
  predicate YieldsLink(entry: Json, l: string) {
    && IsPlaylistEntry(entry)
    && EntryItems(entry).Some?
    && exists j :: 0 <= j < |EntryItems(entry).value| && TrackLink(EntryItems(entry).value[j]) == Some(Some(l))
  }

  /** One entry adds exactly the links its tracks yield. */
  lemma EntryStepMembers(g: Gathered, entry: Json, parseInt: string -> Option<int>, l: string)
    requires EntryStep(g, entry, parseInt).Some?
    ensures l in EntryStep(g, entry, parseInt).value.links <==> l in g.links || YieldsLink(entry, l)
  {
    if IsPlaylistEntry(entry) {
      CollectLinksMembers(EntryItems(entry).value, TrackLink, l);
    }
  }

  /** A link is gathered exactly when it was there before or some entry's track adds it. */
  lemma {:induction false} EntriesMembers(g: Gathered, entries: seq<Json>, parseInt: string -> Option<int>, l: string)
    requires Entries(g, entries, parseInt).Some?
    ensures l in Entries(g, entries, parseInt).value.links <==>
              l in g.links || exists i :: 0 <= i < |entries| && YieldsLink(entries[i], l)
  {
    if entries != [] {
      var init := entries[..|entries| - 1];
      var last := entries[|entries| - 1];
      var g1 := Entries(g, init, parseInt).value;
      assert Entries(g, entries, parseInt) == EntryStep(g1, last, parseInt);
      EntriesMembers(g, init, parseInt, l);
      EntryStepMembers(g1, last, parseInt, l);
      SomeItemSatisfies(entries, init, e => YieldsLink(e, l));
    }
  }

  lemma SomeItemSatisfies(entries: seq<Json>, init: seq<Json>, p: Json -> bool)
    requires entries != [] && init == entries[..|entries| - 1]
    ensures (exists i :: 0 <= i < |entries| && p(entries[i])) <==>
              (exists i :: 0 <= i < |init| && p(init[i])) || p(entries[|entries| - 1])
  {
    assert forall i :: 0 <= i < |init| ==> init[i] == entries[i];
  }

  /**
   * extract_links_from_hydration_data collects exactly the cleaned permalinks of the tracks
   * of the playlist entries, whenever it does not raise.
   */
  lemma HydrationLinksMembers(dataset: Json, parseInt: string -> Option<int>, l: string)
    requires dataset.JArr? && ExtractHydration(dataset, parseInt).Some?
    ensures l in ExtractHydration(dataset, parseInt).value.links <==>
              exists i :: 0 <= i < |dataset.items| && YieldsLink(dataset.items[i], l)
  {
    EntriesMembers(Gathered({}, None), dataset.items, parseInt, l);
  }

  /** Every hydration link is a cleaned permalink: it has no fragment and does not end in '?'. */
  lemma {:induction false} HydrationLinksAreClean(g: Gathered, entries: seq<Json>, parseInt: string -> Option<int>, l: string)
    requires l in g.links ==> '#' !in l && (l == [] || l[|l| - 1] != '?')
    requires Entries(g, entries, parseInt).Some?
    ensures l in Entries(g, entries, parseInt).value.links ==> '#' !in l && (l == [] || l[|l| - 1] != '?')
  {
    if entries != [] {
      var g1 := Entries(g, entries[..|entries| - 1], parseInt).value;
      HydrationLinksAreClean(g, entries[..|entries| - 1], parseInt, l);
      var entry := entries[|entries| - 1];
      if IsPlaylistEntry(entry) && l !in g1.links && l in Entries(g, entries, parseInt).value.links {
        var data := GetOr(entry.fields, "data", JObj(map[]));
        var items := TrackItems(GetOr(data.fields, "tracks", JArr([]))).value;
        CollectLinksMembers(items, TrackLink, l);
        var j :| 0 <= j < |items| && TrackLink(items[j]) == Some(Some(l));
      }
    }
  }
}
