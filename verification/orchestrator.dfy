/**
 * collect_track_data: fetch every track page in turn, classify its links, stamp the page title
 * on the records and append them, category by category, to one insertion-ordered dict. A page
 * that cannot be fetched becomes a single "others" record.
 */
module Orchestrator {
  import opened Text
  import opened Dicts
  import opened Classifier

  /** A fetched track page as the program reads it: the <title> text (if any) and its anchors. */
  datatype Page = Page(title: Option<string>, anchors: seq<Anchor>)

  const FETCH_FAILED_TEXT: string := "Could not fetch track page"

  /** The record that stands for a page that could not be fetched. */
  function FailureRecord(trackUrl: string): (rec: LinkRecord)
    ensures rec.category == "others" && rec.title == UNKNOWN_TITLE
    ensures rec.trackUrl == trackUrl && rec.linkUrl == trackUrl
    ensures rec.linkText == FETCH_FAILED_TEXT
  {
    LinkRecord("others", UNKNOWN_TITLE, trackUrl, trackUrl, FETCH_FAILED_TEXT)
  }

  /** The records with their title field set, as `record.title = title` leaves them. */
  function Retitle(records: seq<LinkRecord>, title: string): (r: seq<LinkRecord>)
    ensures |r| == |records|
  {
    seq(|records|, i requires 0 <= i < |records| => records[i].(title := title))
  }

  /** Every list of the dict retitled, keys untouched. */
  function Stamp(d: Dict<LinkRecord>, title: string): (r: Dict<LinkRecord>)
    ensures |r| == |d|
  {
    seq(|d|, i requires 0 <= i < |d| => Entry(d[i].key, Retitle(d[i].values, title)))
  }

  lemma {:induction false} StampLookup(d: Dict<LinkRecord>, title: string, t: string)
    ensures Keys(Stamp(d, title)) == Keys(d)
    ensures Lookup(Stamp(d, title), t) == Retitle(Lookup(d, t), title)
  {
    if d != [] {
      assert Stamp(d, title)[1..] == Stamp(d[1..], title);
      StampLookup(d[1..], title, t);
      assert Keys(d) == [d[0].key] + Keys(d[1..]);
      assert Keys(Stamp(d, title)) == [d[0].key] + Keys(Stamp(d[1..], title));
    }
  }

  /** The title the records of a track carry: extract_title's, or "Unknown title" when the fetch failed. */
  function TitleOf(page: Option<Page>): string {
    if page.None? then UNKNOWN_TITLE else ExtractTitle(page.value.title)
  }

  /** What one track adds to the result, by category. */
  function TrackRecords(trackUrl: string, page: Option<Page>, urljoin: (string, string) -> string): Dict<LinkRecord> {
    if page.None? then [Entry("others", [FailureRecord(trackUrl)])]
    else Stamp(AnalyzeResult(trackUrl, Kinds(trackUrl, page.value.anchors, urljoin)), TitleOf(page))
  }

  function TrackRecordsOf(fetch: string -> Option<Page>, urljoin: (string, string) -> string): string -> Dict<LinkRecord> {
    trackUrl => TrackRecords(trackUrl, fetch(trackUrl), urljoin)
  }

  /** The tracks folded from the left, each track's dict merged into the result. */
  function Collect(tracks: seq<string>, per: string -> Dict<LinkRecord>): (r: Dict<LinkRecord>)
    ensures DistinctKeys(r)
  {
    if tracks == [] then []
    else Merge(Collect(tracks[..|tracks| - 1], per), per(tracks[|tracks| - 1]))
  }

  /** What collect_track_data returns, with fetch_track_page given as `fetch`. */
  function Collected(tracks: seq<string>, fetch: string -> Option<Page>, urljoin: (string, string) -> string): (r: Dict<LinkRecord>)
    ensures DistinctKeys(r)
  {
    Collect(tracks, TrackRecordsOf(fetch, urljoin))
  }

  /** The loop `for record in records: record.title = title`. */
  method StampTitle(records: seq<LinkRecord>, title: string) returns (stamped: seq<LinkRecord>)
    ensures stamped == Retitle(records, title)
  {
    stamped := records;
    var j := 0;
    while j < |stamped|
      invariant j <= |stamped| == |records|
      invariant forall k :: 0 <= k < j ==> stamped[k] == records[k].(title := title)
      invariant forall k :: j <= k < |records| ==> stamped[k] == records[k]
    {
      stamped := stamped[j := stamped[j].(title := title)];
      j := j + 1;
    }
  }

  /** for category, records in per_track.items(): stamp, then categorized[category].extend(records) */
  method MergeTrack(categorized: Dict<LinkRecord>, perTrack: Dict<LinkRecord>, title: string) returns (r: Dict<LinkRecord>)
    ensures r == Merge(categorized, Stamp(perTrack, title))
  {
    r := categorized;
    var j := 0;
    while j < |perTrack|
      invariant j <= |perTrack|
      invariant r == Merge(categorized, Stamp(perTrack[..j], title))
    {
      var records := StampTitle(perTrack[j].values, title);
      ghost var stamped := Stamp(perTrack[..j + 1], title);
      assert stamped[..j] == Stamp(perTrack[..j], title);
      assert stamped[j] == Entry(perTrack[j].key, records);
      assert Merge(categorized, stamped) == Extend(r, perTrack[j].key, records);
      r := Extend(r, perTrack[j].key, records);
      j := j + 1;
    }
    assert perTrack[..j] == perTrack;
  }

  /** One pass of the loop of collect_track_data, for a track whose fetch gave `page`. */
  method TrackStep(categorized: Dict<LinkRecord>, trackUrl: string, page: Option<Page>, urljoin: (string, string) -> string)
    returns (r: Dict<LinkRecord>)
    ensures r == Merge(categorized, TrackRecords(trackUrl, page, urljoin))
  {
    if page.None? {
      r := Extend(categorized, "others", [FailureRecord(trackUrl)]);
    } else {
      var title := ExtractTitle(page.value.title);
      var perTrack := AnalyzeLinks(trackUrl, page.value.anchors, urljoin);
      AnalyzeNeverEmpty(trackUrl, Kinds(trackUrl, page.value.anchors, urljoin));
      if perTrack == [] {
        // the "No links found" fallback of the source cannot be reached
        assert false;
      }
      r := MergeTrack(categorized, perTrack, title);
    }
  }

  method CollectTrackData(tracks: seq<string>, fetch: string -> Option<Page>, urljoin: (string, string) -> string)
    returns (categorized: Dict<LinkRecord>)
    ensures categorized == Collected(tracks, fetch, urljoin)
  {
    categorized := [];
    var i := 0;
    while i < |tracks|
      invariant i <= |tracks|
      invariant categorized == Collect(tracks[..i], TrackRecordsOf(fetch, urljoin))
    {
      var trackUrl := tracks[i];
      assert tracks[..i + 1][..i] == tracks[..i];
      var page := fetch(trackUrl);
      categorized := TrackStep(categorized, trackUrl, page, urljoin);
      assert TrackRecordsOf(fetch, urljoin)(trackUrl) == TrackRecords(trackUrl, page, urljoin);
      i := i + 1;
    }
    assert tracks[..i] == tracks;
  }

  /** Every record of a track belongs to it, sits under its own category and carries the track's title. */
  lemma TrackRecordFacts(trackUrl: string, page: Option<Page>, urljoin: (string, string) -> string, t: string, rec: LinkRecord)
    ensures DistinctKeys(TrackRecords(trackUrl, page, urljoin))
    ensures rec in Lookup(TrackRecords(trackUrl, page, urljoin), t) ==>
      rec.trackUrl == trackUrl && rec.category == t && rec.title == TitleOf(page)
  {
    if page.Some? {
      var kinds := Kinds(trackUrl, page.value.anchors, urljoin);
      var d := AnalyzeResult(trackUrl, kinds);
      StampLookup(d, TitleOf(page), t);
      if rec in Lookup(Stamp(d, TitleOf(page)), t) {
        var k :| 0 <= k < |Lookup(d, t)| && rec == Lookup(d, t)[k].(title := TitleOf(page));
        AnalyzeRecordsOfTrack(trackUrl, kinds, t, Lookup(d, t)[k]);
      }
      AnalyzeRecordsOfTrack(trackUrl, kinds, t, rec);
      assert DistinctKeys(Stamp(d, TitleOf(page))) by {
        forall i, j | 0 <= i < j < |d| ensures Stamp(d, TitleOf(page))[i].key != Stamp(d, TitleOf(page))[j].key {
          assert d[i].key != d[j].key;
        }
      }
    }
  }

  /** Every track adds at least one record: its dict has a category with a non-empty list. */
  lemma TrackAddsRecords(trackUrl: string, page: Option<Page>, urljoin: (string, string) -> string)
    ensures TrackRecords(trackUrl, page, urljoin) != []
    ensures Lookup(TrackRecords(trackUrl, page, urljoin), TrackRecords(trackUrl, page, urljoin)[0].key) != []
  {
    if page.Some? {
      var d := AnalyzeResult(trackUrl, Kinds(trackUrl, page.value.anchors, urljoin));
      AnalyzeNeverEmpty(trackUrl, Kinds(trackUrl, page.value.anchors, urljoin));
      StampLookup(d, TitleOf(page), d[0].key);
      assert Keys(d)[0] == d[0].key;
    }
  }

  /** The per-track lists of category t, concatenated in track order. */
  function PerTrack(tracks: seq<string>, per: string -> Dict<LinkRecord>, t: string): seq<LinkRecord> {
    if tracks == [] then []
    else PerTrack(tracks[..|tracks| - 1], per, t) + Lookup(per(tracks[|tracks| - 1]), t)
  }

  /**
   * Under every category the result lists the records of the first track, then those of the
   * second, and so on: an earlier track's records precede a later track's.
   */
  lemma {:induction false} CollectLookup(tracks: seq<string>, per: string -> Dict<LinkRecord>, t: string)
    requires forall i :: 0 <= i < |tracks| ==> DistinctKeys(per(tracks[i]))
    ensures Lookup(Collect(tracks, per), t) == PerTrack(tracks, per, t)
  {
    if tracks != [] {
      var init := tracks[..|tracks| - 1];
      assert forall i :: 0 <= i < |init| ==> init[i] == tracks[i];
      CollectLookup(init, per, t);
      MergeLookup(Collect(init, per), per(tracks[|tracks| - 1]), t);
    }
  }

  /** Processing more tracks only appends: each category list of a prefix of the tracks is a prefix of the final one. */
  lemma {:induction false} PerTrackPrefix(tracks: seq<string>, per: string -> Dict<LinkRecord>, t: string, k: nat)
    requires k <= |tracks|
    ensures PerTrack(tracks[..k], per, t) <= PerTrack(tracks, per, t)
    decreases |tracks|
  {
    if k < |tracks| {
      var init := tracks[..|tracks| - 1];
      assert init[..k] == tracks[..k];
      PerTrackPrefix(init, per, t, k);
    } else {
      assert tracks[..k] == tracks;
    }
  }

  /** A record of one track's list under t is in the concatenation. */
  lemma {:induction false} PerTrackHas(tracks: seq<string>, per: string -> Dict<LinkRecord>, t: string, rec: LinkRecord, i: nat)
    requires i < |tracks| && rec in Lookup(per(tracks[i]), t)
    ensures rec in PerTrack(tracks, per, t)
  {
    var init := tracks[..|tracks| - 1];
    if i < |init| {
      assert init[i] == tracks[i];
      PerTrackHas(init, per, t, rec, i);
    }
  }

  /** Every record of the concatenation comes from one track's list under t. */
  lemma {:induction false} PerTrackFrom(tracks: seq<string>, per: string -> Dict<LinkRecord>, t: string, rec: LinkRecord)
    requires rec in PerTrack(tracks, per, t)
    ensures exists i :: 0 <= i < |tracks| && rec in Lookup(per(tracks[i]), t)
  {
    var init := tracks[..|tracks| - 1];
    if rec in PerTrack(init, per, t) {
      PerTrackFrom(init, per, t, rec);
      var i :| 0 <= i < |init| && rec in Lookup(per(init[i]), t);
      assert tracks[i] == init[i];
    } else {
      assert rec in Lookup(per(tracks[|tracks| - 1]), t);
    }
  }

  lemma CollectedLookup(tracks: seq<string>, fetch: string -> Option<Page>, urljoin: (string, string) -> string, t: string)
    ensures Lookup(Collected(tracks, fetch, urljoin), t) == PerTrack(tracks, TrackRecordsOf(fetch, urljoin), t)
  {
    var per := TrackRecordsOf(fetch, urljoin);
    forall i | 0 <= i < |tracks| ensures DistinctKeys(per(tracks[i])) {
      TrackRecordFacts(tracks[i], fetch(tracks[i]), urljoin, "", FailureRecord(""));
    }
    CollectLookup(tracks, per, t);
  }

  /** A track whose page could not be fetched leaves exactly its failure record under "others". */
  lemma FailedFetchRecorded(tracks: seq<string>, fetch: string -> Option<Page>, urljoin: (string, string) -> string, i: nat)
    requires i < |tracks| && fetch(tracks[i]).None?
    ensures FailureRecord(tracks[i]) in Lookup(Collected(tracks, fetch, urljoin), "others")
  {
    var per := TrackRecordsOf(fetch, urljoin);
    CollectedLookup(tracks, fetch, urljoin, "others");
    assert per(tracks[i]) == [Entry("others", [FailureRecord(tracks[i])])];
    PerTrackHas(tracks, per, "others", FailureRecord(tracks[i]), i);
  }

  /** Every input track contributes at least one record to the result. */
  lemma EveryTrackContributes(tracks: seq<string>, fetch: string -> Option<Page>, urljoin: (string, string) -> string, i: nat)
    requires i < |tracks|
    ensures exists t, rec :: rec in Lookup(Collected(tracks, fetch, urljoin), t) && rec.trackUrl == tracks[i]
  {
    var per := TrackRecordsOf(fetch, urljoin);
    var d := per(tracks[i]);
    TrackAddsRecords(tracks[i], fetch(tracks[i]), urljoin);
    var t := d[0].key;
    var rec := Lookup(d, t)[0];
    TrackRecordFacts(tracks[i], fetch(tracks[i]), urljoin, t, rec);
    CollectedLookup(tracks, fetch, urljoin, t);
    PerTrackHas(tracks, per, t, rec, i);
  }

  /**
   * Every record of the result comes from one of the tracks, sits under its own category and
   * carries that track's title: extract_title's result, or "Unknown title" for a failed fetch.
   */
  lemma RecordsCarryTheirTitle(tracks: seq<string>, fetch: string -> Option<Page>, urljoin: (string, string) -> string, t: string, rec: LinkRecord)
    requires rec in Lookup(Collected(tracks, fetch, urljoin), t)
    ensures rec.trackUrl in tracks && rec.category == t && rec.title == TitleOf(fetch(rec.trackUrl))
  {
    var per := TrackRecordsOf(fetch, urljoin);
    CollectedLookup(tracks, fetch, urljoin, t);
    PerTrackFrom(tracks, per, t, rec);
    var i :| 0 <= i < |tracks| && rec in Lookup(per(tracks[i]), t);
    TrackRecordFacts(tracks[i], fetch(tracks[i]), urljoin, t, rec);
  }
}
