/**
 * load_tracks_from_html_file once the page is parsed: the anchor links, the links and count
 * of every script that carries window.__sc_hydration, their sorted union, and the text-based
 * count when no script declared one.
 */
module Playlist {
  import opened Text
  import opened JsonValue
  import opened Urls
  import opened DataIsland
  import opened Hydration
  import opened TrackLinks
  import opened TrackCount
  import opened Ordering

  const MARKER: string := "window.__sc_hydration"

  /**
   * What one script body contributes: None when it has no marker, no '[' after the marker,
   * a candidate json.loads rejects (decode gives None), or data whose extraction raises.
   */
  function ScriptResult(script: string, decode: string -> Option<Json>, parseInt: string -> Option<int>): (r: Option<Gathered>)
    ensures !Contains(script, MARKER) ==> r.None?
  {
    if !Contains(script, MARKER) then None
    else
      var arrayStart := IndexOf(script, '[', Find(script, MARKER).value);
      if arrayStart == |script| then None
      else
        match decode(Candidate(script, arrayStart))
        case None => None
        case Some(data) => ExtractHydration(data, parseInt)
  }

  function ScriptResultOf(decode: string -> Option<Json>, parseInt: string -> Option<int>): string -> Option<Gathered> {
    script => ScriptResult(script, decode, parseInt)
  }

  /** The script bodies folded from the left: links are unioned, the first declared count is kept. */
  function Gather(scripts: seq<string>, f: string -> Option<Gathered>): Gathered {
    if scripts == [] then Gathered({}, None)
    else
      var g := Gather(scripts[..|scripts| - 1], f);
      match f(scripts[|scripts| - 1])
      case None => g
      case Some(h) => Gathered(g.links + h.links, if g.declared.None? then h.declared else g.declared)
  }

  function ScriptsGathered(scripts: seq<string>, decode: string -> Option<Json>, parseInt: string -> Option<int>): Gathered {
    Gather(scripts, ScriptResultOf(decode, parseInt))
  }

  /**
   * The page as the loader sees it: the href of every anchor, the text of every script (the
   * empty string for a script without a single text child), the numTracks meta tag and the
   * visible text. urljoin, json.loads and int() on strings are parameters.
   */
  method LoadTracksFromHtml(
    hrefs: seq<string>, scripts: seq<string>, meta: Option<MetaTag>, text: string,
    urljoin: (string, string) -> string, decode: string -> Option<Json>, parseInt: string -> Option<int>)
    returns (links: seq<string>, declared: Option<int>)
    ensures StrictlySorted(links)
    ensures forall l :: l in links <==>
      l in SomeValues(hrefs, AnchorTrackLinkOf(urljoin)) || l in ScriptsGathered(scripts, decode, parseInt).links
    ensures var g := ScriptsGathered(scripts, decode, parseInt);
      declared == if g.declared.Some? then g.declared else ExtractDeclaredTrackCount(meta, text, parseInt)
  {
    var trackLinks := ParseTrackLinks(hrefs, urljoin);
    var hydrationLinks: set<string> := {};
    var declaredCount: Option<int> := None;
    var i := 0;
    while i < |scripts|
      invariant 0 <= i <= |scripts|
      invariant Gather(scripts[..i], ScriptResultOf(decode, parseInt)) == Gathered(hydrationLinks, declaredCount)
    {
      var script := scripts[i];
      assert scripts[..i + 1][..i] == scripts[..i];
      assert ScriptResultOf(decode, parseInt)(script) == ScriptResult(script, decode, parseInt);
      if Contains(script, MARKER) {
        var startIdx := Find(script, MARKER).value;
        var arrayStart := IndexOf(script, '[', startIdx);
        if arrayStart < |script| {
          var jsonStr := ScanCandidate(script, arrayStart);
          var hydrationData := decode(jsonStr);
          if hydrationData.Some? {
            var extracted := ExtractLinksFromHydrationData(hydrationData.value, parseInt);
            if extracted.Some? {
              hydrationLinks := hydrationLinks + extracted.value.links;
              if declaredCount.None? {
                declaredCount := extracted.value.declared;
              }
            }
          }
        }
      }
      i := i + 1;
    }
    assert scripts[..i] == scripts;
    links := SortedList(trackLinks + hydrationLinks);
    declared := declaredCount;
    if declared.None? {
      declared := ExtractDeclaredTrackCount(meta, text, parseInt);
    }
  }

  /** A script whose candidate is empty contributes nothing, as json.loads rejects the empty string. */
  lemma EmptyCandidateContributesNothing(script: string, decode: string -> Option<Json>, parseInt: string -> Option<int>)
    requires decode("").None?
    requires Contains(script, MARKER)
    requires var a := IndexOf(script, '[', Find(script, MARKER).value);
      a < |script| && Candidate(script, a) == []
    ensures ScriptResult(script, decode, parseInt).None?
  {
  }

  /** A script that contributes nothing (no marker, a bad candidate, an extraction that raises) leaves the fold as it was. */
  lemma {:induction false} SilentScriptChangesNothing(scripts: seq<string>, script: string, rest: seq<string>, f: string -> Option<Gathered>)
    requires f(script).None?
    ensures Gather(scripts + [script] + rest, f) == Gather(scripts + rest, f)
    decreases |rest|
  {
    if rest == [] {
      assert (scripts + [script] + rest)[..|scripts|] == scripts;
      assert scripts + rest == scripts;
    } else {
      var a := scripts + [script] + rest;
      var b := scripts + rest;
      var init := rest[..|rest| - 1];
      assert a[..|a| - 1] == scripts + [script] + init;
      assert b[..|b| - 1] == scripts + init;
      SilentScriptChangesNothing(scripts, script, init, f);
    }
  }

  /** Once a script has declared a count, later scripts never replace it. */
  lemma {:induction false} FirstDeclaredKept(scripts: seq<string>, k: nat, f: string -> Option<Gathered>)
    requires k <= |scripts| && Gather(scripts[..k], f).declared.Some?
    ensures Gather(scripts, f).declared == Gather(scripts[..k], f).declared
    decreases |scripts|
  {
    if k < |scripts| {
      assert scripts[..|scripts| - 1][..k] == scripts[..k];
      FirstDeclaredKept(scripts[..|scripts| - 1], k, f);
    } else {
      assert scripts[..k] == scripts;
    }
  }

  /** Links from the scripts only grow: every link of a prefix of the scripts is in the result. */
  lemma {:induction false} ScriptLinksGrow(scripts: seq<string>, k: nat, f: string -> Option<Gathered>)
    requires k <= |scripts|
    ensures Gather(scripts[..k], f).links <= Gather(scripts, f).links
    decreases |scripts|
  {
    if k < |scripts| {
      assert scripts[..|scripts| - 1][..k] == scripts[..k];
      ScriptLinksGrow(scripts[..|scripts| - 1], k, f);
    } else {
      assert scripts[..k] == scripts;
    }
  }

  /** A link is gathered exactly when some script's result holds it. */
  lemma {:induction false} GatherMembers(scripts: seq<string>, f: string -> Option<Gathered>, l: string)
    ensures l in Gather(scripts, f).links <==> exists i :: 0 <= i < |scripts| && f(scripts[i]).Some? && l in f(scripts[i]).value.links
  {
    if scripts != [] {
      var init := scripts[..|scripts| - 1];
      GatherMembers(init, f, l);
      if exists i :: 0 <= i < |init| && f(init[i]).Some? && l in f(init[i]).value.links {
        var i :| 0 <= i < |init| && f(init[i]).Some? && l in f(init[i]).value.links;
        assert scripts[i] == init[i];
      }
      if exists i :: 0 <= i < |scripts| && f(scripts[i]).Some? && l in f(scripts[i]).value.links {
        var i :| 0 <= i < |scripts| && f(scripts[i]).Some? && l in f(scripts[i]).value.links;
        if i < |init| { assert init[i] == scripts[i]; }
      }
    }
  }

  /** The links one script gives have no fragment and do not end in '?'. */
  lemma ScriptResultLinksAreClean(script: string, decode: string -> Option<Json>, parseInt: string -> Option<int>, l: string)
    requires ScriptResult(script, decode, parseInt).Some? && l in ScriptResult(script, decode, parseInt).value.links
    ensures '#' !in l && (l == [] || l[|l| - 1] != '?')
  {
    var arrayStart := IndexOf(script, '[', Find(script, MARKER).value);
    var data := decode(Candidate(script, arrayStart)).value;
    HydrationLinksAreClean(Gathered({}, None), data.items, parseInt, l);
  }

  /** Every link of the loader's result is clean: no fragment, no trailing '?'. */
  lemma LoadedLinksAreClean(hrefs: seq<string>, scripts: seq<string>, urljoin: (string, string) -> string,
    decode: string -> Option<Json>, parseInt: string -> Option<int>, l: string)
    requires l in SomeValues(hrefs, AnchorTrackLinkOf(urljoin)) || l in ScriptsGathered(scripts, decode, parseInt).links
    ensures '#' !in l && (l == [] || l[|l| - 1] != '?')
  {
    if l in SomeValues(hrefs, AnchorTrackLinkOf(urljoin)) {
      TrackLinksAccepted(hrefs, urljoin, l);
    } else {
      GatherMembers(scripts, ScriptResultOf(decode, parseInt), l);
      var i :| 0 <= i < |scripts| && ScriptResult(scripts[i], decode, parseInt).Some? && l in ScriptResult(scripts[i], decode, parseInt).value.links;
      ScriptResultLinksAreClean(scripts[i], decode, parseInt, l);
    }
  }
}
