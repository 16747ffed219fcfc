/**
 * extract_declared_track_count: the number of tracks a playlist page declares, taken from the
 * numTracks meta tag, else from the first "Contains tracks N" in the visible text, else from
 * the first free-standing "N track" or "N tracks" with one to four digits.
 */
module TrackCount {
  import opened Text

  /** The content and value attributes of the <meta itemprop="numTracks"> tag. */
  datatype MetaTag = MetaTag(content: Option<string>, value: Option<string>)

  /** An attribute is truthy when it is present and not empty. */
  predicate Present(a: Option<string>) {
    a.Some? && a.value != []
  }

  /** The count the meta tag gives: content or value, converted by int(); None when it gives none. */
  function MetaCount(meta: Option<MetaTag>, parseInt: string -> Option<int>): (r: Option<int>)
    ensures meta.None? ==> r.None?
    ensures meta.Some? && Present(meta.value.content) ==> r == parseInt(meta.value.content.value)
    ensures meta.Some? && !Present(meta.value.content) && Present(meta.value.value) ==> r == parseInt(meta.value.value.value)
    ensures meta.Some? && !Present(meta.value.content) && !Present(meta.value.value) ==> r.None?
  {
    if meta.None? then None
    else
      var attr := if Present(meta.value.content) then meta.value.content else meta.value.value;
      if Present(attr) then parseInt(attr.value) else None
  }

  /** The first position in from..n (inclusive) where `at` holds. */
  function Leftmost(at: nat -> bool, from: nat, n: nat): (r: Option<nat>)
    requires from <= n + 1
    ensures r.Some? ==> from <= r.value <= n && at(r.value) && forall k :: from <= k < r.value ==> !at(k)
    ensures r.None? ==> forall k :: from <= k <= n ==> !at(k)
    decreases n + 1 - from
  {
    if from > n then None
    else if at(from) then Some(from)
    else Leftmost(at, from + 1, n)
  }

  /** Two positions where `at` holds and nothing before them does are the same. */
  lemma LeftmostUnique(at: nat -> bool, n: nat, k: nat)
    requires k <= n && at(k) && forall j :: 0 <= j < k ==> !at(j)
    ensures Leftmost(at, 0, n) == Some(k)
  {
    var r := Leftmost(at, 0, n);
    assert r.Some? by { assert !(forall j :: 0 <= j <= n ==> !at(j)); }
  }

  /** "contains tracks", the literal part of the first pattern, in lower case. */
  const CONTAINS_TRACKS: string := "contains tracks"

  /**
   * Contains tracks\s*(\d+) under re.IGNORECASE matches at k: the words, then white space, then
   * at least one digit (the white space is taken greedily, so the digit follows all of it).
   */
  predicate ContainsTracksAt(t: string, k: nat) {
    && FoldMatchAt(t, k, CONTAINS_TRACKS)
    && var p := SpaceRunEnd(t, k + |CONTAINS_TRACKS|);
    p < |t| && IsAsciiDigit(t[p])
  }

  /** int(match.group(1)) for a match at k: the whole run of digits. */
  function ContainsTracksValue(t: string, k: nat): nat
    requires ContainsTracksAt(t, k)
  {
    var p := SpaceRunEnd(t, k + |CONTAINS_TRACKS|);
    DigitsValue(t[p..DigitRunEnd(t, p)])
  }

  /** The regex \b holds between positions p - 1 and p. */
  predicate Boundary(t: string, p: nat) {
    (0 < p <= |t| && IsWordChar(t[p - 1])) != (p < |t| && IsWordChar(t[p]))
  }

  /** After "track" at e: "s" and a boundary after it, or a boundary right away (s? backtracks). */
  predicate PluralEnd(t: string, e: nat) {
    (e < |t| && FoldEq('s', t[e]) && Boundary(t, e + 1)) || Boundary(t, e)
  }

  /**
   * \b(\d{1,4})\s+tracks?\b under re.IGNORECASE matches at k: a boundary, a run of one to four
   * digits that is not part of a longer run, white space, "track", an optional "s", a boundary.
   */
  predicate InlineAt(t: string, k: nat) {
    && k < |t| && IsAsciiDigit(t[k]) && Boundary(t, k)
    && var d := DigitRunEnd(t, k);
    && d - k <= 4
    && var w := SpaceRunEnd(t, d);
    && w > d
    && FoldMatchAt(t, w, "track")
    && PluralEnd(t, w + 5)
  }

  function InlineValue(t: string, k: nat): nat
    requires InlineAt(t, k)
  {
    DigitsValue(t[k..DigitRunEnd(t, k)])
  }

  /**
   * extract_declared_track_count over the meta tag, the page's visible text (its text nodes
   * joined by spaces) and int() on strings.
   */
  function ExtractDeclaredTrackCount(meta: Option<MetaTag>, text: string, parseInt: string -> Option<int>): (r: Option<int>)
    ensures MetaCount(meta, parseInt).Some? ==> r == MetaCount(meta, parseInt)
    ensures r.Some? && MetaCount(meta, parseInt).None? ==>
      exists k :: 0 <= k <= |text| && (ContainsTracksAt(text, k) || InlineAt(text, k))
  {
    var fromMeta := MetaCount(meta, parseInt);
    if fromMeta.Some? then fromMeta
    else
      match Leftmost((k: nat) => ContainsTracksAt(text, k), 0, |text|)
      case Some(k) => Some(ContainsTracksValue(text, k))
      case None =>
        match Leftmost((k: nat) => InlineAt(text, k), 0, |text|)
        case Some(k) => Some(InlineValue(text, k))
        case None => None
  }

  /** Without a meta count, the first "Contains tracks N" of the text decides. */
  lemma ContainsTracksDecides(meta: Option<MetaTag>, text: string, parseInt: string -> Option<int>, k: nat)
    requires MetaCount(meta, parseInt).None?
    requires k <= |text| && ContainsTracksAt(text, k)
    requires forall j :: 0 <= j < k ==> !ContainsTracksAt(text, j)
    ensures ExtractDeclaredTrackCount(meta, text, parseInt) == Some(ContainsTracksValue(text, k))
  {
    LeftmostUnique((k: nat) => ContainsTracksAt(text, k), |text|, k);
  }

  /** Without a meta count or a "Contains tracks N", the first "N tracks" decides. */
  lemma InlineDecides(meta: Option<MetaTag>, text: string, parseInt: string -> Option<int>, k: nat)
    requires MetaCount(meta, parseInt).None?
    requires forall j :: 0 <= j <= |text| ==> !ContainsTracksAt(text, j)
    requires k <= |text| && InlineAt(text, k)
    requires forall j :: 0 <= j < k ==> !InlineAt(text, j)
    ensures ExtractDeclaredTrackCount(meta, text, parseInt) == Some(InlineValue(text, k))
  {
    LeftmostUnique((k: nat) => InlineAt(text, k), |text|, k);
  }

  /** With neither a meta count nor a match of either pattern, no count is declared. */
  lemma NoCountFound(meta: Option<MetaTag>, text: string, parseInt: string -> Option<int>)
    requires MetaCount(meta, parseInt).None?
    requires forall j :: 0 <= j <= |text| ==> !ContainsTracksAt(text, j) && !InlineAt(text, j)
    ensures ExtractDeclaredTrackCount(meta, text, parseInt).None?
  {
    var c := Leftmost((k: nat) => ContainsTracksAt(text, k), 0, |text|);
    assert c.None?;
    var i := Leftmost((k: nat) => InlineAt(text, k), 0, |text|);
    assert i.None?;
  }

  function Pow10(n: nat): (p: nat)
    ensures p >= 1
  {
    if n == 0 then 1 else 10 * Pow10(n - 1)
  }

  lemma {:induction false} DigitsValueBelow(s: string)
    requires forall c <- s :: IsAsciiDigit(c)
    ensures DigitsValue(s) < Pow10(|s|)
  {
    if s != [] {
      var init := s[..|s| - 1];
      assert forall c <- init :: IsAsciiDigit(c) by {
        forall c <- init ensures IsAsciiDigit(c) { assert c in s; }
      }
      DigitsValueBelow(init);
      assert IsAsciiDigit(s[|s| - 1]);
      assert DigitsValue(s) <= 10 * DigitsValue(init) + 9;
    }
  }

  /** The "N tracks" pattern takes at most four digits, so the count it gives is below 10000. */
  lemma InlineValueBelow(t: string, k: nat)
    requires InlineAt(t, k)
    ensures InlineValue(t, k) < 10000
  {
    var s := t[k..DigitRunEnd(t, k)];
    DigitsValueBelow(s);
    assert Pow10(|s|) <= Pow10(4);
  }

  /** A count that comes from the text and not from "Contains tracks N" is below 10000. */
  lemma TextCountBounded(meta: Option<MetaTag>, text: string, parseInt: string -> Option<int>)
    requires MetaCount(meta, parseInt).None?
    requires forall j :: 0 <= j <= |text| ==> !ContainsTracksAt(text, j)
    ensures ExtractDeclaredTrackCount(meta, text, parseInt).Some? ==> 0 <= ExtractDeclaredTrackCount(meta, text, parseInt).value < 10000
  {
    var c := Leftmost((k: nat) => ContainsTracksAt(text, k), 0, |text|);
    assert c.None?;
    var i := Leftmost((k: nat) => InlineAt(text, k), 0, |text|);
    if i.Some? {
      InlineValueBelow(text, i.value);
    }
  }

  /** A page whose visible text is "7 tracks" declares seven tracks. */
  lemma SevenTracksExample(text: string, parseInt: string -> Option<int>)
    requires text == "7 tracks"
    ensures ExtractDeclaredTrackCount(None, text, parseInt) == Some(7)
  {
    assert DigitRunEnd(text, 0) == 1;
    assert SpaceRunEnd(text, 1) == 2;
    assert FoldMatchAt(text, 2, "track");
    assert InlineAt(text, 0);
    assert text[0..1] == "7";
    assert DigitsValue("7") == 7;
    InlineDecides(None, text, parseInt, 0);
  }

}
