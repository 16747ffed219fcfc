# SoundCloud digger — a Dafny model of its extraction, classification and aggregation core

`dj-soundcloud-digger.py` reads a saved SoundCloud playlist page, collects the track URLs on it,
fetches every track page, classifies the shop and download links of each track by store, and
writes a summary keyed by category. Its `open` command reads such a summary back and opens the
chosen links in a browser. This project models the logic between those I/O steps and proves
what that logic promises:

- **Text** (`text.dfy`): the Python string operations the program relies on — `strip`,
  `lower` on ASCII, `find`, `split`, `join`, `rstrip('?')`.
- **Dicts** (`dicts.dfy`): insertion-ordered `defaultdict(list)` values as association lists,
  with `d[k].extend(vs)` (`Extend`) and the per-track merge (`Merge`).
- **JsonValue** (`json.dfy`): decoded JSON values, `dict.get`, Python truthiness, `or` and `int()`.
- **Urls** (`urls.dfy`): `urlparse`/`urlunparse` following CPython 3.13's `urllib.parse`,
  `clean_track_url` and `normalize_link`.
- **TrackLinks** (`tracklinks.dfy`): `TRACK_URL_PATTERN` as a hand-written matcher,
  `is_reserved_path` and `parse_track_links_from_html` over the hrefs of a page.
- **DataIsland** (`scan.dfy`): the bracket-depth scan that cuts the `window.__sc_hydration`
  array out of a script.
- **Hydration** (`hydration.dfy`): `extract_links_from_hydration_data`.
- **TrackCount** (`trackcount.dfy`): `extract_declared_track_count` with its three patterns.
- **Ordering** (`ordering.dfy`): `sorted()` on a set of strings.
- **Playlist** (`playlist.dfy`): `load_tracks_from_html_file` once the page is parsed.
- **Classifier** (`classifier.dfy`): `extract_title` and `analyze_links`.
- **Orchestrator** (`orchestrator.dfy`): `collect_track_data`.
- **Summary** (`summary.dfy`): `summarize_categories`.
- **Opener** (`opener.dfy`): the validation in `load_json_file` and the selection and counting
  of `open_links_in_browser`.

A parsed page is plain data: the `href` values of its anchors, `(href, text)` anchors, the text of
its scripts, its `<title>` text, the `numTracks` meta tag and its visible text. Four things are
parameters of the model:

- `urljoin`;
- `json.loads`, as `decode: string -> Option<Json>`;
- `int()` on a string, as `parseInt: string -> Option<int>`;
- the page fetch, as `fetch: string -> Option<Page>`, where `None` is a request error or a status of 400 or more.

Whether the browser accepts a tab is `opens: string -> bool`. An exception that escapes a step is
`None`. Where the program works through loops, the model has methods with loop invariants. Each
of those methods is proved equal to a function that specifies it, and the properties are lemmas
about those functions.

**What `clean_track_url` does with surviving parameters.** The code stores the new query as
`"?" + "&".join(params)`, and `geturl()` writes its own `?` before a non-empty query. So a URL
with a surviving parameter comes out with `??`: `https://x/a?in=z&q=1` becomes
`https://x/a??q=1` (`Urls.CleanWithSurvivors`, `Urls.CleanKeepsDoubleQuestionMark`). Cleaning
that result again sees the query `?q=1` and adds another `?`, so cleaning is idempotent only
when no parameter survives (`Urls.CleanIdempotentWithoutSurvivors`). The model follows the code.

Two further points follow the code:

- `extract_title` stops at the first suffix the title contains, even when the cut text still holds the other suffix.
- The `if not per_track` fallback of `collect_track_data` ("No links found") can never be taken, because `analyze_links` never returns an empty dict (`Classifier.AnalyzeNeverEmpty`). The model keeps that branch as a proved-dead branch of `Orchestrator.TrackStep`.

## Model

| member | source | states |
|---|---|---|
| Text.Strip | dj-soundcloud-digger.py:481 | `strip()` leaves no white space at either end, and every character of its result comes from its argument |
| Text.StripTrims | dj-soundcloud-digger.py:481 | `strip()` removes exactly the white space at the two ends: the result is a slice of the argument with only white space before and after it, and its own ends are not white space |
| Text.Lower | dj-soundcloud-digger.py:375 | `lower()` keeps the length and lowers each ASCII capital, character by character |
| Text.LowerIdempotent | dj-soundcloud-digger.py:375-381 | lowering a lower-cased segment again changes nothing |
| Text.Find | dj-soundcloud-digger.py:317 | `find` gives the first index at which the marker occurs, and -1 (None) exactly when it occurs nowhere |
| Text.IndexOf | dj-soundcloud-digger.py:320 | `find('[', start)` gives the first `[` at or after start, or none |
| Text.SplitOn | dj-soundcloud-digger.py:365 | `split('&')` gives at least one piece, no piece holds `&`, and the pieces joined with `&` give the string back (which fixes them) |
| Text.SplitOnAt | dj-soundcloud-digger.py:402 | splitting at one occurrence of the separator splits the two sides independently |
| Dicts.Lookup | dj-soundcloud-digger.py:648 | `d.get(k, [])` is empty for a key the dict does not hold |
| Dicts.Extend | dj-soundcloud-digger.py:769 | `d[k].extend(vs)` on a defaultdict adds k at the end only when it is new, and keeps the keys distinct |
| Dicts.ExtendLookup | dj-soundcloud-digger.py:769 | extending under k appends vs to k's list and leaves every other list unchanged |
| Dicts.ExtendExtend | dj-soundcloud-digger.py:540-543 | two appends under the same key equal one append of both lists |
| Dicts.Merge | dj-soundcloud-digger.py:766-769 | merging a per-track dict keeps the keys of the result distinct |
| Dicts.MergeLookup | dj-soundcloud-digger.py:766-769 | merging appends, under every key, the per-track list to the list already there |
| JsonValue.Get | dj-soundcloud-digger.py:453 | `dict.get(k)` is the stored value for a present key and None (null) for a missing one |
| JsonValue.GetOr | dj-soundcloud-digger.py:456 | `dict.get(k, default)` is the stored value whenever the key is present, even a null one, and the default only when it is missing |
| JsonValue.Or | dj-soundcloud-digger.py:471 | `a or b` is a when a is truthy and b otherwise, so it is truthy exactly when a or b is |
| JsonValue.PyInt | dj-soundcloud-digger.py:460 | `int()` keeps an integer, gives 1 or 0 for a boolean, converts a string with the text-to-integer conversion, and rejects null, lists and dicts |
| Urls.RemoveUnsafe | dj-soundcloud-digger.py:362 | `urlparse` deletes every tab, CR and LF and changes nothing in a URL without them; a single character is dropped exactly when it is one of the three |
| Urls.RemoveUnsafeConcat | dj-soundcloud-digger.py:362 | the deletion works piece by piece, so with the one-character case every other character is kept, in order |
| Urls.LeadingC0 | dj-soundcloud-digger.py:362 | `urlparse` strips exactly the leading run of control characters and spaces: all of the first n are such characters, the next is not |
| Urls.SplitScheme | dj-soundcloud-digger.py:362 | the scheme is empty or a lower-case letter followed by scheme characters |
| Urls.SplitSchemeSpec | dj-soundcloud-digger.py:362 | a scheme is split off exactly when a `:` follows a non-empty run of scheme characters starting with a letter; it is that run lower-cased, and the rest is what follows the `:`; otherwise the URL is left whole |
| Urls.SplitNetloc | dj-soundcloud-digger.py:362 | the network location holds no `/`, `?` or `#`, and a non-empty one is followed by nothing or by one of them |
| Urls.SplitNetlocSpec | dj-soundcloud-digger.py:362 | a network location is split off only after a leading `//`, up to the first `/`, `?` or `#`, and `//`, it and the rest give the input back; without `//` it is empty and the input is kept |
| Urls.UrlParse | dj-soundcloud-digger.py:362 | the parsed scheme is lower-cased scheme characters and the network location holds no `/`, `?` or `#` |
| Urls.SplitFirstSpec | dj-soundcloud-digger.py:362 | splitting at a character gives what precedes its first occurrence and what follows it, or the whole string and nothing when it does not occur |
| Urls.UrlParseCuts | dj-soundcloud-digger.py:362 | after the network location, the fragment is what follows the first `#`, the query what lies between the first `?` before it and that `#`, and the rest is split into path and parameters |
| Urls.ParseExample | dj-soundcloud-digger.py:362 | `https://x/a?in=z&q=1` parses into https, x, /a and the query `in=z&q=1` |
| Urls.UrlParseOfSplit | dj-soundcloud-digger.py:362 | once the scheme and network location are split off and the rest holds no `?` or `#`, the query and fragment are empty and the rest is path and parameters |
| Urls.UrlUnparse | dj-soundcloud-digger.py:369 | `geturl()` starts with `scheme:` when there is a scheme and ends with `#fragment` when there is a fragment |
| Urls.SplitParamsFacts | dj-soundcloud-digger.py:362 | the `;` parameters of the last path segment rejoin to the path they came from |
| Urls.ParamsStable | dj-soundcloud-digger.py:362 | splitting the `;` parameters of a path that was rejoined from them gives back the same path and parameters |
| Urls.ParsedHasNoHash | dj-soundcloud-digger.py:362 | no part of a parse other than the fragment holds `#` |
| Urls.UnparseHasNo | dj-soundcloud-digger.py:368-369 | `geturl()` adds only `:`, `/`, `;`, and `?` or `#` before a non-empty query or fragment |
| Urls.ParseIsCanonical | dj-soundcloud-digger.py:362-368 | a parse with a host, with its query and fragment cleared, has the canonical shape |
| Urls.UnparseCanonical | dj-soundcloud-digger.py:368-369 | a canonical parse reassembles to `scheme:` + `//` + host + path, with no `?`, `#` or unsafe character |
| Urls.ReparseCanonical | dj-soundcloud-digger.py:362-369 | parsing the reassembled canonical parse gives that same parse back |
| Urls.DropTrackingParams | dj-soundcloud-digger.py:365 | a parameter is kept exactly when it is one of the parameters and does not start with `in=`; a single parameter is kept or dropped on its own |
| Urls.DropTrackingParamsConcat | dj-soundcloud-digger.py:365 | the filter works piece by piece, so the kept parameters keep their order and repetitions |
| Urls.SurvivingParams | dj-soundcloud-digger.py:364-366 | the kept parameters are the `&`-pieces of the query, filtered in order, dropping those starting with `in=`; an empty query keeps none |
| Urls.CleanedQuery | dj-soundcloud-digger.py:363-367 | the new query text holds no `#` when the old query held none |
| Urls.QueryExample | dj-soundcloud-digger.py:363-367 | the query `in=z&q=1` becomes `?q=1` |
| Urls.CleanTrackUrl | dj-soundcloud-digger.py:361-369 | a cleaned URL holds no `#` and does not end in `?` |
| Urls.CleanParts | dj-soundcloud-digger.py:363-369 | from parsed parts without `#`, the new query, the dropped fragment and `rstrip("?")` give a URL with no `#` that does not end in `?` |
| Urls.CleanIdempotentWithoutSurvivors | dj-soundcloud-digger.py:361-369 | with a host and no surviving parameter, the result is exactly scheme://netloc + path, and cleaning it again changes nothing |
| Urls.CleanWithSurvivors | dj-soundcloud-digger.py:364-369 | with a surviving parameter, the result is the query-less URL, then `??`, then the surviving parameters joined by `&`, with trailing `?` stripped |
| Urls.CleanKeepsDoubleQuestionMark | dj-soundcloud-digger.py:364-369 | `https://x/a?in=z&q=1` is cleaned to `https://x/a??q=1` |
| Urls.UnparseWithQuery | dj-soundcloud-digger.py:368-369 | `geturl()` writes a non-empty query after a `?` of its own |
| Urls.NormalizeLink | dj-soundcloud-digger.py:491-500 | `//x` becomes the page's scheme, `:` and `//x`; `/x` becomes the page's scheme, `://`, its host and `/x`; an absolute http(s) link is kept; anything else goes to `urljoin` with the page URL |
| Urls.NormalizeRootRelativeIdempotent | dj-soundcloud-digger.py:495-499 | on an http(s) track page, normalising a completed root-relative link again leaves it unchanged |
| TrackLinks.IsReservedPath | dj-soundcloud-digger.py:372-384 | segments after the second never change the answer |
| TrackLinks.ReservedPathCases | dj-soundcloud-digger.py:372-384 | a path is reserved exactly when it is empty, its lower-cased first segment is reserved or starts with `pages`, or its lower-cased second segment is reserved |
| TrackLinks.ReservedFirstSegmentExample | dj-soundcloud-digger.py:376-377 | `["about"]` is reserved |
| TrackLinks.ReservedSecondSegmentExample | dj-soundcloud-digger.py:378-381 | `["alice", "popular-tracks", "x"]` is reserved |
| TrackLinks.ReservedPagesPrefixExample | dj-soundcloud-digger.py:382-383 | `["Pages-Help", "x"]` is reserved by its `pages` prefix, in any case |
| TrackLinks.TrackPathExample | dj-soundcloud-digger.py:372-384 | `["alice", "my-track"]` is not reserved |
| TrackLinks.MatchTrackUrl | dj-soundcloud-digger.py:59-61 | a match found satisfies the pattern with the two groups it returns |
| TrackLinks.MatchTrackUrlComplete | dj-soundcloud-digger.py:59-61 | whenever the pattern matches with some groups, the matcher finds exactly those groups |
| TrackLinks.PathSegments | dj-soundcloud-digger.py:402 | the kept segments are non-empty and hold no `/`; a path without `/` is its own only segment, or has none when empty |
| TrackLinks.PathSegmentsAtSlash | dj-soundcloud-digger.py:402 | the segments on the two sides of a `/` are the segments of the whole path, in order, so with the case above the segments are the maximal non-empty runs between slashes |
| TrackLinks.AnchorTrackLink | dj-soundcloud-digger.py:390-407 | every link an anchor contributes has the accepted shape |
| TrackLinks.AnchorTrackLinkIff | dj-soundcloud-digger.py:390-407 | an anchor contributes a link exactly when its resolved href matches with an unreserved slug, the link is that href cleaned, and the cleaned path has two or more segments and is not reserved |
| TrackLinks.ParseTrackLinks | dj-soundcloud-digger.py:387-408 | the loop collects exactly the links the anchors contribute |
| TrackLinks.TrackLinksMembers | dj-soundcloud-digger.py:387-408 | a link is collected exactly when some anchor contributes it |
| TrackLinks.TrackLinksAccepted | dj-soundcloud-digger.py:387-408 | every collected link has the accepted shape |
| Ordering.BelowIrreflexive | dj-soundcloud-digger.py:348 | no string sorts before itself |
| Ordering.BelowAsymmetric | dj-soundcloud-digger.py:348 | two strings never sort before each other |
| Ordering.BelowTransitive | dj-soundcloud-digger.py:348 | Python's string order is transitive |
| Ordering.BelowTotal | dj-soundcloud-digger.py:348 | of two different strings, one sorts first |
| Ordering.Insert | dj-soundcloud-digger.py:348 | inserting a new string into a strictly sorted list keeps it strictly sorted and adds exactly that string |
| Ordering.SortedList | dj-soundcloud-digger.py:348 | `sorted()` of a set is strictly increasing and holds exactly the set's elements |
| Ordering.StrictlySortedUnique | dj-soundcloud-digger.py:348 | two strictly sorted lists with the same elements are equal, so the sorted list is determined by the set |
| DataIsland.Limit | dj-soundcloud-digger.py:327 | the scan never reaches the end of the script or array_start + 50000 |
| DataIsland.ScanEnd | dj-soundcloud-digger.py:325-334 | the end index is either unset or past the current position and within the window |
| DataIsland.Candidate | dj-soundcloud-digger.py:336 | the candidate text is at most 50000 characters long |
| DataIsland.ScanCandidate | dj-soundcloud-digger.py:324-336 | the scan loop with its early exit gives the candidate |
| DataIsland.ScanEndFacts | dj-soundcloud-digger.py:325-334 | from a positive depth, the scan ends at the first `]` that balances the brackets, or the depth stays positive through the window |
| DataIsland.CandidateIsShortestBalanced | dj-soundcloud-digger.py:324-336 | the candidate is the shortest balanced prefix from the `[`, every shorter prefix has a positive depth, and it is empty only when nothing balances within the window |
| Hydration.CountStep | dj-soundcloud-digger.py:457-462 | a non-zero count is kept, a null track_count or a failing `int()` changes nothing, any new count is `int(track_count)`, and a missing or zero count is replaced by `int(track_count)` whenever that succeeds |
| Hydration.TrackItems | dj-soundcloud-digger.py:464-468 | a list of tracks is iterated as it is, and null, a boolean or an integer makes the loop raise |
| Hydration.TrackLink | dj-soundcloud-digger.py:468-474 | a track is skipped exactly when it is not a dict or has no truthy permalink; otherwise a string permalink (permalink_url, else permalink) adds `clean_track_url` of it and any other value raises |
| Hydration.EntryStep | dj-soundcloud-digger.py:450-474 | an ignored entry changes nothing; a playlist entry raises exactly when reading its tracks or a permalink raises, and otherwise adds exactly the links of its tracks; a non-zero count is kept |
| Hydration.EntryStepMembers | dj-soundcloud-digger.py:464-474 | a link is added by an entry exactly when one of its tracks yields it |
| Hydration.EntriesMembers | dj-soundcloud-digger.py:450-474 | after several entries, a link is gathered exactly when it was there before or a track of some playlist entry yields it |
| Hydration.HydrationLinksMembers | dj-soundcloud-digger.py:443-476 | the links of the whole array are exactly the cleaned permalinks that the tracks of its playlist entries yield |
| Hydration.ExtractHydration | dj-soundcloud-digger.py:443-450 | data that is not a list, or an empty list, gives no links and no count |
| Hydration.ExtractLinksFromHydrationData | dj-soundcloud-digger.py:443-476 | the loops give the left fold of the entries, or None when one raises |
| Hydration.VisitEntry | dj-soundcloud-digger.py:451-474 | one pass of the entry loop is one entry step |
| Hydration.CollectTrackLinks | dj-soundcloud-digger.py:468-474 | the inner loop collects the links of the tracks, or raises on a bad permalink |
| Hydration.EntriesRaiseFrom | dj-soundcloud-digger.py:450-474 | once an entry raises, the whole array raises |
| Hydration.CollectLinksRaises | dj-soundcloud-digger.py:468-474 | a track on which cleaning raises makes the whole list raise |
| Hydration.NonListGivesNothing | dj-soundcloud-digger.py:447-448 | a dataset that is not a list gives no links and no count |
| Hydration.PlaylistEntries | dj-soundcloud-digger.py:451-454 | the kept entries are playlist dicts |
| Hydration.IgnoredEntriesChangeNothing | dj-soundcloud-digger.py:451-454 | dropping the entries that are not playlist dicts leaves the result unchanged |
| Hydration.NonZeroCountKept | dj-soundcloud-digger.py:460 | once the count is a non-zero number, no later entry changes it |
| Hydration.CountStaysPresent | dj-soundcloud-digger.py:458-466 | once there is a count there stays one |
| Hydration.LengthFallback | dj-soundcloud-digger.py:464-466 | a playlist entry whose track list comes with no usable count declares the length of that list |
| Hydration.ParsedCountBeatsLength | dj-soundcloud-digger.py:457-466 | when the earlier count or `int(track_count)` gives a count, the entry declares it and `len(tracks)` is not used |
| Hydration.NoCountWithoutList | dj-soundcloud-digger.py:457-466 | with no count from either and a `tracks` that is not a list, the entry leaves the count absent |
| Hydration.CollectLinksMembers | dj-soundcloud-digger.py:468-474 | a link is collected exactly when some track yields it |
| Hydration.HydrationLinksAreClean | dj-soundcloud-digger.py:474 | every hydration link has no `#` and does not end in `?` |
| TrackCount.MetaCount | dj-soundcloud-digger.py:414-421 | no meta tag gives no count; a non-empty content is converted by `int()`; without it a non-empty value is; with neither there is no count |
| TrackCount.ExtractDeclaredTrackCount | dj-soundcloud-digger.py:411-438 | a meta count wins; otherwise any count is the value of a "Contains tracks N" or "N tracks" match |
| TrackCount.ContainsTracksDecides | dj-soundcloud-digger.py:423-429 | without a meta count, the first "Contains tracks N" decides |
| TrackCount.InlineDecides | dj-soundcloud-digger.py:431-436 | without a meta count or "Contains tracks N", the first "N track(s)" decides |
| TrackCount.NoCountFound | dj-soundcloud-digger.py:438 | with no meta count and no match of either pattern, no count is declared |
| TrackCount.InlineValueBelow | dj-soundcloud-digger.py:431 | the 1-4 digit pattern gives a count below 10000 |
| TrackCount.TextCountBounded | dj-soundcloud-digger.py:431-436 | a count from the "N tracks" pattern is between 0 and 9999 |
| TrackCount.SevenTracksExample | dj-soundcloud-digger.py:431-436 | the text "7 tracks" declares seven tracks |
| Playlist.ScriptResult | dj-soundcloud-digger.py:315-343 | a script without the marker contributes nothing |
| Playlist.LoadTracksFromHtml | dj-soundcloud-digger.py:297-352 | the result is strictly sorted, holds exactly the anchor links and the hydration links, and its count is the first hydration count, else the count in the page text |
| Playlist.EmptyCandidateContributesNothing | dj-soundcloud-digger.py:336-343 | an empty candidate, which `json.loads` rejects, contributes nothing |
| Playlist.SilentScriptChangesNothing | dj-soundcloud-digger.py:305-345 | a script that contributes nothing leaves the result of the other scripts as it was |
| Playlist.FirstDeclaredKept | dj-soundcloud-digger.py:340-341 | once a script has declared a count, later scripts never replace it |
| Playlist.ScriptLinksGrow | dj-soundcloud-digger.py:339 | links gathered from earlier scripts stay in the result |
| Playlist.GatherMembers | dj-soundcloud-digger.py:339 | a link is gathered exactly when some script's result holds it |
| Playlist.ScriptResultLinksAreClean | dj-soundcloud-digger.py:337-339 | the links of one script have no `#` and do not end in `?` |
| Playlist.LoadedLinksAreClean | dj-soundcloud-digger.py:348 | every loaded link has no `#` and does not end in `?` |
| Classifier.ExtractTitle | dj-soundcloud-digger.py:479-488 | a missing or empty title gives "Unknown title"; otherwise the stripped title is cut before the first occurrence of " \| SoundCloud", else of the longer suffix, and stripped again, and kept whole when it holds neither |
| Classifier.ExtractTitleIsPiece | dj-soundcloud-digger.py:479-488 | a title with text gives a contiguous piece of that text |
| Classifier.ExtractTitleKeepsPlainTitle | dj-soundcloud-digger.py:481-487 | a title with neither suffix comes back stripped and otherwise unchanged |
| Classifier.ExtractTitleDropsSoundCloud | dj-soundcloud-digger.py:483-486 | " \| SoundCloud" never survives |
| Classifier.ExtractTitleDropsListenOnline | dj-soundcloud-digger.py:483-486 | without " \| SoundCloud", the longer suffix is cut and neither suffix remains |
| Classifier.CutSuffixDrops | dj-soundcloud-digger.py:483-486 | when the k-th suffix is the first one present, the result holds none of the suffixes up to k; with none present the title is kept |
| Classifier.CutSuffixIsSlice | dj-soundcloud-digger.py:485 | cutting at a suffix gives a contiguous piece of the title |
| Classifier.StoreIndex | dj-soundcloud-digger.py:520-524 | the chosen store is the first in table order whose domain occurs in the netloc |
| Classifier.StoreTag | dj-soundcloud-digger.py:518-524 | a store tag is found exactly when some store's domain occurs in the netloc; it is such a store, and no store before it in STORE_DOMAINS order matches |
| Classifier.Classify | dj-soundcloud-digger.py:508-534 | an anchor is skipped exactly when its stripped href is empty or its text holds no keyword; a store link carries its matched tag; an unlisted link matches no store; both carry the normalised link and the text |
| Classifier.ClassifyAnchor | dj-soundcloud-digger.py:509-534 | one pass of the anchor loop classifies the anchor |
| Classifier.FlushUnlisted | dj-soundcloud-digger.py:538-543 | the flush files the buffered links under "others", in order |
| Classifier.ScanAnchors | dj-soundcloud-digger.py:508-534 | the loop files the store records, sets the flag exactly when one was filed, and buffers the unlisted links |
| Classifier.AnalyzeLinks | dj-soundcloud-digger.py:503-550 | the result is the store records, else the unlisted links under "others", else the single fallback record |
| Classifier.AnalyzeResult | dj-soundcloud-digger.py:536-550 | the result is never empty, and without a store record its only key is "others" |
| Classifier.KindsAt | dj-soundcloud-digger.py:508-534 | each anchor is classified on its own: the i-th kind is the i-th anchor's |
| Classifier.StoreRecordsDistinct | dj-soundcloud-digger.py:528-530 | each store tag appears once |
| Classifier.StoreRecordsNonEmpty | dj-soundcloud-digger.py:520-530 | there are store records exactly when some keyword link points to a known store |
| Classifier.StoreRecordsLookup | dj-soundcloud-digger.py:526-530 | a record is filed under tag t exactly when it comes from a keyword link pointing to store t |
| Classifier.KeyHasRecord | dj-soundcloud-digger.py:528-530 | every store key comes from a store link with that tag |
| Classifier.UnlistedLinksMembers | dj-soundcloud-digger.py:531-534 | the buffer holds exactly the keyword links that point to no known store |
| Classifier.KindsTagsAreStores | dj-soundcloud-digger.py:520-524 | every tag a link is filed under is a STORE_DOMAINS key |
| Classifier.AnalyzeNeverEmpty | dj-soundcloud-digger.py:536-550 | the result is never empty and none of its lists is empty |
| Classifier.StoreMatchExcludesOthers | dj-soundcloud-digger.py:537 | once a store matched, the result is exactly the store records, with no "others" |
| Classifier.UnlistedBecomeOthers | dj-soundcloud-digger.py:537-543 | without a known store, the unlisted keyword links become "others" records in anchor order |
| Classifier.NoKeywordLinkFallback | dj-soundcloud-digger.py:544-548 | without any keyword link, the result is the one "No store link found" record pointing at the track |
| Classifier.TwoStoresKept | dj-soundcloud-digger.py:520-530 | a page with bandcamp and beatport links is filed under both |
| Classifier.AnalyzeRecordsOfTrack | dj-soundcloud-digger.py:503-550 | each category appears once, and every record belongs to the track and sits under its own category |
| Orchestrator.FailureRecord | dj-soundcloud-digger.py:748-751 | a failed fetch gives an "others" record titled "Unknown title" that links to the track itself with the text "Could not fetch track page" |
| Orchestrator.StampLookup | dj-soundcloud-digger.py:766-768 | stamping the title keeps the keys and retitles every list |
| Orchestrator.StampTitle | dj-soundcloud-digger.py:767-768 | the title loop sets the title of every record and changes nothing else |
| Orchestrator.MergeTrack | dj-soundcloud-digger.py:766-769 | the merge loop adds the stamped per-track dict to the result |
| Orchestrator.TrackStep | dj-soundcloud-digger.py:747-769 | one pass adds the failure record or the stamped analysis, and the empty-result fallback is dead |
| Orchestrator.Collected | dj-soundcloud-digger.py:734-784 | the categories of the result are distinct, as the keys of a dict are |
| Orchestrator.CollectTrackData | dj-soundcloud-digger.py:734-784 | the loop folds every track's records into the result in track order |
| Orchestrator.TrackRecordFacts | dj-soundcloud-digger.py:747-769 | each track's dict has distinct keys, and its records belong to it, sit under their category and carry its title |
| Orchestrator.TrackAddsRecords | dj-soundcloud-digger.py:747-769 | every track's dict has a first category with a non-empty list |
| Orchestrator.CollectLookup | dj-soundcloud-digger.py:766-769 | each category of the result is the tracks' lists for it, concatenated in track order |
| Orchestrator.PerTrackPrefix | dj-soundcloud-digger.py:746-769 | processing more tracks only appends: an earlier track's records precede a later track's |
| Orchestrator.PerTrackHas | dj-soundcloud-digger.py:746-769 | a record of one track's list is in the concatenation |
| Orchestrator.PerTrackFrom | dj-soundcloud-digger.py:746-769 | every record of the concatenation comes from one track's list |
| Orchestrator.CollectedLookup | dj-soundcloud-digger.py:740-784 | each category of collect_track_data's result is the tracks' records for it in track order |
| Orchestrator.FailedFetchRecorded | dj-soundcloud-digger.py:748-751 | a track whose fetch failed has its failure record under "others" |
| Orchestrator.EveryTrackContributes | dj-soundcloud-digger.py:746-769 | every input track contributes at least one record |
| Orchestrator.RecordsCarryTheirTitle | dj-soundcloud-digger.py:757-768 | every record comes from an input track, sits under its category and carries that track's title |
| Summary.ItemOf | dj-soundcloud-digger.py:598-604 | an entry carries the record's title and track URL, with link_url as shop_link |
| Summary.Target | dj-soundcloud-digger.py:588-590 | the output list is one of CATEGORY_NAMES, and it is the category itself exactly for a store name |
| Summary.Initial | dj-soundcloud-digger.py:576 | the summary starts with the CATEGORY_NAMES keys in order |
| Summary.AddTrackUrls | dj-soundcloud-digger.py:582-583 | the first pass adds the track URLs of the records to the exclusion set |
| Summary.FileRecords | dj-soundcloud-digger.py:588-604 | the second pass appends a category's kept entries to its output list |
| Summary.Summarize | dj-soundcloud-digger.py:575-605 | the summary's keys are exactly CATEGORY_NAMES, in that order |
| Summary.SummarizeCategories | dj-soundcloud-digger.py:575-605 | the two loops give the summary |
| Summary.SummaryKeys | dj-soundcloud-digger.py:576-592 | the summary's keys are exactly CATEGORY_NAMES, in order |
| Summary.FillLookup | dj-soundcloud-digger.py:586-604 | each output list is what its categories file into it, in input order |
| Summary.KeptAll | dj-soundcloud-digger.py:593-604 | outside "others" every record is kept |
| Summary.StoreListKept | dj-soundcloud-digger.py:586-604 | every store list holds exactly the entries of its input records, in order |
| Summary.StoreFiled | dj-soundcloud-digger.py:586-604 | a store name's filed entries are the entries of its own input records |
| Summary.TrackUrlsHas | dj-soundcloud-digger.py:582-583 | every record's track URL is added |
| Summary.ExcludedHas | dj-soundcloud-digger.py:579-583 | a record outside the catch-all categories, unknown tags included, excludes its track |
| Summary.KeptFrom | dj-soundcloud-digger.py:593-604 | a kept entry comes from a record that the "others" filter let through |
| Summary.KeptHas | dj-soundcloud-digger.py:593-604 | a record that the filter lets through is kept |
| Summary.FiledFrom | dj-soundcloud-digger.py:586-604 | a filed entry comes from a record of a category that targets that list |
| Summary.FiledHas | dj-soundcloud-digger.py:586-604 | a record that the filter lets through is filed under its category's target |
| Summary.OthersFromCatchAll | dj-soundcloud-digger.py:579-604 | every "others" entry comes from an "others" or "other" record whose track no other category mentions, so records under unknown tags never appear |
| Summary.CatchAllKept | dj-soundcloud-digger.py:586-604 | a catch-all record whose track no other category mentions is kept under "others" |
| Summary.OthersExcludesStoreTracks | dj-soundcloud-digger.py:579-604 | no track URL appears both in "others" and in a store list |
| Opener.LoadSummary | dj-soundcloud-digger.py:256-268 | the data is rejected unless it is a dict of lists of dicts each with "track_url"; an accepted summary keeps every key and item |
| Opener.CheckItems | dj-soundcloud-digger.py:261-268 | the item loop accepts exactly a list of dicts that all have "track_url" |
| Opener.ValidateSummary | dj-soundcloud-digger.py:256-268 | the validation loops give the loaded summary or the error |
| Opener.ExportedSummaryLoads | dj-soundcloud-digger.py:256-268 | a summary written by the dig command passes the validation with the same categories |
| Opener.Categories | dj-soundcloud-digger.py:643 | "all" opens CATEGORY_NAMES, any other name only itself |
| Opener.FlattenCategories | dj-soundcloud-digger.py:646-651 | the flattening loop gives the tagged items category by category |
| Opener.FlattenMembers | dj-soundcloud-digger.py:646-651 | a flattened record is an item of one of the chosen categories, tagged with it |
| Opener.DropFirst | dj-soundcloud-digger.py:657-658 | skipping drops exactly skip records, or all of them |
| Opener.TakeFirst | dj-soundcloud-digger.py:659-660 | the limit keeps a prefix: limit records for a non-negative limit, all but the last -limit for a negative one |
| Opener.SelectionIsWindow | dj-soundcloud-digger.py:657-660 | the selection is a window of the flattened records starting skip records in, at most limit long |
| Opener.FieldText | dj-soundcloud-digger.py:673-674 | a missing field reads as "", and a string field as its stripped text |
| Opener.Choose | dj-soundcloud-digger.py:673-688 | a shop link or track URL chosen to open is never empty |
| Opener.ChooseSpec | dj-soundcloud-digger.py:673-688 | an item raises exactly when a field does; a non-empty shop link that differs from the track URL wins; a non-empty track URL is the fallback; otherwise nothing opens |
| Opener.Plan | dj-soundcloud-digger.py:668-695 | at most one link is tried per record |
| Opener.OpenRecords | dj-soundcloud-digger.py:668-695 | the opening loop and its three counters follow the plan |
| Opener.Tally | dj-soundcloud-digger.py:672-695 | one item's pass updates the links tried and the three counters as one plan step does |
| Opener.OpenLinksInBrowser | dj-soundcloud-digger.py:628-695 | with opening disabled nothing is tried; otherwise the selected records are opened by the plan |
| Opener.PlanRaisesFrom | dj-soundcloud-digger.py:672-674 | an item whose fields raise ends the command |
| Opener.PlanCounts | dj-soundcloud-digger.py:668-692 | shop links and track fallbacks add up to the links tried, and no more open than were tried |
| Opener.PlanCounters | dj-soundcloud-digger.py:668-695 | shop_links_opened counts the records whose shop link is chosen, track_links_opened those that fall back to the track URL, and total_opened the tried links the browser takes |
| Opener.PlanLinksChosen | dj-soundcloud-digger.py:676-691 | every link tried is the shop link or track fallback chosen for one of the records |
| Opener.AttemptedLinksNonEmpty | dj-soundcloud-digger.py:676-691 | every link tried is non-empty |
| Opener.PlanAttemptsAllUsable | dj-soundcloud-digger.py:672-691 | when every record yields a link, the links tried are exactly the chosen ones, record by record |
| Opener.StringItemsNeverRaise | dj-soundcloud-digger.py:673-674 | items whose values are all strings never raise |
| Opener.ExportedItemsAreStrings | dj-soundcloud-digger.py:598-604 | the entries of an exported summary are dicts of strings |

## Left out

- HTML parsing is not modelled. A page is given as its anchors' hrefs, `(href, text)` anchors, script texts, title text, `numTracks` meta tag and visible text. A script whose `.string` is None counts as the empty string, which holds no marker and is skipped in the same way.
- `json.loads`, `json.load` and `int()` on a string are parameters (`decode`, `parseInt`). JSON floats are not modelled, so `int()` of a float is not either.
- `urljoin` is a parameter; only the parts of `normalize_link` and `parse_track_links_from_html` that bypass it are stated exactly.
- `urlparse` does not model the IPv6 bracket check or the NFKC check on the network location, both of which can raise `ValueError`. Characters are compared and lower-cased as ASCII, and `\d` and `\w` match ASCII digits and word characters only. `strip()` and `\s` use every character `str.isspace()` accepts.
- Text.Strip: its own contract gives only the shape of the result. The exact trimming is stated by the lemma `Text.StripTrims`, so that it is not in scope at every use of `strip()`.
- Urls.RemoveUnsafe: its own contract cannot relate two calls. That the other characters are kept in order is `Urls.RemoveUnsafeConcat`.
- Urls.SplitScheme: its own contract gives the shape of the scheme. When and where the scheme is split is the lemma `Urls.SplitSchemeSpec`, kept apart so that it is not in scope at every `urlparse`.
- Urls.UrlParse: its own contract gives the shape of the scheme and the network location. Where the query and the fragment are cut is the lemma `Urls.UrlParseCuts`, kept apart for the same reason.
- Urls.SplitNetloc: its own contract gives the shape of the network location. The `//` split is the lemma `Urls.SplitNetlocSpec`, kept apart for the same reason.
- TrackLinks.PathSegments: its own contract cannot relate two calls. That the segments are the non-empty pieces in order is `TrackLinks.PathSegmentsAtSlash` together with the slash-free case.
- Urls.CleanIdempotentWithoutSurvivors: idempotence is proved only for URLs with a host and no surviving parameter. With a surviving parameter the code is not idempotent.
- Hydration.ExtractHydration: its own contract covers only data that is not a list, or an empty one. The links of a list are the lemma `Hydration.HydrationLinksMembers`, The count each playlist entry leaves is fixed by `Hydration.ParsedCountBeatsLength`, `Hydration.LengthFallback` and `Hydration.NoCountWithoutList`, and the count of the array is these steps applied entry by entry.
- Hydration.TrackItems: a `tracks` value that is a string or a dict is iterated in the code, but none of its elements is a dict, so the model treats it as a list with no items. The result is the same.
- Opener.LoadSummary: a decoded JSON object is a map, so the order in which categories are checked is not modelled. The result does not depend on it, because every failure raises the same error.
- Orchestrator.StampTitle: `record.title = title` updates objects in place. The model updates them as values, so aliasing between records is not modelled. Every record of a per-track dict is fresh, so nothing else sees the change.
- `summary.setdefault(output_category, [])` never adds a key, because every target is already a key. The model leaves it out.
- HTTP requests, the retry session, `time.sleep`, `tqdm`, logging (including the store-categories line of `collect_track_data`), `webbrowser` controller resolution, argparse, the category prompt and file reading are I/O. A fetch is a parameter, and a browser tab is the parameter `opens`.
- `export_results` and `log_summary` (JSON/YAML writing and counts to the log) are output only. The JSON form of a summary appears only so that `Opener.ExportedSummaryLoads` can state that an export passes the validation.
- `handle_dig`, `handle_open` and `main` only wire the steps together. The `--max-tracks` cut and the declared-count warning are not modelled. `skip` is taken as already raised to 0 or more, as `handle_open` does.
