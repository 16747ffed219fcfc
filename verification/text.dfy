/** Character and string primitives with the meaning Python's str methods give them. */
module Text {

  datatype Option<+T> = None | Some(value: T)

  /** Python's str.isspace(): the characters that strip() and the regex class \s treat as white space. */
  predicate IsSpace(c: char) {
    c == ' ' || ('\t' <= c <= '\r') || ('\U{1C}' <= c <= '\U{1F}') || c == '\U{85}' || c == '\U{A0}'
    || c == '\U{1680}' || ('\U{2000}' <= c <= '\U{200A}') || c == '\U{2028}' || c == '\U{2029}'
    || c == '\U{202F}' || c == '\U{205F}' || c == '\U{3000}'
  }

  predicate IsAsciiAlpha(c: char) { ('a' <= c <= 'z') || ('A' <= c <= 'Z') }

  predicate IsAsciiDigit(c: char) { '0' <= c <= '9' }

  /** The regex class \w, restricted to ASCII. */
  predicate IsWordChar(c: char) { IsAsciiAlpha(c) || IsAsciiDigit(c) || c == '_' }

  function LowerChar(c: char): (r: char)
    ensures 'A' <= c <= 'Z' ==> 'a' <= r <= 'z' && r as int == c as int + 32
    ensures !('A' <= c <= 'Z') ==> r == c
  {
    if 'A' <= c <= 'Z' then (c as int + 32) as char else c
  }

  /** str.lower() on ASCII letters. */
  function Lower(s: string): (r: string)
    ensures |r| == |s|
    ensures forall i :: 0 <= i < |s| ==> r[i] == LowerChar(s[i])
  {
    seq(|s|, i requires 0 <= i < |s| => LowerChar(s[i]))
  }

  lemma LowerAppend(a: string, b: string)
    ensures Lower(a + b) == Lower(a) + Lower(b)
  {
  }

  lemma LowerIdempotent(s: string)
    ensures Lower(Lower(s)) == Lower(s)
  {
  }

  /**
   * c matches the lower-case ASCII pattern character p under re.IGNORECASE: either ASCII case,
   * and the non-ASCII characters Python's regex engine folds to 'i', 's' and 'k'.
   */
  predicate FoldEq(p: char, c: char) {
    LowerChar(c) == p
    || (p == 'i' && (c == '\U{131}' || c == '\U{130}'))
    || (p == 's' && c == '\U{17F}')
    || (p == 'k' && c == '\U{212A}')
  }

  /** s starts, at index k, with a case-insensitive occurrence of the lower-case ASCII word w. */
  predicate FoldMatchAt(s: string, k: nat, w: string) {
    k + |w| <= |s| && forall j :: 0 <= j < |w| ==> FoldEq(w[j], s[k + j])
  }

  /** No character of s belongs to cs. */
  predicate HasNo(s: string, cs: set<char>) {
    forall i :: 0 <= i < |s| ==> s[i] !in cs
  }

  /** Every character class that s avoids, t avoids too (t is made of characters of s). */
  ghost predicate Within(t: string, s: string) {
    forall cs: set<char> {:trigger HasNo(t, cs)} :: HasNo(s, cs) ==> HasNo(t, cs)
  }

  lemma SliceWithin(s: string, i: int, j: int)
    requires 0 <= i <= j <= |s|
    ensures Within(s[i..j], s) && Within(s[i..], s) && Within(s[..j], s)
  {
  }

  lemma HasNoIn(s: string, c: char)
    ensures HasNo(s, {c}) <==> c !in s
  {
    if c in s {
      var i :| 0 <= i < |s| && s[i] == c;
    }
  }

  predicate StartsWith(s: string, p: string) {
    |p| <= |s| && s[..|p|] == p
  }

  predicate OccursAt(s: string, t: string, k: int) {
    0 <= k && k + |t| <= |s| && s[k..k + |t|] == t
  }

  /** str.find(t): the first index at which t occurs in s, or None for -1. */
  function Find(s: string, t: string): (r: Option<nat>)
    ensures r.Some? ==> OccursAt(s, t, r.value) && forall k :: 0 <= k < r.value ==> !OccursAt(s, t, k)
    ensures r.None? ==> forall k :: !OccursAt(s, t, k)
    decreases |s|
  {
    if |s| < |t| then None
    else if s[..|t|] == t then Some(0)
    else
      match Find(s[1..], t)
      case None =>
        assert forall k :: OccursAt(s, t, k) ==> k == 0 || OccursAt(s[1..], t, k - 1);
        None
      case Some(j) =>
        assert forall k :: 1 <= k <= j ==> (OccursAt(s, t, k) <==> OccursAt(s[1..], t, k - 1));
        Some(j + 1)
  }

  /** The `in` operator on strings. */
  predicate Contains(s: string, t: string) {
    Find(s, t).Some?
  }

  /** str.find(c, from): the first index at or after `from` holding c, or |s| when there is none. */
  function IndexOf(s: string, c: char, from: nat): (i: nat)
    requires from <= |s|
    ensures from <= i <= |s|
    ensures i < |s| ==> s[i] == c
    ensures forall k :: from <= k < i ==> s[k] != c
    decreases |s| - from
  {
    if from == |s| then |s| else if s[from] == c then from else IndexOf(s, c, from + 1)
  }

  /** The index of the first c at or after `from` is the position of c with no c before it. */
  lemma IndexOfAt(s: string, c: char, from: nat, i: nat)
    requires from <= i < |s| && s[i] == c
    requires forall k :: from <= k < i ==> s[k] != c
    ensures IndexOf(s, c, from) == i
  {
  }

  /** The first index at or after `from` holding a character of cs, or |s| when there is none. */
  function IndexOfAny(s: string, cs: set<char>, from: nat): (i: nat)
    requires from <= |s|
    ensures from <= i <= |s|
    ensures i < |s| ==> s[i] in cs
    ensures forall k :: from <= k < i ==> s[k] !in cs
    decreases |s| - from
  {
    if from == |s| then |s| else if s[from] in cs then from else IndexOfAny(s, cs, from + 1)
  }

  /** str.rfind(c): the last index holding c, or None for -1. */
  function RFind(s: string, c: char): (r: Option<nat>)
    ensures r.Some? ==> r.value < |s| && s[r.value] == c && forall k :: r.value < k < |s| ==> s[k] != c
    ensures r.None? ==> c !in s
  {
    if s == [] then None
    else if s[|s| - 1] == c then Some(|s| - 1)
    else RFind(s[..|s| - 1], c)
  }

  /**
   * str.split(c) for a one-character separator: never empty, the pieces hold no c, and
   * joined with c they give s back (which, with the pieces free of c, fixes them).
   */
  function SplitOn(s: string, c: char): (parts: seq<string>)
    ensures |parts| >= 1
    ensures forall k :: 0 <= k < |parts| ==> HasNo(parts[k], {c}) && Within(parts[k], s)
    ensures JoinWith(parts, [c]) == s
    decreases |s|
  {
    var i := IndexOf(s, c, 0);
    SliceWithin(s, 0, i);
    if i == |s| then [s]
    else
      SliceWithin(s, i + 1, |s|);
      var rest := SplitOn(s[i + 1..], c);
      assert s == s[..i] + [c] + s[i + 1..];
      [s[..i]] + rest
  }

  /** Splitting at an occurrence of the separator splits the two sides independently. */
  lemma {:induction false} SplitOnAt(a: string, b: string, c: char)
    ensures SplitOn(a + [c] + b, c) == SplitOn(a, c) + SplitOn(b, c)
    decreases |a|
  {
    var s := a + [c] + b;
    var i := IndexOf(a, c, 0);
    IndexOfAt(s, c, 0, i);
    if i < |a| {
      assert s[..i] == a[..i];
      assert s[i + 1..] == a[i + 1..] + [c] + b;
      SplitOnAt(a[i + 1..], b, c);
    } else {
      assert s[..i] == a && s[i + 1..] == b;
    }
  }

  /** sep.join(parts) */
  function JoinWith(parts: seq<string>, sep: string): string {
    if parts == [] then []
    else if |parts| == 1 then parts[0]
    else parts[0] + sep + JoinWith(parts[1..], sep)
  }

  lemma HasNoConcat(a: string, b: string, cs: set<char>)
    ensures HasNo(a + b, cs) <==> HasNo(a, cs) && HasNo(b, cs)
  {
    if HasNo(a, cs) && HasNo(b, cs) {
      forall i | 0 <= i < |a + b| ensures (a + b)[i] !in cs {
        if i >= |a| { assert (a + b)[i] == b[i - |a|]; }
      }
    }
    if HasNo(a + b, cs) {
      forall i | 0 <= i < |a| ensures a[i] !in cs {
        assert (a + b)[i] == a[i];
      }
      forall i | 0 <= i < |b| ensures b[i] !in cs {
        assert (a + b)[|a| + i] == b[i];
      }
    }
  }

  lemma {:induction false} JoinWithHasNo(parts: seq<string>, sep: string, cs: set<char>)
    requires HasNo(sep, cs)
    requires forall k :: 0 <= k < |parts| ==> HasNo(parts[k], cs)
    ensures HasNo(JoinWith(parts, sep), cs)
  {
    if |parts| > 1 {
      JoinWithHasNo(parts[1..], sep, cs);
      HasNoConcat(parts[0], sep, cs);
      HasNoConcat(parts[0] + sep, JoinWith(parts[1..], sep), cs);
    }
  }

  /** The number of whitespace characters at the front of s. */
  function LeadingSpaces(s: string): (n: nat)
    ensures n <= |s| && (n < |s| ==> !IsSpace(s[n]))
    ensures forall k :: 0 <= k < n ==> IsSpace(s[k])
  {
    if s != [] && IsSpace(s[0]) then 1 + LeadingSpaces(s[1..]) else 0
  }

  /** The length of s without its trailing whitespace. */
  function TrailingStart(s: string): (n: nat)
    ensures n <= |s| && (n > 0 ==> !IsSpace(s[n - 1]))
    ensures forall k :: n <= k < |s| ==> IsSpace(s[k])
  {
    if s != [] && IsSpace(s[|s| - 1]) then TrailingStart(s[..|s| - 1]) else |s|
  }

  /** str.strip() */
  function Strip(s: string): (r: string)
    ensures r == [] || (!IsSpace(r[0]) && !IsSpace(r[|r| - 1]))
    ensures Within(r, s)
  {
    var i := LeadingSpaces(s);
    var j := i + TrailingStart(s[i..]);
    StripSlice(s, i, j);
    SliceWithin(s, i, j);
    s[i..j]
  }

  /**
   * strip() removes exactly the whitespace at the two ends: the result is a slice s[i..j]
   * with only whitespace before i and from j on, and its own ends are not whitespace.
   */
  lemma StripTrims(s: string)
    ensures exists i, j ::
              && 0 <= i <= j <= |s| && Strip(s) == s[i..j]
              && (forall k :: 0 <= k < i ==> IsSpace(s[k]))
              && (forall k :: j <= k < |s| ==> IsSpace(s[k]))
    ensures Strip(s) == [] || (!IsSpace(Strip(s)[0]) && !IsSpace(Strip(s)[|Strip(s)| - 1]))
  {
    var i := LeadingSpaces(s);
    var j := i + TrailingStart(s[i..]);
    StripSlice(s, i, j);
  }

  lemma StripSlice(s: string, i: nat, j: nat)
    requires i == LeadingSpaces(s) && j == i + TrailingStart(s[i..])
    ensures i <= j <= |s|
    ensures forall k :: j <= k < |s| ==> IsSpace(s[k])
    ensures s[i..j] == [] || (!IsSpace(s[i]) && !IsSpace(s[j - 1]))
  {
    TrailingOfSuffix(s, i, TrailingStart(s[i..]));
  }

  /** Facts about s[i..] carried over to s: its trailing run is s's trailing run. */
  lemma TrailingOfSuffix(s: string, i: nat, n: nat)
    requires i <= |s| && n <= |s| - i
    requires n > 0 ==> !IsSpace(s[i..][n - 1])
    requires forall k :: n <= k < |s| - i ==> IsSpace(s[i..][k])
    ensures forall k :: i + n <= k < |s| ==> IsSpace(s[k])
    ensures n > 0 ==> !IsSpace(s[i + n - 1])
  {
    forall k | i + n <= k < |s| ensures IsSpace(s[k]) {
      assert s[k] == s[i..][k - i];
    }
    if n > 0 {
      assert s[i + n - 1] == s[i..][n - 1];
    }
  }

  /** The length of s without its trailing run of c. */
  function TrailingRunStart(s: string, c: char): (n: nat)
    ensures n <= |s| && (n > 0 ==> s[n - 1] != c)
    ensures forall k :: n <= k < |s| ==> s[k] == c
  {
    if s != [] && s[|s| - 1] == c then TrailingRunStart(s[..|s| - 1], c) else |s|
  }

  /** str.rstrip(c): removes every trailing c. */
  function RStripChar(s: string, c: char): string {
    s[..TrailingRunStart(s, c)]
  }

  /** The value of a string of ASCII decimal digits. */
  function DigitsValue(s: string): (n: nat)
    requires forall c <- s :: IsAsciiDigit(c)
  {
    if s == [] then 0
    else
      assert IsAsciiDigit(s[|s| - 1]);
      10 * DigitsValue(s[..|s| - 1]) + (s[|s| - 1] as int - '0' as int)
  }

  /** The index just past the run of ASCII digits starting at `from`. */
  function DigitRunEnd(s: string, from: nat): (e: nat)
    requires from <= |s|
    ensures from <= e <= |s|
    ensures forall k :: from <= k < e ==> IsAsciiDigit(s[k])
    ensures e < |s| ==> !IsAsciiDigit(s[e])
    decreases |s| - from
  {
    if from < |s| && IsAsciiDigit(s[from]) then DigitRunEnd(s, from + 1) else from
  }

  /** The index just past the run of white space starting at `from`. */
  function SpaceRunEnd(s: string, from: nat): (e: nat)
    requires from <= |s|
    ensures from <= e <= |s|
    ensures forall k :: from <= k < e ==> IsSpace(s[k])
    ensures e < |s| ==> !IsSpace(s[e])
    decreases |s| - from
  {
    if from < |s| && IsSpace(s[from]) then SpaceRunEnd(s, from + 1) else from
  }
}
