/**
 * The bracket scan that cuts the window.__sc_hydration array out of a script body: from the
 * first '[' after the marker, count '[' and ']' over at most 50000 characters and stop at the
 * ']' that brings the count back to zero.
 */
module DataIsland {

  const WINDOW: nat := 50000

  function Delta(c: char): int {
    if c == '[' then 1 else if c == ']' then -1 else 0
  }

  /** The number of '[' minus the number of ']' in t. */
  function Depth(t: string): int {
    if t == [] then 0 else Depth(t[..|t| - 1]) + Delta(t[|t| - 1])
  }

  lemma DepthSnoc(s: string, start: nat, i: nat)
    requires start <= i < |s|
    ensures Depth(s[start..i + 1]) == Depth(s[start..i]) + Delta(s[i])
  {
    assert s[start..i + 1][..i - start] == s[start..i];
  }

  /** min(array_start + 50000, len(script)) */
  function Limit(s: string, start: nat): (l: nat)
    ensures l <= |s| && l <= start + WINDOW
  {
    if start + WINDOW < |s| then start + WINDOW else |s|
  }

  /**
   * Where the scan stops when it has not stopped before index i: one past the closing ']',
   * or `start` again when no ']' balances the count inside the window.
   */
  function ScanEnd(s: string, start: nat, i: nat): (e: nat)
    requires start <= i <= Limit(s, start)
    ensures e == start || i < e <= Limit(s, start)
    decreases Limit(s, start) - i
  {
    if i == Limit(s, start) then start
    else if s[i] == ']' && Depth(s[start..i + 1]) == 0 then i + 1
    else ScanEnd(s, start, i + 1)
  }

  /** The text json.loads is given: empty when no ']' closed the array inside the window. */
  function Candidate(s: string, start: nat): (c: string)
    requires start <= |s|
    ensures |c| <= WINDOW
  {
    s[start..ScanEnd(s, start, start)]
  }

  /** The scan loop, as the program runs it, with its early exit. */
  method ScanCandidate(s: string, start: nat) returns (candidate: string)
    requires start <= |s|
    ensures candidate == Candidate(s, start)
  {
    var bracketCount := 0;
    var endIdx := start;
    var limit := Limit(s, start);
    var i := start;
    while i < limit
      invariant start <= i <= limit
      invariant bracketCount == Depth(s[start..i])
      invariant endIdx == start
      invariant ScanEnd(s, start, start) == ScanEnd(s, start, i)
    {
      DepthSnoc(s, start, i);
      if s[i] == '[' {
        bracketCount := bracketCount + 1;
      } else if s[i] == ']' {
        bracketCount := bracketCount - 1;
        if bracketCount == 0 {
          endIdx := i + 1;
          break;
        }
      }
      i := i + 1;
    }
    candidate := s[start..endIdx];
  }

  /** From a point where the count is positive, the scan either closes at a balanced ']' or never drops to zero. */
  lemma {:induction false} ScanEndFacts(s: string, start: nat, i: nat)
    requires start < i <= Limit(s, start)
    requires Depth(s[start..i]) >= 1
    ensures var e := ScanEnd(s, start, i);
      && (e == start ==> forall k :: i <= k <= Limit(s, start) ==> Depth(s[start..k]) >= 1)
      && (e != start ==> i < e && Depth(s[start..e]) == 0 && s[e - 1] == ']'
                         && forall k :: i <= k < e ==> Depth(s[start..k]) >= 1)
    decreases Limit(s, start) - i
  {
    if i < Limit(s, start) {
      DepthSnoc(s, start, i);
      if !(s[i] == ']' && Depth(s[start..i + 1]) == 0) {
        ScanEndFacts(s, start, i + 1);
      }
    }
  }

  /**
   * The candidate is the shortest prefix of the text from the '[' whose brackets balance,
   * every shorter non-empty prefix has a positive count, and when there is no candidate the
   * count stays positive over the whole window.
   */
  lemma CandidateIsShortestBalanced(s: string, start: nat)
    requires start < |s| && s[start] == '['
    ensures var c := Candidate(s, start);
      && (c != [] ==> Depth(c) == 0 && c[|c| - 1] == ']' && forall k :: 0 < k < |c| ==> Depth(c[..k]) >= 1)
      && (c == [] ==> forall k :: start < k <= Limit(s, start) ==> Depth(s[start..k]) >= 1)
  {
    var c := Candidate(s, start);
    var e := ScanEnd(s, start, start);
    DepthSnoc(s, start, start);
    assert Depth(s[start..start]) == 0;
    assert Limit(s, start) > start;
    assert s[start] != ']';
    ScanEndFacts(s, start, start + 1);
    assert e == ScanEnd(s, start, start + 1);
    assert c == s[start..e];
    if c != [] {
      forall k | 0 < k < |c| ensures Depth(c[..k]) >= 1 {
        assert c[..k] == s[start..start + k];
      }
    }
  }
}
