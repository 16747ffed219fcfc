/** Python's ordering of strings (code point by code point) and sorted() on a set of strings. */
module Ordering {

  /** a < b for Python strings: the first differing character decides, a proper prefix comes first. */
  predicate Below(a: string, b: string) {
    if a == [] then b != []
    else b != [] && (a[0] < b[0] || (a[0] == b[0] && Below(a[1..], b[1..])))
  }

  lemma {:induction false} BelowIrreflexive(a: string)
    ensures !Below(a, a)
  {
    if a != [] {
      BelowIrreflexive(a[1..]);
    }
  }

  lemma {:induction false} BelowTotal(a: string, b: string)
    ensures a == b || Below(a, b) || Below(b, a)
  {
    if a != [] && b != [] && a[0] == b[0] {
      BelowTotal(a[1..], b[1..]);
      if a[1..] == b[1..] {
        assert a == [a[0]] + a[1..] && b == [b[0]] + b[1..];
      }
    }
  }

  lemma {:induction false} BelowAsymmetric(a: string, b: string)
    ensures !(Below(a, b) && Below(b, a))
  {
    if a != [] && b != [] && a[0] == b[0] {
      BelowAsymmetric(a[1..], b[1..]);
    }
  }

  lemma {:induction false} BelowTransitive(a: string, b: string, c: string)
    requires Below(a, b) && Below(b, c)
    ensures Below(a, c)
  {
    if a != [] && a[0] == b[0] && b[0] == c[0] {
      BelowTransitive(a[1..], b[1..], c[1..]);
    }
  }

  predicate StrictlySorted(s: seq<string>) {
    forall i, j :: 0 <= i < j < |s| ==> Below(s[i], s[j])
  }

  /** Inserts x into a strictly sorted sequence that does not hold it. */
  function Insert(s: seq<string>, x: string): (r: seq<string>)
    requires StrictlySorted(s) && x !in s
    ensures StrictlySorted(r)
    ensures forall y :: y in r <==> y in s || y == x
    ensures |r| == |s| + 1
  {
    if s == [] then [x]
    else if Below(x, s[0]) then
      forall j | 0 <= j < |s| ensures Below(x, s[j]) {
        if j > 0 { BelowTransitive(x, s[0], s[j]); }
      }
      [x] + s
    else
      BelowTotal(x, s[0]);
      var rest := Insert(s[1..], x);
      forall k | 0 <= k < |rest| ensures Below(s[0], rest[k]) {
        if rest[k] != x {
          assert rest[k] in rest;
          assert rest[k] in s[1..];
          var j :| 0 <= j < |s| - 1 && s[1..][j] == rest[k];
          assert s[j + 1] == rest[k];
        }
      }
      [s[0]] + rest
  }

  /** sorted(xs) for a set of strings: the elements in increasing order, each once. */
  method SortedList(xs: set<string>) returns (r: seq<string>)
    ensures StrictlySorted(r)
    ensures forall y :: y in r <==> y in xs
    ensures |r| == |xs|
  {
    r := [];
    var rest := xs;
    while rest != {}
      invariant StrictlySorted(r)
      invariant forall y :: y in r <==> y in xs && y !in rest
      invariant rest <= xs
      invariant |r| + |rest| == |xs|
      decreases rest
    {
      var x :| x in rest;
      r := Insert(r, x);
      rest := rest - {x};
    }
  }

  /** sorted() is determined by the set: two strictly sorted sequences with the same elements are equal. */
  lemma {:induction false} StrictlySortedUnique(s: seq<string>, t: seq<string>)
    requires StrictlySorted(s) && StrictlySorted(t)
    requires forall y :: y in s <==> y in t
    ensures s == t
  {
    assert s != [] <==> t != [] by {
      if s != [] { assert s[0] in s; }
      if t != [] { assert t[0] in t; }
    }
    if s != [] {
      assert s[0] in t && t[0] in s;
      if s[0] != t[0] {
        var i :| 0 <= i < |t| && t[i] == s[0];
        var j :| 0 <= j < |s| && s[j] == t[0];
        assert Below(t[0], s[0]);
        assert Below(s[0], t[0]);
        BelowAsymmetric(s[0], t[0]);
      }
      assert s[0] == t[0];
      forall y ensures y in s[1..] <==> y in t[1..] {
        if y in s[1..] {
          var k :| 0 <= k < |s| - 1 && s[1..][k] == y;
          assert Below(s[0], s[k + 1]);
          BelowIrreflexive(y);
          assert y in s;
          var m :| 0 <= m < |t| && t[m] == y;
          assert m != 0;
          assert t[1..][m - 1] == y;
        }
        if y in t[1..] {
          var k :| 0 <= k < |t| - 1 && t[1..][k] == y;
          assert Below(t[0], t[k + 1]);
          BelowIrreflexive(y);
          assert y in t;
          var m :| 0 <= m < |s| && s[m] == y;
          assert m != 0;
          assert s[1..][m - 1] == y;
        }
      }
      StrictlySortedUnique(s[1..], t[1..]);
      assert s == [s[0]] + s[1..] && t == [t[0]] + t[1..];
    }
  }
}
