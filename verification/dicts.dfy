/**
 * Insertion-ordered dictionaries from category names to lists, as the Python program
 * builds them with defaultdict(list) and dict displays: an association list whose keys
 * appear once, in the order in which they were first touched.
 */
module Dicts {

  datatype Entry<V> = Entry(key: string, values: seq<V>)

  type Dict<V> = seq<Entry<V>>

  function Keys<V>(d: Dict<V>): (ks: seq<string>)
    ensures |ks| == |d| && forall i :: 0 <= i < |d| ==> ks[i] == d[i].key
  {
    seq(|d|, i requires 0 <= i < |d| => d[i].key)
  }

  predicate DistinctKeys<V>(d: Dict<V>) {
    forall i, j :: 0 <= i < j < |d| ==> d[i].key != d[j].key
  }

  /** d.get(k, []) */
  function Lookup<V>(d: Dict<V>, k: string): (vs: seq<V>)
    ensures k !in Keys(d) ==> vs == []
  {
    if d == [] then []
    else if d[0].key == k then d[0].values
    else Lookup(d[1..], k)
  }

  lemma KeysCons<V>(e: Entry<V>, d: Dict<V>)
    ensures Keys([e] + d) == [e.key] + Keys(d)
  {
  }

  lemma DistinctCons<V>(e: Entry<V>, d: Dict<V>)
    ensures DistinctKeys([e] + d) <==> e.key !in Keys(d) && DistinctKeys(d)
  {
    if e.key in Keys(d) {
      var j :| 0 <= j < |d| && Keys(d)[j] == e.key;
      assert ([e] + d)[0] == e && ([e] + d)[j + 1] == d[j];
    }
    if DistinctKeys([e] + d) {
      forall i, j | 0 <= i < j < |d| ensures d[i].key != d[j].key {
        assert ([e] + d)[i + 1] == d[i] && ([e] + d)[j + 1] == d[j];
      }
    }
    if e.key !in Keys(d) && DistinctKeys(d) {
      forall i, j | 0 <= i < j < |d| + 1 ensures ([e] + d)[i].key != ([e] + d)[j].key {
        assert ([e] + d)[j] == d[j - 1];
        if i == 0 {
          assert Keys(d)[j - 1] == d[j - 1].key;
        } else {
          assert ([e] + d)[i] == d[i - 1];
        }
      }
    }
  }

  /** d[k].extend(vs) on a defaultdict(list): creates the key at the end when it is new. */
  function Extend<V>(d: Dict<V>, k: string, vs: seq<V>): (r: Dict<V>)
    ensures Keys(r) == if k in Keys(d) then Keys(d) else Keys(d) + [k]
    ensures DistinctKeys(d) ==> DistinctKeys(r)
  {
    if d == [] then [Entry(k, vs)]
    else if d[0].key == k then [Entry(k, d[0].values + vs)] + d[1..]
    else
      var rest := Extend(d[1..], k, vs);
      KeysCons(d[0], d[1..]);
      KeysCons(d[0], rest);
      assert d == [d[0]] + d[1..];
      assert DistinctKeys(d) ==> d[0].key !in Keys(d[1..]) && DistinctKeys(d[1..]);
      DistinctCons(d[0], rest);
      [d[0]] + rest
  }

  /** Extending under k appends vs to the list of k and leaves every other list as it was. */
  lemma {:induction false} ExtendLookup<V>(d: Dict<V>, k: string, vs: seq<V>, t: string)
    ensures Lookup(Extend(d, k, vs), t) == Lookup(d, t) + (if t == k then vs else [])
  {
    if d != [] && d[0].key != k {
      ExtendLookup(d[1..], k, vs, t);
    }
  }

  /** The concatenation of all value lists, key by key. */
  function AllValues<V>(d: Dict<V>): seq<V> {
    if d == [] then [] else d[0].values + AllValues(d[1..])
  }

  /** The first entry with key k decides what d.get(k) is. */
  lemma {:induction false} LookupFirst<V>(d: Dict<V>, k: string, i: nat)
    requires i < |d| && d[i].key == k && k !in Keys(d[..i])
    ensures Lookup(d, k) == d[i].values
  {
    if i > 0 {
      assert d[0].key == Keys(d[..i])[0];
      assert Keys(d[1..][..i - 1]) == Keys(d[..i])[1..];
      LookupFirst(d[1..], k, i - 1);
    }
  }

  /** Lookup on a dict with one more entry at the end: the new entry only counts for a new key. */
  lemma {:induction false} LookupSnoc<V>(d: Dict<V>, e: Entry<V>, t: string)
    ensures Lookup(d + [e], t) == if t in Keys(d) then Lookup(d, t) else if e.key == t then e.values else []
  {
    if d != [] {
      assert (d + [e])[1..] == d[1..] + [e];
      assert Keys(d) == [d[0].key] + Keys(d[1..]);
      LookupSnoc(d[1..], e, t);
    }
  }

  /** Two extensions of the same key are one extension by both lists. */
  lemma {:induction false} ExtendExtend<V>(d: Dict<V>, k: string, a: seq<V>, b: seq<V>)
    ensures Extend(Extend(d, k, a), k, b) == Extend(d, k, a + b)
  {
    if d == [] {
    } else if d[0].key == k {
      assert d[0].values + a + b == d[0].values + (a + b);
    } else {
      var once := Extend(d, k, a);
      assert once == [d[0]] + Extend(d[1..], k, a);
      assert once[0] == d[0] && once[1..] == Extend(d[1..], k, a);
      ExtendExtend(d[1..], k, a, b);
    }
  }

  /** for key, values in per.items(): d[key].extend(values) */
  function Merge<V>(d: Dict<V>, per: Dict<V>): (r: Dict<V>)
    ensures DistinctKeys(d) ==> DistinctKeys(r)
  {
    if per == [] then d
    else
      var e := per[|per| - 1];
      Extend(Merge(d, per[..|per| - 1]), e.key, e.values)
  }

  lemma AppendNil<V>(a: seq<V>)
    ensures a + [] == a
  {
  }

  lemma DistinctSnoc<V>(d: Dict<V>, e: Entry<V>)
    requires DistinctKeys(d + [e])
    ensures e.key !in Keys(d) && DistinctKeys(d)
  {
    forall j | 0 <= j < |d| ensures d[j].key != e.key {
      assert (d + [e])[j] == d[j] && (d + [e])[|d|] == e;
    }
    forall i, j | 0 <= i < j < |d| ensures d[i].key != d[j].key {
      assert (d + [e])[i] == d[i] && (d + [e])[j] == d[j];
    }
  }

  /** Merging a dict with distinct keys appends, under every key, that dict's list. */
  lemma {:induction false} MergeLookup<V>(d: Dict<V>, per: Dict<V>, t: string)
    requires DistinctKeys(per)
    ensures Lookup(Merge(d, per), t) == Lookup(d, t) + Lookup(per, t)
  {
    if per != [] {
      var init := per[..|per| - 1];
      var e := per[|per| - 1];
      assert per == init + [e];
      DistinctSnoc(init, e);
      MergeLookup(d, init, t);
      assert Merge(d, per) == Extend(Merge(d, init), e.key, e.values);
      ExtendLookup(Merge(d, init), e.key, e.values, t);
      LookupSnoc(init, e, t);
      var x := if t == e.key then e.values else [];
      var before := Lookup(d, t);
      assert Lookup(Merge(d, per), t) == (before + Lookup(init, t)) + x;
      if t in Keys(init) {
        assert x == [];
        assert Lookup(per, t) == Lookup(init, t);
        AppendNil(before + Lookup(init, t));
      } else {
        assert Lookup(init, t) == [];
        assert Lookup(per, t) == x;
        AppendNil(before);
      }
    }
  }
}
