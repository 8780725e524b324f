/**
 * The behaviour this library relies on from its collection classes
 * (sequence filter, find and remove; the multimap of ordered groups).
 * Keys of a multimap iterate in the order they were first inserted, values
 * within a key in the order they were added, a missing key reads as an empty
 * sequence, and filtering keeps every key (possibly with an empty group).
 */
module Collections {

  /** The elements of `s` that satisfy `p`, in their original order. */
  function Filter<T>(s: seq<T>, p: T -> bool): (r: seq<T>)
    ensures |r| <= |s|
    decreases |s|
  {
    if s == [] then []
    else if p(s[0]) then [s[0]] + Filter(s[1..], p)
    else Filter(s[1..], p)
  }

  /** An element is kept exactly when it occurs and satisfies `p`. */
  lemma {:induction false} FilterMembers<T>(s: seq<T>, p: T -> bool, x: T)
    ensures x in Filter(s, p) <==> x in s && p(x)
    decreases |s|
  {
    if s != [] {
      FilterMembers(s[1..], p, x);
      assert s == [s[0]] + s[1..];
    }
  }

  lemma {:induction false} FilterAppend<T>(a: seq<T>, b: seq<T>, p: T -> bool)
    ensures Filter(a + b, p) == Filter(a, p) + Filter(b, p)
    decreases |a|
  {
    if a != [] {
      assert (a + b)[1..] == a[1..] + b;
      FilterAppend(a[1..], b, p);
    } else {
      assert a + b == b;
    }
  }

  /** A predicate every element satisfies keeps the sequence as it is. */
  lemma {:induction false} FilterKeepsAll<T>(s: seq<T>, p: T -> bool)
    requires forall i :: 0 <= i < |s| ==> p(s[i])
    ensures Filter(s, p) == s
    decreases |s|
  {
    if s != [] {
      FilterKeepsAll(s[1..], p);
    }
  }

  /** A predicate no element satisfies leaves nothing. */
  lemma {:induction false} FilterDropsAll<T>(s: seq<T>, p: T -> bool)
    requires forall i :: 0 <= i < |s| ==> !p(s[i])
    ensures Filter(s, p) == []
    decreases |s|
  {
    if s != [] {
      FilterDropsAll(s[1..], p);
    }
  }

  /** Filtering keeps the multiplicity of every kept element. */
  lemma {:induction false} FilterMultiset<T>(s: seq<T>, p: T -> bool, x: T)
    ensures multiset(Filter(s, p))[x] == if p(x) then multiset(s)[x] else 0
    decreases |s|
  {
    if s != [] {
      FilterMultiset(s[1..], p, x);
      assert s == [s[0]] + s[1..];
    }
  }

  ghost predicate NoDuplicates<T>(s: seq<T>) {
    forall i, j :: 0 <= i < j < |s| ==> s[i] != s[j]
  }

  /** The position of the first occurrence of `x` (the collection's `find`). */
  function FirstIndex<T(==)>(s: seq<T>, x: T): (i: nat)
    requires x in s
    ensures i < |s| && s[i] == x && x !in s[..i]
  {
    if s[0] == x then 0
    else
      var j := FirstIndex(s[1..], x);
      assert s[..j + 1] == [s[0]] + s[1..][..j];
      j + 1
  }

  /** The sequence without its element at position `i` (the collection's `remove`). */
  function RemoveAt<T>(s: seq<T>, i: nat): (r: seq<T>)
    requires i < |s|
    ensures |r| == |s| - 1
    ensures multiset(r) == multiset(s) - multiset{s[i]}
  {
    assert s == s[..i] + [s[i]] + s[i + 1..];
    s[..i] + s[i + 1..]
  }

  /** The values stored under the keys `ks`, group after group. */
  function Concat<V>(ks: seq<string>, groups: map<string, seq<V>>): seq<V>
    decreases |ks|
  {
    if ks == [] then []
    else (if ks[0] in groups then groups[ks[0]] else []) + Concat(ks[1..], groups)
  }

  /** A map from a string key to an ordered group of values, with its keys in insertion order. */
  datatype MultiMap<V> = MultiMap(keys: seq<string>, groups: map<string, seq<V>>) {

    ghost predicate Wf() {
      NoDuplicates(keys) && forall k :: k in groups <==> k in keys
    }

    /** The group stored under `k`; empty when `k` was never put. */
    function Get(k: string): seq<V> {
      if k in groups then groups[k] else []
    }

    /** Appends `v` to the group of `k`; a new key goes after every existing key. */
    function Put(k: string, v: V): (r: MultiMap<V>)
      ensures r.Get(k) == Get(k) + [v]
      ensures forall k' :: k' != k ==> r.Get(k') == Get(k')
      ensures r.keys == if k in groups then keys else keys + [k]
    {
      if k in groups then MultiMap(keys, groups[k := groups[k] + [v]])
      else MultiMap(keys + [k], groups[k := [v]])
    }

    /** Every stored value: the groups in key order, each group in its own order. */
    function Flatten(): seq<V> {
      Concat(keys, groups)
    }

    /** Keeps, inside every group, the values that satisfy `p`; no key is dropped. */
    function FilterValues(p: V -> bool): (r: MultiMap<V>)
      ensures Wf() ==> r.Wf()
      ensures r.keys == keys
      ensures forall k :: r.Get(k) == Filter(Get(k), p)
    {
      MultiMap(keys, map k | k in groups :: Filter(groups[k], p))
    }
  }

  lemma PutKeepsWf<V>(m: MultiMap<V>, k: string, v: V)
    requires m.Wf()
    ensures m.Put(k, v).Wf()
  {
  }

  function EmptyMultiMap<V>(): (r: MultiMap<V>)
    ensures r.Wf() && r.Flatten() == []
    ensures forall k :: r.Get(k) == []
  {
    MultiMap([], map[])
  }

  lemma {:induction false} ConcatFilter<V>(ks: seq<string>, groups: map<string, seq<V>>, filtered: map<string, seq<V>>, p: V -> bool)
    requires forall k :: k in filtered <==> k in groups
    requires forall k :: k in groups ==> filtered[k] == Filter(groups[k], p)
    ensures Concat(ks, filtered) == Filter(Concat(ks, groups), p)
    decreases |ks|
  {
    if ks != [] {
      ConcatFilter(ks[1..], groups, filtered, p);
      FilterAppend(if ks[0] in groups then groups[ks[0]] else [], Concat(ks[1..], groups), p);
    }
  }

  /** Filtering inside the groups and then flattening is filtering the stored order. */
  lemma FlattenFilter<V>(m: MultiMap<V>, p: V -> bool)
    requires m.Wf()
    ensures m.FilterValues(p).Flatten() == Filter(m.Flatten(), p)
  {
    ConcatFilter(m.keys, m.groups, m.FilterValues(p).groups, p);
  }

  lemma {:induction false} ConcatMembers<V>(ks: seq<string>, groups: map<string, seq<V>>, v: V)
    ensures v in Concat(ks, groups) <==> exists k :: k in ks && k in groups && v in groups[k]
    decreases |ks|
  {
    if ks != [] {
      ConcatMembers(ks[1..], groups, v);
      if v in Concat(ks, groups) && !(ks[0] in groups && v in groups[ks[0]]) {
        var k :| k in ks[1..] && k in groups && v in groups[k];
        assert k in ks;
      }
      if exists k :: k in ks && k in groups && v in groups[k] {
        var k :| k in ks && k in groups && v in groups[k];
        if k != ks[0] {
          assert k in ks[1..];
        }
      }
    }
  }

  /** A value is stored in the multimap iff it belongs to some key's group. */
  lemma FlattenMembers<V>(m: MultiMap<V>, v: V)
    requires m.Wf()
    ensures v in m.Flatten() <==> exists k :: v in m.Get(k)
  {
    ConcatMembers(m.keys, m.groups, v);
    if v in m.Flatten() {
      var k :| k in m.keys && k in m.groups && v in m.groups[k];
      assert v in m.Get(k);
    }
    if exists k :: v in m.Get(k) {
      var k :| v in m.Get(k);
      assert k in m.keys;
    }
  }

  lemma {:induction false} ConcatIgnoresAbsentKey<V>(ks: seq<string>, groups: map<string, seq<V>>, k: string, g: seq<V>)
    requires k !in ks
    ensures Concat(ks, groups[k := g]) == Concat(ks, groups)
    decreases |ks|
  {
    if ks != [] {
      ConcatIgnoresAbsentKey(ks[1..], groups, k, g);
    }
  }

  lemma {:induction false} ConcatAppendKey<V>(ks: seq<string>, groups: map<string, seq<V>>, k: string)
    ensures Concat(ks + [k], groups) == Concat(ks, groups) + (if k in groups then groups[k] else [])
    decreases |ks|
  {
    if ks == [] {
      assert ks + [k] == [k];
    } else {
      assert (ks + [k])[1..] == ks[1..] + [k];
      ConcatAppendKey(ks[1..], groups, k);
    }
  }

  lemma {:induction false} ConcatGrowGroup<V>(ks: seq<string>, groups: map<string, seq<V>>, k: string, v: V)
    requires k in groups && NoDuplicates(ks)
    ensures multiset(Concat(ks, groups[k := groups[k] + [v]]))
         == multiset(Concat(ks, groups)) + (if k in ks then multiset{v} else multiset{})
    decreases |ks|
  {
    if ks != [] {
      var grown := groups[k := groups[k] + [v]];
      if ks[0] == k {
        assert k !in ks[1..];
        ConcatIgnoresAbsentKey(ks[1..], groups, k, groups[k] + [v]);
      } else {
        ConcatGrowGroup(ks[1..], groups, k, v);
      }
    }
  }

  /** Putting a value adds exactly that value to what the multimap stores. */
  lemma PutAddsOne<V>(m: MultiMap<V>, k: string, v: V)
    requires m.Wf()
    ensures multiset(m.Put(k, v).Flatten()) == multiset(m.Flatten()) + multiset{v}
  {
    if k in m.groups {
      ConcatGrowGroup(m.keys, m.groups, k, v);
    } else {
      ConcatAppendKey(m.keys, m.groups[k := [v]], k);
      ConcatIgnoresAbsentKey(m.keys, m.groups, k, [v]);
    }
  }
}
