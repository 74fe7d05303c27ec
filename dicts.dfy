/** Python's `dict` with string keys: an insertion-ordered sequence of
    key/value pairs. The operations are the ones the codec uses: lookup,
    `d[k] = v`, `d.pop(k)` and `dict(pairs)`. */
module Dicts {

  datatype Option<+T> = None | Some(value: T)

  /** A non-empty sequence is its front followed by its last element. */
  lemma Snoc<T>(s: seq<T>)
    requires |s| > 0
    ensures s[..|s| - 1] + [s[|s| - 1]] == s
  {
  }

  /** Every element of a non-empty `s` is in `t` exactly when every element
      of its front is and its last one is. */
  lemma AllInSnoc<T>(s: seq<T>, n: nat, t: seq<T>)
    requires n == |s| - 1
    ensures (forall i :: 0 <= i < |s| ==> s[i] in t) <==>
      (forall i :: 0 <= i < n ==> s[..n][i] in t) && s[n] in t
  {
    assert forall i :: 0 <= i < n ==> s[..n][i] == s[i];
  }

  /** The keys of `d`, in insertion order (`d.keys()`). */
  function Keys<V>(d: seq<(string, V)>): (ks: seq<string>)
    ensures |ks| == |d|
    ensures forall i :: 0 <= i < |d| ==> ks[i] == d[i].0
  {
    seq(|d|, i requires 0 <= i < |d| => d[i].0)
  }

  /** The invariant of every Python dict: no key occurs twice. */
  ghost predicate DistinctKeys<V>(d: seq<(string, V)>) {
    forall i, j :: 0 <= i < j < |d| ==> d[i].0 != d[j].0
  }

  /** The position of the first entry with key `k`, or `|d|` when there is none. */
  function Find<V>(d: seq<(string, V)>, k: string): (i: nat)
    ensures i <= |d|
    ensures i < |d| ==> d[i].0 == k
    ensures forall j :: 0 <= j < i ==> d[j].0 != k
    ensures i < |d| <==> k in Keys(d)
  {
    if d == [] then 0
    else if d[0].0 == k then 0
    else 1 + Find(d[1..], k)
  }

  /** `d.get(k)`: the value stored under `k`, if any. */
  function Lookup<V>(d: seq<(string, V)>, k: string): (r: Option<V>)
    ensures r.Some? <==> k in Keys(d)
  {
    var i := Find(d, k);
    if i < |d| then Some(d[i].1) else None
  }

  /** `d[k] = v`: replaces the value of an existing key where it stands,
      otherwise appends a new entry at the end. */
  function Put<V>(d: seq<(string, V)>, k: string, v: V): (r: seq<(string, V)>)
    ensures k in Keys(d) ==> Keys(r) == Keys(d)
    ensures k !in Keys(d) ==> r == d + [(k, v)]
  {
    var i := Find(d, k);
    if i < |d| then d[i := (k, v)] else d + [(k, v)]
  }

  /** The dictionary without its entry for `k` (what is left after `d.pop(k)`). */
  function Remove<V>(d: seq<(string, V)>, k: string): (r: seq<(string, V)>)
    ensures k !in Keys(r)
    ensures forall i :: 0 <= i < |r| ==> r[i] in d
  {
    if d == [] then []
    else (if d[0].0 == k then [] else [d[0]]) + Remove(d[1..], k)
  }

  /** `dict(pairs)`: the pairs inserted from left to right, so a repeated
      key keeps its first position and its last value. */
  function FromPairs<V>(p: seq<(string, V)>): (d: seq<(string, V)>)
    ensures DistinctKeys(d)
  {
    if p == [] then []
    else
      var n := |p| - 1;
      PutDistinct(FromPairs(p[..n]), p[n].0, p[n].1);
      Put(FromPairs(p[..n]), p[n].0, p[n].1)
  }

  /** The entry whose key is `k` is the first one with that key. */
  lemma {:induction false} FindIs<V>(d: seq<(string, V)>, k: string, i: nat)
    requires i <= |d|
    requires i < |d| ==> d[i].0 == k
    requires forall j :: 0 <= j < i ==> d[j].0 != k
    ensures Find(d, k) == i
  {
    if d != [] && d[0].0 != k {
      FindIs(d[1..], k, i - 1);
    }
  }

  lemma LookupAt<V>(d: seq<(string, V)>, i: nat)
    requires DistinctKeys(d) && i < |d|
    ensures Lookup(d, d[i].0) == Some(d[i].1)
  {
    FindIs(d, d[i].0, i);
  }

  /** Dictionaries with the same keys in the same order agree on the keys of
      their first `n` entries too. */
  lemma KeysPrefix<V, W>(d: seq<(string, V)>, e: seq<(string, W)>, n: nat)
    requires Keys(d) == Keys(e) && n <= |d|
    ensures Keys(d[..n]) == Keys(e[..n])
  {
    assert forall i :: 0 <= i < n ==> Keys(d[..n])[i] == Keys(d)[i] == Keys(e)[i] == Keys(e[..n])[i];
  }

  /** Dictionaries whose entries hold the same keys position by position
      have the same keys. */
  lemma SameKeysPointwise<V, W>(d: seq<(string, V)>, e: seq<(string, W)>)
    requires |d| == |e| && forall i :: 0 <= i < |d| ==> d[i].0 == e[i].0
    ensures Keys(d) == Keys(e)
  {
    assert forall i :: 0 <= i < |d| ==> Keys(d)[i] == d[i].0 == e[i].0 == Keys(e)[i];
  }

  /** Two dictionaries with the same keys in the same order find every key
      at the same position. */
  lemma FindSameKeys<V, W>(d: seq<(string, V)>, e: seq<(string, W)>, k: string)
    requires Keys(d) == Keys(e)
    ensures Find(d, k) == Find(e, k)
  {
    var i := Find(d, k);
    assert forall j :: 0 <= j < |d| ==> d[j].0 == Keys(d)[j] == e[j].0;
    FindIs(e, k, i);
  }

  lemma PutDistinct<V>(d: seq<(string, V)>, k: string, v: V)
    requires DistinctKeys(d)
    ensures DistinctKeys(Put(d, k, v))
  {
    var i := Find(d, k);
    var r := Put(d, k, v);
    if i < |d| {
      assert forall j :: 0 <= j < |d| ==> r[j].0 == d[j].0;
    } else {
      assert forall j :: 0 <= j < |d| ==> d[j].0 != k;
    }
  }

  /** After `d[k] = v` the key `k` holds `v` and every other key holds what it held. */
  lemma LookupPut<V>(d: seq<(string, V)>, k: string, v: V, k': string)
    ensures Lookup(Put(d, k, v), k') == if k' == k then Some(v) else Lookup(d, k')
  {
    var i := Find(d, k);
    var r := Put(d, k, v);
    if i < |d| {
      assert Keys(r) == Keys(d);
      FindSameKeys(r, d, k');
      FindSameKeys(r, d, k);
    } else {
      var j := Find(d, k');
      if k' == k {
        FindIs(r, k, |d|);
      } else {
        FindIs(r, k', if j < |d| then j else |r|);
      }
    }
  }

  /** Skipping a first entry whose key is not `k` does not change a lookup of `k`. */
  lemma LookupTail<V>(d: seq<(string, V)>, k: string)
    requires d != [] && d[0].0 != k
    ensures Lookup(d, k) == Lookup(d[1..], k)
  {
    var j := Find(d[1..], k);
    assert Find(d, k) == 1 + j;
    if j < |d| - 1 {
      assert d[1..][j] == d[1 + j];
    }
  }

  lemma {:induction false} LookupRemove<V>(d: seq<(string, V)>, k: string, k': string)
    ensures Lookup(Remove(d, k), k') == if k' == k then None else Lookup(d, k')
  {
    if d != [] && k' != k {
      LookupRemove(d[1..], k, k');
      var rest := Remove(d[1..], k);
      if d[0].0 == k {
        assert Remove(d, k) == rest;
        LookupTail(d, k');
      } else {
        var r := [d[0]] + rest;
        assert Remove(d, k) == r;
        if d[0].0 != k' {
          assert r[1..] == rest;
          LookupTail(r, k');
          LookupTail(d, k');
        }
      }
    }
  }

  lemma RemoveDistinct<V>(d: seq<(string, V)>, k: string)
    requires DistinctKeys(d)
    ensures DistinctKeys(Remove(d, k))
  {
    if d != [] {
      RemoveDistinct(d[1..], k);
      var rest := Remove(d[1..], k);
      if d[0].0 != k {
        forall i | 0 <= i < |rest| ensures rest[i].0 != d[0].0 {
          assert rest[i] in d[1..];
        }
      }
    }
  }

  /** Dictionaries with the same keys in the same order still have the same
      keys once `k` is removed from both. */
  lemma {:induction false} RemoveSameKeys<V, W>(d: seq<(string, V)>, e: seq<(string, W)>, k: string)
    requires Keys(d) == Keys(e)
    ensures Keys(Remove(d, k)) == Keys(Remove(e, k))
  {
    if d != [] {
      assert d[0].0 == Keys(d)[0] == e[0].0;
      KeysTail(d);
      KeysTail(e);
      RemoveSameKeys(d[1..], e[1..], k);
      var hd := if d[0].0 == k then [] else [d[0]];
      var he := if e[0].0 == k then [] else [e[0]];
      KeysAppend(hd, Remove(d[1..], k));
      KeysAppend(he, Remove(e[1..], k));
      assert Keys(hd) == Keys(he);
    }
  }

  lemma KeysTail<V>(d: seq<(string, V)>)
    requires |d| > 0
    ensures Keys(d[1..]) == Keys(d)[1..]
  {
  }

  lemma KeysAppend<V>(a: seq<(string, V)>, b: seq<(string, V)>)
    ensures Keys(a + b) == Keys(a) + Keys(b)
  {
  }

  /** Every entry after `d[k] = v` is an entry of `d` or the new one. */
  lemma PutEntries<V>(d: seq<(string, V)>, k: string, v: V)
    ensures forall i :: 0 <= i < |Put(d, k, v)| ==> Put(d, k, v)[i] in d || Put(d, k, v)[i] == (k, v)
  {
  }

  /** Once `k` is removed, it makes no difference whether `d[k] = v` was
      done before. */
  lemma RemovePut<V>(d: seq<(string, V)>, k: string, v: V)
    requires DistinctKeys(d)
    ensures Remove(Put(d, k, v), k) == Remove(d, k)
  {
    var p := Put(d, k, v);
    if k in Keys(d) {
      PutDistinct(d, k, v);
      RemoveDistinct(p, k);
      RemoveDistinct(d, k);
      RemoveSameKeys(p, d, k);
      forall k' ensures Lookup(Remove(p, k), k') == Lookup(Remove(d, k), k') {
        LookupRemove(p, k, k');
        LookupRemove(d, k, k');
        LookupPut(d, k, v, k');
      }
      SameLookups(Remove(p, k), Remove(d, k));
    } else {
      RemoveLast(d, k, v);
      RemoveAbsent(d, k);
    }
  }

  /** Removing a key the dictionary does not hold changes nothing. */
  lemma RemoveAbsent<V>(d: seq<(string, V)>, k: string)
    requires k !in Keys(d)
    ensures Remove(d, k) == d
  {
    if d != [] {
      assert Keys(d[1..]) == Keys(d)[1..];
      RemoveAbsent(d[1..], k);
    }
  }

  /** An entry appended under a new key: it is found under that key, it is
      the only entry a `pop` of that key takes away, and no key repeats
      if none did before. */
  lemma AppendNew<V>(d: seq<(string, V)>, k: string, v: V)
    requires k !in Keys(d)
    ensures Keys(d + [(k, v)]) == Keys(d) + [k]
    ensures Lookup(d + [(k, v)], k) == Some(v)
    ensures Remove(d + [(k, v)], k) == d
    ensures DistinctKeys(d) ==> DistinctKeys(d + [(k, v)])
  {
    var e := d + [(k, v)];
    assert Keys(e) == Keys(d) + [k];
    FindIs(e, k, |d|);
    RemoveLast(d, k, v);
  }

  /** Removing the key of the last entry, which no earlier entry has,
      drops that entry and keeps the rest in order. */
  lemma RemoveLast<V>(d: seq<(string, V)>, k: string, v: V)
    requires k !in Keys(d)
    ensures Remove(d + [(k, v)], k) == d
  {
    if d == [] {
      assert Remove([(k, v)], k) == [] + Remove([(k, v)][1..], k);
    } else {
      assert (d + [(k, v)])[1..] == d[1..] + [(k, v)];
      assert Keys(d[1..]) == Keys(d)[1..];
      RemoveLast(d[1..], k, v);
    }
  }

  /** `dict(pairs)` of pairs whose keys are already distinct is those pairs. */
  lemma {:induction false} FromPairsOfDistinct<V>(p: seq<(string, V)>)
    requires DistinctKeys(p)
    ensures FromPairs(p) == p
  {
    if p != [] {
      var n := |p| - 1;
      assert DistinctKeys(p[..n]);
      FromPairsOfDistinct(p[..n]);
      assert p[n].0 !in Keys(p[..n]);
      assert p[..n] + [(p[n].0, p[n].1)] == p;
    }
  }

  /** `dict(pairs)` holds exactly the keys that occur among the pairs. */
  lemma {:induction false} FromPairsKeys<V>(p: seq<(string, V)>, k: string)
    ensures k in Keys(FromPairs(p)) <==> k in Keys(p)
  {
    if p != [] {
      var n := |p| - 1;
      FromPairsKeys(p[..n], k);
      Snoc(p);
      KeysAppend(p[..n], [p[n]]);
      var d := FromPairs(p[..n]);
      if p[n].0 !in Keys(d) {
        KeysAppend(d, [p[n]]);
      }
    }
  }

  /** `q` holds the keys of `p`, in order, each with its value mapped by `f`. */
  ghost predicate Mapped<V, W>(p: seq<(string, V)>, q: seq<(string, W)>, f: V -> W) {
    |q| == |p| && forall i :: 0 <= i < |p| ==> q[i] == (p[i].0, f(p[i].1))
  }

  /** `d[k] = v` commutes with mapping the values. */
  lemma PutMapped<V, W>(d: seq<(string, V)>, e: seq<(string, W)>, f: V -> W, k: string, v: V)
    requires Mapped(d, e, f)
    ensures Mapped(Put(d, k, v), Put(e, k, f(v)), f)
  {
    var i := Find(d, k);
    FindIs(e, k, i);
  }

  /** `dict(pairs)` commutes with mapping the values: a repeated key keeps
      its first position and the mapped last value. */
  lemma {:induction false} FromPairsMapped<V, W>(p: seq<(string, V)>, q: seq<(string, W)>, f: V -> W)
    requires Mapped(p, q, f)
    ensures Mapped(FromPairs(p), FromPairs(q), f)
  {
    if p != [] {
      var n := |p| - 1;
      assert Mapped(p[..n], q[..n], f);
      FromPairsMapped(p[..n], q[..n], f);
      PutMapped(FromPairs(p[..n]), FromPairs(q[..n]), f, p[n].0, p[n].1);
    }
  }

  /** Every entry of `dict(pairs)` has a key of the pairs. */
  lemma {:induction false} FromPairsEntries<V>(p: seq<(string, V)>, i: nat)
    requires i < |FromPairs(p)|
    ensures exists j :: 0 <= j < |p| && p[j] == FromPairs(p)[i]
  {
    var n := |p| - 1;
    var d := FromPairs(p[..n]);
    PutEntries(d, p[n].0, p[n].1);
    if FromPairs(p)[i] == p[n] {
    } else {
      FromPairsEntries(p[..n], i);
      var j :| 0 <= j < n && p[..n][j] == d[i];
      assert p[j] == FromPairs(p)[i];
    }
  }

  /** Two dictionaries without repeated keys, with the same keys in the same
      order and the same value under every key, are the same. */
  lemma SameLookups<V>(d: seq<(string, V)>, e: seq<(string, V)>)
    requires DistinctKeys(d) && DistinctKeys(e) && Keys(d) == Keys(e)
    requires forall k :: Lookup(d, k) == Lookup(e, k)
    ensures d == e
  {
    forall i | 0 <= i < |d| ensures d[i] == e[i] {
      assert d[i].0 == Keys(d)[i] == e[i].0;
      LookupAt(d, i);
      LookupAt(e, i);
    }
  }

  /** The dictionary whose keys are `ks` and whose values are `vs`, pair by pair. */
  function Zip<V>(ks: seq<string>, vs: seq<V>): (d: seq<(string, V)>)
    requires |ks| == |vs|
    ensures |d| == |ks| && Keys(d) == ks
    ensures forall i :: 0 <= i < |d| ==> d[i] == (ks[i], vs[i])
  {
    seq(|ks|, i requires 0 <= i < |ks| => (ks[i], vs[i]))
  }

  /** The mutable Python dict the hooks receive and update in place. */
  class PyDict<V> {
    var entries: seq<(string, V)>

    ghost predicate Valid()
      reads this
    {
      DistinctKeys(entries)
    }

    constructor (entries: seq<(string, V)>)
      requires DistinctKeys(entries)
      ensures Valid() && this.entries == entries
    {
      this.entries := entries;
    }

    /** `k in d` */
    method Contains(k: string) returns (b: bool)
      ensures b <==> k in Keys(entries)
    {
      b := Find(entries, k) < |entries|;
    }

    /** `d.pop(k)`; None stands for the KeyError Python raises for a missing key. */
    method Pop(k: string) returns (r: Option<V>)
      requires Valid()
      modifies this
      ensures Valid()
      ensures r == Lookup(old(entries), k)
      ensures entries == Remove(old(entries), k)
    {
      r := Lookup(entries, k);
      RemoveDistinct(entries, k);
      entries := Remove(entries, k);
    }

    /** `d[k] = v` */
    method SetItem(k: string, v: V)
      requires Valid()
      modifies this
      ensures Valid()
      ensures entries == Put(old(entries), k, v)
    {
      PutDistinct(entries, k, v);
      entries := Put(entries, k, v);
    }
  }
}
