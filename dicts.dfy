/**
  Python dictionaries as lists of entries in insertion order: the trading
  offers, the per-team offer amounts and the two mailboxes.
 */
module Dicts {
  import opened Options

  datatype Entry<K, V> = Entry(key: K, value: V)

  /** No key occurs twice, as in a dictionary. */
  predicate DistinctKeys<K(==), V>(d: seq<Entry<K, V>>) {
    forall i, j :: 0 <= i < j < |d| ==> d[i].key != d[j].key
  }

  predicate HasKey<K(==), V>(d: seq<Entry<K, V>>, k: K) {
    exists i :: 0 <= i < |d| && d[i].key == k
  }

  /** `d.get(k)`. */
  function Get<K(==), V>(d: seq<Entry<K, V>>, k: K): (r: Option<V>)
    ensures r.Some? <==> HasKey(d, k)
  {
    if d == [] then None
    else if d[0].key == k then Some(d[0].value)
    else
      assert HasKey(d, k) <==> HasKey(d[1..], k) by {
        if HasKey(d, k) {
          var i :| 0 <= i < |d| && d[i].key == k;
          assert d[1..][i - 1].key == k;
        }
      }
      Get(d[1..], k)
  }

  /** In a dictionary, looking up the key of an entry gives that entry's value. */
  lemma {:induction false} GetEntry<K, V>(d: seq<Entry<K, V>>, i: nat)
    requires DistinctKeys(d) && i < |d|
    ensures Get(d, d[i].key) == Some(d[i].value)
  {
    if i > 0 {
      assert DistinctKeys(d[1..]);
      GetEntry(d[1..], i - 1);
    }
  }

  /** `d[k] = v`: an existing key keeps its place and takes the new value, a new key goes last. */
  function Put<K(==), V>(d: seq<Entry<K, V>>, k: K, v: V): (r: seq<Entry<K, V>>)
    requires DistinctKeys(d)
    ensures DistinctKeys(r)
    ensures HasKey(r, k)
  {
    if HasKey(d, k) then
      var r := seq(|d|, i requires 0 <= i < |d| => if d[i].key == k then Entry(k, v) else d[i]);
      assert forall i :: 0 <= i < |d| ==> r[i].key == d[i].key;
      r
    else
      var r := d + [Entry(k, v)];
      assert r[|d|].key == k;
      r
  }

  /** After `d[k] = v`, `k` maps to `v` and every other key to what it mapped to before. */
  lemma PutGet<K, V>(d: seq<Entry<K, V>>, k: K, v: V, k': K)
    requires DistinctKeys(d)
    ensures Get(Put(d, k, v), k) == Some(v)
    ensures k' != k ==> Get(Put(d, k, v), k') == Get(d, k')
  {
    var r := Put(d, k, v);
    var j :| 0 <= j < |r| && r[j].key == k;
    assert r[j] == Entry(k, v);
    GetEntry(r, j);
    if k' != k {
      if HasKey(d, k') {
        var i :| 0 <= i < |d| && d[i].key == k';
        GetEntry(d, i);
        assert r[i] == d[i];
        GetEntry(r, i);
      }
    }
  }

  /** `PutGet` for every other key at once. */
  lemma PutKeepsOthers<K, V>(d: seq<Entry<K, V>>, k: K, v: V)
    requires DistinctKeys(d)
    ensures Get(Put(d, k, v), k) == Some(v)
    ensures forall k' :: k' != k ==> Get(Put(d, k, v), k') == Get(d, k')
  {
    forall k' | k' != k
      ensures Get(Put(d, k, v), k') == Get(d, k')
    {
      PutGet(d, k, v, k');
    }
    PutGet(d, k, v, k);
  }

  /** `del d[k]`. */
  function RemoveKey<K(==), V>(d: seq<Entry<K, V>>, k: K): seq<Entry<K, V>> {
    if d == [] then []
    else if d[0].key == k then RemoveKey(d[1..], k)
    else [d[0]] + RemoveKey(d[1..], k)
  }

  /** After `del d[k]`, `k` is gone, every entry with another key is still there, and nothing was added. */
  lemma {:induction false} RemoveKeyDeletes<K, V>(d: seq<Entry<K, V>>, k: K)
    ensures !HasKey(RemoveKey(d, k), k)
    ensures forall i :: 0 <= i < |d| && d[i].key != k ==> d[i] in RemoveKey(d, k)
    ensures forall e :: e in RemoveKey(d, k) ==> e in d
  {
    if d != [] {
      RemoveKeyDeletes(d[1..], k);
      var r := RemoveKey(d, k);
      forall i | 0 <= i < |d| && d[i].key != k
        ensures d[i] in r
      {
        if i > 0 {
          assert d[1..][i - 1] == d[i];
        }
      }
    }
  }

  /** Deleting the first key of a dictionary leaves the entries after it, in order. */
  lemma {:induction false} RemoveFirstKey<K, V>(d: seq<Entry<K, V>>)
    requires d != [] && DistinctKeys(d)
    ensures RemoveKey(d, d[0].key) == d[1..]
  {
    assert forall i :: 0 <= i < |d| - 1 ==> d[1..][i].key != d[0].key;
    NoKeyRemoveKey(d[1..], d[0].key);
  }

  /** Deleting a key that is absent changes nothing. */
  lemma {:induction false} NoKeyRemoveKey<K, V>(d: seq<Entry<K, V>>, k: K)
    requires forall i :: 0 <= i < |d| ==> d[i].key != k
    ensures RemoveKey(d, k) == d
  {
    if d != [] {
      NoKeyRemoveKey(d[1..], k);
    }
  }
}
