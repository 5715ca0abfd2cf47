/**
  An insertion-ordered table from names to values: the behaviour of the
  `LinkedHashMap` a container keeps its children in. The order of the
  sequence is the iteration order; `Put` is `LinkedHashMap.put`.
 */
module LinkedTable {
  import opened Wrappers

  datatype Entry<V> = Entry(key: string, value: V)

  type Table<V> = seq<Entry<V>>

  function Keys<V>(t: Table<V>): (ks: seq<string>)
  {
    seq(|t|, i requires 0 <= i < |t| => t[i].key)
  }

  /** A map never holds a key twice. */
  predicate DistinctKeys<V>(t: Table<V>)
  {
    forall i, j :: 0 <= i < j < |t| ==> t[i].key != t[j].key
  }

  function Get<V>(t: Table<V>, k: string): (found: Option<V>)
  {
    if t == [] then None
    else if t[0].key == k then Some(t[0].value)
    else Get(t[1..], k)
  }

  /** `put`: a key already present keeps its place and takes the new value; a new key goes last. */
  function Put<V>(t: Table<V>, k: string, v: V): (t': Table<V>)
  {
    if t == [] then [Entry(k, v)]
    else if t[0].key == k then [Entry(k, v)] + t[1..]
    else [t[0]] + Put(t[1..], k, v)
  }

  /** Puts every entry of `es`, in order, into `t`. */
  function PutAll<V>(t: Table<V>, es: Table<V>): (t': Table<V>)
    decreases |es|
  {
    if es == [] then t
    else Put(PutAll(t, es[..|es| - 1]), es[|es| - 1].key, es[|es| - 1].value)
  }

  /** After `put(k, v)` the table sends `k` to `v` and every other key where it went before. */
  lemma {:induction false} PutGet<V>(t: Table<V>, k: string, v: V, k': string)
    ensures Get(Put(t, k, v), k') == if k' == k then Some(v) else Get(t, k')
  {
    if t != [] && t[0].key != k {
      PutGet(t[1..], k, v, k');
      assert Put(t, k, v)[1..] == Put(t[1..], k, v);
    }
  }

  /** Re-adding a present key replaces its value in its original position. */
  lemma {:induction false} PutReplacesInPlace<V>(t: Table<V>, k: string, v: V, i: int)
    requires DistinctKeys(t)
    requires 0 <= i < |t| && t[i].key == k
    ensures Put(t, k, v) == t[i := Entry(k, v)]
  {
    if i > 0 {
      assert t[0].key != k;
      PutReplacesInPlace(t[1..], k, v, i - 1);
      assert t[i := Entry(k, v)] == [t[0]] + t[1..][i - 1 := Entry(k, v)];
    }
  }

  /** Adding a new key appends it at the end and leaves the rest as it was. */
  lemma {:induction false} PutAppendsNew<V>(t: Table<V>, k: string, v: V)
    requires forall i :: 0 <= i < |t| ==> t[i].key != k
    ensures Put(t, k, v) == t + [Entry(k, v)]
  {
    if t != [] {
      PutAppendsNew(t[1..], k, v);
      assert t == [t[0]] + t[1..];
    }
  }

  /** `put` keeps a table free of repeated keys. */
  lemma PutKeepsDistinct<V>(t: Table<V>, k: string, v: V)
    requires DistinctKeys(t)
    ensures DistinctKeys(Put(t, k, v))
  {
    if i :| 0 <= i < |t| && t[i].key == k {
      PutReplacesInPlace(t, k, v, i);
    } else {
      PutAppendsNew(t, k, v);
    }
  }

  /** Putting entries with fresh, distinct keys appends them all, in order. */
  lemma {:induction false} PutAllAppends<V>(t: Table<V>, es: Table<V>)
    requires DistinctKeys(t + es)
    ensures PutAll(t, es) == t + es
    decreases |es|
  {
    if es != [] {
      var init, last := es[..|es| - 1], es[|es| - 1];
      assert t + es == (t + init) + [last];
      assert DistinctKeys(t + init) by {
        forall i, j | 0 <= i < j < |t + init| ensures (t + init)[i].key != (t + init)[j].key {
          assert (t + init)[i] == (t + es)[i] && (t + init)[j] == (t + es)[j];
        }
      }
      PutAllAppends(t, init);
      forall i | 0 <= i < |t + init| ensures (t + init)[i].key != last.key {
        assert (t + init)[i] == (t + es)[i] && last == (t + es)[|t + es| - 1];
      }
      PutAppendsNew(t + init, last.key, last.value);
    }
  }

  /** Looking up in a table with one more entry at the end. */
  lemma {:induction false} GetAppend<V>(t: Table<V>, e: Entry<V>, k: string)
    ensures Get(t + [e], k) == if k in Keys(t) then Get(t, k) else if k == e.key then Some(e.value) else None
  {
    if t != [] {
      GetAppend(t[1..], e, k);
      assert (t + [e])[1..] == t[1..] + [e];
      assert Keys(t) == [t[0].key] + Keys(t[1..]);
    }
  }

  /**
    Putting the entries of a map into `t` makes each of the map's keys go to
    the map's value for it, in place if present, and leaves every other key
    where it went before.
   */
  lemma {:induction false} PutAllGet<V>(t: Table<V>, es: Table<V>, k: string)
    requires DistinctKeys(es)
    ensures Get(PutAll(t, es), k) == if k in Keys(es) then Get(es, k) else Get(t, k)
    decreases |es|
  {
    if es != [] {
      var init, last := es[..|es| - 1], es[|es| - 1];
      assert es == init + [last];
      assert Keys(es) == Keys(init) + [last.key];
      assert DistinctKeys(init);
      assert last.key !in Keys(init);
      PutAllGet(t, init, k);
      PutGet(PutAll(t, init), last.key, last.value, k);
      GetAppend(init, last, k);
    }
  }
}
