/**
  Ordered association lists: the model of a JavaScript plain object with
  string keys, whose `Object.keys` order is insertion order. Assigning to a
  property that exists keeps its position; a new property is appended.
*/
module Assoc {
  import opened Wrappers

  function Keys<K, V>(m: seq<(K, V)>): (ks: seq<K>)
    ensures |ks| == |m|
    ensures forall i :: 0 <= i < |m| ==> ks[i] == m[i].0
  {
    if m == [] then [] else [m[0].0] + Keys(m[1..])
  }

  /** No key occurs twice: what an object's own property list always is. */
  predicate DistinctKeys<K(==), V>(m: seq<(K, V)>)
  {
    forall i, j :: 0 <= i < j < |m| ==> m[i].0 != m[j].0
  }

  /** `obj[k]` for an own property `k`. */
  function Lookup<K(==), V>(m: seq<(K, V)>, k: K): (r: Option<V>)
    ensures r.Some? <==> k in Keys(m)
  {
    if m == [] then None
    else if m[0].0 == k then Some(m[0].1)
    else Lookup(m[1..], k)
  }

  /** `obj[k] = v`. */
  function Put<K(==), V>(m: seq<(K, V)>, k: K, v: V): (r: seq<(K, V)>)
  {
    if m == [] then [(k, v)]
    else if m[0].0 == k then [(k, v)] + m[1..]
    else [m[0]] + Put(m[1..], k, v)
  }

  /**
    `Object.assign(m, c)`: every entry of `c`, in order, assigned into `m`;
    the last entry of `c` is what its key reads afterwards.
  */
  function Merge<K(==), V>(m: seq<(K, V)>, c: seq<(K, V)>): (r: seq<(K, V)>)
    ensures c != [] ==> Lookup(r, c[|c| - 1].0) == Some(c[|c| - 1].1)
    decreases |c|
  {
    if c == [] then m
    else
      LookupPut(m, c[0].0, c[0].1, c[0].0);
      Merge(Put(m, c[0].0, c[0].1), c[1..])
  }

  lemma {:induction false} LookupPut<K, V>(m: seq<(K, V)>, k: K, v: V, k': K)
    ensures Lookup(Put(m, k, v), k') == if k' == k then Some(v) else Lookup(m, k')
  {
    if m != [] && m[0].0 != k {
      LookupPut(m[1..], k, v, k');
      assert Put(m, k, v)[1..] == Put(m[1..], k, v);
    }
  }

  /** An existing key keeps its position; a new key goes to the end. */
  lemma {:induction false} KeysPut<K, V>(m: seq<(K, V)>, k: K, v: V)
    ensures Keys(Put(m, k, v)) == if k in Keys(m) then Keys(m) else Keys(m) + [k]
  {
    if m != [] {
      if m[0].0 == k {
        assert Keys(Put(m, k, v)) == [k] + Keys(m[1..]);
      } else {
        KeysPut(m[1..], k, v);
        assert Keys(Put(m, k, v)) == [m[0].0] + Keys(Put(m[1..], k, v));
        assert Keys(m) == [m[0].0] + Keys(m[1..]);
      }
    }
  }

  lemma PutDistinct<K, V>(m: seq<(K, V)>, k: K, v: V)
    requires DistinctKeys(m)
    ensures DistinctKeys(Put(m, k, v))
  {
    var r := Put(m, k, v);
    KeysPut(m, k, v);
    var ks, rs := Keys(m), Keys(r);
    forall i, j | 0 <= i < j < |r| ensures r[i].0 != r[j].0 {
      assert r[i].0 == rs[i] && r[j].0 == rs[j];
      if j < |m| {
        assert rs[i] == ks[i] == m[i].0 && rs[j] == ks[j] == m[j].0;
      } else {
        assert rs[j] == k && rs[i] == ks[i];
      }
    }
  }

  lemma {:induction false} MergeDistinct<K, V>(m: seq<(K, V)>, c: seq<(K, V)>)
    requires DistinctKeys(m)
    ensures DistinctKeys(Merge(m, c))
    decreases |c|
  {
    if c != [] {
      PutDistinct(m, c[0].0, c[0].1);
      MergeDistinct(Put(m, c[0].0, c[0].1), c[1..]);
    }
  }

  /** After `Object.assign(m, c)` a key reads from `c` when `c` has it, from `m` otherwise. */
  lemma {:induction false} LookupMerge<K, V>(m: seq<(K, V)>, c: seq<(K, V)>, k: K)
    requires DistinctKeys(c)
    ensures Lookup(Merge(m, c), k) == if k in Keys(c) then Lookup(c, k) else Lookup(m, k)
    decreases |c|
  {
    if c != [] {
      var m' := Put(m, c[0].0, c[0].1);
      LookupMerge(m', c[1..], k);
      LookupPut(m, c[0].0, c[0].1, k);
      assert Keys(c) == [c[0].0] + Keys(c[1..]);
      if k == c[0].0 {
        assert k !in Keys(c[1..]);
      }
    }
  }

  /** Looking up a key of a list that ends in a key not seen before. */
  lemma {:induction false} LookupAppend<K, V>(m: seq<(K, V)>, k: K, v: V, k': K)
    ensures Lookup(m + [(k, v)], k') == if k' in Keys(m) then Lookup(m, k') else if k' == k then Some(v) else None
  {
    if m != [] {
      assert (m + [(k, v)])[1..] == m[1..] + [(k, v)];
      LookupAppend(m[1..], k, v, k');
      assert Keys(m) == [m[0].0] + Keys(m[1..]);
    }
  }

  /** A found value is the value of an entry of the list. */
  lemma {:induction false} LookupFound<K, V>(m: seq<(K, V)>, k: K) returns (i: nat)
    requires Lookup(m, k).Some?
    ensures i < |m| && m[i] == (k, Lookup(m, k).value)
  {
    if m[0].0 == k {
      i := 0;
    } else {
      var i' := LookupFound(m[1..], k);
      i := i' + 1;
    }
  }

  /** In a list without repeated keys, each entry is what its key looks up. */
  lemma {:induction false} LookupEntry<K, V>(m: seq<(K, V)>, i: nat)
    requires DistinctKeys(m) && i < |m|
    ensures Lookup(m, m[i].0) == Some(m[i].1)
  {
    if i > 0 {
      LookupEntry(m[1..], i - 1);
    }
  }

  /** In a list without repeated keys, the last key does not occur before it. */
  lemma LastKeyFresh<K, V>(m: seq<(K, V)>)
    requires DistinctKeys(m) && |m| > 0
    ensures m[|m| - 1].0 !in Keys(m[..|m| - 1])
  {
  }

  /** Every entry after `obj[k] = v` is `(k, v)` or an entry that was there before. */
  lemma {:induction false} PutEntries<K, V>(m: seq<(K, V)>, k: K, v: V, i: nat)
    requires i < |Put(m, k, v)|
    ensures Put(m, k, v)[i] == (k, v) || Put(m, k, v)[i] in m
  {
    if m != [] && m[0].0 != k && i > 0 {
      PutEntries(m[1..], k, v, i - 1);
    }
  }

  /** The keys of a non-empty map are those of all but its last entry, then the last key. */
  lemma KeysLast<K, V>(m: seq<(K, V)>)
    requires m != []
    ensures Keys(m) == Keys(m[..|m| - 1]) + [m[|m| - 1].0]
  {
    var a := Keys(m);
    var b := Keys(m[..|m| - 1]) + [m[|m| - 1].0];
    assert |a| == |b|;
    forall i | 0 <= i < |a|
      ensures a[i] == b[i]
    {
      if i < |m| - 1 {
        assert b[i] == Keys(m[..|m| - 1])[i];
      }
    }
  }
}
