/** `unflattenToObject(map)`: a dotted-path map back to nested JSON. */
module Unflattening {
  import opened Wrappers
  import opened Assoc
  import opened Paths
  import opened JsonValue
  import opened Flattening

  /**
    One pass of the inner loop over `token.split('.')`: the value at path `p`
    of `j` set to `v`. On the way down, a position that holds no object
    (absent, `''`, any other string) is replaced by `{}`; a property that
    already exists keeps its place, a new one is appended.
  */
  function SetPath(j: Json, p: seq<string>, v: Json): (r: Json)
    ensures p != [] ==> r.Obj?
    decreases |p|
  {
    if p == [] then v
    else Obj(Put(Props(j), p[0], SetPath(Child(j, p[0]), p[1..], v)))
  }

  /** The properties of `j` when it is an object; anything else is replaced by `{}`. */
  function Props(j: Json): seq<(string, Json)>
  {
    if j.Obj? then j.fields else []
  }

  /** `cur[part]` on the way down, with an absent property read as a non-object. */
  function Child(j: Json, k: string): Json
  {
    match Lookup(Props(j), k) case Some(c) => c case None => Null
  }

  /** `out` after the `forEach` over `Object.keys(map)` has handled the first `n` tokens. */
  function UnflattenUpTo(m: FlatMap, n: nat): (r: Json)
    requires n <= |m|
    ensures r.Obj?
  {
    if n == 0 then Obj([])
    else SetPath(UnflattenUpTo(m, n - 1), Split(m[n - 1].0), Str(m[n - 1].1))
  }

  function Unflatten(m: FlatMap): (r: Json)
    ensures r.Obj?
  {
    UnflattenUpTo(m, |m|)
  }

  /** One more token is one more `SetPath`. */
  lemma UnflattenUpToNext(m: FlatMap, k: nat)
    requires k < |m|
    ensures UnflattenUpTo(m, k + 1) == SetPath(UnflattenUpTo(m, k), Split(m[k].0), Str(m[k].1))
  {
  }

  /** The loop of `unflattenToObject`, one token at a time. */
  method UnflattenToObject(m: FlatMap) returns (out: Json)
    ensures out == Unflatten(m)
  {
    out := Obj([]);
    var i := 0;
    while i < |m|
      invariant 0 <= i <= |m|
      invariant out == UnflattenUpTo(m, i)
    {
      var parts := Split(m[i].0);
      UnflattenUpToNext(m, i);
      out := SetPath(out, parts, Str(m[i].1));
      i := i + 1;
    }
  }

  /** One step down a path that was just set: the same child, or what was there before. */
  lemma GetSetPathHead(j: Json, p: seq<string>, v: Json, q: seq<string>)
    requires p != [] && q != []
    ensures q[0] == p[0] ==> Get(SetPath(j, p, v), q) == Get(SetPath(Child(j, p[0]), p[1..], v), q[1..])
    ensures q[0] != p[0] ==> Get(SetPath(j, p, v), q) == Get(j, q)
  {
    LookupPut(Props(j), p[0], SetPath(Child(j, p[0]), p[1..], v), q[0]);
  }

  /** The path just set reaches the new value. */
  lemma {:induction false} GetSetPathAt(j: Json, p: seq<string>, v: Json)
    ensures Get(SetPath(j, p, v), p) == Some(v)
    decreases |p|
  {
    if p != [] {
      GetSetPathHead(j, p, v, p);
      GetSetPathAt(Child(j, p[0]), p[1..], v);
    }
  }

  /** Every position above the path just set holds an object. */
  lemma {:induction false} GetSetPathAbove(j: Json, p: seq<string>, v: Json, q: seq<string>)
    requires ProperPrefix(q, p)
    ensures Get(SetPath(j, p, v), q).Some? && Get(SetPath(j, p, v), q).value.Obj?
    decreases |p|
  {
    if q != [] {
      assert q[0] == p[0] by { assert p[..|q|][0] == p[0]; }
      GetSetPathHead(j, p, v, q);
      SameHead(q, p);
      GetSetPathAbove(Child(j, p[0]), p[1..], v, q[1..]);
    }
  }

  /** Below the path just set lies the inside of the new value. */
  lemma {:induction false} GetSetPathBelow(j: Json, p: seq<string>, v: Json, q: seq<string>)
    requires ProperPrefix(p, q)
    ensures Get(SetPath(j, p, v), q) == Get(v, q[|p|..])
    decreases |p|
  {
    if p != [] {
      assert q[0] == p[0] by { assert q[..|p|][0] == q[0]; }
      GetSetPathHead(j, p, v, q);
      SameHead(p, q);
      GetSetPathBelow(Child(j, p[0]), p[1..], v, q[1..]);
      assert q[|p|..] == q[1..][|p[1..]|..];
    }
  }

  /** A path that neither is, nor lies above or below, the path just set reaches what it did. */
  lemma {:induction false} GetSetPathAside(j: Json, p: seq<string>, v: Json, q: seq<string>)
    requires q != p && !ProperPrefix(q, p) && !ProperPrefix(p, q)
    ensures Get(SetPath(j, p, v), q) == Get(j, q)
    decreases |p|
  {
    assert p != [] && q != [];
    GetSetPathHead(j, p, v, q);
    if q[0] == p[0] {
      SameHead(q, p);
      SameHead(p, q);
      GetSetPathAside(Child(j, p[0]), p[1..], v, q[1..]);
      assert Get(j, q) == Get(Child(j, p[0]), q[1..]);
    }
  }

  /** With equal first segments, being a proper prefix is decided by the rest. */
  lemma SameHead(p: seq<string>, q: seq<string>)
    requires p != [] && q != [] && p[0] == q[0]
    ensures ProperPrefix(p, q) <==> ProperPrefix(p[1..], q[1..])
  {
    if ProperPrefix(p[1..], q[1..]) {
      assert q[..|p|] == [q[0]] + q[1..][..|p[1..]|];
      assert p == [p[0]] + p[1..];
    }
    if ProperPrefix(p, q) {
      assert q[1..][..|p[1..]|] == q[..|p|][1..];
    }
  }

  /** Segments fit to be property names of a canonical object. */
  predicate PathNames(p: seq<string>)
  {
    forall i :: 0 <= i < |p| ==> p[i] != "" && DotFree(p[i])
  }

  lemma {:induction false} SetPathCanonical(j: Json, t: Json, p: seq<string>, v: Json)
    requires Canonical(j) && Canonical(v) && PathNames(p)
    requires t == SetPath(j, p, v)
    ensures Canonical(t)
    decreases |p|
  {
    if p != [] {
      var base := Props(j);
      var child := Child(j, p[0]);
      if Lookup(base, p[0]).Some? {
        var i := LookupFound(base, p[0]);
      }
      assert Canonical(child);
      var c' := SetPath(child, p[1..], v);
      SetPathCanonical(child, c', p[1..], v);
      var fs := Put(base, p[0], c');
      PutDistinct(base, p[0], c');
      forall i | 0 <= i < |fs|
        ensures fs[i].0 != "" && DotFree(fs[i].0) && Canonical(fs[i].1)
      {
        PutEntries(base, p[0], c', i);
        if fs[i] != (p[0], c') {
          var k :| 0 <= k < |base| && base[k] == fs[i];
        }
      }
    }
  }

  /** The segment lists of the keys of `m`, in key order. */
  function SplitKeys(m: FlatMap): (r: seq<seq<string>>)
    ensures |r| == |m|
  {
    seq(|m|, i requires 0 <= i < |m| => Split(m[i].0))
  }

  /** Every path has non-empty segments and none is a proper prefix of another. */
  predicate PrefixFree(ps: seq<seq<string>>)
  {
    && (forall i :: 0 <= i < |ps| ==> NonEmptySegments(ps[i]))
    && (forall i, j :: 0 <= i < |ps| && 0 <= j < |ps| ==> !ProperPrefix(ps[i], ps[j]))
  }

  /**
    The maps that survive a round trip: distinct keys (an object's keys),
    every key a `.`-join of non-empty segments, and no key's segments a
    proper prefix of another key's.
  */
  predicate RoundTripSafe(m: FlatMap)
  {
    DistinctKeys(m) && PrefixFree(SplitKeys(m))
  }

  /** Every object `unflattenToObject` builds from a round-trip-safe map is canonical. */
  lemma {:induction false} UnflattenUpToCanonical(m: FlatMap, n: nat)
    requires RoundTripSafe(m) && n <= |m|
    ensures Canonical(UnflattenUpTo(m, n))
  {
    if n > 0 {
      var k := n - 1;
      UnflattenUpToCanonical(m, k);
      CanonicalStep(m, k);
    }
  }

  lemma CanonicalStep(m: FlatMap, k: nat)
    requires RoundTripSafe(m) && k < |m|
    requires Canonical(UnflattenUpTo(m, k))
    ensures Canonical(UnflattenUpTo(m, k + 1))
  {
    SafeKeyNames(m, k);
    UnflattenUpToNext(m, k);
    SetPathCanonical(UnflattenUpTo(m, k), UnflattenUpTo(m, k + 1), Split(m[k].0), Str(m[k].1));
  }

  /** The segments of a key of a round-trip-safe map are fit to be property names. */
  lemma SafeKeyNames(m: FlatMap, k: nat)
    requires RoundTripSafe(m) && k < |m|
    ensures PathNames(Split(m[k].0))
  {
    assert SplitKeys(m)[k] == Split(m[k].0);
  }

  /** The first `n` keys of `m` reach their values, as strings, in `t`. */
  predicate ReachesFirst(t: Json, m: FlatMap, n: nat)
    requires n <= |m|
  {
    forall i :: 0 <= i < n ==> Get(t, Split(m[i].0)) == Some(Str(m[i].1))
  }

  /** After `n` tokens, each handled key's segments reach its value as a string. */
  lemma {:induction false} UnflattenUpToReaches(m: FlatMap, n: nat)
    requires RoundTripSafe(m) && n <= |m|
    ensures ReachesFirst(UnflattenUpTo(m, n), m, n)
  {
    if n > 0 {
      var k := n - 1;
      UnflattenUpToReaches(m, k);
      ReachStep(UnflattenUpTo(m, k), UnflattenUpTo(m, n), m, k);
    }
  }

  /** Handling the `n`-th token keeps the earlier keys reachable and makes its own reachable. */
  lemma ReachStep(prev: Json, t: Json, m: FlatMap, k: nat)
    requires RoundTripSafe(m) && k < |m|
    requires ReachesFirst(prev, m, k)
    requires t == SetPath(prev, Split(m[k].0), Str(m[k].1))
    ensures ReachesFirst(t, m, k + 1)
  {
    var p := Split(m[k].0);
    var v := Str(m[k].1);
    forall i | 0 <= i <= k ensures Get(SetPath(prev, p, v), Split(m[i].0)) == Some(Str(m[i].1)) {
      var q := Split(m[i].0);
      if i < k {
        if q == p {
          SplitInjective(m[i].0, m[k].0);
        }
        assert SplitKeys(m)[i] == q && SplitKeys(m)[k] == p;
      }
      KeepOrSet(prev, p, v, q, Str(m[i].1));
    }
  }

  /** A path that is `p` now reaches the new value; a path unrelated to `p` reaches what it did. */
  lemma KeepOrSet(j: Json, p: seq<string>, v: Json, q: seq<string>, w: Json)
    requires q == p ==> w == v
    requires q != p ==> !ProperPrefix(q, p) && !ProperPrefix(p, q) && Get(j, q) == Some(w)
    ensures Get(SetPath(j, p, v), q) == Some(w)
  {
    if q == p {
      GetSetPathAt(j, p, v);
    } else {
      GetSetPathAside(j, p, v, q);
    }
  }

  /** After setting a string at `p`, a leaf is at `p` or was a leaf before. */
  lemma LeafStep(j: Json, t: Json, p: seq<string>, s: string, q: seq<string>)
    requires t == SetPath(j, p, Str(s))
    requires LeafText(Get(t, q)).Some?
    ensures q == p || LeafText(Get(j, q)).Some?
  {
    if q != p {
      if ProperPrefix(q, p) {
        GetSetPathAbove(j, p, Str(s), q);
      } else if ProperPrefix(p, q) {
        GetSetPathBelow(j, p, Str(s), q);
      } else {
        GetSetPathAside(j, p, Str(s), q);
      }
    }
  }

  /** After `n` tokens, every leaf sits at the segments of a handled key. */
  lemma {:induction false} UnflattenUpToLeaves(m: FlatMap, n: nat, q: seq<string>) returns (i: nat)
    requires n <= |m|
    requires LeafText(Get(UnflattenUpTo(m, n), q)).Some?
    ensures i < n && Split(m[i].0) == q
  {
    if n == 0 {
      assert false;
    } else {
      var k := n - 1;
      LeafStep(UnflattenUpTo(m, k), UnflattenUpTo(m, n), Split(m[k].0), m[k].1, q);
      if q == Split(m[k].0) {
        i := k;
      } else {
        i := UnflattenUpToLeaves(m, k, q);
      }
    }
  }

  /**
    For a round-trip-safe map, following a key's segments in the unflattened
    object reaches exactly that key's value, as a string.
  */
  lemma UnflattenReaches(m: FlatMap, key: string)
    requires RoundTripSafe(m) && key in Keys(m)
    ensures Get(Unflatten(m), Split(key)) == Some(Str(Lookup(m, key).value))
  {
    UnflattenUpToReaches(m, |m|);
    var i := LookupFound(m, key);
    assert Get(Unflatten(m), Split(m[i].0)) == Some(Str(m[i].1));
  }

  /**
    Round trip: flattening the unflattened object gives back every key with
    its value and no other key.
  */
  lemma RoundTrip(m: FlatMap, key: string)
    requires RoundTripSafe(m)
    ensures Lookup(Flatten(Unflatten(m), ""), key) == Lookup(m, key)
  {
    UnflattenUpToCanonical(m, |m|);
    UnflattenUpToReaches(m, |m|);
    var u := Unflatten(m);
    var ks := Split(key);
    FlattenLookup(u, "", key);
    assert ks[|Seg("")|..] == ks;
    if key in Keys(m) {
      var i := LookupFound(m, key);
    } else if LeafText(Get(u, ks)).Some? {
      var i := UnflattenUpToLeaves(m, |m|, ks);
      SplitInjective(m[i].0, key);
      assert false;
    }
  }

  /** A string at an intermediate position, even `''`, is replaced by `{}`. */
  lemma UnflattenOverwrites(a: string, b: string, x: string)
    requires a != "" && DotFree(a) && b != "" && DotFree(b)
    ensures Unflatten([(a, ""), (a + "." + b, x)]) == Obj([(a, Obj([(b, Str(x))]))])
  {
    SplitDotFree(a);
    SplitDotFree(b);
    SplitConcat(a, b);
    var m := [(a, ""), (a + "." + b, x)];
    SetPathOne(Obj([]), a, Str(""));
    assert UnflattenUpTo(m, 1) == Obj([(a, Str(""))]);
    SetPathOne(Str(""), b, Str(x));
    assert [a, b][1..] == [b];
  }

  /**
    Keys are re-grouped under their first segment, so flattening the result
    gives back the same entries in another order than the map had.
  */
  lemma UnflattenRegroups(a: string, b: string, x: string, y: string, u: string, v: string, w: string)
    requires a != "" && DotFree(a) && b != "" && DotFree(b) && a != b
    requires x != "" && DotFree(x) && y != "" && DotFree(y) && x != y
    ensures Unflatten([(a + "." + x, u), (b, v), (a + "." + y, w)])
         == Obj([(a, Obj([(x, Str(u)), (y, Str(w))])), (b, Str(v))])
  {
    var m := [(a + "." + x, u), (b, v), (a + "." + y, w)];
    var ax := Obj([(x, Str(u))]);
    var t2 := Obj([(a, ax), (b, Str(v))]);
    RegroupsFirstTwo(m, a, b, x, u, v);
    SplitPair(a, y);
    UnflattenUpToNext(m, 2);
    SetPathPair(t2, a, y, Str(w));
    SetPathOne(ax, y, Str(w));
    assert Put([(x, Str(u))], y, Str(w)) == [(x, Str(u)), (y, Str(w))];
  }

  lemma RegroupsFirstTwo(m: FlatMap, a: string, b: string, x: string, u: string, v: string)
    requires a != "" && DotFree(a) && b != "" && DotFree(b) && a != b && DotFree(x)
    requires |m| == 3 && m[0] == (a + "." + x, u) && m[1] == (b, v)
    ensures UnflattenUpTo(m, 2) == Obj([(a, Obj([(x, Str(u))])), (b, Str(v))])
  {
    var t1 := Obj([(a, Obj([(x, Str(u))]))]);
    SplitPair(a, x);
    SplitDotFree(b);
    UnflattenUpToNext(m, 0);
    UnflattenUpToNext(m, 1);
    SetPathPair(Obj([]), a, x, Str(u));
    SetPathOne(Null, x, Str(u));
    assert UnflattenUpTo(m, 1) == t1;
    SetPathOne(t1, b, Str(v));
  }

  /** The segments of `a.x` for two dot-free names. */
  lemma SplitPair(a: string, x: string)
    requires DotFree(a) && DotFree(x)
    ensures Split(a + "." + x) == [a, x]
  {
    SplitDotFree(a);
    SplitDotFree(x);
    SplitConcat(a, x);
  }

  /** Setting a two-segment path sets one segment inside the first. */
  lemma SetPathPair(j: Json, a: string, x: string, v: Json)
    ensures SetPath(j, [a, x], v) == Obj(Put(Props(j), a, SetPath(Child(j, a), [x], v)))
  {
    assert [a, x][1..] == [x];
  }


  lemma SetPathOne(j: Json, k: string, v: Json)
    ensures SetPath(j, [k], v) == Obj(Put(Props(j), k, v))
  {
    assert [k][1..] == [];
  }
}
