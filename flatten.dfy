/** `flatten(obj, prefix)`: a nested JSON value to a dotted-path map of strings. */
module Flattening {
  import opened Wrappers
  import opened Assoc
  import opened Paths
  import opened JsonValue
  import opened Order

  /** The flattened form: dotted key to string, in insertion order. */
  type FlatMap = seq<(string, string)>

  /**
    A value that is falsy or not an object flattens to nothing; an object
    contributes its properties in order.
  */
  function Flatten(j: Json, prefix: string): (r: FlatMap)
    ensures DistinctKeys(r)
    ensures !j.Obj? ==> r == []
    decreases j, if j.Obj? then |j.fields| + 1 else 0
  {
    if !j.Obj? then [] else FlattenFields(j, prefix, |j.fields|)
  }

  /**
    The result after the loop over `Object.keys(obj)` has handled the first
    `n` properties: a nested object is flattened under the joined key and
    merged with `Object.assign`; any other value is stored as its text.
  */
  function FlattenFields(j: Json, prefix: string, n: nat): (r: FlatMap)
    requires j.Obj? && n <= |j.fields|
    ensures DistinctKeys(r)
    decreases j, n
  {
    if n == 0 then []
    else
      var res := FlattenFields(j, prefix, n - 1);
      var k := j.fields[n - 1].0;
      var val := j.fields[n - 1].1;
      var key := Key(prefix, k);
      if val.Obj? then
        var child := Flatten(val, key);
        MergeDistinct(res, child);
        Merge(res, child)
      else
        PutDistinct(res, key, Scalar(val));
        Put(res, key, Scalar(val))
  }

  /**
    What a key of the flattened map should hold: the leaf reached by the
    key's segments after those of the prefix.
  */
  function Expected(j: Json, s: seq<string>, ks: seq<string>): Option<string>
  {
    if ProperPrefix(s, ks) then LeafText(Get(j, ks[|s|..])) else None
  }

  /**
    For a canonical value, a key of `flatten(j, prefix)` is exactly the
    prefix's segments followed by the path of a non-object leaf, and holds
    that leaf's text.
  */
  lemma {:induction false} FlattenLookup(j: Json, prefix: string, key: string)
    requires Canonical(j)
    ensures Lookup(Flatten(j, prefix), key) == Expected(j, Seg(prefix), Split(key))
    decreases j, if j.Obj? then |j.fields| + 1 else 0
  {
    if j.Obj? {
      FieldsLookup(j, prefix, |j.fields|, key);
      assert j.fields[..|j.fields|] == j.fields;
    }
  }

  lemma {:induction false} FieldsLookup(j: Json, prefix: string, n: nat, key: string)
    requires j.Obj? && n <= |j.fields| && Canonical(j)
    ensures FieldsAgree(j, prefix, n, key)
    decreases j, n, 1
  {
    if n > 0 {
      FieldsStep(j, prefix, n, key);
    }
  }

  /** After the first `n` properties, `key` holds what the leaf at its segments stands for. */
  ghost predicate FieldsAgree(j: Json, prefix: string, n: nat, key: string)
    requires j.Obj? && n <= |j.fields|
  {
    Lookup(FlattenFields(j, prefix, n), key) == Expected(Obj(j.fields[..n]), Seg(prefix), Split(key))
  }

  /** The nested `flatten` of the `n`-th property, when it holds an object, agrees with its leaves. */
  ghost predicate ChildAgrees(j: Json, prefix: string, n: nat, key: string)
    requires j.Obj? && 0 < n <= |j.fields|
  {
    var (k, v) := j.fields[n - 1];
    v.Obj? ==> Lookup(Flatten(v, Key(prefix, k)), key) == Expected(v, Seg(Key(prefix, k)), Split(key))
  }

  /** The nested `flatten` of the `n`-th field, when that field holds an object. */
  lemma {:induction false} ChildLookup(j: Json, prefix: string, n: nat, key: string)
    requires j.Obj? && 0 < n <= |j.fields| && Canonical(j)
    ensures ChildAgrees(j, prefix, n, key)
    decreases j, 0
  {
    var v := j.fields[n - 1].1;
    if v.Obj? {
      assert Canonical(v);
      FlattenLookup(v, Key(prefix, j.fields[n - 1].0), key);
    }
  }

  /** One pass of the loop, from what the passes before it and the nested `flatten` hold. */
  lemma {:induction false} FieldsStep(j: Json, prefix: string, n: nat, key: string)
    requires j.Obj? && 0 < n <= |j.fields| && Canonical(j)
    ensures FieldsAgree(j, prefix, n, key)
    decreases j, n, 0
  {
    FieldsLookup(j, prefix, n - 1, key);
    ChildLookup(j, prefix, n, key);
    var f := j.fields;
    var k, v := f[n - 1].0, f[n - 1].1;
    assert k != "" && DotFree(k);
    FreshLast(f, n - 1);
    InitLast(f[..n]);
    assert f[..n][..n - 1] == f[..n - 1];
    var res := FlattenFields(j, prefix, n - 1);
    if v.Obj? {
      assert FlattenFields(j, prefix, n) == Merge(res, Flatten(v, Key(prefix, k)));
      ObjectPass(res, f[..n - 1], k, v, prefix, key);
    } else {
      assert FlattenFields(j, prefix, n) == Put(res, Key(prefix, k), Scalar(v));
      ScalarPass(res, f[..n - 1], k, v, prefix, key);
    }
  }

  /** The pass for a property holding an object: `Object.assign` of its flattened map. */
  lemma ObjectPass(res: FlatMap, g: seq<(string, Json)>, k: string, v: Json, prefix: string, key: string)
    requires v.Obj? && k != "" && DotFree(k) && k !in Keys(g)
    requires Lookup(res, key) == Expected(Obj(g), Seg(prefix), Split(key))
    requires Lookup(Flatten(v, Key(prefix, k)), key) == Expected(v, Seg(Key(prefix, k)), Split(key))
    ensures Lookup(Merge(res, Flatten(v, Key(prefix, k))), key) == Expected(Obj(g + [(k, v)]), Seg(prefix), Split(key))
  {
    SegKey(prefix, k);
    ObjectStep(res, Flatten(v, Key(prefix, k)), g, k, v, Seg(prefix), Split(key), key);
  }

  /** The pass for any other property: `res[key]` set to its text. */
  lemma ScalarPass(res: FlatMap, g: seq<(string, Json)>, k: string, v: Json, prefix: string, key: string)
    requires !v.Obj? && k != "" && DotFree(k) && k !in Keys(g)
    requires Lookup(res, key) == Expected(Obj(g), Seg(prefix), Split(key))
    ensures Lookup(Put(res, Key(prefix, k), Scalar(v)), key) == Expected(Obj(g + [(k, v)]), Seg(prefix), Split(key))
  {
    KeyIsSegments(prefix, k, key);
    ScalarStep(res, g, k, v, Seg(prefix), Split(key), key, Key(prefix, k));
  }

  /** In an object with distinct names, a property's name does not occur before it. */
  lemma FreshLast(f: seq<(string, Json)>, i: nat)
    requires DistinctKeys(f) && i < |f|
    ensures f[i].0 !in Keys(f[..i])
  {
    assert f[..i + 1][..i] == f[..i];
    assert DistinctKeys(f[..i + 1]);
    LastKeyFresh(f[..i + 1]);
  }

  /** The loop step for a property holding an object. */
  lemma ObjectStep(res: FlatMap, child: FlatMap, g: seq<(string, Json)>, k: string, v: Json,
                   s: seq<string>, ks: seq<string>, key: string)
    requires v.Obj? && k !in Keys(g) && DistinctKeys(child)
    requires Lookup(res, key) == Expected(Obj(g), s, ks)
    requires Lookup(child, key) == Expected(v, s + [k], ks)
    ensures Lookup(Merge(res, child), key) == Expected(Obj(g + [(k, v)]), s, ks)
  {
    LookupMerge(res, child, key);
    ExpectedStep(g, k, v, s, ks);
    if key in Keys(child) {
      assert ProperPrefix(s + [k], ks);
      PrefixStep(s, k, ks);
    }
  }

  /** A path strictly below `s + [k]` lies strictly below `s`, through `k`. */
  lemma PrefixStep(s: seq<string>, k: string, ks: seq<string>)
    requires ProperPrefix(s + [k], ks)
    ensures ProperPrefix(s, ks) && ks[|s|] == k && ks != s + [k]
  {
    assert ks[..|s|] == (ks[..|s + [k]|])[..|s|];
  }

  /** The loop step for a property holding anything but an object. */
  lemma ScalarStep(res: FlatMap, g: seq<(string, Json)>, k: string, v: Json,
                   s: seq<string>, ks: seq<string>, key: string, kp: string)
    requires !v.Obj? && k !in Keys(g)
    requires key == kp <==> ks == s + [k]
    requires Lookup(res, key) == Expected(Obj(g), s, ks)
    ensures Lookup(Put(res, kp, Scalar(v)), key) == Expected(Obj(g + [(k, v)]), s, ks)
  {
    LookupPut(res, kp, Scalar(v), key);
    ExpectedStep(g, k, v, s, ks);
  }

  /** The flattened key of property `k` is `key` exactly when `key`'s segments are the prefix's and `k`. */
  lemma KeyIsSegments(prefix: string, k: string, key: string)
    requires k != "" && DotFree(k)
    ensures key == Key(prefix, k) <==> Split(key) == Seg(prefix) + [k]
  {
    SegKey(prefix, k);
    if Split(key) == Seg(prefix) + [k] {
      SplitInjective(key, Key(prefix, k));
    }
  }

  /** How appending one property with a fresh name changes what a path reaches. */
  lemma GetAppend(g: seq<(string, Json)>, k: string, v: Json, q: seq<string>)
    requires k !in Keys(g) && q != []
    ensures Get(Obj(g + [(k, v)]), q) == if q[0] == k then Get(v, q[1..]) else Get(Obj(g), q)
    ensures q[0] == k ==> Get(Obj(g), q) == None
  {
    LookupAppend(g, k, v, q[0]);
  }

  /** How appending one property with a fresh name changes what the flattened map should hold. */
  lemma ExpectedStep(g: seq<(string, Json)>, k: string, v: Json, s: seq<string>, ks: seq<string>)
    requires k !in Keys(g)
    ensures Expected(Obj(g + [(k, v)]), s, ks) ==
      if ProperPrefix(s, ks) && ks[|s|] == k then
        (if ks == s + [k] then LeafText(Some(v)) else Expected(v, s + [k], ks))
      else Expected(Obj(g), s, ks)
    ensures ProperPrefix(s, ks) && ks[|s|] == k ==> Expected(Obj(g), s, ks) == None
  {
    if ProperPrefix(s, ks) {
      if ks[|s|] == k {
        ExpectedThrough(g, k, v, s, ks);
      } else {
        GetAppend(g, k, v, ks[|s|..]);
      }
    }
  }

  /** A path through the new property `k` reaches into its value, and reached nothing before. */
  lemma ExpectedThrough(g: seq<(string, Json)>, k: string, v: Json, s: seq<string>, ks: seq<string>)
    requires k !in Keys(g) && ProperPrefix(s, ks) && ks[|s|] == k
    ensures Expected(Obj(g + [(k, v)]), s, ks) ==
      if ks == s + [k] then LeafText(Some(v)) else Expected(v, s + [k], ks)
    ensures Expected(Obj(g), s, ks) == None
  {
    var q := ks[|s|..];
    GetAppend(g, k, v, q);
    if ks == s + [k] {
      assert q == [k];
    } else {
      assert ProperPrefix(s + [k], ks);
      assert q[1..] == ks[|s + [k]|..];
    }
  }

  /**
    A property holding anything but an object is stored under its joined key
    after the properties before it, so it overwrites an equal key they produced.
  */
  lemma LastScalarWins(j: Json, prefix: string, n: nat)
    requires j.Obj? && 0 < n <= |j.fields| && !j.fields[n - 1].1.Obj?
    ensures Lookup(FlattenFields(j, prefix, n), Key(prefix, j.fields[n - 1].0))
         == Some(Scalar(j.fields[n - 1].1))
  {
    var res := FlattenFields(j, prefix, n - 1);
    var key := Key(prefix, j.fields[n - 1].0);
    LookupPut(res, key, Scalar(j.fields[n - 1].1), key);
  }

  /**
    `null` is stored as the empty string, an empty nested object adds no key,
    and a nested `a.b` overwrites an earlier property literally named `a.b`
    in that property's place.
  */
  lemma FlattenExamples()
    ensures Flatten(Obj([("a", Null)]), "") == [("a", "")]
    ensures Flatten(Obj([("a", Obj([]))]), "") == []
    ensures Flatten(Obj([("a.b", Str("x")), ("a", Obj([("b", Str("y"))]))]), "") == [("a.b", "y")]
    ensures Flatten(Str("x"), "") == [] && Flatten(Null, "p") == []
  {
    var inner := Obj([("b", Str("y"))]);
    var j := Obj([("a.b", Str("x")), ("a", inner)]);
    assert Key("", "a") == "a" && Key("a", "b") == "a.b" && Key("", "a.b") == "a.b";
    assert FlattenFields(j, "", 1) == [("a.b", "x")];
    assert Flatten(inner, "a") == [("a.b", "y")] by {
      assert FlattenFields(inner, "a", 1) == [("a.b", "y")];
    }
    assert Merge([("a.b", "x")], [("a.b", "y")]) == [("a.b", "y")];
  }
}
