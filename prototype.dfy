/**
  Property reads on the reconciler's plain objects as JavaScript performs
  them. `obj[k]` for a key that is not an own property of `obj` but names a
  member of `Object.prototype` yields that member (a function, or the
  prototype object itself for `__proto__`), not `undefined`. The model of
  the reconciler reads own properties only; this module states what the
  code does with the inherited names and where that departs from it.
*/
module Prototype {
  import opened Wrappers
  import opened Assoc
  import opened Paths
  import opened Text
  import opened Flattening
  import opened Missing
  import opened Order
  import opened Grouping

  /** The names every plain object inherits from `Object.prototype`. */
  const InheritedNames: set<string> := {
    "constructor", "__proto__", "hasOwnProperty", "isPrototypeOf", "propertyIsEnumerable",
    "toLocaleString", "toString", "valueOf",
    "__defineGetter__", "__defineSetter__", "__lookupGetter__", "__lookupSetter__"}

  /** What `obj[k]` yields: an own value, an inherited member, or `undefined`. */
  datatype Prop<V> = Own(value: V) | Inherited | Undefined

  function Read<V>(m: seq<(string, V)>, k: string): (r: Prop<V>)
    ensures r.Own? <==> k in Keys(m)
    ensures r.Own? ==> Lookup(m, k) == Some(r.value)
    ensures r.Inherited? <==> k !in Keys(m) && k in InheritedNames
  {
    match Lookup(m, k)
    case Some(v) => Own(v)
    case None => if k in InheritedNames then Inherited else Undefined
  }

  /**
    The filter test of `detectMissing` on what `this.tokens[k]` yields: an
    inherited member is a function, so neither `undefined`, `null` nor a
    string, and the key is not reported.
  */
  predicate BlankAsWritten(p: Prop<string>)
  {
    p.Undefined? || (p.Own? && AllWhitespace(p.value))
  }

  /** `detectMissing`'s filter as the code runs it. */
  function MissingKeysAsWritten(english: FlatMap, target: FlatMap): (r: seq<string>)
    ensures |r| <= |english|
    ensures forall i :: 0 <= i < |r| ==> BlankAsWritten(Read(target, r[i]))
  {
    if english == [] then []
    else
      var k := english[|english| - 1].0;
      MissingKeysAsWritten(english[..|english| - 1], target) + (if BlankAsWritten(Read(target, k)) then [k] else [])
  }

  /** Without inherited names among the English keys, the code computes `MissingKeys`. */
  lemma {:induction false} MissingAsWrittenAgrees(english: FlatMap, target: FlatMap)
    requires forall i :: 0 <= i < |english| ==> english[i].0 !in InheritedNames
    ensures MissingKeysAsWritten(english, target) == MissingKeys(english, target)
  {
    if english != [] {
      var init := english[..|english| - 1];
      assert forall i :: 0 <= i < |init| ==> init[i].0 == english[i].0;
      MissingAsWrittenAgrees(init, target);
      var k := english[|english| - 1].0;
      assert BlankAsWritten(Read(target, k)) == Blank(Lookup(target, k));
    }
  }

  /**
    An English key `constructor` that the target lacks: the code reads the
    inherited `Object` constructor and does not report the key; the model
    reports it.
  */
  lemma ConstructorKeyNotReported()
    ensures MissingKeysAsWritten([("constructor", "Constructor")], []) == []
    ensures MissingKeys([("constructor", "Constructor")], []) == ["constructor"]
  {
    assert Read<string>([], "constructor").Inherited?;
  }

  /**
    One pass of the grouping `forEach` as written: `if (!map[prefix])
    map[prefix] = []` and then `map[prefix].push(t)`. An own list is truthy
    even when empty; an inherited member is truthy as well, is left in
    place, and has no `push`, so the call throws (`None`).
  */
  function PushAsWritten(b: seq<(string, seq<string>)>, t: string): (r: Option<seq<(string, seq<string>)>>)
    ensures r.None? <==> Read(b, PrefixOf(t)).Inherited?
    ensures r.Some? ==> Keys(r.value) == if PrefixOf(t) in Keys(b) then Keys(b) else Keys(b) + [PrefixOf(t)]
    ensures r.Some? ==> var l := Lookup(r.value, PrefixOf(t)); l.Some? && l.value != [] && l.value[|l.value| - 1] == t
  {
    var p := PrefixOf(t);
    match Read(b, p)
    case Own(l) =>
      KeysPut(b, p, l + [t]);
      LookupPut(b, p, l + [t], p);
      Some(Put(b, p, l + [t]))
    case Inherited => None
    case Undefined =>
      KeysPut(b, p, []);
      KeysPut(Put(b, p, []), p, [t]);
      LookupPut(Put(b, p, []), p, [t], p);
      Some(Put(Put(b, p, []), p, [t]))
  }

  /**
    The whole `forEach` as written, `None` if some pass throws: it throws
    exactly when some token's prefix names an `Object.prototype` member.
  */
  function BucketsAsWritten(ts: seq<string>): (r: Option<seq<(string, seq<string>)>>)
    ensures r.None? <==> InheritedPrefix(ts)
    ensures r.Some? ==> forall k :: k in Keys(r.value) ==> k !in InheritedNames
  {
    if ts == [] then Some([])
    else
      var init, t := ts[..|ts| - 1], ts[|ts| - 1];
      InheritedPrefixLast(ts);
      match BucketsAsWritten(init)
      case None => None
      case Some(b) => PushAsWritten(b, t)
  }

  /** Some token of `ts` has a prefix that names an `Object.prototype` member. */
  predicate InheritedPrefix(ts: seq<string>)
  {
    exists i :: 0 <= i < |ts| && PrefixOf(ts[i]) in InheritedNames
  }

  lemma InheritedPrefixLast(ts: seq<string>)
    requires ts != []
    ensures InheritedPrefix(ts) <==> InheritedPrefix(ts[..|ts| - 1]) || PrefixOf(ts[|ts| - 1]) in InheritedNames
  {
    var init := ts[..|ts| - 1];
    if InheritedPrefix(init) {
      var i :| 0 <= i < |init| && PrefixOf(init[i]) in InheritedNames;
      assert ts[i] == init[i];
    }
    if InheritedPrefix(ts) {
      var i :| 0 <= i < |ts| && PrefixOf(ts[i]) in InheritedNames;
      if i < |init| {
        assert ts[i] == init[i];
      }
    }
  }

  /** Without inherited prefixes, the code's `forEach` builds the map the model's does. */
  lemma {:induction false} BucketsAsWrittenAgree(ts: seq<string>)
    requires forall i :: 0 <= i < |ts| ==> PrefixOf(ts[i]) !in InheritedNames
    ensures BucketsAsWritten(ts).Some? && BucketsFor(BucketsAsWritten(ts).value, ts)
  {
    if ts == [] {
      assert BucketsFor([], []);
    } else {
      var init := ts[..|ts| - 1];
      assert forall i :: 0 <= i < |init| ==> init[i] == ts[i];
      BucketsAsWrittenAgree(init);
      InitLast(ts);
      AsWrittenStep(init, ts[|ts| - 1], ts);
    }
  }

  lemma AsWrittenStep(init: seq<string>, t: string, ts: seq<string>)
    requires ts == init + [t] && PrefixOf(t) !in InheritedNames
    requires BucketsAsWritten(init).Some? && BucketsFor(BucketsAsWritten(init).value, init)
    ensures BucketsAsWritten(ts).Some? && BucketsFor(BucketsAsWritten(ts).value, ts)
  {
    InitOfSnoc(init, t);
    var b := BucketsAsWritten(init).value;
    var p := PrefixOf(t);
    var b1 := if Lookup(b, p).None? then Put(b, p, []) else b;
    LookupPut(b, p, [], p);
    var b2 := Put(b1, p, Lookup(b1, p).value + [t]);
    PushAsWrittenIsPush(b, b1, b2, t);
    PushStep(b, b1, b2, init, t);
  }

  /** For a prefix that is not inherited, a pass as written is the two-step push of `PushStep`. */
  lemma PushAsWrittenIsPush(b: seq<(string, seq<string>)>, b1: seq<(string, seq<string>)>, b2: seq<(string, seq<string>)>, t: string)
    requires PrefixOf(t) !in InheritedNames
    requires b1 == if Lookup(b, PrefixOf(t)).None? then Put(b, PrefixOf(t), []) else b
    requires Lookup(b1, PrefixOf(t)).Some?
    requires b2 == Put(b1, PrefixOf(t), Lookup(b1, PrefixOf(t)).value + [t])
    ensures PushAsWritten(b, t) == Some(b2)
  {
    var p := PrefixOf(t);
    if Lookup(b, p).None? {
      LookupPut(b, p, [], p);
      assert Read(b, p).Undefined? && Lookup(b1, p).value + [t] == [t];
    } else {
      assert Read(b, p) == Own(Lookup(b, p).value);
    }
  }

  lemma ConstructorPrefix()
    ensures PrefixOf("constructor.title") == "constructor"
  {
    assert DotFree("constructor");
    assert "constructor.title" == "constructor" + "." + "title";
    PrefixRule("constructor", "title");
  }

  /**
    A single token whose prefix names an inherited member: the code finds
    that member under `map[prefix]` and throws at `push`; the model groups
    the token under its prefix.
  */
  lemma InheritedPrefixThrows(t: string)
    requires PrefixOf(t) in InheritedNames
    ensures BucketsAsWritten([t]) == None
    ensures GroupsOf([t], map[]) == [Group(PrefixOf(t), [t], None)]
  {
    var ts := [t];
    assert ts[..0] == [];
    assert Read<seq<string>>([], PrefixOf(t)).Inherited?;
    SingleGroup(t);
  }

  /** One token forms one group. */
  lemma SingleGroup(t: string)
    ensures GroupsOf([t], map[]) == [Group(PrefixOf(t), [t], None)]
  {
    PrefixListLast([], t);
    SingleSort(PrefixOf(t));
    SingleBucket(t);
  }

  lemma SingleSort(p: string)
    ensures SortDistinct([p]) == [p]
  {
    assert [p][..0] == [];
  }

  lemma SingleBucket(t: string)
    ensures Bucket([t], PrefixOf(t)) == [t]
  {
    assert [t][..0] == [];
  }

  /** The token `constructor.title` makes the code throw; the model gives one group `constructor`. */
  lemma ConstructorPrefixThrows()
    ensures BucketsAsWritten(["constructor.title"]) == None
    ensures GroupsOf(["constructor.title"], map[]) == [Group("constructor", ["constructor.title"], None)]
  {
    var t := "constructor.title";
    ConstructorPrefix();
    assert "constructor" in InheritedNames;
    InheritedPrefixThrows(t);
  }
}
