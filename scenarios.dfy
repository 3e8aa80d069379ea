/**
  The fixture of `token-editor.component.spec.ts` run through the model:
  six English tokens `groupA.token1` … `groupC.token2`, and a target that
  translates `groupB.token1`, `groupC.token1` and `groupC.token2`.
*/
module Scenarios {
  import opened Wrappers
  import opened Assoc
  import opened Paths
  import opened Order
  import opened Flattening
  import opened Missing
  import opened Grouping
  import opened Editor
  import opened Text

  /** `group<g>`, the prefix of the fixture's tokens. */
  function GroupName(g: char): string
  {
    "group" + [g]
  }

  /** `group<g>.token<n>`. */
  function Tok(g: char, n: char): (t: string)
    ensures t == GroupName(g) + "." + "token" + [n]
  {
    Key(GroupName(g), "token" + [n])
  }

  /** A shared prefix does not change the order of two strings. */
  lemma {:induction false} BelowShared(p: string, a: string, b: string)
    ensures Below(p + a, p + b) <==> Below(a, b)
  {
    if p != [] {
      assert (p + a)[0] == p[0] == (p + b)[0];
      assert (p + a)[1..] == p[1..] + a && (p + b)[1..] == p[1..] + b;
      BelowShared(p[1..], a, b);
    } else {
      assert p + a == a && p + b == b;
    }
  }

  lemma TokBelow(g: char, n: char, h: char, m: char)
    requires g < h || (g == h && n < m)
    ensures Below(Tok(g, n), Tok(h, m))
  {
    if g < h {
      assert Tok(g, n) == "group" + ([g] + ".token" + [n]);
      assert Tok(h, m) == "group" + ([h] + ".token" + [m]);
      BelowShared("group", [g] + ".token" + [n], [h] + ".token" + [m]);
    } else {
      assert Tok(g, n) == ("group" + [g] + ".token") + [n];
      assert Tok(h, m) == ("group" + [g] + ".token") + [m];
      BelowShared("group" + [g] + ".token", [n], [m]);
    }
  }

  lemma TokPrefix(g: char, n: char)
    requires 'A' <= g <= 'Z'
    ensures PrefixOf(Tok(g, n)) == GroupName(g)
  {
    assert DotFree(GroupName(g)) by {
      assert forall i :: 0 <= i < |GroupName(g)| ==> GroupName(g)[i] != '.';
    }
    PrefixRule(GroupName(g), "token" + [n]);
  }

  lemma TokDistinct(g: char, n: char, h: char, m: char)
    requires g != h || n != m
    ensures Tok(g, n) != Tok(h, m)
  {
    assert Tok(g, n)[5] == g && Tok(h, m)[5] == h;
    assert Tok(g, n)[12] == n && Tok(h, m)[12] == m;
  }

  lemma GroupBelow(g: char, h: char)
    requires g < h
    ensures Below(GroupName(g), GroupName(h))
  {
    BelowShared("group", [g], [h]);
  }


  /** The English map of the test over six keys, each with a one-word text. */
  function EnglishOf(ks: seq<string>): FlatMap
    requires |ks| == 6
  {
    [(ks[0], "A1"), (ks[1], "A2"), (ks[2], "B1"), (ks[3], "B2"), (ks[4], "C1"), (ks[5], "C2")]
  }

  /** The target map of the test: the third, fifth and sixth keys translated. */
  function TargetOf(ks: seq<string>): FlatMap
    requires |ks| == 6
  {
    [(ks[2], "B1-Trans"), (ks[4], "C1-Trans"), (ks[5], "C2-Trans")]
  }

  lemma FixtureMaps(ks: seq<string>)
    requires |ks| == 6 && NoDuplicates(ks)
    ensures Keys(EnglishOf(ks)) == ks && Keys(TargetOf(ks)) == [ks[2], ks[4], ks[5]]
    ensures DistinctKeys(EnglishOf(ks)) && DistinctKeys(TargetOf(ks))
  {
    assert forall i :: 0 <= i < 6 ==> EnglishOf(ks)[i].0 == ks[i];
  }

  /** Both maps together hold the six English keys; sorted, they are the keys themselves. */
  lemma UnionOf(ks: seq<string>)
    requires |ks| == 6 && StrictlySorted(ks)
    ensures UnionKeys(EnglishOf(ks), TargetOf(ks)) == ks
  {
    SortedNoDuplicates(ks);
    FixtureMaps(ks);
    SortedUnique(UnionKeys(EnglishOf(ks), TargetOf(ks)), ks);
  }

  /** A value that starts with a visible character is a translation. */
  lemma Translated(s: string)
    requires s != "" && !IsJsWhitespace(s[0])
    ensures !Blank(Some(s))
  {
  }

  lemma TargetBlanks(ks: seq<string>)
    requires |ks| == 6 && NoDuplicates(ks)
    ensures Blank(Lookup(TargetOf(ks), ks[0])) && Blank(Lookup(TargetOf(ks), ks[1])) && Blank(Lookup(TargetOf(ks), ks[3]))
    ensures !Blank(Lookup(TargetOf(ks), ks[2])) && !Blank(Lookup(TargetOf(ks), ks[4])) && !Blank(Lookup(TargetOf(ks), ks[5]))
  {
    var t := TargetOf(ks);
    FixtureMaps(ks);
    LookupEntry(t, 0);
    LookupEntry(t, 1);
    LookupEntry(t, 2);
    Translated("B1-Trans");
    Translated("C1-Trans");
    Translated("C2-Trans");
  }

  /** Which of six keys `MissingKeys` reports follows from which of them are blank. */
  lemma MissingOfSix(e: FlatMap, t: FlatMap, ks: seq<string>, x: string)
    requires |ks| == 6 && Keys(e) == ks
    requires Blank(Lookup(t, ks[0])) && Blank(Lookup(t, ks[1])) && Blank(Lookup(t, ks[3]))
    requires !Blank(Lookup(t, ks[2])) && !Blank(Lookup(t, ks[4])) && !Blank(Lookup(t, ks[5]))
    ensures x in MissingKeys(e, t) <==> x in [ks[0], ks[1], ks[3]]
  {
    MissingIff(e, t, x);
    SixMembers(ks, x);
  }

  lemma SixMembers<T>(ks: seq<T>, x: T)
    requires |ks| == 6
    ensures x in ks <==> x == ks[0] || x == ks[1] || x == ks[2] || x == ks[3] || x == ks[4] || x == ks[5]
  {
    assert ks == [ks[0], ks[1], ks[2], ks[3], ks[4], ks[5]];
  }

  /** Group A is untranslated and so is the second key of group B. */
  lemma MissingOf(ks: seq<string>)
    requires |ks| == 6 && StrictlySorted(ks)
    ensures MissingKeys(EnglishOf(ks), TargetOf(ks)) == [ks[0], ks[1], ks[3]]
  {
    var e := EnglishOf(ks);
    var t := TargetOf(ks);
    var missing := MissingKeys(e, t);
    SortedNoDuplicates(ks);
    FixtureMaps(ks);
    TargetBlanks(ks);
    MissingInOrder(e, t);
    SubsequenceSorted(missing, ks);
    var expected := [ks[0], ks[1], ks[3]];
    assert StrictlySorted(expected);
    forall x ensures x in Elems(missing) <==> x in Elems(expected) {
      MissingOfSix(e, t, ks, x);
    }
    SortedUnique(missing, expected);
  }

  /** A sorted `expected` holding exactly the tokens of the sorted `ts` with prefix `p` is their bucket. */
  lemma BucketIs(ts: seq<string>, p: string, expected: seq<string>)
    requires StrictlySorted(ts) && StrictlySorted(expected)
    requires forall x :: x in expected <==> x in ts && PrefixOf(x) == p
    ensures Bucket(ts, p) == expected
  {
    var b := Bucket(ts, p);
    BucketInOrder(ts, p);
    SubsequenceSorted(b, ts);
    forall x ensures x in Elems(b) <==> x in Elems(expected) {
      BucketMembers(ts, p, x);
    }
    SortedUnique(b, expected);
  }

  /** Six sorted tokens, two to each of three sorted prefixes. */
  predicate TwoEach(ks: seq<string>, ps: seq<string>)
  {
    && |ks| == 6 && |ps| == 3 && StrictlySorted(ks) && StrictlySorted(ps)
    && PrefixOf(ks[0]) == ps[0] && PrefixOf(ks[1]) == ps[0]
    && PrefixOf(ks[2]) == ps[1] && PrefixOf(ks[3]) == ps[1]
    && PrefixOf(ks[4]) == ps[2] && PrefixOf(ks[5]) == ps[2]
  }

  lemma TwoEachBucket(ks: seq<string>, ps: seq<string>, i: nat)
    requires TwoEach(ks, ps) && i < 3
    ensures Bucket(ks, ps[i]) == [ks[2 * i], ks[2 * i + 1]]
  {
    forall x ensures x in [ks[2 * i], ks[2 * i + 1]] <==> x in ks && PrefixOf(x) == ps[i] {
      TwoEachMember(ks, ps, i, x);
    }
    BucketIs(ks, ps[i], [ks[2 * i], ks[2 * i + 1]]);
  }

  lemma TwoEachMember(ks: seq<string>, ps: seq<string>, i: nat, x: string)
    requires TwoEach(ks, ps) && i < 3
    ensures x in [ks[2 * i], ks[2 * i + 1]] <==> x in ks && PrefixOf(x) == ps[i]
  {
    assert ks == [ks[0], ks[1], ks[2], ks[3], ks[4], ks[5]];
    SortedNoDuplicates(ps);
  }

  lemma TwoEachPrefixes(ks: seq<string>, ps: seq<string>)
    requires TwoEach(ks, ps)
    ensures SortDistinct(PrefixList(ks)) == ps
  {
    assert ks == [ks[0], ks[1], ks[2], ks[3], ks[4], ks[5]];
    assert ps == [ps[0], ps[1], ps[2]];
    assert Elems(PrefixList(ks)) == Elems(ps);
    SortedUnique(SortDistinct(PrefixList(ks)), ps);
  }

  lemma TwoEachGroups(ks: seq<string>, ps: seq<string>)
    requires TwoEach(ks, ps)
    ensures GroupsOf(ks, map[]) == [
      Group(ps[0], [ks[0], ks[1]], None), Group(ps[1], [ks[2], ks[3]], None), Group(ps[2], [ks[4], ks[5]], None)]
  {
    TwoEachPrefixes(ks, ps);
    TwoEachBucket(ks, ps, 0);
    TwoEachBucket(ks, ps, 1);
    TwoEachBucket(ks, ps, 2);
    ThreeGroups(ks, ps[0], ps[1], ps[2], [ks[0], ks[1]], [ks[2], ks[3]], [ks[4], ks[5]]);
  }

  lemma MissingPrefixes(ks: seq<string>, ps: seq<string>)
    requires TwoEach(ks, ps)
    ensures SortDistinct(PrefixList([ks[0], ks[1], ks[3]])) == [ps[0], ps[1]]
  {
    var ts := [ks[0], ks[1], ks[3]];
    assert PrefixList(ts) == [ps[0], ps[0], ps[1]];
    assert Elems(PrefixList(ts)) == Elems([ps[0], ps[1]]);
    SortedUnique(SortDistinct(PrefixList(ts)), [ps[0], ps[1]]);
  }

  lemma MissingBuckets(ks: seq<string>, ps: seq<string>)
    requires TwoEach(ks, ps)
    ensures Bucket([ks[0], ks[1], ks[3]], ps[0]) == [ks[0], ks[1]]
    ensures Bucket([ks[0], ks[1], ks[3]], ps[1]) == [ks[3]]
  {
    var ts := [ks[0], ks[1], ks[3]];
    SortedNoDuplicates(ps);
    assert StrictlySorted(ts);
    BucketIs(ts, ps[0], [ks[0], ks[1]]);
    BucketIs(ts, ps[1], [ks[3]]);
  }

  /** Only the missing tokens `ks[0]`, `ks[1]` and `ks[3]`: two groups remain. */
  lemma TwoEachMissingGroups(ks: seq<string>, ps: seq<string>)
    requires TwoEach(ks, ps)
    ensures GroupsOf([ks[0], ks[1], ks[3]], map[]) == [Group(ps[0], [ks[0], ks[1]], None), Group(ps[1], [ks[3]], None)]
  {
    MissingPrefixes(ks, ps);
    MissingBuckets(ks, ps);
    TwoGroups([ks[0], ks[1], ks[3]], ps[0], ps[1], [ks[0], ks[1]], [ks[3]]);
  }

  /** Groups without pictures from the sorted prefixes and the buckets. */
  lemma TwoGroups(ts: seq<string>, p0: string, p1: string, b0: seq<string>, b1: seq<string>)
    requires SortDistinct(PrefixList(ts)) == [p0, p1]
    requires Bucket(ts, p0) == b0 && Bucket(ts, p1) == b1
    ensures GroupsOf(ts, map[]) == [Group(p0, b0, None), Group(p1, b1, None)]
  {
    var gs := GroupsOf(ts, map[]);
    assert gs[0] == GroupFor(ts, map[], p0) && gs[1] == GroupFor(ts, map[], p1);
  }

  lemma ThreeGroups(ts: seq<string>, p0: string, p1: string, p2: string, b0: seq<string>, b1: seq<string>, b2: seq<string>)
    requires SortDistinct(PrefixList(ts)) == [p0, p1, p2]
    requires Bucket(ts, p0) == b0 && Bucket(ts, p1) == b1 && Bucket(ts, p2) == b2
    ensures GroupsOf(ts, map[]) == [Group(p0, b0, None), Group(p1, b1, None), Group(p2, b2, None)]
  {
    var gs := GroupsOf(ts, map[]);
    assert gs[0] == GroupFor(ts, map[], p0) && gs[1] == GroupFor(ts, map[], p1) && gs[2] == GroupFor(ts, map[], p2);
  }

  /** A new editor given both maps, then `detectMissing()` with the filter off. */
  method LoadAndDetect(english: FlatMap, target: FlatMap) returns (c: TokenEditor)
    requires DistinctKeys(english) && DistinctKeys(target)
    ensures fresh(c) && c.Valid() && !c.showOnlyMissing && c.tokenPictures == map[]
    ensures c.englishTokens == english && c.tokens == target
    ensures c.missingTokens == MissingKeys(english, target)
    ensures c.lastComputedVersion == c.tokensVersion
    ensures c.tokenGroups == GroupsOf(UnionKeys(english, target), map[])
  {
    c := Loaded(english, target);
    c.DetectMissing();
  }

  /** A new editor whose two maps have been assigned, before any call. */
  method Loaded(english: FlatMap, target: FlatMap) returns (c: TokenEditor)
    requires DistinctKeys(english) && DistinctKeys(target)
    ensures fresh(c) && c.Valid() && !c.showOnlyMissing && c.tokenPictures == map[]
    ensures c.englishTokens == english && c.tokens == target
  {
    c := new TokenEditor();
    c.englishTokens := english;
    c.tokens := target;
  }

  /**
    The call order of the test on any two maps: `detectMissing()`, then
    `onShowOnlyMissingChange(true)`. The toggle does not change the version,
    so the groups stay those of the union view, while the list the view now
    shows is the missing keys.
  */
  method DetectThenFilter(english: FlatMap, target: FlatMap) returns (groups: seq<Group>, shown: seq<string>)
    requires DistinctKeys(english) && DistinctKeys(target)
    ensures groups == GroupsOf(UnionKeys(english, target), map[])
    ensures shown == MissingKeys(english, target)
  {
    var c := LoadAndDetect(english, target);
    c.OnShowOnlyMissingChange(true);
    groups := c.tokenGroups;
    shown := c.GetTokensToShow();
  }

  /** A new editor whose first call is `onShowOnlyMissingChange(true)`: it groups the empty list. */
  method FilterOnNew() returns (c: TokenEditor)
    ensures fresh(c) && c.Valid() && c.showOnlyMissing && c.tokenPictures == map[]
    ensures c.lastComputedVersion == c.tokensVersion == 0 && c.tokenGroups == []
  {
    c := new TokenEditor();
    c.OnShowOnlyMissingChange(true);
    assert c.TokensToShow() == [];
  }

  /**
    The filter set before the data arrives: the first `computeGroups` runs
    on the empty missing list and uses up version 0, and `detectMissing`
    then groups the missing keys.
  */
  method FilterThenDetect(english: FlatMap, target: FlatMap) returns (groups: seq<Group>)
    requires DistinctKeys(english) && DistinctKeys(target)
    ensures groups == GroupsOf(MissingKeys(english, target), map[])
  {
    var c := FilterThenLoad(english, target);
    c.DetectMissing();
    assert c.TokensToShow() == c.missingTokens;
    groups := c.tokenGroups;
  }

  /** The filter set on a new editor, then both maps assigned. */
  method FilterThenLoad(english: FlatMap, target: FlatMap) returns (c: TokenEditor)
    requires DistinctKeys(english) && DistinctKeys(target)
    ensures fresh(c) && c.Valid() && c.showOnlyMissing && c.tokenPictures == map[]
    ensures c.englishTokens == english && c.tokens == target
  {
    c := FilterOnNew();
    c.englishTokens := english;
    c.tokens := target;
  }

  /**
    A picture attached after the groups were built does not reach them
    until the version changes, since `attachPicture` does not bump it.
  */
  method PictureAfterDetect(english: FlatMap, target: FlatMap, prefix: string, data: string)
    returns (groups: seq<Group>, pictures: map<string, string>)
    requires DistinctKeys(english) && DistinctKeys(target)
    ensures pictures == map[prefix := data]
    ensures groups == GroupsOf(UnionKeys(english, target), map[])
  {
    var c := LoadAndDetect(english, target);
    c.AttachPicture(prefix, data);
    c.OnShowOnlyMissingChange(false);
    groups := c.tokenGroups;
    pictures := c.tokenPictures;
  }

  /** `computeGroups` run a second time, with nothing changed in between, leaves the groups as the first run built them. */
  method ComputeTwice(c: TokenEditor) returns (first: seq<Group>)
    requires c.Valid()
    modifies c`lastComputedVersion, c`tokenGroups
    ensures old(c.lastComputedVersion) != c.tokensVersion ==> first == GroupsOf(c.TokensToShow(), c.tokenPictures)
    ensures old(c.lastComputedVersion) == c.tokensVersion ==> first == old(c.tokenGroups)
    ensures c.tokenGroups == first
  {
    c.ComputeGroups();
    first := c.tokenGroups;
    c.ComputeGroups();
  }

  const A1 := Tok('A', '1')
  const A2 := Tok('A', '2')
  const B1 := Tok('B', '1')
  const B2 := Tok('B', '2')
  const C1 := Tok('C', '1')
  const C2 := Tok('C', '2')

  /** The six English keys of the test, which are every key it uses, in sorted order. */
  const AllKeys: seq<string> := [A1, A2, B1, B2, C1, C2]

  const Prefixes: seq<string> := [GroupName('A'), GroupName('B'), GroupName('C')]

  lemma KeyNames()
    ensures forall i :: 0 <= i < 6 ==> AllKeys[i] == Tok("AABBCC"[i], "121212"[i])
  {
  }

  /** Keys `2i` and `2i + 1` of the fixture fall under its `i`-th prefix. */
  lemma KeyFacts()
    ensures forall i :: 0 <= i < 6 ==> PrefixOf(AllKeys[i]) == Prefixes[i / 2]
  {
    KeyNames();
    forall i | 0 <= i < 6 ensures PrefixOf(AllKeys[i]) == Prefixes[i / 2] {
      TokPrefix("AABBCC"[i], "121212"[i]);
      assert Prefixes[i / 2] == GroupName("AABBCC"[i]);
    }
  }

  lemma FixtureSorted()
    ensures StrictlySorted(AllKeys)
  {
    KeyNames();
    forall i, j | 0 <= i < j < 6 ensures Below(AllKeys[i], AllKeys[j]) {
      TokBelow("AABBCC"[i], "121212"[i], "AABBCC"[j], "121212"[j]);
    }
  }

  /** The keys `groupA.token1` … `groupC.token2` fall two each under `groupA`, `groupB` and `groupC`. */
  lemma FixtureTwoEach()
    ensures TwoEach(AllKeys, Prefixes)
  {
    var ks, ps := AllKeys, Prefixes;
    FixtureSorted();
    PrefixesSorted();
    KeyFacts();
    assert |ks| == 6 && |ps| == 3;
    assert PrefixOf(ks[0]) == ps[0] && PrefixOf(ks[1]) == ps[0];
    assert PrefixOf(ks[2]) == ps[1] && PrefixOf(ks[3]) == ps[1];
    assert PrefixOf(ks[4]) == ps[2] && PrefixOf(ks[5]) == ps[2];
  }

  lemma PrefixesSorted()
    ensures StrictlySorted(Prefixes)
  {
    assert forall i :: 0 <= i < 3 ==> Prefixes[i] == GroupName("ABC"[i]);
    forall i, j | 0 <= i < j < 3 ensures Below(Prefixes[i], Prefixes[j]) {
      GroupBelow("ABC"[i], "ABC"[j]);
    }
  }

  lemma PrefixNames()
    ensures Prefixes == ["groupA", "groupB", "groupC"]
  {
    assert "groupA" == "group" + "A" && "groupB" == "group" + "B" && "groupC" == "group" + "C";
  }

  /** The test as written expects two groups after its calls; the model gives three. */
  method TestCallOrder() returns (groups: seq<Group>, shown: seq<string>)
    ensures |groups| == 3 && |shown| == 3
    ensures groups[0] == Group("groupA", [A1, A2], None)
    ensures groups[1] == Group("groupB", [B1, B2], None)
    ensures groups[2] == Group("groupC", [C1, C2], None)
    ensures shown == [A1, A2, B2]
  {
    var ks, ps := AllKeys, Prefixes;
    FixtureTwoEach();
    SortedNoDuplicates(ks);
    FixtureMaps(ks);
    groups, shown := DetectThenFilter(EnglishOf(ks), TargetOf(ks));
    UnionOf(ks);
    MissingOf(ks);
    TwoEachGroups(ks, ps);
    PrefixNames();
  }

  /** Setting the filter first gives what the test expects: `groupA` with two tokens, `groupB` with `groupB.token2`. */
  method TestFilterFirst() returns (groups: seq<Group>)
    ensures |groups| == 2
    ensures groups[0].prefix == "groupA" && |groups[0].tokens| == 2
    ensures groups[1].prefix == "groupB" && groups[1].tokens == [B2]
  {
    var ks, ps := AllKeys, Prefixes;
    FixtureTwoEach();
    SortedNoDuplicates(ks);
    FixtureMaps(ks);
    groups := FilterThenDetect(EnglishOf(ks), TargetOf(ks));
    MissingOf(ks);
    TwoEachMissingGroups(ks, ps);
    PrefixNames();
  }

  /** A picture for `groupA` attached after `detectMissing` is not in the groups the toggle leaves. */
  method TestPictureAfterDetect(data: string) returns (groups: seq<Group>, pictures: map<string, string>)
    ensures pictures == map["groupA" := data]
    ensures |groups| == 3 && groups[0].prefix == "groupA" && groups[0].picture == None
  {
    var ks, ps := AllKeys, Prefixes;
    FixtureTwoEach();
    SortedNoDuplicates(ks);
    FixtureMaps(ks);
    groups, pictures := PictureAfterDetect(EnglishOf(ks), TargetOf(ks), "groupA", data);
    UnionOf(ks);
    TwoEachGroups(ks, ps);
    PrefixNames();
  }
}
