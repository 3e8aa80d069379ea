/**
  `TokenEditorComponent` as a state machine over its reconciliation fields:
  the flattened English reference and target maps, the missing-token list,
  the filter flag, the cached groups with their pictures, and the version
  counters that gate recomputing the groups.
*/
module Editor {
  import opened Wrappers
  import opened Assoc
  import opened Order
  import opened Text
  import opened JsonValue
  import opened Flattening
  import opened Missing
  import opened Grouping

  /**
    The full working list: the keys of either map, strictly sorted and so
    without duplicates.
  */
  function UnionKeys(english: FlatMap, target: FlatMap): (r: seq<string>)
    ensures StrictlySorted(r)
    ensures NoDuplicates(r)
    ensures Elems(r) == Elems(Keys(english)) + Elems(Keys(target))
  {
    ElemsConcat(Keys(english), Keys(target));
    var r := SortDistinct(Keys(english) + Keys(target));
    SortedNoDuplicates(r);
    r
  }

  /** An object's keys never repeat. */
  lemma KeysNoDuplicates(m: FlatMap)
    requires DistinctKeys(m)
    ensures NoDuplicates(Keys(m))
  {
  }

  /** Adding the keys of `m[..i+1]` adds the key of entry `i`. */
  lemma ElemsKeysNext(m: FlatMap, i: nat)
    requires i < |m|
    ensures Elems(Keys(m[..i + 1])) == Elems(Keys(m[..i])) + {m[i].0}
  {
    assert m[..i + 1][..i] == m[..i];
    KeysLast(m[..i + 1]);
    ElemsConcat(Keys(m[..i]), [m[i].0]);
  }

  /**
    `keys.add(k)` for each key of `m`, in order, on a set kept as a list
    without duplicates: afterwards the set also holds every key of `m`.
  */
  method AddKeys(keys: seq<string>, m: FlatMap) returns (r: seq<string>)
    requires NoDuplicates(keys)
    ensures NoDuplicates(r)
    ensures Elems(r) == Elems(keys) + Elems(Keys(m))
  {
    r := keys;
    var i := 0;
    while i < |m|
      invariant 0 <= i <= |m|
      invariant NoDuplicates(r)
      invariant Elems(r) == Elems(keys) + Elems(Keys(m[..i]))
    {
      var k := m[i].0;
      ElemsKeysNext(m, i);
      if k !in r {
        AddFresh(r, k);
        r := r + [k];
      }
      i := i + 1;
    }
    assert m[..i] == m;
  }

  /** Appending a new element keeps a list duplicate-free and adds it to the set. */
  lemma AddFresh(r: seq<string>, k: string)
    requires NoDuplicates(r) && k !in r
    ensures NoDuplicates(r + [k]) && Elems(r + [k]) == Elems(r) + {k}
  {
    ElemsConcat(r, [k]);
  }

  /** The filter of `detectMissing`: each English key, in order, whose translation is absent or blank. */
  method FilterMissing(english: FlatMap, target: FlatMap) returns (missing: seq<string>)
    ensures missing == MissingKeys(english, target)
  {
    missing := [];
    var i := 0;
    while i < |english|
      invariant 0 <= i <= |english|
      invariant missing == MissingKeys(english[..i], target)
    {
      var k := english[i].0;
      var val := Lookup(target, k);
      assert english[..i + 1][..i] == english[..i];
      BlankTrim(val);
      if val.None? || Trim(val.value) == "" {
        missing := missing + [k];
      }
      i := i + 1;
    }
    assert english[..i] == english;
  }

  /** The `forEach` of `computeGroups`: each token pushed onto the list of its prefix. */
  method CollectBuckets(ts: seq<string>) returns (buckets: seq<(string, seq<string>)>)
    ensures BucketsFor(buckets, ts)
  {
    buckets := [];
    var i := 0;
    while i < |ts|
      invariant 0 <= i <= |ts|
      invariant BucketsFor(buckets, ts[..i])
    {
      var t := ts[i];
      var prefix := PrefixOf(t);
      var b0 := buckets;
      if Lookup(buckets, prefix).None? {
        buckets := Put(buckets, prefix, []);
        LookupPut(b0, prefix, [], prefix);
      }
      var b1 := buckets;
      buckets := Put(buckets, prefix, Lookup(buckets, prefix).value + [t]);
      PushStep(b0, b1, buckets, ts[..i], t);
      PrefixNext(ts, i);
      i := i + 1;
    }
    assert ts[..i] == ts;
  }

  /**
    The body of `computeGroups` after its guard: the tokens are collected by
    prefix, the prefixes sorted, and one group built for each.
  */
  method GroupTokens(ts: seq<string>, pics: map<string, string>) returns (gs: seq<Group>)
    ensures gs == GroupsOf(ts, pics)
  {
    var buckets := CollectBuckets(ts);
    var ps := SortDistinct(Keys(buckets));
    BucketsKeys(buckets, ts);
    SortDistinctBySet(Keys(buckets), PrefixList(ts));
    BucketsOfPrefixes(buckets, ts, ps);
    gs := BuildGroups(ts, buckets, ps, pics);
  }

  /** `.map(p => ({ prefix: p, tokens: map[p], picture: pics[p] }))` over the sorted prefixes `ps`. */
  method BuildGroups(ts: seq<string>, buckets: seq<(string, seq<string>)>, ps: seq<string>, pics: map<string, string>)
    returns (gs: seq<Group>)
    requires forall p :: p in ps ==> Lookup(buckets, p) == Some(Bucket(ts, p))
    ensures |gs| == |ps|
    ensures forall k :: 0 <= k < |ps| ==> gs[k] == GroupFor(ts, pics, ps[k])
  {
    gs := [];
    var j := 0;
    while j < |ps|
      invariant 0 <= j <= |ps| && |gs| == j
      invariant forall k :: 0 <= k < j ==> gs[k] == GroupFor(ts, pics, ps[k])
    {
      var p := ps[j];
      assert Lookup(buckets, p) == Some(Bucket(ts, p));
      var g := Group(p, Lookup(buckets, p).value, Picture(pics, p));
      assert g == GroupFor(ts, pics, p);
      AppendKeeps(gs, g);
      gs := gs + [g];
      j := j + 1;
    }
  }

  lemma AppendKeeps<T>(s: seq<T>, x: T)
    ensures forall k :: 0 <= k < |s| ==> (s + [x])[k] == s[k]
    ensures (s + [x])[|s|] == x
  {
  }

  class TokenEditor {
    var selectedFile: string
    var lang: string
    /** Flattened tokens of the target language. */
    var tokens: FlatMap
    /** Flattened English reference. */
    var englishTokens: FlatMap
    var missingTokens: seq<string>
    var showOnlyMissing: bool
    /** Cached groups, recomputed only when the version changed. */
    var tokenGroups: seq<Group>
    var tokensVersion: int
    var lastComputedVersion: int
    var tokenPictures: map<string, string>

    /**
      Both maps are objects (distinct keys), the version never went below its
      start, and the groups were never computed for a version not yet reached.
    */
    ghost predicate Valid()
      reads this
    {
      && DistinctKeys(englishTokens) && DistinctKeys(tokens)
      && 0 <= tokensVersion && -1 <= lastComputedVersion <= tokensVersion
    }

    constructor ()
      ensures Valid()
      ensures selectedFile == "" && lang == ""
      ensures tokens == [] && englishTokens == [] && missingTokens == [] && !showOnlyMissing
      ensures tokenGroups == [] && tokenPictures == map[]
      ensures tokensVersion == 0 && lastComputedVersion == -1
    {
      selectedFile := "";
      lang := "";
      tokens := [];
      englishTokens := [];
      missingTokens := [];
      showOnlyMissing := false;
      tokenGroups := [];
      tokensVersion := 0;
      lastComputedVersion := -1;
      tokenPictures := map[];
    }

    /** What `getTokensToShow` returns in the current state. */
    function TokensToShow(): (r: seq<string>)
      reads this
      ensures showOnlyMissing ==> r == missingTokens
      ensures !showOnlyMissing ==> StrictlySorted(r) && Elems(r) == Elems(Keys(englishTokens)) + Elems(Keys(tokens))
    {
      if showOnlyMissing then missingTokens else UnionKeys(englishTokens, tokens)
    }

    /** `englishCount`: the number of English keys. */
    function EnglishCount(): (n: nat)
      reads this
      requires Valid()
      ensures n == |Elems(Keys(englishTokens))|
    {
      KeysNoDuplicates(englishTokens);
      NoDuplicatesCard(Keys(englishTokens));
      |englishTokens|
    }

    /** `isMissing(token)`: `missingTokens.indexOf(token) !== -1`. */
    method IsMissing(t: string) returns (b: bool)
      ensures b <==> t in missingTokens
    {
      var i := 0;
      while i < |missingTokens|
        invariant 0 <= i <= |missingTokens|
        invariant t !in missingTokens[..i]
      {
        if missingTokens[i] == t {
          return true;
        }
        PrefixNext(missingTokens, i);
        i := i + 1;
      }
      assert missingTokens[..i] == missingTokens;
      return false;
    }

    /**
      `getTokensToShow()`: the missing list itself while filtering; otherwise
      a `Set` of the English keys, then the target keys, sorted.
    */
    method GetTokensToShow() returns (r: seq<string>)
      ensures r == TokensToShow()
    {
      if showOnlyMissing {
        return missingTokens;
      }
      var keys := AddKeys([], englishTokens);
      keys := AddKeys(keys, tokens);
      r := SortDistinct(keys);
      ElemsConcat(Keys(englishTokens), Keys(tokens));
      SortDistinctBySet(keys, Keys(englishTokens) + Keys(tokens));
    }

    /**
      `computeGroups()`: nothing happens when the groups are current for this
      version; otherwise the version is recorded and the groups are rebuilt
      from the working list and the pictures.
    */
    method ComputeGroups()
      requires Valid()
      modifies this`lastComputedVersion, this`tokenGroups
      ensures Valid()
      ensures lastComputedVersion == tokensVersion
      ensures old(lastComputedVersion) == tokensVersion ==> tokenGroups == old(tokenGroups)
      ensures old(lastComputedVersion) != tokensVersion ==> tokenGroups == GroupsOf(TokensToShow(), tokenPictures)
    {
      if lastComputedVersion == tokensVersion {
        return;
      }
      lastComputedVersion := tokensVersion;
      var ts := GetTokensToShow();
      tokenGroups := GroupTokens(ts, tokenPictures);
    }

    /**
      `detectMissing()`: the missing list is rebuilt from both maps, the
      version is raised by one and the groups are recomputed.
    */
    method DetectMissing()
      requires Valid()
      modifies this`missingTokens, this`tokensVersion, this`lastComputedVersion, this`tokenGroups
      ensures Valid()
      ensures missingTokens == MissingKeys(englishTokens, tokens)
      ensures tokensVersion == old(tokensVersion) + 1 && lastComputedVersion == tokensVersion
      ensures tokenGroups == GroupsOf(TokensToShow(), tokenPictures)
    {
      missingTokens := FilterMissing(englishTokens, tokens);
      tokensVersion := tokensVersion + 1;
      ComputeGroups();
    }

    /**
      `onShowOnlyMissingChange(v)`: the flag is set and `computeGroups` runs,
      which leaves the cached groups as they were unless this version was
      never grouped.
    */
    method OnShowOnlyMissingChange(v: bool)
      requires Valid()
      modifies this`showOnlyMissing, this`lastComputedVersion, this`tokenGroups
      ensures Valid()
      ensures showOnlyMissing == v && tokensVersion == old(tokensVersion)
      ensures lastComputedVersion == tokensVersion
      ensures old(lastComputedVersion) == tokensVersion ==> tokenGroups == old(tokenGroups)
      ensures old(lastComputedVersion) != tokensVersion ==> tokenGroups == GroupsOf(TokensToShow(), tokenPictures)
    {
      showOnlyMissing := v;
      ComputeGroups();
    }

    /** The assignment `tokenPictures[prefix] = data` once the picture has been read. */
    method AttachPicture(prefix: string, data: string)
      requires Valid()
      modifies this`tokenPictures
      ensures Valid()
      ensures tokenPictures == old(tokenPictures)[prefix := data]
    {
      tokenPictures := tokenPictures[prefix := data];
    }

    /**
      `loadFile(name)` once the file's JSON has arrived: the name and language
      are recorded, the flattened data replaces the English map for
      `en.json` (any case) and the target map otherwise, and the missing
      tokens are detected again. The data is what `JSON.parse` returned, so
      no object in it repeats a property name.
    */
    method Ingest(name: string, data: Json)
      requires Valid() && Parsed(data)
      modifies this`selectedFile, this`lang, this`englishTokens, this`tokens
      modifies this`missingTokens, this`tokensVersion, this`lastComputedVersion, this`tokenGroups
      ensures Valid()
      ensures selectedFile == name && lang == StripJsonSuffix(name)
      ensures IsEnglishFile(name) ==> englishTokens == Flatten(data, "") && tokens == old(tokens)
      ensures !IsEnglishFile(name) ==> tokens == Flatten(data, "") && englishTokens == old(englishTokens)
      ensures missingTokens == MissingKeys(englishTokens, tokens)
      ensures tokensVersion == old(tokensVersion) + 1 && lastComputedVersion == tokensVersion
      ensures tokenGroups == GroupsOf(TokensToShow(), tokenPictures)
    {
      selectedFile := name;
      lang := StripJsonSuffix(name);
      var flat := Flatten(data, "");
      if IsEnglishFile(name) {
        englishTokens := flat;
      } else {
        tokens := flat;
      }
      DetectMissing();
    }
  }
}
