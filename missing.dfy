/**
  `detectMissing`: the English keys whose translation is absent, null or
  blank, in English order.
*/
module Missing {
  import opened Wrappers
  import opened Assoc
  import opened Order
  import opened Text
  import opened Flattening

  /**
    What the test applied to `this.tokens[k]` accepts: absent (`undefined`),
    or a string of whitespace only. The target map only ever holds strings;
    `null` is read as absent.
  */
  predicate Blank(v: Option<string>)
  {
    v.None? || AllWhitespace(v.value)
  }

  /** `Blank` is the test `val === undefined || val.trim() === ''` on a string or `undefined`. */
  lemma BlankTrim(v: Option<string>)
    ensures Blank(v) <==> v.None? || Trim(v.value) == ""
  {
    if v.Some? {
      TrimEmpty(v.value);
    }
  }

  /** `Object.keys(english).filter(...)` over the first entries of `english`, kept in order. */
  function MissingKeys(english: FlatMap, target: FlatMap): (r: seq<string>)
    ensures |r| <= |english|
    ensures forall i :: 0 <= i < |r| ==> Blank(Lookup(target, r[i]))
  {
    if english == [] then []
    else
      var k := english[|english| - 1].0;
      MissingKeys(english[..|english| - 1], target) + (if Blank(Lookup(target, k)) then [k] else [])
  }

  /** A key is reported missing exactly when it is an English key whose translation is blank. */
  lemma {:induction false} MissingIff(english: FlatMap, target: FlatMap, k: string)
    ensures k in MissingKeys(english, target) <==> k in Keys(english) && Blank(Lookup(target, k))
  {
    if english != [] {
      var e := english[..|english| - 1];
      MissingIff(e, target, k);
      KeysLast(english);
    }
  }

  /** The missing keys are the English keys with some left out, the rest in English order. */
  lemma {:induction false} MissingInOrder(english: FlatMap, target: FlatMap)
    ensures Subsequence(MissingKeys(english, target), Keys(english))
  {
    if english != [] {
      var e := english[..|english| - 1];
      var k := english[|english| - 1].0;
      MissingInOrder(e, target);
      KeysLast(english);
      var r := MissingKeys(english, target);
      var ks := Keys(english);
      assert ks[..|ks| - 1] == Keys(e);
      if Blank(Lookup(target, k)) {
        assert r[..|r| - 1] == MissingKeys(e, target);
      } else {
        assert r == MissingKeys(e, target);
      }
    }
  }

  /** English keys are distinct, so no key is reported twice. */
  lemma {:induction false} MissingNoDuplicates(english: FlatMap, target: FlatMap)
    requires DistinctKeys(english)
    ensures NoDuplicates(MissingKeys(english, target))
  {
    if english != [] {
      var e := english[..|english| - 1];
      var k := english[|english| - 1].0;
      assert DistinctKeys(e);
      MissingNoDuplicates(e, target);
      var m := MissingKeys(e, target);
      if Blank(Lookup(target, k)) {
        LastKeyFresh(english);
        MissingIff(e, target, k);
      }
    }
  }

  /**
    A value of spaces only counts as missing, `"0"` does not, and an empty
    English map reports nothing.
  */
  lemma MissingExamples(target: FlatMap)
    ensures MissingKeys([("a", "A")], [("a", "   ")]) == ["a"]
    ensures MissingKeys([("a", "A")], [("a", "0")]) == []
    ensures MissingKeys([("a", "A")], []) == ["a"]
    ensures MissingKeys([], target) == []
  {
    assert !IsJsWhitespace("0"[0]);
  }
}
