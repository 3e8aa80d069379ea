/**
  The string operations the reconciler applies to token values and file
  names: `String.prototype.trim`, and the case-insensitive comparisons
  `name.toLowerCase() === 'en.json'` and `name.replace(/\.json$/i, '')`.
*/
module Text {

  /**
    The characters `trim` removes: the ECMAScript WhiteSpace code points
    (tab, vertical tab, form feed, space, no-break space, the byte order
    mark and the Unicode space separators) and the LineTerminators.
  */
  predicate IsJsWhitespace(c: char)
  {
    || c == '\t' || c == '\n' || c == '\U{000B}' || c == '\U{000C}' || c == '\r'
    || c == ' ' || c == '\U{00A0}' || c == '\U{1680}'
    || ('\U{2000}' <= c <= '\U{200A}')
    || c == '\U{2028}' || c == '\U{2029}' || c == '\U{202F}' || c == '\U{205F}'
    || c == '\U{3000}' || c == '\U{FEFF}'
  }

  /** Every character of `s` is whitespace. */
  predicate AllWhitespace(s: string)
  {
    s == [] || (IsJsWhitespace(s[0]) && AllWhitespace(s[1..]))
  }

  /** `AllWhitespace` read from the other end. */
  lemma {:induction false} AllWhitespaceSnoc(t: string, c: char)
    ensures AllWhitespace(t + [c]) <==> AllWhitespace(t) && IsJsWhitespace(c)
  {
    if t != [] {
      assert (t + [c])[0] == t[0];
      assert (t + [c])[1..] == t[1..] + [c];
      AllWhitespaceSnoc(t[1..], c);
    } else {
      assert [c][1..] == [];
    }
  }

  /** `s` with its leading whitespace removed: what is dropped is all whitespace. */
  function TrimStart(s: string): (r: string)
    ensures |r| <= |s| && r == s[|s| - |r|..]
    ensures forall i :: 0 <= i < |s| - |r| ==> IsJsWhitespace(s[i])
    ensures r != [] ==> !IsJsWhitespace(r[0])
  {
    if s != [] && IsJsWhitespace(s[0]) then TrimStart(s[1..]) else s
  }

  /** `s` with its trailing whitespace removed: what is dropped is all whitespace. */
  function TrimEnd(s: string): (r: string)
    ensures |r| <= |s| && r == s[..|r|]
    ensures forall i :: |r| <= i < |s| ==> IsJsWhitespace(s[i])
    ensures r != [] ==> !IsJsWhitespace(r[|r| - 1])
  {
    if s != [] && IsJsWhitespace(s[|s| - 1]) then TrimEnd(s[..|s| - 1]) else s
  }

  /**
    `s.trim()`: the part of `s` between a run of leading and a run of
    trailing whitespace, with no whitespace left at either end.
  */
  function Trim(s: string): (r: string)
    ensures exists i, j :: 0 <= i <= j <= |s| && r == s[i..j] && Blanks(s, 0, i) && Blanks(s, j, |s|)
    ensures r != [] ==> !IsJsWhitespace(r[0]) && !IsJsWhitespace(r[|r| - 1])
  {
    var t := TrimStart(s);
    var r := TrimEnd(t);
    var i := |s| - |t|;
    var j := i + |r|;
    assert s[i..j] == t[..|r|];
    assert Blanks(s, 0, i);
    assert Blanks(s, j, |s|) by {
      forall k | j <= k < |s|
        ensures IsJsWhitespace(s[k])
      {
        assert s[k] == t[k - i];
      }
    }
    r
  }

  /** Every character of `s` from index `lo` up to `hi` is whitespace. */
  predicate Blanks(s: string, lo: nat, hi: nat)
    requires lo <= hi <= |s|
  {
    forall k :: lo <= k < hi ==> IsJsWhitespace(s[k])
  }

  lemma {:induction false} TrimStartEmpty(s: string)
    ensures TrimStart(s) == "" <==> AllWhitespace(s)
  {
    if s != [] && IsJsWhitespace(s[0]) {
      TrimStartEmpty(s[1..]);
    }
  }

  lemma {:induction false} TrimEndEmpty(s: string)
    ensures TrimEnd(s) == "" <==> AllWhitespace(s)
  {
    if s != [] {
      var t := s[..|s| - 1];
      assert s == t + [s[|s| - 1]];
      AllWhitespaceSnoc(t, s[|s| - 1]);
      if IsJsWhitespace(s[|s| - 1]) {
        TrimEndEmpty(t);
      }
    }
  }

  /** `s.trim() === ''` exactly when `s` consists of whitespace only. */
  lemma TrimEmpty(s: string)
    ensures Trim(s) == "" <==> AllWhitespace(s)
  {
    TrimStartEmpty(s);
    var t := TrimStart(s);
    TrimEndEmpty(t);
  }

  /**
    `toLowerCase` on a character, as far as comparisons with `en.json` and
    `.json` go: outside ASCII only the Kelvin sign (to `k`) and the dotted
    capital I (to `i` and a combining dot) lower-case to anything ASCII, and
    neither letter occurs in those names.
  */
  function LowerAscii(c: char): (r: char)
    ensures ('A' <= c <= 'Z') ==> r as int == c as int + 32
    ensures !('A' <= c <= 'Z') ==> r == c
  {
    if 'A' <= c <= 'Z' then (c as int + 32) as char else c
  }

  /** `a` and `b` are equal when letters are compared without regard to ASCII case. */
  predicate EqualsIgnoringCase(a: string, b: string)
  {
    |a| == |b| && forall i :: 0 <= i < |a| ==> LowerAscii(a[i]) == LowerAscii(b[i])
  }

  /**
    `name.toLowerCase() === 'en.json'`: the English reference file, which is
    exactly a `.json` file whose language code is `en` in any case.
  */
  function IsEnglishFile(name: string): (b: bool)
    ensures b <==> HasJsonSuffix(name) && EqualsIgnoringCase(StripJsonSuffix(name), "en")
  {
    if |name| == 7 then
      EqualsIgnoringCaseSplit(name, "en.json", 2);
      assert "en.json"[..2] == "en" && "en.json"[2..] == ".json";
      EqualsIgnoringCase(name, "en.json")
    else
      EqualsIgnoringCase(name, "en.json")
  }

  /** Comparing without case is comparing both halves, split at any index, without case. */
  lemma EqualsIgnoringCaseSplit(a: string, b: string, n: nat)
    requires |a| == |b| && n <= |a|
    ensures EqualsIgnoringCase(a, b) <==> EqualsIgnoringCase(a[..n], b[..n]) && EqualsIgnoringCase(a[n..], b[n..])
  {
    if EqualsIgnoringCase(a[..n], b[..n]) && EqualsIgnoringCase(a[n..], b[n..]) {
      forall i | 0 <= i < |a|
        ensures LowerAscii(a[i]) == LowerAscii(b[i])
      {
        if i < n {
          assert a[..n][i] == a[i] && b[..n][i] == b[i];
        } else {
          assert a[n..][i - n] == a[i] && b[n..][i - n] == b[i];
        }
      }
    }
  }

  /** The name ends in `.json`, in any mix of cases. */
  predicate HasJsonSuffix(name: string)
  {
    |name| >= 5 && EqualsIgnoringCase(name[|name| - 5..], ".json")
  }

  /** `name.replace(/\.json$/i, '')`: the language code of a file name. */
  function StripJsonSuffix(name: string): (r: string)
    ensures |r| <= |name|
    ensures HasJsonSuffix(name) ==> name == r + name[|r|..] && EqualsIgnoringCase(name[|r|..], ".json")
    ensures !HasJsonSuffix(name) ==> r == name
  {
    if HasJsonSuffix(name) then name[..|name| - 5] else name
  }

  /** `fr.json` names the language `fr`; `EN.JSON` is the English file, named `EN`. */
  lemma StripExamples()
    ensures StripJsonSuffix("fr.json") == "fr"
    ensures StripJsonSuffix("EN.JSON") == "EN" && IsEnglishFile("EN.JSON")
    ensures StripJsonSuffix("fr") == "fr" && !IsEnglishFile("fr.json")
  {
    assert HasJsonSuffix("fr.json");
    assert HasJsonSuffix("EN.JSON");
    assert !HasJsonSuffix("fr");
    assert LowerAscii("fr.json"[0]) != LowerAscii("en.json"[0]);
  }
}
