/**
  Dotted token paths: `s.split('.')` and the `.`-join that `flatten` builds
  its keys with.
*/
module Paths {

  /** A property name that can stand as one path segment. */
  predicate DotFree(s: string)
  {
    '.' !in s
  }

  /** `s.split('.')`: never empty, `""` splits into `[""]`. */
  function Split(s: string): (r: seq<string>)
    ensures |r| >= 1
    ensures forall i :: 0 <= i < |r| ==> DotFree(r[i])
  {
    if s == [] then [""]
    else if s[0] == '.' then [""] + Split(s[1..])
    else var t := Split(s[1..]); [[s[0]] + t[0]] + t[1..]
  }

  /** `q.join('.')` for a non-empty list of segments. */
  function Join(q: seq<string>): string
    requires |q| >= 1
  {
    if |q| == 1 then q[0] else q[0] + "." + Join(q[1..])
  }

  /** The key `flatten` gives property `k` under `prefix`: `prefix ? prefix + '.' + k : k`. */
  function Key(prefix: string, k: string): string
  {
    if prefix != "" then prefix + "." + k else k
  }

  /** The segments a prefix stands for; the empty prefix stands for none. */
  function Seg(prefix: string): seq<string>
  {
    if prefix == "" then [] else Split(prefix)
  }

  /** `p` is a proper segment-wise prefix of `q`. */
  predicate ProperPrefix(p: seq<string>, q: seq<string>)
  {
    |p| < |q| && q[..|p|] == p
  }

  /** Every segment is non-empty: no empty key, no leading, trailing or doubled dot. */
  predicate NonEmptySegments(q: seq<string>)
  {
    forall i :: 0 <= i < |q| ==> q[i] != ""
  }

  lemma {:induction false} JoinSplit(s: string)
    ensures Join(Split(s)) == s
  {
    if s != [] {
      JoinSplit(s[1..]);
      var t := Split(s[1..]);
      if s[0] != '.' {
        if |t| > 1 {
          assert t == [t[0]] + t[1..];
          assert Join(t) == t[0] + "." + Join(t[1..]);
        }
      }
    }
  }

  /** Split is one-to-one: a key is recovered from its segments. */
  lemma SplitInjective(a: string, b: string)
    requires Split(a) == Split(b)
    ensures a == b
  {
    JoinSplit(a);
    JoinSplit(b);
  }

  lemma {:induction false} SplitDotFree(s: string)
    requires DotFree(s)
    ensures Split(s) == [s]
  {
    if s != [] {
      assert s[0] in s;
      assert forall c :: c in s[1..] ==> c in s;
      SplitDotFree(s[1..]);
      assert [s[0]] + s[1..] == s;
    }
  }

  lemma {:induction false} SplitConcat(a: string, b: string)
    ensures Split(a + "." + b) == Split(a) + Split(b)
  {
    if a == [] {
      assert a + "." + b == "." + b;
      assert ("." + b)[1..] == b;
    } else {
      var s := a + "." + b;
      assert s[0] == a[0];
      assert s[1..] == a[1..] + "." + b;
      SplitConcat(a[1..], b);
    }
  }

  lemma {:induction false} SplitJoin(q: seq<string>)
    requires |q| >= 1
    requires forall i :: 0 <= i < |q| ==> DotFree(q[i])
    ensures Split(Join(q)) == q
  {
    SplitDotFree(q[0]);
    if |q| > 1 {
      SplitJoin(q[1..]);
      SplitConcat(q[0], Join(q[1..]));
      assert q == [q[0]] + q[1..];
    }
  }

  /** A key built by `flatten` stands for its prefix's segments plus the property name. */
  lemma SegKey(prefix: string, k: string)
    requires k != "" && DotFree(k)
    ensures Key(prefix, k) != ""
    ensures Seg(Key(prefix, k)) == Seg(prefix) + [k]
  {
    SplitDotFree(k);
    if prefix != "" {
      SplitConcat(prefix, k);
    }
  }
}
