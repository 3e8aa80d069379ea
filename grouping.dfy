/**
  The grouping `computeGroups` builds from the working token list: one group
  per prefix, prefixes in sorted order, each with its tokens in list order
  and the picture attached to the prefix.
*/
module Grouping {
  import opened Wrappers
  import opened Assoc
  import opened Paths
  import opened Order

  /** `t.split('.')[0] || 'root'`: the first segment, or `root` when it is empty. */
  function PrefixOf(t: string): (p: string)
    ensures p != ""
  {
    var s := Split(t)[0];
    if s == "" then "root" else s
  }

  /** A token without a dot is grouped under itself; a dotted one under its first segment. */
  lemma PrefixRule(a: string, b: string)
    requires a != "" && DotFree(a)
    ensures PrefixOf(a) == a
    ensures PrefixOf(a + "." + b) == a
  {
    SplitDotFree(a);
    SplitConcat(a, b);
  }

  /** Only an empty first segment, as in `""` or a token starting with `.`, gives `root`. */
  lemma RootPrefix(b: string)
    ensures PrefixOf("") == "root"
    ensures PrefixOf("." + b) == "root"
  {
    assert ("." + b)[0] == '.' && ("." + b)[1..] == b;
  }

  /** What `map[p]` collects: the tokens of `ts` with prefix `p`, in list order. */
  function Bucket(ts: seq<string>, p: string): (r: seq<string>)
    ensures |r| <= |ts|
    ensures forall i :: 0 <= i < |r| ==> PrefixOf(r[i]) == p
  {
    if ts == [] then []
    else
      var t := ts[|ts| - 1];
      Bucket(ts[..|ts| - 1], p) + (if PrefixOf(t) == p then [t] else [])
  }

  /** The prefix of every token, in list order. */
  function PrefixList(ts: seq<string>): (r: seq<string>)
    ensures |r| == |ts|
    ensures forall i :: 0 <= i < |ts| ==> r[i] == PrefixOf(ts[i])
  {
    seq(|ts|, i requires 0 <= i < |ts| => PrefixOf(ts[i]))
  }

  /** One entry of `tokenGroups`; `picture` is absent when no picture is attached. */
  datatype Group = Group(prefix: string, tokens: seq<string>, picture: Option<string>)

  /** `tokenPictures[p]`: the picture attached to `p`, undefined when nothing was attached. */
  function Picture(pics: map<string, string>, p: string): (r: Option<string>)
    ensures r.Some? <==> p in pics
    ensures r.Some? ==> r.value == pics[p]
  {
    if p in pics then Some(pics[p]) else None
  }

  /** The groups `computeGroups` builds from the working list `ts` and the pictures `pics`. */
  function GroupsOf(ts: seq<string>, pics: map<string, string>): (gs: seq<Group>)
    ensures |gs| == |SortDistinct(PrefixList(ts))|
    ensures forall i :: 0 <= i < |gs| ==> gs[i].prefix == SortDistinct(PrefixList(ts))[i]
  {
    var ps := SortDistinct(PrefixList(ts));
    seq(|ps|, i requires 0 <= i < |ps| => GroupFor(ts, pics, ps[i]))
  }

  /** The group of prefix `p`: its bucket and its picture. */
  function GroupFor(ts: seq<string>, pics: map<string, string>, p: string): Group
  {
    Group(p, Bucket(ts, p), Picture(pics, p))
  }

  /** The groups' token lists one after another. */
  function Concat(gs: seq<Group>): seq<string>
  {
    if gs == [] then [] else Concat(gs[..|gs| - 1]) + gs[|gs| - 1].tokens
  }

  /** A token is in the bucket of `p` exactly when it is in the list and has prefix `p`. */
  lemma {:induction false} BucketMembers(ts: seq<string>, p: string, x: string)
    ensures x in Bucket(ts, p) <==> x in ts && PrefixOf(x) == p
  {
    if ts != [] {
      var init, t := ts[..|ts| - 1], ts[|ts| - 1];
      BucketMembers(init, p, x);
      BucketLast(ts, p);
      InitLast(ts);
      assert x in ts <==> x in init || x == t;
    }
  }

  /** `Bucket` of a non-empty list: the bucket of all but the last token, then the last one if it has prefix `p`. */
  lemma BucketLast(ts: seq<string>, p: string)
    requires ts != []
    ensures Bucket(ts, p) == Bucket(ts[..|ts| - 1], p) + (if PrefixOf(ts[|ts| - 1]) == p then [ts[|ts| - 1]] else [])
  {
  }

  /** The bucket of `p` holds every token with prefix `p` as often as the list does, and nothing else. */
  lemma {:induction false} BucketCount(ts: seq<string>, p: string, x: string)
    ensures multiset(Bucket(ts, p))[x] == if PrefixOf(x) == p then multiset(ts)[x] else 0
  {
    if ts != [] {
      var init, t := ts[..|ts| - 1], ts[|ts| - 1];
      BucketCount(init, p, x);
      BucketLast(ts, p);
      InitLast(ts);
    }
  }

  /** A prefix that no token has collects nothing. */
  lemma BucketAbsent(ts: seq<string>, p: string)
    requires p !in PrefixList(ts)
    ensures Bucket(ts, p) == []
  {
    if Bucket(ts, p) != [] {
      BucketMembers(ts, p, Bucket(ts, p)[0]);
    }
  }

  /** A bucket keeps the list's order. */
  lemma {:induction false} BucketInOrder(ts: seq<string>, p: string)
    ensures Subsequence(Bucket(ts, p), ts)
  {
    if ts != [] {
      var init := ts[..|ts| - 1];
      var t := ts[|ts| - 1];
      BucketInOrder(init, p);
      var b := Bucket(ts, p);
      if PrefixOf(t) == p {
        assert b[..|b| - 1] == Bucket(init, p);
      } else {
        assert b == Bucket(init, p);
      }
    }
  }

  /**
    The prefixes are distinct and strictly increasing, no group is empty,
    every token of a group has the group's prefix, the tokens keep the
    list's order, and the picture is the one attached to the prefix.
  */
  lemma GroupsShape(ts: seq<string>, pics: map<string, string>)
    ensures forall i, j :: 0 <= i < j < |GroupsOf(ts, pics)| ==>
      Below(GroupsOf(ts, pics)[i].prefix, GroupsOf(ts, pics)[j].prefix)
    ensures forall g :: g in GroupsOf(ts, pics) ==> g.tokens != []
    ensures forall g, t :: g in GroupsOf(ts, pics) && t in g.tokens ==> PrefixOf(t) == g.prefix
    ensures forall g :: g in GroupsOf(ts, pics) ==> Subsequence(g.tokens, ts)
    ensures forall g :: g in GroupsOf(ts, pics) ==> g.picture == Picture(pics, g.prefix)
  {
    var ps := SortDistinct(PrefixList(ts));
    var gs := GroupsOf(ts, pics);
    forall g | g in gs
      ensures g.tokens != []
      ensures forall t :: t in g.tokens ==> PrefixOf(t) == g.prefix
      ensures Subsequence(g.tokens, ts)
    {
      var i :| 0 <= i < |gs| && gs[i] == g;
      GroupShapeAt(ts, pics, ps, i);
    }
  }

  /** `GroupsShape` for the group of the `i`-th sorted prefix. */
  lemma GroupShapeAt(ts: seq<string>, pics: map<string, string>, ps: seq<string>, i: nat)
    requires ps == SortDistinct(PrefixList(ts)) && i < |ps|
    ensures GroupFor(ts, pics, ps[i]).tokens != []
    ensures forall t :: t in Bucket(ts, ps[i]) ==> PrefixOf(t) == ps[i]
    ensures Subsequence(Bucket(ts, ps[i]), ts)
  {
    var p := ps[i];
    assert p in Elems(ps);
    var k :| 0 <= k < |ts| && PrefixList(ts)[k] == p;
    BucketMembers(ts, p, ts[k]);
    forall t | t in Bucket(ts, p) ensures PrefixOf(t) == p {
      BucketMembers(ts, p, t);
    }
    BucketInOrder(ts, p);
  }

  /**
    With distinct prefixes `ps` and group `i` holding the bucket of `ps[i]`,
    a token is counted once if its prefix is among `ps`, and not at all
    otherwise.
  */
  lemma {:induction false} ConcatCount(ts: seq<string>, gs: seq<Group>, ps: seq<string>, x: string)
    requires |gs| == |ps| && NoDuplicates(ps)
    requires forall i :: 0 <= i < |gs| ==> gs[i].tokens == Bucket(ts, ps[i])
    ensures multiset(Concat(gs))[x] == if PrefixOf(x) in ps then multiset(ts)[x] else 0
  {
    if gs != [] {
      var k := |gs| - 1;
      var gs', ps' := gs[..k], ps[..k];
      assert NoDuplicates(ps');
      ConcatCount(ts, gs', ps', x);
      BucketCount(ts, ps[k], x);
      InitLast(ps);
      assert Concat(gs) == Concat(gs') + gs[k].tokens;
      assert PrefixOf(x) in ps <==> PrefixOf(x) in ps' || PrefixOf(x) == ps[k];
      assert PrefixOf(x) == ps[k] ==> PrefixOf(x) !in ps';
    }
  }

  /** Concatenating the groups' token lists gives the working list, reordered. */
  lemma GroupsPermutation(ts: seq<string>, pics: map<string, string>)
    ensures multiset(Concat(GroupsOf(ts, pics))) == multiset(ts)
  {
    var ps := SortDistinct(PrefixList(ts));
    var gs := GroupsOf(ts, pics);
    SortedNoDuplicates(ps);
    forall x
      ensures multiset(Concat(gs))[x] == multiset(ts)[x]
    {
      ConcatCount(ts, gs, ps, x);
      if x in ts {
        var k :| 0 <= k < |ts| && ts[k] == x;
        assert PrefixList(ts)[k] == PrefixOf(x);
        assert PrefixOf(x) in Elems(PrefixList(ts));
      }
    }
  }

  /** `map` once the `forEach` has handled the tokens `ts`: each prefix seen so far holds its bucket. */
  ghost predicate BucketsFor(b: seq<(string, seq<string>)>, ts: seq<string>)
  {
    forall p :: Lookup(b, p) == if p in PrefixList(ts) then Some(Bucket(ts, p)) else None
  }

  /**
    One pass of the `forEach`: `if (!map[prefix]) map[prefix] = []` gives
    `b1`, and `map[prefix].push(t)` gives `b2`.
  */
  lemma PushStep(b: seq<(string, seq<string>)>, b1: seq<(string, seq<string>)>, b2: seq<(string, seq<string>)>,
                 ts: seq<string>, t: string)
    requires BucketsFor(b, ts)
    requires b1 == if Lookup(b, PrefixOf(t)).None? then Put(b, PrefixOf(t), []) else b
    requires Lookup(b1, PrefixOf(t)).Some?
    requires b2 == Put(b1, PrefixOf(t), Lookup(b1, PrefixOf(t)).value + [t])
    ensures BucketsFor(b2, ts + [t])
  {
    forall p
      ensures Lookup(b2, p) == if p in PrefixList(ts + [t]) then Some(Bucket(ts + [t], p)) else None
    {
      PushStepAt(b, b1, b2, ts, t, p);
    }
  }

  /** `PushStep` for one key `p`. */
  lemma PushStepAt(b: seq<(string, seq<string>)>, b1: seq<(string, seq<string>)>, b2: seq<(string, seq<string>)>,
                   ts: seq<string>, t: string, p: string)
    requires Lookup(b, p) == if p in PrefixList(ts) then Some(Bucket(ts, p)) else None
    requires Lookup(b, PrefixOf(t)) == if PrefixOf(t) in PrefixList(ts) then Some(Bucket(ts, PrefixOf(t))) else None
    requires b1 == if Lookup(b, PrefixOf(t)).None? then Put(b, PrefixOf(t), []) else b
    requires Lookup(b1, PrefixOf(t)).Some?
    requires b2 == Put(b1, PrefixOf(t), Lookup(b1, PrefixOf(t)).value + [t])
    ensures Lookup(b2, p) == if p in PrefixList(ts + [t]) then Some(Bucket(ts + [t], p)) else None
  {
    var p0 := PrefixOf(t);
    var ts' := ts + [t];
    InitOfSnoc(ts, t);
    PrefixListLast(ts, t);
    PushLookup(b, b1, b2, p0, t, p);
    BucketLast(ts', p);
    if p == p0 {
      assert p in PrefixList(ts');
      if p !in PrefixList(ts) {
        BucketAbsent(ts, p);
        assert Lookup(b, p0).None?;
      } else {
        assert Lookup(b, p0) == Some(Bucket(ts, p));
      }
      assert Lookup(b2, p) == Some(Bucket(ts', p));
    } else {
      assert p in PrefixList(ts') <==> p in PrefixList(ts);
      assert Lookup(b2, p) == Lookup(b, p);
      assert Bucket(ts', p) == Bucket(ts, p);
    }
  }

  /** The pushed prefix holds its old list, or `[]`, extended by `t`; every other key is unchanged. */
  lemma PushLookup(b: seq<(string, seq<string>)>, b1: seq<(string, seq<string>)>, b2: seq<(string, seq<string>)>,
                   p0: string, t: string, p: string)
    requires b1 == if Lookup(b, p0).None? then Put(b, p0, []) else b
    requires Lookup(b1, p0).Some?
    requires b2 == Put(b1, p0, Lookup(b1, p0).value + [t])
    ensures Lookup(b2, p) == if p == p0 then Some((if Lookup(b, p0).Some? then Lookup(b, p0).value else []) + [t])
                             else Lookup(b, p)
  {
    LookupPut(b, p0, [], p);
    LookupPut(b, p0, [], p0);
    LookupPut(b1, p0, Lookup(b1, p0).value + [t], p);
  }

  /** The keys of `map` are the prefixes of the handled tokens. */
  lemma BucketsKeys(b: seq<(string, seq<string>)>, ts: seq<string>)
    requires BucketsFor(b, ts)
    ensures Elems(Keys(b)) == Elems(PrefixList(ts))
  {
    forall p ensures p in Keys(b) <==> p in PrefixList(ts) {
      assert Lookup(b, p).Some? <==> p in Keys(b);
    }
  }

  /** Every prefix among `ps` is a key of `map` holding its bucket. */
  lemma BucketsOfPrefixes(b: seq<(string, seq<string>)>, ts: seq<string>, ps: seq<string>)
    requires BucketsFor(b, ts) && Elems(ps) <= Elems(PrefixList(ts))
    ensures forall p :: p in ps ==> Lookup(b, p) == Some(Bucket(ts, p))
  {
    forall p | p in ps ensures Lookup(b, p) == Some(Bucket(ts, p)) {
      assert p in Elems(ps);
    }
  }

  lemma PrefixListLast(ts: seq<string>, t: string)
    ensures PrefixList(ts + [t]) == PrefixList(ts) + [PrefixOf(t)]
  {
  }
}
