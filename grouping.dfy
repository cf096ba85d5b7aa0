/**
 * Grouping a list by a string key into buckets kept in the order each key
 * first appears, as an insertion-ordered `Map` or a record built with
 * `(acc[key] ??= []).push(item)` does, and sums over the buckets.
 */
module Grouping {
  import opened Wrappers
  import opened Sorting

  datatype Bucket<T> = Bucket(key: string, members: seq<T>)

  /** The index of the first element whose key is `k`. */
  function IndexOf<T>(s: seq<T>, keyOf: T -> string, k: string): (r: Option<nat>)
    ensures r.None? <==> forall j :: 0 <= j < |s| ==> keyOf(s[j]) != k
    ensures r.Some? ==> r.value < |s| && keyOf(s[r.value]) == k && forall j :: 0 <= j < r.value ==> keyOf(s[j]) != k
  {
    if s == [] then None
    else if keyOf(s[0]) == k then Some(0)
    else
      assert forall j :: 0 < j < |s| ==> s[j] == s[1..][j - 1];
      match IndexOf(s[1..], keyOf, k)
      case None => None
      case Some(j) => Some(j + 1)
  }

  function BucketKey<T>(b: Bucket<T>): string {
    b.key
  }

  /** One grouping step: `x` joins the bucket of key `k`, which is created
      at the end when there is none yet. */
  function AddTo<T>(gs: seq<Bucket<T>>, k: string, x: T): seq<Bucket<T>> {
    match IndexOf(gs, BucketKey, k)
    case None => gs + [Bucket(k, [x])]
    case Some(j) => gs[j := Bucket(k, gs[j].members + [x])]
  }

  /** The buckets of `xs` by `key`, element after element. */
  function GroupBy<T>(xs: seq<T>, key: T -> string): seq<Bucket<T>> {
    if xs == [] then []
    else
      var n := |xs| - 1;
      AddTo(GroupBy(xs[..n], key), key(xs[n]), xs[n])
  }

  /** The elements of `xs` with key `k`, in order. */
  function Filter<T>(xs: seq<T>, key: T -> string, k: string): (r: seq<T>)
    ensures forall i :: 0 <= i < |r| ==> r[i] in xs && key(r[i]) == k
  {
    if xs == [] then []
    else
      var n := |xs| - 1;
      var pre := Filter(xs[..n], key, k);
      assert forall i :: 0 <= i < |pre| ==> pre[i] in xs;
      pre + (if key(xs[n]) == k then [xs[n]] else [])
  }

  /** `gs` groups `xs` by `key`: one bucket per key, each holding exactly
      the elements with that key in their original order, none empty, and
      every element's key has a bucket. */
  ghost predicate IsGrouping<T>(gs: seq<Bucket<T>>, xs: seq<T>, key: T -> string) {
    && (forall i, j :: 0 <= i < j < |gs| ==> gs[i].key != gs[j].key)
    && (forall j :: 0 <= j < |gs| ==> gs[j].members == Filter(xs, key, gs[j].key) && gs[j].members != [])
    && (forall i :: 0 <= i < |xs| ==> exists j :: 0 <= j < |gs| && gs[j].key == key(xs[i]))
  }

  lemma FilterSnoc<T>(xs: seq<T>, key: T -> string, k: string, x: T)
    ensures Filter(xs + [x], key, k) == Filter(xs, key, k) + (if key(x) == k then [x] else [])
  {
    assert (xs + [x])[..|xs|] == xs;
  }

  lemma {:induction false} FilterNone<T>(xs: seq<T>, key: T -> string, k: string)
    requires forall i :: 0 <= i < |xs| ==> key(xs[i]) != k
    ensures Filter(xs, key, k) == []
    decreases |xs|
  {
    if xs != [] {
      FilterNone(xs[..|xs| - 1], key, k);
    }
  }

  /** The new element's key had no bucket yet only if no earlier element
      has it. */
  lemma NoBucketNoMembers<T>(gs: seq<Bucket<T>>, xs: seq<T>, key: T -> string, k: string)
    requires IsGrouping(gs, xs, key)
    requires forall j :: 0 <= j < |gs| ==> gs[j].key != k
    ensures Filter(xs, key, k) == []
  {
    forall i | 0 <= i < |xs|
      ensures key(xs[i]) != k
    {
      var j :| 0 <= j < |gs| && gs[j].key == key(xs[i]);
    }
    FilterNone(xs, key, k);
  }

  lemma AddToKeys<T>(gs: seq<Bucket<T>>, xs: seq<T>, key: T -> string, x: T)
    requires IsGrouping(gs, xs, key)
    ensures var r := AddTo(gs, key(x), x);
            && |r| >= |gs|
            && (forall j :: 0 <= j < |gs| ==> r[j].key == gs[j].key)
            && (exists j :: 0 <= j < |r| && r[j].key == key(x))
            && (forall i, j :: 0 <= i < j < |r| ==> r[i].key != r[j].key)
  {
    var k := key(x);
    match IndexOf(gs, BucketKey, k)
    case None =>
      var r := gs + [Bucket(k, [x])];
      assert r[|gs|].key == k;
      assert forall j :: 0 <= j < |gs| ==> BucketKey(gs[j]) != k;
    case Some(j) =>
  }

  lemma AddToMembersNew<T>(gs: seq<Bucket<T>>, xs: seq<T>, key: T -> string, x: T)
    requires IsGrouping(gs, xs, key)
    requires forall j :: 0 <= j < |gs| ==> gs[j].key != key(x)
    ensures var r := gs + [Bucket(key(x), [x])];
            forall i :: 0 <= i < |r| ==> r[i].members == Filter(xs + [x], key, r[i].key) && r[i].members != []
  {
    var r := gs + [Bucket(key(x), [x])];
    NoBucketNoMembers(gs, xs, key, key(x));
    forall i | 0 <= i < |r|
      ensures r[i].members == Filter(xs + [x], key, r[i].key) && r[i].members != []
    {
      FilterSnoc(xs, key, r[i].key, x);
      if i < |gs| {
        assert r[i] == gs[i];
      } else {
        assert [] + [x] == [x];
      }
    }
  }

  lemma AddToMembersFound<T>(gs: seq<Bucket<T>>, xs: seq<T>, key: T -> string, x: T, j: nat)
    requires IsGrouping(gs, xs, key)
    requires j < |gs| && gs[j].key == key(x)
    ensures var r := gs[j := Bucket(key(x), gs[j].members + [x])];
            forall i :: 0 <= i < |r| ==> r[i].members == Filter(xs + [x], key, r[i].key) && r[i].members != []
  {
    var r := gs[j := Bucket(key(x), gs[j].members + [x])];
    forall i | 0 <= i < |r|
      ensures r[i].members == Filter(xs + [x], key, r[i].key) && r[i].members != []
    {
      FilterSnoc(xs, key, r[i].key, x);
      if i != j {
        assert r[i] == gs[i] && gs[i].key != gs[j].key;
      }
    }
  }

  lemma AddToMembers<T>(gs: seq<Bucket<T>>, xs: seq<T>, key: T -> string, x: T)
    requires IsGrouping(gs, xs, key)
    ensures var r := AddTo(gs, key(x), x);
            forall j :: 0 <= j < |r| ==> r[j].members == Filter(xs + [x], key, r[j].key) && r[j].members != []
  {
    match IndexOf(gs, BucketKey, key(x))
    case None =>
      assert forall j :: 0 <= j < |gs| ==> BucketKey(gs[j]) != key(x);
      AddToMembersNew(gs, xs, key, x);
    case Some(j) =>
      AddToMembersFound(gs, xs, key, x, j);
  }

  lemma AddToGroups<T>(gs: seq<Bucket<T>>, xs: seq<T>, key: T -> string, x: T)
    requires IsGrouping(gs, xs, key)
    ensures IsGrouping(AddTo(gs, key(x), x), xs + [x], key)
  {
    var r := AddTo(gs, key(x), x);
    var ys := xs + [x];
    AddToKeys(gs, xs, key, x);
    AddToMembers(gs, xs, key, x);
    forall i | 0 <= i < |ys|
      ensures exists j :: 0 <= j < |r| && r[j].key == key(ys[i])
    {
      if i < |xs| {
        assert ys[i] == xs[i];
        var j :| 0 <= j < |gs| && gs[j].key == key(xs[i]);
        assert r[j].key == key(ys[i]);
      }
    }
  }

  /** `GroupBy` groups: each element in exactly one bucket, order kept. */
  lemma {:induction false} GroupByGroups<T>(xs: seq<T>, key: T -> string)
    ensures IsGrouping(GroupBy(xs, key), xs, key)
    decreases |xs|
  {
    if xs != [] {
      var n := |xs| - 1;
      var pre := xs[..n];
      GroupByGroups(pre, key);
      AddToGroups(GroupBy(pre, key), pre, key, xs[n]);
      assert pre + [xs[n]] == xs;
      assert GroupBy(xs, key) == AddTo(GroupBy(pre, key), key(xs[n]), xs[n]);
    }
  }

  /** The sum over the buckets of the sum of `f` over each bucket. */
  function Sums<T>(gs: seq<Bucket<T>>, f: T -> int): int {
    if gs == [] then 0 else Sums(gs[..|gs| - 1], f) + SumBy(gs[|gs| - 1].members, f)
  }

  lemma {:induction false} SumsUpdate<T>(gs: seq<Bucket<T>>, f: T -> int, j: int, b: Bucket<T>)
    requires 0 <= j < |gs|
    ensures Sums(gs[j := b], f) == Sums(gs, f) - SumBy(gs[j].members, f) + SumBy(b.members, f)
    decreases |gs|
  {
    var n := |gs| - 1;
    var r := gs[j := b];
    if j < n {
      assert r[..n] == gs[..n][j := b];
      SumsUpdate(gs[..n], f, j, b);
    } else {
      assert r[..n] == gs[..n];
    }
  }

  lemma SumByAddOne<T>(s: seq<T>, f: T -> int, x: T)
    ensures SumBy(s + [x], f) == SumBy(s, f) + f(x)
  {
    assert (s + [x])[..|s|] == s;
  }

  /** Summing per bucket and then over the buckets gives the sum over all
      elements. */
  lemma {:induction false} GroupSums<T>(xs: seq<T>, key: T -> string, f: T -> int)
    ensures Sums(GroupBy(xs, key), f) == SumBy(xs, f)
    decreases |xs|
  {
    if xs != [] {
      var n := |xs| - 1;
      var gs := GroupBy(xs[..n], key);
      var x := xs[n];
      GroupSums(xs[..n], key, f);
      SumByAddOne(xs[..n], f, x);
      assert xs[..n] + [x] == xs;
      match IndexOf(gs, BucketKey, key(x))
      case None =>
        var r := gs + [Bucket(key(x), [x])];
        assert r[..|gs|] == gs;
        SumByAddOne([], f, x);
        assert Sums(r, f) == Sums(gs, f) + f(x);
      case Some(j) =>
        SumsUpdate(gs, f, j, Bucket(key(x), gs[j].members + [x]));
        SumByAddOne(gs[j].members, f, x);
    }
  }

  /** The buckets mapped through `h`. */
  function MapBuckets<T, G>(gs: seq<Bucket<T>>, h: Bucket<T> -> G): (r: seq<G>)
    ensures |r| == |gs| && forall k :: 0 <= k < |gs| ==> r[k] == h(gs[k])
  {
    seq(|gs|, k requires 0 <= k < |gs| => h(gs[k]))
  }

  lemma MapBucketsUpdate<T, G>(gs: seq<Bucket<T>>, h: Bucket<T> -> G, j: int, b: Bucket<T>)
    requires 0 <= j < |gs|
    ensures MapBuckets(gs[j := b], h) == MapBuckets(gs, h)[j := h(b)]
  {
  }

  lemma MapBucketsSnoc<T, G>(gs: seq<Bucket<T>>, h: Bucket<T> -> G, b: Bucket<T>)
    ensures MapBuckets(gs + [b], h) == MapBuckets(gs, h) + [h(b)]
  {
  }

  /** Mapped buckets after `x` joins the existing bucket `j` of its key. */
  lemma MapAddToFound<T, G>(gs: seq<Bucket<T>>, k: string, x: T, h: Bucket<T> -> G, j: nat)
    requires IndexOf(gs, BucketKey, k) == Some(j)
    ensures MapBuckets(AddTo(gs, k, x), h) == MapBuckets(gs, h)[j := h(Bucket(k, gs[j].members + [x]))]
  {
    MapBucketsUpdate(gs, h, j, Bucket(k, gs[j].members + [x]));
  }

  /** Mapped buckets after `x` opens a new bucket for its key. */
  lemma MapAddToNew<T, G>(gs: seq<Bucket<T>>, k: string, x: T, h: Bucket<T> -> G)
    requires IndexOf(gs, BucketKey, k).None?
    ensures MapBuckets(AddTo(gs, k, x), h) == MapBuckets(gs, h) + [h(Bucket(k, [x]))]
  {
    MapBucketsSnoc(gs, h, Bucket(k, [x]));
  }

  /** Grouping one more element is one `AddTo` step. */
  lemma GroupBySnoc<T>(xs: seq<T>, key: T -> string, x: T)
    ensures GroupBy(xs + [x], key) == AddTo(GroupBy(xs, key), key(x), x)
  {
    assert (xs + [x])[..|xs|] == xs;
  }

  /** When `g` reads off each mapped bucket's sum of `f`, summing `g` over
      the mapped buckets is `Sums`. */
  lemma {:induction false} SumMapped<T, G>(gs: seq<Bucket<T>>, f: T -> int, h: Bucket<T> -> G, g: G -> int)
    requires forall b :: g(h(b)) == SumBy(b.members, f)
    ensures SumBy(MapBuckets(gs, h), g) == Sums(gs, f)
    decreases |gs|
  {
    if gs != [] {
      var n := |gs| - 1;
      assert MapBuckets(gs, h)[..n] == MapBuckets(gs[..n], h);
      SumMapped(gs[..n], f, h, g);
    }
  }

  /** A value occurring twice in the multiset occurs at two positions. */
  lemma {:induction false} TwoPositions<T>(s: seq<T>, x: T)
    requires multiset(s)[x] >= 2
    ensures exists a, b :: 0 <= a < b < |s| && s[a] == x && s[b] == x
    decreases |s|
  {
    var n := |s| - 1;
    assert s == s[..n] + [s[n]];
    if s[n] == x {
      assert x in multiset(s[..n]);
      var a :| 0 <= a < n && s[..n][a] == x;
      assert s[a] == x && s[n] == x;
    } else {
      TwoPositions(s[..n], x);
      var a, b :| 0 <= a < b < n && s[..n][a] == x && s[..n][b] == x;
      assert s[a] == x && s[b] == x;
    }
  }

  /** Reordering a list whose keys are pairwise distinct keeps them so. */
  lemma DistinctKeysKept<T>(u: seq<T>, r: seq<T>, keyOf: T -> string)
    requires multiset(u) == multiset(r)
    requires forall a, b :: 0 <= a < b < |u| ==> keyOf(u[a]) != keyOf(u[b])
    ensures forall i, j :: 0 <= i < j < |r| ==> keyOf(r[i]) != keyOf(r[j])
  {
    forall i, j | 0 <= i < j < |r|
      ensures keyOf(r[i]) != keyOf(r[j])
    {
      if r[i] == r[j] {
        assert r == r[..j] + [r[j]] + r[j + 1..];
        assert r[i] in multiset(r[..j]);
        assert multiset(u)[r[j]] >= 2;
        TwoPositions(u, r[j]);
        assert false;
      } else {
        assert r[i] in multiset(u) && r[j] in multiset(u);
        var a :| 0 <= a < |u| && u[a] == r[i];
        var b :| 0 <= b < |u| && u[b] == r[j];
        assert a != b;
      }
    }
  }

  /** A property of every element survives reordering. */
  lemma PermutationKeeps<T>(u: seq<T>, r: seq<T>, p: T -> bool)
    requires multiset(u) == multiset(r)
    requires forall k :: 0 <= k < |u| ==> p(u[k])
    ensures forall k :: 0 <= k < |r| ==> p(r[k])
  {
    forall k | 0 <= k < |r|
      ensures p(r[k])
    {
      assert r[k] in multiset(u);
      var a :| 0 <= a < |u| && u[a] == r[k];
    }
  }

  /** Some element of `r` has key `key`. */
  ghost predicate Carried<T>(r: seq<T>, keyOf: T -> string, key: string) {
    exists k :: 0 <= k < |r| && keyOf(r[k]) == key
  }

  lemma CoverOne<T>(u: seq<T>, r: seq<T>, keyOf: T -> string, key: string)
    requires multiset(u) == multiset(r)
    requires Carried(u, keyOf, key)
    ensures Carried(r, keyOf, key)
  {
    var a :| 0 <= a < |u| && keyOf(u[a]) == key;
    assert u[a] in multiset(r);
    var m :| 0 <= m < |r| && r[m] == u[a];
    assert keyOf(r[m]) == key;
  }

  /** A key some element carries is still carried after reordering. */
  lemma PermutationCovers<T>(u: seq<T>, r: seq<T>, keyOf: T -> string, ks: seq<string>)
    requires multiset(u) == multiset(r)
    requires forall i :: 0 <= i < |ks| ==> Carried(u, keyOf, ks[i])
    ensures forall i :: 0 <= i < |ks| ==> Carried(r, keyOf, ks[i])
  {
    forall i | 0 <= i < |ks|
      ensures Carried(r, keyOf, ks[i])
    {
      CoverOne(u, r, keyOf, ks[i]);
    }
  }
}
