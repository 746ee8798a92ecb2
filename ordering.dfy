/**
 * The ordering `final_writer` imposes on the paragraphs (src/nodes.py:166,171
 * and nodes.py:73,76): `order_map` sends each `node_id` of the outline's
 * children to its position, the sort key of a paragraph is that position, an
 * id the outline does not know gets a key after every position (Python's
 * `float('inf')`, here the number of children), and the list is sorted
 * stably by that key.
 *
 * The reference definition `SortBy` lays the paragraphs out key by key, each
 * key in arrival order; `SortParagraphs` is the in-place sort, proved to
 * produce exactly that list.
 */
module Ordering {
  import opened Common

  /**
   * `{id: index for index, id in enumerate(ids)}`: every id maps to a
   * position holding it, and to its last one when the id repeats.
   */
  function OrderMap(ids: seq<string>): (m: map<string, nat>)
    ensures forall id :: id in m ==> m[id] < |ids| && ids[m[id]] == id
    ensures forall j :: 0 <= j < |ids| ==> ids[j] in m && j <= m[ids[j]]
    decreases |ids|
  {
    if ids == [] then map[]
    else OrderMap(ids[..|ids| - 1])[ids[|ids| - 1] := |ids| - 1]
  }

  /** The sort key: the order map and the key of an id it does not hold. */
  datatype SortKey = SortKey(order: map<string, nat>, unmatched: nat)

  /** Every position in the order map comes before the key of unknown ids. */
  predicate Valid(key: SortKey)
  {
    forall id :: id in key.order ==> key.order[id] < key.unmatched
  }

  /** The key `final_writer` sorts by, built from the children's ids. */
  function KeyOf(ids: seq<string>): (key: SortKey)
    ensures Valid(key)
  {
    SortKey(OrderMap(ids), |ids|)
  }

  /** `order_map.get(p['node_id'], float('inf'))`. */
  function Rank(key: SortKey, p: Paragraph): (r: nat)
    ensures Valid(key) ==> r <= key.unmatched
  {
    if p.node_id in key.order then key.order[p.node_id] else key.unmatched
  }

  /** Ranks never decrease along `t`. */
  predicate SortedByRank(key: SortKey, t: seq<Paragraph>)
  {
    forall i, j :: 0 <= i < j < |t| ==> Rank(key, t[i]) <= Rank(key, t[j])
  }

  /** The paragraphs of rank `k`, in the order they occur in `s`. */
  function WithRank(key: SortKey, s: seq<Paragraph>, k: nat): seq<Paragraph>
    decreases |s|
  {
    if s == [] then []
    else (if Rank(key, s[0]) == k then [s[0]] else []) + WithRank(key, s[1..], k)
  }

  /** Every rank holds the same paragraphs, in the same order, in `t` as in `s`. */
  ghost predicate SameRanks(key: SortKey, t: seq<Paragraph>, s: seq<Paragraph>)
  {
    forall k :: WithRank(key, t, k) == WithRank(key, s, k)
  }

  /** The paragraphs of rank `lo` and above, in the order they occur in `s`. */
  function AtLeast(key: SortKey, s: seq<Paragraph>, lo: nat): seq<Paragraph>
    decreases |s|
  {
    if s == [] then []
    else (if lo <= Rank(key, s[0]) then [s[0]] else []) + AtLeast(key, s[1..], lo)
  }

  /** The ranks `lo`, `lo + 1`, ..., `key.unmatched` of `s`, laid out one after another. */
  function Buckets(key: SortKey, s: seq<Paragraph>, lo: nat): seq<Paragraph>
    decreases key.unmatched + 1 - lo
  {
    if lo > key.unmatched then [] else WithRank(key, s, lo) + Buckets(key, s, lo + 1)
  }

  /**
   * The list `paragraphs.sort(key=...)` leaves: the paragraphs by rank,
   * and equal ranks in arrival order.
   */
  function SortBy(key: SortKey, s: seq<Paragraph>): seq<Paragraph>
  {
    Buckets(key, s, 0)
  }

  /** The list `final_writer` sorts the paragraphs into, for the children's ids `ids`. */
  function SortByOutline(ids: seq<string>, s: seq<Paragraph>): seq<Paragraph>
  {
    SortBy(KeyOf(ids), s)
  }

  /** Rank `k` of `s` holds paragraphs of rank `k` only, and no more than `s` has. */
  lemma {:induction false} WithRankHasRank(key: SortKey, s: seq<Paragraph>, k: nat)
    ensures |WithRank(key, s, k)| <= |s|
    ensures forall i :: 0 <= i < |WithRank(key, s, k)| ==> Rank(key, WithRank(key, s, k)[i]) == k
    decreases |s|
  {
    if s != [] {
      WithRankHasRank(key, s[1..], k);
    }
  }

  /** The bucket layout from `lo` on holds paragraphs of rank `lo` and above only. */
  lemma {:induction false} BucketsAbove(key: SortKey, s: seq<Paragraph>, lo: nat)
    ensures forall i :: 0 <= i < |Buckets(key, s, lo)| ==> lo <= Rank(key, Buckets(key, s, lo)[i])
    decreases key.unmatched + 1 - lo
  {
    if lo <= key.unmatched {
      WithRankHasRank(key, s, lo);
      BucketsAbove(key, s, lo + 1);
    }
  }

  lemma {:induction false} WithRankConcat(key: SortKey, a: seq<Paragraph>, b: seq<Paragraph>, k: nat)
    ensures WithRank(key, a + b, k) == WithRank(key, a, k) + WithRank(key, b, k)
    decreases |a|
  {
    if a == [] {
      assert a + b == b;
    } else {
      assert (a + b)[0] == a[0] && (a + b)[1..] == a[1..] + b;
      WithRankConcat(key, a[1..], b, k);
    }
  }

  /** A list with no paragraph of rank `k` has an empty rank `k`. */
  lemma {:induction false} WithRankAbsent(key: SortKey, s: seq<Paragraph>, k: nat)
    requires forall i :: 0 <= i < |s| ==> Rank(key, s[i]) != k
    ensures WithRank(key, s, k) == []
    decreases |s|
  {
    if s != [] {
      WithRankAbsent(key, s[1..], k);
    }
  }

  /** A list of one rank has nothing of any other rank. */
  lemma {:induction false} WithRankOfUniform(key: SortKey, t: seq<Paragraph>, lo: nat, k: nat)
    requires forall i :: 0 <= i < |t| ==> Rank(key, t[i]) == lo
    ensures WithRank(key, t, k) == if k == lo then t else []
    decreases |t|
  {
    if t != [] {
      WithRankOfUniform(key, t[1..], lo, k);
    }
  }

  /** Each rank of a bucket layout is the same rank of the input. */
  lemma {:induction false} BucketsRanks(key: SortKey, s: seq<Paragraph>, lo: nat, k: nat)
    ensures WithRank(key, Buckets(key, s, lo), k) == if lo <= k <= key.unmatched then WithRank(key, s, k) else []
    decreases key.unmatched + 1 - lo
  {
    if lo <= key.unmatched {
      var w := WithRank(key, s, lo);
      var rest := Buckets(key, s, lo + 1);
      assert Buckets(key, s, lo) == w + rest;
      WithRankConcat(key, w, rest, k);
      WithRankHasRank(key, s, lo);
      WithRankOfUniform(key, w, lo, k);
      BucketsRanks(key, s, lo + 1, k);
      if k == lo {
        assert WithRank(key, rest, k) == [];
        assert w + [] == w;
      } else {
        assert WithRank(key, w, k) == [];
        assert [] + WithRank(key, rest, k) == WithRank(key, rest, k);
      }
    }
  }

  /** The bucket layout is sorted by rank. */
  lemma {:induction false} BucketsSorted(key: SortKey, s: seq<Paragraph>, lo: nat)
    ensures SortedByRank(key, Buckets(key, s, lo))
    decreases key.unmatched + 1 - lo
  {
    if lo <= key.unmatched {
      BucketsSorted(key, s, lo + 1);
      var w := WithRank(key, s, lo);
      var rest := Buckets(key, s, lo + 1);
      WithRankHasRank(key, s, lo);
      BucketsAbove(key, s, lo + 1);
      forall i, j | 0 <= i < j < |w + rest|
        ensures Rank(key, (w + rest)[i]) <= Rank(key, (w + rest)[j])
      {
        if j < |w| {
        } else if i < |w| {
          assert Rank(key, rest[j - |w|]) >= lo + 1;
        } else {
          assert Rank(key, rest[i - |w|]) <= Rank(key, rest[j - |w|]);
        }
      }
    }
  }

  /** Splitting off rank `lo` from the paragraphs of rank `lo` and above. */
  lemma {:induction false} AtLeastSplit(key: SortKey, s: seq<Paragraph>, lo: nat)
    ensures multiset(AtLeast(key, s, lo)) == multiset(WithRank(key, s, lo)) + multiset(AtLeast(key, s, lo + 1))
    decreases |s|
  {
    if s != [] {
      AtLeastSplit(key, s[1..], lo);
    }
  }

  lemma {:induction false} AtLeastZero(key: SortKey, s: seq<Paragraph>)
    ensures AtLeast(key, s, 0) == s
    decreases |s|
  {
    if s != [] {
      AtLeastZero(key, s[1..]);
    }
  }

  /** Nothing ranks above the key of unknown ids. */
  lemma {:induction false} AtLeastBeyond(key: SortKey, s: seq<Paragraph>, lo: nat)
    requires Valid(key) && key.unmatched < lo
    ensures AtLeast(key, s, lo) == []
    decreases |s|
  {
    if s != [] {
      AtLeastBeyond(key, s[1..], lo);
    }
  }

  lemma {:induction false} BucketsMultiset(key: SortKey, s: seq<Paragraph>, lo: nat)
    requires Valid(key)
    ensures multiset(Buckets(key, s, lo)) == multiset(AtLeast(key, s, lo))
    decreases key.unmatched + 1 - lo
  {
    if lo <= key.unmatched {
      BucketsStep(key, s, lo);
      BucketsMultiset(key, s, lo + 1);
      AtLeastSplit(key, s, lo);
      MultisetOfSplit(Buckets(key, s, lo), WithRank(key, s, lo), Buckets(key, s, lo + 1),
                      AtLeast(key, s, lo), AtLeast(key, s, lo + 1));
    } else {
      AtLeastBeyond(key, s, lo);
    }
  }

  /** One step of the layout: rank `lo`, then the ranks above it. */
  lemma BucketsStep(key: SortKey, s: seq<Paragraph>, lo: nat)
    requires lo <= key.unmatched
    ensures Buckets(key, s, lo) == WithRank(key, s, lo) + Buckets(key, s, lo + 1)
  {
  }

  /** The multiset step of `BucketsMultiset`, on plain sequences. */
  lemma MultisetOfSplit(whole: seq<Paragraph>, w: seq<Paragraph>, rest: seq<Paragraph>,
                        above: seq<Paragraph>, aboveNext: seq<Paragraph>)
    requires whole == w + rest
    requires multiset(rest) == multiset(aboveNext)
    requires multiset(above) == multiset(w) + multiset(aboveNext)
    ensures multiset(whole) == multiset(above)
  {
  }

  /**
   * Sorting only reorders: the sorted list holds exactly the paragraphs that
   * arrived, each as often as it arrived.
   */
  lemma SortIsPermutation(key: SortKey, s: seq<Paragraph>)
    requires Valid(key)
    ensures multiset(SortBy(key, s)) == multiset(s)
    ensures |SortBy(key, s)| == |s|
  {
    BucketsMultiset(key, s, 0);
    AtLeastZero(key, s);
    assert |SortBy(key, s)| == |multiset(SortBy(key, s))| == |multiset(s)| == |s|;
  }

  /**
   * The sorted list is ordered and stable: ranks never decrease, and the
   * paragraphs sharing a rank (the same id, or unknown ids) keep their
   * arrival order.
   */
  lemma SortIsStable(key: SortKey, s: seq<Paragraph>)
    requires Valid(key)
    ensures SortedByRank(key, SortBy(key, s))
    ensures SameRanks(key, SortBy(key, s), s)
  {
    BucketsSorted(key, s, 0);
    forall k: nat
      ensures WithRank(key, SortBy(key, s), k) == WithRank(key, s, k)
    {
      BucketsRanks(key, s, 0, k);
      if k > key.unmatched {
        WithRankAbsent(key, s, k);
      }
    }
  }

  /** Buckets only look at the ranks of their input. */
  lemma {:induction false} BucketsFollowRanks(key: SortKey, s: seq<Paragraph>, t: seq<Paragraph>, lo: nat)
    requires forall k :: lo <= k ==> WithRank(key, s, k) == WithRank(key, t, k)
    ensures Buckets(key, s, lo) == Buckets(key, t, lo)
    decreases key.unmatched + 1 - lo
  {
    if lo <= key.unmatched {
      BucketsFollowRanks(key, s, t, lo + 1);
    }
  }

  /** Past its first paragraph, a list has the same ranks above that paragraph's. */
  lemma DropFirstKeepsHigherRanks(key: SortKey, t: seq<Paragraph>, lo: nat)
    requires t != [] && Rank(key, t[0]) == lo
    ensures forall k :: lo + 1 <= k ==> WithRank(key, t, k) == WithRank(key, t[1..], k)
    ensures WithRank(key, t, lo) == [t[0]] + WithRank(key, t[1..], lo)
  {
  }

  /** The tail of a sorted list is sorted, and no rank in it is below the head's. */
  lemma SortedTail(key: SortKey, t: seq<Paragraph>)
    requires t != [] && SortedByRank(key, t)
    ensures SortedByRank(key, t[1..])
    ensures forall i :: 0 <= i < |t| ==> Rank(key, t[0]) <= Rank(key, t[i])
    ensures forall i :: 0 <= i < |t[1..]| ==> Rank(key, t[0]) <= Rank(key, t[1..][i])
  {
    forall i, j | 0 <= i < j < |t[1..]|
      ensures Rank(key, t[1..][i]) <= Rank(key, t[1..][j])
    {
      assert t[1..][i] == t[i + 1] && t[1..][j] == t[j + 1];
    }
  }

  /** A sorted list whose head has rank `lo` is its head followed by its tail's layout. */
  lemma BucketsOfHead(key: SortKey, t: seq<Paragraph>, lo: nat)
    requires lo <= key.unmatched
    requires t != [] && Rank(key, t[0]) == lo
    ensures Buckets(key, t, lo) == [t[0]] + Buckets(key, t[1..], lo)
  {
    var rest := t[1..];
    DropFirstKeepsHigherRanks(key, t, lo);
    BucketsFollowRanks(key, t, rest, lo + 1);
    BucketsStep(key, t, lo);
    BucketsStep(key, rest, lo);
    ConcatAssoc([t[0]], WithRank(key, rest, lo), Buckets(key, rest, lo + 1));
  }

  /** The layout of no paragraphs is empty. */
  lemma {:induction false} BucketsOfEmpty(key: SortKey, lo: nat)
    ensures Buckets(key, [], lo) == []
    decreases key.unmatched + 1 - lo
  {
    if lo <= key.unmatched {
      BucketsOfEmpty(key, lo + 1);
    }
  }

  /** A list without rank `lo` has the same layout from `lo` as from `lo + 1`. */
  lemma BucketsSkip(key: SortKey, t: seq<Paragraph>, lo: nat)
    requires lo <= key.unmatched
    requires forall i :: 0 <= i < |t| ==> lo < Rank(key, t[i])
    ensures Buckets(key, t, lo) == Buckets(key, t, lo + 1)
  {
    WithRankAbsent(key, t, lo);
  }

  /** A sorted list is its own bucket layout. */
  lemma {:induction false} SortedIsOwnBuckets(key: SortKey, t: seq<Paragraph>, lo: nat)
    requires Valid(key)
    requires SortedByRank(key, t)
    requires forall i :: 0 <= i < |t| ==> lo <= Rank(key, t[i])
    ensures Buckets(key, t, lo) == t
    decreases |t| + key.unmatched + 1 - lo
  {
    if t == [] {
      BucketsOfEmpty(key, lo);
    } else {
      SortedTail(key, t);
      if Rank(key, t[0]) == lo {
        BucketsOfHead(key, t, lo);
        SortedIsOwnBuckets(key, t[1..], lo);
        assert t == [t[0]] + t[1..];
      } else {
        BucketsSkip(key, t, lo);
        SortedIsOwnBuckets(key, t, lo + 1);
      }
    }
  }

  /**
   * The stable sort is unique: a list sorted by rank with the same
   * paragraphs in every rank as `s` is `SortBy(key, s)`.
   */
  lemma StableSortIsUnique(key: SortKey, s: seq<Paragraph>, t: seq<Paragraph>)
    requires Valid(key)
    requires SortedByRank(key, t)
    requires SameRanks(key, t, s)
    ensures t == SortBy(key, s)
  {
    SortedIsOwnBuckets(key, t, 0);
    BucketsFollowRanks(key, t, s, 0);
  }

  /** Swapping two neighbours of different ranks leaves every rank as it was. */
  lemma SwapKeepsRanks(key: SortKey, t: seq<Paragraph>, j: nat)
    requires 0 < j < |t|
    requires Rank(key, t[j - 1]) != Rank(key, t[j])
    ensures SameRanks(key, t[j - 1 := t[j]][j := t[j - 1]], t)
  {
    var u := t[j - 1 := t[j]][j := t[j - 1]];
    var front, back := t[..j - 1], t[j + 1..];
    assert t == front + ([t[j - 1], t[j]] + back);
    assert u == front + ([t[j], t[j - 1]] + back);
    forall k
      ensures WithRank(key, u, k) == WithRank(key, t, k)
    {
      WithRankConcat(key, front, [t[j - 1], t[j]] + back, k);
      WithRankConcat(key, [t[j - 1], t[j]], back, k);
      WithRankConcat(key, front, [t[j], t[j - 1]] + back, k);
      WithRankConcat(key, [t[j], t[j - 1]], back, k);
    }
  }

  /** Appending the same paragraph to lists with the same ranks keeps them alike. */
  lemma SameRanksExtend(key: SortKey, t: seq<Paragraph>, s: seq<Paragraph>, p: Paragraph)
    requires SameRanks(key, t, s)
    ensures SameRanks(key, t + [p], s + [p])
  {
    forall k
      ensures WithRank(key, t + [p], k) == WithRank(key, s + [p], k)
    {
      WithRankConcat(key, t, [p], k);
      WithRankConcat(key, s, [p], k);
    }
  }

  /**
   * While `t[j]` sinks through `t[..n]`: everything but `t[j]` is in order,
   * and every paragraph it has passed ranks strictly higher.
   */
  predicate Sinking(key: SortKey, t: seq<Paragraph>, j: nat)
    requires j < |t|
  {
    && (forall p, q :: 0 <= p < q < |t| && p != j && q != j ==> Rank(key, t[p]) <= Rank(key, t[q]))
    && (forall q :: j < q < |t| ==> Rank(key, t[j]) < Rank(key, t[q]))
  }

  /** Swapping the sinking paragraph with a higher-ranked one before it keeps `Sinking`. */
  lemma SinkStep(key: SortKey, t: seq<Paragraph>, j: nat)
    requires 0 < j < |t| && Sinking(key, t, j)
    requires Rank(key, t[j - 1]) > Rank(key, t[j])
    ensures Sinking(key, t[j - 1 := t[j]][j := t[j - 1]], j - 1)
  {
  }

  /** Once the paragraph before it ranks no higher, the sinking paragraph is in place. */
  lemma SinkDone(key: SortKey, t: seq<Paragraph>, j: nat)
    requires j < |t| && Sinking(key, t, j)
    requires j == 0 || Rank(key, t[j - 1]) <= Rank(key, t[j])
    ensures SortedByRank(key, t)
  {
    forall p, q | 0 <= p < q < |t|
      ensures Rank(key, t[p]) <= Rank(key, t[q])
    {
      if q == j && p < j - 1 {
        assert Rank(key, t[p]) <= Rank(key, t[j - 1]);
      }
    }
  }

  /**
   * One insertion step: moves `a[i]` down past the paragraphs of higher rank
   * before it, so that `a[..i + 1]` is sorted; equal ranks are not passed.
   */
  method SinkLast(key: SortKey, a: array<Paragraph>, i: nat)
    requires i < a.Length
    requires SortedByRank(key, a[..i])
    modifies a
    ensures SortedByRank(key, a[..i + 1])
    ensures SameRanks(key, a[..i + 1], old(a[..i + 1]))
    ensures a[i + 1..] == old(a[i + 1..])
  {
    var j := i;
    assert Sinking(key, a[..i + 1], j);
    while j > 0 && Rank(key, a[j - 1]) > Rank(key, a[j])
      invariant 0 <= j <= i
      invariant Sinking(key, a[..i + 1], j)
      invariant a[i + 1..] == old(a[i + 1..])
      invariant SameRanks(key, a[..i + 1], old(a[..i + 1]))
    {
      ghost var before := a[..i + 1];
      a[j - 1], a[j] := a[j], a[j - 1];
      assert a[..i + 1] == before[j - 1 := before[j]][j := before[j - 1]];
      SwapKeepsRanks(key, before, j);
      SinkStep(key, before, j);
      j := j - 1;
    }
    SinkDone(key, a[..i + 1], j);
  }

  /**
   * `paragraphs.sort(key=lambda x: order_map.get(x['node_id'], float('inf')))`:
   * sorts the list in place, stably, by rank.
   */
  method SortParagraphs(key: SortKey, a: array<Paragraph>)
    requires Valid(key)
    modifies a
    ensures a[..] == SortBy(key, old(a[..]))
  {
    ghost var s := a[..];
    var i := 0;
    while i < a.Length
      invariant 0 <= i <= a.Length
      invariant SortedByRank(key, a[..i])
      invariant a[i..] == s[i..]
      invariant SameRanks(key, a[..i], s[..i])
    {
      assert a[..i + 1] == a[..i] + [a[i]] && s[..i + 1] == s[..i] + [s[i]];
      SameRanksExtend(key, a[..i], s[..i], a[i]);
      SinkLast(key, a, i);
      i := i + 1;
    }
    assert a[..] == a[..a.Length] && s == s[..a.Length];
    StableSortIsUnique(key, s, a[..]);
  }

  /** Rank `k` of `xs` counts each paragraph of rank `k` as often as `xs` does, and nothing else. */
  lemma {:induction false} WithRankCounts(key: SortKey, xs: seq<Paragraph>, k: nat)
    ensures forall x :: multiset(WithRank(key, xs, k))[x] == if Rank(key, x) == k then multiset(xs)[x] else 0
    decreases |xs|
  {
    if xs != [] {
      WithRankCounts(key, xs[1..], k);
      assert xs == [xs[0]] + xs[1..];
    }
  }

  /** Reordering the input does not change which paragraphs each rank holds, only their order. */
  lemma WithRankPermutation(key: SortKey, xs: seq<Paragraph>, ys: seq<Paragraph>, k: nat)
    requires multiset(xs) == multiset(ys)
    ensures multiset(WithRank(key, xs, k)) == multiset(WithRank(key, ys, k))
  {
    WithRankCounts(key, xs, k);
    WithRankCounts(key, ys, k);
  }

  /** A list in which each paragraph's rank is its position has one paragraph per rank. */
  lemma {:induction false} PositionalRanks(key: SortKey, t: seq<Paragraph>, k: nat)
    requires forall i :: 0 <= i < |t| ==> Rank(key, t[i]) == i
    ensures WithRank(key, t, k) == if k < |t| then [t[k]] else []
    decreases |t|
  {
    if t != [] {
      var n := |t|;
      PositionalRanks(key, t[..n - 1], k);
      assert t == t[..n - 1] + [t[n - 1]];
      WithRankConcat(key, t[..n - 1], [t[n - 1]], k);
    }
  }

  /**
   * When each paragraph's rank is its position in `t`, sorting any
   * reordering of `t` gives `t` back.
   */
  lemma SortRestoresPositional(key: SortKey, t: seq<Paragraph>, arrived: seq<Paragraph>)
    requires Valid(key)
    requires forall i :: 0 <= i < |t| ==> Rank(key, t[i]) == i
    requires multiset(arrived) == multiset(t)
    ensures SortBy(key, arrived) == t
  {
    forall k: nat
      ensures WithRank(key, t, k) == WithRank(key, arrived, k)
    {
      PositionalRanks(key, t, k);
      WithRankPermutation(key, arrived, t, k);
      var w := WithRank(key, arrived, k);
      assert |w| == |multiset(w)|;
      if k < |t| {
        assert w[0] in multiset(w);
        assert w == [w[0]];
      }
    }
    StableSortIsUnique(key, arrived, t);
  }

  /** Paragraphs whose id is not in the outline all come after the ones whose id is. */
  lemma UnmatchedLast(ids: seq<string>, s: seq<Paragraph>, i: nat, j: nat)
    requires i < j < |SortByOutline(ids, s)|
    requires SortByOutline(ids, s)[i].node_id !in ids
    ensures SortByOutline(ids, s)[j].node_id !in ids
  {
    var key := KeyOf(ids);
    var t := SortByOutline(ids, s);
    BucketsSorted(key, s, 0);
    assert Rank(key, t[i]) <= Rank(key, t[j]);
  }

  /**
   * A paragraph whose id is in the outline is ranked at that id's position,
   * its last one when the id repeats.
   */
  lemma RankIsLastPosition(ids: seq<string>, p: Paragraph, i: nat)
    requires i < |ids| && ids[i] == p.node_id
    ensures i <= Rank(KeyOf(ids), p) < |ids|
    ensures ids[Rank(KeyOf(ids), p)] == p.node_id
    ensures forall j :: Rank(KeyOf(ids), p) < j < |ids| ==> ids[j] != p.node_id
  {
    var m := OrderMap(ids);
    forall j | Rank(KeyOf(ids), p) < j < |ids|
      ensures ids[j] != p.node_id
    {
      assert j <= m[ids[j]];
    }
  }

  /** Distinct ids: a paragraph has rank `k` exactly when its id is `ids[k]`. */
  lemma DistinctRank(ids: seq<string>, p: Paragraph, k: nat)
    requires Distinct(ids) && k < |ids|
    ensures Rank(KeyOf(ids), p) == k <==> p.node_id == ids[k]
  {
    var m := OrderMap(ids);
    if p.node_id == ids[k] {
      assert ids[m[ids[k]]] == ids[k];
    }
  }

  /** When rank `k` is id `x`, rank `k` holds as many paragraphs as carry `x`. */
  lemma {:induction false} RankCountsId(key: SortKey, s: seq<Paragraph>, k: nat, x: string)
    requires forall p: Paragraph :: Rank(key, p) == k <==> p.node_id == x
    ensures |WithRank(key, s, k)| == multiset(Ids(s))[x]
    decreases |s|
  {
    if s == [] {
      assert Ids(s) == [];
    } else {
      RankCountsId(key, s[1..], k, x);
      IdsFront(s);
      CountFront(s[0].node_id, Ids(s[1..]), x);
    }
  }

  /** When rank `k` is id `x`, every paragraph of rank `k` carries `x`. */
  lemma RankHoldsId(key: SortKey, s: seq<Paragraph>, k: nat, x: string)
    requires forall p: Paragraph :: Rank(key, p) == k <==> p.node_id == x
    ensures forall i :: 0 <= i < |WithRank(key, s, k)| ==> WithRank(key, s, k)[i].node_id == x
  {
    WithRankHasRank(key, s, k);
  }

  lemma IdsFront(s: seq<Paragraph>)
    requires s != []
    ensures Ids(s) == [s[0].node_id] + Ids(s[1..])
  {
  }

  lemma CountFront(first: string, rest: seq<string>, x: string)
    ensures multiset([first] + rest)[x] == (if first == x then 1 else 0) + multiset(rest)[x]
  {
  }

  lemma DistinctCountsOnce(ids: seq<string>, k: nat)
    requires Distinct(ids) && k < |ids|
    ensures multiset(ids)[ids[k]] == 1
  {
    assert ids == ids[..k] + [ids[k]] + ids[k + 1..];
    assert ids[k] !in ids[..k];
    assert ids[k] !in ids[k + 1..];
  }

  lemma IdsConcat(a: seq<Paragraph>, b: seq<Paragraph>)
    ensures Ids(a + b) == Ids(a) + Ids(b)
  {
  }

  /** Every paragraph carries an outline id, so none has the unmatched rank. */
  lemma NoneUnmatched(ids: seq<string>, s: seq<Paragraph>)
    requires multiset(Ids(s)) == multiset(ids)
    ensures WithRank(KeyOf(ids), s, |ids|) == []
  {
    var key := KeyOf(ids);
    forall i | 0 <= i < |s|
      ensures Rank(key, s[i]) != |ids|
    {
      assert Ids(s)[i] in multiset(ids);
    }
    WithRankAbsent(key, s, |ids|);
  }

  /** Distinct ids, each carried once: rank `lo` is the one paragraph with id `ids[lo]`. */
  lemma OneAtEachPosition(ids: seq<string>, s: seq<Paragraph>, lo: nat)
    requires Distinct(ids) && multiset(Ids(s)) == multiset(ids)
    requires lo < |ids|
    ensures Ids(WithRank(KeyOf(ids), s, lo)) == [ids[lo]]
  {
    var key := KeyOf(ids);
    forall p: Paragraph
      ensures Rank(key, p) == lo <==> p.node_id == ids[lo]
    {
      DistinctRank(ids, p, lo);
    }
    RankCountsId(key, s, lo, ids[lo]);
    RankHoldsId(key, s, lo, ids[lo]);
    DistinctCountsOnce(ids, lo);
  }

  /**
   * A layout whose rank `k` holds one paragraph with id `ids[k]` for every
   * position `k` from `lo` on, and whose unmatched rank is empty, lists the
   * ids from `lo` on.
   */
  lemma {:induction false} BucketsFollowIds(key: SortKey, s: seq<Paragraph>, ids: seq<string>, lo: nat)
    requires key.unmatched == |ids| && lo <= |ids|
    requires forall k :: lo <= k < |ids| ==> Ids(WithRank(key, s, k)) == [ids[k]]
    requires WithRank(key, s, |ids|) == []
    ensures Ids(Buckets(key, s, lo)) == ids[lo..]
    decreases |ids| - lo
  {
    BucketsStep(key, s, lo);
    if lo == |ids| {
      assert Buckets(key, s, lo + 1) == [];
    } else {
      BucketsFollowIds(key, s, ids, lo + 1);
      IdsConcat(WithRank(key, s, lo), Buckets(key, s, lo + 1));
      assert ids[lo..] == [ids[lo]] + ids[lo + 1..];
    }
  }

  lemma BucketsFollowOutline(ids: seq<string>, s: seq<Paragraph>)
    requires Distinct(ids) && multiset(Ids(s)) == multiset(ids)
    ensures Ids(Buckets(KeyOf(ids), s, 0)) == ids
  {
    forall k | 0 <= k < |ids|
      ensures Ids(WithRank(KeyOf(ids), s, k)) == [ids[k]]
    {
      OneAtEachPosition(ids, s, k);
    }
    NoneUnmatched(ids, s);
    BucketsFollowIds(KeyOf(ids), s, ids, 0);
  }

  /**
   * When the paragraphs carry exactly the outline's ids, each once, the
   * sorted list follows the outline whatever order the paragraphs arrived in.
   */
  lemma OutlineOrderRestored(ids: seq<string>, s: seq<Paragraph>)
    requires Distinct(ids)
    requires multiset(Ids(s)) == multiset(ids)
    ensures Ids(SortByOutline(ids, s)) == ids
  {
    BucketsFollowOutline(ids, s);
  }
}
