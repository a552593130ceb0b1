/** Clusters derived from an assignment: the tags `tags[i]` give the cluster of point `i`; a
    cluster is never stored, only recovered by filtering the tags. */
module Clusters {
  import opened Vectors

  /** Every tag names one of the clusters `0 .. K-1`. */
  predicate TagsInRange(tags: seq<int>, K: nat) {
    forall i :: 0 <= i < |tags| ==> 0 <= tags[i] < K
  }

  /** How many of the first `m` tags name cluster `c`. */
  function Count(tags: seq<int>, m: nat, c: int): nat
    requires m <= |tags|
  {
    if m == 0 then 0 else Count(tags, m - 1, c) + (if tags[m - 1] == c then 1 else 0)
  }

  /** The points among the first `m` whose tag is `c`, in data order. */
  function Members(data: seq<Vec>, tags: seq<int>, m: nat, c: int): (r: seq<Vec>)
    requires m <= |tags| && m <= |data|
    ensures |r| == Count(tags, m, c)
    ensures forall d: nat :: IsMatrix(data, d) ==> IsMatrix(r, d)
  {
    if m == 0 then []
    else Members(data, tags, m - 1, c) + (if tags[m - 1] == c then [data[m - 1]] else [])
  }

  /** Sum of a sequence of counts. */
  function Total(xs: seq<int>): int {
    if |xs| == 0 then 0 else Total(xs[..|xs| - 1]) + xs[|xs| - 1]
  }

  /** The sizes of the `K` clusters among the first `m` tags. */
  function Sizes(tags: seq<int>, m: nat, K: nat): (r: seq<int>)
    requires m <= |tags|
    ensures |r| == K && forall c :: 0 <= c < K ==> r[c] == Count(tags, m, c)
  {
    seq(K, c => Count(tags, m, c))
  }

  lemma {:induction false} TotalAfterIncrement(xs: seq<int>, t: nat)
    requires t < |xs|
    ensures Total(xs[t := xs[t] + 1]) == Total(xs) + 1
  {
    var ys := xs[t := xs[t] + 1];
    var n := |xs|;
    if t == n - 1 {
      assert ys[..n - 1] == xs[..n - 1];
    } else {
      TotalAfterIncrement(xs[..n - 1], t);
      assert ys[..n - 1] == xs[..n - 1][t := xs[t] + 1];
    }
  }

  lemma {:induction false} TotalOfZeros(xs: seq<int>)
    requires forall i :: 0 <= i < |xs| ==> xs[i] == 0
    ensures Total(xs) == 0
  {
    if |xs| > 0 {
      TotalOfZeros(xs[..|xs| - 1]);
    }
  }

  lemma {:induction false} TotalOfSum(xs: seq<int>, ys: seq<int>, zs: seq<int>)
    requires |xs| == |ys| == |zs|
    requires forall i :: 0 <= i < |zs| ==> zs[i] == xs[i] + ys[i]
    ensures Total(zs) == Total(xs) + Total(ys)
  {
    var n := |zs|;
    if n > 0 {
      TotalOfSum(xs[..n - 1], ys[..n - 1], zs[..n - 1]);
    }
  }

  /** When every tag names one of the `K` clusters, the cluster sizes add up to the number of
      tagged points: every point is counted in exactly one cluster. */
  lemma {:induction false} SizesSumToCount(tags: seq<int>, m: nat, K: nat)
    requires m <= |tags| && TagsInRange(tags, K)
    ensures Total(Sizes(tags, m, K)) == m
  {
    if m == 0 {
      TotalOfZeros(Sizes(tags, 0, K));
    } else {
      SizesSumToCount(tags, m - 1, K);
      var t := tags[m - 1];
      var before := Sizes(tags, m - 1, K);
      TotalAfterIncrement(before, t);
      assert Sizes(tags, m, K) == before[t := before[t] + 1];
    }
  }

  /** The update policy of `vectors_average`: the centroid of a cluster with members is their
      coordinate-wise mean, and the centroid of a cluster without members is the zero vector. */
  function Average(data: seq<Vec>, tags: seq<int>, K: nat, d: nat): (r: seq<Vec>)
    requires |tags| == |data| && IsMatrix(data, d)
    ensures |r| == K && IsMatrix(r, d)
  {
    seq(K, c requires 0 <= c < K =>
      if Count(tags, |tags|, c) == 0 then Zero(d)
      else Mean(Members(data, tags, |tags|, c), d))
  }

  /** A cluster without members gets the zero vector, and every coordinate of a centroid times
      the size of its cluster is the sum of that coordinate over the cluster's members (for an
      empty cluster both sides are zero). */
  lemma AverageScaledBySize(data: seq<Vec>, tags: seq<int>, K: nat, d: nat, c: nat, j: nat)
    requires |tags| == |data| && IsMatrix(data, d) && c < K && j < d
    ensures Count(tags, |tags|, c) == 0 ==> Average(data, tags, K, d)[c] == Zero(d)
    ensures var members := Members(data, tags, |tags|, c);
      HasCoordinate(members, j) &&
      (Count(tags, |tags|, c) as real) * Average(data, tags, K, d)[c][j] == CoordSum(members, j)
  {
    var members := Members(data, tags, |tags|, c);
    var n := Count(tags, |tags|, c) as real;
    if members == [] {
      assert CoordSum(members, j) == 0.0;
    } else {
      var sums := ColumnSums(members, d);
      assert Average(data, tags, K, d)[c] == Scale(sums, |members|);
      assert Average(data, tags, K, d)[c][j] == sums[j] / n;
      assert n * (sums[j] / n) == sums[j];
    }
  }
}
