/** The assignment step: the index of the nearest centroid, ties going to the lowest index
    because every variant replaces its best candidate only on a strictly smaller distance. */
module Assignment {
  import opened Outcomes
  import opened Vectors
  import opened Clusters

  /** Centroids `0 .. k-1` exist and have at least `d` coordinates. */
  predicate CentroidsFit(cs: seq<Vec>, k: nat, d: nat) {
    k <= |cs| && forall c :: 0 <= c < k ==> d <= |cs[c]|
  }

  /** `i` is the lowest index among centroids `0 .. k-1` at minimal distance from `p`. */
  predicate IsFirstNearest(p: Vec, cs: seq<Vec>, k: nat, d: nat, i: int)
    requires d <= |p| && CentroidsFit(cs, k, d)
  {
    && 0 <= i < k
    && (forall j {:trigger SqDist(p, cs[j], d)} :: 0 <= j < k ==> SqDist(p, cs[i], d) <= SqDist(p, cs[j], d))
    && (forall j {:trigger SqDist(p, cs[j], d)} :: 0 <= j < i ==> SqDist(p, cs[j], d) > SqDist(p, cs[i], d))
  }

  lemma FirstNearestUnique(p: Vec, cs: seq<Vec>, k: nat, d: nat, i: int, i': int)
    requires d <= |p| && CentroidsFit(cs, k, d)
    requires IsFirstNearest(p, cs, k, d, i) && IsFirstNearest(p, cs, k, d, i')
    ensures i == i'
  {
    assert SqDist(p, cs[i], d) <= SqDist(p, cs[i'], d);
    assert SqDist(p, cs[i'], d) <= SqDist(p, cs[i], d);
  }

  /** `find_closest_centroid_index`: the scan over centroids `0 .. k-1` that keeps a candidate
      only when its distance is strictly smaller than the best so far. The `INFINITY` start
      value becomes "the first candidate always wins"; with no centroid the result is -1. */
  function Nearest(p: Vec, cs: seq<Vec>, k: nat, d: nat): (r: int)
    requires d <= |p| && CentroidsFit(cs, k, d)
    ensures k == 0 ==> r == -1
    ensures k > 0 ==> IsFirstNearest(p, cs, k, d, r)
  {
    if k == 0 then -1
    else
      var best := Nearest(p, cs, k - 1, d);
      if best == -1 || SqDist(p, cs[k - 1], d) < SqDist(p, cs[best], d) then k - 1 else best
  }

  /** `find_closest_centroid_index` as a loop: the index starts at -1 and the running minimum
      at `INFINITY` (here `None`), and a centroid replaces the best so far only when strictly
      closer. */
  method FindClosest(p: Vec, cs: seq<Vec>, k: nat, d: nat) returns (closest: int)
    requires d <= |p| && CentroidsFit(cs, k, d)
    ensures closest == Nearest(p, cs, k, d)
  {
    var closestDistance: Option<real> := None;
    closest := -1;
    var i := 0;
    while i < k
      invariant 0 <= i <= k
      invariant i == 0 <==> closestDistance.None?
      invariant i == 0 ==> closest == -1
      invariant i > 0 ==> IsFirstNearest(p, cs, i, d, closest)
      invariant i > 0 ==> closestDistance == Some(SqDist(p, cs[closest], d))
    {
      var dis := Distance(p, cs[i], d);
      if closestDistance.None? || dis < closestDistance.value {
        closestDistance := Some(dis);
        closest := i;
      }
      i := i + 1;
    }
    if k > 0 {
      FirstNearestUnique(p, cs, k, d, closest, Nearest(p, cs, k, d));
    }
  }

  /** The tags of every point against centroids `0 .. k-1`. */
  function Tags(data: seq<Vec>, cs: seq<Vec>, k: nat, d: nat): (tags: seq<int>)
    requires k >= 1 && IsMatrix(data, d) && CentroidsFit(cs, k, d)
    ensures |tags| == |data| && TagsInRange(tags, k)
    ensures forall i {:trigger IsFirstNearest(data[i], cs, k, d, tags[i])} ::
              0 <= i < |data| ==> IsFirstNearest(data[i], cs, k, d, tags[i])
  {
    seq(|data|, i requires 0 <= i < |data| => Nearest(data[i], cs, k, d))
  }

  /** `tag` (mia_k_mean.c, and identically kmeansmodule_mia.c): for every point, the inner loop
      over the `K` centroids with a running minimum that starts at `INFINITY` (here `None`). */
  method Tag(data: seq<Vec>, centroids: seq<Vec>, n: nat, K: nat, d: nat) returns (tags: seq<int>)
    requires n == |data| && K >= 1 && IsMatrix(data, d) && CentroidsFit(centroids, K, d)
    ensures |tags| == n
    ensures forall i :: 0 <= i < n ==> IsFirstNearest(data[i], centroids, K, d, tags[i])
    ensures tags == Tags(data, centroids, K, d)
  {
    tags := [];
    var i := 0;
    while i < n
      invariant 0 <= i <= n && |tags| == i
      invariant forall i' :: 0 <= i' < i ==> IsFirstNearest(data[i'], centroids, K, d, tags[i'])
    {
      var minDistance: Option<real> := None;
      var tag := 0;
      var j := 0;
      while j < K
        invariant 0 <= j <= K
        invariant j == 0 <==> minDistance.None?
        invariant j > 0 ==> IsFirstNearest(data[i], centroids, j, d, tag)
        invariant j > 0 ==> minDistance == Some(SqDist(data[i], centroids[tag], d))
      {
        var distance := Distance(data[i], centroids[j], d);
        if minDistance.None? || distance < minDistance.value {
          minDistance := Some(distance);
          tag := j;
        }
        j := j + 1;
      }
      tags := tags + [tag];
      i := i + 1;
    }
    forall i | 0 <= i < n
      ensures tags[i] == Tags(data, centroids, K, d)[i]
    {
      FirstNearestUnique(data[i], centroids, K, d, tags[i], Tags(data, centroids, K, d)[i]);
    }
  }
}
