/** One round of Lloyd's algorithm as a reference definition: tag every point with its first
    nearest centroid, then replace every centroid by the mean of its cluster (the zero vector for
    an empty cluster). The variants are related to it rather than to each other. */
module Lloyd {
  import opened Vectors
  import opened Clusters
  import opened Assignment

  /** `K` centroids of dimension `d`. */
  predicate Centroids(cs: seq<Vec>, K: nat, d: nat) {
    |cs| == K && IsMatrix(cs, d)
  }

  function Step(data: seq<Vec>, cs: seq<Vec>, K: nat, d: nat): (r: seq<Vec>)
    requires K >= 1 && IsMatrix(data, d) && Centroids(cs, K, d)
    ensures Centroids(r, K, d)
  {
    Average(data, Tags(data, cs, K, d), K, d)
  }

  /** The centroids after `m` rounds from `cs`. */
  function Iterate(data: seq<Vec>, cs: seq<Vec>, K: nat, d: nat, m: nat): (r: seq<Vec>)
    requires K >= 1 && IsMatrix(data, d) && Centroids(cs, K, d)
    ensures Centroids(r, K, d)
    decreases m
  {
    if m == 0 then cs else Iterate(data, Step(data, cs, K, d), K, d, m - 1)
  }

  /** Running `m` rounds is running one round and then `m - 1` more. */
  lemma IterateUnfolds(data: seq<Vec>, cs: seq<Vec>, K: nat, d: nat, m: nat)
    requires K >= 1 && IsMatrix(data, d) && Centroids(cs, K, d) && m >= 1
    ensures Iterate(data, cs, K, d, m) == Iterate(data, Step(data, cs, K, d), K, d, m - 1)
  {
  }

  /** Every centroid attracts at least one point. */
  predicate NoEmptyCluster(data: seq<Vec>, cs: seq<Vec>, K: nat, d: nat)
    requires K >= 1 && IsMatrix(data, d) && Centroids(cs, K, d)
  {
    forall c :: 0 <= c < K ==> Count(Tags(data, cs, K, d), |data|, c) > 0
  }

  /** None of the first `m` rounds from `cs` meets an empty cluster. */
  predicate NoEmptyClusterFor(data: seq<Vec>, cs: seq<Vec>, K: nat, d: nat, m: nat)
    requires K >= 1 && IsMatrix(data, d) && Centroids(cs, K, d)
    decreases m
  {
    m == 0 || (NoEmptyCluster(data, cs, K, d) && NoEmptyClusterFor(data, Step(data, cs, K, d), K, d, m - 1))
  }
}
