/** The snapshot variant (mia_k_mean.c; kmeansmodule_mia.c holds the same `tag`,
    `vectors_average` and loop). Every pass recomputes the centroids from scratch and compares
    them with a copy of the previous centroids. The run stops early once no centroid moved
    more than EPSILON. */
module Snapshot {
  import opened Vectors
  import opened Clusters
  import opened Assignment
  import opened Lloyd

  /** EPSILON of mia_k_mean.c; kmeansmodule_mia.c takes it from its caller. */
  const MiaEpsilon: real := 0.001

  /** The first loop of `vectors_average`: every centroid zeroed and every size cleared, then
      for each point in order its cluster's size grows by one and its cluster's centroid by the
      point. Afterwards each size is the number of points tagged with the cluster and each
      centroid the coordinate sums of those points. */
  method AccumulateClusters(data: seq<Vec>, tags: seq<int>, n: nat, K: nat, d: nat)
    returns (sums: seq<Vec>, sizes: seq<int>)
    requires n == |data| == |tags| && IsMatrix(data, d) && TagsInRange(tags, K)
    ensures |sums| == K && |sizes| == K
    ensures forall c :: 0 <= c < K ==> sizes[c] == Count(tags, n, c)
    ensures forall c :: 0 <= c < K ==> sums[c] == ColumnSums(Members(data, tags, n, c), d)
  {
    sizes := seq(K, _ => 0);
    sums := seq(K, _ => Zero(d));
    ColumnSumsEmpty(d);
    var i := 0;
    while i < n
      invariant 0 <= i <= n && |sums| == K && |sizes| == K
      invariant forall c :: 0 <= c < K ==> sizes[c] == Count(tags, i, c)
      invariant forall c :: 0 <= c < K ==> sums[c] == ColumnSums(Members(data, tags, i, c), d)
    {
      var cluster := tags[i];
      ColumnSumsSnoc(Members(data, tags, i, cluster), data[i], d);
      assert Members(data, tags, i + 1, cluster) == Members(data, tags, i, cluster) + [data[i]];
      assert forall c :: 0 <= c < K && c != cluster ==> Members(data, tags, i + 1, c) == Members(data, tags, i, c);
      sizes := sizes[cluster := sizes[cluster] + 1];
      sums := sums[cluster := Add(sums[cluster], data[i])];
      i := i + 1;
    }
  }

  /** The second loop of `vectors_average`: the coordinate sums of every cluster with members
      divided by its size; a cluster without members keeps the zero vector. */
  method DivideClusters(data: seq<Vec>, tags: seq<int>, sums: seq<Vec>, sizes: seq<int>, K: nat, d: nat)
    returns (centroids: seq<Vec>)
    requires |data| == |tags| && IsMatrix(data, d) && |sums| == K && |sizes| == K
    requires forall c :: 0 <= c < K ==> sizes[c] == Count(tags, |tags|, c)
    requires forall c :: 0 <= c < K ==> sums[c] == ColumnSums(Members(data, tags, |tags|, c), d)
    ensures centroids == Average(data, tags, K, d)
  {
    ColumnSumsEmpty(d);
    centroids := sums;
    var c := 0;
    while c < K
      invariant 0 <= c <= K && |centroids| == K
      invariant forall c' :: 0 <= c' < c ==> centroids[c'] == Average(data, tags, K, d)[c']
      invariant forall c' :: c <= c' < K ==> centroids[c'] == sums[c']
    {
      if sizes[c] != 0 {
        centroids := centroids[c := Scale(centroids[c], sizes[c])];
      }
      c := c + 1;
    }
  }

  /** `vectors_average`: the new centroid of a cluster with members is their mean, and a
      cluster without members gets the zero vector, whatever its centroid was. */
  method VectorsAverage(data: seq<Vec>, tags: seq<int>, n: nat, K: nat, d: nat) returns (centroids: seq<Vec>)
    requires n == |data| == |tags| && IsMatrix(data, d) && TagsInRange(tags, K)
    ensures centroids == Average(data, tags, K, d)
  {
    var sums, sizes := AccumulateClusters(data, tags, n, K, d);
    centroids := DivideClusters(data, tags, sums, sizes, K, d);
  }

  /** `!(distance > EPSILON)` on the squared distance `sq`: a negative EPSILON is exceeded by
      every distance. */
  predicate Within(sq: real, eps: real) {
    eps >= 0.0 && sq <= eps * eps
  }

  /** `Within` is the negation of the source's `distance > EPSILON` test on the Euclidean
      distance whose square is `sq`. */
  lemma WithinIsDistanceTest(sq: real, dist: real, eps: real)
    requires dist >= 0.0 && dist * dist == sq
    ensures Within(sq, eps) <==> !(dist > eps)
  {
    SqrtThreshold(sq, dist, eps);
  }

  /** No centroid among `0 .. K-1` is more than `eps` from its snapshot. */
  predicate AllClose(cs: seq<Vec>, prev: seq<Vec>, K: nat, d: nat, eps: real)
    requires Centroids(cs, K, d) && Centroids(prev, K, d)
  {
    forall i {:trigger SqDist(cs[i], prev[i], d)} :: 0 <= i < K ==> Within(SqDist(cs[i], prev[i], d), eps)
  }

  /** The `close_enough` scan of `kmeans`: it stops at the first centroid farther than `eps`
      from its snapshot. */
  method CloseEnough(cs: seq<Vec>, prev: seq<Vec>, K: nat, d: nat, eps: real) returns (close: bool)
    requires Centroids(cs, K, d) && Centroids(prev, K, d)
    ensures close <==> AllClose(cs, prev, K, d, eps)
  {
    close := true;
    var i := 0;
    while i < K
      invariant 0 <= i <= K
      invariant forall i' :: 0 <= i' < i ==> Within(SqDist(cs[i'], prev[i'], d), eps)
    {
      var distance := Distance(cs[i], prev[i], d);
      if !Within(distance, eps) {
        close := false;
        break;
      }
      i := i + 1;
    }
  }

  /** A centroid update: the new centroids computed from the current ones. */
  type Update = seq<Vec> --> seq<Vec>

  /** `update` accepts `K` centroids of dimension `d` and returns as many. */
  ghost predicate KeepsShape(update: Update, K: nat, d: nat) {
    && (forall cs {:trigger update.requires(cs)} :: Centroids(cs, K, d) ==> update.requires(cs))
    && (forall cs {:trigger update(cs)} :: Centroids(cs, K, d) ==> Centroids(update(cs), K, d))
  }

  /** One pass of `kmeans` on the points `data`: `tag`, then `vectors_average`. */
  function LloydUpdate(data: seq<Vec>, K: nat, d: nat): (update: Update)
    requires K >= 1 && IsMatrix(data, d)
    ensures KeepsShape(update, K, d)
    ensures forall cs {:trigger update(cs)} :: Centroids(cs, K, d) ==> update(cs) == Step(data, cs, K, d)
  {
    cs requires Centroids(cs, K, d) => Step(data, cs, K, d)
  }

  /** The centroids after `m` updates from `cs`. */
  function Rounds(update: Update, cs: seq<Vec>, K: nat, d: nat, m: nat): (r: seq<Vec>)
    requires KeepsShape(update, K, d) && Centroids(cs, K, d)
    ensures Centroids(r, K, d)
    decreases m
  {
    if m == 0 then cs else Rounds(update, update(cs), K, d, m - 1)
  }

  /** With the update of `kmeans`, the rounds are those of Lloyd's algorithm. */
  lemma {:induction false} RoundsAreLloyd(data: seq<Vec>, cs: seq<Vec>, K: nat, d: nat, m: nat)
    requires K >= 1 && IsMatrix(data, d) && Centroids(cs, K, d)
    decreases m
    ensures Rounds(LloydUpdate(data, K, d), cs, K, d, m) == Iterate(data, cs, K, d, m)
  {
    if m > 0 {
      RoundsAreLloyd(data, Step(data, cs, K, d), K, d, m - 1);
    }
  }

  /** The `for` loop of `kmeans` from centroids `cs` and snapshot `prev` after `passes` passes:
      while fewer than `iter` passes have run, recompute the centroids, and stop if every
      centroid is within `eps` of the snapshot, else refresh the snapshot. The result is the
      final centroids and the number of passes run. */
  function Run(update: Update, cs: seq<Vec>, prev: seq<Vec>, passes: nat, iter: int, K: nat, d: nat, eps: real)
    : (r: (seq<Vec>, nat))
    requires KeepsShape(update, K, d) && Centroids(cs, K, d) && Centroids(prev, K, d)
    decreases iter - passes
    ensures Centroids(r.0, K, d) && r.1 >= passes
  {
    if passes >= iter then (cs, passes)
    else
      var next := update(cs);
      if AllClose(next, prev, K, d, eps) then (next, passes + 1)
      else Run(update, next, next, passes + 1, iter, K, d, eps)
  }

  /** Update `j + 1` from `cs` moves no centroid more than `eps` away from where update `j`
      left it. */
  predicate Settled(update: Update, cs: seq<Vec>, K: nat, d: nat, eps: real, j: nat)
    requires KeepsShape(update, K, d) && Centroids(cs, K, d)
  {
    AllClose(Rounds(update, cs, K, d, j + 1), Rounds(update, cs, K, d, j), K, d, eps)
  }

  /** Running `m + 1` updates is running one and then `m` more. */
  lemma RoundsUnfold(update: Update, cs: seq<Vec>, K: nat, d: nat, m: nat)
    requires KeepsShape(update, K, d) && Centroids(cs, K, d)
    ensures Rounds(update, cs, K, d, m + 1) == Rounds(update, update(cs), K, d, m)
  {
  }

  /** Update `j + 2` from `cs` is update `j + 1` from the centroids after one update. */
  lemma SettledShift(update: Update, cs: seq<Vec>, K: nat, d: nat, eps: real, j: nat)
    requires KeepsShape(update, K, d) && Centroids(cs, K, d)
    ensures Settled(update, cs, K, d, eps, j + 1) == Settled(update, update(cs), K, d, eps, j)
  {
    RoundsUnfold(update, cs, K, d, j);
    RoundsUnfold(update, cs, K, d, j + 1);
  }

  /** From a snapshot equal to the centroids, the run is the sequence of updates cut off at the
      first settled one: it returns the centroids after its passes, no pass before the last one
      settled, and it stops before `iter` passes only on a settled pass. It never runs more than
      `iter` passes. */
  lemma {:induction false} RunStopsAtFirstSettledPass(update: Update, cs: seq<Vec>, passes: nat, iter: int, K: nat, d: nat, eps: real)
    requires KeepsShape(update, K, d) && Centroids(cs, K, d)
    decreases iter - passes
    ensures var r := Run(update, cs, cs, passes, iter, K, d, eps);
      && r.0 == Rounds(update, cs, K, d, r.1 - passes)
      && (r.1 == passes || r.1 <= iter)
      && (forall j :: 0 <= j < r.1 - passes - 1 ==> !Settled(update, cs, K, d, eps, j))
      && (r.1 < iter ==> r.1 > passes && Settled(update, cs, K, d, eps, r.1 - passes - 1))
  {
    if passes < iter {
      var next := update(cs);
      RoundsUnfold(update, cs, K, d, 0);
      assert Settled(update, cs, K, d, eps, 0) == AllClose(next, cs, K, d, eps);
      if !AllClose(next, cs, K, d, eps) {
        RunStopsAtFirstSettledPass(update, next, passes + 1, iter, K, d, eps);
        var r := Run(update, next, next, passes + 1, iter, K, d, eps);
        assert Run(update, cs, cs, passes, iter, K, d, eps) == r;
        var m := r.1 - passes;
        RoundsUnfold(update, cs, K, d, m - 1);
        forall j | 0 < j < m - 1
          ensures !Settled(update, cs, K, d, eps, j)
        {
          SettledShift(update, cs, K, d, eps, j - 1);
        }
        if r.1 < iter {
          SettledShift(update, cs, K, d, eps, m - 2);
        }
      }
    }
  }

  /** With the update of `kmeans`, a run from a snapshot equal to the centroids ends on the
      centroids of Lloyd's algorithm after the passes it ran. */
  lemma SnapshotRunIsLloyd(data: seq<Vec>, cs: seq<Vec>, iter: int, K: nat, d: nat, eps: real)
    requires K >= 1 && IsMatrix(data, d) && Centroids(cs, K, d)
    ensures var r := Run(LloydUpdate(data, K, d), cs, cs, 0, iter, K, d, eps);
      r.0 == Iterate(data, cs, K, d, r.1)
  {
    var r := Run(LloydUpdate(data, K, d), cs, cs, 0, iter, K, d, eps);
    RunStopsAtFirstSettledPass(LloydUpdate(data, K, d), cs, 0, iter, K, d, eps);
    RoundsAreLloyd(data, cs, K, d, r.1);
  }

  /** The first two statements of a pass of `kmeans`: `tag` the points against the current
      centroids, then let `vectors_average` overwrite the centroids. Together they perform one
      round of Lloyd's algorithm. */
  method TagThenAverage(data: seq<Vec>, centroids: seq<Vec>, n: nat, K: nat, d: nat) returns (next: seq<Vec>)
    requires n == |data| && K >= 1 && IsMatrix(data, d) && Centroids(centroids, K, d)
    ensures next == Step(data, centroids, K, d)
  {
    var tags := Tag(data, centroids, n, K, d);
    next := VectorsAverage(data, tags, n, K, d);
  }

  /** The `for` loop of `kmeans` (mia_k_mean.c:163-186, kmeansmodule_mia.c:84-107), with the
      centroids and their snapshot both starting at `init`. */
  method RunSnapshot(data: seq<Vec>, init: seq<Vec>, n: nat, K: nat, d: nat, iter: int, eps: real)
    returns (centroids: seq<Vec>, passes: nat)
    requires n == |data| && K >= 1 && IsMatrix(data, d) && Centroids(init, K, d)
    ensures (centroids, passes) == Run(LloydUpdate(data, K, d), init, init, 0, iter, K, d, eps)
  {
    ghost var update := LloydUpdate(data, K, d);
    centroids := init;
    var prev := init;
    passes := 0;
    while passes < iter
      invariant Centroids(centroids, K, d) && prev == centroids
      invariant Run(update, init, init, 0, iter, K, d, eps) == Run(update, centroids, prev, passes, iter, K, d, eps)
      decreases iter - passes
    {
      centroids := TagThenAverage(data, centroids, n, K, d);
      var close := CloseEnough(centroids, prev, K, d, eps);
      passes := passes + 1;
      if close {
        return;
      }
      prev := centroids;
    }
  }

  /** `kmeans` of mia_k_mean.c: the centroids and their snapshot start as the first `K` points
      and EPSILON is 0.001. */
  method MiaKMeans(K: nat, n: nat, d: nat, data: seq<Vec>, iter: int) returns (centroids: seq<Vec>, passes: nat)
    requires n == |data| && 1 <= K <= n && IsMatrix(data, d)
    ensures (centroids, passes) == Run(LloydUpdate(data, K, d), data[..K], data[..K], 0, iter, K, d, MiaEpsilon)
  {
    centroids, passes := RunSnapshot(data, data[..K], n, K, d, iter, MiaEpsilon);
  }

  /** `kmeans` of kmeansmodule_mia.c: the caller supplies the starting centroids and EPSILON,
      and the snapshot starts as a copy of those centroids. */
  method ModuleKMeans(K: nat, n: nat, d: nat, data: seq<Vec>, iter: int, init: seq<Vec>, eps: real)
    returns (centroids: seq<Vec>, passes: nat)
    requires n == |data| && K >= 1 && IsMatrix(data, d) && Centroids(init, K, d)
    ensures (centroids, passes) == Run(LloydUpdate(data, K, d), init, init, 0, iter, K, d, eps)
  {
    centroids, passes := RunSnapshot(data, init, n, K, d, iter, eps);
  }
}
