/** The accumulate-then-divide variant (kmeans.c; k_means.c holds the same code and k_mean.c the
    same seeding, assignment, commit and loop bound). Its global arrays are a `Session`; the
    read-only point matrix `vectors` is passed alongside. */
module KMeansC {
  import opened Outcomes
  import opened Vectors
  import opened Clusters
  import opened Assignment
  import opened Lloyd

  /** `centroids` (k×d), the accumulators `new_centroids` (k×d) and `centroid_size` (k). */
  datatype Session = Session(centroids: seq<Vec>, newCentroids: seq<Vec>, sizes: seq<int>)

  predicate WellFormed(s: Session, k: nat, d: nat) {
    && Centroids(s.centroids, k, d)
    && Centroids(s.newCentroids, k, d)
    && |s.sizes| == k
  }

  /** Every accumulator is the zero vector and every cluster size is zero. */
  predicate Fresh(s: Session, k: nat, d: nat)
    requires WellFormed(s, k, d)
  {
    forall c :: 0 <= c < k ==> s.newCentroids[c] == Zero(d) && s.sizes[c] == 0
  }

  /** `init_centroids` (seeding only): centroid `i` is point `i` and every size is zero. The
      accumulators are allocated but never written, so their contents are whatever `uninit`
      holds; the allocation failure path is not modelled. */
  function InitCentroids(vectors: seq<Vec>, k: nat, d: nat, uninit: seq<Vec>): (s: Session)
    requires k <= |vectors| && IsMatrix(vectors, d) && Centroids(uninit, k, d)
    ensures WellFormed(s, k, d)
    ensures forall i :: 0 <= i < k ==> s.centroids[i] == vectors[i] && s.sizes[i] == 0
    ensures s.newCentroids == uninit
    ensures uninit == seq(k, _ => Zero(d)) ==> Fresh(s, k, d)
  {
    Session(vectors[..k], uninit, seq(k, _ => 0))
  }

  /** `calculate_updated_centroid`: point `x` joins cluster `centroidIdx`, whose accumulator
      grows by the point and whose size grows by one; no other cluster changes. */
  function CalculateUpdatedCentroid(s: Session, vectors: seq<Vec>, centroidIdx: int, x: int, k: nat, d: nat): (r: Session)
    requires WellFormed(s, k, d) && IsMatrix(vectors, d)
    requires 0 <= centroidIdx < k && 0 <= x < |vectors|
    ensures WellFormed(r, k, d) && r.centroids == s.centroids
    ensures r.newCentroids[centroidIdx] == Add(s.newCentroids[centroidIdx], vectors[x])
    ensures r.sizes[centroidIdx] == s.sizes[centroidIdx] + 1
    ensures forall c :: 0 <= c < k && c != centroidIdx ==>
              r.newCentroids[c] == s.newCentroids[c] && r.sizes[c] == s.sizes[c]
  {
    s.(newCentroids := s.newCentroids[centroidIdx := Add(s.newCentroids[centroidIdx], vectors[x])],
       sizes := s.sizes[centroidIdx := s.sizes[centroidIdx] + 1])
  }

  /** `calculate_mean`: accumulator `i` is divided by the size of cluster `i`. The source divides
      without a guard; a zero size is the `DivisionByZero` fault. Nothing else changes. */
  function CalculateMean(s: Session, i: int, k: nat, d: nat): (r: Outcome<Session>)
    requires WellFormed(s, k, d) && 0 <= i < k
    ensures r.Ok? <==> s.sizes[i] != 0
    ensures r.Ok? ==> WellFormed(r.value, k, d)
    ensures r.Ok? ==> r.value.centroids == s.centroids && r.value.sizes == s.sizes
    ensures r.Ok? ==> r.value.newCentroids[i] == Scale(s.newCentroids[i], s.sizes[i])
    ensures r.Ok? ==> forall c :: 0 <= c < k && c != i ==> r.value.newCentroids[c] == s.newCentroids[c]
  {
    if s.sizes[i] == 0 then Fail(DivisionByZero)
    else Ok(s.(newCentroids := s.newCentroids[i := Scale(s.newCentroids[i], s.sizes[i])]))
  }

  /** `reset_new_centroids`: accumulator `i` is committed as centroid `i`, then it and the size
      of cluster `i` are cleared; no other cluster changes. */
  function ResetNewCentroids(s: Session, i: int, k: nat, d: nat): (r: Session)
    requires WellFormed(s, k, d) && 0 <= i < k
    ensures WellFormed(r, k, d)
    ensures r.centroids[i] == s.newCentroids[i] && r.newCentroids[i] == Zero(d) && r.sizes[i] == 0
    ensures forall c :: 0 <= c < k && c != i ==>
              r.centroids[c] == s.centroids[c] && r.newCentroids[c] == s.newCentroids[c] && r.sizes[c] == s.sizes[c]
  {
    Session(s.centroids[i := s.newCentroids[i]], s.newCentroids[i := Zero(d)], s.sizes[i := 0])
  }

  /** The assignment loop of `k_means` over points `0 .. m-1` once their tags are known:
      point `i` joins cluster `tags[i]`. */
  function Accumulate(vectors: seq<Vec>, tags: seq<int>, s: Session, m: nat, k: nat, d: nat): (r: Session)
    requires WellFormed(s, k, d) && IsMatrix(vectors, d) && |tags| == |vectors| && TagsInRange(tags, k)
    requires m <= |vectors|
    ensures WellFormed(r, k, d) && r.centroids == s.centroids
  {
    if m == 0 then s
    else CalculateUpdatedCentroid(Accumulate(vectors, tags, s, m - 1, k, d), vectors, tags[m - 1], m - 1, k, d)
  }

  /** The whole assignment loop of `k_means`. The centroids do not move while it runs, so every
      point joins the cluster of its first nearest centroid among those the pass started with. */
  function AssignPoints(vectors: seq<Vec>, s: Session, k: nat, d: nat): (r: Session)
    requires k >= 1 && WellFormed(s, k, d) && IsMatrix(vectors, d)
    ensures WellFormed(r, k, d) && r.centroids == s.centroids
  {
    Accumulate(vectors, Tags(vectors, s.centroids, k, d), s, |vectors|, k, d)
  }

  /** After accumulating `m` tagged points every size has grown by the number of points its
      cluster gained. */
  lemma {:induction false} AccumulateCounts(vectors: seq<Vec>, tags: seq<int>, s: Session, m: nat, k: nat, d: nat)
    requires WellFormed(s, k, d) && IsMatrix(vectors, d) && |tags| == |vectors| && TagsInRange(tags, k)
    requires m <= |vectors|
    ensures forall c :: 0 <= c < k ==> Accumulate(vectors, tags, s, m, k, d).sizes[c] == s.sizes[c] + Count(tags, m, c)
  {
    if m > 0 {
      AccumulateCounts(vectors, tags, s, m - 1, k, d);
    }
  }

  /** After accumulating `m` tagged points accumulator `c` has grown by the coordinate sums of
      its cluster. */
  lemma {:induction false} AccumulateSums(vectors: seq<Vec>, tags: seq<int>, s: Session, m: nat, k: nat, d: nat, c: nat)
    requires WellFormed(s, k, d) && IsMatrix(vectors, d) && |tags| == |vectors| && TagsInRange(tags, k)
    requires m <= |vectors| && c < k
    ensures Accumulate(vectors, tags, s, m, k, d).newCentroids[c] ==
              Add(s.newCentroids[c], ColumnSums(Members(vectors, tags, m, c), d))
  {
    if m > 0 {
      AccumulateSums(vectors, tags, s, m - 1, k, d, c);
      var before := Members(vectors, tags, m - 1, c);
      if tags[m - 1] == c {
        var v := vectors[m - 1];
        assert Members(vectors, tags, m, c) == before + [v];
        ColumnSumsSnoc(before, v, d);
        AddAssociative(s.newCentroids[c], ColumnSums(before, d), v);
      } else {
        assert Members(vectors, tags, m, c) == before;
      }
    }
  }

  /** With `n` points the sizes after the assignment loop add up to the sizes before plus `n`:
      every point is counted in exactly one cluster. */
  lemma AssignedSizesSumToCount(vectors: seq<Vec>, s: Session, k: nat, d: nat)
    requires k >= 1 && WellFormed(s, k, d) && IsMatrix(vectors, d)
    ensures Total(AssignPoints(vectors, s, k, d).sizes) == Total(s.sizes) + |vectors|
  {
    var tags := Tags(vectors, s.centroids, k, d);
    AccumulateCounts(vectors, tags, s, |vectors|, k, d);
    SizesSumToCount(tags, |vectors|, k);
    TotalOfSum(s.sizes, Sizes(tags, |vectors|, k), AssignPoints(vectors, s, k, d).sizes);
  }

  /** `calculate_mean` followed by `reset_new_centroids` for cluster `y`: the accumulator divided
      by the size becomes centroid `y`, and the accumulator and size are cleared. */
  function CommitCluster(s: Session, y: int, k: nat, d: nat): (r: Outcome<Session>)
    requires WellFormed(s, k, d) && 0 <= y < k
    ensures r.Ok? <==> s.sizes[y] != 0
    ensures r.Ok? ==> WellFormed(r.value, k, d)
    ensures r.Ok? ==> r.value.centroids[y] == Scale(s.newCentroids[y], s.sizes[y])
    ensures r.Ok? ==> r.value.newCentroids[y] == Zero(d) && r.value.sizes[y] == 0
    ensures r.Ok? ==> forall c :: 0 <= c < k && c != y ==>
              && r.value.centroids[c] == s.centroids[c]
              && r.value.newCentroids[c] == s.newCentroids[c]
              && r.value.sizes[c] == s.sizes[c]
  {
    var mean :- CalculateMean(s, y, k, d);
    Ok(ResetNewCentroids(mean, y, k, d))
  }

  /** The commit loop of `k_means` over clusters `y .. k-1`, carrying the running maximum
      `delta` of squared movements. The movement of cluster `y` is measured between the old
      centroid and the quotient `calculate_mean` leaves in the accumulator, which is the new
      centroid once `reset_new_centroids` has run. It fails exactly when one of those clusters
      has size zero. */
  function CommitClusters(s: Session, y: nat, delta: real, k: nat, d: nat): (r: Outcome<(Session, real)>)
    requires WellFormed(s, k, d) && y <= k
    decreases k - y
    ensures r.Ok? <==> forall c :: y <= c < k ==> s.sizes[c] != 0
    ensures r.Ok? ==> WellFormed(r.value.0, k, d)
  {
    if y == k then Ok((s, delta))
    else
      var next :- CommitCluster(s, y, k, d);
      var currMiu := SqDist(s.centroids[y], next.centroids[y], d);
      CommitClusters(next, y + 1, if currMiu > delta then currMiu else delta, k, d)
  }

  /** A successful commit loop leaves clusters below `y` untouched. */
  lemma {:induction false} CommitKeepsEarlier(s: Session, y: nat, delta: real, k: nat, d: nat)
    requires WellFormed(s, k, d) && y <= k && CommitClusters(s, y, delta, k, d).Ok?
    decreases k - y
    ensures var r := CommitClusters(s, y, delta, k, d).value.0;
      forall c :: 0 <= c < y ==>
        r.centroids[c] == s.centroids[c] && r.newCentroids[c] == s.newCentroids[c] && r.sizes[c] == s.sizes[c]
  {
    if y < k {
      var next := CommitCluster(s, y, k, d).value;
      var currMiu := SqDist(s.centroids[y], next.centroids[y], d);
      CommitKeepsEarlier(next, y + 1, if currMiu > delta then currMiu else delta, k, d);
    }
  }

  /** A successful commit loop makes centroid `c`, from `y` on, its accumulator divided by its
      size. */
  lemma {:induction false} CommitDivides(s: Session, y: nat, delta: real, k: nat, d: nat, c: nat)
    requires WellFormed(s, k, d) && y <= c < k && CommitClusters(s, y, delta, k, d).Ok?
    decreases k - y
    ensures CommitClusters(s, y, delta, k, d).value.0.centroids[c] == Scale(s.newCentroids[c], s.sizes[c])
  {
    var next := CommitCluster(s, y, k, d).value;
    var currMiu := SqDist(s.centroids[y], next.centroids[y], d);
    var delta' := if currMiu > delta then currMiu else delta;
    if c == y {
      CommitKeepsEarlier(next, y + 1, delta', k, d);
    } else {
      CommitDivides(next, y + 1, delta', k, d, c);
    }
  }

  /** A successful commit loop clears every accumulator and size from `y` on. */
  lemma {:induction false} CommitClears(s: Session, y: nat, delta: real, k: nat, d: nat)
    requires WellFormed(s, k, d) && y <= k && CommitClusters(s, y, delta, k, d).Ok?
    decreases k - y
    ensures var r := CommitClusters(s, y, delta, k, d).value.0;
      forall c :: y <= c < k ==> r.newCentroids[c] == Zero(d) && r.sizes[c] == 0
  {
    if y < k {
      var next := CommitCluster(s, y, k, d).value;
      var currMiu := SqDist(s.centroids[y], next.centroids[y], d);
      var delta' := if currMiu > delta then currMiu else delta;
      CommitClears(next, y + 1, delta', k, d);
      CommitKeepsEarlier(next, y + 1, delta', k, d);
    }
  }

  /** The `delta` a successful commit loop returns is at least the `delta` it started with and
      at least every squared movement from cluster `y` on. */
  lemma {:induction false} CommitDeltaBounds(s: Session, y: nat, delta: real, k: nat, d: nat)
    requires WellFormed(s, k, d) && y <= k && CommitClusters(s, y, delta, k, d).Ok?
    decreases k - y
    ensures var res := CommitClusters(s, y, delta, k, d).value;
      && res.1 >= delta
      && (forall c {:trigger SqDist(s.centroids[c], res.0.centroids[c], d)} :: y <= c < k ==> res.1 >= SqDist(s.centroids[c], res.0.centroids[c], d))
  {
    if y < k {
      var next := CommitCluster(s, y, k, d).value;
      var currMiu := SqDist(s.centroids[y], next.centroids[y], d);
      var delta1 := if currMiu > delta then currMiu else delta;
      assert CommitClusters(s, y, delta, k, d) == CommitClusters(next, y + 1, delta1, k, d);
      CommitDeltaBounds(next, y + 1, delta1, k, d);
      CommitKeepsEarlier(next, y + 1, delta1, k, d);
      var res := CommitClusters(next, y + 1, delta1, k, d).value;
      assert res.0.centroids[y] == next.centroids[y];
      forall c | y + 1 <= c < k
        ensures res.1 >= SqDist(s.centroids[c], res.0.centroids[c], d)
      {
        assert next.centroids[c] == s.centroids[c];
      }
    }
  }

  /** The `delta` a successful commit loop returns is the `delta` it started with or the squared
      movement of one of the clusters from `y` on. */
  lemma {:induction false} CommitDeltaAttained(s: Session, y: nat, delta: real, k: nat, d: nat)
    requires WellFormed(s, k, d) && y <= k && CommitClusters(s, y, delta, k, d).Ok?
    decreases k - y
    ensures var res := CommitClusters(s, y, delta, k, d).value;
      res.1 == delta || exists c :: y <= c < k && res.1 == SqDist(s.centroids[c], res.0.centroids[c], d)
  {
    if y < k {
      var next := CommitCluster(s, y, k, d).value;
      var currMiu := SqDist(s.centroids[y], next.centroids[y], d);
      var delta1 := if currMiu > delta then currMiu else delta;
      assert CommitClusters(s, y, delta, k, d) == CommitClusters(next, y + 1, delta1, k, d);
      CommitDeltaAttained(next, y + 1, delta1, k, d);
      CommitKeepsEarlier(next, y + 1, delta1, k, d);
      var res := CommitClusters(next, y + 1, delta1, k, d).value;
      if res.1 == delta1 {
        if delta1 != delta {
          assert res.0.centroids[y] == next.centroids[y];
          assert res.1 == SqDist(s.centroids[y], res.0.centroids[y], d);
        }
      } else {
        var c :| y + 1 <= c < k && res.1 == SqDist(next.centroids[c], res.0.centroids[c], d);
        assert next.centroids[c] == s.centroids[c];
        assert res.1 == SqDist(s.centroids[c], res.0.centroids[c], d);
      }
    }
  }

  /** The clusters a commit loop produces do not depend on the `delta` it carries. */
  lemma {:induction false} CommitIgnoresDelta(s: Session, y: nat, delta1: real, delta2: real, k: nat, d: nat)
    requires WellFormed(s, k, d) && y <= k
    decreases k - y
    ensures CommitClusters(s, y, delta1, k, d).Ok? == CommitClusters(s, y, delta2, k, d).Ok?
    ensures CommitClusters(s, y, delta1, k, d).Ok? ==>
              CommitClusters(s, y, delta1, k, d).value.0 == CommitClusters(s, y, delta2, k, d).value.0
  {
    if y < k && s.sizes[y] != 0 {
      var next := CommitCluster(s, y, k, d).value;
      var currMiu := SqDist(s.centroids[y], next.centroids[y], d);
      CommitIgnoresDelta(next, y + 1, if currMiu > delta1 then currMiu else delta1,
                         if currMiu > delta2 then currMiu else delta2, k, d);
    }
  }

  /** One pass of the `k_means` loop body: the seed distance between centroid 0 and accumulator
      0 taken before anything moves, the assignment loop and the commit loop. With `n` points,
      cluster `c` reaches the total size `s.sizes[c] + count`, and the pass fails exactly when
      some total is zero. */
  function Pass(vectors: seq<Vec>, s: Session, k: nat, d: nat): (r: Outcome<(Session, real)>)
    requires k >= 1 && WellFormed(s, k, d) && IsMatrix(vectors, d)
    ensures r.Ok? <==> forall c :: 0 <= c < k ==>
              s.sizes[c] + Count(Tags(vectors, s.centroids, k, d), |vectors|, c) != 0
    ensures r.Ok? ==> WellFormed(r.value.0, k, d)
  {
    var seed := SqDist(s.centroids[0], s.newCentroids[0], d);
    AccumulateCounts(vectors, Tags(vectors, s.centroids, k, d), s, |vectors|, k, d);
    CommitClusters(AssignPoints(vectors, s, k, d), 0, seed, k, d)
  }

  /** A successful pass leaves every accumulator and every size cleared. */
  lemma PassClears(vectors: seq<Vec>, s: Session, k: nat, d: nat)
    requires k >= 1 && WellFormed(s, k, d) && IsMatrix(vectors, d) && Pass(vectors, s, k, d).Ok?
    ensures Fresh(Pass(vectors, s, k, d).value.0, k, d)
  {
    CommitClears(AssignPoints(vectors, s, k, d), 0, SqDist(s.centroids[0], s.newCentroids[0], d), k, d);
  }

  /** After a successful pass centroid `c` is its accumulator plus the coordinate sums of its
      cluster, divided by its total size. */
  lemma {:induction false} PassDivides(vectors: seq<Vec>, s: Session, k: nat, d: nat, c: nat)
    requires k >= 1 && WellFormed(s, k, d) && IsMatrix(vectors, d) && Pass(vectors, s, k, d).Ok? && c < k
    ensures Pass(vectors, s, k, d).value.0.centroids[c] ==
              Scale(Add(s.newCentroids[c], ColumnSums(Members(vectors, Tags(vectors, s.centroids, k, d), |vectors|, c), d)),
                    s.sizes[c] + Count(Tags(vectors, s.centroids, k, d), |vectors|, c))
  {
    var tags := Tags(vectors, s.centroids, k, d);
    var a := AssignPoints(vectors, s, k, d);
    var seed := SqDist(s.centroids[0], s.newCentroids[0], d);
    assert Pass(vectors, s, k, d) == CommitClusters(a, 0, seed, k, d);
    CommitDivides(a, 0, seed, k, d, c);
    AccumulateCounts(vectors, tags, s, |vectors|, k, d);
    assert a.sizes[c] == s.sizes[c] + Count(tags, |vectors|, c);
    AccumulateSums(vectors, tags, s, |vectors|, k, d, c);
  }

  /** The squared `delta_miu` a successful pass returns is the largest of the seed distance
      (centroid 0 against accumulator 0, before anything moves) and every centroid's squared
      movement. */
  lemma {:induction false} PassDeltaIsMaximum(vectors: seq<Vec>, s: Session, k: nat, d: nat)
    requires k >= 1 && WellFormed(s, k, d) && IsMatrix(vectors, d) && Pass(vectors, s, k, d).Ok?
    ensures var seed := SqDist(s.centroids[0], s.newCentroids[0], d);
      var res := Pass(vectors, s, k, d).value;
      && res.1 >= seed
      && (forall c {:trigger SqDist(s.centroids[c], res.0.centroids[c], d)} :: 0 <= c < k ==> res.1 >= SqDist(s.centroids[c], res.0.centroids[c], d))
      && (res.1 == seed || exists c :: 0 <= c < k && res.1 == SqDist(s.centroids[c], res.0.centroids[c], d))
  {
    var seed := SqDist(s.centroids[0], s.newCentroids[0], d);
    var a := AssignPoints(vectors, s, k, d);
    assert Pass(vectors, s, k, d) == CommitClusters(a, 0, seed, k, d);
    CommitDeltaBounds(a, 0, seed, k, d);
    CommitDeltaAttained(a, 0, seed, k, d);
  }

  /** From empty accumulators a pass is one round of Lloyd's algorithm: it succeeds exactly when
      no cluster is empty, and then every centroid becomes the mean of its cluster. */
  lemma FreshPassIsLloydStep(vectors: seq<Vec>, s: Session, k: nat, d: nat)
    requires k >= 1 && WellFormed(s, k, d) && IsMatrix(vectors, d) && Fresh(s, k, d)
    ensures Pass(vectors, s, k, d).Ok? <==> NoEmptyCluster(vectors, s.centroids, k, d)
    ensures Pass(vectors, s, k, d).Ok? ==>
              && Fresh(Pass(vectors, s, k, d).value.0, k, d)
              && Pass(vectors, s, k, d).value.0.centroids == Step(vectors, s.centroids, k, d)
  {
    var tags := Tags(vectors, s.centroids, k, d);
    if Pass(vectors, s, k, d).Ok? {
      PassClears(vectors, s, k, d);
      var r := Pass(vectors, s, k, d).value.0;
      var step := Step(vectors, s.centroids, k, d);
      forall c | 0 <= c < k
        ensures r.centroids[c] == step[c]
      {
        var members := Members(vectors, tags, |vectors|, c);
        PassDivides(vectors, s, k, d, c);
        AddZero(ColumnSums(members, d));
        assert step[c] == Mean(members, d);
      }
    }
  }

  /** The first inner loop of `k_means`: every point, in order, joins the cluster of its
      closest centroid. */
  method AssignLoop(vectors: seq<Vec>, start: Session, k: nat, d: nat) returns (s: Session)
    requires k >= 1 && WellFormed(start, k, d) && IsMatrix(vectors, d)
    ensures s == AssignPoints(vectors, start, k, d)
  {
    ghost var tags := Tags(vectors, start.centroids, k, d);
    s := start;
    var i := 0;
    while i < |vectors|
      invariant 0 <= i <= |vectors|
      invariant s == Accumulate(vectors, tags, start, i, k, d)
    {
      var currIdx := FindClosest(vectors[i], s.centroids, k, d);
      s := CalculateUpdatedCentroid(s, vectors, currIdx, i, k, d);
      i := i + 1;
    }
  }

  /** The second inner loop of `k_means`: for every cluster in order `calculate_mean`, the
      squared movement folded into the running maximum `deltaSq`, then `reset_new_centroids`. */
  method CommitLoop(start: Session, seed: real, k: nat, d: nat) returns (r: Outcome<(Session, real)>)
    requires WellFormed(start, k, d)
    ensures r == CommitClusters(start, 0, seed, k, d)
  {
    var s := start;
    var deltaSq := seed;
    var y := 0;
    while y < k
      invariant 0 <= y <= k && WellFormed(s, k, d)
      invariant CommitClusters(start, 0, seed, k, d) == CommitClusters(s, y, deltaSq, k, d)
    {
      var mean := CalculateMean(s, y, k, d);
      if mean.Fail? {
        return Fail(mean.fault);
      }
      var currMiu := Distance(mean.value.centroids[y], mean.value.newCentroids[y], d);
      deltaSq := if currMiu > deltaSq then currMiu else deltaSq;
      s := ResetNewCentroids(mean.value, y, k, d);
      y := y + 1;
    }
    r := Ok((s, deltaSq));
  }

  /** The body of the `k_means` loop. */
  method RunPass(vectors: seq<Vec>, s: Session, k: nat, d: nat) returns (r: Outcome<(Session, real)>)
    requires k >= 1 && WellFormed(s, k, d) && IsMatrix(vectors, d)
    ensures r == Pass(vectors, s, k, d)
  {
    var seed := Distance(s.centroids[0], s.newCentroids[0], d);
    var gathered := AssignLoop(vectors, s, k, d);
    r := CommitLoop(gathered, seed, k, d);
  }
}
