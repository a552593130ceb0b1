/** The seed of `delta_miu` in `k_means` (kmeans.c). Each pass starts its running maximum at
    the distance between centroid 0 and accumulator 0. After a successful pass every accumulator
    is the zero vector again, so from the second pass on the seed is the distance of centroid 0
    from the origin, and the loop cannot stop early while that distance is at least
    DEFAULT_EPSILON, however still the centroids stand. Below: the pass as written on a
    configuration that does not move, a concrete run that uses up every pass, and the pass with
    the running maximum seeded at zero, whose `delta_miu` is exactly the largest movement. */
module KMeansSeed {
  import opened Outcomes
  import opened Vectors
  import opened Clusters
  import opened Assignment
  import opened Lloyd
  import opened KMeansC
  import opened KMeansLoop

  /** A configuration a pass cannot improve: accumulators and sizes are clear, no cluster is
      empty, and every centroid already is the mean of its cluster. */
  predicate Stable(vectors: seq<Vec>, s: Session, k: nat, d: nat)
    requires k >= 1 && WellFormed(s, k, d) && IsMatrix(vectors, d)
  {
    && Fresh(s, k, d)
    && NoEmptyCluster(vectors, s.centroids, k, d)
    && Step(vectors, s.centroids, k, d) == s.centroids
  }

  /** As written, a pass from a stable configuration leaves it unchanged, yet reports as its
      `delta_miu` the squared distance of centroid 0 from the origin: the seed taken from the
      cleared accumulator 0 outweighs the zero movements. */
  lemma StablePassReportsSeed(vectors: seq<Vec>, s: Session, k: nat, d: nat)
    requires k >= 1 && WellFormed(s, k, d) && IsMatrix(vectors, d) && Stable(vectors, s, k, d)
    ensures Pass(vectors, s, k, d) == Ok((s, SqDist(s.centroids[0], Zero(d), d)))
  {
    FreshPassIsLloydStep(vectors, s, k, d);
    PassDeltaIsMaximum(vectors, s, k, d);
    var r := Pass(vectors, s, k, d).value;
    assert r.0.newCentroids == s.newCentroids;
    assert r.0.sizes == s.sizes;
    assert r.0 == s;
    forall c | 0 <= c < k
      ensures SqDist(s.centroids[c], r.0.centroids[c], d) == 0.0
    {
      SqDistZeroIffAgree(s.centroids[c], r.0.centroids[c], d);
    }
    SqDistNonNegative(s.centroids[0], s.newCentroids[0], d);
  }

  /** So from a stable configuration whose centroid 0 lies at least DEFAULT_EPSILON from the
      origin, the loop of kmeans.c repeats the configuration until `maxIter` passes have run. */
  lemma StableLoopRunsToLimit(vectors: seq<Vec>, s: Session, k: nat, d: nat, maxIter: int)
    requires k >= 1 && WellFormed(s, k, d) && IsMatrix(vectors, d) && Stable(vectors, s, k, d)
    requires SqDist(s.centroids[0], Zero(d), d) >= Epsilon * Epsilon && maxIter >= 1
    ensures Loop(KMeansPass(vectors, k, d), s, Unbounded, 0, k, d, maxIter) ==
              (Ok((s, Finite(SqDist(s.centroids[0], Zero(d), d)))), maxIter as nat)
  {
    StablePassReportsSeed(vectors, s, k, d);
    FixedPointRunsToLimit(KMeansPass(vectors, k, d), s, SqDist(s.centroids[0], Zero(d), d), Unbounded, 0, k, d, maxIter);
  }

  /** Four points in two well-separated pairs, listed as (0,0), (10,0), (0,1), (10,1): the
      first two, which `init_centroids` takes as seeds, lie in different pairs. */
  function ExampleVectors(): (vs: seq<Vec>)
    ensures IsMatrix(vs, 2)
  {
    [[0.0, 0.0], [10.0, 0.0], [0.0, 1.0], [10.0, 1.0]]
  }

  /** The two pair midpoints as centroids, with clear accumulators and sizes. */
  function ExampleSession(): (s: Session)
    ensures WellFormed(s, 2, 2)
  {
    Session([[0.0, 0.5], [10.0, 0.5]], [Zero(2), Zero(2)], [0, 0])
  }

  /** The mean of two `2`-dimensional points, computed through the column sums. */
  lemma MeanOfPair(u: Vec, v: Vec)
    requires |u| == 2 && |v| == 2
    ensures Mean([u, v], 2) == [(u[0] + v[0]) / 2.0, (u[1] + v[1]) / 2.0]
  {
    ColumnSumsEmpty(2);
    ColumnSumsSnoc([], u, 2);
    ColumnSumsSnoc([u], v, 2);
    assert [u] == [] + [u];
    assert [u, v] == [u] + [v];
    var sums := ColumnSums([u, v], 2);
    assert sums == [u[0] + v[0], u[1] + v[1]];
    assert Mean([u, v], 2) == Scale(sums, 2);
  }

  /** The squared distance between two `2`-dimensional vectors, written out. */
  lemma SqDistInPlane(v: Vec, u: Vec)
    requires |v| == 2 && |u| == 2
    ensures SqDist(v, u, 2) == Square(v[0] - u[0]) + Square(v[1] - u[1])
  {
    assert SqDist(v, u, 1) == Square(v[0] - u[0]);
  }

  /** The seeds `init_centroids` picks on the example: the first two points, with the
      accumulators and sizes clear. */
  function ExampleSeeds(): (s: Session)
    ensures WellFormed(s, 2, 2) && Fresh(s, 2, 2)
    ensures s.centroids == [[0.0, 0.0], [10.0, 0.0]]
  {
    var s := InitCentroids(ExampleVectors(), 2, 2, seq(2, _ => Zero(2)));
    assert s.centroids == ExampleVectors()[..2];
    s
  }

  /** Against the seeds and against the pair midpoints alike, point `i` of the example is
      nearest to centroid `i % 2`: the centroid of its own pair's side. */
  lemma ExamplePointTag(cs: seq<Vec>, i: int)
    requires cs == ExampleSession().centroids || cs == ExampleSeeds().centroids
    requires 0 <= i < 4
    ensures Nearest(ExampleVectors()[i], cs, 2, 2) == i % 2
  {
    var p := ExampleVectors()[i];
    SqDistInPlane(p, cs[0]);
    SqDistInPlane(p, cs[1]);
  }

  lemma ExampleTags(cs: seq<Vec>)
    requires cs == ExampleSession().centroids || cs == ExampleSeeds().centroids
    ensures Tags(ExampleVectors(), cs, 2, 2) == [0, 1, 0, 1]
  {
    var tags := Tags(ExampleVectors(), cs, 2, 2);
    forall i | 0 <= i < 4
      ensures tags[i] == i % 2
    {
      ExamplePointTag(cs, i);
      FirstNearestUnique(ExampleVectors()[i], cs, 2, 2, tags[i], i % 2);
    }
  }

  /** Each pair of the example forms one cluster. */
  lemma ExampleClusters()
    ensures var vs := ExampleVectors();
      && Members(vs, [0, 1, 0, 1], 4, 0) == [vs[0], vs[2]]
      && Members(vs, [0, 1, 0, 1], 4, 1) == [vs[1], vs[3]]
  {
    var vs := ExampleVectors();
    var tags: seq<int> := [0, 1, 0, 1];
    assert Members(vs, tags, 2, 0) == [vs[0]];
    assert Members(vs, tags, 2, 1) == [vs[1]];
  }

  /** From the seeds as from the midpoints, one round of Lloyd's algorithm lands on the pair
      midpoints, and neither round meets an empty cluster. */
  lemma ExampleStepsToMidpoints(cs: seq<Vec>)
    requires cs == ExampleSession().centroids || cs == ExampleSeeds().centroids
    ensures NoEmptyCluster(ExampleVectors(), cs, 2, 2)
    ensures Step(ExampleVectors(), cs, 2, 2) == ExampleSession().centroids
  {
    var vs := ExampleVectors();
    ExampleTags(cs);
    ExampleClusters();
    MeanOfPair(vs[0], vs[2]);
    MeanOfPair(vs[1], vs[3]);
    var average := Average(vs, [0, 1, 0, 1], 2, 2);
    assert average[0] == Mean([vs[0], vs[2]], 2);
    assert average[1] == Mean([vs[1], vs[3]], 2);
    assert Step(vs, cs, 2, 2) == average;
  }

  /** The pair midpoints are the means of their pairs. */
  lemma ExampleIsStable()
    ensures Stable(ExampleVectors(), ExampleSession(), 2, 2)
  {
    ExampleStepsToMidpoints(ExampleSession().centroids);
  }

  /** The first pass from the seeds moves each centroid by 0.5 onto its pair's midpoint, and
      reports that movement, squared, as its `delta_miu`: the seed of that pass is zero, since
      point (0,0) is centroid 0. */
  lemma ExampleFirstPass(pass: PassFn)
    requires pass == KMeansPass(ExampleVectors(), 2, 2) || pass == CorrectedKMeansPass(ExampleVectors(), 2, 2)
    ensures pass(ExampleSeeds()) == Ok((ExampleSession(), 0.25))
  {
    var vs := ExampleVectors();
    var s0 := ExampleSeeds();
    ExampleStepsToMidpoints(s0.centroids);
    FreshPassIsLloydStep(vs, s0, 2, 2);
    var r := Pass(vs, s0, 2, 2).value;
    assert r.0.newCentroids == [Zero(2), Zero(2)];
    assert r.0.sizes == [0, 0];
    assert r.0 == ExampleSession();
    SqDistInPlane(s0.centroids[0], ExampleSession().centroids[0]);
    SqDistInPlane(s0.centroids[1], ExampleSession().centroids[1]);
    if pass == KMeansPass(vs, 2, 2) {
      PassDeltaIsMaximum(vs, s0, 2, 2);
      SqDistInPlane(s0.centroids[0], s0.newCentroids[0]);
    } else {
      CorrectedDeltaIsLargestMovement(vs, s0, 2, 2);
    }
  }

  /** Yet centroid 0 of the example lies 0.5 from the origin, so the run of kmeans.c from the
      pair midpoints keeps reporting a `delta_miu` of 0.5 and uses up every one of its `maxIter`
      passes without a centroid moving. */
  lemma ExampleNeverSettles(maxIter: int)
    requires maxIter >= 1
    ensures Loop(KMeansPass(ExampleVectors(), 2, 2), ExampleSession(), Unbounded, 0, 2, 2, maxIter) ==
              (Ok((ExampleSession(), Finite(0.25))), maxIter as nat)
  {
    var s := ExampleSession();
    ExampleIsStable();
    SqDistInPlane(s.centroids[0], Zero(2));
    StableLoopRunsToLimit(ExampleVectors(), s, 2, 2, maxIter);
  }

  /** The run of kmeans.c on the example from its own seeding: the first pass reaches the
      midpoints, and from then on every pass stands still yet reports 0.25, so the loop ends
      only after `maxIter` passes. */
  lemma ExampleSeededRunNeverSettles(maxIter: int)
    requires maxIter >= 1
    ensures Loop(KMeansPass(ExampleVectors(), 2, 2), ExampleSeeds(), Unbounded, 0, 2, 2, maxIter) ==
              (Ok((ExampleSession(), Finite(0.25))), maxIter as nat)
  {
    var pass := KMeansPass(ExampleVectors(), 2, 2);
    var s := ExampleSession();
    ExampleFirstPass(pass);
    assert Loop(pass, ExampleSeeds(), Unbounded, 0, 2, 2, maxIter) == Loop(pass, s, Finite(0.25), 1, 2, 2, maxIter);
    if maxIter > 1 {
      ExampleIsStable();
      StablePassReportsSeed(ExampleVectors(), s, 2, 2);
      SqDistInPlane(s.centroids[0], Zero(2));
      FixedPointRunsToLimit(pass, s, 0.25, Finite(0.25), 1, 2, 2, maxIter);
    }
  }

  /** The evidently intended pass: `delta_miu` starts at zero instead of the distance between
      centroid 0 and accumulator 0. The clusters it produces are those of the pass as written. */
  function CorrectedPass(vectors: seq<Vec>, s: Session, k: nat, d: nat): (r: Outcome<(Session, real)>)
    requires k >= 1 && WellFormed(s, k, d) && IsMatrix(vectors, d)
    ensures r.Ok? == Pass(vectors, s, k, d).Ok?
    ensures r.Ok? ==> r.value.0 == Pass(vectors, s, k, d).value.0
  {
    var seed := SqDist(s.centroids[0], s.newCentroids[0], d);
    CommitIgnoresDelta(AssignPoints(vectors, s, k, d), 0, 0.0, seed, k, d);
    CommitClusters(AssignPoints(vectors, s, k, d), 0, 0.0, k, d)
  }

  /** The `delta_miu` of the corrected pass is exactly the largest squared movement of a
      centroid. */
  lemma CorrectedDeltaIsLargestMovement(vectors: seq<Vec>, s: Session, k: nat, d: nat)
    requires k >= 1 && WellFormed(s, k, d) && IsMatrix(vectors, d) && CorrectedPass(vectors, s, k, d).Ok?
    ensures var res := CorrectedPass(vectors, s, k, d).value;
      && (forall c {:trigger SqDist(s.centroids[c], res.0.centroids[c], d)} :: 0 <= c < k ==> res.1 >= SqDist(s.centroids[c], res.0.centroids[c], d))
      && (exists c :: 0 <= c < k && res.1 == SqDist(s.centroids[c], res.0.centroids[c], d))
  {
    var a := AssignPoints(vectors, s, k, d);
    assert CorrectedPass(vectors, s, k, d) == CommitClusters(a, 0, 0.0, k, d);
    var res := CorrectedPass(vectors, s, k, d).value;
    CommitDeltaBounds(a, 0, 0.0, k, d);
    CommitDeltaAttained(a, 0, 0.0, k, d);
    if res.1 == 0.0 {
      SqDistNonNegative(s.centroids[0], res.0.centroids[0], d);
    }
  }

  /** The corrected pass of kmeans.c on the points `vectors`. */
  function CorrectedKMeansPass(vectors: seq<Vec>, k: nat, d: nat): (pass: PassFn)
    requires k >= 1 && IsMatrix(vectors, d)
    ensures Runs(pass, k, d)
    ensures forall s {:trigger pass(s)} :: WellFormed(s, k, d) ==> pass(s) == CorrectedPass(vectors, s, k, d)
  {
    s requires WellFormed(s, k, d) => CorrectedPass(vectors, s, k, d)
  }

  /** The correction leaves the clusters alone: the corrected pass is a round of Lloyd's
      algorithm as well. */
  lemma CorrectedPassIsLloydRound(vectors: seq<Vec>, k: nat, d: nat)
    requires k >= 1 && IsMatrix(vectors, d)
    ensures IsLloydRound(CorrectedKMeansPass(vectors, k, d), vectors, k, d)
  {
    var pass := CorrectedKMeansPass(vectors, k, d);
    forall s | WellFormed(s, k, d) && Fresh(s, k, d)
      ensures pass(s).Ok? <==> NoEmptyCluster(vectors, s.centroids, k, d)
      ensures pass(s).Ok? ==> Fresh(pass(s).value.0, k, d) && pass(s).value.0.centroids == Step(vectors, s.centroids, k, d)
    {
      FreshPassIsLloydStep(vectors, s, k, d);
    }
  }

  /** With the corrected pass, a run from a stable configuration stops after one pass with a
      `delta_miu` of zero. */
  lemma CorrectedStableLoopStops(vectors: seq<Vec>, s: Session, k: nat, d: nat, maxIter: int)
    requires k >= 1 && WellFormed(s, k, d) && IsMatrix(vectors, d) && Stable(vectors, s, k, d)
    requires maxIter >= 1
    ensures Loop(CorrectedKMeansPass(vectors, k, d), s, Unbounded, 0, k, d, maxIter) == (Ok((s, Finite(0.0))), 1)
  {
    CorrectedStablePassStandsStill(vectors, s, k, d);
    FixedPointSettles(CorrectedKMeansPass(vectors, k, d), s, 0.0, k, d, maxIter);
  }

  /** The corrected pass returns a stable configuration unchanged and reports a `delta_miu`
      of zero. */
  lemma CorrectedStablePassStandsStill(vectors: seq<Vec>, s: Session, k: nat, d: nat)
    requires k >= 1 && WellFormed(s, k, d) && IsMatrix(vectors, d) && Stable(vectors, s, k, d)
    ensures CorrectedPass(vectors, s, k, d) == Ok((s, 0.0))
  {
    StablePassReportsSeed(vectors, s, k, d);
    CorrectedDeltaIsLargestMovement(vectors, s, k, d);
    var res := CorrectedPass(vectors, s, k, d).value;
    forall c | 0 <= c < k
      ensures SqDist(s.centroids[c], res.0.centroids[c], d) == 0.0
    {
      SqDistZeroIffAgree(s.centroids[c], res.0.centroids[c], d);
    }
    assert res == (s, 0.0);
  }

  /** On the example the corrected run stops after its first pass. */
  lemma CorrectedExampleSettles(maxIter: int)
    requires maxIter >= 1
    ensures Loop(CorrectedKMeansPass(ExampleVectors(), 2, 2), ExampleSession(), Unbounded, 0, 2, 2, maxIter) ==
              (Ok((ExampleSession(), Finite(0.0))), 1)
  {
    ExampleIsStable();
    CorrectedStableLoopStops(ExampleVectors(), ExampleSession(), 2, 2, maxIter);
  }

  /** With the correction, the run on the example from its own seeding stops after two passes:
      the first moves both centroids onto the midpoints, the second finds nothing to move. */
  lemma CorrectedSeededExampleSettles(maxIter: int)
    requires maxIter >= 2
    ensures Loop(CorrectedKMeansPass(ExampleVectors(), 2, 2), ExampleSeeds(), Unbounded, 0, 2, 2, maxIter) ==
              (Ok((ExampleSession(), Finite(0.0))), 2)
  {
    var pass := CorrectedKMeansPass(ExampleVectors(), 2, 2);
    var s := ExampleSession();
    ExampleFirstPass(pass);
    ExampleIsStable();
    CorrectedStablePassStandsStill(ExampleVectors(), s, 2, 2);
    assert Loop(pass, ExampleSeeds(), Unbounded, 0, 2, 2, maxIter) == Loop(pass, s, Finite(0.25), 1, 2, 2, maxIter);
    assert Loop(pass, s, Finite(0.25), 1, 2, 2, maxIter) == Loop(pass, s, Finite(0.0), 2, 2, 2, maxIter);
  }

  /** The body of the `k_means` loop with the running maximum seeded at zero. */
  method RunCorrectedPass(vectors: seq<Vec>, s: Session, k: nat, d: nat) returns (r: Outcome<(Session, real)>)
    requires k >= 1 && WellFormed(s, k, d) && IsMatrix(vectors, d)
    ensures r == CorrectedPass(vectors, s, k, d)
  {
    var gathered := AssignLoop(vectors, s, k, d);
    r := CommitLoop(gathered, 0.0, k, d);
  }

  /** `k_means` with the corrected pass. */
  method CorrectedKMeans(vectors: seq<Vec>, s0: Session, k: nat, d: nat, maxIter: int) returns (r: Outcome<(Session, Delta)>, iter: nat)
    requires k >= 1 && WellFormed(s0, k, d) && IsMatrix(vectors, d)
    ensures (r, iter) == Loop(CorrectedKMeansPass(vectors, k, d), s0, Unbounded, 0, k, d, maxIter)
  {
    ghost var pass := CorrectedKMeansPass(vectors, k, d);
    var s := s0;
    var delta: Delta := Unbounded;
    iter := 0;
    while KeepGoing(delta) && iter < maxIter
      invariant WellFormed(s, k, d)
      invariant Loop(pass, s0, Unbounded, 0, k, d, maxIter) == Loop(pass, s, delta, iter, k, d, maxIter)
      decreases maxIter - iter
    {
      var next := RunCorrectedPass(vectors, s, k, d);
      iter := iter + 1;
      if next.Fail? {
        return Fail(next.fault), iter;
      }
      s := next.value.0;
      delta := Finite(next.value.1);
    }
    r := Ok((s, delta));
  }
}
