/** The `while` loop of `k_means` (kmeans.c). The loop only hands the state to a pass and
    tests the `delta_miu` it gets back, so it is defined over any pass that keeps states
    well-formed; its properties are proved from what the pass promises, and then applied to the
    pass of kmeans.c. */
module KMeansLoop {
  import opened Outcomes
  import opened Vectors
  import opened Lloyd
  import opened KMeansC

  /** DEFAULT_EPSILON: the loop stops once the `delta_miu` of a pass is below it. */
  const Epsilon: real := 0.001

  /** `delta_miu`: `INFINITY` before the first pass, afterwards the squared value of a pass. */
  datatype Delta = Unbounded | Finite(sq: real)

  /** The `delta_miu >= DEFAULT_EPSILON` half of the loop condition, on squared distances. */
  predicate KeepGoing(delta: Delta) {
    delta.Unbounded? || delta.sq >= Epsilon * Epsilon
  }

  /** A pass: the next state and its squared `delta_miu`, or a fault. */
  type PassFn = Session --> Outcome<(Session, real)>

  /** `pass` accepts every well-formed state with `k` clusters of dimension `d` and, when it
      succeeds, returns one. */
  ghost predicate Runs(pass: PassFn, k: nat, d: nat) {
    && (forall s {:trigger pass.requires(s)} :: WellFormed(s, k, d) ==> pass.requires(s))
    && (forall s {:trigger pass(s)} :: WellFormed(s, k, d) && pass(s).Ok? ==> WellFormed(pass(s).value.0, k, d))
  }

  /** The loop from state `s` after `iter` passes with the current `delta_miu`: another pass
      runs while `delta_miu` is at least DEFAULT_EPSILON and fewer than `maxIter` passes have
      run. The result is the final state and `delta_miu`, or the fault of the pass that raised
      one, with the number of passes run. */
  function Loop(pass: PassFn, s: Session, delta: Delta, iter: nat, k: nat, d: nat, maxIter: int)
    : (r: (Outcome<(Session, Delta)>, nat))
    requires Runs(pass, k, d) && WellFormed(s, k, d)
    decreases maxIter - iter
    ensures r.1 >= iter
    ensures r.0.Ok? ==> WellFormed(r.0.value.0, k, d)
  {
    if !(KeepGoing(delta) && iter < maxIter) then (Ok((s, delta)), iter)
    else
      var next := pass(s);
      if next.Fail? then (Fail(next.fault), iter + 1)
      else Loop(pass, next.value.0, Finite(next.value.1), iter + 1, k, d, maxIter)
  }

  /** The loop never runs past `maxIter` passes, and it ends without a fault only once
      `delta_miu` has dropped below DEFAULT_EPSILON or `maxIter` passes have run. */
  lemma {:induction false} LoopStops(pass: PassFn, s: Session, delta: Delta, iter: nat, k: nat, d: nat, maxIter: int)
    requires Runs(pass, k, d) && WellFormed(s, k, d)
    decreases maxIter - iter
    ensures var res := Loop(pass, s, delta, iter, k, d, maxIter);
      && (res.1 == iter || res.1 <= maxIter)
      && (res.0.Ok? ==> res.1 >= maxIter || !KeepGoing(res.0.value.1))
  {
    if KeepGoing(delta) && iter < maxIter {
      var next := pass(s);
      if next.Ok? {
        LoopStops(pass, next.value.0, Finite(next.value.1), iter + 1, k, d, maxIter);
      }
    }
  }

  /** From a state with empty accumulators, `pass` is one round of Lloyd's algorithm on
      `vectors`: it fails exactly when a cluster is empty, and otherwise clears the accumulators
      again and moves every centroid to the mean of its cluster. */
  ghost predicate IsLloydRound(pass: PassFn, vectors: seq<Vec>, k: nat, d: nat)
    requires k >= 1 && IsMatrix(vectors, d) && Runs(pass, k, d)
  {
    forall s {:trigger pass(s)} :: WellFormed(s, k, d) && Fresh(s, k, d) ==>
      && (pass(s).Ok? <==> NoEmptyCluster(vectors, s.centroids, k, d))
      && (pass(s).Ok? ==> Fresh(pass(s).value.0, k, d) && pass(s).value.0.centroids == Step(vectors, s.centroids, k, d))
  }

  /** With a pass that is a round of Lloyd's algorithm, the loop from empty accumulators fails
      exactly when one of the rounds it ran met an empty cluster. */
  lemma {:induction false} LloydLoopFailsOnEmptyCluster(pass: PassFn, vectors: seq<Vec>, s: Session, delta: Delta, iter: nat, k: nat, d: nat, maxIter: int)
    requires k >= 1 && IsMatrix(vectors, d) && Runs(pass, k, d) && IsLloydRound(pass, vectors, k, d)
    requires WellFormed(s, k, d) && Fresh(s, k, d)
    decreases maxIter - iter
    ensures var res := Loop(pass, s, delta, iter, k, d, maxIter);
      res.0.Ok? <==> NoEmptyClusterFor(vectors, s.centroids, k, d, res.1 - iter)
  {
    if KeepGoing(delta) && iter < maxIter {
      var next := pass(s);
      assert next.Ok? <==> NoEmptyCluster(vectors, s.centroids, k, d);
      if next.Ok? {
        var s' := next.value.0;
        assert Fresh(s', k, d) && s'.centroids == Step(vectors, s.centroids, k, d);
        LloydLoopFailsOnEmptyCluster(pass, vectors, s', Finite(next.value.1), iter + 1, k, d, maxIter);
        assert Loop(pass, s, delta, iter, k, d, maxIter) == Loop(pass, s', Finite(next.value.1), iter + 1, k, d, maxIter);
      }
    }
  }

  /** With a pass that is a round of Lloyd's algorithm, a loop from empty accumulators that
      ends without a fault has run Lloyd's algorithm: after `j` passes the accumulators are
      empty again and the centroids are those after `j` rounds. */
  lemma {:induction false} LloydLoopIterates(pass: PassFn, vectors: seq<Vec>, s: Session, delta: Delta, iter: nat, k: nat, d: nat, maxIter: int)
    requires k >= 1 && IsMatrix(vectors, d) && Runs(pass, k, d) && IsLloydRound(pass, vectors, k, d)
    requires WellFormed(s, k, d) && Fresh(s, k, d)
    decreases maxIter - iter
    ensures Loop(pass, s, delta, iter, k, d, maxIter).0.Ok? ==>
              && Fresh(Loop(pass, s, delta, iter, k, d, maxIter).0.value.0, k, d)
              && Loop(pass, s, delta, iter, k, d, maxIter).0.value.0.centroids ==
                 Iterate(vectors, s.centroids, k, d, Loop(pass, s, delta, iter, k, d, maxIter).1 - iter)
  {
    if KeepGoing(delta) && iter < maxIter {
      var next := pass(s);
      if next.Ok? {
        var s' := next.value.0;
        LloydLoopIterates(pass, vectors, s', Finite(next.value.1), iter + 1, k, d, maxIter);
        var res := Loop(pass, s', Finite(next.value.1), iter + 1, k, d, maxIter);
        assert s'.centroids == Step(vectors, s.centroids, k, d);
        IterateUnfolds(vectors, s.centroids, k, d, res.1 - iter);
      }
    }
  }

  /** A state the pass returns unchanged, with the squared `delta_miu` `sq`, is repeated by
      every remaining pass while `sq` keeps the loop going: the loop then ends only after
      `maxIter` passes. */
  lemma {:induction false} FixedPointRunsToLimit(pass: PassFn, s: Session, sq: real, delta: Delta, iter: nat, k: nat, d: nat, maxIter: int)
    requires Runs(pass, k, d) && WellFormed(s, k, d) && pass(s) == Ok((s, sq))
    requires KeepGoing(delta) && iter < maxIter && sq >= Epsilon * Epsilon
    decreases maxIter - iter
    ensures Loop(pass, s, delta, iter, k, d, maxIter) == (Ok((s, Finite(sq))), maxIter as nat)
  {
    if iter + 1 < maxIter {
      FixedPointRunsToLimit(pass, s, sq, Finite(sq), iter + 1, k, d, maxIter);
    }
  }

  /** A state the pass returns unchanged with a squared `delta_miu` below DEFAULT_EPSILON
      ends the loop after one pass. */
  lemma {:induction false} FixedPointSettles(pass: PassFn, s: Session, sq: real, k: nat, d: nat, maxIter: int)
    requires Runs(pass, k, d) && WellFormed(s, k, d) && pass(s) == Ok((s, sq))
    requires sq < Epsilon * Epsilon && maxIter >= 1
    ensures Loop(pass, s, Unbounded, 0, k, d, maxIter) == (Ok((s, Finite(sq))), 1)
  {
  }

  /** The whole program from `init_centroids`, when the accumulators it leaves unwritten happen
      to be zero: the loop fails exactly when one of the rounds it ran from the first `k`
      points met an empty cluster, and otherwise ends on the centroids of Lloyd's algorithm
      after as many rounds as it ran passes. */
  lemma SeededRunIsLloyd(vectors: seq<Vec>, k: nat, d: nat, maxIter: int)
    requires 1 <= k <= |vectors| && IsMatrix(vectors, d)
    ensures var s0 := InitCentroids(vectors, k, d, seq(k, _ => Zero(d)));
      var res := Loop(KMeansPass(vectors, k, d), s0, Unbounded, 0, k, d, maxIter);
      && (res.0.Ok? <==> NoEmptyClusterFor(vectors, vectors[..k], k, d, res.1))
      && (res.0.Ok? ==> res.0.value.0.centroids == Iterate(vectors, vectors[..k], k, d, res.1))
  {
    var s0 := InitCentroids(vectors, k, d, seq(k, _ => Zero(d)));
    assert s0.centroids == vectors[..k];
    KMeansPassIsLloydRound(vectors, k, d);
    FreshRunIsLloyd(KMeansPass(vectors, k, d), vectors, s0, k, d, maxIter);
  }

  /** The same from any state with clear accumulators, for any pass that is a round of
      Lloyd's algorithm. */
  lemma {:induction false} FreshRunIsLloyd(pass: PassFn, vectors: seq<Vec>, s: Session, k: nat, d: nat, maxIter: int)
    requires k >= 1 && IsMatrix(vectors, d) && Runs(pass, k, d) && IsLloydRound(pass, vectors, k, d)
    requires WellFormed(s, k, d) && Fresh(s, k, d)
    ensures var res := Loop(pass, s, Unbounded, 0, k, d, maxIter);
      && (res.0.Ok? <==> NoEmptyClusterFor(vectors, s.centroids, k, d, res.1))
      && (res.0.Ok? ==> res.0.value.0.centroids == Iterate(vectors, s.centroids, k, d, res.1))
  {
    LloydLoopFailsOnEmptyCluster(pass, vectors, s, Unbounded, 0, k, d, maxIter);
    LloydLoopIterates(pass, vectors, s, Unbounded, 0, k, d, maxIter);
  }

  /** The pass of kmeans.c on the points `vectors`. */
  function KMeansPass(vectors: seq<Vec>, k: nat, d: nat): (pass: PassFn)
    requires k >= 1 && IsMatrix(vectors, d)
    ensures Runs(pass, k, d)
    ensures forall s {:trigger pass(s)} :: WellFormed(s, k, d) ==> pass(s) == Pass(vectors, s, k, d)
  {
    s requires WellFormed(s, k, d) => Pass(vectors, s, k, d)
  }

  /** The pass of kmeans.c is a round of Lloyd's algorithm. */
  lemma KMeansPassIsLloydRound(vectors: seq<Vec>, k: nat, d: nat)
    requires k >= 1 && IsMatrix(vectors, d)
    ensures IsLloydRound(KMeansPass(vectors, k, d), vectors, k, d)
  {
    var pass := KMeansPass(vectors, k, d);
    forall s | WellFormed(s, k, d) && Fresh(s, k, d)
      ensures pass(s).Ok? <==> NoEmptyCluster(vectors, s.centroids, k, d)
      ensures pass(s).Ok? ==> Fresh(pass(s).value.0, k, d) && pass(s).value.0.centroids == Step(vectors, s.centroids, k, d)
    {
      FreshPassIsLloydStep(vectors, s, k, d);
    }
  }

  /** `k_means` from state `s0`: the loop with `delta_miu` starting at `INFINITY`. It returns
      the state after its passes, or the fault of the pass that raised one, and the number of
      passes it ran. */
  method KMeans(vectors: seq<Vec>, s0: Session, k: nat, d: nat, maxIter: int) returns (r: Outcome<(Session, Delta)>, iter: nat)
    requires k >= 1 && WellFormed(s0, k, d) && IsMatrix(vectors, d)
    ensures (r, iter) == Loop(KMeansPass(vectors, k, d), s0, Unbounded, 0, k, d, maxIter)
  {
    ghost var pass := KMeansPass(vectors, k, d);
    var s := s0;
    var delta: Delta := Unbounded;
    iter := 0;
    while KeepGoing(delta) && iter < maxIter
      invariant WellFormed(s, k, d)
      invariant Loop(pass, s0, Unbounded, 0, k, d, maxIter) == Loop(pass, s, delta, iter, k, d, maxIter)
      decreases maxIter - iter
    {
      var next := RunPass(vectors, s, k, d);
      iter := iter + 1;
      if next.Fail? {
        return Fail(next.fault), iter;
      }
      s := next.value.0;
      delta := Finite(next.value.1);
    }
    r := Ok((s, delta));
  }
}
