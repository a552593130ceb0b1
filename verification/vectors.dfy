/** Points and centroids as coordinate sequences, the distance every variant uses, and the
    coordinate-wise mean the update step computes.

    Coordinates are mathematical reals, not IEEE doubles. Every variant computes the Euclidean
    distance as `sqrt` of a sum of squared differences; the model keeps the sum (`SqDist`) and
    compares it with squared thresholds. Because `sqrt` is monotone on non-negative values this
    changes neither an argmin nor a threshold test (`SqrtOrder`, `SqrtThreshold`). */
module Vectors {

  /** A point or a centroid: its coordinates in order. */
  type Vec = seq<real>

  /** Every row of `m` has exactly `d` coordinates (an n×d or k×d matrix). */
  predicate IsMatrix(m: seq<Vec>, d: nat) {
    forall i :: 0 <= i < |m| ==> |m[i]| == d
  }

  function Square(x: real): real {
    x * x
  }

  /** The sum of squared coordinate differences over the first `d` coordinates: the value
      whose square root the C `distance`/`dist` functions and Python `math.dist` return. */
  function SqDist(v: Vec, u: Vec, d: nat): real
    requires d <= |v| && d <= |u|
  {
    if d == 0 then 0.0 else SqDist(v, u, d - 1) + Square(v[d - 1] - u[d - 1])
  }

  lemma {:induction false} SqDistNonNegative(v: Vec, u: Vec, d: nat)
    requires d <= |v| && d <= |u|
    ensures SqDist(v, u, d) >= 0.0
  {
    if d > 0 {
      SqDistNonNegative(v, u, d - 1);
    }
  }

  lemma {:induction false} SqDistSymmetric(v: Vec, u: Vec, d: nat)
    requires d <= |v| && d <= |u|
    ensures SqDist(v, u, d) == SqDist(u, v, d)
  {
    if d > 0 {
      SqDistSymmetric(v, u, d - 1);
      assert Square(v[d - 1] - u[d - 1]) == Square(u[d - 1] - v[d - 1]);
    }
  }

  /** The distance is zero exactly when the vectors agree on the first `d` coordinates;
      coordinates from `d` on are never read. */
  lemma {:induction false} SqDistZeroIffAgree(v: Vec, u: Vec, d: nat)
    requires d <= |v| && d <= |u|
    ensures SqDist(v, u, d) == 0.0 <==> forall i :: 0 <= i < d ==> v[i] == u[i]
  {
    if d > 0 {
      SqDistZeroIffAgree(v, u, d - 1);
      SqDistNonNegative(v, u, d - 1);
      var x := v[d - 1] - u[d - 1];
      SquareZero(x);
    }
  }

  /** The C loop of `distance` (kmeans.c) / `dist` (mia_k_mean.c), without the final `sqrt`. */
  method Distance(v: Vec, u: Vec, d: nat) returns (add: real)
    requires d <= |v| && d <= |u|
    ensures add == SqDist(v, u, d)
  {
    add := 0.0;
    var i := 0;
    while i < d
      invariant 0 <= i <= d
      invariant add == SqDist(v, u, i)
    {
      add := add + Square(v[i] - u[i]);
      i := i + 1;
    }
  }

  lemma SquareZero(x: real)
    ensures Square(x) == 0.0 ==> x == 0.0
  {
    if x != 0.0 {
      var y := x;
      assert Square(x) == x * y;
      assert x * y / y == x;
    }
  }

  lemma PositiveProduct(a: real, b: real)
    requires a > 0.0 && b > 0.0
    ensures a * b > 0.0
  {
  }

  lemma NonNegativeProduct(a: real, b: real)
    requires a >= 0.0 && b >= 0.0
    ensures a * b >= 0.0
  {
  }

  /** `dist` is a Euclidean distance whose square is `sq`. Testing `dist > eps` is testing
      `sq > eps * eps`, except that a negative threshold is exceeded by every distance. */
  lemma SqrtThreshold(sq: real, dist: real, eps: real)
    requires dist >= 0.0 && dist * dist == sq
    ensures dist > eps <==> (eps < 0.0 || sq > eps * eps)
  {
    if eps >= 0.0 {
      if dist > eps {
        PositiveProduct(dist - eps, dist + eps);
        assert (dist - eps) * (dist + eps) == sq - eps * eps;
      } else {
        NonNegativeProduct(eps - dist, dist + eps);
        assert (eps - dist) * (dist + eps) == eps * eps - sq;
      }
    }
  }

  /** Comparing two distances is comparing their squares, so an argmin over `SqDist` is an
      argmin over the Euclidean distance. */
  lemma SqrtOrder(sq1: real, dist1: real, sq2: real, dist2: real)
    requires dist1 >= 0.0 && dist1 * dist1 == sq1
    requires dist2 >= 0.0 && dist2 * dist2 == sq2
    ensures dist1 < dist2 <==> sq1 < sq2
  {
    if dist1 < dist2 {
      PositiveProduct(dist2 - dist1, dist2 + dist1);
      assert (dist2 - dist1) * (dist2 + dist1) == sq2 - sq1;
    } else {
      NonNegativeProduct(dist1 - dist2, dist2 + dist1);
      assert (dist1 - dist2) * (dist2 + dist1) == sq1 - sq2;
    }
  }

  /** The all-zero vector of dimension `d`. */
  function Zero(d: nat): (z: Vec)
    ensures |z| == d && forall j :: 0 <= j < d ==> z[j] == 0.0
  {
    seq(d, j => 0.0)
  }

  /** Coordinate-wise sum of two vectors of equal dimension. */
  function Add(a: Vec, b: Vec): (r: Vec)
    requires |a| == |b|
    ensures |r| == |a| && forall j :: 0 <= j < |a| ==> r[j] == a[j] + b[j]
  {
    seq(|a|, j requires 0 <= j < |a| => a[j] + b[j])
  }

  /** Every vector of `vs` has a coordinate `j`. */
  predicate HasCoordinate(vs: seq<Vec>, j: nat) {
    forall i :: 0 <= i < |vs| ==> j < |vs[i]|
  }

  /** The sum of coordinate `j` over the vectors `vs`. */
  function CoordSum(vs: seq<Vec>, j: nat): real
    requires HasCoordinate(vs, j)
  {
    if |vs| == 0 then 0.0 else CoordSum(vs[..|vs| - 1], j) + vs[|vs| - 1][j]
  }

  /** Appending a vector adds its coordinates to every coordinate sum. */
  lemma {:induction false} CoordSumSnoc(vs: seq<Vec>, v: Vec)
    ensures forall j: nat :: HasCoordinate(vs, j) && j < |v| ==>
              HasCoordinate(vs + [v], j) && CoordSum(vs + [v], j) == CoordSum(vs, j) + v[j]
  {
    assert (vs + [v])[..|vs|] == vs;
  }

  /** Every coordinate of `v` divided by the count `n`, as `calculate_mean` divides an
      accumulator by its cluster size. */
  function Scale(v: Vec, n: int): (r: Vec)
    requires n != 0
    ensures |r| == |v|
  {
    seq(|v|, j requires 0 <= j < |v| => v[j] / (n as real))
  }

  /** The coordinate sums of `d`-dimensional vectors, as one vector. */
  function ColumnSums(vs: seq<Vec>, d: nat): (r: Vec)
    requires IsMatrix(vs, d)
    ensures |r| == d
  {
    seq(d, j requires 0 <= j < d => CoordSum(vs, j))
  }

  /** The coordinate sums of the empty list are the zero vector. */
  lemma ColumnSumsEmpty(d: nat)
    ensures ColumnSums([], d) == Zero(d)
  {
  }

  /** Appending a vector adds it to the coordinate sums. */
  lemma ColumnSumsSnoc(vs: seq<Vec>, v: Vec, d: nat)
    requires IsMatrix(vs, d) && |v| == d
    ensures IsMatrix(vs + [v], d) && ColumnSums(vs + [v], d) == Add(ColumnSums(vs, d), v)
  {
    CoordSumSnoc(vs, v);
  }

  lemma AddZero(v: Vec)
    ensures Add(Zero(|v|), v) == v
  {
  }

  lemma AddAssociative(a: Vec, b: Vec, c: Vec)
    requires |a| == |b| == |c|
    ensures Add(Add(a, b), c) == Add(a, Add(b, c))
  {
  }

  /** The coordinate-wise arithmetic mean of a non-empty list of `d`-dimensional vectors. */
  function Mean(vs: seq<Vec>, d: nat): (m: Vec)
    requires |vs| > 0 && IsMatrix(vs, d)
    ensures |m| == d
  {
    Scale(ColumnSums(vs, d), |vs|)
  }

  lemma {:induction false} CoordSumBounds(vs: seq<Vec>, j: nat, lo: real, hi: real)
    requires HasCoordinate(vs, j)
    requires forall i :: 0 <= i < |vs| ==> lo <= vs[i][j] <= hi
    ensures (|vs| as real) * lo <= CoordSum(vs, j) <= (|vs| as real) * hi
  {
    if |vs| > 0 {
      var init := vs[..|vs| - 1];
      CoordSumBounds(init, j, lo, hi);
      var m := |init| as real;
      assert (|vs| as real) == m + 1.0;
      MultiplySuccessor(m, lo);
      MultiplySuccessor(m, hi);
    }
  }

  lemma MultiplySuccessor(m: real, x: real)
    ensures (m + 1.0) * x == m * x + x
  {
  }

  /** Each coordinate of a mean lies between the smallest and the largest value of that
      coordinate among the averaged vectors: a centroid never leaves its cluster's bounding box. */
  lemma MeanWithinBounds(vs: seq<Vec>, d: nat, j: nat, lo: real, hi: real)
    requires |vs| > 0 && IsMatrix(vs, d) && j < d
    requires forall i :: 0 <= i < |vs| ==> lo <= vs[i][j] <= hi
    ensures lo <= Mean(vs, d)[j] <= hi
  {
    var n := |vs| as real;
    CoordSumBounds(vs, j, lo, hi);
    var s := CoordSum(vs, j);
    assert Mean(vs, d)[j] == ColumnSums(vs, d)[j] / n;
    assert n * lo <= s <= n * hi;
    assert lo == (n * lo) / n && hi == (n * hi) / n;
  }
}
