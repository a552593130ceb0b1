/** The Python variant (kmeans.py). Its parameters arrive as floats. Its clustering state is
    two dictionaries rather than a tag array:
    - `k_centroids` maps a centroid to the list of its member points;
    - `vectors_mapping` maps a point to the centroid it currently belongs to, or to `None`.
    Python's run-time errors become `Fail` outcomes. */
module PyKMeans {
  import opened Outcomes
  import opened Vectors
  import opened Clusters
  import opened Assignment
  import opened Params

  /** `x` is a whole number. */
  predicate IsIntegral(x: real) {
    x == x.Floor as real
  }

  /** Python's `%` on floats. The remainder takes the sign of the divisor, because the
      quotient is floored. */
  function PyMod(a: real, b: real): real
    requires b != 0.0
  {
    a - b * ((a / b).Floor as real)
  }

  /** `is_natural`: `num > 0 and num % int(num) == 0`, with `and` short-circuiting. `int`
      truncates toward zero, and for a positive number that is the floor. For `0 < num < 1`
      it gives 0, and the `%` raises ZeroDivisionError. */
  function PyIsNatural(num: real): Outcome<bool> {
    if !(num > 0.0) then Ok(false)
    else if num.Floor == 0 then Fail(DivisionByZero)
    else Ok(PyMod(num, num.Floor as real) == 0.0)
  }

  /** What `is_natural` decides:
      - a number that is not positive is not natural;
      - a number strictly between 0 and 1 raises;
      - a number from 1 on is natural exactly when it is whole. */
  lemma PyIsNaturalMeaning(num: real)
    ensures num <= 0.0 ==> PyIsNatural(num) == Ok(false)
    ensures 0.0 < num < 1.0 ==> PyIsNatural(num) == Fail(DivisionByZero)
    ensures num >= 1.0 ==> PyIsNatural(num) == Ok(IsIntegral(num))
  {
    if num >= 1.0 {
      var m := num.Floor as real;
      assert 1.0 <= m <= num < m + 1.0;
      var q := num / m;
      assert q * m == num;
      assert 1.0 <= q < 2.0;
      assert q.Floor == 1;
      assert PyMod(num, m) == num - m;
    }
  }

  /** `assert_input`. The checks run in the order n, k, d, max_iter; the first failing check
      decides the message. Each `and` short-circuits, so `is_natural` runs on n, k and max_iter
      only after their range checks pass, and on d unguarded. */
  function PyAssertInput(k: real, n: real, d: real, maxIter: real): Outcome<Verdict> {
    if !(n > 1.0) then Ok(Rejected(InvalidPoints))
    else
      var nNatural :- PyIsNatural(n);
      if !nNatural then Ok(Rejected(InvalidPoints))
      else if !(1.0 < k < n) then Ok(Rejected(InvalidClusters))
      else
        var kNatural :- PyIsNatural(k);
        if !kNatural then Ok(Rejected(InvalidClusters))
        else
          var dNatural :- PyIsNatural(d);
          if !dNatural then Ok(Rejected(InvalidDimension))
          else if !(1.0 < maxIter < MaxIteration as real) then Ok(Rejected(InvalidIteration))
          else
            var iNatural :- PyIsNatural(maxIter);
            if !iNatural then Ok(Rejected(InvalidIteration)) else Ok(Accepted)
  }

  /** The parameters are accepted exactly when:
      - n is a whole number above 1;
      - k is a whole number strictly between 1 and n;
      - d is a whole number from 1 on;
      - max_iter is a whole number strictly between 1 and 1000.
      A fractional dimension between 0 and 1 is the one input that raises (ZeroDivisionError
      inside `is_natural`). Every other input gets the message of the first failing check. */
  lemma {:induction false} PyAssertInputMeaning(k: real, n: real, d: real, maxIter: real)
    ensures var r := PyAssertInput(k, n, d, maxIter);
      && (r == Ok(Accepted) <==>
            n > 1.0 && IsIntegral(n) && 1.0 < k < n && IsIntegral(k) && d >= 1.0 && IsIntegral(d)
            && 1.0 < maxIter < 1000.0 && IsIntegral(maxIter))
      && (r == Ok(Rejected(InvalidPoints)) <==> !(n > 1.0 && IsIntegral(n)))
      && (r == Ok(Rejected(InvalidClusters)) <==>
            n > 1.0 && IsIntegral(n) && !(1.0 < k < n && IsIntegral(k)))
      && (r.Fail? <==>
            n > 1.0 && IsIntegral(n) && 1.0 < k < n && IsIntegral(k) && 0.0 < d < 1.0)
      && (r.Fail? ==> r == Fail(DivisionByZero))
      && (r == Ok(Rejected(InvalidDimension)) <==>
            n > 1.0 && IsIntegral(n) && 1.0 < k < n && IsIntegral(k)
            && (d <= 0.0 || (d >= 1.0 && !IsIntegral(d))))
      && (r == Ok(Rejected(InvalidIteration)) <==>
            n > 1.0 && IsIntegral(n) && 1.0 < k < n && IsIntegral(k) && d >= 1.0 && IsIntegral(d)
            && !(1.0 < maxIter < 1000.0 && IsIntegral(maxIter)))
  {
    PyIsNaturalMeaning(n);
    PyIsNaturalMeaning(k);
    PyIsNaturalMeaning(d);
    PyIsNaturalMeaning(maxIter);
  }

  /** `find_closest_centroid`: a scan over the dictionary's keys in insertion order that keeps
      a key only when it is strictly closer than the best so far. The `math.inf` start value
      makes the first key win; an empty dictionary gives `None`. */
  function FindClosestCentroid(curr: Vec, keys: seq<Vec>, d: nat): (r: Option<Vec>)
    requires |curr| == d && IsMatrix(keys, d)
    ensures r.None? <==> |keys| == 0
    ensures r.Some? ==> r.value in keys
  {
    if |keys| == 0 then None else Some(keys[Nearest(curr, keys, |keys|, d)])
  }

  /** The key `find_closest_centroid` returns is the first key, in insertion order, at minimal
      distance from the point: it is no farther than any key, and every key before it is
      strictly farther. */
  lemma ClosestIsFirstNearest(curr: Vec, keys: seq<Vec>, d: nat)
    requires |curr| == d && IsMatrix(keys, d) && |keys| > 0
    ensures exists i :: IsFirstNearest(curr, keys, |keys|, d, i) && FindClosestCentroid(curr, keys, d) == Some(keys[i])
  {
    var i := Nearest(curr, keys, |keys|, d);
    assert IsFirstNearest(curr, keys, |keys|, d, i);
  }

  /** `find_closest_centroid` as the loop it is. The running minimum starts at `math.inf`
      (here `None`), and the loop keeps the key itself, not its position. */
  method ScanForClosest(curr: Vec, keys: seq<Vec>, d: nat) returns (closest: Option<Vec>)
    requires |curr| == d && IsMatrix(keys, d)
    ensures closest == FindClosestCentroid(curr, keys, d)
  {
    var closestDistance: Option<real> := None;
    closest := None;
    ghost var best := -1;
    for i := 0 to |keys|
      invariant i == 0 <==> closestDistance.None?
      invariant i == 0 ==> closest.None?
      invariant i > 0 ==> IsFirstNearest(curr, keys, i, d, best)
      invariant i > 0 ==> closest == Some(keys[best])
      invariant i > 0 ==> closestDistance == Some(SqDist(curr, keys[best], d))
    {
      var distance := Distance(curr, keys[i], d);
      if closestDistance.None? || distance < closestDistance.value {
        closestDistance := Some(distance);
        closest := Some(keys[i]);
        best := i;
      }
    }
    if |keys| > 0 {
      FirstNearestUnique(curr, keys, |keys|, d, best, Nearest(curr, keys, |keys|, d));
    }
  }

  /** `calculate_updated_centroid`: the coordinate-wise mean of the member list. The division
      by the list's length happens once per coordinate, so an empty list raises only when
      there is at least one coordinate. */
  function CalculateUpdatedCentroid(vs: seq<Vec>, d: nat): (r: Outcome<Vec>)
    requires IsMatrix(vs, d)
    ensures r.Fail? <==> |vs| == 0 && d > 0
    ensures r.Fail? ==> r == Fail(DivisionByZero)
    ensures r.Ok? ==> |r.value| == d
  {
    if d == 0 then Ok([])
    else if |vs| == 0 then Fail(DivisionByZero)
    else Ok(Mean(vs, d))
  }

  /** Each coordinate of the updated centroid times the number of members is that coordinate's
      sum over the members. Each coordinate also lies between the members' smallest and largest
      values of it. */
  lemma UpdatedCentroidIsMean(vs: seq<Vec>, d: nat, j: nat, lo: real, hi: real)
    requires IsMatrix(vs, d) && |vs| > 0 && j < d
    requires forall i :: 0 <= i < |vs| ==> lo <= vs[i][j] <= hi
    ensures CalculateUpdatedCentroid(vs, d).Ok?
    ensures (|vs| as real) * CalculateUpdatedCentroid(vs, d).value[j] == CoordSum(vs, j)
    ensures lo <= CalculateUpdatedCentroid(vs, d).value[j] <= hi
  {
    var n := |vs| as real;
    var s := ColumnSums(vs, d)[j];
    assert CalculateUpdatedCentroid(vs, d).value[j] == s / n;
    assert n * (s / n) == s;
    MeanWithinBounds(vs, d, j, lo, hi);
  }

  /** The position of the first element equal to `x`, as `list.index(x)` finds it. */
  function FirstIndex(xs: seq<Vec>, x: Vec): (i: nat)
    requires x in xs
    ensures i < |xs| && xs[i] == x && x !in xs[..i]
  {
    if xs[0] == x then 0
    else
      var i := FirstIndex(xs[1..], x);
      assert xs[..i + 1] == [xs[0]] + xs[1..][..i];
      i + 1
  }

  /** `list.remove(x)`: drop the first element equal to `x`. */
  function RemoveFirst(xs: seq<Vec>, x: Vec): (r: seq<Vec>)
    requires x in xs
    ensures multiset(r) == multiset(xs) - multiset{x}
    ensures exists i :: 0 <= i < |xs| && xs[i] == x && x !in xs[..i] && r == xs[..i] + xs[i + 1..]
  {
    var i := FirstIndex(xs, x);
    assert xs == xs[..i] + [xs[i]] + xs[i + 1..];
    xs[..i] + xs[i + 1..]
  }

  /** The two dictionaries. `order` lists the keys of `k_centroids` in insertion order, which
      is the order `find_closest_centroid` scans them in; `members` maps each key to its list. */
  datatype PyState = PyState(order: seq<Vec>, members: map<Vec, seq<Vec>>, mapping: map<Vec, Option<Vec>>)

  predicate Distinct(xs: seq<Vec>) {
    forall i, j :: 0 <= i < j < |xs| ==> xs[i] != xs[j]
  }

  /** `order` and `members` describe one dictionary: each key is listed once. */
  predicate IsDict(st: PyState) {
    Distinct(st.order) && st.members.Keys == set c | c in st.order
  }

  /** The two dictionaries agree about `points`:
      - every point has an entry in `vectors_mapping`;
      - a point mapped to a centroid occurs exactly once in that centroid's list and in no
        other list;
      - a point mapped to `None` occurs in no list. */
  predicate Consistent(st: PyState, points: seq<Vec>) {
    && (forall p :: p in points ==> p in st.mapping)
    && (forall p :: p in points && st.mapping[p].Some? ==> st.mapping[p].value in st.members)
    && (forall p, c :: p in points && c in st.members ==>
          multiset(st.members[c])[p] == if st.mapping[p] == Some(c) then 1 else 0)
  }

  /** `k_centroids[prev].remove(curr)` when the point had a previous centroid; nothing
      otherwise. Only the previous centroid's list loses an element, one occurrence of `curr`. */
  function Detach(members: map<Vec, seq<Vec>>, curr: Vec, prev: Option<Vec>): (r: map<Vec, seq<Vec>>)
    requires prev.Some? ==> prev.value in members && curr in members[prev.value]
    ensures r.Keys == members.Keys
    ensures forall c, q :: c in members ==>
              multiset(r[c])[q] == multiset(members[c])[q] - (if prev == Some(c) && q == curr then 1 else 0)
    ensures forall c :: c in members && prev != Some(c) ==> r[c] == members[c]
  {
    if prev.Some? then members[prev.value := RemoveFirst(members[prev.value], curr)] else members
  }

  /** The list surgery of one move: `curr` leaves the list of its previous centroid `prev` (if
      it had one), joins the end of `target`'s list, and now maps to `target`. */
  function Move(st: PyState, curr: Vec, prev: Option<Vec>, target: Vec): (r: PyState)
    requires prev.Some? ==> prev.value in st.members && curr in st.members[prev.value]
    requires target in st.members
    ensures r.order == st.order && r.members.Keys == st.members.Keys
    ensures forall c :: c in st.members && prev != Some(c) && c != target ==> r.members[c] == st.members[c]
  {
    var detached := Detach(st.members, curr, prev);
    PyState(st.order, detached[target := detached[target] + [curr]], st.mapping[curr := Some(target)])
  }

  /** One iteration of the loop in `assign_to_closest_centroid`. The point's closest centroid
      is found first, then its previous centroid is looked up. When they differ, the point is
      removed from the previous centroid's list (if it had one) and appended to the closest
      centroid's list. A `None` closest centroid (an empty dictionary) is a missing key. A point
      already mapped to its closest centroid leaves the state untouched. */
  function AssignPoint(st: PyState, curr: Vec, d: nat): (r: Outcome<PyState>)
    requires IsDict(st) && |curr| == d && IsMatrix(st.order, d)
    ensures r.Ok? ==> IsDict(r.value) && r.value.order == st.order
    ensures r.Ok? ==> curr in st.mapping && r.value.mapping == st.mapping[curr := FindClosestCentroid(curr, st.order, d)]
    ensures curr in st.mapping && FindClosestCentroid(curr, st.order, d) == st.mapping[curr] ==> r == Ok(st)
  {
    var closest := FindClosestCentroid(curr, st.order, d);
    if curr !in st.mapping then Fail(MissingKey)
    else
      var prev := st.mapping[curr];
      if closest == prev then Ok(st)
      else if prev.Some? && prev.value !in st.members then Fail(MissingKey)
      else if prev.Some? && curr !in st.members[prev.value] then Fail(MissingElement)
      else if closest.None? then Fail(MissingKey)
      else Ok(Move(st, curr, prev, closest.value))
  }

  /** `assign_to_closest_centroid`: `AssignPoint` for every point, in list order, stopping at
      the first error. */
  function AssignAll(points: seq<Vec>, st: PyState, d: nat): (r: Outcome<PyState>)
    requires IsDict(st) && IsMatrix(points, d) && IsMatrix(st.order, d)
    ensures r.Ok? ==> IsDict(r.value) && r.value.order == st.order
  {
    if |points| == 0 then Ok(st)
    else
      var before :- AssignAll(points[..|points| - 1], st, d);
      AssignPoint(before, points[|points| - 1], d)
  }

  /** How often `q` occurs in the list of `c` after a move: once more if `q` is the moved point
      and `c` is the target, once less if `q` is the moved point and `c` its previous
      centroid, and as often as before otherwise. */
  lemma MoveCount(st: PyState, p: Vec, prev: Option<Vec>, target: Vec, q: Vec, c: Vec)
    requires prev.Some? ==> prev.value in st.members && p in st.members[prev.value]
    requires target in st.members && prev != Some(target) && c in st.members
    ensures multiset(Move(st, p, prev, target).members[c])[q] ==
              multiset(st.members[c])[q]
              + (if c == target && q == p then 1 else 0)
              - (if prev == Some(c) && q == p then 1 else 0)
  {
    var detached := Detach(st.members, p, prev);
    if c == target {
      assert Move(st, p, prev, target).members[c] == detached[target] + [p];
      assert multiset(detached[target] + [p]) == multiset(detached[target]) + multiset{p};
    } else {
      assert Move(st, p, prev, target).members[c] == detached[c];
    }
  }

  /** Moving a point of a consistent state to a centroid other than its current one keeps
      the state consistent. Every list except those of the two centroids involved is
      unchanged. */
  lemma MoveKeepsConsistent(st: PyState, p: Vec, points: seq<Vec>, target: Vec)
    requires Consistent(st, points) && p in points
    requires target in st.members && st.mapping[p] != Some(target)
    ensures st.mapping[p].Some? ==> st.mapping[p].value in st.members && p in st.members[st.mapping[p].value]
    ensures Consistent(Move(st, p, st.mapping[p], target), points)
  {
    var prev := st.mapping[p];
    if prev.Some? {
      assert multiset(st.members[prev.value])[p] == 1;
    }
    var st' := Move(st, p, prev, target);
    forall q, c | q in points && c in st'.members
      ensures multiset(st'.members[c])[q] == if st'.mapping[q] == Some(c) then 1 else 0
    {
      MoveCount(st, p, prev, target, q, c);
    }
  }

  /** On a consistent state, assigning point `p` raises nothing and keeps the state consistent.
      Only `p`'s mapping changes, to its closest centroid. A list changes only if it belongs to
      `p`'s previous or new centroid. */
  lemma {:induction false} AssignPointKeepsConsistent(st: PyState, p: Vec, points: seq<Vec>, d: nat)
    requires IsDict(st) && IsMatrix(points, d) && IsMatrix(st.order, d)
    requires Consistent(st, points) && p in points
    ensures AssignPoint(st, p, d).Ok?
    ensures var st' := AssignPoint(st, p, d).value;
      && Consistent(st', points)
      && st'.mapping == st.mapping[p := FindClosestCentroid(p, st.order, d)]
      && st'.members.Keys == st.members.Keys
      && (forall c ::
            (c in st.members && Some(c) != st.mapping[p] && Some(c) != FindClosestCentroid(p, st.order, d))
            ==> st'.members[c] == st.members[c])
  {
    var closest := FindClosestCentroid(p, st.order, d);
    var prev := st.mapping[p];
    if closest != prev {
      MoveKeepsConsistent(st, p, points, closest.value);
      assert AssignPoint(st, p, d) == Ok(Move(st, p, prev, closest.value));
    }
  }

  /** `AssignAll` stops at the first error and never recovers from it. */
  lemma {:induction false} AssignAllFailureSticks(points: seq<Vec>, st: PyState, d: nat, m: nat)
    requires IsDict(st) && IsMatrix(points, d) && IsMatrix(st.order, d) && m <= |points|
    requires AssignAll(points[..m], st, d).Fail?
    ensures AssignAll(points, st, d) == AssignAll(points[..m], st, d)
    decreases |points| - m
  {
    if m < |points| {
      var next := points[..m + 1];
      assert next[..m] == points[..m];
      assert AssignAll(next, st, d) == AssignAll(points[..m], st, d);
      AssignAllFailureSticks(points, st, d, m + 1);
    } else {
      assert points[..m] == points;
    }
  }

  /** Running the loop over points `ps` drawn from `points`, starting from a consistent state,
      raises nothing and keeps the state consistent. */
  lemma {:induction false} AssignAllKeepsConsistent(ps: seq<Vec>, st: PyState, points: seq<Vec>, d: nat)
    requires IsDict(st) && IsMatrix(points, d) && IsMatrix(st.order, d) && IsMatrix(ps, d)
    requires Consistent(st, points) && forall p :: p in ps ==> p in points
    ensures AssignAll(ps, st, d).Ok?
    ensures Consistent(AssignAll(ps, st, d).value, points)
    ensures AssignAll(ps, st, d).value.members.Keys == st.members.Keys
  {
    if |ps| > 0 {
      var front := ps[..|ps| - 1];
      var last := ps[|ps| - 1];
      assert forall p :: p in front ==> p in ps;
      AssignAllKeepsConsistent(front, st, points, d);
      var before := AssignAll(front, st, d).value;
      AssignPointKeepsConsistent(before, last, points, d);
      assert AssignAll(ps, st, d) == AssignPoint(before, last, d);
    }
  }

  /** When the loop over points `ps` raises nothing, every point of `ps` ends up mapped to its
      closest centroid, and every other point keeps its mapping. */
  lemma {:induction false} AssignAllMapsToClosest(ps: seq<Vec>, st: PyState, d: nat)
    requires IsDict(st) && IsMatrix(st.order, d) && IsMatrix(ps, d)
    requires AssignAll(ps, st, d).Ok?
    ensures var st' := AssignAll(ps, st, d).value;
      && (forall i :: 0 <= i < |ps| ==>
            ps[i] in st'.mapping && st'.mapping[ps[i]] == FindClosestCentroid(ps[i], st.order, d))
      && (forall p :: p in st.mapping && p !in ps ==> p in st'.mapping && st'.mapping[p] == st.mapping[p])
  {
    if |ps| > 0 {
      var front := ps[..|ps| - 1];
      var last := ps[|ps| - 1];
      var before := AssignAll(front, st, d).value;
      AssignAllMapsToClosest(front, st, d);
      var st' := AssignAll(ps, st, d).value;
      assert st'.mapping == before.mapping[last := FindClosestCentroid(last, st.order, d)];
      forall i | 0 <= i < |ps| - 1
        ensures ps[i] in st'.mapping && st'.mapping[ps[i]] == FindClosestCentroid(ps[i], st.order, d)
      {
        assert front[i] == ps[i];
      }
      forall p | p in st.mapping && p !in ps
        ensures p in st'.mapping && st'.mapping[p] == st.mapping[p]
      {
        assert p !in front && p != last;
      }
    }
  }

  /** `assign_to_closest_centroid` on a consistent state raises nothing and leaves a consistent
      state. Afterwards every point maps to its closest centroid, and every point occurs exactly
      once in the list of that centroid and in no other list. The keys are unchanged. */
  lemma AssignToClosestCentroidCorrect(points: seq<Vec>, st: PyState, d: nat)
    requires IsDict(st) && IsMatrix(points, d) && IsMatrix(st.order, d) && Consistent(st, points)
    ensures AssignAll(points, st, d).Ok?
    ensures var st' := AssignAll(points, st, d).value;
      && Consistent(st', points)
      && st'.order == st.order
      && st'.members.Keys == st.members.Keys
      && (forall p :: p in points ==> st'.mapping[p] == FindClosestCentroid(p, st.order, d))
      && (forall p, c :: p in points && c in st'.members ==>
            multiset(st'.members[c])[p] == if FindClosestCentroid(p, st.order, d) == Some(c) then 1 else 0)
  {
    AssignAllKeepsConsistent(points, st, points, d);
    AssignAllMapsToClosest(points, st, d);
    forall p | p in points
      ensures AssignAll(points, st, d).value.mapping[p] == FindClosestCentroid(p, st.order, d)
    {
      var i :| 0 <= i < |points| && points[i] == p;
    }
  }

  /** `assign_to_closest_centroid` as the loop it is. */
  method AssignToClosestCentroid(points: seq<Vec>, st: PyState, d: nat) returns (r: Outcome<PyState>)
    requires IsDict(st) && IsMatrix(points, d) && IsMatrix(st.order, d)
    ensures r == AssignAll(points, st, d)
  {
    var current := st;
    for i := 0 to |points|
      invariant AssignAll(points[..i], st, d) == Ok(current)
    {
      var curr := points[i];
      assert points[..i + 1][..i] == points[..i];
      var moved := AssignPoint(current, curr, d);
      if moved.Fail? {
        AssignAllFailureSticks(points, st, d, i + 1);
        return moved;
      }
      current := moved.value;
    }
    assert points[..|points|] == points;
    return Ok(current);
  }

  /** The key order of a Python dictionary built by inserting `xs` in turn. A key inserted
      again keeps its first position. */
  function InsertionOrder(xs: seq<Vec>): (r: seq<Vec>)
    ensures Distinct(r) && forall x :: x in r <==> x in xs
    ensures forall d: nat :: IsMatrix(xs, d) ==> IsMatrix(r, d)
  {
    if |xs| == 0 then []
    else
      var front := InsertionOrder(xs[..|xs| - 1]);
      var x := xs[|xs| - 1];
      assert forall y :: y in xs <==> y in xs[..|xs| - 1] || y == x;
      assert forall d: nat :: IsMatrix(xs, d) ==> IsMatrix(xs[..|xs| - 1], d) && |x| == d;
      if x in front then front else front + [x]
  }

  /** Inserting distinct keys keeps them in the order given. */
  lemma {:induction false} InsertionOrderOfDistinct(xs: seq<Vec>)
    requires Distinct(xs)
    ensures InsertionOrder(xs) == xs
  {
    if |xs| > 0 {
      var front := xs[..|xs| - 1];
      InsertionOrderOfDistinct(front);
      assert xs[|xs| - 1] !in front;
      assert front + [xs[|xs| - 1]] == xs;
    }
  }

  /** The initial state of `k_means`:
      - `k_centroids` maps each of the first k points to a list holding that point;
      - `vectors_mapping` maps each of those points to itself and every other point to `None`.
      Fewer than k points is an IndexError. */
  function InitialState(points: seq<Vec>, k: nat): (r: Outcome<PyState>)
    ensures r.Ok? <==> k <= |points|
    ensures r.Ok? ==> IsDict(r.value)
    ensures r.Ok? ==> forall d: nat :: IsMatrix(points, d) ==> IsMatrix(r.value.order, d)
  {
    if k > |points| then Fail(IndexOutOfRange)
    else
      var firsts := points[..k];
      Ok(PyState(InsertionOrder(firsts),
                 map c | c in firsts :: [c],
                 map v | v in points :: if v in firsts then Some(v) else None))
  }

  /** The initial state is a consistent pair of dictionaries:
      - each of the first k points is a centroid whose list holds just itself, and it maps to
        itself;
      - every other point maps to `None`;
      - for distinct points the keys are the first k points, in order. */
  lemma InitialStateConsistent(points: seq<Vec>, k: nat)
    requires k <= |points|
    ensures InitialState(points, k).Ok?
    ensures var st := InitialState(points, k).value;
      && IsDict(st) && Consistent(st, points)
      && (forall i :: 0 <= i < k ==>
            points[i] in st.members && st.members[points[i]] == [points[i]]
            && st.mapping[points[i]] == Some(points[i]))
      && (forall v :: v in points && v !in points[..k] ==> st.mapping[v] == None)
      && (Distinct(points) ==> st.order == points[..k])
  {
    var st := InitialState(points, k).value;
    forall i | 0 <= i < k
      ensures points[i] in points[..k]
    {
      assert points[..k][i] == points[i];
    }
    forall p, c | p in points && c in st.members
      ensures multiset(st.members[c])[p] == if st.mapping[p] == Some(c) then 1 else 0
    {
      assert st.members[c] == [c];
    }
    if Distinct(points) {
      InsertionOrderOfDistinct(points[..k]);
    }
  }

  /** On distinct points, `find_closest_centroid` against the initial keys picks the centroid
      that the reference tagging picks against the first k points. */
  lemma ClosestIsTag(points: seq<Vec>, k: nat, d: nat, i: nat)
    requires IsMatrix(points, d) && 1 <= k <= |points| && i < |points|
    ensures FindClosestCentroid(points[i], points[..k], d) == Some(points[..k][Tags(points, points[..k], k, d)[i]])
  {
    var cs := points[..k];
    var tags := Tags(points, cs, k, d);
    ClosestIsFirstNearest(points[i], cs, d);
    var j :| IsFirstNearest(points[i], cs, k, d, j) && FindClosestCentroid(points[i], cs, d) == Some(cs[j]);
    assert IsFirstNearest(points[i], cs, k, d, tags[i]);
    FirstNearestUnique(points[i], cs, k, d, j, tags[i]);
  }

  /** The first assignment pass after the initial state, on distinct points, tags every point
      as the reference Lloyd round does against the first k points. Point i ends up mapped to
      the centroid `Tags(points, points[..k], k, d)[i]` and listed exactly in that centroid's
      list. */
  lemma FirstPassIsLloydTagging(points: seq<Vec>, k: nat, d: nat)
    requires Distinct(points) && IsMatrix(points, d) && 1 <= k <= |points|
    ensures InitialState(points, k).Ok?
    ensures AssignAll(points, InitialState(points, k).value, d).Ok?
    ensures var cs := points[..k];
      var st' := AssignAll(points, InitialState(points, k).value, d).value;
      forall i :: 0 <= i < |points| ==>
        var c := cs[Tags(points, cs, k, d)[i]];
        && points[i] in st'.mapping && st'.mapping[points[i]] == Some(c)
        && c in st'.members && multiset(st'.members[c])[points[i]] == 1
  {
    var cs := points[..k];
    InitialStateConsistent(points, k);
    var st := InitialState(points, k).value;
    assert st.order == cs;
    AssignToClosestCentroidCorrect(points, st, d);
    var st' := AssignAll(points, st, d).value;
    forall i | 0 <= i < |points|
      ensures var c := cs[Tags(points, cs, k, d)[i]];
        points[i] in st'.mapping && st'.mapping[points[i]] == Some(c) && c in st'.members && multiset(st'.members[c])[points[i]] == 1
    {
      ClosestIsTag(points, k, d, i);
      assert points[i] in points;
    }
  }
}
