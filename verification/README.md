# K-means clustering: a verified model

The repository holds several near-duplicate implementations of Lloyd's K-means clustering over an in-memory n×d matrix of points:
- three C programs that accumulate and then divide: kmeans.c, k_means.c and k_mean.c;
- a C program with a snapshot-based loop, mia_k_mean.c;
- its Python-extension twin, kmeansmodule_mia.c;
- a pure Python script, kmeans.py.

Every program alternates two steps:
- an assignment step, which gives every point its nearest centroid;
- an update step, which moves every centroid to the mean of its cluster.

Around that shared core the programs differ:
- Validation: the four C programs and kmeans.py check the run parameters k (clusters), n (points), d (dimension) and max_iter. kmeansmodule_mia.c checks nothing: its `kmeans` (kmeansmodule_mia.c:70-107) takes whatever its caller passes.
- Seeding: every program except kmeansmodule_mia.c seeds the centroids with the first k points. kmeansmodule_mia.c starts from centroids its caller supplies.
- Stopping: the C programs stop on a convergence test or after max_iter passes. The loop of kmeans.py joins its two conditions with `or` (kmeans.py:86), so max_iter does not bound it. That loop is left out of the model (see "Left out").

This project models that core in Dafny and proves properties of the model. Three conventions apply throughout:
- Coordinates are mathematical reals.
- Distances are compared through their squares. `Vectors.SqrtOrder` and `Vectors.SqrtThreshold` show that this changes neither an argmin nor a threshold test.
- Every run-time fault on a modelled path becomes a `Fail` outcome, except the faults listed under "Left out". The faults modelled are a division or modulo by zero (a zero cluster size, or `int(num)` in `is_natural` of kmeans.py), and Python's `KeyError`, `ValueError` (from `list.remove`) and `IndexError` (from too few points).

The modules follow the structure of the code:

| module | file | what it models |
|---|---|---|
| `Outcomes` | outcomes.dfy | `Option`, the faults, and a failure-carrying `Outcome` |
| `Vectors` | vectors.dfy | `distance`/`dist` (as `SqDist`), coordinate sums and means |
| `Params` | params.dfy | `assert_input` of the accumulate variants, `is_natural` and `check_input` of mia_k_mean.c |
| `Clusters` | clusters.dfy | clusters recovered from a tag array, and the update policy of `vectors_average` |
| `Assignment` | assignment.dfy | `find_closest_centroid_index` and `tag`: the first nearest centroid |
| `Lloyd` | lloyd.dfy | one round of Lloyd's algorithm, as the reference the variants are related to |
| `KMeansC` | accumulate.dfy | the session of kmeans.c (`centroids`, `new_centroids`, `centroid_size`) and one pass of its loop |
| `KMeansLoop` | driver.dfy | the `k_means` loop with its running `delta_miu` |
| `KMeansSeed` | finding.dfy | the seed of `delta_miu` (see Findings) and the corrected pass |
| `Snapshot` | snapshot.dfy | `vectors_average` and the snapshot loop of mia_k_mean.c and kmeansmodule_mia.c |
| `PyKMeans` | pykmeans.dfy | the validators, assignment step and initial state of kmeans.py |

The three accumulate programs hold the same code for:
- `distance`: kmeans.c:27-36, k_means.c:26-34, k_mean.c:26-34;
- `assert_input`: kmeans.c:38-83, k_means.c:36-79, k_mean.c:36-80;
- `find_closest_centroid_index`: kmeans.c:151-167, k_means.c:145-160, k_mean.c:144-159;
- `reset_new_centroids`: kmeans.c:205-214, k_means.c:195-203, k_mean.c:195-203;
- the loop header and counter of `k_means`: kmeans.c:222-238, k_means.c:211-227, k_mean.c:211-234.

One Dafny member models each of these. The table below cites the copies separately where they matter.

The two update policies really differ, and the model keeps them apart:
- In kmeans.c an empty cluster divides by zero. `KMeansC.CalculateMean` fails.
- In mia_k_mean.c and kmeansmodule_mia.c an empty cluster gets the zero vector, not its previous centroid. See `Clusters.Average`.

## Model

| member | source | states |
|---|---|---|
| Vectors.SqDistNonNegative | kmeans.c:27-36 | The distance is never negative. |
| Vectors.SqDistSymmetric | kmeans.c:27-36 | The distance from v to u equals the distance from u to v. |
| Vectors.SqDistZeroIffAgree | kmeans.c:27-36 | The distance is zero exactly when the vectors agree on the first d coordinates. Coordinates from d on are never read. |
| Vectors.Distance | kmeans.c:27-36 | The loop adds up the squared coordinate differences over coordinates 0..d-1. This is the value whose square root `distance` returns. The same code is at mia_k_mean.c:71-80. |
| Vectors.SqrtOrder | kmeans.c:151-167 | For non-negative distances, one distance is smaller than another exactly when its square is. So an argmin over squared distances is the argmin the code computes. |
| Vectors.SqrtThreshold | mia_k_mean.c:167-177 | `dist > eps` holds exactly when eps is negative or the squared distance exceeds eps². |
| Vectors.MeanWithinBounds | mia_k_mean.c:116-124 | Any bounds that hold for a coordinate over all members of a cluster also hold for that coordinate of the cluster mean, so a centroid never leaves its cluster's bounding box. |
| Params.DecimalRoundTrip | kmeans.c:67 | `atoi` applied to the shortest decimal rendering of a number gives the number back. |
| Params.Atoi | kmeans.c:67 | On an all-digit string, `atoi` returns the decimal value of the digits. |
| Params.AssertInput | kmeans.c:38-83 | Any non-digit character gives 0 and the parameter's message. So does a k or n of at most 1, and an iteration count outside 2..999. Otherwise the result is the decimal value. The result is non-zero exactly when the string is accepted and does not denote 0. The same code is at k_means.c:36-79 and k_mean.c:36-80. |
| Params.CheckInput | mia_k_mean.c:22-40 | Accepts exactly when n > 1, 1 < k < n, d > 0 and 1 < max_iter < 1000. Otherwise it reports the message of the first failing check in the order n, k, d, max_iter. Each message is given as an if-and-only-if. |
| Clusters.SizesSumToCount | mia_k_mean.c:109-115 | When every tag names one of the K clusters, the cluster sizes add up to the number of points. |
| Clusters.AverageScaledBySize | mia_k_mean.c:103-124 | An empty cluster's centroid is the zero vector. For every cluster, each centroid coordinate times the cluster size equals that coordinate's sum over the members. |
| Assignment.Nearest | kmeans.c:151-167 | With no centroid the result is -1. Otherwise it is the lowest index whose distance is at most every other distance: every earlier index is strictly farther. The same code is at k_means.c:145-160 and k_mean.c:144-159. |
| Assignment.FindClosest | kmeans.c:151-167 | The loop that starts from `INFINITY` and -1 and replaces its candidate only on a strictly smaller distance returns the first nearest index. |
| Assignment.Tags | mia_k_mean.c:82-98 | The tag array has one entry per point. Each entry is in [0, K) and is the lowest index of a nearest centroid. |
| Assignment.Tag | mia_k_mean.c:82-98 | The nested loops of `tag` compute exactly those tags. The same code is at kmeansmodule_mia.c:24-40. |
| KMeansC.InitCentroids | kmeans.c:118-143 | Centroid i is point i and size i is zero for every i < k. The accumulators keep whatever they held, and only an all-zero start makes the session fresh. The same code is at k_mean.c:112-136. |
| KMeansC.CalculateUpdatedCentroid | kmeans.c:186-194 | Accumulator `centroid_idx` grows by the point and its size by exactly 1. Every other accumulator and size is unchanged, and so are the centroids. The same code is at k_means.c:178-185. |
| KMeansC.CalculateMean | kmeans.c:195-204 | Fails exactly when cluster i is empty. Otherwise accumulator i becomes sum/size coordinate-wise, and nothing else changes. The same code is at k_means.c:186-194. |
| KMeansC.ResetNewCentroids | kmeans.c:205-214 | Centroid i becomes accumulator i. Accumulator i and size i are cleared, and no other cluster changes. The same code is at k_means.c:195-203 and k_mean.c:195-203. |
| KMeansC.AccumulateCounts | kmeans.c:225-229 | After the assignment loop over m points, every size has grown by the number of those points tagged with its cluster. |
| KMeansC.AccumulateSums | kmeans.c:225-229 | After the assignment loop over m points, every accumulator has grown by the coordinate sums of its cluster's members. |
| KMeansC.AssignedSizesSumToCount | kmeans.c:225-229 | The size increments of one assignment loop add up to n. |
| KMeansC.CommitCluster | kmeans.c:233-236 | `calculate_mean` followed by `reset_new_centroids` fails exactly on an empty cluster. Otherwise it commits sum/size as the centroid, clears the accumulator and size, and touches no other cluster. |
| KMeansC.CommitClusters | kmeans.c:231-237 | The commit loop fails exactly when one of the clusters it visits is empty, and otherwise leaves a well-formed session. |
| KMeansC.CommitKeepsEarlier | kmeans.c:231-237 | The commit loop from cluster y leaves clusters below y unchanged. |
| KMeansC.CommitDivides | kmeans.c:231-237 | After the commit loop, every visited centroid is its accumulator divided by its size. |
| KMeansC.CommitClears | kmeans.c:231-237 | After the commit loop, every visited accumulator and size is cleared. |
| KMeansC.CommitDeltaBounds | kmeans.c:234-235 | The returned `delta_miu` is at least its starting value and at least every visited cluster's movement. |
| KMeansC.CommitDeltaAttained | kmeans.c:234-235 | The returned `delta_miu` is its starting value or the movement of one visited cluster. |
| KMeansC.CommitIgnoresDelta | kmeans.c:231-237 | The clusters the commit loop produces do not depend on the running `delta_miu`. |
| KMeansC.Pass | kmeans.c:224-237 | A pass fails exactly when some cluster's starting size plus its new member count is zero. |
| KMeansC.PassClears | kmeans.c:224-237 | A successful pass leaves every accumulator and size cleared. |
| KMeansC.PassDivides | kmeans.c:224-237 | After a pass, every centroid is (its starting accumulator plus its members' coordinate sums) divided by (its starting size plus its member count). |
| KMeansC.PassDeltaIsMaximum | kmeans.c:224-237 | The pass's `delta_miu` is the maximum of the seed distance(centroids[0], new_centroids[0]) and every cluster's movement. The same code is at k_means.c:213-225. |
| KMeansC.FreshPassIsLloydStep | kmeans.c:224-237 | From cleared accumulators, a pass succeeds exactly when no cluster is empty. It then clears them again and moves every centroid to its cluster's mean: one round of Lloyd's algorithm. |
| KMeansC.AssignLoop | kmeans.c:225-229 | The assignment loop computes the session described above. |
| KMeansC.CommitLoop | kmeans.c:231-237 | The commit loop, with its running maximum of movements, computes the result described above. |
| KMeansC.RunPass | kmeans.c:224-237 | The loop body (seed, assignment loop, commit loop) computes `Pass`. |
| KMeansLoop.LoopStops | kmeans.c:222-238 | The loop, whatever the pass, never runs more than max_iter passes. When it ends without a fault, either `delta_miu` is below 0.001 or max_iter passes have run. The loop header and counter are the same at k_means.c:211-227 and k_mean.c:211-234. |
| KMeansLoop.LloydLoopFailsOnEmptyCluster | kmeans.c:216-243 | With a Lloyd-round pass from cleared accumulators, the loop fails exactly when one of the rounds it ran met an empty cluster. |
| KMeansLoop.LloydLoopIterates | kmeans.c:216-243 | With a Lloyd-round pass, a fault-free run after j passes holds the centroids of j rounds of Lloyd's algorithm, with cleared accumulators. |
| KMeansLoop.FixedPointRunsToLimit | kmeans.c:222-238 | If a state is a fixed point of the pass with a `delta_miu` at or above the threshold, the loop repeats it until max_iter passes have run. |
| KMeansLoop.KMeansPassIsLloydRound | kmeans.c:224-237 | The pass of kmeans.c is a round of Lloyd's algorithm from cleared accumulators. |
| KMeansLoop.FreshRunIsLloyd | kmeans.c:222-238 | With a Lloyd-round pass from cleared accumulators, the loop fails exactly when one of the rounds it ran met an empty cluster. Otherwise it ends on the centroids of as many Lloyd rounds as it ran passes. |
| KMeansLoop.SeededRunIsLloyd | kmeans.c:216-243 | The whole `k_means` of kmeans.c after `init_centroids`, provided the unwritten accumulators are zero. It fails exactly when a round from the first k points met an empty cluster. Otherwise it returns Lloyd's centroids after as many rounds from the first k points as it ran passes. |
| KMeansLoop.KMeans | kmeans.c:216-243 | `k_means`, with `delta_miu` starting at `INFINITY`, computes `Loop`. |
| KMeansSeed.StablePassReportsSeed | kmeans.c:224 | From a stable configuration with cleared accumulators, the pass leaves the session unchanged, yet reports as `delta_miu` the squared distance of centroid 0 from the origin. |
| KMeansSeed.StableLoopRunsToLimit | kmeans.c:222-238 | So if centroid 0 of such a configuration lies at least 0.001 from the origin, the loop runs all max_iter passes. |
| KMeansSeed.ExampleStepsToMidpoints | kmeans.c:225-237 | On the four-point example, one round of Lloyd's algorithm takes both the seeds (the first two points) and the pair midpoints to the pair midpoints, with no empty cluster. |
| KMeansSeed.ExampleFirstPass | kmeans.c:224-237 | From the seeds, the first pass, as written or corrected, moves each centroid by 0.5 onto its pair's midpoint and reports 0.25. Its seed is 0, because point (0,0) is centroid 0. |
| KMeansSeed.ExampleNeverSettles | kmeans.c:222-238 | Started at the pair midpoints, the run of the example never moves a centroid, yet uses up every pass with a squared `delta_miu` of 0.25. |
| KMeansSeed.ExampleSeededRunNeverSettles | kmeans.c:216-243 | The run of the example from its own seeding reaches the midpoints after one pass. It then stands still, yet it ends only after max_iter passes, with a squared `delta_miu` of 0.25 (see Findings). |
| KMeansSeed.CorrectedPass | kmeans.c:224 | Seeding `delta_miu` at zero fails exactly when the pass as written fails, and yields the same clusters. |
| KMeansSeed.CorrectedDeltaIsLargestMovement | kmeans.c:231-237 | The corrected `delta_miu` is exactly the largest centroid movement. |
| KMeansSeed.CorrectedPassIsLloydRound | kmeans.c:224-237 | The corrected pass is still a round of Lloyd's algorithm. |
| KMeansSeed.CorrectedStableLoopStops | kmeans.c:222-238 | With the correction, a run from a stable configuration stops after one pass with `delta_miu` zero. |
| KMeansSeed.CorrectedStablePassStandsStill | kmeans.c:224-237 | The corrected pass returns a stable configuration unchanged and reports a `delta_miu` of zero. |
| KMeansSeed.CorrectedSeededExampleSettles | kmeans.c:216-243 | With the correction, the run of the example from its own seeding stops after two passes, on the midpoints, with `delta_miu` zero. |
| KMeansSeed.CorrectedExampleSettles | kmeans.c:222-238 | Started at the pair midpoints, the corrected run of the example stops after one pass. |
| KMeansSeed.RunCorrectedPass | kmeans.c:224-237 | The loop body with the maximum seeded at zero computes `CorrectedPass`. |
| KMeansSeed.CorrectedKMeans | kmeans.c:216-243 | The loop with the corrected body computes `Loop` over `CorrectedKMeansPass`. |
| Snapshot.AccumulateClusters | mia_k_mean.c:103-115 | After zeroing and the accumulation loop, every size is the number of points tagged with its cluster and every centroid is the coordinate sums of those points. |
| Snapshot.DivideClusters | mia_k_mean.c:116-124 | The division loop divides non-empty clusters by their size and leaves an empty cluster at the zero vector: the policy `Clusters.Average`. |
| Snapshot.VectorsAverage | mia_k_mean.c:100-126 | `vectors_average` computes the cluster means, with the zero vector for an empty cluster, whatever the centroid was before. The same code is at kmeansmodule_mia.c:42-68. |
| Snapshot.WithinIsDistanceTest | mia_k_mean.c:169-172 | The model's closeness test on squared distances is exactly the negation of `distance > EPSILON`. |
| Snapshot.CloseEnough | mia_k_mean.c:167-177 | The scan that breaks at the first centroid farther than EPSILON from its snapshot returns true exactly when no centroid is. |
| Snapshot.TagThenAverage | mia_k_mean.c:164-165 | `tag` followed by `vectors_average` is one round of Lloyd's algorithm: the new centroids are exactly the reference `Lloyd.Step` of the old ones. The same code is at kmeansmodule_mia.c:85-86. |
| Snapshot.RoundsAreLloyd | mia_k_mean.c:163-165 | Repeating that update m times gives the centroids after m rounds of Lloyd's algorithm. |
| Snapshot.RunStopsAtFirstSettledPass | mia_k_mean.c:163-186 | The loop returns the centroids after the passes it ran, and never runs more than iter passes. No pass before the last one settled. It stops before iter passes only on a pass that moved no centroid more than EPSILON. The module's loop at kmeansmodule_mia.c:84-107 is the same, with the caller's EPSILON. |
| Snapshot.SnapshotRunIsLloyd | mia_k_mean.c:163-186 | The run ends on the centroids of Lloyd's algorithm after the number of passes it ran. |
| Snapshot.RunSnapshot | mia_k_mean.c:163-186 | The `for` loop, with its snapshot copy, early break and refresh, computes `Run`. |
| Snapshot.MiaKMeans | mia_k_mean.c:144-186 | Centroids and snapshot both start as the first K points, EPSILON is 0.001, and the run is `Run` from there. |
| Snapshot.ModuleKMeans | kmeansmodule_mia.c:70-107 | The snapshot starts as a copy of the caller's centroids, EPSILON is the caller's, and the run is `Run` from there. |
| PyKMeans.PyIsNaturalMeaning | kmeans.py:5-6 | `is_natural` is false for num ≤ 0 and raises ZeroDivisionError for 0 < num < 1. For num ≥ 1 it holds exactly when num is whole. |
| PyKMeans.PyAssertInputMeaning | kmeans.py:20-33 | Accepted exactly when n is a whole number above 1, k a whole number in (1, n), d a whole number ≥ 1, and max_iter a whole number in (1, 1000). A d in (0, 1) raises. Every other input gets the message of the first failing check in the order n, k, d, max_iter. |
| PyKMeans.FindClosestCentroid | kmeans.py:46-55 | The result is `None` exactly for an empty dictionary, and otherwise is one of its keys. |
| PyKMeans.ClosestIsFirstNearest | kmeans.py:46-55 | The key returned is the first key, in insertion order, at minimal distance. |
| PyKMeans.ScanForClosest | kmeans.py:46-55 | The loop from `math.inf`, keeping a key only when strictly closer, returns that key. |
| PyKMeans.CalculateUpdatedCentroid | kmeans.py:58-65 | Raises ZeroDivisionError exactly for an empty list when d > 0. Otherwise it returns a d-tuple. |
| PyKMeans.UpdatedCentroidIsMean | kmeans.py:58-65 | For a non-empty list, each coordinate times the list length is that coordinate's sum, and lies within the members' range. |
| PyKMeans.FirstIndex | kmeans.py:74 | The position `list.remove` searches for holds the element, and no earlier position does. |
| PyKMeans.RemoveFirst | kmeans.py:74 | `list.remove` takes away exactly one occurrence of the element: the first one. Everything before it and everything after it stays in order. |
| PyKMeans.Detach | kmeans.py:73-74 | Removing the point from its previous centroid's list lowers that list's count of the point by one and changes no other list. |
| PyKMeans.Move | kmeans.py:72-76 | Moving a point keeps the keys and changes no list other than those of the previous and the new centroid. |
| PyKMeans.AssignPoint | kmeans.py:69-76 | One iteration changes only the point's mapping, to its closest centroid. A point already mapped to its closest centroid leaves the state untouched. |
| PyKMeans.MoveCount | kmeans.py:74-76 | After a move, the point occurs once more in the new list, once less in the old list, and every other count is unchanged. |
| PyKMeans.MoveKeepsConsistent | kmeans.py:72-76 | A move keeps the two dictionaries consistent. |
| PyKMeans.AssignPointKeepsConsistent | kmeans.py:69-76 | On a consistent state one iteration raises nothing and keeps the state consistent. Only the point's mapping changes, and only two lists can change. |
| PyKMeans.AssignAllFailureSticks | kmeans.py:69-76 | Once an iteration raises, the whole loop ends with that error. |
| PyKMeans.AssignAllKeepsConsistent | kmeans.py:68-76 | On a consistent state the loop raises nothing and keeps the state consistent. |
| PyKMeans.AssignAllMapsToClosest | kmeans.py:68-76 | After a fault-free loop every visited point maps to its closest centroid, and every other point keeps its mapping. |
| PyKMeans.AssignToClosestCentroidCorrect | kmeans.py:68-76 | On a consistent state, afterwards every point maps to its closest centroid and occurs exactly once in that centroid's list and in no other list. The keys are unchanged. |
| PyKMeans.AssignToClosestCentroid | kmeans.py:68-76 | The loop computes `AssignAll`, stopping at the first error. |
| PyKMeans.InsertionOrder | kmeans.py:82 | A dictionary's key order lists every inserted key once. |
| PyKMeans.InsertionOrderOfDistinct | kmeans.py:82 | For distinct keys, the key order is the order of insertion. |
| PyKMeans.InitialState | kmeans.py:82-83 | Building the initial dictionaries raises exactly when there are fewer than k points. |
| PyKMeans.InitialStateConsistent | kmeans.py:82-83 | Each of the first k points is a key whose list holds just itself and which maps to itself. Every other point maps to `None`. The dictionaries are consistent, and on distinct points the keys are the first k points in order. |
| PyKMeans.ClosestIsTag | kmeans.py:46-55 | Against the first k points, `find_closest_centroid` picks the centroid the reference tagging picks. |
| PyKMeans.FirstPassIsLloydTagging | kmeans.py:82-87 | On distinct points, the first assignment pass from the initial state puts point i exactly in the list of the centroid that Lloyd's tagging gives it. |

## Left out

- I/O and process plumbing: `main`, the argc handling, `init_vector_list`, `read_data_from_file`, `parse_input`, `print_centroids`, `free_memory` and the printed messages. The messages are modelled as the `Complaint` a validator reports. `free_memory` loops over d instead of N (kmeans.c:248); this is not modelled.
- The Python C-API glue of kmeansmodule_mia.c (`fit`, the module tables, the result-list building). It is foreign-runtime code, and as written it does not compile (missing semicolons at lines 10 and 159). `fit` also fills the centroid array from index 1 (kmeansmodule_mia.c:155), so `centroids[0]` is never allocated and `kmeans` reads through a wild pointer. `Snapshot.ModuleKMeans` takes fully initialised starting centroids `init` instead, so it does not model that defect.
- IEEE-754 behaviour: NaN, infinities, rounding. The `INFINITY` and `math.inf` start values are modelled as "the first candidate wins" in the scans and as `Delta.Unbounded` in the loop.
- KMeansC.CalculateMean: a division by a zero size, which in C yields NaN or an infinity and lets the loop go on, ends the model's run with the `DivisionByZero` fault.
- KMeansC.InitCentroids: `init_centroids` never writes `new_centroids` (kmeans.c:132, k_means.c:126, k_mean.c:125). The model takes its contents as a parameter. Every lemma about means and about Lloyd rounds assumes the accumulators start at zero (`Fresh`), and that assumption is not something the code guarantees.
- Params.Atoi: `atoi` overflow on long digit strings is not modelled.
- malloc failure paths (the "An Error Has Occurred" returns) are not modelled.
- `calculate_mean` and the assignment loop of k_mean.c: they read `new_centroids[i][k]` (k_mean.c:190), an out-of-range index, and call `calculate_updated_centroid` once per coordinate with d=u (k_mean.c:221-224). This is undefined behaviour. From k_mean.c only `distance`, `assert_input`, `init_centroids`, `find_closest_centroid_index`, `reset_new_centroids` and the loop bound are modelled.
- The `k_means` driver of kmeans.py is not modelled. Three problems:
  - its loop condition uses `or` (kmeans.py:86), so `max_iter` does not bound it;
  - it folds movements with `min` rather than max (kmeans.py:94);
  - two coinciding new centroids collide as dictionary keys (kmeans.py:91).
  Its initial state (kmeans.py:82-83) and its assignment step are modelled.
- PyKMeans.FindClosestCentroid: requires every key to have the point's length. On mismatched lengths `math.dist` raises ValueError, which is not modelled.
- PyKMeans.CalculateUpdatedCentroid: requires every member to have exactly d coordinates. Python would also accept longer tuples and read only their first d entries. On a member shorter than d it raises IndexError (kmeans.py:63), which is not modelled.
- PyKMeans.PyAssertInput: the arguments are reals. The string-to-float conversion in `parse_input` is not modelled.
- Snapshot.ModuleKMeans: requires K >= 1, but kmeansmodule_mia.c never checks K. With K = 0 and n > 0, `tag` stores its local `tag`, declared at kmeansmodule_mia.c:26, which was never assigned (kmeansmodule_mia.c:36), and the run reads indeterminate values. The model does not cover that case.
- Snapshot.RunSnapshot: `tag` allocates a fresh array each pass, and it is freed only on the refresh path (mia_k_mean.c:179). The leak is not modelled.

## Findings

| source | as written | input that shows it | evidently intended | confidence | as-written member | corrected member |
|---|---|---|---|---|---|---|
| kmeans.c:224 | Each pass seeds `delta_miu` with `distance(centroids[0], new_centroids[0], d)`. After any pass the accumulators are zero, so from the second pass on the seed is the distance of centroid 0 from the origin. A configuration that no longer moves and whose centroid 0 lies at least 0.001 from the origin keeps `delta_miu` at or above 0.001, so the loop runs all `max_iter` passes (`KMeansSeed.StableLoopRunsToLimit`). The same line is at k_means.c:213 and k_mean.c:213. | Points (0,0), (10,0), (0,1), (10,1), in that order, with k = 2 and max_iter ≥ 1. The program seeds (0,0) and (10,0), and its first pass moves them to the midpoints (0,0.5) and (10,0.5). No later pass moves anything, yet each reports a squared `delta_miu` of 0.25, since centroid 0 lies 0.5 from the origin. So all `max_iter` passes run. | `delta_miu` starts each pass at 0, so it is the largest centroid movement of the pass. A stable configuration then stops after one pass, and the example after two. | not executed | KMeansSeed.ExampleSeededRunNeverSettles | KMeansSeed.CorrectedStableLoopStops |
