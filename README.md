# GraphWays: all-pairs shortest paths, modelled in Dafny

GraphWays computes all-pairs shortest paths in a directed graph. The graph
is given as an n x n matrix of 32-bit edge weights. Negative weights and
negative-weight cycles are allowed. Its algorithm header, `algorythms.h`,
declares:

- two raw engines, each returning a distance matrix and a renewal
  (predecessor) matrix:
  - `shortestPathsByFloydWithoutNegativeLoopCheck` (Floyd-Warshall);
  - `shortestPathsByDantzigWithoutNegativeLoopCheck` (Dantzig's
    vertex-by-vertex scheme);
- `negativeLoopCheck`, a pass that marks with NegativeInfinity every cell
  (i, j) for which some vertex v has a negative diagonal entry and both
  D[i][v] and D[v][j] are finite. Because `relaxPath` adds through `sum`
  even across a missing edge, a finite cell need not be a route of the
  graph, so the pass can also mark cells no negative cycle reaches (see
  "Findings");
- the composed entry points `shortestPathsByFloyd` and
  `shortestPathsByDantzig`;
- the helpers `sum` (saturating addition), `relaxPath`, `copyOf` and
  `prepareRenewMatrix`.

The header declares these functions without bodies. The model follows the
doc comments and the textbook loop orders; what it fixes beyond the doc
comments is listed under "Left out".

Files, one module each:

- `saturating.dfy` (`Saturating`): the `int32` type, `sum`, and the
  arithmetic facts the closure proofs need.
- `matrices.dfy` (`Matrices`):
  - the matrices as values;
  - the markers `NoEdge` (largest int32) and `NoPredecessor` (-1);
  - `copyOf` and `prepareRenewMatrix` as methods on `array2`.
- `relaxation.dfy` (`Relaxation`):
  - `relaxPath`, as a function on values (`Relax`) and as an in-place
    method (`RelaxPath`);
  - what any sequence of relaxations does (`Run`);
  - one full pass through a vertex.
- `floyd.dfy` (`Floyd`):
  - the Floyd engine as an in-place method;
  - its specification function;
  - its correctness theorems.
- `dantzig.dfy` (`Dantzig`): the same for the Dantzig engine.
- `negative_loop.dfy` (`NegativeLoop`): `negativeLoopCheck` as an in-place
  method, its specification and its theorems.
- `shortest_paths.dfy` (`ShortestPaths`):
  - the two composed entry points;
  - the proof that both engines compute the same distances whenever there
    is no negative-weight cycle.
- `missing_legs.dfy` (`MissingLegs`):
  - two-vertex graphs on which the composed entry points mark a cell that
    no negative cycle reaches;
  - a relaxation that skips a route with a NoEdge leg, run on the schedules
    of both engines, and what it guarantees.

How the engines are specified:

- Every engine method is proved to leave its arrays equal to a pure
  function of the input (`Floyd`, `Dantzig`, `Corrected`).
- Those functions are proved to have the properties the header promises.
- "No negative-weight cycle" means the engine's result has no negative
  diagonal entry. That is the criterion `negativeLoopCheck` uses.
- "Shortest" is stated as follows. The result always lies below the input.
  When it has no negative diagonal entry, it also obeys the triangle
  inequality under saturating addition. Every matrix that obeys the
  triangle inequality and lies below the input lies below the result, so
  in the cycle-free case the result is the greatest matrix with both
  properties.

## Model

| member | source | states |
|---|---|---|
| Saturating.Sum | algorythms.h:90-104 | The exact sum when it fits in 32 bits; the largest int32 when the sum is above it; the smallest int32 when it is below. |
| Saturating.SumNearest | algorythms.h:90-104 | No int32 lies closer to the mathematical sum than the saturated sum. |
| Saturating.SumMonotone | algorythms.h:90-104 | Saturated addition is monotone in both operands. |
| Matrices.CopyOf | algorythms.h:106-115 | Returns a fresh size x size matrix with exactly the entries of the original. |
| Matrices.PrepareRenewMatrix | algorythms.h:135-146 | Returns a fresh size x size renewal matrix with every cell NoPredecessor. |
| Relaxation.Relax | algorythms.h:117-133 | The target cell becomes the smaller of itself and the saturated route through `through`. The renewal cell records `through` exactly when that route is strictly shorter. No other cell of either matrix changes. |
| Relaxation.RelaxPath | algorythms.h:117-133 | The in-place step leaves the two arrays holding the relaxed tables. |
| Relaxation.RunBelow | algorythms.h:117-133 | Any sequence of relaxations never raises a distance. |
| Relaxation.RunAbove | algorythms.h:117-133 | Relaxations never go below a matrix that obeys the triangle inequality and lies below the starting distances. |
| Relaxation.RunUntouched | algorythms.h:117-133 | A cell that no step targets keeps its distance and its renewal entry. |
| Relaxation.RunRenewSound | algorythms.h:117-146 | After any relaxations from the initial tables, a NoPredecessor cell holds the input weight. Any other renewal cell names a vertex k whose route is no longer than the recorded distance, and that distance is strictly below the input weight. |
| Relaxation.RelaxedThrough | algorythms.h:41-55 | A full pass through k acts as if every cell were updated at once from the old values, provided D[k][k] is not negative or the pass stays away from k. |
| Relaxation.PassBelow | algorythms.h:41-55 | A pass through one vertex never raises a distance. |
| Relaxation.RelaxRow | algorythms.h:41-55 | Relaxing one row through k leaves the arrays holding the row-by-row specification. |
| Relaxation.RelaxPass | algorythms.h:41-55 | Relaxing every pair through k leaves the arrays holding the pass specification. |
| Floyd.ShortestPathsByFloydWithoutNegativeLoopCheck | algorythms.h:41-55 | Returns fresh n x n distance and renewal matrices equal to the Floyd specification of the input. The input matrix is not modified. |
| Floyd.PassesDecrease | algorythms.h:41-55 | Each later pass only lowers distances. |
| Floyd.FloydBelowInput | algorythms.h:41-55 | Every result distance is at most the input edge weight. |
| Floyd.FloydClosed | algorythms.h:41-55 | Without a negative cycle, D[i][j] <= sum(D[i][k], D[k][j]) holds for all i, j, k. |
| Floyd.FloydGreatest | algorythms.h:41-55 | Every matrix that obeys the triangle inequality and lies below the input lies below the result. Together with Floyd.FloydClosed and Floyd.FloydBelowInput, a result without a negative diagonal entry is the greatest such matrix. |
| Floyd.FloydRenewal | algorythms.h:41-55 | Without a negative cycle, a NoPredecessor cell holds the input weight. Otherwise the cell names a vertex k with D[i][j] == sum(D[i][k], D[k][j]) below the input weight. |
| Dantzig.RelaxBorderRow | algorythms.h:57-71 | One border row of a stage leaves the arrays holding its specification. |
| Dantzig.RelaxBorder | algorythms.h:57-71 | The border of stage m (routes i -> m and m -> i through settled vertices) leaves the arrays holding its specification. |
| Dantzig.RelaxCorner | algorythms.h:57-71 | The cycles m -> k -> m leave the arrays holding their specification. |
| Dantzig.ShortestPathsByDantzigWithoutNegativeLoopCheck | algorythms.h:57-71 | Returns fresh n x n distance and renewal matrices equal to the Dantzig specification of the input. The input matrix is not modified. |
| Dantzig.BorderThrough | algorythms.h:57-71 | After the border of stage m, column m and row m obey the triangle inequality through every settled vertex, and the settled corner is unchanged. |
| Dantzig.StageCloses | algorythms.h:57-71 | A stage extends the triangle inequality from vertices 0 .. m - 1 to vertices 0 .. m, unless a negative cycle appears among them. |
| Dantzig.StagesDecrease | algorythms.h:57-71 | Each later stage only lowers distances. |
| Dantzig.DantzigBelowInput | algorythms.h:57-71 | Every result distance is at most the input edge weight. |
| Dantzig.DantzigClosed | algorythms.h:57-71 | Without a negative cycle, the result obeys the triangle inequality for all i, j, k. |
| Dantzig.DantzigGreatest | algorythms.h:57-71 | Every matrix that obeys the triangle inequality and lies below the input lies below the result. Together with Dantzig.DantzigClosed and Dantzig.DantzigBelowInput, a result without a negative diagonal entry is the greatest such matrix. |
| Dantzig.DantzigRenewal | algorythms.h:57-71 | Without a negative cycle, the renewal matrix reads as described for Floyd. |
| NegativeLoop.NegativeLoopCheck | algorythms.h:73-88 | Rewrites the matrix in place into its corrected form, vertex by vertex, testing each cell against the current contents. |
| NegativeLoop.CorrectedIdentity | algorythms.h:79 | A matrix with no negative diagonal entry comes back unchanged. |
| NegativeLoop.CorrectedOnlyMarks | algorythms.h:73-88 | Every cell of the result is the input cell or NegativeInfinity, so no finite distance is invented. |
| NegativeLoop.CorrectedMarksSpoiled | algorythms.h:73-88 | If v has a negative diagonal entry, D[i][v] is finite and D[v][j] is finite in the input, then (i, j) becomes NegativeInfinity. |
| NegativeLoop.CorrectedMarksOnlySpoiled | algorythms.h:73-88 | A changed cell (i, j) is NegativeInfinity, and in the input graph (edges are the entries other than NoEdge) i reaches a vertex u with a negative diagonal entry that reaches j. |
| NegativeLoop.CorrectedKeepsRowOfSink | algorythms.h:73-88 | A vertex with a non-negative diagonal entry and no edge to any other vertex keeps its whole row. |
| NegativeLoop.CorrectedKeepsColumnOfSource | algorythms.h:73-88 | A vertex with a non-negative diagonal entry and no edge from any other vertex keeps its whole column. |
| ShortestPaths.ShortestPathsByFloyd | algorythms.h:9-23 | Returns the Floyd result with its distances passed through the negative-cycle check; the renewal matrix is the engine's. |
| ShortestPaths.ShortestPathsByDantzig | algorythms.h:25-39 | The same for the Dantzig engine. |
| ShortestPaths.DantzigAboveFloyd | algorythms.h:41-71 | Without a negative cycle in the Floyd result, every Dantzig distance is at least the Floyd distance. |
| ShortestPaths.FloydAboveDantzig | algorythms.h:41-71 | Without a negative cycle in the Dantzig result, every Floyd distance is at least the Dantzig distance. |
| ShortestPaths.SameNegativeCycles | algorythms.h:41-71 | Floyd's result has a non-negative diagonal if and only if Dantzig's does. |
| ShortestPaths.EnginesAgree | algorythms.h:41-71 | Without a negative cycle, both raw engines return the same distance matrix. |
| ShortestPaths.CycleFreeResults | algorythms.h:9-39 | Without a negative cycle, the two composed entry points return the raw Floyd distances unchanged. |
| MissingLegs.FloydOnLoopAndIsolated | algorythms.h:41-55 | On the graph with a loop of weight -1 at vertex 0 and an isolated vertex 1, the Floyd result has a negative entry at (0, 0) and finite entries at (0, 1) and (1, 0), where the input has NoEdge. |
| MissingLegs.DantzigOnLoopAndIsolated | algorythms.h:57-71 | The same for the Dantzig result on the same graph. |
| MissingLegs.AsWrittenMarksIsolatedVertex | algorythms.h:9-39 | On that graph both composed entry points set (1, 1) to NegativeInfinity, although vertex 1 has no edge and (1, 1) routes through no negative loop of the input. |
| MissingLegs.TwoCycleMarkedWithoutNegativeLoop | algorythms.h:73-88 | On two vertices joined both ways with weight -1, the composed Floyd entry point marks (0, 0) although no input diagonal entry is negative. |
| MissingLegs.SkippingBelow | algorythms.h:117-133 | The skipping relaxation never raises a distance. |
| MissingLegs.SkippingAbove | algorythms.h:117-133 | The skipping relaxation never goes below a matrix that obeys the triangle inequality and lies below the starting distances. |
| MissingLegs.SkippingFindsOnlyRoutes | algorythms.h:117-133 | With the skipping relaxation, every finite distance after any steps from the input is a route (a walk along non-NoEdge entries) of the input graph. |
| MissingLegs.SkippingMarksOnlyRoutesThroughNegativeCycles | algorythms.h:9-39 | With the skipping relaxation followed by negativeLoopCheck, a changed cell (i, j) is NegativeInfinity, and in the input graph i reaches a vertex u with a negative computed diagonal entry that reaches j. |
| MissingLegs.SkippingKeepsRowOfSink | algorythms.h:117-133 | A vertex with a non-negative loop and no edge to another vertex keeps its input row through any skipping steps. |
| MissingLegs.SkippingKeepsColumnOfSource | algorythms.h:117-133 | A vertex with a non-negative loop and no edge from another vertex keeps its input column through any skipping steps. |
| MissingLegs.SkippingSparesSink | algorythms.h:9-39 | After the skipping relaxation and negativeLoopCheck, such a sink still has exactly its input row. |
| MissingLegs.SkippingSparesSource | algorythms.h:9-39 | After the skipping relaxation and negativeLoopCheck, such a source still has exactly its input column. |
| MissingLegs.SkippingSparesIsolatedVertex | algorythms.h:9-39 | On the loop-and-isolated-vertex graph, both engines' schedules with the skipping relaxation leave (1, 1) at 0 after negativeLoopCheck. |

## Left out

- Memory management of `int **` matrices is not modelled. The matrices are `array2` values, so allocating, freeing and handing back ownership through reference parameters have no counterpart.
- A negative `n` cannot be expressed, because sizes are `nat`. An empty graph (`n == 0`) is allowed and gives empty matrices.
- The header has no function bodies. The model follows the doc comments and fixes five things the header leaves open:
  - Floyd's loop order: k outermost, then i, then j.
  - The order of Dantzig's stages: border, then corner, then inner pass.
  - The rule of `negativeLoopCheck` and its marker: NegativeInfinity is the smallest int32.
  - How `relaxPath` adds: through `sum`, with no test for NoEdge. NoEdge is simply the largest int32, so a NoEdge leg counts as a weight of MaxInt32, and a negative weight next to it gives a large finite distance. "Findings" shows what that does.
  - The contents of the renewal matrix. `prepareRenewMatrix` fills every cell with NoPredecessor = -1, and `relaxPath` writes `through` into P[from][to] exactly when it lowers D[from][to]. The doc comments of `relaxPath` and `prepareRenewMatrix` state neither.
- Idempotence of `negativeLoopCheck` is not proved. On a matrix that does not obey the triangle inequality, a second run can mark more cells. Example with n = 3: D[0][0] = D[2][2] = 0 and D[1][1] < 0; D[0][1], D[1][0] and D[2][0] finite; D[2][1] and D[1][2] NoEdge. The second run marks (2, 1).
- Termination of path reconstruction from the renewal matrix is not proved.
- Relaxation.Relax: for a step naming a vertex outside 0 .. n - 1 it changes nothing. In the C code that would be an out-of-bounds access. The engines never issue such a step.
- Relaxation.RunRenewSound: states that the route through the recorded vertex is no longer than the distance, not that it is equal. Equality is proved for the finished, cycle-free results (`Floyd.FloydRenewal`, `Dantzig.DantzigRenewal`).
- Renewal matrix cells are unbounded `int`s rather than 32-bit values. They only ever hold -1 or a vertex index below n.
- ShortestPaths.ShortestPathsByFloyd: does not promise that only cells reachable through a negative cycle are marked, because with `relaxPath` as modelled that is false (`MissingLegs.AsWrittenMarksIsolatedVertex`). The promise is proved for the skipping relaxation in `MissingLegs`.
- ShortestPaths.ShortestPathsByDantzig: the same.
- MissingLegs.SkippingMarksOnlyRoutesThroughNegativeCycles: the vertex u it names has a negative diagonal entry in the computed result, not necessarily in the input. A negative cycle through several vertices has no negative loop in the input (`MissingLegs.TwoCycleMarkedWithoutNegativeLoop`).
- The skipping relaxation is modelled on values only: there is no in-place method for it, and the engines' methods keep `relaxPath` as modelled. The triangle inequality, the agreement of the engines and the renewal theorems are proved only for `relaxPath` as modelled. With a missing leg counted as no route, a finite route whose saturated sum reaches MaxInt32 becomes NoEdge, and the triangle inequality can fail without any negative cycle. Example with n = 4: D[1][0] = 1, D[0][3] = MaxInt32 - 1, D[2][1] = -5, every other off-diagonal entry NoEdge, zero diagonal. The skipping Floyd schedule leaves D[2][3] at NoEdge while D[2][0] + D[0][3] = MaxInt32 - 5.
- Results with a negative-weight cycle: only the marks made by `negativeLoopCheck` are specified. No claim is made about what the other cells mean.
- The `@brief` tag on line 58 names the Floyd function. The prototype on line 70 and the description are Dantzig's, and the model follows them.

## Findings

| source | as written | input that shows it | evidently intended | confidence | as-written member | corrected member |
|---|---|---|---|---|---|---|
| algorythms.h:117-133 | `relaxPath` compares `sum(D[from][through], D[through][to])` with D[from][to] even when a leg is NoEdge, the largest int32, so NoEdge plus a negative weight is a finite distance that `negativeLoopCheck` then treats as a route | D0 = [[-1, NoEdge], [NoEdge, 0]]: both `shortestPathsByFloyd` and `shortestPathsByDantzig` set D[1][1] to NegativeInfinity although vertex 1 has no edge | a route with a missing leg is no route, so only cells that route through a negative cycle are marked and an isolated vertex keeps its row and column | high; not executed | MissingLegs.AsWrittenMarksIsolatedVertex | MissingLegs.SkippingMarksOnlyRoutesThroughNegativeCycles |
