// relaxPath compares `sum(D[from][through], D[through][to])` with
// D[from][to] even when one leg is NoEdge. Since NoEdge is the largest
// int32, a negative weight next to a missing edge gives a large but finite
// sum, so a route that does not exist is recorded, and negativeLoopCheck
// then marks cells no negative cycle can reach. This module exhibits that
// on two-vertex graphs and proves what a relaxation that skips a route with
// a missing leg guarantees instead.

module MissingLegs {
  import opened Saturating
  import opened Matrices
  import opened Relaxation
  import Floyd
  import Dantzig
  import opened NegativeLoop

  // ---------------------------------------------------------------------
  // The engines as the header describes them

  /** Vertex 0 loops with weight -1; vertex 1 has no edge at all. */
  const LoopAndIsolated: Matrix := [[-1, NoEdge], [NoEdge, 0]]

  /** Two vertices joined both ways by edges of weight -1; no loop is negative. */
  const TwoCycle: Matrix := [[0, -1], [-1, 0]]

  /** Floyd's schedule on two vertices: the pass through 0, then the pass through 1. */
  lemma FloydStepsOnTwo()
    ensures Floyd.FloydSteps(2, 2) == [Step(0, 0, 0), Step(0, 0, 1), Step(1, 0, 0), Step(1, 0, 1)]
                                      + [Step(0, 1, 0), Step(0, 1, 1), Step(1, 1, 0), Step(1, 1, 1)]
  {
    assert RowSteps(0, 0, 2) == [Step(0, 0, 0), Step(0, 0, 1)];
    assert RowSteps(1, 0, 2) == [Step(1, 0, 0), Step(1, 0, 1)];
    assert RowSteps(0, 1, 2) == [Step(0, 1, 0), Step(0, 1, 1)];
    assert RowSteps(1, 1, 2) == [Step(1, 1, 0), Step(1, 1, 1)];
  }

  lemma RunOfTwo(T: Tables, a: Step, b: Step, n: nat)
    ensures Run(T, [a, b], n) == Relax(Relax(T, a, n), b, n)
  {
    RunSnoc(T, [], a, n);
    RunSnoc(T, [a], b, n);
    assert [] + [a] == [a] && [a] + [b] == [a, b];
  }

  lemma RunOfFour(T: Tables, a: Step, b: Step, c: Step, d: Step, n: nat)
    ensures Run(T, [a, b, c, d], n) == Relax(Relax(Run(T, [a, b], n), c, n), d, n)
  {
    RunSnoc(T, [a, b], c, n);
    RunSnoc(T, [a, b, c], d, n);
    assert [a, b] + [c] == [a, b, c] && [a, b, c] + [d] == [a, b, c, d];
  }

  /** The pass through 0 doubles the loop and adds it to both missing edges. */
  lemma FloydFirstPassOnLoopAndIsolated()
    ensures var U := Run(Initial(LoopAndIsolated, 2), [Step(0, 0, 0), Step(0, 0, 1), Step(1, 0, 0), Step(1, 0, 1)], 2);
            U.dist[0][0] == -2 && U.dist[0][1] == NoEdge - 2 && U.dist[1][0] == NoEdge - 2
  {
    var T := Initial(LoopAndIsolated, 2);
    var T1 := Relax(T, Step(0, 0, 0), 2);
    assert T1.dist[0][0] == -2 && T1.dist[0][1] == NoEdge && T1.dist[1][0] == NoEdge && T1.dist[1][1] == 0;
    var T2 := Relax(T1, Step(0, 0, 1), 2);
    assert T2.dist[0][0] == -2 && T2.dist[0][1] == NoEdge - 2 && T2.dist[1][0] == NoEdge && T2.dist[1][1] == 0;
    var T3 := Relax(T2, Step(1, 0, 0), 2);
    assert T3.dist[0][0] == -2 && T3.dist[0][1] == NoEdge - 2 && T3.dist[1][0] == NoEdge - 2;
    RunOfTwo(T, Step(0, 0, 0), Step(0, 0, 1), 2);
    RunOfFour(T, Step(0, 0, 0), Step(0, 0, 1), Step(1, 0, 0), Step(1, 0, 1), 2);
  }

  /** After both Floyd passes the loop at 0 is negative and both missing edges are finite. */
  lemma FloydOnLoopAndIsolated()
    ensures var F := Floyd.Floyd(LoopAndIsolated, 2).dist;
            F[0][0] < 0 && F[1][0] != NoEdge && F[0][1] != NoEdge
  {
    var first := [Step(0, 0, 0), Step(0, 0, 1), Step(1, 0, 0), Step(1, 0, 1)];
    var second := [Step(0, 1, 0), Step(0, 1, 1), Step(1, 1, 0), Step(1, 1, 1)];
    var T := Initial(LoopAndIsolated, 2);
    FloydStepsOnTwo();
    FloydFirstPassOnLoopAndIsolated();
    Floyd.FloydAfterIsRun(LoopAndIsolated, 2, 2);
    RunAppend(T, first, second, 2);
    RunBelow(Run(T, first, 2), second, 2);
  }

  /** The border of Dantzig's stage 1 routes both missing edges through the loop at 0. */
  lemma DantzigOnLoopAndIsolated()
    ensures var Z := Dantzig.Dantzig(LoopAndIsolated, 2).dist;
            Z[0][0] < 0 && Z[1][0] != NoEdge && Z[0][1] != NoEdge
  {
    var D0 := LoopAndIsolated;
    var border := [Step(0, 0, 1), Step(1, 0, 0)];
    var rest := [Step(1, 0, 1), Step(0, 1, 0)];
    var T := Initial(D0, 2);
    var U := Relax(Relax(T, border[0], 2), border[1], 2);
    assert U.dist[0][1] == NoEdge - 1 && U.dist[1][0] == NoEdge - 1 && U.dist[0][0] == -1;
    RunOfTwo(T, border[0], border[1], 2);
    assert Dantzig.DantzigSteps(2) == border + rest by {
      assert Dantzig.DantzigSteps(1) == [];
      assert Dantzig.BorderSteps(1, 1) == border;
      assert Dantzig.CornerSteps(1, 1) == [Step(1, 0, 1)];
      assert PassSteps(1, 1, 1) == [Step(0, 1, 0)];
    }
    Dantzig.DantzigAfterIsRun(D0, 2, 2);
    RunAppend(T, border, rest, 2);
    RunBelow(U, rest, 2);
  }

  /** In the input, every walk from 1 stays at 1, whose loop is not negative. */
  lemma IsolatedNotTainted()
    ensures !Tainted(LoopAndIsolated, 1, 1, 2)
  {
    var D0 := LoopAndIsolated;
    if Tainted(D0, 1, 1, 2) {
      var u :| 0 <= u < 2 && D0[u][u] < 0 && Reaches(D0, 1, u, 2) && Reaches(D0, u, 1, 2);
      var p :| IsWalk(D0, p, 2) && p[0] == 1 && p[|p| - 1] == u;
      WalkStaysFrom(D0, p, 1, 2);
      assert false;
    }
  }

  /**
    * Both composed entry points mark the diagonal cell of the isolated
    * vertex 1 as NegativeInfinity, although in the input graph vertex 1
    * reaches no vertex but itself and its own loop weighs 0.
    */
  lemma AsWrittenMarksIsolatedVertex()
    ensures LoopAndIsolated[1][0] == NoEdge && LoopAndIsolated[0][1] == NoEdge && LoopAndIsolated[1][1] == 0
    ensures !Tainted(LoopAndIsolated, 1, 1, 2)
    ensures Corrected(Floyd.Floyd(LoopAndIsolated, 2).dist, 2)[1][1] == NegativeInfinity
    ensures Corrected(Dantzig.Dantzig(LoopAndIsolated, 2).dist, 2)[1][1] == NegativeInfinity
  {
    FloydOnLoopAndIsolated();
    DantzigOnLoopAndIsolated();
    IsolatedNotTainted();
    CorrectedMarksSpoiled(Floyd.Floyd(LoopAndIsolated, 2).dist, 0, 1, 1, 2);
    CorrectedMarksSpoiled(Dantzig.Dantzig(LoopAndIsolated, 2).dist, 0, 1, 1, 2);
  }

  /** The pass through 0 closes the cycle 1 -> 0 -> 1 with weight -2. */
  lemma FloydFirstPassOnTwoCycle()
    ensures var U := Run(Initial(TwoCycle, 2), [Step(0, 0, 0), Step(0, 0, 1), Step(1, 0, 0), Step(1, 0, 1)], 2);
            U.dist[1][1] == -2 && U.dist[0][1] == -1 && U.dist[1][0] == -1
  {
    var T := Initial(TwoCycle, 2);
    var T2 := Relax(Relax(T, Step(0, 0, 0), 2), Step(0, 0, 1), 2);
    assert T2.dist == TwoCycle;
    var T3 := Relax(T2, Step(1, 0, 0), 2);
    assert T3.dist == TwoCycle;
    RunOfTwo(T, Step(0, 0, 0), Step(0, 0, 1), 2);
    RunOfFour(T, Step(0, 0, 0), Step(0, 0, 1), Step(1, 0, 0), Step(1, 0, 1), 2);
  }

  /** After both Floyd passes the loop at 1 is negative and both edges are finite. */
  lemma FloydOnTwoCycle()
    ensures var F := Floyd.Floyd(TwoCycle, 2).dist;
            F[1][1] < 0 && F[0][1] != NoEdge && F[1][0] != NoEdge
  {
    var first := [Step(0, 0, 0), Step(0, 0, 1), Step(1, 0, 0), Step(1, 0, 1)];
    var second := [Step(0, 1, 0), Step(0, 1, 1), Step(1, 1, 0), Step(1, 1, 1)];
    var T := Initial(TwoCycle, 2);
    FloydFirstPassOnTwoCycle();
    FloydStepsOnTwo();
    Floyd.FloydAfterIsRun(TwoCycle, 2, 2);
    RunAppend(T, first, second, 2);
    RunBelow(Run(T, first, 2), second, 2);
  }

  /**
    * On the two-vertex cycle of weight -2 the Floyd result marks (0, 0), as
    * the cycle demands, although no input diagonal entry is negative: a
    * marked cell need not route through a negative loop of the input itself.
    */
  lemma TwoCycleMarkedWithoutNegativeLoop()
    ensures NonNegativeDiagonal(TwoCycle, 2) && !Tainted(TwoCycle, 0, 0, 2)
    ensures Corrected(Floyd.Floyd(TwoCycle, 2).dist, 2)[0][0] == NegativeInfinity
  {
    FloydOnTwoCycle();
    CorrectedMarksSpoiled(Floyd.Floyd(TwoCycle, 2).dist, 1, 0, 0, 2);
  }

  // ---------------------------------------------------------------------
  // A relaxation that skips a route with a missing leg

  /** relaxPath, except that a route with a NoEdge leg is no route at all. */
  function RelaxSkipping(T: Tables, s: Step, n: nat): (r: Tables)
    ensures Shaped(T, n) ==> Shaped(r, n)
  {
    if Shaped(T, n) && Fits(s, n) && (T.dist[s.from][s.through] == NoEdge || T.dist[s.through][s.to] == NoEdge)
    then T
    else Relax(T, s, n)
  }

  /** The tables after the given steps of the skipping relaxation, in order. */
  function RunSkipping(T: Tables, steps: seq<Step>, n: nat): (r: Tables)
    ensures Shaped(T, n) ==> Shaped(r, n)
    decreases |steps|
  {
    if steps == [] then T
    else
      var last := |steps| - 1;
      RelaxSkipping(RunSkipping(T, steps[..last], n), steps[last], n)
  }

  /** Floyd's schedule with the skipping relaxation. */
  function FloydSkipping(D0: Matrix, n: nat): (T: Tables)
    ensures IsSquare(D0, n) ==> Shaped(T, n)
  {
    RunSkipping(Initial(D0, n), Floyd.FloydSteps(n, n), n)
  }

  /** Dantzig's schedule with the skipping relaxation. */
  function DantzigSkipping(D0: Matrix, n: nat): (T: Tables)
    ensures IsSquare(D0, n) ==> Shaped(T, n)
  {
    RunSkipping(Initial(D0, n), Dantzig.DantzigSteps(n), n)
  }

  /** The skipping relaxation never raises a distance. */
  lemma {:induction false} SkippingBelow(T: Tables, steps: seq<Step>, n: nat)
    requires Shaped(T, n)
    ensures Below(RunSkipping(T, steps, n).dist, T.dist, n)
    decreases |steps|
  {
    if steps != [] {
      SkippingBelow(T, steps[..|steps| - 1], n);
    }
  }

  /**
    * Nor does it go below a matrix X that obeys the triangle inequality and
    * lies below the starting distances: skipping a route never loses one
    * that X could beat.
    */
  lemma {:induction false} SkippingAbove(X: Matrix, T: Tables, steps: seq<Step>, n: nat)
    requires Shaped(T, n) && IsSquare(X, n)
    requires TriangleClosed(X, n) && Below(X, T.dist, n)
    ensures Below(X, RunSkipping(T, steps, n).dist, n)
    decreases |steps|
  {
    if steps != [] {
      var last := |steps| - 1;
      var s := steps[last];
      var U := RunSkipping(T, steps[..last], n);
      SkippingAbove(X, T, steps[..last], n);
      if Fits(s, n) {
        SumMonotone(X[s.from][s.through], X[s.through][s.to], U.dist[s.from][s.through], U.dist[s.through][s.to]);
      }
    }
  }

  /** Every finite cell of M is a route of the input graph D0. */
  ghost predicate RoutesOf(D0: Matrix, M: Matrix, n: nat)
    requires IsSquare(D0, n) && IsSquare(M, n)
  {
    forall x, y :: 0 <= x < n && 0 <= y < n && M[x][y] != NoEdge ==> Reaches(D0, x, y, n)
  }

  /** With the skipping relaxation, a finite distance always stands for a route of the input graph. */
  lemma {:induction false} SkippingFindsOnlyRoutes(D0: Matrix, steps: seq<Step>, n: nat)
    requires IsSquare(D0, n)
    ensures RoutesOf(D0, RunSkipping(Initial(D0, n), steps, n).dist, n)
    decreases |steps|
  {
    if steps == [] {
      forall x, y | 0 <= x < n && 0 <= y < n && D0[x][y] != NoEdge
        ensures Reaches(D0, x, y, n)
      {
        ReachesEdge(D0, x, y, n);
      }
    } else {
      var last := |steps| - 1;
      var s := steps[last];
      var U := RunSkipping(Initial(D0, n), steps[..last], n);
      var r := RelaxSkipping(U, s, n);
      SkippingFindsOnlyRoutes(D0, steps[..last], n);
      forall x, y | 0 <= x < n && 0 <= y < n && r.dist[x][y] != NoEdge
        ensures Reaches(D0, x, y, n)
      {
        if r.dist[x][y] != U.dist[x][y] {
          assert Fits(s, n) && x == s.from && y == s.to;
          ReachesJoin(D0, x, s.through, y, n);
        }
      }
    }
  }

  /** A walk along finite cells of M is a route of D0 when every finite cell of M is. */
  lemma {:induction false} WalkIsRoute(D0: Matrix, M: Matrix, p: seq<nat>, n: nat)
    requires IsSquare(D0, n) && IsSquare(M, n) && RoutesOf(D0, M, n) && IsWalk(M, p, n)
    ensures Reaches(D0, p[0], p[|p| - 1], n)
    decreases |p|
  {
    if |p| == 1 {
      assert IsWalk(D0, p, n);
    } else {
      var q := p[..|p| - 1];
      assert IsWalk(M, q, n);
      WalkIsRoute(D0, M, q, n);
      assert M[p[|p| - 2]][p[|p| - 1]] != NoEdge;
      ReachesJoin(D0, p[0], p[|p| - 2], p[|p| - 1], n);
    }
  }

  /**
    * With the skipping relaxation, negativeLoopCheck marks only cells (i, j)
    * such that, in the input graph, i reaches a vertex u whose computed
    * diagonal entry is negative and u reaches j.
    */
  lemma SkippingMarksOnlyRoutesThroughNegativeCycles(D0: Matrix, steps: seq<Step>, i: nat, j: nat, n: nat)
    requires IsSquare(D0, n) && i < n && j < n
    requires Corrected(RunSkipping(Initial(D0, n), steps, n).dist, n)[i][j] != RunSkipping(Initial(D0, n), steps, n).dist[i][j]
    ensures Corrected(RunSkipping(Initial(D0, n), steps, n).dist, n)[i][j] == NegativeInfinity
    ensures exists u :: 0 <= u < n && RunSkipping(Initial(D0, n), steps, n).dist[u][u] < 0 &&
                        Reaches(D0, i, u, n) && Reaches(D0, u, j, n)
  {
    var F := RunSkipping(Initial(D0, n), steps, n).dist;
    CorrectedMarksOnlySpoiled(F, i, j, n);
    SkippingFindsOnlyRoutes(D0, steps, n);
    var u :| 0 <= u < n && F[u][u] < 0 && Reaches(F, i, u, n) && Reaches(F, u, j, n);
    var p :| IsWalk(F, p, n) && p[0] == i && p[|p| - 1] == u;
    var q :| IsWalk(F, q, n) && q[0] == u && q[|q| - 1] == j;
    WalkIsRoute(D0, F, p, n);
    WalkIsRoute(D0, F, q, n);
  }

  /** A vertex without a negative loop and without edges to other vertices keeps its row through the skipping relaxation. */
  lemma {:induction false} SkippingKeepsRowOfSink(D0: Matrix, steps: seq<Step>, i: nat, n: nat)
    requires IsSquare(D0, n) && i < n && 0 <= D0[i][i]
    requires forall x :: 0 <= x < n && x != i ==> D0[i][x] == NoEdge
    ensures forall x :: 0 <= x < n ==> RunSkipping(Initial(D0, n), steps, n).dist[i][x] == D0[i][x]
    decreases |steps|
  {
    if steps != [] {
      var last := |steps| - 1;
      var s := steps[last];
      var U := RunSkipping(Initial(D0, n), steps[..last], n);
      SkippingKeepsRowOfSink(D0, steps[..last], i, n);
      if Fits(s, n) && s.from == i && s.through == i && s.to == i {
        SumNonNegative(U.dist[i][i], U.dist[i][i]);
      }
    }
  }

  /** The mirror image: a vertex without edges from other vertices keeps its column. */
  lemma {:induction false} SkippingKeepsColumnOfSource(D0: Matrix, steps: seq<Step>, i: nat, n: nat)
    requires IsSquare(D0, n) && i < n && 0 <= D0[i][i]
    requires forall x :: 0 <= x < n && x != i ==> D0[x][i] == NoEdge
    ensures forall x :: 0 <= x < n ==> RunSkipping(Initial(D0, n), steps, n).dist[x][i] == D0[x][i]
    decreases |steps|
  {
    if steps != [] {
      var last := |steps| - 1;
      var s := steps[last];
      var U := RunSkipping(Initial(D0, n), steps[..last], n);
      SkippingKeepsColumnOfSource(D0, steps[..last], i, n);
      if Fits(s, n) && s.from == i && s.through == i && s.to == i {
        SumNonNegative(U.dist[i][i], U.dist[i][i]);
      }
    }
  }

  /**
    * Composed with negativeLoopCheck, the skipping relaxation leaves the row
    * of a sink of the input graph exactly as the input has it.
    */
  lemma SkippingSparesSink(D0: Matrix, steps: seq<Step>, i: nat, n: nat)
    requires IsSquare(D0, n) && i < n && 0 <= D0[i][i]
    requires forall x :: 0 <= x < n && x != i ==> D0[i][x] == NoEdge
    ensures forall x :: 0 <= x < n ==> Corrected(RunSkipping(Initial(D0, n), steps, n).dist, n)[i][x] == D0[i][x]
  {
    var F := RunSkipping(Initial(D0, n), steps, n).dist;
    SkippingKeepsRowOfSink(D0, steps, i, n);
    CorrectedKeepsRowOfSink(F, i, n);
  }

  /** The mirror image for the column of a source of the input graph. */
  lemma SkippingSparesSource(D0: Matrix, steps: seq<Step>, i: nat, n: nat)
    requires IsSquare(D0, n) && i < n && 0 <= D0[i][i]
    requires forall x :: 0 <= x < n && x != i ==> D0[x][i] == NoEdge
    ensures forall x :: 0 <= x < n ==> Corrected(RunSkipping(Initial(D0, n), steps, n).dist, n)[x][i] == D0[x][i]
  {
    var F := RunSkipping(Initial(D0, n), steps, n).dist;
    SkippingKeepsColumnOfSource(D0, steps, i, n);
    CorrectedKeepsColumnOfSource(F, i, n);
  }

  /** On the example above, both corrected engines leave the isolated vertex 1 alone. */
  lemma SkippingSparesIsolatedVertex()
    ensures Corrected(FloydSkipping(LoopAndIsolated, 2).dist, 2)[1][1] == 0
    ensures Corrected(DantzigSkipping(LoopAndIsolated, 2).dist, 2)[1][1] == 0
  {
    SkippingSparesSink(LoopAndIsolated, Floyd.FloydSteps(2, 2), 1, 2);
    SkippingSparesSink(LoopAndIsolated, Dantzig.DantzigSteps(2), 1, 2);
  }
}
