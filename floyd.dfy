// shortestPathsByFloydWithoutNegativeLoopCheck: the Floyd-Warshall engine,
// a pass through every intermediate vertex k over all pairs (i, j).

module Floyd {
  import opened Saturating
  import opened Matrices
  import opened Relaxation

  /** The passes through the intermediate vertices 0 .. k - 1. */
  function FloydSteps(k: nat, n: nat): (r: seq<Step>)
  {
    if k == 0 then [] else FloydSteps(k - 1, n) + PassSteps(k - 1, n, n)
  }

  /** The tables after the passes through 0 .. m - 1, pass by pass. */
  function FloydAfter(D0: Matrix, m: nat, n: nat): (T: Tables)
    ensures IsSquare(D0, n) ==> Shaped(T, n)
  {
    if m == 0 then Initial(D0, n) else PassRun(FloydAfter(D0, m - 1, n), m - 1, n, n, n)
  }

  /** The passes are the relaxation steps of FloydSteps, run in order. */
  lemma {:induction false} FloydAfterIsRun(D0: Matrix, m: nat, n: nat)
    ensures FloydAfter(D0, m, n) == Run(Initial(D0, n), FloydSteps(m, n), n)
  {
    if m > 0 {
      var p := m - 1;
      var U := FloydAfter(D0, p, n);
      assert FloydSteps(m, n) == FloydSteps(p, n) + PassSteps(p, n, n);
      assert FloydAfter(D0, m, n) == PassRun(U, p, n, n, n);
      FloydAfterIsRun(D0, p, n);
      PassRunIsRun(U, p, n, n, n);
      RunThen(Initial(D0, n), FloydSteps(p, n), PassSteps(p, n, n), U, PassRun(U, p, n, n, n), n);
    }
  }

  /** What the raw Floyd engine returns: distances and renewal matrix. */
  function Floyd(D0: Matrix, n: nat): (T: Tables)
    ensures IsSquare(D0, n) ==> Shaped(T, n)
  {
    FloydAfter(D0, n, n)
  }

  /**
    * shortestPathsByFloydWithoutNegativeLoopCheck: copies D0, prepares the
    * renewal matrix and relaxes every (i, k, j), k outermost. D0 itself is
    * not modified.
    */
  method ShortestPathsByFloydWithoutNegativeLoopCheck(D0: array2<int32>, n: nat)
    returns (D: array2<int32>, renewMatrix: array2<int>)
    requires D0.Length0 == n && D0.Length1 == n
    ensures fresh(D) && fresh(renewMatrix)
    ensures D.Length0 == n && D.Length1 == n && renewMatrix.Length0 == n && renewMatrix.Length1 == n
    ensures Tables(Snapshot(D), Snapshot(renewMatrix)) == Floyd(Snapshot(D0), n)
  {
    ghost var M := Snapshot(D0);
    D := CopyOf(D0, n);
    renewMatrix := PrepareRenewMatrix(n);
    HoldsInitial(D, renewMatrix, M, n);
    var k := 0;
    while k < n
      invariant 0 <= k <= n
      invariant Holds(D, renewMatrix, FloydAfter(M, k, n), n)
    {
      RelaxPass(k, n, D, renewMatrix, FloydAfter(M, k, n));
      k := k + 1;
    }
    HoldsSnapshot(D, renewMatrix, Floyd(M, n), n);
  }

  // ---------------------------------------------------------------------
  // What the engine computes

  /** One more pass, through vertex m. */
  lemma NextPass(D0: Matrix, m: nat, n: nat)
    ensures FloydAfter(D0, m + 1, n) == PassRun(FloydAfter(D0, m, n), m, n, n, n)
  {
  }

  /** Later passes only lower distances. */
  lemma {:induction false} PassesDecrease(D0: Matrix, m: nat, m': nat, n: nat)
    requires IsSquare(D0, n) && m <= m'
    ensures Below(FloydAfter(D0, m', n).dist, FloydAfter(D0, m, n).dist, n)
    decreases m' - m
  {
    if m < m' {
      var U := FloydAfter(D0, m, n);
      PassesDecrease(D0, m + 1, m', n);
      NextPass(D0, m, n);
      PassBelow(U, m, n, n);
      var A, B, C := FloydAfter(D0, m', n).dist, FloydAfter(D0, m + 1, n).dist, U.dist;
      forall i, j | 0 <= i < n && 0 <= j < n
        ensures A[i][j] <= C[i][j]
      {
        assert A[i][j] <= B[i][j] <= C[i][j];
      }
    }
  }

  /** The raw engine never reports a distance above the direct edge weight. */
  lemma FloydBelowInput(D0: Matrix, n: nat)
    requires IsSquare(D0, n)
    ensures Below(Floyd(D0, n).dist, D0, n)
  {
    FloydAfterIsRun(D0, n, n);
    RunBelow(Initial(D0, n), FloydSteps(n, n), n);
  }

  /**
    * After the passes through 0 .. m - 1, the triangle inequality holds
    * through each of those vertices, provided the finished result has no
    * negative diagonal entry (no negative-weight cycle).
    */
  lemma {:induction false} FloydClosedThrough(D0: Matrix, m: nat, n: nat)
    requires IsSquare(D0, n) && m <= n
    requires NonNegativeDiagonal(Floyd(D0, n).dist, n)
    ensures ClosedThrough(FloydAfter(D0, m, n).dist, m, n)
  {
    if m > 0 {
      var p := m - 1;
      FloydClosedThrough(D0, p, n);
      var U := FloydAfter(D0, p, n).dist;
      var V := FloydAfter(D0, m, n).dist;
      var F := Floyd(D0, n).dist;
      PassesDecrease(D0, m, n, n);
      PassesDecrease(D0, p, m, n);
      NextPass(D0, p, n);
      assert 0 <= U[p][p];
      RelaxedThrough(FloydAfter(D0, p, n), p, n, n);
      // No route through p closes a negative cycle, so row p and column p hold no MinInt32.
      forall x | 0 <= x < n
        ensures 0 <= Sum(U[x][p], U[p][x])
      {
        assert F[x][x] <= V[x][x];
      }
      forall i, j, k | 0 <= i < n && 0 <= j < n && 0 <= k < m
        ensures V[i][j] <= Sum(V[i][k], V[k][j])
      {
        SumNonNegative(U[i][p], U[p][p]);
        SumNonNegative(U[p][j], U[p][p]);
        if k == p {
          assert V[i][p] == U[i][p] && V[p][j] == U[p][j];
        } else {
          NonNegativeSumOperands(U[i][p], U[p][i]);
          NonNegativeSumOperands(U[j][p], U[p][j]);
          assert U[p][p] <= Sum(U[p][k], U[k][p]);
          PassKeepsTriangle(U[i][p], U[p][k], U[k][j], U[p][j], U[i][k], U[k][p], U[i][j]);
        }
      }
    }
  }

  /**
    * Without negative cycles, the result of the raw engine obeys the
    * triangle inequality: no route through a third vertex is shorter.
    */
  lemma FloydClosed(D0: Matrix, n: nat)
    requires IsSquare(D0, n)
    requires NonNegativeDiagonal(Floyd(D0, n).dist, n)
    ensures TriangleClosed(Floyd(D0, n).dist, n)
  {
    FloydClosedThrough(D0, n, n);
  }

  /**
    * The result is as low as the triangle inequality allows: every matrix
    * that obeys it and lies below D0 lies below the result. With
    * FloydClosed and FloydBelowInput, the result is the greatest such
    * matrix, the shortest distances of the graph D0.
    */
  lemma FloydGreatest(D0: Matrix, X: Matrix, n: nat)
    requires IsSquare(D0, n) && IsSquare(X, n)
    requires TriangleClosed(X, n) && Below(X, D0, n)
    ensures Below(X, Floyd(D0, n).dist, n)
  {
    FloydAfterIsRun(D0, n, n);
    RunAbove(X, Initial(D0, n), FloydSteps(n, n), n);
  }

  /**
    * Reading the renewal matrix: NoPredecessor means the direct edge is the
    * answer; a vertex k means that, without negative cycles, the distance
    * is exactly the distance to k plus the distance from k.
    */
  lemma FloydRenewal(D0: Matrix, n: nat)
    requires IsSquare(D0, n)
    requires NonNegativeDiagonal(Floyd(D0, n).dist, n)
    ensures forall i, j :: 0 <= i < n && 0 <= j < n ==>
              var T := Floyd(D0, n);
              var k := T.renew[i][j];
              if k == NoPredecessor then T.dist[i][j] == D0[i][j]
              else 0 <= k < n && T.dist[i][j] < D0[i][j] && T.dist[i][j] == Sum(T.dist[i][k], T.dist[k][j])
  {
    var T := Floyd(D0, n);
    FloydAfterIsRun(D0, n, n);
    RunRenewSound(D0, FloydSteps(n, n), n);
    FloydClosed(D0, n);
    forall i, j | 0 <= i < n && 0 <= j < n
      ensures var k := T.renew[i][j];
              if k == NoPredecessor then T.dist[i][j] == D0[i][j]
              else 0 <= k < n && T.dist[i][j] < D0[i][j] && T.dist[i][j] == Sum(T.dist[i][k], T.dist[k][j])
    {
      assert RenewEntrySound(D0, T, n, i, j);
      var k := T.renew[i][j];
      if k != NoPredecessor {
        assert T.dist[i][j] <= Sum(T.dist[i][k], T.dist[k][j]);
      }
    }
  }
}
