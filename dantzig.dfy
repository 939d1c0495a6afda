// shortestPathsByDantzigWithoutNegativeLoopCheck: Dantzig's engine, which
// settles the vertices one at a time. Stage m adds vertex m to the settled
// vertices 0 .. m - 1:
//   border: for every settled i and every settled k, relaxPath(i, k, m) and
//           relaxPath(m, k, i) (the routes i -> m and m -> i through k);
//   corner: for every settled k, relaxPath(m, k, m) (the cycle m -> k -> m);
//   inner:  for every settled i, j, relaxPath(i, m, j) (routes through m).

module Dantzig {
  import opened Saturating
  import opened Matrices
  import opened Relaxation

  // ---------------------------------------------------------------------
  // The schedule, as recursions over the tables

  /** Pairs (i, k) for k = 0 .. j - 1 of the border of stage m. */
  function BorderRowRun(T: Tables, i: nat, m: nat, j: nat, n: nat): (r: Tables)
    ensures Shaped(T, n) ==> Shaped(r, n)
  {
    if j == 0 then T
    else
      var U := BorderRowRun(T, i, m, j - 1, n);
      Relax(Relax(U, Step(i, j - 1, m), n), Step(m, j - 1, i), n)
  }

  /** Rows 0 .. i - 1 of the border of stage m. */
  function BorderRun(T: Tables, m: nat, i: nat, n: nat): (r: Tables)
    ensures Shaped(T, n) ==> Shaped(r, n)
  {
    if i == 0 then T else BorderRowRun(BorderRun(T, m, i - 1, n), i - 1, m, m, n)
  }

  /** The cycles m -> k -> m for k = 0 .. j - 1. */
  function CornerRun(T: Tables, m: nat, j: nat, n: nat): (r: Tables)
    ensures Shaped(T, n) ==> Shaped(r, n)
  {
    if j == 0 then T else Relax(CornerRun(T, m, j - 1, n), Step(m, j - 1, m), n)
  }

  /** Stage m: border, corner, then the pass through m over the settled vertices. */
  function StageRun(T: Tables, m: nat, n: nat): (r: Tables)
    ensures Shaped(T, n) ==> Shaped(r, n)
  {
    PassRun(CornerRun(BorderRun(T, m, m, n), m, m, n), m, m, m, n)
  }

  /** The tables after stages 0 .. s - 1. */
  function DantzigAfter(D0: Matrix, s: nat, n: nat): (T: Tables)
    ensures IsSquare(D0, n) ==> Shaped(T, n)
  {
    if s == 0 then Initial(D0, n) else StageRun(DantzigAfter(D0, s - 1, n), s - 1, n)
  }

  /** What the raw Dantzig engine returns: distances and renewal matrix. */
  function Dantzig(D0: Matrix, n: nat): (T: Tables)
    ensures IsSquare(D0, n) ==> Shaped(T, n)
  {
    DantzigAfter(D0, n, n)
  }

  // ---------------------------------------------------------------------
  // The same schedule as a sequence of relaxation steps

  function BorderRowSteps(i: nat, m: nat, j: nat): seq<Step>
  {
    if j == 0 then [] else BorderRowSteps(i, m, j - 1) + [Step(i, j - 1, m), Step(m, j - 1, i)]
  }

  function BorderSteps(m: nat, i: nat): seq<Step>
  {
    if i == 0 then [] else BorderSteps(m, i - 1) + BorderRowSteps(i - 1, m, m)
  }

  function CornerSteps(m: nat, j: nat): seq<Step>
  {
    if j == 0 then [] else CornerSteps(m, j - 1) + [Step(m, j - 1, m)]
  }

  function StageSteps(m: nat): seq<Step>
  {
    BorderSteps(m, m) + CornerSteps(m, m) + PassSteps(m, m, m)
  }

  function DantzigSteps(s: nat): seq<Step>
  {
    if s == 0 then [] else DantzigSteps(s - 1) + StageSteps(s - 1)
  }

  lemma {:induction false} BorderRowRunIsRun(T: Tables, i: nat, m: nat, j: nat, n: nat)
    ensures BorderRowRun(T, i, m, j, n) == Run(T, BorderRowSteps(i, m, j), n)
  {
    if j > 0 {
      var p := j - 1;
      var a := BorderRowSteps(i, m, p);
      var U := BorderRowRun(T, i, m, p, n);
      assert BorderRowSteps(i, m, j) == (a + [Step(i, p, m)]) + [Step(m, p, i)];
      assert BorderRowRun(T, i, m, j, n) == Relax(Relax(U, Step(i, p, m), n), Step(m, p, i), n);
      BorderRowRunIsRun(T, i, m, p, n);
      RunSnoc(T, a, Step(i, p, m), n);
      RunSnoc(T, a + [Step(i, p, m)], Step(m, p, i), n);
    }
  }

  lemma {:induction false} BorderRunIsRun(T: Tables, m: nat, i: nat, n: nat)
    ensures BorderRun(T, m, i, n) == Run(T, BorderSteps(m, i), n)
  {
    if i > 0 {
      var p := i - 1;
      var U := BorderRun(T, m, p, n);
      assert BorderSteps(m, i) == BorderSteps(m, p) + BorderRowSteps(p, m, m);
      assert BorderRun(T, m, i, n) == BorderRowRun(U, p, m, m, n);
      BorderRunIsRun(T, m, p, n);
      BorderRowRunIsRun(U, p, m, m, n);
      RunThen(T, BorderSteps(m, p), BorderRowSteps(p, m, m), U, BorderRowRun(U, p, m, m, n), n);
    }
  }

  lemma {:induction false} CornerRunIsRun(T: Tables, m: nat, j: nat, n: nat)
    ensures CornerRun(T, m, j, n) == Run(T, CornerSteps(m, j), n)
  {
    if j > 0 {
      var p := j - 1;
      assert CornerSteps(m, j) == CornerSteps(m, p) + [Step(m, p, m)];
      assert CornerRun(T, m, j, n) == Relax(CornerRun(T, m, p, n), Step(m, p, m), n);
      CornerRunIsRun(T, m, p, n);
      RunSnoc(T, CornerSteps(m, p), Step(m, p, m), n);
    }
  }

  lemma StageRunIsRun(T: Tables, m: nat, n: nat)
    ensures StageRun(T, m, n) == Run(T, StageSteps(m), n)
  {
    var A := BorderRun(T, m, m, n);
    var B := CornerRun(A, m, m, n);
    BorderRunIsRun(T, m, m, n);
    CornerRunIsRun(A, m, m, n);
    PassRunIsRun(B, m, m, m, n);
    RunThen(T, BorderSteps(m, m), CornerSteps(m, m), A, B, n);
    RunThen(T, BorderSteps(m, m) + CornerSteps(m, m), PassSteps(m, m, m), B, PassRun(B, m, m, m, n), n);
  }

  lemma {:induction false} DantzigAfterIsRun(D0: Matrix, s: nat, n: nat)
    ensures DantzigAfter(D0, s, n) == Run(Initial(D0, n), DantzigSteps(s), n)
  {
    if s > 0 {
      var p := s - 1;
      var U := DantzigAfter(D0, p, n);
      assert DantzigSteps(s) == DantzigSteps(p) + StageSteps(p);
      assert DantzigAfter(D0, s, n) == StageRun(U, p, n);
      DantzigAfterIsRun(D0, p, n);
      StageRunIsRun(U, p, n);
      RunThen(Initial(D0, n), DantzigSteps(p), StageSteps(p), U, StageRun(U, p, n), n);
    }
  }

  // ---------------------------------------------------------------------
  // Why a stage keeps the settled corner closed

  /** The triangle inequality among the vertices 0 .. w - 1. */
  predicate CornerClosed(M: Matrix, w: nat, n: nat)
    requires IsSquare(M, n) && w <= n
  {
    forall i, j, k :: 0 <= i < w && 0 <= j < w && 0 <= k < w ==> M[i][j] <= Sum(M[i][k], M[k][j])
  }

  /** The vertices 0 .. w - 1 have no negative-weight route back to themselves. */
  predicate CornerDiagonal(M: Matrix, w: nat, n: nat)
    requires IsSquare(M, n) && w <= n
  {
    forall v :: 0 <= v < w ==> 0 <= M[v][v]
  }

  /** The settled corner of U is that of T. */
  predicate SameCorner(T: Tables, U: Tables, m: nat, n: nat)
    requires Shaped(T, n) && Shaped(U, n) && m < n
  {
    forall x, y :: 0 <= x < m && 0 <= y < m ==> U.dist[x][y] == T.dist[x][y]
  }

  /**
    * Column m after border rows 0 .. i - 1 and the first j pairs of row i:
    * every finished cell obeys the triangle inequality through every
    * settled vertex whose pair with it is done.
    */
  predicate ColumnAt(T: Tables, U: Tables, m: nat, i: nat, j: nat, n: nat)
    requires Shaped(T, n) && Shaped(U, n) && m < n
  {
    forall x, k :: 0 <= x < m && 0 <= k < m && (x < i || (x == i && k < j)) ==>
      U.dist[x][m] <= Sum(T.dist[x][k], U.dist[k][m])
  }

  /** Row m at the same point of the border: the mirror image of ColumnAt. */
  predicate RowAt(T: Tables, U: Tables, m: nat, i: nat, j: nat, n: nat)
    requires Shaped(T, n) && Shaped(U, n) && m < n
  {
    forall y, k :: 0 <= y < m && 0 <= k < m && (y < i || (y == i && k < j)) ==>
      U.dist[m][y] <= Sum(U.dist[m][k], T.dist[k][y])
  }

  predicate BorderAt(T: Tables, U: Tables, m: nat, i: nat, j: nat, n: nat)
    requires Shaped(T, n) && Shaped(U, n) && m < n
  {
    SameCorner(T, U, m, n) && ColumnAt(T, U, m, i, j, n) && RowAt(T, U, m, i, j, n)
  }

  /** In a closed corner with a non-negative diagonal no entry is the smallest int32. */
  lemma CornerAboveMin(M: Matrix, w: nat, n: nat, x: nat, y: nat)
    requires IsSquare(M, n) && w <= n && x < w && y < w
    requires CornerClosed(M, w, n) && CornerDiagonal(M, w, n)
    ensures MinInt32 < M[x][y]
  {
    assert M[x][x] <= Sum(M[x][y], M[y][x]);
    NonNegativeSumOperands(M[x][y], M[y][x]);
  }

  /** relaxPath(i, j, m) settles pair (i, j) of column m and keeps the settled ones. */
  lemma ColumnStep(T: Tables, U: Tables, m: nat, i: nat, j: nat, n: nat)
    requires Shaped(T, n) && Shaped(U, n) && i < m < n && j < m
    requires CornerClosed(T.dist, m, n) && CornerDiagonal(T.dist, m, n)
    requires SameCorner(T, U, m, n) && ColumnAt(T, U, m, i, j, n)
    ensures ColumnAt(T, Relax(U, Step(i, j, m), n), m, i, j + 1, n)
  {
    var C, A, B := T.dist, U.dist, Relax(U, Step(i, j, m), n).dist;
    var candidate := Sum(C[i][j], A[j][m]);
    if candidate < A[i][m] {
      if j == i {
        SumNonNegative(A[i][m], C[i][i]);
        assert false;
      }
      forall x, k | 0 <= x < m && 0 <= k < m && (x < i || (x == i && k < j + 1))
        ensures B[x][m] <= Sum(C[x][k], B[k][m])
      {
        if x == i && k == j {
        } else if k == i && x == i {
          SumNonNegative(candidate, C[i][i]);
        } else if k == i {
          CornerAboveMin(C, m, n, x, j);
          BorderKeepsColumn(A[x][m], A[j][m], C[x][j], C[x][i], C[i][j]);
        }
      }
    }
  }

  /** relaxPath(m, j, i) settles pair (i, j) of row m and keeps the settled ones. */
  lemma RowStep(T: Tables, U: Tables, m: nat, i: nat, j: nat, n: nat)
    requires Shaped(T, n) && Shaped(U, n) && i < m < n && j < m
    requires CornerClosed(T.dist, m, n) && CornerDiagonal(T.dist, m, n)
    requires SameCorner(T, U, m, n) && RowAt(T, U, m, i, j, n)
    ensures RowAt(T, Relax(U, Step(m, j, i), n), m, i, j + 1, n)
  {
    var C, A, B := T.dist, U.dist, Relax(U, Step(m, j, i), n).dist;
    var candidate := Sum(A[m][j], C[j][i]);
    if candidate < A[m][i] {
      if j == i {
        SumNonNegative(A[m][i], C[i][i]);
        assert false;
      }
      forall y, k | 0 <= y < m && 0 <= k < m && (y < i || (y == i && k < j + 1))
        ensures B[m][y] <= Sum(B[m][k], C[k][y])
      {
        if y == i && k == j {
        } else if k == i && y == i {
          SumNonNegative(candidate, C[i][i]);
        } else if k == i {
          CornerAboveMin(C, m, n, j, y);
          BorderKeepsRow(A[m][y], A[m][j], C[j][y], C[i][y], C[j][i]);
        }
      }
    }
  }

  /** relaxPath(i, j, m) moves no cell of the settled corner or of row m. */
  lemma ColumnKeepsRow(T: Tables, U: Tables, m: nat, i: nat, j: nat, r: nat, n: nat)
    requires Shaped(T, n) && Shaped(U, n) && i < m < n
    requires SameCorner(T, U, m, n) && RowAt(T, U, m, i, r, n)
    ensures SameCorner(T, Relax(U, Step(i, j, m), n), m, n)
    ensures RowAt(T, Relax(U, Step(i, j, m), n), m, i, r, n)
  {
    var V := Relax(U, Step(i, j, m), n);
    forall y | 0 <= y < m
      ensures V.dist[m][y] == U.dist[m][y]
    {
    }
  }

  /** relaxPath(m, j, i) moves no cell of the settled corner or of column m. */
  lemma RowKeepsColumn(T: Tables, U: Tables, m: nat, i: nat, j: nat, r: nat, n: nat)
    requires Shaped(T, n) && Shaped(U, n) && i < m < n
    requires SameCorner(T, U, m, n) && ColumnAt(T, U, m, i, r, n)
    ensures SameCorner(T, Relax(U, Step(m, j, i), n), m, n)
    ensures ColumnAt(T, Relax(U, Step(m, j, i), n), m, i, r, n)
  {
    var V := Relax(U, Step(m, j, i), n);
    forall x | 0 <= x < m
      ensures V.dist[x][m] == U.dist[x][m]
    {
    }
  }

  /** One border pair (i, j) of stage m: relaxPath(i, j, m), then relaxPath(m, j, i). */
  lemma PairStep(T: Tables, U: Tables, m: nat, i: nat, j: nat, n: nat)
    requires Shaped(T, n) && Shaped(U, n) && i < m < n && j < m
    requires CornerClosed(T.dist, m, n) && CornerDiagonal(T.dist, m, n)
    requires BorderAt(T, U, m, i, j, n)
    ensures BorderAt(T, Relax(Relax(U, Step(i, j, m), n), Step(m, j, i), n), m, i, j + 1, n)
  {
    var U1 := Relax(U, Step(i, j, m), n);
    ColumnStep(T, U, m, i, j, n);
    ColumnKeepsRow(T, U, m, i, j, j, n);
    RowStep(T, U1, m, i, j, n);
    RowKeepsColumn(T, U1, m, i, j, j + 1, n);
  }

  lemma {:induction false} BorderRowThrough(T: Tables, U: Tables, m: nat, i: nat, j: nat, n: nat)
    requires Shaped(T, n) && Shaped(U, n) && i < m < n && j <= m
    requires CornerClosed(T.dist, m, n) && CornerDiagonal(T.dist, m, n)
    requires BorderAt(T, U, m, i, 0, n)
    ensures BorderAt(T, BorderRowRun(U, i, m, j, n), m, i, j, n)
  {
    if j > 0 {
      var p := j - 1;
      BorderRowThrough(T, U, m, i, p, n);
      PairStep(T, BorderRowRun(U, i, m, p, n), m, i, p, n);
    }
  }

  /** Finishing border row i - 1 is starting border row i. */
  lemma NextBorderRow(T: Tables, U: Tables, m: nat, i: nat, n: nat)
    requires Shaped(T, n) && Shaped(U, n) && m < n
    requires BorderAt(T, U, m, i, m, n)
    ensures BorderAt(T, U, m, i + 1, 0, n)
  {
  }

  /** After the whole border of rows 0 .. i - 1. */
  lemma {:induction false} BorderThrough(T: Tables, m: nat, i: nat, n: nat)
    requires Shaped(T, n) && i <= m < n
    requires CornerClosed(T.dist, m, n) && CornerDiagonal(T.dist, m, n)
    ensures BorderAt(T, BorderRun(T, m, i, n), m, i, 0, n)
  {
    if i > 0 {
      var p := i - 1;
      var U := BorderRun(T, m, p, n);
      BorderThrough(T, m, p, n);
      BorderRowThrough(T, U, m, p, m, n);
      NextBorderRow(T, BorderRowRun(U, p, m, m, n), m, p, n);
    }
  }

  /**
    * The corner of stage m after k = 0 .. j - 1: only D[m][m] has moved, and
    * it is at most every cycle m -> k -> m seen so far.
    */
  predicate CornerAt(U: Tables, V: Tables, m: nat, j: nat, n: nat)
    requires Shaped(U, n) && Shaped(V, n) && m < n
  {
    (forall x, y :: 0 <= x < n && 0 <= y < n && (x != m || y != m) ==> V.dist[x][y] == U.dist[x][y]) &&
    (forall k :: 0 <= k < m && k < j ==> V.dist[m][m] <= Sum(U.dist[m][k], U.dist[k][m]))
  }

  lemma {:induction false} CornerThrough(U: Tables, m: nat, j: nat, n: nat)
    requires Shaped(U, n) && m < n && j <= m
    ensures CornerAt(U, CornerRun(U, m, j, n), m, j, n)
  {
    if j > 0 {
      var p := j - 1;
      var V := CornerRun(U, m, p, n);
      CornerThrough(U, m, p, n);
      assert V.dist[m][p] == U.dist[m][p] && V.dist[p][m] == U.dist[p][m];
    }
  }

  /**
    * The closing argument of a stage, on the matrices alone: C is the
    * settled corner before the stage, A holds the finished border (row and
    * column m), d the finished D[m][m], and W the matrix after the stage.
    */
  lemma StageTriangle(C: Matrix, A: Matrix, W: Matrix, m: nat, n: nat)
    requires IsSquare(C, n) && IsSquare(A, n) && IsSquare(W, n) && m < n
    requires CornerClosed(C, m, n) && CornerDiagonal(W, m + 1, n)
    requires forall x, k :: 0 <= x < m && 0 <= k < m ==> A[x][m] <= Sum(C[x][k], A[k][m])
    requires forall y, k :: 0 <= y < m && 0 <= k < m ==> A[m][y] <= Sum(A[m][k], C[k][y])
    requires forall k :: 0 <= k < m ==> W[m][m] <= Sum(A[m][k], A[k][m])
    requires forall x :: 0 <= x < m ==> W[x][m] == A[x][m] && W[m][x] == A[m][x]
    requires forall x, y :: 0 <= x < m && 0 <= y < m ==> W[x][y] == Min(C[x][y], Sum(A[x][m], A[m][y]))
    ensures CornerClosed(W, m + 1, n)
  {
    var d := W[m][m];
    forall k | 0 <= k < m
      ensures MinInt32 < A[m][k] && MinInt32 < A[k][m] && 0 <= Sum(A[m][k], A[k][m])
    {
      NonNegativeSumOperands(A[m][k], A[k][m]);
    }
    forall i, j, k | 0 <= i <= m && 0 <= j <= m && 0 <= k <= m
      ensures W[i][j] <= Sum(W[i][k], W[k][j])
    {
      if i < m && j < m && k < m {
        PassKeepsTriangle(A[i][m], A[m][k], C[k][j], A[m][j], C[i][k], A[k][m], C[i][j]);
      } else if i < m && j < m {
      } else if i < m && k < m {
        InnerKeepsColumn(A[i][m], C[i][k], A[k][m], A[m][k]);
      } else if j < m && k < m {
        SumCommutes(A[m][k], A[k][m]);
        InnerKeepsColumn(A[m][j], C[k][j], A[m][k], A[k][m]);
        SumCommutes(A[m][j], C[k][j]);
        SumCommutes(A[m][j], A[k][m]);
        SumCommutes(Min(C[k][j], Sum(A[k][m], A[m][j])), A[m][k]);
      } else if i < m {
        SumNonNegative(A[i][m], d);
      } else if j < m {
        SumNonNegative(A[m][j], d);
      } else if k < m {
      } else {
        SumNonNegative(d, d);
      }
    }
  }

  /** The border writes only row m and column m: the settled corner stays as it was. */
  lemma {:induction false} BorderRowKeepsCorner(T: Tables, i: nat, m: nat, j: nat, n: nat)
    requires Shaped(T, n) && m < n
    ensures SameCorner(T, BorderRowRun(T, i, m, j, n), m, n)
  {
    if j > 0 {
      BorderRowKeepsCorner(T, i, m, j - 1, n);
    }
  }

  lemma {:induction false} BorderKeepsCorner(T: Tables, m: nat, i: nat, n: nat)
    requires Shaped(T, n) && m < n
    ensures SameCorner(T, BorderRun(T, m, i, n), m, n)
  {
    if i > 0 {
      var p := i - 1;
      var U := BorderRun(T, m, p, n);
      BorderKeepsCorner(T, m, p, n);
      BorderRowKeepsCorner(U, p, m, m, n);
    }
  }

  /**
    * The corner and the inner pass of stage m, seen from the finished
    * border A: D[m][m] is at most every cycle m -> k -> m, row and column m
    * keep their border values, and each settled cell becomes the shorter of
    * itself and the route through m.
    */
  lemma CornerThenPass(A: Tables, m: nat, n: nat)
    requires Shaped(A, n) && m < n
    ensures var W := PassRun(CornerRun(A, m, m, n), m, m, m, n).dist;
      && (forall k :: 0 <= k < m ==> W[m][m] <= Sum(A.dist[m][k], A.dist[k][m]))
      && (forall x :: 0 <= x < m ==> W[x][m] == A.dist[x][m] && W[m][x] == A.dist[m][x])
      && (forall x, y :: 0 <= x < m && 0 <= y < m ==>
            W[x][y] == Min(A.dist[x][y], Sum(A.dist[x][m], A.dist[m][y])))
  {
    var B := CornerRun(A, m, m, n);
    RelaxedThrough(B, m, m, n);
    CornerThrough(A, m, m, n);
  }

  /**
    * A stage closes the corner one vertex wider: if the settled corner of T
    * obeys the triangle inequality, so do vertices 0 .. m after stage m,
    * provided none of them ends up with a negative cycle.
    */
  lemma StageCloses(T: Tables, m: nat, n: nat)
    requires Shaped(T, n) && m < n
    requires CornerClosed(T.dist, m, n) && CornerDiagonal(StageRun(T, m, n).dist, m + 1, n)
    ensures CornerClosed(StageRun(T, m, n).dist, m + 1, n)
  {
    var A := BorderRun(T, m, m, n);
    var W := StageRun(T, m, n).dist;
    assert W == PassRun(CornerRun(A, m, m, n), m, m, m, n).dist;
    BorderKeepsCorner(T, m, m, n);
    CornerThenPass(A, m, n);
    assert CornerDiagonal(T.dist, m, n) by {
      forall v | 0 <= v < m
        ensures 0 <= T.dist[v][v]
      {
        SumNonNegative(A.dist[v][v], Sum(A.dist[v][m], A.dist[m][v]));
        assert W[v][v] <= A.dist[v][v];
      }
    }
    BorderThrough(T, m, m, n);
    StageTriangle(T.dist, A.dist, W, m, n);
  }

  /** A stage only lowers distances. */
  lemma StageBelow(T: Tables, m: nat, n: nat)
    requires Shaped(T, n)
    ensures Below(StageRun(T, m, n).dist, T.dist, n)
  {
    StageRunIsRun(T, m, n);
    RunBelow(T, StageSteps(m), n);
  }

  /** Later stages only lower distances. */
  lemma {:induction false} StagesDecrease(D0: Matrix, s: nat, s': nat, n: nat)
    requires IsSquare(D0, n) && s <= s'
    ensures Below(DantzigAfter(D0, s', n).dist, DantzigAfter(D0, s, n).dist, n)
    decreases s' - s
  {
    if s < s' {
      var U := DantzigAfter(D0, s, n);
      StagesDecrease(D0, s + 1, s', n);
      StageBelow(U, s, n);
      var A, B, C := DantzigAfter(D0, s', n).dist, DantzigAfter(D0, s + 1, n).dist, U.dist;
      forall i, j | 0 <= i < n && 0 <= j < n
        ensures A[i][j] <= C[i][j]
      {
        assert A[i][j] <= B[i][j] <= C[i][j];
      }
    }
  }

  /** The raw engine never reports a distance above the direct edge weight. */
  lemma DantzigBelowInput(D0: Matrix, n: nat)
    requires IsSquare(D0, n)
    ensures Below(Dantzig(D0, n).dist, D0, n)
  {
    DantzigAfterIsRun(D0, n, n);
    RunBelow(Initial(D0, n), DantzigSteps(n), n);
  }

  /** After stages 0 .. s - 1 the corner of vertices 0 .. s - 1 is closed. */
  lemma {:induction false} DantzigCornerClosed(D0: Matrix, s: nat, n: nat)
    requires IsSquare(D0, n) && s <= n
    requires NonNegativeDiagonal(Dantzig(D0, n).dist, n)
    ensures CornerClosed(DantzigAfter(D0, s, n).dist, s, n)
  {
    if s > 0 {
      var p := s - 1;
      var U := DantzigAfter(D0, p, n);
      var V := DantzigAfter(D0, s, n);
      assert V == StageRun(U, p, n);
      DantzigCornerClosed(D0, p, n);
      StagesDecrease(D0, s, n, n);
      assert CornerDiagonal(V.dist, s, n) by {
        forall v | 0 <= v < s
          ensures 0 <= V.dist[v][v]
        {
          assert Dantzig(D0, n).dist[v][v] <= V.dist[v][v];
        }
      }
      StageCloses(U, p, n);
    }
  }

  /**
    * Without negative cycles, the result of the raw engine obeys the
    * triangle inequality: no route through a third vertex is shorter.
    */
  lemma DantzigClosed(D0: Matrix, n: nat)
    requires IsSquare(D0, n)
    requires NonNegativeDiagonal(Dantzig(D0, n).dist, n)
    ensures TriangleClosed(Dantzig(D0, n).dist, n)
  {
    DantzigCornerClosed(D0, n, n);
  }

  /**
    * Every matrix that obeys the triangle inequality and lies below the
    * input also lies below the result: the engine finds the shortest
    * distances any closed matrix can offer.
    */
  lemma DantzigGreatest(D0: Matrix, X: Matrix, n: nat)
    requires IsSquare(D0, n) && IsSquare(X, n)
    requires TriangleClosed(X, n) && Below(X, D0, n)
    ensures Below(X, Dantzig(D0, n).dist, n)
  {
    DantzigAfterIsRun(D0, n, n);
    RunAbove(X, Initial(D0, n), DantzigSteps(n), n);
  }

  /**
    * The renewal matrix of the raw engine: a cell holding NoPredecessor
    * keeps the direct edge weight; any other holds a vertex k through which
    * the reported route runs, with D[i][j] == D[i][k] + D[k][j].
    */
  lemma DantzigRenewal(D0: Matrix, n: nat)
    requires IsSquare(D0, n)
    requires NonNegativeDiagonal(Dantzig(D0, n).dist, n)
    ensures forall i, j :: 0 <= i < n && 0 <= j < n ==>
              var T := Dantzig(D0, n);
              var k := T.renew[i][j];
              if k == NoPredecessor then T.dist[i][j] == D0[i][j]
              else 0 <= k < n && T.dist[i][j] < D0[i][j] && T.dist[i][j] == Sum(T.dist[i][k], T.dist[k][j])
  {
    var T := Dantzig(D0, n);
    DantzigAfterIsRun(D0, n, n);
    RunRenewSound(D0, DantzigSteps(n), n);
    DantzigClosed(D0, n);
    forall i, j | 0 <= i < n && 0 <= j < n
      ensures var k := T.renew[i][j];
              if k == NoPredecessor then T.dist[i][j] == D0[i][j]
              else 0 <= k < n && T.dist[i][j] < D0[i][j] && T.dist[i][j] == Sum(T.dist[i][k], T.dist[k][j])
    {
      assert RenewEntrySound(D0, T, n, i, j);
      var k := T.renew[i][j];
      if k != NoPredecessor {
        assert T.dist[i][j] <= Sum(T.dist[i][k], T.dist[k][j]);
      }
    }
  }

  // ---------------------------------------------------------------------
  // The engine

  /** Border row i of stage m: relaxPath(i, k, m) and relaxPath(m, k, i) for k = 0 .. m - 1. */
  method RelaxBorderRow(i: nat, m: nat, D: array2<int32>, P: array2<int>, ghost T: Tables)
    requires Shaped(T, D.Length0) && D.Length0 == D.Length1 == P.Length0 == P.Length1
    requires Holds(D, P, T, D.Length0)
    requires i < D.Length0 && m < D.Length0
    modifies D, P
    ensures Holds(D, P, BorderRowRun(T, i, m, m, D.Length0), D.Length0)
  {
    ghost var n := D.Length0;
    var k := 0;
    while k < m
      invariant 0 <= k <= m
      invariant Holds(D, P, BorderRowRun(T, i, m, k, n), n)
    {
      ghost var U := BorderRowRun(T, i, m, k, n);
      RelaxPath(i, k, m, D, P, U);
      RelaxPath(m, k, i, D, P, Relax(U, Step(i, k, m), n));
      k := k + 1;
    }
  }

  /** The border of stage m, row by row. */
  method RelaxBorder(m: nat, D: array2<int32>, P: array2<int>, ghost T: Tables)
    requires Shaped(T, D.Length0) && D.Length0 == D.Length1 == P.Length0 == P.Length1
    requires Holds(D, P, T, D.Length0)
    requires m < D.Length0
    modifies D, P
    ensures Holds(D, P, BorderRun(T, m, m, D.Length0), D.Length0)
  {
    ghost var n := D.Length0;
    var i := 0;
    while i < m
      invariant 0 <= i <= m
      invariant Holds(D, P, BorderRun(T, m, i, n), n)
    {
      RelaxBorderRow(i, m, D, P, BorderRun(T, m, i, n));
      i := i + 1;
    }
  }

  /** The corner of stage m: relaxPath(m, k, m) for k = 0 .. m - 1. */
  method RelaxCorner(m: nat, D: array2<int32>, P: array2<int>, ghost T: Tables)
    requires Shaped(T, D.Length0) && D.Length0 == D.Length1 == P.Length0 == P.Length1
    requires Holds(D, P, T, D.Length0)
    requires m < D.Length0
    modifies D, P
    ensures Holds(D, P, CornerRun(T, m, m, D.Length0), D.Length0)
  {
    ghost var n := D.Length0;
    var k := 0;
    while k < m
      invariant 0 <= k <= m
      invariant Holds(D, P, CornerRun(T, m, k, n), n)
    {
      RelaxPath(m, k, m, D, P, CornerRun(T, m, k, n));
      k := k + 1;
    }
  }

  /**
    * shortestPathsByDantzigWithoutNegativeLoopCheck: copies D0, prepares the
    * renewal matrix and runs the stages m = 0 .. n - 1. D0 itself is not
    * modified.
    */
  method ShortestPathsByDantzigWithoutNegativeLoopCheck(D0: array2<int32>, n: nat)
    returns (D: array2<int32>, renewMatrix: array2<int>)
    requires D0.Length0 == n && D0.Length1 == n
    ensures fresh(D) && fresh(renewMatrix)
    ensures D.Length0 == n && D.Length1 == n && renewMatrix.Length0 == n && renewMatrix.Length1 == n
    ensures Tables(Snapshot(D), Snapshot(renewMatrix)) == Dantzig(Snapshot(D0), n)
  {
    ghost var M := Snapshot(D0);
    D := CopyOf(D0, n);
    renewMatrix := PrepareRenewMatrix(n);
    HoldsInitial(D, renewMatrix, M, n);
    var m := 0;
    while m < n
      invariant 0 <= m <= n
      invariant Holds(D, renewMatrix, DantzigAfter(M, m, n), n)
    {
      ghost var T := DantzigAfter(M, m, n);
      RelaxBorder(m, D, renewMatrix, T);
      RelaxCorner(m, D, renewMatrix, BorderRun(T, m, m, n));
      RelaxPass(m, m, D, renewMatrix, CornerRun(BorderRun(T, m, m, n), m, m, n));
      m := m + 1;
    }
    HoldsSnapshot(D, renewMatrix, Dantzig(M, n), n);
  }
}
