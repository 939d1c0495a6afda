// negativeLoopCheck: the pass that marks the distances spoiled by a
// negative-weight cycle. The header gives neither the marker nor the rule;
// this model takes the usual one. For each vertex v in turn whose diagonal
// entry D[v][v] is negative, every pair (i, j) with a finite D[i][v] and a
// finite D[v][j] gets the marker NegativeInfinity. The matrix is rewritten
// in place, so a later vertex sees the marks of the earlier ones.

module NegativeLoop {
  import opened Saturating
  import opened Matrices

  /** The distance-matrix marker for "unbounded below": the smallest int32. */
  const NegativeInfinity: int32 := MinInt32

  /** Cell (i, j) after the sweep through v, read off the matrix D the sweep starts from. */
  function SweepCell(D: Matrix, v: nat, i: nat, j: nat, n: nat): int32
    requires IsSquare(D, n) && v < n && i < n && j < n
  {
    if D[i][v] != NoEdge && D[v][j] != NoEdge then NegativeInfinity else D[i][j]
  }

  /** The whole sweep through v. */
  function Sweep(D: Matrix, v: nat, n: nat): (S: Matrix)
    requires IsSquare(D, n) && v < n
    ensures IsSquare(S, n)
    ensures forall i, j :: 0 <= i < n && 0 <= j < n ==> S[i][j] == SweepCell(D, v, i, j, n)
  {
    seq(n, i requires 0 <= i < n => seq(n, j requires 0 <= j < n => SweepCell(D, v, i, j, n)))
  }

  /** The matrix after the vertices 0 .. v - 1 have been looked at. */
  function CheckedThrough(M: Matrix, v: nat, n: nat): (R: Matrix)
    requires IsSquare(M, n) && v <= n
    ensures IsSquare(R, n)
  {
    if v == 0 then M
    else
      var D := CheckedThrough(M, v - 1, n);
      if D[v - 1][v - 1] < 0 then Sweep(D, v - 1, n) else D
  }

  /** What negativeLoopCheck makes of M. */
  function Corrected(M: Matrix, n: nat): (R: Matrix)
    requires IsSquare(M, n)
    ensures IsSquare(R, n)
  {
    CheckedThrough(M, n, n)
  }

  /**
    * negativeLoopCheck: this model reads the returned matrix as D itself,
    * rewritten in place. Each cell is tested against the current contents
    * of D.
    */
  method NegativeLoopCheck(D: array2<int32>, n: nat)
    requires D.Length0 == n && D.Length1 == n
    modifies D
    ensures Snapshot(D) == Corrected(old(Snapshot(D)), n)
  {
    ghost var M := Snapshot(D);
    var v := 0;
    while v < n
      invariant 0 <= v <= n
      invariant Snapshot(D) == CheckedThrough(M, v, n)
    {
      if D[v, v] < 0 {
        ghost var E := Snapshot(D);
        var i := 0;
        while i < n
          invariant 0 <= i <= n
          invariant forall x, y :: 0 <= x < n && 0 <= y < n ==>
                      D[x, y] == if x < i then SweepCell(E, v, x, y, n) else E[x][y]
        {
          var j := 0;
          while j < n
            invariant 0 <= j <= n
            invariant forall x, y :: 0 <= x < n && 0 <= y < n ==>
                        D[x, y] == if x < i || (x == i && y < j) then SweepCell(E, v, x, y, n) else E[x][y]
          {
            // A cell of row v or column v is marked only when it is finite,
            // so the two tests below see what they would have seen in E.
            assert (D[i, v] == NoEdge) == (E[i][v] == NoEdge);
            assert (D[v, j] == NoEdge) == (E[v][j] == NoEdge);
            if D[i, v] != NoEdge && D[v, j] != NoEdge {
              D[i, j] := NegativeInfinity;
            }
            j := j + 1;
          }
          i := i + 1;
        }
        SameEntries(Snapshot(D), Sweep(E, v, n), n);
      }
      v := v + 1;
    }
  }

  // ---------------------------------------------------------------------
  // What negativeLoopCheck promises

  /** Every cell of R is the cell of M or the marker. */
  predicate OnlyMarks(M: Matrix, R: Matrix, n: nat)
    requires IsSquare(M, n) && IsSquare(R, n)
  {
    forall i, j :: 0 <= i < n && 0 <= j < n ==> R[i][j] == M[i][j] || R[i][j] == NegativeInfinity
  }

  /** Vertex v lies on a negative cycle of R that R reaches from i and leaves towards j. */
  predicate Spoils(R: Matrix, v: nat, i: nat, j: nat, n: nat)
    requires IsSquare(R, n) && v < n && i < n && j < n
  {
    R[v][v] < 0 && R[i][v] != NoEdge && R[v][j] != NoEdge
  }

  /** Looking at more vertices only adds marks. */
  lemma {:induction false} LaterOnlyMarks(M: Matrix, v: nat, w: nat, n: nat)
    requires IsSquare(M, n) && v <= w <= n
    ensures OnlyMarks(CheckedThrough(M, v, n), CheckedThrough(M, w, n), n)
    decreases w - v
  {
    if v < w {
      LaterOnlyMarks(M, v + 1, w, n);
      var A, B, C := CheckedThrough(M, v, n), CheckedThrough(M, v + 1, n), CheckedThrough(M, w, n);
      forall i, j | 0 <= i < n && 0 <= j < n
        ensures C[i][j] == A[i][j] || C[i][j] == NegativeInfinity
      {
        assert B[i][j] == A[i][j] || B[i][j] == NegativeInfinity;
      }
    }
  }

  /**
    * Each cell of the result is the input cell or the marker: negativeLoopCheck
    * never invents a finite distance.
    */
  lemma CorrectedOnlyMarks(M: Matrix, n: nat)
    requires IsSquare(M, n)
    ensures OnlyMarks(M, Corrected(M, n), n)
  {
    LaterOnlyMarks(M, 0, n, n);
  }

  /** Without a negative diagonal entry the vertices 0 .. v - 1 change nothing. */
  lemma {:induction false} CheckedThroughIdentity(M: Matrix, v: nat, n: nat)
    requires IsSquare(M, n) && v <= n && NonNegativeDiagonal(M, n)
    ensures CheckedThrough(M, v, n) == M
  {
    if v > 0 {
      CheckedThroughIdentity(M, v - 1, n);
    }
  }

  /** A matrix with no negative-weight cycle comes back unchanged. */
  lemma CorrectedIdentity(M: Matrix, n: nat)
    requires IsSquare(M, n) && NonNegativeDiagonal(M, n)
    ensures Corrected(M, n) == M
  {
    CheckedThroughIdentity(M, n, n);
  }

  /**
    * Every pair whose route can pass through a vertex v with a negative
    * diagonal entry of the input ends up marked.
    */
  lemma CorrectedMarksSpoiled(M: Matrix, v: nat, i: nat, j: nat, n: nat)
    requires IsSquare(M, n) && v < n && i < n && j < n
    requires Spoils(M, v, i, j, n)
    ensures Corrected(M, n)[i][j] == NegativeInfinity
  {
    var D := CheckedThrough(M, v, n);
    LaterOnlyMarks(M, 0, v, n);
    assert D[v][v] == M[v][v] || D[v][v] == NegativeInfinity;
    assert D[i][v] == M[i][v] || D[i][v] == NegativeInfinity;
    assert D[v][j] == M[v][j] || D[v][j] == NegativeInfinity;
    assert CheckedThrough(M, v + 1, n)[i][j] == NegativeInfinity;
    LaterOnlyMarks(M, v + 1, n, n);
  }

  /** A walk p[0] -> p[1] -> ... along finite entries of M; one vertex alone is a walk. */
  predicate IsWalk(M: Matrix, p: seq<nat>, n: nat)
    requires IsSquare(M, n)
  {
    |p| >= 1 &&
    (forall t :: 0 <= t < |p| ==> p[t] < n) &&
    (forall t :: 0 <= t < |p| - 1 ==> M[p[t]][p[t + 1]] != NoEdge)
  }

  /** x reaches y in the graph of M. */
  ghost predicate Reaches(M: Matrix, x: nat, y: nat, n: nat)
    requires IsSquare(M, n)
  {
    exists p :: IsWalk(M, p, n) && p[0] == x && p[|p| - 1] == y
  }

  /** In the input M, the pair (x, y) can route through a vertex with a negative diagonal entry. */
  ghost predicate Tainted(M: Matrix, x: nat, y: nat, n: nat)
    requires IsSquare(M, n)
  {
    exists u :: 0 <= u < n && M[u][u] < 0 && Reaches(M, x, u, n) && Reaches(M, u, y, n)
  }

  /** Every cell in which D differs from the input M is tainted in M. */
  ghost predicate Explained(M: Matrix, D: Matrix, n: nat)
    requires IsSquare(M, n) && IsSquare(D, n)
  {
    forall x, y :: 0 <= x < n && 0 <= y < n && D[x][y] != M[x][y] ==> Tainted(M, x, y, n)
  }

  lemma ReachesEdge(M: Matrix, x: nat, y: nat, n: nat)
    requires IsSquare(M, n) && x < n && y < n && M[x][y] != NoEdge
    ensures Reaches(M, x, y, n)
  {
    assert IsWalk(M, [x, y], n);
  }

  lemma ReachesJoin(M: Matrix, x: nat, y: nat, z: nat, n: nat)
    requires IsSquare(M, n) && Reaches(M, x, y, n) && Reaches(M, y, z, n)
    ensures Reaches(M, x, z, n)
  {
    var p :| IsWalk(M, p, n) && p[0] == x && p[|p| - 1] == y;
    var q :| IsWalk(M, q, n) && q[0] == y && q[|q| - 1] == z;
    var r := p + q[1..];
    forall t | 0 <= t < |r| - 1
      ensures M[r[t]][r[t + 1]] != NoEdge
    {
      if t < |p| - 1 {
      } else {
        assert r[t] == q[t - |p| + 1] && r[t + 1] == q[t - |p| + 2];
      }
    }
    assert IsWalk(M, r, n);
  }

  /** A finite cell of an explained D is a route of the input graph. */
  lemma FiniteReaches(M: Matrix, D: Matrix, x: nat, y: nat, n: nat)
    requires IsSquare(M, n) && IsSquare(D, n) && x < n && y < n
    requires OnlyMarks(M, D, n) && Explained(M, D, n) && D[x][y] != NoEdge
    ensures Reaches(M, x, y, n)
  {
    if D[x][y] == M[x][y] {
      ReachesEdge(M, x, y, n);
    } else {
      var u :| 0 <= u < n && M[u][u] < 0 && Reaches(M, x, u, n) && Reaches(M, u, y, n);
      ReachesJoin(M, x, u, y, n);
    }
  }

  /** A sweep through a vertex v with D[v][v] < 0 marks only tainted cells. */
  lemma SweepExplained(M: Matrix, D: Matrix, v: nat, n: nat)
    requires IsSquare(M, n) && IsSquare(D, n) && v < n && D[v][v] < 0
    requires OnlyMarks(M, D, n) && Explained(M, D, n)
    ensures Explained(M, Sweep(D, v, n), n)
  {
    var E := Sweep(D, v, n);
    forall x, y | 0 <= x < n && 0 <= y < n && E[x][y] != M[x][y]
      ensures Tainted(M, x, y, n)
    {
      if E[x][y] != D[x][y] {
        FiniteReaches(M, D, x, v, n);
        FiniteReaches(M, D, v, y, n);
        if D[v][v] == M[v][v] {
          assert M[v][v] < 0 && Reaches(M, x, v, n) && Reaches(M, v, y, n);
        } else {
          var u :| 0 <= u < n && M[u][u] < 0 && Reaches(M, v, u, n) && Reaches(M, u, v, n);
          ReachesJoin(M, x, v, u, n);
          ReachesJoin(M, u, v, y, n);
        }
      }
    }
  }

  lemma {:induction false} CheckedThroughExplained(M: Matrix, w: nat, n: nat)
    requires IsSquare(M, n) && w <= n
    ensures Explained(M, CheckedThrough(M, w, n), n)
  {
    if w > 0 {
      var p := w - 1;
      var D := CheckedThrough(M, p, n);
      CheckedThroughExplained(M, p, n);
      if D[p][p] < 0 {
        LaterOnlyMarks(M, 0, p, n);
        SweepExplained(M, D, p, n);
      }
    }
  }

  /**
    * The converse of CorrectedMarksSpoiled, stated on the input: a cell
    * that changed is marked, and in the input graph i reaches a vertex u
    * with a negative diagonal entry that reaches j.
    */
  lemma CorrectedMarksOnlySpoiled(M: Matrix, i: nat, j: nat, n: nat)
    requires IsSquare(M, n) && i < n && j < n
    requires Corrected(M, n)[i][j] != M[i][j]
    ensures Corrected(M, n)[i][j] == NegativeInfinity
    ensures Tainted(M, i, j, n)
  {
    CorrectedOnlyMarks(M, n);
    CheckedThroughExplained(M, n, n);
  }

  /** A walk that leaves a vertex i with no finite entry to another vertex stays at i. */
  lemma {:induction false} WalkStaysFrom(M: Matrix, p: seq<nat>, i: nat, n: nat)
    requires IsSquare(M, n) && i < n && IsWalk(M, p, n) && p[0] == i
    requires forall x :: 0 <= x < n && x != i ==> M[i][x] == NoEdge
    ensures p[|p| - 1] == i
    decreases |p|
  {
    if |p| > 1 {
      var q := p[..|p| - 1];
      assert IsWalk(M, q, n);
      WalkStaysFrom(M, q, i, n);
      assert M[p[|p| - 2]][p[|p| - 1]] != NoEdge;
    }
  }

  /** A walk that enters a vertex i with no finite entry from another vertex started at i. */
  lemma {:induction false} WalkStaysInto(M: Matrix, p: seq<nat>, i: nat, n: nat)
    requires IsSquare(M, n) && i < n && IsWalk(M, p, n) && p[|p| - 1] == i
    requires forall x :: 0 <= x < n && x != i ==> M[x][i] == NoEdge
    ensures p[0] == i
    decreases |p|
  {
    if |p| > 1 {
      var q := p[1..];
      assert IsWalk(M, q, n) by {
        forall t | 0 <= t < |q| - 1
          ensures M[q[t]][q[t + 1]] != NoEdge
        {
          assert q[t] == p[t + 1] && q[t + 1] == p[t + 2];
        }
      }
      WalkStaysInto(M, q, i, n);
      assert M[p[0]][p[1]] != NoEdge;
    }
  }

  /**
    * A vertex i with no negative cycle and no edge to any other vertex
    * keeps its whole row: nothing it can reach lies on a negative cycle.
    */
  lemma CorrectedKeepsRowOfSink(M: Matrix, i: nat, n: nat)
    requires IsSquare(M, n) && i < n && 0 <= M[i][i]
    requires forall x :: 0 <= x < n && x != i ==> M[i][x] == NoEdge
    ensures forall x :: 0 <= x < n ==> Corrected(M, n)[i][x] == M[i][x]
  {
    forall x | 0 <= x < n
      ensures Corrected(M, n)[i][x] == M[i][x]
    {
      if Corrected(M, n)[i][x] != M[i][x] {
        CorrectedMarksOnlySpoiled(M, i, x, n);
        var u :| 0 <= u < n && M[u][u] < 0 && Reaches(M, i, u, n) && Reaches(M, u, x, n);
        var p :| IsWalk(M, p, n) && p[0] == i && p[|p| - 1] == u;
        WalkStaysFrom(M, p, i, n);
        assert false;
      }
    }
  }

  /** The mirror image: a vertex with no edge from any other vertex keeps its whole column. */
  lemma CorrectedKeepsColumnOfSource(M: Matrix, i: nat, n: nat)
    requires IsSquare(M, n) && i < n && 0 <= M[i][i]
    requires forall x :: 0 <= x < n && x != i ==> M[x][i] == NoEdge
    ensures forall x :: 0 <= x < n ==> Corrected(M, n)[x][i] == M[x][i]
  {
    forall x | 0 <= x < n
      ensures Corrected(M, n)[x][i] == M[x][i]
    {
      if Corrected(M, n)[x][i] != M[x][i] {
        CorrectedMarksOnlySpoiled(M, x, i, n);
        var u :| 0 <= u < n && M[u][u] < 0 && Reaches(M, x, u, n) && Reaches(M, u, i, n);
        var p :| IsWalk(M, p, n) && p[0] == u && p[|p| - 1] == i;
        WalkStaysInto(M, p, i, n);
        assert false;
      }
    }
  }
}
