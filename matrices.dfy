// Square matrices of the engine: the distance matrix, the renewal
// (predecessor) matrix, and the `copyOf` / `prepareRenewMatrix` helpers.

module Matrices {
  import opened Saturating

  /** A distance matrix as a value: row i, column j holds the weight i -> j. */
  type Matrix = seq<seq<int32>>

  /** A renewal matrix as a value: a vertex index, or NoPredecessor. */
  type Renewal = seq<seq<int>>

  /** The renewal-matrix marker for "the direct edge is still the best route". */
  const NoPredecessor: int := -1

  /** The distance-matrix marker for "no edge": the largest int32. */
  const NoEdge: int32 := MaxInt32

  predicate IsSquare<T>(M: seq<seq<T>>, n: nat)
  {
    |M| == n && forall i :: 0 <= i < n ==> |M[i]| == n
  }

  /** The contents of a two-dimensional array, row by row. */
  function Snapshot<T>(a: array2<T>): (M: seq<seq<T>>)
    reads a
    ensures |M| == a.Length0
    ensures forall i :: 0 <= i < a.Length0 ==> |M[i]| == a.Length1
    ensures forall i, j :: 0 <= i < a.Length0 && 0 <= j < a.Length1 ==> M[i][j] == a[i, j]
  {
    seq(a.Length0, i requires 0 <= i < a.Length0 reads a =>
      seq(a.Length1, j requires 0 <= j < a.Length1 reads a => a[i, j]))
  }

  /** Two square matrices with the same entries are the same value. */
  lemma SameEntries<T>(A: seq<seq<T>>, B: seq<seq<T>>, n: nat)
    requires IsSquare(A, n) && IsSquare(B, n)
    requires forall i, j :: 0 <= i < n && 0 <= j < n ==> A[i][j] == B[i][j]
    ensures A == B
  {
    forall i | 0 <= i < n
      ensures A[i] == B[i]
    {
    }
  }

  /** Every entry of X is at most the entry of Y in the same cell. */
  predicate Below(X: Matrix, Y: Matrix, n: nat)
    requires IsSquare(X, n) && IsSquare(Y, n)
  {
    forall i, j :: 0 <= i < n && 0 <= j < n ==> X[i][j] <= Y[i][j]
  }

  /** The triangle inequality through every vertex k < m, for all pairs i, j < n. */
  predicate ClosedThrough(M: Matrix, m: nat, n: nat)
    requires IsSquare(M, n) && m <= n
  {
    forall i, j, k :: 0 <= i < n && 0 <= j < n && 0 <= k < m ==> M[i][j] <= Sum(M[i][k], M[k][j])
  }

  /** No route through a third vertex is shorter than the recorded distance. */
  predicate TriangleClosed(M: Matrix, n: nat)
    requires IsSquare(M, n)
  {
    ClosedThrough(M, n, n)
  }

  /** No vertex has a negative-weight route back to itself. */
  predicate NonNegativeDiagonal(M: Matrix, n: nat)
    requires IsSquare(M, n)
  {
    forall v :: 0 <= v < n ==> 0 <= M[v][v]
  }

  /** The renewal matrix before any relaxation: every cell NoPredecessor. */
  function NoPredecessors(n: nat): (R: Renewal)
    ensures IsSquare(R, n)
    ensures forall i, j :: 0 <= i < n && 0 <= j < n ==> R[i][j] == NoPredecessor
  {
    seq(n, i => seq(n, j => NoPredecessor))
  }

  /**
    * copyOf: a size x size matrix with the entries of `matrix`, in storage
    * of its own, so that later updates of the copy leave `matrix` alone.
    */
  method CopyOf(matrix: array2<int32>, size: nat) returns (copy: array2<int32>)
    requires matrix.Length0 == size && matrix.Length1 == size
    ensures fresh(copy)
    ensures copy.Length0 == size && copy.Length1 == size
    ensures Snapshot(copy) == Snapshot(matrix)
  {
    copy := new int32[size, size];
    var i := 0;
    while i < size
      invariant 0 <= i <= size
      invariant forall x, y :: 0 <= x < i && 0 <= y < size ==> copy[x, y] == matrix[x, y]
    {
      var j := 0;
      while j < size
        invariant 0 <= j <= size
        invariant forall x, y :: 0 <= x < i && 0 <= y < size ==> copy[x, y] == matrix[x, y]
        invariant forall y :: 0 <= y < j ==> copy[i, y] == matrix[i, y]
      {
        copy[i, j] := matrix[i, j];
        j := j + 1;
      }
      i := i + 1;
    }
    SameEntries(Snapshot(copy), Snapshot(matrix), size);
  }

  /**
    * prepareRenewMatrix: a fresh size x size renewal matrix with every cell
    * NoPredecessor. prepareRenewMatrix hands the same matrix back both through
    * its reference parameter and as its result; here it is the one
    * out-parameter.
    */
  method PrepareRenewMatrix(size: nat) returns (renewMatrix: array2<int>)
    ensures fresh(renewMatrix)
    ensures renewMatrix.Length0 == size && renewMatrix.Length1 == size
    ensures Snapshot(renewMatrix) == NoPredecessors(size)
  {
    renewMatrix := new int[size, size];
    var i := 0;
    while i < size
      invariant 0 <= i <= size
      invariant forall x, y :: 0 <= x < i && 0 <= y < size ==> renewMatrix[x, y] == NoPredecessor
    {
      var j := 0;
      while j < size
        invariant 0 <= j <= size
        invariant forall x, y :: 0 <= x < i && 0 <= y < size ==> renewMatrix[x, y] == NoPredecessor
        invariant forall y :: 0 <= y < j ==> renewMatrix[i, y] == NoPredecessor
      {
        renewMatrix[i, j] := NoPredecessor;
        j := j + 1;
      }
      i := i + 1;
    }
    SameEntries(Snapshot(renewMatrix), NoPredecessors(size), size);
  }
}
