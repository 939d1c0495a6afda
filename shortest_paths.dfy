// shortestPathsByFloyd and shortestPathsByDantzig: each raw engine followed
// by negativeLoopCheck on its distance matrix, and what the two engines
// have in common.

module ShortestPaths {
  import opened Saturating
  import opened Matrices
  import Floyd
  import Dantzig
  import opened NegativeLoop

  /**
    * shortestPathsByFloyd: the Floyd engine, then the negative-cycle pass on
    * its distances. The renewal matrix is the engine's.
    */
  method ShortestPathsByFloyd(D0: array2<int32>, n: nat) returns (D: array2<int32>, renewMatrix: array2<int>)
    requires D0.Length0 == n && D0.Length1 == n
    ensures fresh(D) && fresh(renewMatrix)
    ensures D.Length0 == n && D.Length1 == n && renewMatrix.Length0 == n && renewMatrix.Length1 == n
    ensures Snapshot(D) == Corrected(Floyd.Floyd(Snapshot(D0), n).dist, n)
    ensures Snapshot(renewMatrix) == Floyd.Floyd(Snapshot(D0), n).renew
  {
    D, renewMatrix := Floyd.ShortestPathsByFloydWithoutNegativeLoopCheck(D0, n);
    NegativeLoopCheck(D, n);
  }

  /** shortestPathsByDantzig: the same composition around the Dantzig engine. */
  method ShortestPathsByDantzig(D0: array2<int32>, n: nat) returns (D: array2<int32>, renewMatrix: array2<int>)
    requires D0.Length0 == n && D0.Length1 == n
    ensures fresh(D) && fresh(renewMatrix)
    ensures D.Length0 == n && D.Length1 == n && renewMatrix.Length0 == n && renewMatrix.Length1 == n
    ensures Snapshot(D) == Corrected(Dantzig.Dantzig(Snapshot(D0), n).dist, n)
    ensures Snapshot(renewMatrix) == Dantzig.Dantzig(Snapshot(D0), n).renew
  {
    D, renewMatrix := Dantzig.ShortestPathsByDantzigWithoutNegativeLoopCheck(D0, n);
    NegativeLoopCheck(D, n);
  }

  // ---------------------------------------------------------------------
  // The two engines agree

  /**
    * Both engines lie above the Floyd result wherever it is closed, so the
    * Dantzig result is at least the Floyd one, cell by cell.
    */
  lemma DantzigAboveFloyd(D0: Matrix, n: nat)
    requires IsSquare(D0, n) && NonNegativeDiagonal(Floyd.Floyd(D0, n).dist, n)
    ensures Below(Floyd.Floyd(D0, n).dist, Dantzig.Dantzig(D0, n).dist, n)
  {
    var F := Floyd.Floyd(D0, n).dist;
    Floyd.FloydClosed(D0, n);
    Floyd.FloydBelowInput(D0, n);
    Dantzig.DantzigGreatest(D0, F, n);
  }

  /** The mirror image: a closed Dantzig result lies below the Floyd one. */
  lemma FloydAboveDantzig(D0: Matrix, n: nat)
    requires IsSquare(D0, n) && NonNegativeDiagonal(Dantzig.Dantzig(D0, n).dist, n)
    ensures Below(Dantzig.Dantzig(D0, n).dist, Floyd.Floyd(D0, n).dist, n)
  {
    var Z := Dantzig.Dantzig(D0, n).dist;
    Dantzig.DantzigClosed(D0, n);
    Dantzig.DantzigBelowInput(D0, n);
    Floyd.FloydGreatest(D0, Z, n);
  }

  /** The engines see a negative-weight cycle on exactly the same inputs. */
  lemma SameNegativeCycles(D0: Matrix, n: nat)
    requires IsSquare(D0, n)
    ensures NonNegativeDiagonal(Floyd.Floyd(D0, n).dist, n) <==> NonNegativeDiagonal(Dantzig.Dantzig(D0, n).dist, n)
  {
    var F, Z := Floyd.Floyd(D0, n).dist, Dantzig.Dantzig(D0, n).dist;
    if NonNegativeDiagonal(F, n) {
      DantzigAboveFloyd(D0, n);
      assert forall v :: 0 <= v < n ==> F[v][v] <= Z[v][v];
    }
    if NonNegativeDiagonal(Z, n) {
      FloydAboveDantzig(D0, n);
      assert forall v :: 0 <= v < n ==> Z[v][v] <= F[v][v];
    }
  }

  /** On inputs without negative-weight cycles the two engines report the same distances. */
  lemma EnginesAgree(D0: Matrix, n: nat)
    requires IsSquare(D0, n) && NonNegativeDiagonal(Floyd.Floyd(D0, n).dist, n)
    ensures Dantzig.Dantzig(D0, n).dist == Floyd.Floyd(D0, n).dist
  {
    var F, Z := Floyd.Floyd(D0, n).dist, Dantzig.Dantzig(D0, n).dist;
    SameNegativeCycles(D0, n);
    DantzigAboveFloyd(D0, n);
    FloydAboveDantzig(D0, n);
    SameEntries(Z, F, n);
  }

  /**
    * Without negative-weight cycles the composed entry points return the raw
    * engine distances untouched, and both return the same matrix.
    */
  lemma CycleFreeResults(D0: Matrix, n: nat)
    requires IsSquare(D0, n) && NonNegativeDiagonal(Floyd.Floyd(D0, n).dist, n)
    ensures Corrected(Floyd.Floyd(D0, n).dist, n) == Floyd.Floyd(D0, n).dist
    ensures Corrected(Dantzig.Dantzig(D0, n).dist, n) == Floyd.Floyd(D0, n).dist
  {
    EnginesAgree(D0, n);
    CorrectedIdentity(Floyd.Floyd(D0, n).dist, n);
  }
}
