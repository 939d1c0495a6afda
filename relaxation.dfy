// The relaxation step shared by both engines (`relaxPath`), and what any
// sequence of such steps does to the distance and renewal matrices.

module Relaxation {
  import opened Saturating
  import opened Matrices

  /** relaxPath(from, through, to, ...): try the route from -> through -> to. */
  datatype Step = Step(from: nat, through: nat, to: nat)

  /** The two matrices an engine works on: distances and the renewal matrix. */
  datatype Tables = Tables(dist: Matrix, renew: Renewal)

  predicate Shaped(T: Tables, n: nat)
  {
    IsSquare(T.dist, n) && IsSquare(T.renew, n)
  }

  predicate Fits(s: Step, n: nat)
  {
    s.from < n && s.through < n && s.to < n
  }

  /** The tables an engine starts from: a copy of D0 and an untouched renewal matrix. */
  function Initial(D0: Matrix, n: nat): (T: Tables)
    ensures IsSquare(D0, n) ==> Shaped(T, n)
  {
    Tables(D0, NoPredecessors(n))
  }

  /**
    * One relaxation: when the saturated sum D[from][through] + D[through][to]
    * is strictly smaller than D[from][to], that cell takes the sum and the
    * renewal cell records `through`; no other cell changes. A step naming a
    * vertex outside 0 .. n - 1, or tables that are not n x n, change nothing
    * (the engines never meet either).
    */
  function Relax(T: Tables, s: Step, n: nat): (r: Tables)
    ensures Shaped(T, n) ==> Shaped(r, n)
    ensures Shaped(T, n) && Fits(s, n) ==>
              r.dist[s.from][s.to] == Min(T.dist[s.from][s.to], Sum(T.dist[s.from][s.through], T.dist[s.through][s.to]))
    ensures Shaped(T, n) && Fits(s, n) ==>
              r.renew[s.from][s.to] ==
                if Sum(T.dist[s.from][s.through], T.dist[s.through][s.to]) < T.dist[s.from][s.to]
                then s.through else T.renew[s.from][s.to]
    ensures Shaped(T, n) ==> forall i, j {:trigger r.dist[i][j]} :: 0 <= i < n && 0 <= j < n && (i != s.from || j != s.to) ==>
              r.dist[i][j] == T.dist[i][j]
    ensures Shaped(T, n) ==> forall i, j {:trigger r.renew[i][j]} :: 0 <= i < n && 0 <= j < n && (i != s.from || j != s.to) ==>
              r.renew[i][j] == T.renew[i][j]
  {
    if !Fits(s, n) || !Shaped(T, n) then T
    else
      var candidate := Sum(T.dist[s.from][s.through], T.dist[s.through][s.to]);
      if candidate < T.dist[s.from][s.to] then
        Tables(T.dist[s.from := T.dist[s.from][s.to := candidate]],
               T.renew[s.from := T.renew[s.from][s.to := s.through as int]])
      else
        T
  }

  /** The tables after the given relaxation steps, applied in order. */
  function Run(T: Tables, steps: seq<Step>, n: nat): (r: Tables)
    ensures Shaped(T, n) ==> Shaped(r, n)
    decreases |steps|
  {
    if steps == [] then T
    else
      var last := |steps| - 1;
      Relax(Run(T, steps[..last], n), steps[last], n)
  }

  /** The arrays D and P hold the distance and renewal matrices of T. */
  predicate Holds(D: array2<int32>, P: array2<int>, T: Tables, n: nat)
    reads D, P
    requires Shaped(T, n) && D.Length0 == D.Length1 == P.Length0 == P.Length1 == n
  {
    forall x, y :: 0 <= x < n && 0 <= y < n ==> D[x, y] == T.dist[x][y] && P[x, y] == T.renew[x][y]
  }

  /** Arrays that read back as the tables T hold T. */
  lemma HoldsInitial(D: array2<int32>, P: array2<int>, D0: Matrix, n: nat)
    requires D.Length0 == D.Length1 == P.Length0 == P.Length1 == n
    requires Snapshot(D) == D0 && Snapshot(P) == NoPredecessors(n)
    ensures Shaped(Initial(D0, n), n) && Holds(D, P, Initial(D0, n), n)
  {
  }

  /** Arrays that hold T read back as T. */
  lemma HoldsSnapshot(D: array2<int32>, P: array2<int>, T: Tables, n: nat)
    requires Shaped(T, n) && D.Length0 == D.Length1 == P.Length0 == P.Length1 == n
    requires Holds(D, P, T, n)
    ensures Tables(Snapshot(D), Snapshot(P)) == T
  {
    SameEntries(Snapshot(D), T.dist, n);
    SameEntries(Snapshot(P), T.renew, n);
  }

  /**
    * relaxPath: the in-place step on the two matrices, which hold T before
    * and the relaxed tables after. D and P have different element types, so
    * they cannot be the same array.
    */
  method RelaxPath(from: nat, through: nat, to: nat, D: array2<int32>, P: array2<int>, ghost T: Tables)
    requires Shaped(T, D.Length0) && D.Length0 == D.Length1 == P.Length0 == P.Length1
    requires Holds(D, P, T, D.Length0)
    requires from < D.Length0 && through < D.Length0 && to < D.Length0
    modifies D, P
    ensures Holds(D, P, Relax(T, Step(from, through, to), D.Length0), D.Length0)
  {
    var candidate := Sum(D[from, through], D[through, to]);
    if candidate < D[from, to] {
      D[from, to] := candidate;
      P[from, to] := through;
    }
  }

  // ---------------------------------------------------------------------
  // Running sequences of steps

  lemma RunSnoc(T: Tables, steps: seq<Step>, s: Step, n: nat)
    ensures Run(T, steps + [s], n) == Relax(Run(T, steps, n), s, n)
  {
    assert (steps + [s])[..|steps|] == steps;
  }

  /** Running a + b is running a, then b. */
  lemma {:induction false} RunAppend(T: Tables, a: seq<Step>, b: seq<Step>, n: nat)
    ensures Run(T, a + b, n) == Run(Run(T, a, n), b, n)
    decreases |b|
  {
    if b == [] {
      assert a + b == a;
    } else {
      var b' := b[..|b| - 1];
      var s := b[|b| - 1];
      assert b == b' + [s];
      assert a + b == (a + b') + [s];
      RunAppend(T, a, b', n);
      RunSnoc(T, a + b', s, n);
      RunSnoc(Run(T, a, n), b', s, n);
    }
  }

  /** Running a and then b from where a ended is running a + b. */
  lemma RunThen(T: Tables, a: seq<Step>, b: seq<Step>, U: Tables, V: Tables, n: nat)
    requires Run(T, a, n) == U && Run(U, b, n) == V
    ensures Run(T, a + b, n) == V
  {
    RunAppend(T, a, b, n);
  }

  /** Relaxation never raises a distance. */
  lemma {:induction false} RunBelow(T: Tables, steps: seq<Step>, n: nat)
    requires Shaped(T, n)
    ensures Below(Run(T, steps, n).dist, T.dist, n)
    decreases |steps|
  {
    if steps != [] {
      RunBelow(T, steps[..|steps| - 1], n);
    }
  }

  /**
    * Relaxation never goes below a matrix X that obeys the triangle
    * inequality and lies below the starting distances: every candidate sum
    * is at least the matching entry of X.
    */
  lemma {:induction false} RunAbove(X: Matrix, T: Tables, steps: seq<Step>, n: nat)
    requires Shaped(T, n) && IsSquare(X, n)
    requires TriangleClosed(X, n) && Below(X, T.dist, n)
    ensures Below(X, Run(T, steps, n).dist, n)
    decreases |steps|
  {
    if steps != [] {
      var last := |steps| - 1;
      var s := steps[last];
      var U := Run(T, steps[..last], n);
      RunAbove(X, T, steps[..last], n);
      if Fits(s, n) {
        SumMonotone(X[s.from][s.through], X[s.through][s.to], U.dist[s.from][s.through], U.dist[s.through][s.to]);
      }
    }
  }

  /** A cell that no step targets keeps its distance and its renewal entry. */
  lemma {:induction false} RunUntouched(T: Tables, steps: seq<Step>, n: nat, x: nat, y: nat)
    requires Shaped(T, n) && x < n && y < n
    requires forall t :: 0 <= t < |steps| ==> steps[t].from != x || steps[t].to != y
    ensures Run(T, steps, n).dist[x][y] == T.dist[x][y]
    ensures Run(T, steps, n).renew[x][y] == T.renew[x][y]
    decreases |steps|
  {
    if steps != [] {
      RunUntouched(T, steps[..|steps| - 1], n, x, y);
    }
  }

  // ---------------------------------------------------------------------
  // The renewal matrix

  /**
    * What a renewal cell tells about its distance cell: NoPredecessor means
    * the distance is still the direct entry of D0; a vertex k means the
    * distance was lowered below D0 and is at least the route through k.
    */
  predicate RenewEntrySound(D0: Matrix, T: Tables, n: nat, i: nat, j: nat)
    requires IsSquare(D0, n) && Shaped(T, n) && i < n && j < n
  {
    var k := T.renew[i][j];
    if k == NoPredecessor then T.dist[i][j] == D0[i][j]
    else 0 <= k < n && T.dist[i][j] < D0[i][j] && Sum(T.dist[i][k], T.dist[k][j]) <= T.dist[i][j]
  }

  predicate RenewSound(D0: Matrix, T: Tables, n: nat)
    requires IsSquare(D0, n) && Shaped(T, n)
  {
    Below(T.dist, D0, n) &&
    forall i, j :: 0 <= i < n && 0 <= j < n ==> RenewEntrySound(D0, T, n, i, j)
  }

  lemma InitialRenewSound(D0: Matrix, n: nat)
    requires IsSquare(D0, n)
    ensures RenewSound(D0, Initial(D0, n), n)
  {
  }

  lemma RelaxKeepsRenewSound(D0: Matrix, T: Tables, s: Step, n: nat)
    requires IsSquare(D0, n) && Shaped(T, n)
    requires RenewSound(D0, T, n)
    ensures RenewSound(D0, Relax(T, s, n), n)
  {
    var U := Relax(T, s, n);
    forall i, j | 0 <= i < n && 0 <= j < n
      ensures RenewEntrySound(D0, U, n, i, j)
    {
      var k := U.renew[i][j];
      if k != NoPredecessor {
        assert 0 <= k < n by {
          assert RenewEntrySound(D0, T, n, i, j);
        }
        SumMonotone(U.dist[i][k], U.dist[k][j], T.dist[i][k], T.dist[k][j]);
        assert RenewEntrySound(D0, T, n, i, j);
      } else {
        assert RenewEntrySound(D0, T, n, i, j);
      }
    }
  }

  /**
    * Whatever steps run from the initial tables, the renewal matrix stays
    * sound: it can be read back to tell direct distances from improved ones.
    */
  lemma {:induction false} RunRenewSound(D0: Matrix, steps: seq<Step>, n: nat)
    requires IsSquare(D0, n)
    ensures RenewSound(D0, Run(Initial(D0, n), steps, n), n)
    decreases |steps|
  {
    if steps == [] {
      InitialRenewSound(D0, n);
    } else {
      var last := |steps| - 1;
      RunRenewSound(D0, steps[..last], n);
      RelaxKeepsRenewSound(D0, Run(Initial(D0, n), steps[..last], n), steps[last], n);
    }
  }

  // ---------------------------------------------------------------------
  // Relaxing every pair through one vertex

  /** Row i of a pass through k: the steps (i, k, 0), ..., (i, k, j - 1). */
  function RowSteps(i: nat, k: nat, j: nat): (r: seq<Step>)
    ensures |r| == j
    ensures forall t :: 0 <= t < j ==> r[t] == Step(i, k, t)
  {
    if j == 0 then [] else RowSteps(i, k, j - 1) + [Step(i, k, j - 1)]
  }

  /** Rows 0 .. i - 1 of a pass through k over the columns 0 .. w - 1. */
  function PassSteps(k: nat, i: nat, w: nat): (r: seq<Step>)
    ensures forall t :: 0 <= t < |r| ==> r[t].from < i && r[t].through == k && r[t].to < w
  {
    if i == 0 then [] else PassSteps(k, i - 1, w) + RowSteps(i - 1, k, w)
  }

  /**
    * U is T after a pass through k over the w x w corner has reached cell
    * (i, j): every cell of the corner before (i, j) in row-major order holds the smaller of its
    * old value and the route through k, and every other cell is untouched.
    */
  predicate PassedUpTo(T: Tables, U: Tables, k: nat, w: nat, i: nat, j: nat, n: nat)
    requires Shaped(T, n) && Shaped(U, n) && k < n
  {
    forall x, y {:trigger U.dist[x][y]} :: 0 <= x < n && 0 <= y < n ==>
      U.dist[x][y] ==
        if x < w && y < w && (x < i || (x == i && y < j)) then Min(T.dist[x][y], Sum(T.dist[x][k], T.dist[k][y]))
        else T.dist[x][y]
  }

  lemma {:induction false} RowThrough(T: Tables, U: Tables, k: nat, w: nat, i: nat, j: nat, n: nat)
    requires Shaped(T, n) && Shaped(U, n) && k < n && i < w <= n && j <= w
    requires w <= k || 0 <= T.dist[k][k]
    requires PassedUpTo(T, U, k, w, i, 0, n)
    ensures PassedUpTo(T, Run(U, RowSteps(i, k, j), n), k, w, i, j, n)
    decreases j
  {
    if j > 0 {
      var y := j - 1;
      RowThrough(T, U, k, w, i, y, n);
      var V := Run(U, RowSteps(i, k, y), n);
      RunSnoc(U, RowSteps(i, k, y), Step(i, k, y), n);
      assert RowSteps(i, k, j) == RowSteps(i, k, y) + [Step(i, k, y)];
      PassStep(T, V, k, w, i, y, n);
    }
  }

  /** One more step of a pass through k, at cell (i, y). */
  lemma PassStep(T: Tables, V: Tables, k: nat, w: nat, i: nat, y: nat, n: nat)
    requires Shaped(T, n) && Shaped(V, n) && k < n && i < w <= n && y < w
    requires w <= k || 0 <= T.dist[k][k]
    requires PassedUpTo(T, V, k, w, i, y, n)
    ensures PassedUpTo(T, Relax(V, Step(i, k, y), n), k, w, i, y + 1, n)
  {
    // The two cells the step reads are still as they were in T.
    PassedAt(T, V, k, w, i, y, n, i, k);
    PassedAt(T, V, k, w, i, y, n, k, y);
    if k < w {
      SumNonNegative(T.dist[i][k], T.dist[k][k]);
      SumNonNegative(T.dist[k][y], T.dist[k][k]);
    }
    var W := Relax(V, Step(i, k, y), n);
    forall x, z | 0 <= x < n && 0 <= z < n
      ensures W.dist[x][z] ==
                if x < w && z < w && (x < i || (x == i && z < y + 1)) then Min(T.dist[x][z], Sum(T.dist[x][k], T.dist[k][z]))
                else T.dist[x][z]
    {
      PassedAt(T, V, k, w, i, y, n, x, z);
    }
  }

  lemma PassedAt(T: Tables, U: Tables, k: nat, w: nat, i: nat, j: nat, n: nat, x: nat, y: nat)
    requires Shaped(T, n) && Shaped(U, n) && k < n && x < n && y < n
    requires PassedUpTo(T, U, k, w, i, j, n)
    ensures U.dist[x][y] ==
              if x < w && y < w && (x < i || (x == i && y < j)) then Min(T.dist[x][y], Sum(T.dist[x][k], T.dist[k][y]))
              else T.dist[x][y]
  {
  }

  lemma {:induction false} PassThrough(T: Tables, k: nat, w: nat, i: nat, n: nat)
    requires Shaped(T, n) && k < n && i <= w <= n
    requires w <= k || 0 <= T.dist[k][k]
    ensures PassedUpTo(T, Run(T, PassSteps(k, i, w), n), k, w, i, 0, n)
    decreases i
  {
    if i > 0 {
      PassThrough(T, k, w, i - 1, n);
      RowAfterRows(T, k, w, i, n);
    }
  }

  /** Completing row i - 1 of a pass through k: from its start to the start of row i. */
  lemma RowAfterRows(T: Tables, k: nat, w: nat, i: nat, n: nat)
    requires Shaped(T, n) && k < n && 0 < i <= w <= n
    requires w <= k || 0 <= T.dist[k][k]
    requires PassedUpTo(T, Run(T, PassSteps(k, i - 1, w), n), k, w, i - 1, 0, n)
    ensures PassedUpTo(T, Run(T, PassSteps(k, i, w), n), k, w, i, 0, n)
  {
    var U := Run(T, PassSteps(k, i - 1, w), n);
    var V := Run(U, RowSteps(i - 1, k, w), n);
    RowThrough(T, U, k, w, i - 1, w, n);
    NextRow(T, V, k, w, i, n);
    PassNextRow(T, k, w, i, n);
  }

  /** A pass over rows 0 .. i - 1 is the pass over rows 0 .. i - 2, then row i - 1. */
  lemma PassNextRow(T: Tables, k: nat, w: nat, i: nat, n: nat)
    requires 0 < i
    ensures Run(T, PassSteps(k, i, w), n) == Run(Run(T, PassSteps(k, i - 1, w), n), RowSteps(i - 1, k, w), n)
  {
    RunAppend(T, PassSteps(k, i - 1, w), RowSteps(i - 1, k, w), n);
  }

  /** Reaching the end of row i - 1 is reaching the start of row i. */
  lemma NextRow(T: Tables, U: Tables, k: nat, w: nat, i: nat, n: nat)
    requires Shaped(T, n) && Shaped(U, n) && k < n && 0 < i
    requires PassedUpTo(T, U, k, w, i - 1, w, n)
    ensures PassedUpTo(T, U, k, w, i, 0, n)
  {
    forall x, z | 0 <= x < n && 0 <= z < n
      ensures U.dist[x][z] ==
                if x < w && z < w && x < i then Min(T.dist[x][z], Sum(T.dist[x][k], T.dist[k][z]))
                else T.dist[x][z]
    {
      PassedAt(T, U, k, w, i - 1, w, n, x, z);
    }
  }

  /**
    * When k lies outside the corner, or its own distance is not negative, a
    * whole pass through k over the w x w corner acts as if every cell were
    * updated at once from the old values: row k and column k do not move.
    */
  lemma RelaxedThrough(T: Tables, k: nat, w: nat, n: nat)
    requires Shaped(T, n) && k < n && w <= n
    requires w <= k || 0 <= T.dist[k][k]
    ensures forall x, y :: 0 <= x < n && 0 <= y < n ==>
              PassRun(T, k, w, w, n).dist[x][y] ==
                if x < w && y < w then Min(T.dist[x][y], Sum(T.dist[x][k], T.dist[k][y]))
                else T.dist[x][y]
  {
    PassThrough(T, k, w, w, n);
    PassRunIsRun(T, k, w, w, n);
  }

  /** Row i of a pass through k, relaxed cell by cell: RowSteps(i, k, j) as a recursion. */
  function RowRun(T: Tables, i: nat, k: nat, j: nat, n: nat): (r: Tables)
    ensures Shaped(T, n) ==> Shaped(r, n)
  {
    if j == 0 then T else Relax(RowRun(T, i, k, j - 1, n), Step(i, k, j - 1), n)
  }

  /** Rows 0 .. i - 1 of a pass through k, row by row: PassSteps(k, i, w) as a recursion. */
  function PassRun(T: Tables, k: nat, i: nat, w: nat, n: nat): (r: Tables)
    ensures Shaped(T, n) ==> Shaped(r, n)
  {
    if i == 0 then T else RowRun(PassRun(T, k, i - 1, w, n), i - 1, k, w, n)
  }

  lemma {:induction false} RowRunIsRun(T: Tables, i: nat, k: nat, j: nat, n: nat)
    ensures RowRun(T, i, k, j, n) == Run(T, RowSteps(i, k, j), n)
  {
    if j > 0 {
      RowRunIsRun(T, i, k, j - 1, n);
      RunSnoc(T, RowSteps(i, k, j - 1), Step(i, k, j - 1), n);
    }
  }

  lemma {:induction false} PassRunIsRun(T: Tables, k: nat, i: nat, w: nat, n: nat)
    ensures PassRun(T, k, i, w, n) == Run(T, PassSteps(k, i, w), n)
  {
    if i > 0 {
      PassRunIsRun(T, k, i - 1, w, n);
      RowRunIsRun(PassRun(T, k, i - 1, w, n), i - 1, k, w, n);
      PassNextRow(T, k, w, i, n);
    }
  }

  /** A pass never raises a distance. */
  lemma PassBelow(T: Tables, k: nat, w: nat, n: nat)
    requires Shaped(T, n)
    ensures Below(PassRun(T, k, w, w, n).dist, T.dist, n)
  {
    PassRunIsRun(T, k, w, w, n);
    RunBelow(T, PassSteps(k, w, w), n);
  }

  // ---------------------------------------------------------------------
  // The loops of the engines that relax through one vertex k

  /** relaxPath(i, k, j) for j = 0 .. w - 1, in that order. */
  method RelaxRow(i: nat, k: nat, w: nat, D: array2<int32>, P: array2<int>, ghost T: Tables)
    requires Shaped(T, D.Length0) && D.Length0 == D.Length1 == P.Length0 == P.Length1
    requires Holds(D, P, T, D.Length0)
    requires i < D.Length0 && k < D.Length0 && w <= D.Length0
    modifies D, P
    ensures Holds(D, P, RowRun(T, i, k, w, D.Length0), D.Length0)
  {
    ghost var n := D.Length0;
    var j := 0;
    while j < w
      invariant 0 <= j <= w
      invariant Holds(D, P, RowRun(T, i, k, j, n), n)
    {
      RelaxPath(i, k, j, D, P, RowRun(T, i, k, j, n));
      j := j + 1;
    }
  }

  /** relaxPath(i, k, j) for every i, j < w, row by row. */
  method RelaxPass(k: nat, w: nat, D: array2<int32>, P: array2<int>, ghost T: Tables)
    requires Shaped(T, D.Length0) && D.Length0 == D.Length1 == P.Length0 == P.Length1
    requires Holds(D, P, T, D.Length0)
    requires k < D.Length0 && w <= D.Length0
    modifies D, P
    ensures Holds(D, P, PassRun(T, k, w, w, D.Length0), D.Length0)
  {
    ghost var n := D.Length0;
    var i := 0;
    while i < w
      invariant 0 <= i <= w
      invariant Holds(D, P, PassRun(T, k, i, w, n), n)
    {
      RelaxRow(i, k, w, D, P, PassRun(T, k, i, w, n));
      i := i + 1;
    }
  }
}
