// Saturating 32-bit addition: the `sum` helper every relaxation step uses.

module Saturating {

  /** The C `int`: a signed 32-bit integer. */
  newtype int32 = x: int | -0x8000_0000 <= x < 0x8000_0000

  const MinInt32: int32 := -0x8000_0000
  const MaxInt32: int32 := 0x7FFF_FFFF

  function Min(a: int32, b: int32): int32
  {
    if a <= b then a else b
  }

  /** How far the int32 `x` lies from the mathematical sum a + b. */
  function GapToSum(x: int32, a: int32, b: int32): nat
  {
    var s := a as int + b as int;
    if x as int <= s then s - x as int else x as int - s
  }

  /**
    * sum: adds two 32-bit integers without wrapping. A sum above the
    * largest int32 gives the largest int32, one below the smallest gives
    * the smallest; in other words the result is the int32 nearest to a + b.
    */
  function Sum(a: int32, b: int32): (r: int32)
    ensures MinInt32 as int <= a as int + b as int <= MaxInt32 as int ==> r as int == a as int + b as int
    ensures a as int + b as int > MaxInt32 as int ==> r == MaxInt32
    ensures a as int + b as int < MinInt32 as int ==> r == MinInt32
  {
    var s := a as int + b as int;
    if s > MaxInt32 as int then MaxInt32
    else if s < MinInt32 as int then MinInt32
    else s as int32
  }

  /** No int32 lies closer to the mathematical sum than the saturated one. */
  lemma SumNearest(a: int32, b: int32, x: int32)
    ensures GapToSum(Sum(a, b), a, b) <= GapToSum(x, a, b)
  {
  }

  lemma SumCommutes(a: int32, b: int32)
    ensures Sum(a, b) == Sum(b, a)
  {
  }

  /** Saturation keeps addition monotone in both operands. */
  lemma SumMonotone(a: int32, b: int32, a': int32, b': int32)
    requires a <= a' && b <= b'
    ensures Sum(a, b) <= Sum(a', b')
  {
  }

  /** Adding a non-negative amount never lowers a value. */
  lemma SumNonNegative(a: int32, d: int32)
    requires 0 <= d
    ensures a <= Sum(a, d) && a <= Sum(d, a)
  {
  }

  /** A non-negative saturated sum means neither operand is the smallest int32. */
  lemma NonNegativeSumOperands(a: int32, b: int32)
    requires 0 <= Sum(a, b)
    ensures MinInt32 < a && MinInt32 < b
    ensures 0 <= a as int + b as int
  {
  }

  /*
   * The three facts below are the arithmetic core of the closure proofs of
   * both engines. Each relates the saturated sums around one cell before and
   * after a relaxation through a new vertex m; the names of the parameters
   * follow the matrix cells they stand for (im = D[i][m], mk = D[m][k], ...).
   */

  /**
    * One cell of a relaxation pass through m keeps the triangle inequality
    * through an older vertex k: the new D[i][j] is at most the sum of the
    * new D[i][k] and the new D[k][j].
    */
  lemma PassKeepsTriangle(im: int32, mk: int32, kj: int32, mj: int32, ik: int32, km: int32, ij: int32)
    requires MinInt32 < im && MinInt32 < mj
    requires ij <= Sum(ik, kj) && mj <= Sum(mk, kj) && 0 <= Sum(mk, km) && im <= Sum(ik, km)
    ensures Min(ij, Sum(im, mj)) <= Sum(Min(ik, Sum(im, mk)), Min(kj, Sum(km, mj)))
  {
  }

  /**
    * Lowering D[i][m] to D[i][k] + D[k][m] keeps the column inequality
    * D[x][m] <= D[x][i] + D[i][m] of an already settled row x.
    */
  lemma BorderKeepsColumn(xm: int32, km: int32, xk: int32, xi: int32, ik: int32)
    requires xm <= Sum(xk, km) && xk <= Sum(xi, ik)
    requires Sum(ik, km) < MaxInt32 && MinInt32 < xk
    ensures xm <= Sum(xi, Sum(ik, km))
  {
  }

  /**
    * The mirror image for the border row: lowering D[m][i] to
    * D[m][k] + D[k][i] keeps the row inequality D[m][y] <= D[m][i] + D[i][y]
    * of an already settled column y.
    */
  lemma BorderKeepsRow(my: int32, mk: int32, ky: int32, iy: int32, ki: int32)
    requires my <= Sum(mk, ky) && ky <= Sum(ki, iy)
    requires Sum(mk, ki) < MaxInt32 && MinInt32 < ky
    ensures my <= Sum(Sum(mk, ki), iy)
  {
  }

  /**
    * Lowering D[x][z] to D[x][m] + D[m][z] keeps the column inequality
    * D[x][m] <= D[x][z] + D[z][m], as long as the cycle m -> z -> m is not
    * negative.
    */
  lemma InnerKeepsColumn(xm: int32, xz: int32, zm: int32, mz: int32)
    requires xm <= Sum(xz, zm) && 0 <= Sum(mz, zm)
    ensures xm <= Sum(Min(xz, Sum(xm, mz)), zm)
  {
  }
}
