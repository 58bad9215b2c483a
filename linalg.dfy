/**
  Exact 3-vector and 3x3-matrix arithmetic over `real`, standing for the
  float tensors that `torch.bmm`, `torch.cross` and the volume sum operate on.
  Vectors are row vectors; a matrix is a sequence of three rows.
 */
module LinAlg {
  type Vec3 = v: seq<real> | |v| == 3 witness [0.0, 0.0, 0.0]
  type Mat3 = m: seq<Vec3> | |m| == 3 witness [ZeroVec, ZeroVec, ZeroVec]

  const ZeroVec: Vec3 := [0.0, 0.0, 0.0]
  const Zero: Mat3 := [ZeroVec, ZeroVec, ZeroVec]
  const Identity: Mat3 := [[1.0, 0.0, 0.0], [0.0, 1.0, 0.0], [0.0, 0.0, 1.0]]

  function VecAdd(u: Vec3, v: Vec3): Vec3 {
    [u[0] + v[0], u[1] + v[1], u[2] + v[2]]
  }

  function VecNeg(u: Vec3): Vec3 {
    [-u[0], -u[1], -u[2]]
  }

  function VecScale(t: real, u: Vec3): Vec3 {
    [t * u[0], t * u[1], t * u[2]]
  }

  function VecDiv(u: Vec3, t: real): Vec3
    requires t != 0.0
  {
    [u[0] / t, u[1] / t, u[2] / t]
  }

  function Dot(u: Vec3, v: Vec3): real {
    u[0] * v[0] + u[1] * v[1] + u[2] * v[2]
  }

  function Cross(u: Vec3, v: Vec3): Vec3 {
    [u[1] * v[2] - u[2] * v[1], u[2] * v[0] - u[0] * v[2], u[0] * v[1] - u[1] * v[0]]
  }

  /** The row vector `p` times the matrix `m` (a 1x3 by 3x3 `bmm`). */
  function RowTimes(p: Vec3, m: Mat3): Vec3 {
    [ p[0] * m[0][0] + p[1] * m[1][0] + p[2] * m[2][0],
      p[0] * m[0][1] + p[1] * m[1][1] + p[2] * m[2][1],
      p[0] * m[0][2] + p[1] * m[1][2] + p[2] * m[2][2] ]
  }

  function MatAdd(a: Mat3, b: Mat3): Mat3 {
    [VecAdd(a[0], b[0]), VecAdd(a[1], b[1]), VecAdd(a[2], b[2])]
  }

  function MatNeg(a: Mat3): Mat3 {
    [VecNeg(a[0]), VecNeg(a[1]), VecNeg(a[2])]
  }

  function MatScale(t: real, a: Mat3): Mat3 {
    [VecScale(t, a[0]), VecScale(t, a[1]), VecScale(t, a[2])]
  }

  function MatDiv(a: Mat3, t: real): Mat3
    requires t != 0.0
  {
    [VecDiv(a[0], t), VecDiv(a[1], t), VecDiv(a[2], t)]
  }

  /** Matrix product, row by row: row r of the result is row r of `a` times `b`. */
  function MatMul(a: Mat3, b: Mat3): Mat3 {
    [RowTimes(a[0], b), RowTimes(a[1], b), RowTimes(a[2], b)]
  }

  /** The scalar triple product row0 . (row1 x row2): the signed volume of a cell. */
  function TripleProduct(c: Mat3): real {
    Dot(c[0], Cross(c[1], c[2]))
  }

  /** A row vector times the zero matrix is the zero vector. */
  lemma RowTimesZero(p: Vec3)
    ensures RowTimes(p, Zero) == ZeroVec
    ensures VecAdd(p, RowTimes(p, Zero)) == p
  {
    var z := RowTimes(p, Zero);
    assert z[0] == 0.0 && z[1] == 0.0 && z[2] == 0.0;
  }

  /** p + p.S is the row vector p times the matrix I + S. */
  lemma RowTimesIdentityPlus(p: Vec3, s: Mat3)
    ensures VecAdd(p, RowTimes(p, s)) == RowTimes(p, MatAdd(Identity, s))
  {
    var l, r := VecAdd(p, RowTimes(p, s)), RowTimes(p, MatAdd(Identity, s));
    assert l[0] == r[0] && l[1] == r[1] && l[2] == r[2];
  }

  /** C + C.S is the matrix C times I + S. */
  lemma MatMulIdentityPlus(c: Mat3, s: Mat3)
    ensures MatAdd(c, MatMul(c, s)) == MatMul(c, MatAdd(Identity, s))
  {
    RowTimesIdentityPlus(c[0], s);
    RowTimesIdentityPlus(c[1], s);
    RowTimesIdentityPlus(c[2], s);
  }

  /** C + C.0 is C. */
  lemma MatMulZero(c: Mat3)
    ensures MatAdd(c, MatMul(c, Zero)) == c
  {
    RowTimesZero(c[0]);
    RowTimesZero(c[1]);
    RowTimesZero(c[2]);
  }

  /** Multiplying back by the divisor undoes an entrywise division. */
  lemma MatDivRoundTrip(a: Mat3, t: real)
    requires t != 0.0
    ensures MatScale(t, MatDiv(a, t)) == a
  {
    var d := MatScale(t, MatDiv(a, t));
    forall r | 0 <= r < 3
      ensures d[r] == a[r]
    {
      assert d[r][0] == a[r][0] && d[r][1] == a[r][1] && d[r][2] == a[r][2];
    }
  }

  /** The volume of the unit cell is 1. */
  lemma TripleProductIdentity()
    ensures TripleProduct(Identity) == 1.0
  {
  }

  /** The volume is invariant under a cyclic shift of the three lattice vectors. */
  lemma TripleProductCyclic(c: Mat3)
    ensures TripleProduct([c[1], c[2], c[0]]) == TripleProduct(c)
  {
  }

  /** Exchanging two lattice vectors flips the sign of the volume. */
  lemma TripleProductSwap(c: Mat3)
    ensures TripleProduct([c[1], c[0], c[2]]) == -TripleProduct(c)
  {
  }

  /** A cell with a repeated lattice vector is degenerate (zero volume). */
  lemma TripleProductRepeated(u: Vec3, v: Vec3)
    ensures TripleProduct([u, u, v]) == 0.0
    ensures TripleProduct([u, v, v]) == 0.0
  {
  }
}
