/** Beams with distinct sensor positions: the system is regular, the fitted shape is the only best one,
    and slopes measured on such a beam give the beam back. */
module ShapeTheorems {
  import opened Reals
  import opened Linear
  import opened LeastSquares
  import opened ShapeQuad

  /** The three sensors of each segment are at different positions. */
  predicate DistinctSensors(x: Vec, m: nat)
    requires |x| == 2 * m + 1
  {
    forall i | 0 <= i < m :: x[2 * i] != x[2 * i + 1] && x[2 * i] != x[2 * i + 2] && x[2 * i + 1] != x[2 * i + 2]
  }

  lemma ThreeRoots(p: real, q: real, r: real, x: real, y: real, z: real)
    requires p * (x * x) + q * x + r == 0.0 && p * (y * y) + q * y + r == 0.0 && p * (z * z) + q * z + r == 0.0
    requires x != y && x != z && y != z
    ensures p == q == r == 0.0
  {
    assert p * (x + y) + q == 0.0;
    assert p * (x + z) + q == 0.0;
    assert p * (y - z) == 0.0;
    assert p == 0.0;
  }

  /** A slope that vanishes at three positions vanishes, and leaves the deflection constant. */
  lemma FlatSegment(x: Vec, m: nat, d: Vec, i: nat)
    requires |x| == 2 * m + 1 && |d| == 4 * m && i < m && DistinctSensors(x, m)
    requires Apply(SlopeMatrix(x, m), d) == Zero(3 * m)
    ensures d[4 * i] == d[4 * i + 1] == d[4 * i + 2] == 0.0
    ensures forall t :: DeflectionAt(d, i, t) == d[4 * i + 3]
  {
    hide SlopeMatrix, Apply, DeflectionMatrix;
    SensorRow(x, m, d, i, 0);
    SensorRow(x, m, d, i, 1);
    SensorRow(x, m, d, i, 2);
    FlatRoots(d[4 * i], d[4 * i + 1], d[4 * i + 2], x[2 * i], x[2 * i + 1], x[2 * i + 2]);
    forall t ensures DeflectionAt(d, i, t) == d[4 * i + 3] {
      hide Product;
      ZeroProduct(Product(t, Square(t)) / 3.0);
      ZeroProduct(Square(t) / 2.0);
      ZeroProduct(t);
    }
  }

  lemma FlatRoots(p: real, q: real, r: real, x: real, y: real, z: real)
    requires Product(Square(x), p) + Product(x, q) + r == 0.0
    requires Product(Square(y), p) + Product(y, q) + r == 0.0
    requires Product(Square(z), p) + Product(z, q) + r == 0.0
    requires x != y && x != z && y != z
    ensures p == q == r == 0.0
  {
    hide Product, Square;
    Unfolded(p, q, x);
    Unfolded(p, q, y);
    Unfolded(p, q, z);
    ThreeRoots(p, q, r, x, y, z);
  }

  lemma Unfolded(p: real, q: real, x: real)
    ensures Product(Square(x), p) + Product(x, q) == p * (x * x) + q * x
  {
  }

  /** Flat segments that join, from a fixed root, are all zero. */
  lemma {:induction false} FlatBeam(x: Vec, m: nat, d: Vec, i: nat)
    requires |x| == 2 * m + 1 && |d| == 4 * m && i < m && DistinctSensors(x, m)
    requires Apply(SlopeMatrix(x, m), d) == Zero(3 * m) && Continuous(x, m, d)
    ensures d[4 * i] == d[4 * i + 1] == d[4 * i + 2] == d[4 * i + 3] == 0.0
  {
    hide SlopeMatrix, Apply, DeflectionAt;
    FlatSegment(x, m, d, i);
    if i > 0 {
      FlatSegment(x, m, d, i - 1);
      FlatBeam(x, m, d, i - 1);
      assert DeflectionAt(d, i - 1, x[2 * (i - 1) + 2]) == DeflectionAt(d, (i - 1) + 1, x[2 * (i - 1) + 2]);
    }
  }

  /** Slopes and constraints determine the coefficients. */
  lemma ShapeDetermined(x: Vec, m: nat)
    requires |x| == 2 * m + 1 && m > 0 && DistinctSensors(x, m)
    ensures Determines(SlopeMatrix(x, m), ConstraintMatrix(x, m), 4 * m)
  {
    hide SlopeMatrix, ConstraintMatrix, Apply, Continuous, Satisfies, DistinctSensors;
    forall d: Vec | |d| == 4 * m && Apply(SlopeMatrix(x, m), d) == Zero(3 * m) && Satisfies(ConstraintMatrix(x, m), d)
      ensures d == Zero(4 * m)
    {
      ConstraintsMean(x, m, d);
      forall k | 0 <= k < 4 * m ensures d[k] == 0.0 {
        FlatBeam(x, m, d, k / 4);
        assert k == 4 * (k / 4) + k % 4;
      }
    }
  }

  // ----- the constraints are independent

  /** The heights of flat segments at which the joints take given values. */
  function Height(l: Vec, i: nat): real
    requires i < |l|
  {
    if i == 0 then l[|l| - 1] else Height(l, i - 1) - l[i - 1]
  }

  function FlatHeights(l: Vec): (v: Vec)
    ensures |v| == 4 * |l|
  {
    seq(4 * |l|, k requires 0 <= k < 4 * |l| => if k % 4 == 3 then Height(l, k / 4) else 0.0)
  }

  lemma FlatEntries(l: Vec, i: nat)
    requires i < |l|
    ensures var v := FlatHeights(l);
            v[4 * i] == 0.0 && v[4 * i + 1] == 0.0 && v[4 * i + 2] == 0.0 && v[4 * i + 3] == Height(l, i)
  {
    assert (4 * i + 3) / 4 == i && (4 * i + 3) % 4 == 3;
    assert (4 * i) % 4 == 0 && (4 * i + 1) % 4 == 1 && (4 * i + 2) % 4 == 2;
  }

  lemma FlatDeflection(l: Vec, i: nat, x: real)
    requires i < |l|
    ensures DeflectionAt(FlatHeights(l), i, x) == Height(l, i)
  {
    hide Product, FlatHeights;
    FlatEntries(l, i);
    ZeroProduct(Product(x, Square(x)) / 3.0);
    ZeroProduct(Square(x) / 2.0);
    ZeroProduct(x);
  }

  lemma ConstraintsIndependent(x: Vec, m: nat)
    requires |x| == 2 * m + 1 && m > 0
    ensures Independent(ConstraintMatrix(x, m), 4 * m)
  {
    hide ConstraintMatrix, Apply, DeflectionAt, FlatHeights;
    var C := ConstraintMatrix(x, m);
    forall l: Vec | |l| == m ensures exists v: Vec :: |v| == 4 * m && Apply(C, v) == l {
      var v := FlatHeights(l);
      ApplyOf(C, v);
      forall i | 0 <= i < m ensures Apply(C, v)[i] == l[i] {
        JointRow(x, m, v, i);
        if i < m - 1 {
          FlatDeflection(l, i, x[2 * i + 2]);
          FlatDeflection(l, i + 1, x[2 * i + 2]);
        } else {
          FlatDeflection(l, 0, x[0]);
        }
      }
      assert Apply(C, v) == l;
    }
  }

  /** The system is regular: with distinct sensors some division solves it. */
  lemma SystemIsRegular(x: Vec, m: nat) returns (X: Matrix)
    requires |x| == 2 * m + 1 && m > 0 && DistinctSensors(x, m)
    ensures IsMatrix(X, 5 * m, 3 * m)
    ensures Mul(Block(SlopeMatrix(x, m), ConstraintMatrix(x, m), 4 * m), X, 3 * m) == Right(SlopeMatrix(x, m), 4 * m, m)
  {
    hide SlopeMatrix, ConstraintMatrix, Block, Right, Mul, Determines, Independent, DistinctSensors;
    ShapeDetermined(x, m);
    ConstraintsIndependent(x, m);
    X := BlockSolvable(SlopeMatrix(x, m), ConstraintMatrix(x, m), 4 * m);
  }

  // ----- the best shape is unique

  /** Any continuous beam that fits as well as the computed one is the computed one. */
  lemma ShapeIsUnique(x: Vec, s: Vec, m: nat, divide: (Matrix, Matrix) -> Matrix, b: Vec)
    requires |x| == |s| == 2 * m + 1 && m > 0 && KeepsShape(divide) && |b| == 4 * m && DistinctSensors(x, m)
    requires Solves(SlopeMatrix(x, m), ConstraintMatrix(x, m), 4 * m, divide)
    requires Continuous(x, m, b) && FitError(x, s, m, b) <= FitError(x, s, m, Coefficients(x, s, m, divide))
    ensures b == Coefficients(x, s, m, divide)
  {
    hide SlopeMatrix, ConstraintMatrix, Data, Block, Right, Mul, Apply, Continuous, Misfit, Solved, Solves,
      KeepsShape, DistinctSensors, Determines, Satisfies;
    var A, C, d := SlopeMatrix(x, m), ConstraintMatrix(x, m), Data(s, m);
    SystemSolved(A, C, 4 * m, d, divide);
    var sol := Solved(A, C, 4 * m, d, divide);
    var a := Coefficients(x, s, m, divide);
    ConstrainedOptimum(A, C, d, a, sol[4 * m..], b);
    ConstraintsMean(x, m, b);
    ShapeDetermined(x, m);
    DifferenceVanishes(A, C, 4 * m, a, b);
  }

  lemma DifferenceVanishes(A: Matrix, C: Matrix, q: nat, a: Vec, b: Vec)
    requires IsMatrix(A, |A|, q) && IsMatrix(C, |C|, q) && |a| == |b| == q && Determines(A, C, q)
    requires Apply(A, Minus(b, a)) == Zero(|A|) && Satisfies(C, a) && Satisfies(C, b)
    ensures b == a
  {
    var d := Minus(b, a);
    ApplyMinus(C, b, a);
    hide Apply;
    assert Apply(C, d) == Zero(|C|);
    assert d == Zero(q);
    forall k | 0 <= k < q ensures b[k] == a[k] {
      assert d[k] == 0.0;
    }
  }

  /** The beam has the measured slope at sensor `j` of segment `i`. */
  predicate Matches(x: Vec, s: Vec, b: Vec, i: nat, j: nat)
    requires |x| == |s| && 2 * i + j < |x| && 4 * i + 4 <= |b|
  {
    SlopeAt(b, i, x[2 * i + j]) == s[2 * i + j]
  }

  /** Round trip: the exact slopes of a continuous beam give its coefficients back. */
  lemma ExactSlopesRecovered(x: Vec, s: Vec, m: nat, divide: (Matrix, Matrix) -> Matrix, b: Vec)
    requires |x| == |s| == 2 * m + 1 && m > 0 && KeepsShape(divide) && |b| == 4 * m && DistinctSensors(x, m)
    requires Solves(SlopeMatrix(x, m), ConstraintMatrix(x, m), 4 * m, divide) && Continuous(x, m, b)
    requires forall i, j | 0 <= i < m && 0 <= j < 3 :: Matches(x, s, b, i, j)
    ensures Coefficients(x, s, m, divide) == b
  {
    hide KeepsShape, Solves, Continuous, Solved, SlopeAt, Dot, SlopeMatrix, DistinctSensors;
    var w, d := Apply(SlopeMatrix(x, m), b), Data(s, m);
    ApplyOf(SlopeMatrix(x, m), b);
    forall r | 0 <= r < 3 * m ensures w[r] == d[r] {
      assert r == 3 * (r / 3) + r % 3;
      SensorRow(x, m, b, r / 3, r % 3);
      assert Matches(x, s, b, r / 3, r % 3);
    }
    NoMisfit(SlopeMatrix(x, m), b, d);
    MisfitSign(SlopeMatrix(x, m), Coefficients(x, s, m, divide), d);
    ShapeIsUnique(x, s, m, divide, b);
  }

  lemma NoMisfit(A: Matrix, b: Vec, s: Vec)
    requires IsMatrix(A, |s|, |b|) && |Apply(A, b)| == |s| && forall r | 0 <= r < |s| :: Apply(A, b)[r] == s[r]
    ensures Misfit(A, b, s) == 0.0
  {
    hide Dot, Apply;
    DotZero(Residual(A, b, s), Residual(A, b, s));
  }

  lemma MisfitSign(A: Matrix, b: Vec, s: Vec)
    requires IsMatrix(A, |s|, |b|)
    ensures Misfit(A, b, s) >= 0.0
  {
    hide Dot, Apply;
    DotSelf(Residual(A, b, s));
  }
}
