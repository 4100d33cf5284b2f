/** Real vectors and matrices of any size; a matrix is the list of its rows. */
module Linear {
  import opened Reals

  type Vec = seq<real>
  type Matrix = seq<Vec>

  predicate IsMatrix(M: Matrix, r: nat, c: nat) {
    |M| == r && forall i | 0 <= i < r :: |M[i]| == c
  }

  // ----- vectors

  function Dot(x: Vec, y: Vec): real
    requires |x| == |y|
  {
    if x == [] then 0.0 else Product(x[0], y[0]) + Dot(x[1..], y[1..])
  }

  function Zero(n: nat): Vec {
    seq(n, _ => 0.0)
  }

  function Plus(x: Vec, y: Vec): (z: Vec)
    requires |x| == |y|
  {
    seq(|x|, i requires 0 <= i < |x| => x[i] + y[i])
  }

  function Times(k: real, x: Vec): (z: Vec) {
    seq(|x|, i requires 0 <= i < |x| => Product(k, x[i]))
  }

  function Minus(x: Vec, y: Vec): (z: Vec)
    requires |x| == |y|
  {
    seq(|x|, i requires 0 <= i < |x| => x[i] - y[i])
  }

  lemma {:induction false} DotSymmetric(x: Vec, y: Vec)
    requires |x| == |y|
    ensures Dot(x, y) == Dot(y, x)
  {
    if x != [] {
      DotSymmetric(x[1..], y[1..]);
    }
  }

  lemma {:induction false} DotPlus(x: Vec, y: Vec, z: Vec)
    requires |x| == |y| == |z|
    ensures Dot(Plus(x, y), z) == Dot(x, z) + Dot(y, z)
  {
    if x != [] {
      DotPlus(x[1..], y[1..], z[1..]);
      assert Plus(x, y)[1..] == Plus(x[1..], y[1..]);
    }
  }

  lemma {:induction false} DotTimes(k: real, x: Vec, z: Vec)
    requires |x| == |z|
    ensures Dot(Times(k, x), z) == Product(k, Dot(x, z))
  {
    if x != [] {
      DotTimes(k, x[1..], z[1..]);
      assert Times(k, x)[1..] == Times(k, x[1..]);
      assert k * (x[0] * z[0]) == (k * x[0]) * z[0];
    }
  }

  lemma DotMinus(x: Vec, y: Vec, z: Vec)
    requires |x| == |y| == |z|
    ensures Dot(Minus(x, y), z) == Dot(x, z) - Dot(y, z)
    ensures Dot(z, Minus(x, y)) == Dot(z, x) - Dot(z, y)
  {
    assert Minus(x, y) == Plus(x, Times(-1.0, y));
    DotPlus(x, Times(-1.0, y), z);
    DotTimes(-1.0, y, z);
    DotSymmetric(z, Minus(x, y));
    DotSymmetric(z, x);
    DotSymmetric(z, y);
  }

  lemma {:induction false} DotZero(x: Vec, z: Vec)
    requires |x| == |z| && forall i | 0 <= i < |x| :: x[i] == 0.0
    ensures Dot(x, z) == 0.0 && Dot(z, x) == 0.0
  {
    if x != [] {
      DotZero(x[1..], z[1..]);
    }
  }

  /** A sum of squares is zero only when every term is. */
  lemma {:induction false} DotSelf(x: Vec)
    ensures Dot(x, x) >= 0.0
    ensures x != Zero(|x|) ==> Dot(x, x) > 0.0
    ensures Dot(Zero(|x|), Zero(|x|)) == 0.0
  {
    DotZero(Zero(|x|), Zero(|x|));
    if x != [] {
      SquareSign(x[0]);
      DotSelf(x[1..]);
      hide Product;
      assert x == [x[0]] + x[1..];
      assert x[0] == 0.0 && x[1..] == Zero(|x[1..]|) ==> x == Zero(|x|);
    }
  }

  /** The `i`-th unit vector. */
  function Unit(n: nat, i: nat): Vec {
    seq(n, k => if k == i then 1.0 else 0.0)
  }

  lemma {:induction false} DotUnit(x: Vec, i: nat)
    requires i < |x|
    ensures Dot(x, Unit(|x|, i)) == x[i] && Dot(Unit(|x|, i), x) == x[i]
  {
    if i == 0 {
      assert forall k | 0 <= k < |x[1..]| :: Unit(|x|, 0)[1..][k] == 0.0;
      DotZero(Unit(|x|, 0)[1..], x[1..]);
    } else {
      DotUnit(x[1..], i - 1);
      assert Unit(|x|, i)[1..] == Unit(|x[1..]|, i - 1);
    }
  }

  // ----- matrices

  function Apply(M: Matrix, v: Vec): (r: Vec)
    requires IsMatrix(M, |M|, |v|)
  {
    seq(|M|, i requires 0 <= i < |M| => Dot(M[i], v))
  }

  /** The combination of the rows of `M` with weights `x`: the transpose of `M` applied to `x`. */
  function Combine(x: Vec, M: Matrix, c: nat): (r: Vec)
    requires IsMatrix(M, |x|, c)
    ensures |r| == c
  {
    if x == [] then Zero(c) else Plus(Times(x[0], M[0]), Combine(x[1..], M[1..], c))
  }

  function Column(M: Matrix, c: nat, j: nat): (v: Vec)
    requires IsMatrix(M, |M|, c) && j < c
  {
    seq(|M|, i requires 0 <= i < |M| => M[i][j])
  }

  function Transpose(M: Matrix, c: nat): (T: Matrix)
    requires IsMatrix(M, |M|, c)
    ensures IsMatrix(T, c, |M|)
  {
    seq(c, j requires 0 <= j < c => Column(M, c, j))
  }

  /** The product: each row of the left factor combines the rows of the right one. */
  function Mul(A: Matrix, B: Matrix, c: nat): (M: Matrix)
    requires IsMatrix(A, |A|, |B|) && IsMatrix(B, |B|, c)
    ensures IsMatrix(M, |A|, c)
  {
    seq(|A|, i requires 0 <= i < |A| => Combine(A[i], B, c))
  }

  function Add(A: Matrix, B: Matrix): (M: Matrix)
    requires |A| == |B| && forall i | 0 <= i < |A| :: |A[i]| == |B[i]|
    ensures |M| == |A| && forall i | 0 <= i < |M| :: |M[i]| == |A[i]|
  {
    seq(|A|, i requires 0 <= i < |A| => Plus(A[i], B[i]))
  }

  function Subtract(A: Matrix, B: Matrix): (M: Matrix)
    requires |A| == |B| && forall i | 0 <= i < |A| :: |A[i]| == |B[i]|
    ensures |M| == |A| && forall i | 0 <= i < |M| :: |M[i]| == |A[i]|
  {
    seq(|A|, i requires 0 <= i < |A| => Minus(A[i], B[i]))
  }

  function Scaled(k: real, A: Matrix): (M: Matrix)
    ensures |M| == |A| && forall i | 0 <= i < |M| :: |M[i]| == |A[i]|
  {
    seq(|A|, i requires 0 <= i < |A| => Times(k, A[i]))
  }

  function Diagonal(d: Vec): (M: Matrix)
    ensures IsMatrix(M, |d|, |d|)
  {
    seq(|d|, i requires 0 <= i < |d| => seq(|d|, j => if i == j then d[i] else 0.0))
  }

  function Identity(n: nat): (M: Matrix)
    ensures IsMatrix(M, n, n)
  {
    seq(n, i requires 0 <= i < n => Unit(n, i))
  }

  /** Rows of a product entry by entry: the usual definition. */
  lemma {:induction false} CombineEntry(x: Vec, M: Matrix, c: nat, j: nat)
    requires IsMatrix(M, |x|, c) && j < c
    ensures Combine(x, M, c)[j] == Dot(x, Column(M, c, j))
  {
    if x != [] {
      CombineEntry(x[1..], M[1..], c, j);
      assert Column(M, c, j)[1..] == Column(M[1..], c, j);
    }
  }

  lemma TransposeApplies(x: Vec, M: Matrix, c: nat)
    requires IsMatrix(M, |x|, c)
    ensures Apply(Transpose(M, c), x) == Combine(x, M, c)
  {
    forall j | 0 <= j < c ensures Apply(Transpose(M, c), x)[j] == Combine(x, M, c)[j] {
      CombineEntry(x, M, c, j);
      DotSymmetric(x, Column(M, c, j));
    }
  }

  /** A matrix moves across a dot product as its transpose. */
  lemma {:induction false} Adjoint(x: Vec, M: Matrix, v: Vec)
    requires IsMatrix(M, |x|, |v|)
    ensures Dot(x, Apply(M, v)) == Dot(Combine(x, M, |v|), v)
  {
    if x == [] {
      DotZero(Zero(|v|), v);
    } else {
      Adjoint(x[1..], M[1..], v);
      assert Apply(M, v)[1..] == Apply(M[1..], v);
      DotPlus(Times(x[0], M[0]), Combine(x[1..], M[1..], |v|), v);
      DotTimes(x[0], M[0], v);
      hide Times, Plus, Product;
    }
  }

  lemma MulApplies(A: Matrix, B: Matrix, v: Vec)
    requires IsMatrix(A, |A|, |B|) && IsMatrix(B, |B|, |v|)
    ensures Apply(Mul(A, B, |v|), v) == Apply(A, Apply(B, v))
  {
    forall i | 0 <= i < |A| ensures Apply(Mul(A, B, |v|), v)[i] == Apply(A, Apply(B, v))[i] {
      Adjoint(A[i], B, v);
    }
  }

  lemma AddApplies(A: Matrix, B: Matrix, v: Vec)
    requires IsMatrix(A, |A|, |v|) && IsMatrix(B, |A|, |v|)
    ensures Apply(Add(A, B), v) == Plus(Apply(A, v), Apply(B, v))
    ensures Apply(Subtract(A, B), v) == Minus(Apply(A, v), Apply(B, v))
  {
    forall i | 0 <= i < |A|
      ensures Dot(Add(A, B)[i], v) == Dot(A[i], v) + Dot(B[i], v)
      ensures Dot(Subtract(A, B)[i], v) == Dot(A[i], v) - Dot(B[i], v)
    {
      DotPlus(A[i], B[i], v);
      DotMinus(A[i], B[i], v);
    }
  }

  lemma ScaledApplies(k: real, A: Matrix, v: Vec)
    requires IsMatrix(A, |A|, |v|)
    ensures Apply(Scaled(k, A), v) == Times(k, Apply(A, v))
  {
    forall i | 0 <= i < |A| ensures Dot(Scaled(k, A)[i], v) == Product(k, Dot(A[i], v)) {
      DotTimes(k, A[i], v);
    }
  }

  lemma IdentityApplies(v: Vec)
    ensures Apply(Identity(|v|), v) == v
  {
    forall i | 0 <= i < |v| ensures Apply(Identity(|v|), v)[i] == v[i] {
      DotUnit(v, i);
    }
  }

  /** Apply is linear. */
  lemma ApplyMinus(M: Matrix, v: Vec, w: Vec)
    requires |v| == |w| && IsMatrix(M, |M|, |v|)
    ensures Apply(M, Minus(v, w)) == Minus(Apply(M, v), Apply(M, w))
  {
    forall i | 0 <= i < |M| ensures Dot(M[i], Minus(v, w)) == Dot(M[i], v) - Dot(M[i], w) {
      DotMinus(v, w, M[i]);
    }
  }

  lemma ApplyUnit(M: Matrix, c: nat, j: nat)
    requires IsMatrix(M, |M|, c) && j < c
    ensures Apply(M, Unit(c, j)) == Column(M, c, j)
  {
    forall i | 0 <= i < |M| ensures Dot(M[i], Unit(c, j)) == M[i][j] {
      DotUnit(M[i], j);
    }
  }

  // ----- bilinear forms

  function Form(M: Matrix, x: Vec, y: Vec): real
    requires IsMatrix(M, |x|, |y|)
  {
    Dot(x, Apply(M, y))
  }

  ghost predicate SymmetricForm(M: Matrix, n: nat)
    requires IsMatrix(M, n, n)
  {
    forall x: Vec, y: Vec | |x| == |y| == n :: Form(M, x, y) == Form(M, y, x)
  }

  /** Positive semidefinite. */
  ghost predicate NonNegative(M: Matrix, n: nat)
    requires IsMatrix(M, n, n)
  {
    forall x: Vec | |x| == n :: Form(M, x, x) >= 0.0
  }

  /** Positive definite. */
  ghost predicate Positive(M: Matrix, n: nat)
    requires IsMatrix(M, n, n)
  {
    forall x: Vec | |x| == n && x != Zero(n) :: Form(M, x, x) > 0.0
  }

  lemma FormMinus(M: Matrix, x: Vec, y: Vec, z: Vec)
    requires |x| == |y| == |z| && IsMatrix(M, |x|, |x|)
    ensures Form(M, Minus(x, y), z) == Form(M, x, z) - Form(M, y, z)
    ensures Form(M, z, Minus(x, y)) == Form(M, z, x) - Form(M, z, y)
  {
    DotMinus(x, y, Apply(M, z));
    ApplyMinus(M, x, y);
    DotMinus(Apply(M, x), Apply(M, y), z);
  }

  lemma FormAdd(A: Matrix, B: Matrix, x: Vec, y: Vec)
    requires IsMatrix(A, |x|, |y|) && IsMatrix(B, |x|, |y|)
    ensures Form(Add(A, B), x, y) == Form(A, x, y) + Form(B, x, y)
    ensures Form(Subtract(A, B), x, y) == Form(A, x, y) - Form(B, x, y)
  {
    AddApplies(A, B, y);
    var a, b := Apply(A, y), Apply(B, y);
    DotPlus(a, b, x);
    DotMinus(a, b, x);
    DotSymmetric(x, a);
    DotSymmetric(x, b);
    DotSymmetric(x, Plus(a, b));
  }

  lemma FormEntry(M: Matrix, n: nat, i: nat, j: nat)
    requires IsMatrix(M, n, n) && i < n && j < n
    ensures Form(M, Unit(n, i), Unit(n, j)) == M[i][j]
  {
    ApplyUnit(M, n, j);
    DotUnit(Column(M, n, j), i);
  }

  /** The form is symmetric exactly when the matrix is. */
  lemma SymmetricIff(M: Matrix, n: nat)
    requires IsMatrix(M, n, n)
    ensures SymmetricForm(M, n) <==> Transpose(M, n) == M
  {
    if SymmetricForm(M, n) {
      forall i, j | 0 <= i < n && 0 <= j < n ensures Transpose(M, n)[i][j] == M[i][j] {
        FormEntry(M, n, i, j);
        FormEntry(M, n, j, i);
      }
      assert Transpose(M, n) == M by {
        forall i | 0 <= i < n ensures Transpose(M, n)[i] == M[i] {
        }
      }
    }
    if Transpose(M, n) == M {
      forall x: Vec, y: Vec | |x| == |y| == n ensures Form(M, x, y) == Form(M, y, x) {
        Adjoint(x, M, y);
        TransposeApplies(x, M, n);
        DotSymmetric(Apply(M, x), y);
      }
    }
  }

  function Trace(M: Matrix): real
    requires IsMatrix(M, |M|, |M|)
  {
    TraceTo(M, |M|)
  }

  function TraceTo(M: Matrix, k: nat): real
    requires IsMatrix(M, |M|, |M|) && k <= |M|
  {
    if k == 0 then 0.0 else TraceTo(M, k - 1) + M[k - 1][k - 1]
  }

  /** The Loewner order: the difference is positive semidefinite. */
  ghost predicate Below(A: Matrix, B: Matrix, n: nat)
    requires IsMatrix(A, n, n) && IsMatrix(B, n, n)
  {
    forall x: Vec | |x| == n :: Form(A, x, x) <= Form(B, x, x)
  }

  lemma DiagonalOrdered(A: Matrix, B: Matrix, n: nat, i: nat)
    requires IsMatrix(A, n, n) && IsMatrix(B, n, n) && Below(A, B, n) && i < n
    ensures A[i][i] <= B[i][i]
  {
    FormEntry(A, n, i, i);
    FormEntry(B, n, i, i);
    hide Form;
  }

  /** Traces are ordered like forms. */
  lemma {:induction false} TraceOrdered(A: Matrix, B: Matrix, k: nat)
    requires k <= |A| == |B| && IsMatrix(A, |A|, |A|) && IsMatrix(B, |A|, |A|) && Below(A, B, |A|)
    ensures TraceTo(A, k) <= TraceTo(B, k)
  {
    hide Below, Form, IsMatrix;
    if k > 0 {
      DiagonalOrdered(A, B, |A|, k - 1);
      TraceOrdered(A, B, k - 1);
    }
  }
}
