/** What one predict-and-update step of the filter does to the error covariance, for any dimension. */
module Covariance {
  import opened Reals
  import opened Linear
  import opened Elimination

  /** A covariance: symmetric and positive semidefinite. */
  ghost predicate IsCovariance(P: Matrix, n: nat) {
    IsMatrix(P, n, n) && SymmetricForm(P, n) && NonNegative(P, n)
  }

  // ----- prediction

  function Priori(P: Matrix, A: Matrix, Q: Matrix, n: nat): (M: Matrix)
    requires IsMatrix(P, n, n) && IsMatrix(A, n, n) && IsMatrix(Q, n, n)
    ensures IsMatrix(M, n, n)
  {
    Add(Mul(Mul(A, P, n), Transpose(A, n), n), Q)
  }

  lemma PrioriForm(P: Matrix, A: Matrix, Q: Matrix, n: nat, x: Vec, y: Vec)
    requires IsMatrix(P, n, n) && IsMatrix(A, n, n) && IsMatrix(Q, n, n) && |x| == |y| == n
    ensures Form(Priori(P, A, Q, n), x, y) == Form(P, Combine(x, A, n), Combine(y, A, n)) + Form(Q, x, y)
  {
    hide Dot, Apply, Mul, Combine, Transpose, Add;
    var AP, At := Mul(A, P, n), Transpose(A, n);
    FormAdd(Mul(AP, At, n), Q, x, y);
    MulApplies(AP, At, y);
    TransposeApplies(y, A, n);
    MulApplies(A, P, Combine(y, A, n));
    ApplyLength(P, Combine(y, A, n));
    Adjoint(x, A, Apply(P, Combine(y, A, n)));
  }

  lemma ApplyLength(M: Matrix, v: Vec)
    requires IsMatrix(M, |M|, |v|)
    ensures |Apply(M, v)| == |M|
  {
  }

  lemma PrioriIsCovariance(P: Matrix, A: Matrix, Q: Matrix, n: nat)
    requires IsCovariance(P, n) && IsCovariance(Q, n) && IsMatrix(A, n, n)
    ensures IsCovariance(Priori(P, A, Q, n), n)
  {
    hide Form, Priori, Combine;
    var M := Priori(P, A, Q, n);
    forall x: Vec, y: Vec | |x| == |y| == n ensures Form(M, x, y) == Form(M, y, x) {
      PrioriForm(P, A, Q, n, x, y);
      PrioriForm(P, A, Q, n, y, x);
    }
    forall x: Vec | |x| == n ensures Form(M, x, x) >= 0.0 {
      PrioriForm(P, A, Q, n, x, x);
    }
  }

  // ----- the gain

  /** The gain of a measurement of the whole state: the solution of K * (P + R) = P. */
  ghost predicate IsGain(K: Matrix, P: Matrix, R: Matrix, n: nat)
    requires IsMatrix(P, n, n) && IsMatrix(R, n, n)
  {
    IsMatrix(K, n, n) && Mul(K, Add(P, R), n) == P
  }

  lemma InnovationPositive(P: Matrix, R: Matrix, n: nat)
    requires IsCovariance(P, n) && IsMatrix(R, n, n) && Positive(R, n)
    ensures Positive(Add(P, R), n)
  {
    hide Form, Add;
    forall x: Vec | |x| == n && x != Zero(n) ensures Form(Add(P, R), x, x) > 0.0 {
      FormAdd(P, R, x, x);
    }
  }

  lemma GainForm(K: Matrix, P: Matrix, R: Matrix, n: nat, x: Vec, z: Vec)
    requires IsMatrix(P, n, n) && IsMatrix(R, n, n) && IsGain(K, P, R, n) && |x| == |z| == n
    ensures var y := Combine(x, K, n); Form(P, x, z) == Form(P, y, z) + Form(R, y, z)
  {
    hide Dot, Apply, Mul, Combine, Add;
    var S := Add(P, R);
    MulApplies(K, S, z);
    ApplyLength(S, z);
    Adjoint(x, K, Apply(S, z));
    FormAdd(P, R, Combine(x, K, n), z);
  }

  /** There is always a gain, for any positive definite noise. */
  lemma GainExists(P: Matrix, R: Matrix, n: nat) returns (K: Matrix)
    requires IsCovariance(P, n) && IsMatrix(R, n, n) && Positive(R, n)
    ensures IsGain(K, P, R, n)
  {
    InnovationPositive(P, R, n);
    hide Mul, Add, Positive;
    K := Divisible(P, Add(P, R), n);
  }

  /** Only one matrix solves the gain equation, so the update does not depend on the solver. */
  lemma GainUnique(K: Matrix, L: Matrix, P: Matrix, R: Matrix, n: nat)
    requires IsMatrix(P, n, n) && IsMatrix(R, n, n) && Positive(Add(P, R), n) && IsGain(K, P, R, n)
             && IsGain(L, P, R, n)
    ensures K == L
  {
    hide Form, Mul, Add, Combine, Positive;
    forall i | 0 <= i < n ensures K[i] == L[i] {
      GainRows(K, L, P, R, n, i);
    }
  }

  lemma GainRows(K: Matrix, L: Matrix, P: Matrix, R: Matrix, n: nat, i: nat)
    requires IsMatrix(P, n, n) && IsMatrix(R, n, n) && Positive(Add(P, R), n) && IsGain(K, P, R, n)
             && IsGain(L, P, R, n) && i < n
    ensures K[i] == L[i]
  {
    var S, d := Add(P, R), Minus(K[i], L[i]);
    assert Mul(K, S, n)[i] == Combine(K[i], S, n) && Mul(L, S, n)[i] == Combine(L[i], S, n);
    hide Mul, Add, Combine;
    Adjoint(K[i], S, d);
    Adjoint(L[i], S, d);
    DotMinus(K[i], L[i], Apply(S, d));
    assert Form(S, d, d) == 0.0;
    assert d == Zero(n);
    forall j | 0 <= j < n ensures K[i][j] == L[i][j] {
      assert d[j] == 0.0;
    }
  }

  // ----- the update

  function Posterior(K: Matrix, P: Matrix, n: nat): (M: Matrix)
    requires IsMatrix(K, n, n) && IsMatrix(P, n, n)
    ensures IsMatrix(M, n, n)
  {
    Mul(Subtract(Identity(n), K), P, n)
  }

  lemma PosteriorForm(K: Matrix, P: Matrix, n: nat, x: Vec, z: Vec)
    requires IsMatrix(K, n, n) && IsMatrix(P, n, n) && |x| == |z| == n
    ensures Form(Posterior(K, P, n), x, z) == Form(P, x, z) - Form(P, Combine(x, K, n), z)
  {
    hide Dot, Apply, Mul, Combine, Subtract, Identity;
    var u := Apply(P, z);
    ApplyLength(P, z);
    MulApplies(Subtract(Identity(n), K), P, z);
    AddApplies(Identity(n), K, u);
    IdentityApplies(u);
    ApplyLength(K, u);
    DotMinus(u, Apply(K, u), x);
    Adjoint(x, K, u);
  }

  /** The update in Joseph's form, which shows that it keeps a covariance a covariance. */
  lemma JosephForm(K: Matrix, P: Matrix, R: Matrix, n: nat, x: Vec, z: Vec)
    requires IsCovariance(P, n) && IsCovariance(R, n) && IsGain(K, P, R, n) && |x| == |z| == n
    ensures var y, w := Combine(x, K, n), Combine(z, K, n);
            Form(Posterior(K, P, n), x, z) == Form(P, Minus(x, y), Minus(z, w)) + Form(R, y, w)
  {
    hide Form, Posterior, Combine, Mul, Add, NonNegative;
    var y, w := Combine(x, K, n), Combine(z, K, n);
    PosteriorForm(K, P, n, x, z);
    GainForm(K, P, R, n, x, w);
    FormMinus(P, x, y, Minus(z, w));
    FormMinus(P, z, w, x);
    FormMinus(P, z, w, y);
    GainForm(K, P, R, n, z, x);
    GainForm(K, P, R, n, z, y);
  }

  lemma PosteriorIsCovariance(K: Matrix, P: Matrix, R: Matrix, n: nat)
    requires IsCovariance(P, n) && IsCovariance(R, n) && IsGain(K, P, R, n)
    ensures IsCovariance(Posterior(K, P, n), n)
  {
    hide Form, Posterior, Combine, Minus, Mul;
    var M := Posterior(K, P, n);
    forall x: Vec, z: Vec | |x| == |z| == n ensures Form(M, x, z) == Form(M, z, x) {
      JosephForm(K, P, R, n, x, z);
      JosephForm(K, P, R, n, z, x);
      MinusLength(x, Combine(x, K, n));
      MinusLength(z, Combine(z, K, n));
    }
    forall x: Vec | |x| == n ensures Form(M, x, x) >= 0.0 {
      JosephForm(K, P, R, n, x, x);
      MinusLength(x, Combine(x, K, n));
    }
  }

  lemma MinusLength(x: Vec, y: Vec)
    requires |x| == |y|
    ensures |Minus(x, y)| == |x|
  {
  }

  /** An update never adds uncertainty: the posterior lies below the prior and below the measurement noise. */
  lemma PosteriorBelow(K: Matrix, P: Matrix, R: Matrix, n: nat)
    requires IsCovariance(P, n) && IsCovariance(R, n) && IsGain(K, P, R, n)
    ensures Below(Posterior(K, P, n), P, n) && Below(Posterior(K, P, n), R, n)
  {
    hide Form, Posterior, Combine, Minus, Mul;
    forall x: Vec | |x| == n
      ensures Form(Posterior(K, P, n), x, x) <= Form(P, x, x) && Form(Posterior(K, P, n), x, x) <= Form(R, x, x)
    {
      var y := Combine(x, K, n);
      var u := Minus(x, y);
      MinusLength(x, y);
      PosteriorForm(K, P, n, x, x);
      GainForm(K, P, R, n, x, y);
      GainForm(K, P, R, n, x, x);
      GainForm(K, P, R, n, x, u);
      FormMinus(R, x, y, x);
      FormMinus(R, x, y, u);
      FormMinus(P, x, y, u);
    }
  }

  lemma UpdateLowersTrace(K: Matrix, P: Matrix, R: Matrix, n: nat)
    requires IsCovariance(P, n) && IsCovariance(R, n) && IsGain(K, P, R, n)
    ensures Trace(Posterior(K, P, n)) <= Trace(P) && Trace(Posterior(K, P, n)) <= Trace(R)
  {
    PosteriorBelow(K, P, R, n);
    hide Below, Posterior, IsGain, TraceTo;
    TraceOrdered(Posterior(K, P, n), P, n);
    TraceOrdered(Posterior(K, P, n), R, n);
  }

  // ----- diagonal noise

  function Weighted(d: Vec, x: Vec): Vec
    requires |d| == |x|
  {
    seq(|x|, i requires 0 <= i < |x| => Product(d[i], x[i]))
  }

  lemma DiagonalApplies(d: Vec, x: Vec)
    requires |d| == |x|
    ensures Apply(Diagonal(d), x) == Weighted(d, x)
  {
    forall i | 0 <= i < |d| ensures Dot(Diagonal(d)[i], x) == Product(d[i], x[i]) {
      UnitRow(d, i);
      DotTimes(d[i], Unit(|d|, i), x);
      DotUnit(x, i);
    }
  }

  lemma UnitRow(d: Vec, i: nat)
    requires i < |d|
    ensures Diagonal(d)[i] == Times(d[i], Unit(|d|, i))
  {
  }

  lemma {:induction false} WeightedSymmetric(d: Vec, x: Vec, y: Vec)
    requires |d| == |x| == |y|
    ensures Dot(x, Weighted(d, y)) == Dot(y, Weighted(d, x))
  {
    if x != [] {
      WeightedSymmetric(d[1..], x[1..], y[1..]);
      assert Weighted(d, y)[1..] == Weighted(d[1..], y[1..]);
      assert Weighted(d, x)[1..] == Weighted(d[1..], x[1..]);
      hide Product;
    }
  }

  lemma {:induction false} WeightedSign(d: Vec, x: Vec)
    requires |d| == |x| && forall i | 0 <= i < |d| :: d[i] >= 0.0
    ensures Dot(x, Weighted(d, x)) >= 0.0
    ensures (forall i | 0 <= i < |d| :: d[i] > 0.0) && x != Zero(|x|) ==> Dot(x, Weighted(d, x)) > 0.0
  {
    if x != [] {
      WeightedSign(d[1..], x[1..]);
      assert Weighted(d, x)[1..] == Weighted(d[1..], x[1..]);
      WeightedSquare(d[0], x[0]);
      hide Product;
      assert x == [x[0]] + x[1..];
      assert x[0] == 0.0 && x[1..] == Zero(|x[1..]|) ==> x == Zero(|x|);
    }
  }

  lemma WeightedSquare(d: real, x: real)
    requires d >= 0.0
    ensures Product(x, Product(d, x)) >= 0.0
    ensures d > 0.0 && x != 0.0 ==> Product(x, Product(d, x)) > 0.0
  {
    SquareSign(x);
    PositiveProduct(d, Square(x));
    assert Product(x, Product(d, x)) == Product(d, Square(x));
  }

  /** Diagonal noise is a covariance, and positive definite when every entry is positive. */
  lemma DiagonalIsCovariance(d: Vec)
    requires forall i | 0 <= i < |d| :: d[i] >= 0.0
    ensures IsCovariance(Diagonal(d), |d|)
    ensures (forall i | 0 <= i < |d| :: d[i] > 0.0) ==> Positive(Diagonal(d), |d|)
  {
    hide Dot, Apply, Diagonal, Weighted;
    forall x: Vec, y: Vec | |x| == |y| == |d| ensures Form(Diagonal(d), x, y) == Form(Diagonal(d), y, x) {
      DiagonalApplies(d, x);
      DiagonalApplies(d, y);
      WeightedSymmetric(d, x, y);
    }
    forall x: Vec | |x| == |d|
      ensures Form(Diagonal(d), x, x) >= 0.0
      ensures (forall i | 0 <= i < |d| :: d[i] > 0.0) && x != Zero(|d|) ==> Form(Diagonal(d), x, x) > 0.0
    {
      DiagonalApplies(d, x);
      WeightedSign(d, x);
    }
  }
}
