/** The filter of one node: seven states (three angular rates and a quaternion), measured directly. */
module Kalman {
  import opened Reals
  import opened Linear
  import opened Covariance
  import opened Elimination
  import Q = Quaternion

  const DT := 0.01
  const STATES := 7

  type State = x: Vec | |x| == STATES witness [0.0, 0.0, 0.0, 1.0, 0.0, 0.0, 0.0]

  /** The rate of change of the state. */
  function StateRate(x: State): (r: State) {
    [-x[0] / 0.5, -x[1] / 0.5, -x[2] / 0.5,
     -0.5 * (Product(x[0], x[4]) + Product(x[1], x[5]) + Product(x[2], x[6])),
     0.5 * (Product(x[0], x[3]) + Product(x[2], x[5]) - Product(x[1], x[6])),
     0.5 * (Product(x[0], x[6]) + Product(x[1], x[3]) - Product(x[2], x[4])),
     0.5 * (Product(x[1], x[4]) + Product(x[2], x[3]) - Product(x[0], x[5]))]
  }

  /** The matrix A of the prediction before it is scaled by the time step. */
  function Jacobian(x: State): (M: Matrix)
    ensures IsMatrix(M, STATES, STATES)
  {
    [[-2.0, 0.0, 0.0, 0.0, 0.0, 0.0, 0.0],
     [0.0, -2.0, 0.0, 0.0, 0.0, 0.0, 0.0],
     [0.0, 0.0, -2.0, 0.0, 0.0, 0.0, 0.0],
     [-0.5 * x[4], -0.5 * x[5], -0.5 * x[6], 0.0, -0.5 * x[0], -0.5 * x[1], -0.5 * x[2]],
     [0.5 * x[3], -0.5 * x[6], 0.5 * x[5], 0.5 * x[0], 0.0, 0.5 * x[2], -0.5 * x[1]],
     [0.5 * x[6], 0.5 * x[3], -0.5 * x[4], 0.5 * x[1], -0.5 * x[2], 0.0, 0.5 * x[0]],
     [-0.5 * x[5], 0.5 * x[4], 0.5 * x[3], 0.5 * x[2], 0.5 * x[1], -0.5 * x[0], 0.0]]
  }

  function Transition(x: State): (M: Matrix)
    ensures IsMatrix(M, STATES, STATES)
  {
    Add(Scaled(DT, Jacobian(x)), Identity(STATES))
  }

  /** One step of the fourth-order Runge-Kutta scheme. */
  function Ahead(x: State): (r: State) {
    var k1 := Times(DT, StateRate(x));
    var k2 := Times(DT, StateRate(Plus(x, Times(0.5, k1))));
    var k3 := Times(DT, StateRate(Plus(x, Times(0.5, k2))));
    var k4 := Times(DT, StateRate(Plus(x, k3)));
    Plus(x, Times(1.0 / 6.0, Plus(Plus(k1, Times(2.0, k2)), Plus(Times(2.0, k3), k4))))
  }

  // ----- noise; `decay` stands for exp(-2 * dt / 0.5)

  function ProcessNoise(decay: real): (M: Matrix)
    ensures IsMatrix(M, STATES, STATES)
  {
    var q := 0.4 * (1.0 - decay);
    Diagonal([q, q, q, 0.0, 0.0, 0.0, 0.0])
  }

  function MeasurementNoise(): (M: Matrix)
    ensures IsMatrix(M, STATES, STATES)
  {
    Diagonal([0.01, 0.01, 0.01, 0.0001, 0.0001, 0.0001, 0.0001])
  }

  function InitialCovariance(): (M: Matrix)
    ensures IsMatrix(M, STATES, STATES)
  {
    seq(STATES, _ => seq(STATES, _ => 0.1))
  }

  // ----- one row of data

  /** A division B / S from the right: for a positive definite S, some X with X * S = B. */
  ghost predicate Divides(divide: (Matrix, Matrix) -> Matrix) {
    forall B: Matrix, S: Matrix | IsMatrix(B, STATES, STATES) && IsMatrix(S, STATES, STATES) ::
      && IsMatrix(divide(B, S), STATES, STATES)
      && (Positive(S, STATES) ==> Mul(divide(B, S), S, STATES) == B)
  }

  lemma SomeQuotient(B: Matrix, S: Matrix)
    requires IsMatrix(B, STATES, STATES) && IsMatrix(S, STATES, STATES) && Positive(S, STATES)
    ensures exists K :: IsMatrix(K, STATES, STATES) && Mul(K, S, STATES) == B
  {
    var K := Divisible(B, S, STATES);
  }

  ghost function Quotient(B: Matrix, S: Matrix): (K: Matrix)
    ensures IsMatrix(K, STATES, STATES)
    ensures IsMatrix(B, STATES, STATES) && IsMatrix(S, STATES, STATES) && Positive(S, STATES) ==> Mul(K, S, STATES) == B
  {
    if IsMatrix(B, STATES, STATES) && IsMatrix(S, STATES, STATES) && Positive(S, STATES) then
      SomeQuotient(B, S);
      var K0 :| IsMatrix(K0, STATES, STATES) && Mul(K0, S, STATES) == B;
      K0
    else Identity(STATES)
  }

  /** There is such a division. */
  lemma DivisionExists() returns (divide: (Matrix, Matrix) -> Matrix)
    ensures Divides(divide)
  {
    divide := (B, S) => Quotient(B, S);
    forall B: Matrix, S: Matrix | IsMatrix(B, STATES, STATES) && IsMatrix(S, STATES, STATES)
      ensures IsMatrix(divide(B, S), STATES, STATES) && (Positive(S, STATES) ==> Mul(divide(B, S), S, STATES) == B)
    {
    }
  }

  datatype Estimate = Estimate(x: State, P: Matrix)

  /** What a row makes of the estimate; the measurement matrix H is the identity. */
  datatype Update = Update(estimate: Estimate, xPriori: State, PPriori: Matrix, K: Matrix)

  function Filter(e: Estimate, z: State, decay: real, divide: (Matrix, Matrix) -> Matrix): (u: Update)
    requires Divides(divide) && IsMatrix(e.P, STATES, STATES)
    ensures IsMatrix(u.estimate.P, STATES, STATES) && IsMatrix(u.PPriori, STATES, STATES)
            && IsMatrix(u.K, STATES, STATES)
  {
    var n := STATES;
    var xPriori := Ahead(e.x);
    var PPriori := Priori(e.P, Transition(e.x), ProcessNoise(decay), n);
    var H := Identity(n);
    var S := Add(Mul(Mul(H, PPriori, n), Transpose(H, n), n), MeasurementNoise());
    var K := divide(Mul(PPriori, Transpose(H, n), n), S);
    var x := Plus(xPriori, Apply(K, Minus(z, Apply(H, xPriori))));
    var P := Mul(Subtract(Identity(n), Mul(K, H, n)), PPriori, n);
    Update(Estimate(x, P), xPriori, PPriori, K)
  }

  // ----- a node's data file

  predicate Rows(gyro: seq<Vec>, qSens: seq<Vec>) {
    && |gyro| == |qSens|
    && (forall i | 0 <= i < |gyro| :: |gyro[i]| == 3 && |qSens[i]| == 4)
  }

  /** The measurement of a row: rates, then the sensed quaternion. */
  function Measurement(gyro: seq<Vec>, qSens: seq<Vec>, i: nat): State
    requires Rows(gyro, qSens) && i < |gyro|
  {
    gyro[i] + qSens[i]
  }

  function Start(): (e: Estimate)
    ensures IsMatrix(e.P, STATES, STATES)
  {
    Estimate([0.0, 0.0, 0.0, 1.0, 0.0, 0.0, 0.0], InitialCovariance())
  }

  /** The update at row `i`; the first row is not filtered. */
  function UpdateAt(gyro: seq<Vec>, qSens: seq<Vec>, i: nat, decay: real, divide: (Matrix,
          Matrix) -> Matrix): (u: Update)
    requires Rows(gyro, qSens) && Divides(divide) && 0 < i < |gyro|
    ensures IsMatrix(u.estimate.P, STATES, STATES) && IsMatrix(u.PPriori, STATES, STATES)
            && IsMatrix(u.K, STATES, STATES)
    decreases i
  {
    var before := if i == 1 then Start() else UpdateAt(gyro, qSens, i - 1, decay, divide).estimate;
    Filter(before, Measurement(gyro, qSens, i), decay, divide)
  }

  /** What is recorded at row `i`: filtered rates, filtered quaternion and cost. */
  ghost predicate Recorded(gyro: seq<Vec>, qSens: seq<Vec>, i: nat, decay: real, divide: (Matrix, Matrix) -> Matrix,
                           w: Vec, q: Vec, cost: real)
    requires Rows(gyro, qSens) && Divides(divide) && i < |gyro|
  {
    if i == 0 then w == Zero(3) && q == Zero(4) && cost == 0.0
    else
      var u := UpdateAt(gyro, qSens, i, decay, divide);
      w == u.estimate.x[..3] && q == u.estimate.x[3..] && cost == Trace(u.estimate.P)
  }

  /** The estimate before row `i`. */
  function Before(gyro: seq<Vec>, qSens: seq<Vec>, i: nat, decay: real, divide: (Matrix,
          Matrix) -> Matrix): (e: Estimate)
    requires Rows(gyro, qSens) && Divides(divide) && 0 < i <= |gyro|
    ensures IsMatrix(e.P, STATES, STATES)
  {
    if i == 1 then Start() else UpdateAt(gyro, qSens, i - 1, decay, divide).estimate
  }

  lemma UpdateFollows(gyro: seq<Vec>, qSens: seq<Vec>, i: nat, decay: real, divide: (Matrix, Matrix) -> Matrix)
    requires Rows(gyro, qSens) && Divides(divide) && 0 < i < |gyro|
    ensures UpdateAt(gyro, qSens, i, decay, divide)
            == Filter(Before(gyro, qSens, i, decay, divide), Measurement(gyro, qSens, i), decay, divide)
    ensures Before(gyro, qSens, i + 1, decay, divide) == UpdateAt(gyro, qSens, i, decay, divide).estimate
  {
    hide Filter, Start, Divides;
  }

  lemma SevenOnTrace(P: Matrix)
    requires IsMatrix(P, STATES, STATES)
    ensures Trace(P) == P[0][0] + P[1][1] + P[2][2] + P[3][3] + P[4][4] + P[5][5] + P[6][6]
  {
    assert TraceTo(P, 1) == P[0][0];
    assert TraceTo(P, 3) == TraceTo(P, 1) + P[1][1] + P[2][2];
    assert TraceTo(P, 5) == TraceTo(P, 3) + P[3][3] + P[4][4];
    assert TraceTo(P, 7) == TraceTo(P, 5) + P[5][5] + P[6][6];
  }

  /** The loop over the data file. */
  method KfNode(gyro: seq<Vec>, qSens: seq<Vec>, decay: real, divide: (Matrix, Matrix) -> Matrix)
    returns (wKalman: seq<Vec>, qKalman: seq<Vec>, J: seq<real>)
    requires Rows(gyro, qSens) && Divides(divide)
    ensures |wKalman| == |qKalman| == |J| == |gyro|
    ensures |gyro| > 0 ==> wKalman[0] == [0.0, 0.0, 0.0] && qKalman[0] == [0.0, 0.0, 0.0, 0.0] && J[0] == 0.0
    ensures forall i | 0 < i < |gyro| ::
              var x, P := UpdateAt(gyro, qSens, i, decay, divide).estimate.x,
              UpdateAt(gyro, qSens, i, decay, divide).estimate.P;
              && wKalman[i] == [x[0], x[1], x[2]] && qKalman[i] == [x[3], x[4], x[5], x[6]]
              && J[i] == P[0][0] + P[1][1] + P[2][2] + P[3][3] + P[4][4] + P[5][5] + P[6][6]
  {
    hide Divides, Filter, Trace, InitialCovariance, UpdateAt;
    var n := |gyro|;
    wKalman, qKalman, J := seq(n, _ => Zero(3)), seq(n, _ => Zero(4)), seq(n, _ => 0.0);
    var e := Start();
    var i := 1;
    while i < n
      invariant |wKalman| == |qKalman| == |J| == n && 1 <= i && (n > 0 ==> i <= n)
      invariant IsMatrix(e.P, STATES, STATES) && (n > 0 ==> e == Before(gyro, qSens, i, decay, divide))
      invariant forall k | 0 <= k < i && k < n :: Recorded(gyro, qSens, k, decay, divide, wKalman[k], qKalman[k], J[k])
    {
      UpdateFollows(gyro, qSens, i, decay, divide);
      var z := Measurement(gyro, qSens, i);
      e := Filter(e, z, decay, divide).estimate;
      J := J[i := Trace(e.P)];
      wKalman, qKalman := wKalman[i := e.x[..3]], qKalman[i := e.x[3..]];
      i := i + 1;
    }
    forall i | 0 < i < n
      ensures var P := UpdateAt(gyro, qSens, i, decay, divide).estimate.P;
              Trace(P) == P[0][0] + P[1][1] + P[2][2] + P[3][3] + P[4][4] + P[5][5] + P[6][6]
    {
      SevenOnTrace(UpdateAt(gyro, qSens, i, decay, divide).estimate.P);
    }
  }

  // ----- the covariance over every run

  lemma IdentityTranspose(n: nat)
    ensures Transpose(Identity(n), n) == Identity(n)
  {
    forall i | 0 <= i < n ensures Transpose(Identity(n), n)[i] == Identity(n)[i] {
      UnitColumn(n, i);
    }
  }

  lemma IdentityMul(M: Matrix, n: nat)
    requires IsMatrix(M, n, n)
    ensures Mul(Identity(n), M, n) == M && Mul(M, Identity(n), n) == M
  {
    forall i | 0 <= i < n ensures Combine(Identity(n)[i], M, n) == M[i] && Combine(M[i], Identity(n), n) == M[i] {
      IdentityRow(M, n, i);
    }
  }

  lemma IdentityRow(M: Matrix, n: nat, i: nat)
    requires IsMatrix(M, n, n) && i < n
    ensures Combine(Unit(n, i), M, n) == M[i] && Combine(M[i], Identity(n), n) == M[i]
  {
    forall j | 0 <= j < n
      ensures Combine(Unit(n, i), M, n)[j] == M[i][j] && Combine(M[i], Identity(n), n)[j] == M[i][j]
    {
      CombineEntry(Unit(n, i), M, n, j);
      DotUnit(Column(M, n, j), i);
      CombineEntry(M[i], Identity(n), n, j);
      UnitColumn(n, j);
      DotUnit(M[i], j);
    }
  }

  lemma UnitColumn(n: nat, j: nat)
    requires j < n
    ensures Column(Identity(n), n, j) == Unit(n, j)
  {
  }

  /** With the identity as measurement matrix the step is the plain gain equation and the plain update. */
  lemma FilterIsPlain(e: Estimate, z: State, decay: real, divide: (Matrix, Matrix) -> Matrix)
    requires Divides(divide) && IsMatrix(e.P, STATES, STATES)
    ensures var u := Filter(e, z, decay, divide);
            && u.PPriori == Priori(e.P, Transition(e.x), ProcessNoise(decay), STATES)
            && u.K == divide(u.PPriori, Add(u.PPriori, MeasurementNoise()))
            && u.estimate.P == Posterior(u.K, u.PPriori, STATES)
  {
    hide Divides, Priori, Mul, Transpose, Transition, ProcessNoise, MeasurementNoise, Ahead, Identity, Apply, Add,
      Subtract;
    var u := Filter(e, z, decay, divide);
    IdentityTranspose(STATES);
    IdentityMul(u.PPriori, STATES);
    IdentityMul(u.K, STATES);
  }

  ghost predicate Decays(decay: real) {
    0.0 < decay <= 1.0
  }

  lemma NoiseIsCovariance(decay: real)
    requires Decays(decay)
    ensures IsCovariance(ProcessNoise(decay), STATES)
    ensures IsCovariance(MeasurementNoise(), STATES) && Positive(MeasurementNoise(), STATES)
  {
    hide IsCovariance, Positive, Diagonal;
    var q := 0.4 * (1.0 - decay);
    DiagonalIsCovariance([q, q, q, 0.0, 0.0, 0.0, 0.0]);
    DiagonalIsCovariance([0.01, 0.01, 0.01, 0.0001, 0.0001, 0.0001, 0.0001]);
  }

  /** One step from a covariance: the division is solvable, the result is a covariance, and neither the
      prior trace nor the measurement noise is exceeded. */
  lemma FilterKeepsCovariance(e: Estimate, z: State, decay: real, divide: (Matrix, Matrix) -> Matrix)
    requires Divides(divide) && Decays(decay) && IsCovariance(e.P, STATES)
    ensures var u := Filter(e, z, decay, divide);
            && IsCovariance(u.PPriori, STATES) && IsGain(u.K, u.PPriori, MeasurementNoise(), STATES)
            && IsCovariance(u.estimate.P, STATES)
            && Trace(u.estimate.P) <= Trace(u.PPriori) && Trace(u.estimate.P) <= Trace(MeasurementNoise())
  {
    hide Filter, Priori, Transition, ProcessNoise, MeasurementNoise, Posterior, Positive, Trace, SymmetricForm,
      NonNegative, Add, Mul;
    var u, R := Filter(e, z, decay, divide), MeasurementNoise();
    FilterIsPlain(e, z, decay, divide);
    NoiseIsCovariance(decay);
    PrioriIsCovariance(e.P, Transition(e.x), ProcessNoise(decay), STATES);
    InnovationPositive(u.PPriori, R, STATES);
    assert IsGain(u.K, u.PPriori, R, STATES);
    PosteriorIsCovariance(u.K, u.PPriori, R, STATES);
    UpdateLowersTrace(u.K, u.PPriori, R, STATES);
  }

  /** The correction balances prediction and measurement: for some u it moves the prediction by P u, and
      leaves the measurement R u away. */
  lemma UpdateBalances(e: Estimate, z: State, decay: real, divide: (Matrix, Matrix) -> Matrix) returns (u: Vec)
    requires Divides(divide) && Decays(decay) && IsCovariance(e.P, STATES)
    ensures |u| == STATES
    ensures var f := Filter(e, z, decay, divide);
            && f.estimate.x == Plus(f.xPriori, Apply(f.PPriori, u))
            && Minus(z, f.estimate.x) == Apply(MeasurementNoise(), u)
  {
    hide Priori, Transition, ProcessNoise, MeasurementNoise, Posterior, Positive, SymmetricForm, NonNegative, Add,
      Mul, Ahead, Combine, Divides, Transpose, Form;
    var f, R, n := Filter(e, z, decay, divide), MeasurementNoise(), STATES;
    FilterKeepsCovariance(e, z, decay, divide);
    NoiseIsCovariance(decay);
    var S, r := Add(f.PPriori, R), Minus(z, f.xPriori);
    InnovationPositive(f.PPriori, R, n);
    u := RowSolvable(S, n, r);
    InnovationSymmetric(f.PPriori, R, n);
    CombineIsApply(S, n, u);
    MulApplies(f.K, S, u);
    AddApplies(f.PPriori, R, u);
    EstimateIs(e, z, decay, divide);
    hide Filter, Apply;
    Balanced(f.xPriori, z, Apply(f.PPriori, u), Apply(R, u));
  }

  lemma EstimateIs(e: Estimate, z: State, decay: real, divide: (Matrix, Matrix) -> Matrix)
    requires Divides(divide) && IsMatrix(e.P, STATES, STATES)
    ensures var f := Filter(e, z, decay, divide); f.estimate.x == Plus(f.xPriori, Apply(f.K, Minus(z, f.xPriori)))
  {
    hide Priori, Transition, ProcessNoise, MeasurementNoise, Posterior, Mul, Ahead, Combine, Divides, Transpose,
      Identity;
    IdentityApplies(Filter(e, z, decay, divide).xPriori);
  }

  lemma Balanced(x: Vec, z: Vec, p: Vec, r: Vec)
    requires |x| == |z| == |p| == |r| && Minus(z, x) == Plus(p, r)
    ensures Minus(z, Plus(x, p)) == r
  {
    forall i | 0 <= i < |x| ensures z[i] - (x[i] + p[i]) == r[i] {
      assert Minus(z, x)[i] == Plus(p, r)[i];
    }
  }

  lemma InnovationSymmetric(P: Matrix, R: Matrix, n: nat)
    requires IsCovariance(P, n) && IsCovariance(R, n)
    ensures Transpose(Add(P, R), n) == Add(P, R)
  {
    hide Form, Add, Transpose, NonNegative;
    forall x: Vec, y: Vec | |x| == |y| == n ensures Form(Add(P, R), x, y) == Form(Add(P, R), y, x) {
      FormAdd(P, R, x, y);
      FormAdd(P, R, y, x);
    }
    SymmetricIff(Add(P, R), n);
  }

  lemma InitialIsCovariance()
    ensures IsCovariance(InitialCovariance(), STATES)
  {
    var P, r := InitialCovariance(), seq(STATES, _ => 0.1);
    forall x: Vec, y: Vec | |x| == |y| == STATES
      ensures Form(P, x, y) == 10.0 * Product(Dot(r, x), Dot(r, y))
    {
      InitialForm(x, y);
    }
    hide Form, Dot, InitialCovariance, Product;
    forall x: Vec, y: Vec | |x| == |y| == STATES ensures Form(P, x, y) == Form(P, y, x) {
      ProductCommutes(Dot(r, x), Dot(r, y));
    }
    forall x: Vec | |x| == STATES ensures Form(P, x, x) >= 0.0 {
      SquareSign(Dot(r, x));
    }
  }

  lemma ProductCommutes(a: real, b: real)
    ensures Product(a, b) == Product(b, a)
  {
  }

  lemma TenTenths(t: real)
    ensures Product(10.0 * t, 0.1) == t
  {
  }

  lemma TenTimes(t: real, s: real)
    ensures Product(10.0 * t, s) == 10.0 * Product(s, t)
  {
  }

  lemma InitialForm(x: Vec, y: Vec)
    requires |x| == |y| == STATES
    ensures var r: Vec := seq(STATES, _ => 0.1);
            Form(InitialCovariance(), x, y) == 10.0 * Product(Dot(r, x), Dot(r, y))
  {
    hide Dot, Product;
    var r: Vec := seq(STATES, _ => 0.1);
    var t := Dot(r, y);
    TenTenths(t);
    forall i | 0 <= i < STATES ensures Apply(InitialCovariance(), y)[i] == Times(10.0 * t, r)[i] {
      assert InitialCovariance()[i] == r;
    }
    assert Apply(InitialCovariance(), y) == Times(10.0 * t, r);
    DotSymmetric(x, Times(10.0 * t, r));
    DotTimes(10.0 * t, r, x);
    TenTimes(t, Dot(r, x));
  }

  /** Every run: from the all-0.1 start, after any number of rows and whatever is measured, the error
      covariance is symmetric and positive semidefinite, each update lowers its trace or keeps it, and
      the cost never exceeds the trace of the measurement noise. */
  lemma {:induction false} CovarianceOverRuns(gyro: seq<Vec>, qSens: seq<Vec>, i: nat, decay: real, divide: (Matrix,
          Matrix) -> Matrix)
    requires Rows(gyro, qSens) && Divides(divide) && Decays(decay) && 0 < i < |gyro|
    ensures var u := UpdateAt(gyro, qSens, i, decay, divide);
            && IsCovariance(u.PPriori, STATES) && IsCovariance(u.estimate.P, STATES)
            && IsGain(u.K, u.PPriori, MeasurementNoise(), STATES)
            && Trace(u.estimate.P) <= Trace(u.PPriori)
            && Trace(u.estimate.P) <= Trace(MeasurementNoise())
    decreases i
  {
    hide IsCovariance, IsGain, Trace, Filter, Divides, InitialCovariance, MeasurementNoise;
    UpdateFollows(gyro, qSens, i, decay, divide);
    var before := Before(gyro, qSens, i, decay, divide);
    if i == 1 {
      InitialIsCovariance();
    } else {
      CovarianceOverRuns(gyro, qSens, i - 1, decay, divide);
    }
    FilterKeepsCovariance(before, Measurement(gyro, qSens, i), decay, divide);
  }

  /** The bound on the cost, as a number. */
  lemma NoiseTrace()
    ensures Trace(MeasurementNoise()) == 0.0304
  {
  }

  // ----- the state model

  function Orientation(x: State): Q.Quat {
    Q.Quat(x[3], x[4], x[5], x[6])
  }

  function Rate(x: State): Q.Quat {
    Q.Pure(Q.Vec3(x[0], x[1], x[2]))
  }

  /** The quaternion rows are half the product of the quaternion with the angular rate. */
  lemma RateIsHalfProduct(x: State)
    ensures Orientation(StateRate(x)) == Q.Times(0.5, Q.Prod(Orientation(x), Rate(x)))
  {
    hide Product;
    var p := Q.Prod(Orientation(x), Rate(x));
    Swapped(x[3], x[0], x[1], x[2]);
    Swapped(x[4], x[0], x[1], x[2]);
    Swapped(x[5], x[0], x[1], x[2]);
    Swapped(x[6], x[0], x[1], x[2]);
    Halved(p.w);
    Halved(p.x);
    Halved(p.y);
    Halved(p.z);
  }

  lemma Swapped(a: real, x: real, y: real, z: real)
    ensures Product(a, 0.0) == 0.0
    ensures Product(a, x) == Product(x, a) && Product(a, y) == Product(y, a) && Product(a, z) == Product(z, a)
  {
  }

  lemma Halved(a: real)
    ensures Product(0.5, a) == 0.5 * a
  {
  }

  /** The quaternion moves at right angles to itself: to first order its length stays. */
  lemma RateKeepsLength(x: State)
    ensures var q, r := Orientation(x), Orientation(StateRate(x));
            Product(q.w, r.w) + Product(q.x, r.x) + Product(q.y, r.y) + Product(q.z, r.z) == 0.0
  {
  }

  /** What a linear model of the rate leaves out: half the product of the deviations. */
  function Remainder(h: State): (r: Vec)
    ensures |r| == STATES
  {
    var q := Q.Times(0.5, Q.Prod(Orientation(h), Rate(h)));
    [0.0, 0.0, 0.0, q.w, q.x, q.y, q.z]
  }

  lemma SevenTerms(a: Vec, h: Vec)
    requires |a| == |h| == STATES
    ensures Dot(a, h) == Product(a[0], h[0]) + Product(a[1], h[1]) + Product(a[2], h[2]) + Product(a[3], h[3])
                         + Product(a[4], h[4]) + Product(a[5], h[5]) + Product(a[6], h[6])
  {
    hide Product;
    assert Dot(a[6..], h[6..]) == Product(a[6], h[6]);
    assert Dot(a[5..], h[5..]) == Product(a[5], h[5]) + Dot(a[6..], h[6..]) by { RestOfDot(a, h, 5); }
    assert Dot(a[4..], h[4..]) == Product(a[4], h[4]) + Dot(a[5..], h[5..]) by { RestOfDot(a, h, 4); }
    assert Dot(a[3..], h[3..]) == Product(a[3], h[3]) + Dot(a[4..], h[4..]) by { RestOfDot(a, h, 3); }
    assert Dot(a[2..], h[2..]) == Product(a[2], h[2]) + Dot(a[3..], h[3..]) by { RestOfDot(a, h, 2); }
    assert Dot(a[1..], h[1..]) == Product(a[1], h[1]) + Dot(a[2..], h[2..]) by { RestOfDot(a, h, 1); }
    assert a[0..] == a && h[0..] == h;
  }

  lemma RestOfDot(a: Vec, h: Vec, i: nat)
    requires |a| == |h| && i < |a|
    ensures Dot(a[i..], h[i..]) == Product(a[i], h[i]) + Dot(a[i + 1..], h[i + 1..])
  {
  }

  lemma Bilinear(a: real, b: real, c: real, d: real)
    ensures Product(a + c, b + d) == Product(a, b) + (Product(b, c) + Product(a, d)) + Product(c, d)
    ensures Product(0.5 * b, c) == 0.5 * Product(b, c) == -Product(-0.5 * b, c)
    ensures Product(0.5 * a, d) == 0.5 * Product(a, d) == -Product(-0.5 * a, d)
  {
  }

  lemma RowsExpand(x: State, h: State)
    ensures var s, r, l, J := StateRate(Plus(x, h)), StateRate(x), StateRate(h), Jacobian(x);
            && s[3] == r[3] + Dot(J[3], h) + l[3] && s[4] == r[4] + Dot(J[4], h) + l[4]
            && s[5] == r[5] + Dot(J[5], h) + l[5] && s[6] == r[6] + Dot(J[6], h) + l[6]
  {
    RowExpands(x, h, 3);
    RowExpands(x, h, 4);
    RowExpands(x, h, 5);
    RowExpands(x, h, 6);
    hide StateRate, Jacobian, Plus, Dot;
  }

  lemma RowExpands(x: State, h: State, i: nat)
    requires 3 <= i < STATES
    ensures StateRate(Plus(x, h))[i] == StateRate(x)[i] + Dot(Jacobian(x)[i], h) + StateRate(h)[i]
  {
    hide Product, Dot;
    SevenTerms(Jacobian(x)[i], h);
    ZeroProduct(h[3]);
    ZeroProduct(h[4]);
    ZeroProduct(h[5]);
    ZeroProduct(h[6]);
    if i == 3 {
      Bilinear(x[0], x[4], h[0], h[4]);
      Bilinear(x[1], x[5], h[1], h[5]);
      Bilinear(x[2], x[6], h[2], h[6]);
    } else if i == 4 {
      Bilinear(x[0], x[3], h[0], h[3]);
      Bilinear(x[2], x[5], h[2], h[5]);
      Bilinear(x[1], x[6], h[1], h[6]);
    } else if i == 5 {
      Bilinear(x[0], x[6], h[0], h[6]);
      Bilinear(x[1], x[3], h[1], h[3]);
      Bilinear(x[2], x[4], h[2], h[4]);
    } else {
      Bilinear(x[1], x[4], h[1], h[4]);
      Bilinear(x[2], x[3], h[2], h[3]);
      Bilinear(x[0], x[5], h[0], h[5]);
    }
  }

  lemma RateRows(x: State, h: State, i: nat)
    requires i < 3
    ensures StateRate(Plus(x, h))[i] == StateRate(x)[i] + Dot(Jacobian(x)[i], h)
  {
    hide Product, Dot;
    SevenTerms(Jacobian(x)[i], h);
    ZeroProduct(h[0]);
    ZeroProduct(h[1]);
    ZeroProduct(h[2]);
    ZeroProduct(h[3]);
    ZeroProduct(h[4]);
    ZeroProduct(h[5]);
    ZeroProduct(h[6]);
    Doubles(h[i]);
  }

  lemma Doubles(h: real)
    ensures Product(-2.0, h) == -2.0 * h
  {
  }

  /** The prediction damps each rate by the fourth-order Taylor polynomial of exp(-2 dt). */
  lemma RatesDamped(x: State, i: nat)
    requires i < 3
    ensures var z := -0.02; Ahead(x)[i] == (1.0 + z + z * z / 2.0 + z * z * z / 6.0 + z * z * z * z / 24.0) * x[i]
  {
    var k1 := Times(DT, StateRate(x));
    var k2 := Times(DT, StateRate(Plus(x, Times(0.5, k1))));
    var k3 := Times(DT, StateRate(Plus(x, Times(0.5, k2))));
    assert k1[i] == -0.02 * x[i];
    assert k2[i] == -0.02 * (x[i] + 0.5 * k1[i]);
    assert k3[i] == -0.02 * (x[i] + 0.5 * k2[i]);
  }

  /** The linear model is exact up to a bilinear remainder: half the product of the deviations of
      quaternion and rate. */
  lemma LinearizationExact(x: State, h: State)
    ensures StateRate(Plus(x, h)) == Plus(Plus(StateRate(x), Apply(Jacobian(x), h)), Remainder(h))
  {
    RowsExpand(x, h);
    RateRows(x, h, 0);
    RateRows(x, h, 1);
    RateRows(x, h, 2);
    RateIsHalfProduct(h);
    hide StateRate, Jacobian, Dot, Product;
    var s, t := StateRate(Plus(x, h)), Plus(Plus(StateRate(x), Apply(Jacobian(x), h)), Remainder(h));
    assert s[0] == t[0] && s[1] == t[1] && s[2] == t[2] && s[3] == t[3] && s[4] == t[4] && s[5] == t[5] && s[6] == t[6];
    assert s == t;
  }

  /** One Euler step: the transition matrix carries a deviation exactly, up to the same remainder. */
  lemma TransitionExact(x: State, h: State)
    ensures Plus(Plus(x, h), Times(0.01, StateRate(Plus(x, h))))
            == Plus(Plus(x, Times(0.01, StateRate(x))), Plus(Apply(Transition(x), h), Times(0.01, Remainder(h))))
  {
    hide StateRate, Jacobian, Dot, Product, Remainder, Identity, Scaled, Add, Apply;
    LinearizationExact(x, h);
    AddApplies(Scaled(DT, Jacobian(x)), Identity(STATES), h);
    ScaledApplies(DT, Jacobian(x), h);
    IdentityApplies(h);
    ApplyLength(Jacobian(x), h);
    TimesOfSum(DT, StateRate(x), Apply(Jacobian(x), h), Remainder(h));
  }

  lemma TimesOfSum(k: real, a: Vec, b: Vec, c: Vec)
    requires |a| == |b| == |c|
    ensures Times(k, Plus(Plus(a, b), c)) == Plus(Plus(Times(k, a), Times(k, b)), Times(k, c))
  {
    forall i | 0 <= i < |a|
      ensures Product(k, a[i] + b[i] + c[i]) == Product(k, a[i]) + Product(k, b[i]) + Product(k, c[i])
    {
    }
  }
}
