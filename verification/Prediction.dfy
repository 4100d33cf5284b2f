/** The prediction of the filter in closed form: what four Runge-Kutta stages make of rates and quaternion. */
module Prediction {
  import opened Reals
  import opened Linear
  import opened Covariance
  import opened Kalman
  import Q = Quaternion

  /** `a` times a quaternion plus `b` times its product with `w`. */
  function Mix(a: real, b: real, q: Q.Quat, w: Q.Quat): Q.Quat {
    var p := Q.Prod(q, w);
    Q.Quat(Product(a, q.w) + Product(b, p.w), Product(a, q.x) + Product(b, p.x),
           Product(a, q.y) + Product(b, p.y), Product(a, q.z) + Product(b, p.z))
  }

  lemma Spread(k: real, a: real, b: real, u: real, v: real)
    ensures Product(k, Product(a, u) + Product(b, v)) == Product(Product(k, a), u) + Product(Product(k, b), v)
    ensures Product(Product(a, u) + Product(b, v), k) == Product(a, Product(u, k)) + Product(b, Product(v, k))
  {
  }

  lemma MixTimes(k: real, a: real, b: real, q: Q.Quat, w: Q.Quat)
    ensures Q.Times(k, Mix(a, b, q, w)) == Mix(Product(k, a), Product(k, b), q, w)
  {
    hide Product, Q.Prod;
    var p := Q.Prod(q, w);
    Spread(k, a, b, q.w, p.w);
    Spread(k, a, b, q.x, p.x);
    Spread(k, a, b, q.y, p.y);
    Spread(k, a, b, q.z, p.z);
  }

  lemma SpreadFour(a: real, b: real, q: Q.Quat, p: Q.Quat, k: real)
    ensures Product(Product(a, q.w) + Product(b, p.w), k) == Product(a, Product(q.w, k)) + Product(b, Product(p.w, k))
    ensures Product(Product(a, q.x) + Product(b, p.x), k) == Product(a, Product(q.x, k)) + Product(b, Product(p.x, k))
    ensures Product(Product(a, q.y) + Product(b, p.y), k) == Product(a, Product(q.y, k)) + Product(b, Product(p.y, k))
    ensures Product(Product(a, q.z) + Product(b, p.z), k) == Product(a, Product(q.z, k)) + Product(b, Product(p.z, k))
  {
    hide Product;
    Spread(k, a, b, q.w, p.w);
    Spread(k, a, b, q.x, p.x);
    Spread(k, a, b, q.y, p.y);
    Spread(k, a, b, q.z, p.z);
  }

  /** The product with a quaternion distributes over a mixture. */
  lemma MixProduct(a: real, b: real, q: Q.Quat, w: Q.Quat)
    ensures var p, r := Q.Prod(q, w), Q.Prod(Q.Prod(q, w), w);
            Q.Prod(Mix(a, b, q, w), w)
            == Q.Quat(Product(a, p.w) + Product(b, r.w), Product(a, p.x) + Product(b, r.x),
                      Product(a, p.y) + Product(b, r.y), Product(a, p.z) + Product(b, r.z))
  {
    hide Product;
    var p := Q.Prod(q, w);
    SpreadFour(a, b, q, p, w.w);
    SpreadFour(a, b, q, p, w.x);
    SpreadFour(a, b, q, p, w.y);
    SpreadFour(a, b, q, p, w.z);
    Q.Distribute(a, Product(q.w, w.w), Product(q.x, w.x), Product(q.y, w.y), Product(q.z, w.z));
    Q.Distribute(a, Product(q.w, w.x), Product(q.x, w.w), Product(q.y, w.z), Product(q.z, w.y));
    Q.Distribute(a, Product(q.w, w.y), Product(q.x, w.z), Product(q.y, w.w), Product(q.z, w.x));
    Q.Distribute(a, Product(q.w, w.z), Product(q.x, w.y), Product(q.y, w.x), Product(q.z, w.w));
    Q.Distribute(b, Product(p.w, w.w), Product(p.x, w.x), Product(p.y, w.y), Product(p.z, w.z));
    Q.Distribute(b, Product(p.w, w.x), Product(p.x, w.w), Product(p.y, w.z), Product(p.z, w.y));
    Q.Distribute(b, Product(p.w, w.y), Product(p.x, w.z), Product(p.y, w.w), Product(p.z, w.x));
    Q.Distribute(b, Product(p.w, w.z), Product(p.x, w.y), Product(p.y, w.x), Product(p.z, w.w));
  }

  /** A pure quaternion squares to minus its squared length. */
  lemma PureSquared(w: Q.Quat)
    requires w.w == 0.0
    ensures Q.Prod(w, w) == Q.Times(-Q.Squared(w), Q.ONE)
  {
  }

  lemma TwicePure(q: Q.Quat, w: Q.Quat)
    requires w.w == 0.0
    ensures Q.Prod(Q.Prod(q, w), w) == Q.Times(-Q.Squared(w), q)
  {
    hide Q.Prod, Product, Q.Squared;
    Q.ProdAssociative(q, w, w);
    PureSquared(w);
    Q.ProdTimes(-Q.Squared(w), q, Q.ONE);
    RightOne(q);
  }

  lemma RightOne(q: Q.Quat)
    ensures Q.Prod(q, Q.ONE) == q
  {
  }

  lemma Sunk(b: real, s: real, t: real)
    ensures Product(b, Product(-s, t)) == Product(-Product(b, s), t)
  {
  }

  /** Multiplying by the rate once more turns a mixture over. */
  lemma MixTurns(a: real, b: real, q: Q.Quat, w: Q.Quat)
    requires w.w == 0.0
    ensures Q.Prod(Mix(a, b, q, w), w) == Mix(-Product(b, Q.Squared(w)), a, q, w)
  {
    hide Q.Prod, Product, Q.Squared;
    MixProduct(a, b, q, w);
    TwicePure(q, w);
    var s := Q.Squared(w);
    Sunk(b, s, q.w);
    Sunk(b, s, q.x);
    Sunk(b, s, q.y);
    Sunk(b, s, q.z);
  }

  // ----- one stage

  /** Rates scaled by `c`, and a mixture as the quaternion. */
  predicate IsStage(y: State, x: State, c: real, a: real, b: real) {
    Rate(y) == Q.Times(c, Rate(x)) && Orientation(y) == Mix(a, b, Orientation(x), Rate(x))
  }

  /** The squared rate. */
  function SquaredRate(x: State): real {
    Square(x[0]) + Square(x[1]) + Square(x[2])
  }

  lemma RateSquared(x: State)
    ensures Q.Squared(Rate(x)) == SquaredRate(x) && Rate(x).w == 0.0
  {
  }

  /** A stage's increment: `h` is half the time step times the scale of the rates. */
  lemma Increment(y: State, x: State, c: real, h: real, a: real, b: real)
    requires IsStage(y, x, c, a, b) && h == Product(DT, Product(0.5, c))
    ensures Orientation(Times(DT, StateRate(y)))
            == Mix(Product(h, -Product(b, SquaredRate(x))), Product(h, a), Orientation(x), Rate(x))
  {
    hide Q.Prod, Product, Mix, StateRate, Q.Squared, SquaredRate;
    var q, w := Orientation(x), Rate(x);
    RateIsHalfProduct(y);
    RateSquared(x);
    Q.ProdTimes(c, Mix(a, b, q, w), w);
    MixTurns(a, b, q, w);
    var m := Mix(-Product(b, Q.Squared(w)), a, q, w);
    Q.TimesTimes(0.5, c, m);
    Q.TimesTimes(DT, Product(0.5, c), m);
    MixTimes(h, -Product(b, Q.Squared(w)), a, q, w);
    OrientationOfTimes(DT, StateRate(y));
  }

  lemma OrientationOfTimes(k: real, y: State)
    ensures Orientation(Times(k, y)) == Q.Times(k, Orientation(y))
  {
  }

  lemma Grouped(f: real, a: real, b: real, u: real, v: real)
    ensures u + Product(f, Product(a, u) + Product(b, v)) == Product(1.0 + f * a, u) + Product(f * b, v)
  {
  }

  /** From one stage's increment to the next stage. */
  lemma NextStage(x: State, k: State, f: real, a: real, b: real)
    requires Orientation(k) == Mix(a, b, Orientation(x), Rate(x))
    ensures Orientation(Plus(x, Times(f, k))) == Mix(1.0 + f * a, f * b, Orientation(x), Rate(x))
  {
    hide Product, Q.Prod;
    var q, p := Orientation(x), Q.Prod(Orientation(x), Rate(x));
    Grouped(f, a, b, q.w, p.w);
    Grouped(f, a, b, q.x, p.x);
    Grouped(f, a, b, q.y, p.y);
    Grouped(f, a, b, q.z, p.z);
  }

  lemma ScaledRate(c: real, f: real, u: real, v: real, c': real)
    requires v == Product(c, u) && c' == 1.0 - 0.02 * (f * c)
    ensures u + Product(f, Product(DT, -v / 0.5)) == Product(c', u)
  {
    assert -v / 0.5 == -2.0 * v;
  }

  lemma StageRates(y: State, x: State, c: real, f: real, c': real)
    requires Rate(y) == Q.Times(c, Rate(x)) && c' == 1.0 - 0.02 * (f * c)
    ensures Rate(Plus(x, Times(f, Times(DT, StateRate(y))))) == Q.Times(c', Rate(x))
  {
    hide Product;
    ScaledRate(c, f, x[0], y[0], c');
    ScaledRate(c, f, x[1], y[1], c');
    ScaledRate(c, f, x[2], y[2], c');
    ScaledZero(c');
  }

  lemma ScaledZero(c: real)
    ensures Product(c, 0.0) == 0.0
  {
  }

  lemma FirstStage(x: State)
    ensures IsStage(x, x, 1.0, 1.0, 0.0)
  {
    hide Q.Prod;
    ZeroProduct(x[0]);
    ZeroProduct(x[1]);
    ZeroProduct(x[2]);
  }

  /** One stage after another. */
  lemma StageFollows(y: State, x: State, c: real, h: real, a: real, b: real, f: real, c': real, ka: real, kb: real)
    requires IsStage(y, x, c, a, b) && h == Product(DT, Product(0.5, c)) && c' == 1.0 - 0.02 * (f * c)
    requires ka == Product(h, -Product(b, SquaredRate(x))) && kb == Product(h, a)
    ensures var k := Times(DT, StateRate(y));
            && Orientation(k) == Mix(ka, kb, Orientation(x), Rate(x))
            && IsStage(Plus(x, Times(f, k)), x, c', 1.0 + f * ka, f * kb)
  {
    hide Product, Mix, StateRate, SquaredRate, Plus;
    Increment(y, x, c, h, a, b);
    StageRates(y, x, c, f, c');
    NextStage(x, Times(DT, StateRate(y)), f, ka, kb);
  }

  lemma HalfStep(c: real)
    ensures Product(DT, Product(0.5, c)) == 0.005 * c
  {
  }

  /** The coefficients of the four increments, by the squared rate. */
  lemma Coefficients(s: real)
    ensures Product(0.005, -Product(0.0, s)) == 0.0 && Product(0.005, 1.0) == 0.005
    ensures Product(0.00495, -Product(0.0025, s)) == -0.000012375 * s && Product(0.00495, 1.0) == 0.00495
    ensures var a := 1.0 - 0.0000061875 * s;
            && Product(0.0049505, -Product(0.002475, s)) == -0.0000122524875 * s
            && Product(0.0049505, a) == 0.0049505 - 0.00000003063121875 * s
    ensures var a, b := 1.0 - 0.0000122524875 * s, 0.0049505 - 0.00000003063121875 * s;
            && Product(0.00490099, -Product(b, s)) == -0.000024262350995 * s + 0.0000000001501232967815625 * Square(s)
            && Product(0.00490099, a) == 0.00490099 - 0.000000060049318712625 * s
  {
  }

  lemma Combined(u: real, v: real, a1: real, b1: real, a2: real, b2: real, a3: real, b3: real, a4: real, b4: real,
                 a: real, b: real)
    requires a == 1.0 + (a1 + 2.0 * a2 + 2.0 * a3 + a4) / 6.0 && b == (b1 + 2.0 * b2 + 2.0 * b3 + b4) / 6.0
    ensures var m1, m2 := Product(a1, u) + Product(b1, v), Product(a2, u) + Product(b2, v);
            var m3, m4 := Product(a3, u) + Product(b3, v), Product(a4, u) + Product(b4, v);
            u + Product(1.0 / 6.0, (m1 + Product(2.0, m2)) + (Product(2.0, m3) + m4)) == Product(a, u) + Product(b, v)
  {
  }

  lemma MixturesCombine(x: State, k1: State, k2: State, k3: State, k4: State, a1: real, b1: real, a2: real, b2: real,
                        a3: real, b3: real, a4: real, b4: real, a: real, b: real)
    requires var q, w := Orientation(x), Rate(x);
             && Orientation(k1) == Mix(a1, b1, q, w) && Orientation(k2) == Mix(a2, b2, q, w)
             && Orientation(k3) == Mix(a3, b3, q, w) && Orientation(k4) == Mix(a4, b4, q, w)
    requires a == 1.0 + (a1 + 2.0 * a2 + 2.0 * a3 + a4) / 6.0 && b == (b1 + 2.0 * b2 + 2.0 * b3 + b4) / 6.0
    ensures Orientation(Plus(x, Times(1.0 / 6.0, Plus(Plus(k1, Times(2.0, k2)), Plus(Times(2.0, k3), k4)))))
            == Mix(a, b, Orientation(x), Rate(x))
  {
    hide Product, Q.Prod;
    var q, p := Orientation(x), Q.Prod(Orientation(x), Rate(x));
    Combined(q.w, p.w, a1, b1, a2, b2, a3, b3, a4, b4, a, b);
    Combined(q.x, p.x, a1, b1, a2, b2, a3, b3, a4, b4, a, b);
    Combined(q.y, p.y, a1, b1, a2, b2, a3, b3, a4, b4, a, b);
    Combined(q.z, p.z, a1, b1, a2, b2, a3, b3, a4, b4, a, b);
  }

  lemma TimesOne(x: State)
    ensures Times(1.0, x) == x
  {
    assert forall i | 0 <= i < STATES :: Times(1.0, x)[i] == x[i];
  }

  lemma QuaternionAhead(x: State, s: real, a: real, b: real)
    requires s == SquaredRate(x)
    requires a == 1.0 - (0.000073517325995 * s - 0.0000000001501232967815625 * Square(s)) / 6.0
    requires b == (0.02970199 - 0.000000121311756212625 * s) / 6.0
    ensures Orientation(Ahead(x)) == Mix(a, b, Orientation(x), Rate(x))
  {
    hide Product, Square, Mix, StateRate, SquaredRate, IsStage;
    Coefficients(s);
    FirstStage(x);
    HalfStep(1.0);
    HalfStep(0.99);
    HalfStep(0.9901);
    HalfStep(0.980198);
    var k1 := Times(DT, StateRate(x));
    StageFollows(x, x, 1.0, 0.005, 1.0, 0.0, 0.5, 0.99, 0.0, 0.005);
    var y2 := Plus(x, Times(0.5, k1));
    var k2 := Times(DT, StateRate(y2));
    StageFollows(y2, x, 0.99, 0.00495, 1.0, 0.0025, 0.5, 0.9901, -0.000012375 * s, 0.00495);
    var y3 := Plus(x, Times(0.5, k2));
    var k3 := Times(DT, StateRate(y3));
    var a3, b3 := 1.0 - 0.0000061875 * s, 0.0049505 - 0.00000003063121875 * s;
    StageFollows(y3, x, 0.9901, 0.0049505, a3, 0.002475, 1.0, 0.980198, -0.0000122524875 * s, b3);
    TimesOne(k3);
    var y4 := Plus(x, k3);
    var a4, b4 := 1.0 - 0.0000122524875 * s, b3;
    Increment(y4, x, 0.980198, 0.00490099, a4, b4);
    var k4 := Times(DT, StateRate(y4));
    MixturesCombine(x, k1, k2, k3, k4, 0.0, 0.005, -0.000012375 * s, 0.00495, -0.0000122524875 * s, b3,
                    -0.000024262350995 * s + 0.0000000001501232967815625 * Square(s),
                    0.00490099 - 0.000000060049318712625 * s, a, b);
  }

  /** The prediction in closed form, from the state before alone: each rate is damped by a fixed factor, and
      the quaternion is turned by a multiple of the rate and scaled, where both factors are polynomials in
      the squared rate. */
  lemma PredictionExactly(e: Estimate, z: State, decay: real, divide: (Matrix, Matrix) -> Matrix)
    requires Divides(divide) && IsMatrix(e.P, STATES, STATES)
    ensures var x, y := e.x, Filter(e, z, decay, divide).xPriori;
            var s := Square(x[0]) + Square(x[1]) + Square(x[2]);
            var a := 1.0 - (0.000073517325995 * s - 0.0000000001501232967815625 * Square(s)) / 6.0;
            var b := (0.02970199 - 0.000000121311756212625 * s) / 6.0;
            && (forall i | 0 <= i < 3 :: y[i] == 5.88119204 / 6.0 * x[i])
            && Q.Quat(y[3], y[4], y[5], y[6])
               == Q.Prod(Q.Quat(x[3], x[4], x[5], x[6]),
                         Q.Quat(a, Product(b, x[0]), Product(b, x[1]), Product(b, x[2])))
  {
    hide Filter, Divides, Product, Square, Mix, Ahead, Q.Prod, IsMatrix;
    var x := e.x;
    PrioriIsAhead(e, z, decay, divide);
    RatesAhead(x);
    QuaternionAheadExactly(x);
  }

  lemma RatesAhead(x: State)
    ensures forall i | 0 <= i < 3 :: Ahead(x)[i] == 5.88119204 / 6.0 * x[i]
  {
    hide Ahead;
    forall i | 0 <= i < 3 ensures Ahead(x)[i] == 5.88119204 / 6.0 * x[i] {
      RatesDamped(x, i);
    }
  }

  lemma QuaternionAheadExactly(x: State)
    ensures var s := Square(x[0]) + Square(x[1]) + Square(x[2]);
            var a := 1.0 - (0.000073517325995 * s - 0.0000000001501232967815625 * Square(s)) / 6.0;
            var b := (0.02970199 - 0.000000121311756212625 * s) / 6.0;
            Orientation(Ahead(x))
            == Q.Prod(Orientation(x), Q.Quat(a, Product(b, x[0]), Product(b, x[1]), Product(b, x[2])))
  {
    hide Product, Square, Mix, Ahead, Q.Prod;
    var s := SquaredRate(x);
    var a := 1.0 - (0.000073517325995 * s - 0.0000000001501232967815625 * Square(s)) / 6.0;
    var b := (0.02970199 - 0.000000121311756212625 * s) / 6.0;
    QuaternionAhead(x, s, a, b);
    MixIsProduct(a, b, Orientation(x), Rate(x));
  }

  lemma PrioriIsAhead(e: Estimate, z: State, decay: real, divide: (Matrix, Matrix) -> Matrix)
    requires Divides(divide) && IsMatrix(e.P, STATES, STATES)
    ensures Filter(e, z, decay, divide).xPriori == Ahead(e.x)
  {
    hide Transition, ProcessNoise, MeasurementNoise, Mul, Ahead, Combine, Divides, Transpose, Identity;
  }

  lemma MixIsProduct(a: real, b: real, q: Q.Quat, w: Q.Quat)
    requires w.w == 0.0
    ensures Mix(a, b, q, w) == Q.Prod(q, Q.Quat(a, Product(b, w.x), Product(b, w.y), Product(b, w.z)))
  {
    MixParts(a, b, q.w, w);
    MixParts(a, b, q.x, w);
    MixParts(a, b, q.y, w);
    MixParts(a, b, q.z, w);
    var p := Q.Prod(q, w);
    hide Product;
    Q.Distribute(b, Product(q.w, w.w), Product(q.x, w.x), Product(q.y, w.y), Product(q.z, w.z));
    Q.Distribute(b, Product(q.w, w.x), Product(q.x, w.w), Product(q.y, w.z), Product(q.z, w.y));
    Q.Distribute(b, Product(q.w, w.y), Product(q.x, w.z), Product(q.y, w.w), Product(q.z, w.x));
    Q.Distribute(b, Product(q.w, w.z), Product(q.x, w.y), Product(q.y, w.x), Product(q.z, w.w));
  }

  lemma MixParts(a: real, b: real, u: real, w: Q.Quat)
    requires w.w == 0.0
    ensures Product(b, Product(u, w.w)) == 0.0 && Product(a, u) == Product(u, a)
    ensures Product(b, Product(u, w.x)) == Product(u, Product(b, w.x))
    ensures Product(b, Product(u, w.y)) == Product(u, Product(b, w.y))
    ensures Product(b, Product(u, w.z)) == Product(u, Product(b, w.z))
  {
  }

  // ----- every row

  /** The closed form of a prediction. */
  function Predicted(x: State): (y: Vec) {
    var s := Square(x[0]) + Square(x[1]) + Square(x[2]);
    var a := 1.0 - (0.000073517325995 * s - 0.0000000001501232967815625 * Square(s)) / 6.0;
    var b := (0.02970199 - 0.000000121311756212625 * s) / 6.0;
    var q := Q.Prod(Q.Quat(x[3], x[4], x[5], x[6]), Q.Quat(a, Product(b, x[0]), Product(b, x[1]), Product(b, x[2])));
    [5.88119204 / 6.0 * x[0], 5.88119204 / 6.0 * x[1], 5.88119204 / 6.0 * x[2], q.w, q.x, q.y, q.z]
  }

  lemma PredictedIs(e: Estimate, z: State, decay: real, divide: (Matrix, Matrix) -> Matrix)
    requires Divides(divide) && IsMatrix(e.P, STATES, STATES)
    ensures Filter(e, z, decay, divide).xPriori == Predicted(e.x)
  {
    hide Filter, Divides, IsMatrix, Product, Square, Q.Prod;
    PredictionExactly(e, z, decay, divide);
    var y := Filter(e, z, decay, divide).xPriori;
    assert y == [y[0], y[1], y[2], y[3], y[4], y[5], y[6]];
  }

  /** The state a row starts from: at rest in the first filtered row, then the estimate of the row before. */
  function StateBefore(gyro: seq<Vec>, qSens: seq<Vec>, i: nat, decay: real, divide: (Matrix, Matrix) -> Matrix): State
    requires Rows(gyro, qSens) && Divides(divide) && 0 < i < |gyro|
  {
    if i == 1 then [0.0, 0.0, 0.0, 1.0, 0.0, 0.0, 0.0] else UpdateAt(gyro, qSens, i - 1, decay, divide).estimate.x
  }

  lemma NoiseApplies(u: Vec)
    requires |u| == STATES
    ensures Apply(MeasurementNoise(), u) == seq(STATES, k requires 0 <= k < STATES =>
                                                  if k < 3 then 0.01 * u[k] else 0.0001 * u[k])
  {
    var d := [0.01, 0.01, 0.01, 0.0001, 0.0001, 0.0001, 0.0001];
    DiagonalApplies(d, u);
    hide Diagonal, Apply;
    assert forall k | 0 <= k < STATES :: Weighted(d, u)[k] == if k < 3 then 0.01 * u[k] else 0.0001 * u[k];
  }

  /** Every row: the state before is projected ahead in closed form, and the correction balances it against the
      rates and the quaternion measured in that row, weighed by their noise. */
  lemma RowExactly(gyro: seq<Vec>, qSens: seq<Vec>, i: nat, decay: real, divide: (Matrix, Matrix) -> Matrix)
    returns (u: Vec)
    requires Rows(gyro, qSens) && Divides(divide) && Decays(decay) && 0 < i < |gyro|
    ensures |u| == STATES
    ensures var f := UpdateAt(gyro, qSens, i, decay, divide);
            && f.xPriori == Predicted(StateBefore(gyro, qSens, i, decay, divide))
            && f.estimate.x == Plus(f.xPriori, Apply(f.PPriori, u))
            && forall k | 0 <= k < STATES ::
                 (gyro[i] + qSens[i])[k] - f.estimate.x[k] == (if k < 3 then 0.01 * u[k] else 0.0001 * u[k])
  {
    hide Filter, Divides, Predicted, UpdateAt, MeasurementNoise, Apply, Decays, InitialCovariance, IsCovariance;
    var e, z := Before(gyro, qSens, i, decay, divide), Measurement(gyro, qSens, i);
    BeforeIsCovariance(gyro, qSens, i, decay, divide);
    UpdateFollows(gyro, qSens, i, decay, divide);
    CovarianceIsMatrix(e.P);
    PredictedIs(e, z, decay, divide);
    u := UpdateBalances(e, z, decay, divide);
    NoiseApplies(u);
    assert forall k | 0 <= k < STATES :: Minus(z, Filter(e, z, decay, divide).estimate.x)[k]
                                         == z[k] - Filter(e, z, decay, divide).estimate.x[k];
  }

  lemma CovarianceIsMatrix(P: Matrix)
    requires IsCovariance(P, STATES)
    ensures IsMatrix(P, STATES, STATES)
  {
  }

  lemma BeforeIsCovariance(gyro: seq<Vec>, qSens: seq<Vec>, i: nat, decay: real, divide: (Matrix, Matrix) -> Matrix)
    requires Rows(gyro, qSens) && Divides(divide) && Decays(decay) && 0 < i < |gyro|
    ensures IsCovariance(Before(gyro, qSens, i, decay, divide).P, STATES)
    ensures Before(gyro, qSens, i, decay, divide).x == StateBefore(gyro, qSens, i, decay, divide)
  {
    hide Filter, Divides, UpdateAt, IsCovariance, InitialCovariance, Decays;
    if i == 1 {
      InitialIsCovariance();
    } else {
      CovarianceOverRuns(gyro, qSens, i - 1, decay, divide);
    }
  }

  lemma NoiseTerm(q: real, v: real, w: real)
    ensures Product(v, Product(q, w)) == q * Product(v, w) && Product(v, Product(0.0, w)) == 0.0
  {
  }

  /** The process noise weighs the rates alone. */
  lemma ProcessForm(decay: real, v: Vec, w: Vec)
    requires |v| == |w| == STATES
    ensures Form(ProcessNoise(decay), v, w)
            == 0.4 * (1.0 - decay) * (Product(v[0], w[0]) + Product(v[1], w[1]) + Product(v[2], w[2]))
  {
    hide Product, Dot, Diagonal, Apply;
    var q := 0.4 * (1.0 - decay);
    var d := [q, q, q, 0.0, 0.0, 0.0, 0.0];
    DiagonalApplies(d, w);
    SevenTerms(v, Weighted(d, w));
    NoiseTerm(q, v[0], w[0]);
    NoiseTerm(q, v[1], w[1]);
    NoiseTerm(q, v[2], w[2]);
    NoiseTerm(q, v[3], w[3]);
    NoiseTerm(q, v[4], w[4]);
    NoiseTerm(q, v[5], w[5]);
    NoiseTerm(q, v[6], w[6]);
  }

  /** What the measurement noise leaves of the gain: `K R` is the covariance after the update. */
  lemma GainWeighs(K: Matrix, P: Matrix, r: nat, c: nat)
    requires IsCovariance(P, STATES) && IsGain(K, P, MeasurementNoise(), STATES) && r < STATES && c < STATES
    ensures Posterior(K, P, STATES)[r][c] == K[r][c] * (if c < 3 then 0.01 else 0.0001)
  {
    hide IsCovariance, Posterior, Combine, Product, Dot, Apply, MeasurementNoise, Form, Mul, Add;
    var n, R := STATES, MeasurementNoise();
    var x, y := Unit(n, r), Unit(n, c);
    CovarianceIsMatrix(P);
    PosteriorForm(K, P, n, x, y);
    GainForm(K, P, R, n, x, y);
    UnitCombines(K, n, r);
    FormEntry(Posterior(K, P, n), n, r, c);
    assert Form(Posterior(K, P, n), x, y) == Form(R, K[r], y);
    NoiseEntry(K[r], c);
  }

  lemma UnitCombines(K: Matrix, n: nat, r: nat)
    requires IsMatrix(K, n, n) && r < n
    ensures Combine(Unit(n, r), K, n) == K[r]
  {
    IdentityRow(K, n, r);
  }

  lemma NoiseEntry(k: Vec, c: nat)
    requires |k| == STATES && c < STATES
    ensures Form(MeasurementNoise(), k, Unit(STATES, c)) == k[c] * (if c < 3 then 0.01 else 0.0001)
  {
    hide Dot, Apply, MeasurementNoise;
    var w := if c < 3 then 0.01 else 0.0001;
    NoiseApplies(Unit(STATES, c));
    assert Apply(MeasurementNoise(), Unit(STATES, c)) == Times(w, Unit(STATES, c));
    DotSymmetric(k, Times(w, Unit(STATES, c)));
    DotTimes(w, Unit(STATES, c), k);
    DotUnit(k, c);
  }

  /** The covariance a row starts from: 0.1 everywhere in the first filtered row. */
  function CovarianceBefore(gyro: seq<Vec>, qSens: seq<Vec>, i: nat, decay: real, divide: (Matrix,
          Matrix) -> Matrix): (P: Matrix)
    requires Rows(gyro, qSens) && Divides(divide) && 0 < i < |gyro|
    ensures IsMatrix(P, STATES, STATES)
  {
    if i == 1 then seq(STATES, _ => seq(STATES, _ => 0.1)) else UpdateAt(gyro, qSens, i - 1, decay, divide).estimate.P
  }

  lemma CovarianceBeforeIs(gyro: seq<Vec>, qSens: seq<Vec>, i: nat, decay: real, divide: (Matrix, Matrix) -> Matrix)
    requires Rows(gyro, qSens) && Divides(divide) && 0 < i < |gyro|
    ensures Before(gyro, qSens, i, decay, divide).P == CovarianceBefore(gyro, qSens, i, decay, divide)
  {
    hide Filter, Divides, UpdateAt;
  }

  /** The covariance of every row before its measurement: carried ahead by the transition at the state
      before, with noise added to the rates alone. */
  lemma PriorExactly(gyro: seq<Vec>, qSens: seq<Vec>, i: nat, decay: real, divide: (Matrix, Matrix) -> Matrix,
                     v: Vec, w: Vec)
    requires Rows(gyro, qSens) && Divides(divide) && 0 < i < |gyro| && |v| == |w| == STATES
    ensures var A := Transition(StateBefore(gyro, qSens, i, decay, divide));
            Form(UpdateAt(gyro, qSens, i, decay, divide).PPriori, v, w)
            == Form(CovarianceBefore(gyro, qSens, i, decay, divide), Combine(v, A, STATES), Combine(w, A, STATES))
               + 0.4 * (1.0 - decay) * (Product(v[0], w[0]) + Product(v[1], w[1]) + Product(v[2], w[2]))
  {
    hide Filter, Divides, UpdateAt, ProcessNoise, Transition, Combine, Form, Product, Priori, CovarianceBefore;
    var e, z := Before(gyro, qSens, i, decay, divide), Measurement(gyro, qSens, i);
    UpdateFollows(gyro, qSens, i, decay, divide);
    CovarianceBeforeIs(gyro, qSens, i, decay, divide);
    FilterIsPlain(e, z, decay, divide);
    PrioriForm(e.P, Transition(e.x), ProcessNoise(decay), STATES, v, w);
    ProcessForm(decay, v, w);
  }

  /** And after it: the gain, weighed by the measurement noise, column by column. */
  lemma PosteriorExactly(gyro: seq<Vec>, qSens: seq<Vec>, i: nat, decay: real, divide: (Matrix, Matrix) -> Matrix,
                         r: nat, c: nat)
    requires Rows(gyro, qSens) && Divides(divide) && Decays(decay) && 0 < i < |gyro| && r < STATES && c < STATES
    ensures var f := UpdateAt(gyro, qSens, i, decay, divide);
            f.estimate.P[r][c] == f.K[r][c] * (if c < 3 then 0.01 else 0.0001)
  {
    hide Filter, Divides, UpdateAt, MeasurementNoise, ProcessNoise, IsCovariance, Decays, Posterior, IsGain;
    var e, z := Before(gyro, qSens, i, decay, divide), Measurement(gyro, qSens, i);
    UpdateFollows(gyro, qSens, i, decay, divide);
    FilterIsPlain(e, z, decay, divide);
    CovarianceOverRuns(gyro, qSens, i, decay, divide);
    var f := Filter(e, z, decay, divide);
    GainWeighs(f.K, f.PPriori, r, c);
  }
}
