/** Beam shape from measured slopes: one quadratic slope per pair of sensor intervals, fitted under the
    constraint that the deflection is continuous at the joints and zero at the root. */
module ShapeQuad {
  import opened Reals
  import opened Linear
  import opened LeastSquares
  import opened Options

  // ----- the system

  /** Segment `i` runs over the sensors 2 * i, 2 * i + 1 and 2 * i + 2. */
  function SlopeTerms(x: real): Vec {
    [Square(x), x, 1.0, 0.0]
  }

  function DeflectionTerms(x: real): Vec {
    [Product(x, Square(x)) / 3.0, Square(x) / 2.0, x, 1.0]
  }

  function Negative(v: Vec): Vec {
    seq(|v|, i requires 0 <= i < |v| => -v[i])
  }

  /** A row that is zero but for some terms. */
  function Placed(terms: Vec, at: nat, width: nat): (row: Vec)
    requires at + |terms| <= width
    ensures |row| == width
  {
    seq(width, k requires 0 <= k < width => if at <= k < at + |terms| then terms[k - at] else 0.0)
  }

  function Sensor(r: nat): nat {
    2 * (r / 3) + r % 3
  }

  function SlopeRow(x: Vec, m: nat, r: nat): (row: Vec)
    requires |x| == 2 * m + 1 && r < 3 * m
    ensures |row| == 4 * m
  {
    Placed(SlopeTerms(x[Sensor(r)]), 4 * (r / 3), 4 * m)
  }

  function SlopeMatrix(x: Vec, m: nat): (A: Matrix)
    requires |x| == 2 * m + 1
    ensures IsMatrix(A, 3 * m, 4 * m)
  {
    seq(3 * m, r requires 0 <= r < 3 * m => SlopeRow(x, m, r))
  }

  function DeflectionRow(x: Vec, m: nat, r: nat): (row: Vec)
    requires |x| == 2 * m + 1 && r < 3 * m
    ensures |row| == 4 * m
  {
    Placed(DeflectionTerms(x[Sensor(r)]), 4 * (r / 3), 4 * m)
  }

  function DeflectionMatrix(x: Vec, m: nat): (B: Matrix)
    requires |x| == 2 * m + 1
    ensures IsMatrix(B, 3 * m, 4 * m)
  {
    seq(3 * m, r requires 0 <= r < 3 * m => DeflectionRow(x, m, r))
  }

  /** A joint for each inner end of a segment, and last the root. */
  function ConstraintRow(x: Vec, m: nat, i: nat): (row: Vec)
    requires |x| == 2 * m + 1 && i < m
    ensures |row| == 4 * m
  {
    if i < m - 1 then Placed(DeflectionTerms(x[2 * i + 2]) + Negative(DeflectionTerms(x[2 * i + 2])), 4 * i, 4 * m)
    else Placed(DeflectionTerms(x[0]), 0, 4 * m)
  }

  function ConstraintMatrix(x: Vec, m: nat): (C: Matrix)
    requires |x| == 2 * m + 1
    ensures IsMatrix(C, m, 4 * m)
  {
    seq(m, i requires 0 <= i < m => ConstraintRow(x, m, i))
  }

  function Data(s: Vec, m: nat): (d: Vec)
    requires |s| == 2 * m + 1
    ensures |d| == 3 * m
  {
    seq(3 * m, r requires 0 <= r < 3 * m => s[Sensor(r)])
  }

  // ----- the loops that fill it

  function Contents(A: array2<real>): (M: Matrix)
    reads A
    ensures IsMatrix(M, A.Length0, A.Length1)
    ensures forall i, j | 0 <= i < A.Length0 && 0 <= j < A.Length1 :: M[i][j] == A[i, j]
  {
    seq(A.Length0,
        i requires 0 <= i < A.Length0 reads A => seq(A.Length1, j requires 0 <= j < A.Length1 reads A => A[i, j]))
  }

  /** The rows before `r` hold their terms, the others are still zero. */
  predicate Filled(A: array2<real>, M: Matrix, r: nat)
    reads A
  {
    && IsMatrix(M, A.Length0, A.Length1)
    && forall i, k | 0 <= i < A.Length0 && 0 <= k < A.Length1 :: A[i, k] == if i < r then M[i][k] else 0.0
  }

  lemma FilledContents(A: array2<real>, M: Matrix)
    requires Filled(A, M, A.Length0)
    ensures Contents(A) == M
  {
    forall i | 0 <= i < A.Length0 ensures Contents(A)[i] == M[i] {
    }
  }

  method StoreRow(A: array2<real>, M: Matrix, r: nat, at: nat, terms: Vec)
    requires Filled(A, M, r) && r < A.Length0 && at + |terms| <= A.Length1
    requires M[r] == Placed(terms, at, A.Length1)
    modifies A
    ensures Filled(A, M, r + 1)
  {
    for k := 0 to |terms|
      invariant forall i, c | 0 <= i < A.Length0 && 0 <= c < A.Length1 ::
                  A[i, c] == if i < r then M[i][c] else if i == r && at <= c < at + k then terms[c - at] else 0.0
    {
      A[r, at + k] := terms[k];
    }
  }

  /** The double loop over segments and their three sensors. */
  method FillSegments(x: Vec, s: Vec, m: nat, A: array2<real>, B: array2<real>) returns (sij: Vec)
    requires |x| == |s| == 2 * m + 1 && A != B
    requires A.Length0 == B.Length0 == 3 * m && A.Length1 == B.Length1 == 4 * m
    requires Filled(A, SlopeMatrix(x, m), 0) && Filled(B, DeflectionMatrix(x, m), 0)
    modifies A, B
    ensures Contents(A) == SlopeMatrix(x, m) && Contents(B) == DeflectionMatrix(x, m) && sij == Data(s, m)
  {
    hide Filled, Placed, SlopeTerms, DeflectionTerms;
    sij := seq(3 * m, _ => 0.0);
    var ni := 0;
    for i := 0 to m
      invariant ni == i && |sij| == 3 * m
      invariant Filled(A, SlopeMatrix(x, m), 3 * i) && Filled(B, DeflectionMatrix(x, m), 3 * i)
      invariant forall r | 0 <= r < 3 * i :: sij[r] == s[Sensor(r)]
    {
      for j := 0 to 3
        invariant |sij| == 3 * m
        invariant Filled(A, SlopeMatrix(x, m), 3 * i + j) && Filled(B, DeflectionMatrix(x, m), 3 * i + j)
        invariant forall r | 0 <= r < 3 * i + j :: sij[r] == s[Sensor(r)]
      {
        var xij := x[2 * i + j];
        TermCount(xij);
        StoreRow(A, SlopeMatrix(x, m), 3 * i + j, 4 * i, SlopeTerms(xij));
        StoreRow(B, DeflectionMatrix(x, m), 3 * i + j, 4 * i, DeflectionTerms(xij));
        sij := sij[3 * i + j := s[3 * i + j - ni]];
      }
      ni := ni + 1;
    }
    FilledContents(A, SlopeMatrix(x, m));
    FilledContents(B, DeflectionMatrix(x, m));
  }

  lemma TermCount(x: real)
    ensures |SlopeTerms(x)| == |DeflectionTerms(x)| == |Negative(DeflectionTerms(x))| == 4
  {
  }

  /** The loop over the joints, and the root. */
  method FillConstraints(x: Vec, m: nat, C: array2<real>)
    requires |x| == 2 * m + 1 && m > 0 && C.Length0 == m && C.Length1 == 4 * m && Filled(C, ConstraintMatrix(x, m), 0)
    modifies C
    ensures Contents(C) == ConstraintMatrix(x, m)
  {
    hide Filled, Placed, DeflectionTerms, Negative;
    for i := 0 to m - 1
      invariant Filled(C, ConstraintMatrix(x, m), i)
    {
      var end := x[2 * i + 2];
      TermCount(end);
      StoreRow(C, ConstraintMatrix(x, m), i, 4 * i, DeflectionTerms(end) + Negative(DeflectionTerms(end)));
    }
    TermCount(x[0]);
    StoreRow(C, ConstraintMatrix(x, m), m - 1, 0, DeflectionTerms(x[0]));
    FilledContents(C, ConstraintMatrix(x, m));
  }

  // ----- the solution

  /** A left division has the shape a solution must have; whether it solves the system is said apart. */
  ghost predicate KeepsShape(divide: (Matrix, Matrix) -> Matrix) {
    forall M: Matrix, N: Matrix {:trigger divide(M, N)}
      | IsMatrix(M, |N|, |N|) && N != [] && IsMatrix(N, |N|, |N[0]|) ::
      IsMatrix(divide(M, N), |N|, |N[0]|)
  }

  /** The kept deflections: two per segment, and the end of the last one. */
  function Merged(w: Vec, m: nat): (k: Vec)
    requires |w| == 3 * m && m > 0
    ensures |k| == 2 * m + 1
  {
    seq(2 * m + 1, p requires 0 <= p < 2 * m + 1 => if p == 2 * m then w[3 * (m - 1) + 2] else w[3 * (p / 2) + p % 2])
  }

  /** The solved block system, applied to the data. */
  function Solved(A: Matrix, C: Matrix, q: nat, s: Vec, divide: (Matrix, Matrix) -> Matrix): (sol: Vec)
    requires IsMatrix(A, |s|, q) && IsMatrix(C, |C|, q) && q > 0 && KeepsShape(divide)
    ensures |sol| == q + |C|
  {
    Apply(divide(Block(A, C, q), Right(A, q, |C|)), s)
  }

  /** The division does solve the system. */
  ghost predicate Solves(A: Matrix, C: Matrix, q: nat, divide: (Matrix, Matrix) -> Matrix)
    requires IsMatrix(A, |A|, q) && IsMatrix(C, |C|, q)
  {
    var M, N := Block(A, C, q), Right(A, q, |C|);
    var X := divide(M, N);
    IsMatrix(X, q + |C|, |A|) && Mul(M, X, |A|) == N
  }

  /** The coefficients: the part of the solution before the multipliers. */
  function Coefficients(x: Vec, s: Vec, m: nat, divide: (Matrix, Matrix) -> Matrix): (a: Vec)
    requires |x| == |s| == 2 * m + 1 && m > 0 && KeepsShape(divide)
    ensures |a| == 4 * m
  {
    Solved(SlopeMatrix(x, m), ConstraintMatrix(x, m), 4 * m, Data(s, m), divide)[..4 * m]
  }

  /** Coefficients and kept deflections; with an even number of points the last one is dropped, and with
      fewer than three there is no segment (an index error). */
  method Shape(x0: Vec, s0: Vec, divide: (Matrix, Matrix) -> Matrix) returns (r: Option<(Vec, Vec)>)
    requires |x0| == |s0| && KeepsShape(divide)
    ensures r.None? <==> |x0| < 3
    ensures r.Some? ==>
              var m := (|x0| - 1) / 2;
              var a := Coefficients(x0[..2 * m + 1], s0[..2 * m + 1], m, divide);
              r.value == (Merged(Apply(DeflectionMatrix(x0[..2 * m + 1], m), a), m), a)
  {
    hide SlopeMatrix, ConstraintMatrix, DeflectionMatrix, Data, Solved, KeepsShape, Merged, Apply;
    var n := |x0|;
    if n < 3 {
      return None;
    }
    var m, x, s := (n - 1) / 2, x0, s0;
    if (n - 1) % 2 != 0 {
      x, s := x[..n - 1], s[..n - 1];
    }
    assert x == x0[..2 * m + 1] && s == s0[..2 * m + 1];
    var A := new real[3 * m, 4 * m]((_, _) => 0.0);
    var B := new real[3 * m, 4 * m]((_, _) => 0.0);
    var C := new real[m, 4 * m]((_, _) => 0.0);
    hide Filled;
    var sij := FillSegments(x, s, m, A, B);
    FillConstraints(x, m, C);
    var sol := Solved(Contents(A), Contents(C), 4 * m, sij, divide);
    var a := sol[..4 * m];
    var w := Apply(Contents(B), a);
    ApplyOf(Contents(B), a);
    return Some((Merged(w, m), a));
  }

  // ----- what the rows say about a segment

  /** The slope that the coefficients give segment `i` at `x`. */
  function SlopeAt(a: Vec, i: nat, x: real): real
    requires 4 * i + 4 <= |a|
  {
    Product(Square(x), a[4 * i]) + Product(x, a[4 * i + 1]) + a[4 * i + 2]
  }

  /** The deflection of segment `i` at `x`. */
  function DeflectionAt(a: Vec, i: nat, x: real): real
    requires 4 * i + 4 <= |a|
  {
    Product(Product(x, Square(x)) / 3.0, a[4 * i]) + Product(Square(x) / 2.0, a[4 * i + 1]) + Product(x, a[4 * i + 2])
      + a[4 * i + 3]
  }

  lemma CubeIntegral(t: real, u: real)
    ensures u * (u * u) / 3.0 - t * (t * t) / 3.0
            == (u - t) / 6.0 * (t * t + 4.0 * (((t + u) / 2.0) * ((t + u) / 2.0)) + u * u)
    ensures u * u / 2.0 - t * t / 2.0 == (u - t) / 6.0 * (t + 4.0 * ((t + u) / 2.0) + u)
  {
    var m := (t + u) / 2.0;
    assert 4.0 * (m * m) == (t + u) * (t + u) by {
      assert (2.0 * m) * (2.0 * m) == 4.0 * (m * m);
      assert 2.0 * m == t + u;
    }
    assert (u - t) * (t * t + (t + u) * (t + u) + u * u) == 2.0 * (u * (u * u) - t * (t * t));
    assert (u - t) * (3.0 * (t + u)) == 3.0 * (u * u - t * t);
  }

  lemma Spread(k: real, p: real, q: real, r: real, x1: real, x2: real, x3: real, y1: real, y2: real, y3: real)
    ensures k * ((x1 * p + y1 * q + r) + 4.0 * (x2 * p + y2 * q + r) + (x3 * p + y3 * q + r))
            == k * (x1 + 4.0 * x2 + x3) * p + k * (y1 + 4.0 * y2 + y3) * q + 6.0 * k * r
  {
  }

  lemma Differences(p: real, q: real, r: real, c1: real, c3: real, s1: real, s3: real, t: real, u: real)
    ensures (c3 * p + s3 * q + u * r) - (c1 * p + s1 * q + t * r) == (c3 - c1) * p + (s3 - s1) * q + (u - t) * r
  {
  }

  function Quadratic(p: real, q: real, r: real, x: real): real {
    x * x * p + x * q + r
  }

  function Cubic(p: real, q: real, r: real, d: real, x: real): real {
    x * (x * x) / 3.0 * p + x * x / 2.0 * q + x * r + d
  }

  /** In numbers: what Simpson's rule makes of a quadratic slope is what the cubic deflection grows by. */
  lemma Simpson(p: real, q: real, r: real, d: real, t: real, u: real)
    ensures Cubic(p, q, r, d, u) - Cubic(p, q, r, d, t)
            == (u - t) / 6.0 * (Quadratic(p, q, r, t) + 4.0 * Quadratic(p, q, r, (t + u) / 2.0) + Quadratic(p, q, r, u))
  {
    var m := (t + u) / 2.0;
    CubeIntegral(t, u);
    Spread((u - t) / 6.0, p, q, r, t * t, m * m, u * u, t, m, u);
    Differences(p, q, r, t * (t * t) / 3.0, u * (u * u) / 3.0, t * t / 2.0, u * u / 2.0, t, u);
  }

  /** The deflection is the integral of the slope: between any two places it grows by what Simpson's rule gives,
      which is exact for a quadratic slope. */
  lemma DeflectionIntegratesSlope(a: Vec, i: nat, t: real, u: real)
    requires 4 * i + 4 <= |a|
    ensures DeflectionAt(a, i, u) - DeflectionAt(a, i, t)
            == (u - t) / 6.0 * (SlopeAt(a, i, t) + 4.0 * SlopeAt(a, i, (t + u) / 2.0) + SlopeAt(a, i, u))
  {
    hide *;
    PartsAt(a, i, t);
    PartsAt(a, i, u);
    PartsAt(a, i, (t + u) / 2.0);
    Simpson(a[4 * i], a[4 * i + 1], a[4 * i + 2], a[4 * i + 3], t, u);
  }

  lemma PartsAt(a: Vec, i: nat, x: real)
    requires 4 * i + 4 <= |a|
    ensures DeflectionAt(a, i, x) == Cubic(a[4 * i], a[4 * i + 1], a[4 * i + 2], a[4 * i + 3], x)
    ensures SlopeAt(a, i, x) == Quadratic(a[4 * i], a[4 * i + 1], a[4 * i + 2], x)
  {
  }

  lemma FourTerms(t: Vec, v: Vec)
    requires |t| == |v| == 4
    ensures Dot(t, v) == Product(t[0], v[0]) + Product(t[1], v[1]) + Product(t[2], v[2]) + Product(t[3], v[3])
  {
    hide Product;
    assert Dot(t[1..], v[1..]) == Product(t[1], v[1]) + Dot(t[1..][1..], v[1..][1..]);
    assert t[1..][1..] == t[2..] && v[1..][1..] == v[2..];
    assert Dot(t[2..], v[2..]) == Product(t[2], v[2]) + Dot(t[2..][1..], v[2..][1..]);
    assert t[2..][1..] == t[3..] && v[2..][1..] == v[3..];
  }

  lemma PlacedParts(terms: Vec, at: nat, width: nat)
    requires at + |terms| <= width
    ensures Placed(terms, at, width) == Zero(at) + terms + Zero(width - at - |terms|)
  {
  }

  lemma PlacedDot(terms: Vec, at: nat, a: Vec)
    requires at + |terms| <= |a|
    ensures Dot(Placed(terms, at, |a|), a) == Dot(terms, a[at..at + |terms|])
  {
    hide *;
    SplitThree(a, at, at + |terms|);
    var u, v, w := a[..at], a[at..at + |terms|], a[at + |terms|..];
    PlacedParts(terms, at, |a|);
    ZeroDot(u);
    ZeroDot(w);
    PaddedDot(Zero(|u|), terms, Zero(|w|), u, v, w);
  }

  lemma SplitThree(a: Vec, i: nat, j: nat)
    requires i <= j <= |a|
    ensures a == a[..i] + a[i..j] + a[j..]
    ensures |a[..i]| == i && |a[i..j]| == j - i && |a[j..]| == |a| - j
  {
  }

  lemma ZeroDot(v: Vec)
    ensures |Zero(|v|)| == |v| && Dot(Zero(|v|), v) == 0.0
  {
    DotZero(Zero(|v|), v);
  }

  lemma PaddedDot(zu: Vec, terms: Vec, zw: Vec, u: Vec, v: Vec, w: Vec)
    requires |zu| == |u| && |terms| == |v| && |zw| == |w| && Dot(zu, u) == 0.0 && Dot(zw, w) == 0.0
    ensures Dot(zu + terms + zw, u + v + w) == Dot(terms, v)
  {
    hide *;
    DotConcat(zu, terms, u, v);
    DotConcat(zu + terms, zw, u + v, w);
  }

  lemma TermsDot(x: real, a: Vec, i: nat)
    requires 4 * i + 4 <= |a|
    ensures Dot(SlopeTerms(x), a[4 * i..4 * i + 4]) == SlopeAt(a, i, x)
    ensures Dot(DeflectionTerms(x), a[4 * i..4 * i + 4]) == DeflectionAt(a, i, x)
    ensures Dot(Negative(DeflectionTerms(x)), a[4 * i..4 * i + 4]) == -DeflectionAt(a, i, x)
  {
    hide Product, Square, Dot;
    var v, d := a[4 * i..4 * i + 4], DeflectionTerms(x);
    FourTerms(SlopeTerms(x), v);
    FourTerms(d, v);
    ZeroProduct(v[2]);
    ZeroProduct(v[3]);
    assert Negative(d) == Times(-1.0, d) by {
      MinusOne(d[0]);
      MinusOne(d[1]);
      MinusOne(d[2]);
      MinusOne(d[3]);
    }
    DotTimes(-1.0, d, v);
    MinusOne(Dot(d, v));
  }

  lemma MinusOne(x: real)
    ensures Product(-1.0, x) == -x
  {
  }

  /** Row 3 * i + j fits the slope of segment `i` at its sensor `j`; the same row of the other matrix gives
      the deflection there. */
  lemma SensorRow(x: Vec, m: nat, a: Vec, i: nat, j: nat)
    requires |x| == 2 * m + 1 && |a| == 4 * m && i < m && j < 3
    ensures Apply(SlopeMatrix(x, m), a)[3 * i + j] == SlopeAt(a, i, x[2 * i + j])
    ensures Apply(DeflectionMatrix(x, m), a)[3 * i + j] == DeflectionAt(a, i, x[2 * i + j])
  {
    hide Dot, Placed, SlopeTerms, DeflectionTerms, SlopeAt, DeflectionAt;
    TermCount(x[2 * i + j]);
    PlacedDot(SlopeTerms(x[2 * i + j]), 4 * i, a);
    PlacedDot(DeflectionTerms(x[2 * i + j]), 4 * i, a);
    TermsDot(x[2 * i + j], a, i);
  }

  lemma JointRow(x: Vec, m: nat, a: Vec, i: nat)
    requires |x| == 2 * m + 1 && |a| == 4 * m && i < m
    ensures Apply(ConstraintMatrix(x, m), a)[i]
            == if i < m - 1 then DeflectionAt(a, i, x[2 * i + 2]) - DeflectionAt(a, i + 1, x[2 * i + 2])
               else DeflectionAt(a, 0, x[0])
  {
    hide Dot, Placed, DeflectionTerms, DeflectionAt, Negative;
    if i < m - 1 {
      var end := x[2 * i + 2];
      var d := DeflectionTerms(end);
      TermCount(end);
      PlacedDot(d + Negative(d), 4 * i, a);
      assert a[4 * i..4 * i + 8] == a[4 * i..4 * i + 4] + a[4 * (i + 1)..4 * (i + 1) + 4];
      DotConcat(d, Negative(d), a[4 * i..4 * i + 4], a[4 * (i + 1)..4 * (i + 1) + 4]);
      TermsDot(end, a, i);
      TermsDot(end, a, i + 1);
    } else {
      TermCount(x[0]);
      PlacedDot(DeflectionTerms(x[0]), 0, a);
      TermsDot(x[0], a, 0);
    }
  }

  /** The deflection is continuous at every joint, and zero at the root. */
  ghost predicate Continuous(x: Vec, m: nat, a: Vec)
    requires |x| == 2 * m + 1 && |a| == 4 * m && m > 0
  {
    && (forall i | 0 <= i < m - 1 :: DeflectionAt(a, i, x[2 * i + 2]) == DeflectionAt(a, i + 1, x[2 * i + 2]))
    && DeflectionAt(a, 0, x[0]) == 0.0
  }

  /** The constraints mean exactly that. */
  lemma ConstraintsMean(x: Vec, m: nat, a: Vec)
    requires |x| == 2 * m + 1 && |a| == 4 * m && m > 0
    ensures Satisfies(ConstraintMatrix(x, m), a) <==> Continuous(x, m, a)
  {
    hide DeflectionAt, ConstraintMatrix;
    var c := Apply(ConstraintMatrix(x, m), a);
    forall i | 0 <= i < m
      ensures c[i] == if i < m - 1 then DeflectionAt(a, i, x[2 * i + 2]) - DeflectionAt(a, i + 1, x[2 * i + 2])
                      else DeflectionAt(a, 0, x[0])
    {
      JointRow(x, m, a, i);
    }
    ApplyOf(ConstraintMatrix(x, m), a);
    hide Apply;
    assert c == Zero(m) <==> forall i | 0 <= i < m :: c[i] == 0.0;
    if c == Zero(m) {
      assert c[m - 1] == 0.0;
      forall i | 0 <= i < m - 1 ensures DeflectionAt(a, i, x[2 * i + 2]) == DeflectionAt(a, i + 1, x[2 * i + 2]) {
        assert c[i] == 0.0;
      }
    }
    if Continuous(x, m, a) {
      forall i | 0 <= i < m ensures c[i] == 0.0 {
      }
    }
  }

  lemma MergedIndex(w: Vec, m: nat, p: nat, i: nat)
    requires |w| == 3 * m && m > 0 && p <= 2 * m && i < m && 2 * i <= p <= 2 * i + 2
    ensures Merged(w, m)[p] == if p == 2 * i + 2 && i < m - 1 then w[3 * (i + 1)] else w[3 * i + (p - 2 * i)]
  {
  }

  /** Whatever the coefficients, a kept deflection is that of the last segment which its sensor begins, or of the
      last segment of all at its end. */
  lemma MergedIs(x: Vec, m: nat, a: Vec, p: nat)
    requires |x| == 2 * m + 1 && |a| == 4 * m && m > 0 && p <= 2 * m
    ensures var w := Apply(DeflectionMatrix(x, m), a);
            |w| == 3 * m && Merged(w, m)[p] == DeflectionAt(a, if p == 2 * m then m - 1 else p / 2, x[p])
  {
    hide DeflectionAt, DeflectionMatrix, Apply, Merged;
    var w, i := Apply(DeflectionMatrix(x, m), a), if p == 2 * m then m - 1 else p / 2;
    ApplyOf(DeflectionMatrix(x, m), a);
    MergedIndex(w, m, p, i);
    SensorRow(x, m, a, i, p - 2 * i);
  }

  /** Joint consistency: a kept deflection is that of every segment its sensor belongs to, and the one at
      the root is zero. */
  lemma MergedAgrees(x: Vec, m: nat, a: Vec, p: nat, i: nat)
    requires |x| == 2 * m + 1 && |a| == 4 * m && m > 0 && Continuous(x, m, a)
    requires p <= 2 * m && i < m && 2 * i <= p <= 2 * i + 2
    ensures var w := Apply(DeflectionMatrix(x, m), a);
            && |w| == 3 * m && Merged(w, m)[p] == DeflectionAt(a, i, x[p])
            && Merged(w, m)[0] == 0.0
  {
    hide DeflectionAt, DeflectionMatrix, Apply, Merged;
    var w := Apply(DeflectionMatrix(x, m), a);
    ApplyOf(DeflectionMatrix(x, m), a);
    SensorRow(x, m, a, 0, 0);
    MergedIndex(w, m, p, i);
    MergedIndex(w, m, 0, 0);
    if p == 2 * i + 2 && i < m - 1 {
      SensorRow(x, m, a, i + 1, 0);
    } else {
      SensorRow(x, m, a, i, p - 2 * i);
    }
  }

  // ----- the main result

  /** The squared error of a fit: over all segments and their three sensors. */
  function FitError(x: Vec, s: Vec, m: nat, a: Vec): real
    requires |x| == |s| == 2 * m + 1 && |a| == 4 * m
  {
    Misfit(SlopeMatrix(x, m), a, Data(s, m))
  }

  /** Optimal shape: when the division solves the system, the coefficients give a beam that is continuous
      and fixed at the root, and no other such beam has slopes closer to the measured ones. */
  lemma ShapeIsOptimal(x: Vec, s: Vec, m: nat, divide: (Matrix, Matrix) -> Matrix, b: Vec)
    requires |x| == |s| == 2 * m + 1 && m > 0 && KeepsShape(divide) && |b| == 4 * m
    requires Solves(SlopeMatrix(x, m), ConstraintMatrix(x, m), 4 * m, divide)
    ensures var a := Coefficients(x, s, m, divide);
            && Continuous(x, m, a)
            && (Continuous(x, m, b) ==> FitError(x, s, m, b) >= FitError(x, s, m, a))
  {
    hide Solves, Solved, Block, Right, KeepsShape, Apply, Continuous, FitError;
    SystemSolved(SlopeMatrix(x, m), ConstraintMatrix(x, m), 4 * m, Data(s, m), divide);
    FitsBest(x, s, m, divide, b);
  }

  lemma FitsBest(x: Vec, s: Vec, m: nat, divide: (Matrix, Matrix) -> Matrix, b: Vec)
    requires |x| == |s| == 2 * m + 1 && m > 0 && KeepsShape(divide) && |b| == 4 * m
    requires var A, C, d := SlopeMatrix(x, m), ConstraintMatrix(x, m), Data(s, m);
             var sol := Solved(A, C, 4 * m, d, divide);
             Apply(Block(A, C, 4 * m), sol[..4 * m] + sol[4 * m..]) == Apply(Right(A, 4 * m, |C|), d)
    ensures var a := Coefficients(x, s, m, divide);
            && Continuous(x, m, a)
            && (Continuous(x, m, b) ==> FitError(x, s, m, b) >= FitError(x, s, m, a))
  {
    hide SlopeMatrix, ConstraintMatrix, Data, Block, Right, Mul, Apply, Continuous, Misfit, Satisfies, Solved,
      KeepsShape;
    var A, C, d := SlopeMatrix(x, m), ConstraintMatrix(x, m), Data(s, m);
    var sol := Solved(A, C, 4 * m, d, divide);
    ConstrainedOptimum(A, C, d, sol[..4 * m], sol[4 * m..], b);
    ConstraintsMean(x, m, sol[..4 * m]);
    ConstraintsMean(x, m, b);
  }

  lemma SystemSolved(A: Matrix, C: Matrix, q: nat, d: Vec, divide: (Matrix, Matrix) -> Matrix)
    requires IsMatrix(A, |d|, q) && IsMatrix(C, |C|, q) && q > 0 && KeepsShape(divide) && Solves(A, C, q, divide)
    ensures var sol := Solved(A, C, q, d, divide);
            Apply(Block(A, C, q), sol[..q] + sol[q..]) == Apply(Right(A, q, |C|), d)
  {
    hide Block, Right, Mul, Apply, KeepsShape;
    var M, N := Block(A, C, q), Right(A, q, |C|);
    MulApplies(M, divide(M, N), d);
    var sol := Solved(A, C, q, d, divide);
    assert sol == sol[..q] + sol[q..];
  }
}
