/** The rotation operator and the rotation matrix of a quaternion. */
module Rotation {
  import opened Reals
  import opened Quaternion

  // ----- the operator

  function Sandwich(q: Quat, v: Vec3): Quat {
    Prod(q, Prod(Pure(v), Conj(q)))
  }

  /** The operator is the sandwich product over the length. */
  lemma RotationIsSandwich(q: Quat, v: Vec3, sqrt: real -> real)
    requires Length(q, sqrt) != 0.0
    ensures Prod(q, Quot(Pure(v), q, sqrt)) == Times(Reciprocal(Length(q, sqrt)), Sandwich(q, v))
  {
    QuotIsProd(Pure(v), q, sqrt);
    ProdTimes(Reciprocal(Length(q, sqrt)), q, Prod(Pure(v), Conj(q)));
    hide Prod, Times, Quot, Length;
  }

  /** The nine numbers the matrix is made of, before the division by the squared length. */
  function Diagonal(a: real, b: real, c: real, d: real): real {
    Square(a) + Square(b) - Square(c) - Square(d)
  }

  function Above(a: real, b: real, c: real, d: real): real {
    2.0 * (-Product(a, d) + Product(b, c))
  }

  function Beyond(a: real, b: real, c: real, d: real): real {
    2.0 * (Product(a, c) + Product(b, d))
  }

  lemma SandwichScalar(a: real, b: real, c: real, d: real, x: real, y: real, z: real,
                       p1: real, p2: real, p3: real, p4: real)
    requires p1 == Product(0.0, a) - Product(x, -b) - Product(y, -c) - Product(z, -d)
    requires p2 == Product(0.0, -b) + Product(x, a) + Product(y, -d) - Product(z, -c)
    requires p3 == Product(0.0, -c) - Product(x, -d) + Product(y, a) + Product(z, -b)
    requires p4 == Product(0.0, -d) + Product(x, -c) - Product(y, -b) + Product(z, a)
    ensures Product(a, p1) - Product(b, p2) - Product(c, p3) - Product(d, p4) == 0.0
  {
  }

  lemma SandwichVector(a: real, b: real, c: real, d: real, x: real, y: real, z: real,
                       p1: real, p2: real, p3: real, p4: real)
    requires p1 == Product(0.0, a) - Product(x, -b) - Product(y, -c) - Product(z, -d)
    requires p2 == Product(0.0, -b) + Product(x, a) + Product(y, -d) - Product(z, -c)
    requires p3 == Product(0.0, -c) - Product(x, -d) + Product(y, a) + Product(z, -b)
    requires p4 == Product(0.0, -d) + Product(x, -c) - Product(y, -b) + Product(z, a)
    ensures Product(a, p2) + Product(b, p1) + Product(c, p4) - Product(d, p3)
            == Product(Diagonal(a, b, c, d), x) + Product(Above(a, b, c, d), y) + Product(Beyond(a, b, c, d), z)
  {
  }

  lemma SandwichFirst(q: Quat, v: Vec3)
    ensures Sandwich(q, v).w == 0.0
    ensures Sandwich(q, v).x
            == Product(Diagonal(q.w, q.x, q.y, q.z), v.x) + Product(Above(q.w, q.x, q.y, q.z), v.y)
               + Product(Beyond(q.w, q.x, q.y, q.z), v.z)
  {
    var p := Prod(Pure(v), Conj(q));
    hide Product, Diagonal, Above, Beyond;
    SandwichScalar(q.w, q.x, q.y, q.z, v.x, v.y, v.z, p.w, p.x, p.y, p.z);
    SandwichVector(q.w, q.x, q.y, q.z, v.x, v.y, v.z, p.w, p.x, p.y, p.z);
  }

  function TurnedVector(v: Vec3): Vec3 {
    Vec3(v.y, v.z, v.x)
  }

  lemma SandwichTurned(q: Quat, v: Vec3)
    ensures Sandwich(Turned(q), TurnedVector(v)) == Turned(Sandwich(q, v))
  {
    ProdTurned(Pure(v), Conj(q));
    ProdTurned(q, Prod(Pure(v), Conj(q)));
    hide Prod;
  }

  /** The discarded scalar part is always zero. */
  lemma RotationIsPure(q: Quat, v: Vec3, sqrt: real -> real)
    requires Length(q, sqrt) != 0.0
    ensures Prod(q, Quot(Pure(v), q, sqrt)) == Pure(Rotate(q, v, sqrt))
  {
    RotationIsSandwich(q, v, sqrt);
    SandwichFirst(q, v);
    ZeroProduct(Reciprocal(Length(q, sqrt)));
    hide Prod, Sandwich, Quot, Reciprocal, Product;
  }

  /** Rotations scale by the length of the quaternion. */
  lemma RotationScales(q: Quat, v: Vec3, sqrt: real -> real)
    requires IsRoot(sqrt) && Squared(q) > 0.0
    ensures Length(q, sqrt) > 0.0
    ensures Squared(Pure(Rotate(q, v, sqrt))) == Product(Squared(q), Squared(Pure(v)))
  {
    RootSign(sqrt, Squared(q));
    RotationIsPure(q, v, sqrt);
    var n := Length(q, sqrt);
    var u := Quot(Pure(v), q, sqrt);
    SquaredProd(q, u);
    QuotIsProd(Pure(v), q, sqrt);
    SquaredTimes(Reciprocal(n), Prod(Pure(v), Conj(q)));
    SquaredProd(Pure(v), Conj(q));
    SquaredSign(q);
    CancelSquare(n, Squared(Pure(v)), Squared(q));
    hide Squared, Prod, Quot, Times, Product, Square, Reciprocal, Rotate;
  }

  lemma SquaredTimes(k: real, q: Quat)
    ensures Squared(Times(k, q)) == Product(Square(k), Squared(q))
  {
  }

  lemma SumOfFour(k: real, a: real, b: real, c: real, d: real)
    ensures Product(k, a + b + c + d) == Product(k, a) + Product(k, b) + Product(k, c) + Product(k, d)
  {
  }

  lemma CancelSquare(n: real, v: real, s: real)
    requires n != 0.0 && Square(n) == s
    ensures Product(Square(Reciprocal(n)), Product(v, s)) == v
  {
  }

  /** Dividing by a product divides by its factors, the right one first. */
  lemma QuotOfProduct(u: Quat, q: Quat, r: Quat, sqrt: real -> real)
    requires IsRoot(sqrt) && Squared(q) > 0.0 && Squared(r) > 0.0
    ensures Length(q, sqrt) > 0.0 && Length(r, sqrt) > 0.0 && Length(Prod(q, r), sqrt) > 0.0
    ensures Quot(u, Prod(q, r), sqrt) == Quot(Quot(u, r, sqrt), q, sqrt)
  {
    var m, n := Length(q, sqrt), Length(r, sqrt);
    SquaredProd(q, r);
    RootOfProduct(sqrt, Squared(q), Squared(r));
    RootSign(sqrt, Squared(q));
    RootSign(sqrt, Squared(r));
    PositiveProduct(m, n);
    hide Squared, Square;
    assert Length(Prod(q, r), sqrt) == Product(m, n);
    QuotIsProd(u, Prod(q, r), sqrt);
    QuotIsProd(u, r, sqrt);
    QuotIsProd(Quot(u, r, sqrt), q, sqrt);
    ConjProd(q, r);
    ProdAssociative(u, Conj(r), Conj(q));
    ReciprocalOfProduct(m, n);
    ProdTimes(Reciprocal(n), Prod(u, Conj(r)), Conj(q));
    TimesTimes(Reciprocal(m), Reciprocal(n), Prod(Prod(u, Conj(r)), Conj(q)));
    hide Prod, Quot, Times, Product, Reciprocal, Conj, Length;
  }

  /** Composition: rotating by a product is rotating by the right factor, then by the left one. */
  lemma RotationComposes(q: Quat, r: Quat, v: Vec3, sqrt: real -> real)
    requires IsRoot(sqrt) && Squared(q) > 0.0 && Squared(r) > 0.0
    ensures Length(q, sqrt) > 0.0 && Length(r, sqrt) > 0.0 && Length(Prod(q, r), sqrt) > 0.0
    ensures Rotate(Prod(q, r), v, sqrt) == Rotate(q, Rotate(r, v, sqrt), sqrt)
  {
    QuotOfProduct(Pure(v), q, r, sqrt);
    var w := Quot(Pure(v), r, sqrt);
    RotationIsPure(r, v, sqrt);
    QuotIsProd(Prod(r, w), q, sqrt);
    QuotIsProd(w, q, sqrt);
    ProdAssociative(r, w, Conj(q));
    ProdTimes(Reciprocal(Length(q, sqrt)), r, Prod(w, Conj(q)));
    ProdAssociative(q, r, Quot(w, q, sqrt));
    hide Prod, Quot, Times, Length, Reciprocal;
  }

  // ----- the matrix

  const ROTATION_THRESHOLD := 0.000001

  function IdentityMatrix(): (m: seq<real>)
    ensures |m| == 16
  {
    seq(16, i => if i == 0 || i == 5 || i == 10 || i == 15 then 1.0 else 0.0)
  }

  /** The 4-by-4 matrix of a quaternion given as [w x y z], row by row; the identity when there are not
      four entries or the squared length is at or below the threshold. */
  function R3Rotation(q: seq<real>): (result: seq<real>)
    ensures |result| == 16
  {
    if |q| != 4 then IdentityMatrix() else
    var a, b, c, d := q[0], q[1], q[2], q[3];
    var aa, ab, ac, ad := Product(a, a), Product(a, b), Product(a, c), Product(a, d);
    var bb, bc, bd := Product(b, b), Product(b, c), Product(b, d);
    var cc, cd, dd := Product(c, c), Product(c, d), Product(d, d);
    var squared := aa + bb + cc + dd;
    if squared > ROTATION_THRESHOLD then
      [(aa + bb - cc - dd) / squared, 2.0 * (-ad + bc) / squared, 2.0 * (ac + bd) / squared, 0.0,
       2.0 * (ad + bc) / squared, (aa - bb + cc - dd) / squared, 2.0 * (-ab + cd) / squared, 0.0,
       2.0 * (-ac + bd) / squared, 2.0 * (ab + cd) / squared, (aa - bb - cc + dd) / squared, 0.0,
       0.0, 0.0, 0.0, 1.0]
    else IdentityMatrix()
  }

  function Entry(m: seq<real>, i: nat, j: nat): real
    requires |m| == 16 && i < 4 && j < 4
  {
    m[4 * i + j]
  }

  /** The dot product of two rows of the 3-by-3 block. */
  function RowDot(m: seq<real>, i: nat, j: nat): real
    requires |m| == 16 && i < 3 && j < 3
  {
    Product(Entry(m, i, 0), Entry(m, j, 0)) + Product(Entry(m, i, 1), Entry(m, j, 1))
      + Product(Entry(m, i, 2), Entry(m, j, 2))
  }

  function Minor(a: real, b: real, c: real, d: real): real {
    Product(a, d) - Product(b, c)
  }

  function Determinant(m: seq<real>): real
    requires |m| == 16
  {
    Product(Entry(m, 0, 0), Minor(Entry(m, 1, 1), Entry(m, 1, 2), Entry(m, 2, 1), Entry(m, 2, 2)))
    - Product(Entry(m, 0, 1), Minor(Entry(m, 1, 0), Entry(m, 1, 2), Entry(m, 2, 0), Entry(m, 2, 2)))
    + Product(Entry(m, 0, 2), Minor(Entry(m, 1, 0), Entry(m, 1, 1), Entry(m, 2, 0), Entry(m, 2, 1)))
  }

  /** Row by row, the block is the sandwich matrix over the squared length. */
  lemma MatrixEntries(q: seq<real>)
    requires |q| == 4
    requires var s := Square(q[0]) + Square(q[1]) + Square(q[2]) + Square(q[3]); s > ROTATION_THRESHOLD
    ensures var a, b, c, d := q[0], q[1], q[2], q[3];
            var s, m := Square(a) + Square(b) + Square(c) + Square(d), R3Rotation(q);
            && Entry(m, 0, 0) == Diagonal(a, b, c, d) / s && Entry(m, 0, 1) == Above(a, b, c, d) / s
            && Entry(m, 0, 2) == Beyond(a, b, c, d) / s
            && Entry(m, 1, 1) == Diagonal(a, c, d, b) / s && Entry(m, 1, 2) == Above(a, c, d, b) / s
            && Entry(m, 1, 0) == Beyond(a, c, d, b) / s
            && Entry(m, 2, 2) == Diagonal(a, d, b, c) / s && Entry(m, 2, 0) == Above(a, d, b, c) / s
            && Entry(m, 2, 1) == Beyond(a, d, b, c) / s
  {
  }

  lemma RowsRaw(a: real, b: real, c: real, d: real, s: real, x: real, y: real, z: real, u: real, v: real, w: real)
    requires s == a * a + b * b + c * c + d * d
    requires x == a * a + b * b - c * c - d * d && y == 2.0 * (-(a * d) + b * c) && z == 2.0 * (a * c + b * d)
    requires u == a * a + c * c - d * d - b * b && v == 2.0 * (-(a * b) + c * d) && w == 2.0 * (a * d + c * b)
    ensures x * x + y * y + z * z == s * s
    ensures x * w + y * u + z * v == 0.0
  {
  }

  /** The rows of the sandwich matrix are orthogonal, each as long as the squared length. */
  lemma Rows(a: real, b: real, c: real, d: real, s: real)
    requires s == Square(a) + Square(b) + Square(c) + Square(d)
    ensures Square(Diagonal(a, b, c, d)) + Square(Above(a, b, c, d)) + Square(Beyond(a, b, c, d)) == Square(s)
    ensures Product(Diagonal(a, b, c, d), Beyond(a, c, d, b)) + Product(Above(a, b, c, d), Diagonal(a, c, d, b))
            + Product(Beyond(a, b, c, d), Above(a, c, d, b)) == 0.0
  {
    RowsRaw(a, b, c, d, s, Diagonal(a, b, c, d), Above(a, b, c, d), Beyond(a, b, c, d),
            Diagonal(a, c, d, b), Above(a, c, d, b), Beyond(a, c, d, b));
  }

  // The minors of the lower rows are the entries of the first row, times the squared length.

  lemma FirstMinor(a: real, b: real, c: real, d: real, s: real)
    requires s == Square(a) + Square(b) + Square(c) + Square(d)
    ensures Minor(Diagonal(a, c, d, b), Above(a, c, d, b), Beyond(a, d, b, c), Diagonal(a, d, b, c))
            == Product(s, Diagonal(a, b, c, d))
  {
  }

  lemma SecondMinor(a: real, b: real, c: real, d: real, s: real)
    requires s == Square(a) + Square(b) + Square(c) + Square(d)
    ensures Minor(Beyond(a, c, d, b), Above(a, c, d, b), Above(a, d, b, c), Diagonal(a, d, b, c))
            == -Product(s, Above(a, b, c, d))
  {
  }

  lemma ThirdMinor(a: real, b: real, c: real, d: real, s: real)
    requires s == Square(a) + Square(b) + Square(c) + Square(d)
    ensures Minor(Beyond(a, c, d, b), Diagonal(a, c, d, b), Above(a, d, b, c), Beyond(a, d, b, c))
            == Product(s, Beyond(a, b, c, d))
  {
  }

  lemma DividedRow(s: real, x: real, y: real, z: real, u: real, v: real, w: real)
    requires s > 0.0
    ensures Product(x / s, u / s) + Product(y / s, v / s) + Product(z / s, w / s)
            == Product(Square(Reciprocal(s)), Product(x, u) + Product(y, v) + Product(z, w))
  {
  }

  lemma DividedMinor(s: real, x: real, y: real, z: real, w: real)
    requires s > 0.0
    ensures Minor(x / s, y / s, z / s, w / s) == Product(Square(Reciprocal(s)), Minor(x, y, z, w))
  {
  }

  /** Dividing twice by the squared length undoes its square, and once more its cube. */
  lemma Cancels(s: real)
    requires s > 0.0
    ensures Product(Square(Reciprocal(s)), Square(s)) == 1.0
    ensures Product(Square(Reciprocal(s)), 0.0) == 0.0
  {
  }

  /** The rows of the block are orthonormal, for a row and the next one. */
  lemma BlockRows(a: real, b: real, c: real, d: real, s: real)
    requires s == Square(a) + Square(b) + Square(c) + Square(d) && s > 0.0
    ensures Square(Diagonal(a, b, c, d) / s) + Square(Above(a, b, c, d) / s) + Square(Beyond(a, b, c, d) / s) == 1.0
    ensures Product(Diagonal(a, b, c, d) / s, Beyond(a, c, d, b) / s)
            + Product(Above(a, b, c, d) / s, Diagonal(a, c, d, b) / s)
            + Product(Beyond(a, b, c, d) / s, Above(a, c, d, b) / s) == 0.0
  {
    var x, y, z := Diagonal(a, b, c, d), Above(a, b, c, d), Beyond(a, b, c, d);
    Rows(a, b, c, d, s);
    DividedRow(s, x, y, z, x, y, z);
    DividedRow(s, x, y, z, Beyond(a, c, d, b), Diagonal(a, c, d, b), Above(a, c, d, b));
    Cancels(s);
    hide Product, Diagonal, Above, Beyond, Reciprocal;
  }

  lemma BlockDeterminant(a: real, b: real, c: real, d: real, s: real)
    requires s == Square(a) + Square(b) + Square(c) + Square(d) && s > 0.0
    ensures Product(Diagonal(a, b, c, d) / s, Minor(Diagonal(a, c, d, b) / s, Above(a, c, d, b) / s,
                                                    Beyond(a, d, b, c) / s, Diagonal(a, d, b, c) / s))
            - Product(Above(a, b, c, d) / s, Minor(Beyond(a, c, d, b) / s, Above(a, c, d, b) / s, Above(a, d, b, c) / s,
                                                   Diagonal(a, d, b, c) / s))
            + Product(Beyond(a, b, c, d) / s, Minor(Beyond(a, c, d, b) / s, Diagonal(a, c, d, b) / s,
                                                    Above(a, d, b, c) / s, Beyond(a, d, b, c) / s))
            == 1.0
  {
    var x, y, z := Diagonal(a, b, c, d), Above(a, b, c, d), Beyond(a, b, c, d);
    FirstMinor(a, b, c, d, s);
    SecondMinor(a, b, c, d, s);
    ThirdMinor(a, b, c, d, s);
    DividedMinor(s, Diagonal(a, c, d, b), Above(a, c, d, b), Beyond(a, d, b, c), Diagonal(a, d, b, c));
    DividedMinor(s, Beyond(a, c, d, b), Above(a, c, d, b), Above(a, d, b, c), Diagonal(a, d, b, c));
    DividedMinor(s, Beyond(a, c, d, b), Diagonal(a, c, d, b), Above(a, d, b, c), Beyond(a, d, b, c));
    SquareTimes(s, x);
    SquareTimes(s, y);
    SquareTimes(s, z);
    BlockRows(a, b, c, d, s);
    Negated(y / s, y / s);
    hide Product, Diagonal, Above, Beyond, Reciprocal, Minor;
  }

  /** Two of the three divisions by the squared length cancel against the one in a minor. */
  lemma SquareTimes(s: real, x: real)
    requires s > 0.0
    ensures Product(Square(Reciprocal(s)), Product(s, x)) == x / s
    ensures Product(Square(Reciprocal(s)), -Product(s, x)) == -(x / s)
  {
  }

  // ----- the main results on the matrix

  /** A 4-by-4 matrix whose 3-by-3 block is a rotation, and that is the identity elsewhere. */
  predicate IsRotation(m: seq<real>)
    requires |m| == 16
  {
    && (forall i, j | 0 <= i < 3 && 0 <= j < 3 :: RowDot(m, i, j) == if i == j then 1.0 else 0.0)
    && Determinant(m) == 1.0
    && (forall i | 0 <= i < 3 :: Entry(m, i, 3) == 0.0 == Entry(m, 3, i)) && Entry(m, 3, 3) == 1.0
  }

  lemma SixDots(m: seq<real>)
    requires |m| == 16
    requires RowDot(m, 0, 0) == RowDot(m, 1, 1) == RowDot(m, 2, 2) == 1.0
    requires RowDot(m, 0, 1) == RowDot(m, 1, 2) == RowDot(m, 2, 0) == 0.0
    ensures forall i, j | 0 <= i < 3 && 0 <= j < 3 :: RowDot(m, i, j) == if i == j then 1.0 else 0.0
  {
    RowDotSymmetric(m, 0, 1);
    RowDotSymmetric(m, 2, 0);
    RowDotSymmetric(m, 1, 2);
    hide RowDot;
  }

  lemma IdentityIsRotation(m: seq<real>)
    requires m == IdentityMatrix()
    ensures IsRotation(m)
  {
    ZeroProduct(0.0);
    ZeroProduct(1.0);
    assert Entry(m, 0, 0) == 1.0 && Entry(m, 0, 1) == 0.0 && Entry(m, 0, 2) == 0.0;
    assert Entry(m, 1, 0) == 0.0 && Entry(m, 1, 1) == 1.0 && Entry(m, 1, 2) == 0.0;
    assert Entry(m, 2, 0) == 0.0 && Entry(m, 2, 1) == 0.0 && Entry(m, 2, 2) == 1.0;
    assert (forall i | 0 <= i < 3 :: Entry(m, i, 3) == 0.0 == Entry(m, 3, i)) && Entry(m, 3, 3) == 1.0;
    hide Product, Entry, IdentityMatrix;
    SixDots(m);
  }

  lemma AboveThreshold(q: seq<real>)
    requires |q| == 4 && Square(q[0]) + Square(q[1]) + Square(q[2]) + Square(q[3]) > ROTATION_THRESHOLD
    ensures IsRotation(R3Rotation(q))
  {
    var a, b, c, d, m := q[0], q[1], q[2], q[3], R3Rotation(q);
    var s := Square(a) + Square(b) + Square(c) + Square(d);
    MatrixEntries(q);
    BlockRows(a, b, c, d, s);
    BlockRows(a, c, d, b, s);
    BlockRows(a, d, b, c, s);
    BlockDeterminant(a, b, c, d, s);
    assert (forall i | 0 <= i < 3 :: Entry(m, i, 3) == 0.0 == Entry(m, 3, i)) && Entry(m, 3, 3) == 1.0;
    hide Product, Diagonal, Above, Beyond, Minor, R3Rotation, Entry;
    SixDots(m);
  }

  /** Whatever the input, the result is a rotation matrix. */
  lemma MatrixIsRotation(q: seq<real>)
    ensures IsRotation(R3Rotation(q))
  {
    hide IsRotation, Product;
    if |q| == 4 && Square(q[0]) + Square(q[1]) + Square(q[2]) + Square(q[3]) > ROTATION_THRESHOLD {
      AboveThreshold(q);
    } else {
      IdentityIsRotation(R3Rotation(q));
    }
  }

  lemma RowDotSymmetric(m: seq<real>, i: nat, j: nat)
    requires |m| == 16 && i < 3 && j < 3
    ensures RowDot(m, i, j) == RowDot(m, j, i)
  {
  }

  function Applied(m: seq<real>, v: Vec3): Vec3
    requires |m| == 16
  {
    Vec3(Product(Entry(m, 0, 0), v.x) + Product(Entry(m, 0, 1), v.y) + Product(Entry(m, 0, 2), v.z),
         Product(Entry(m, 1, 0), v.x) + Product(Entry(m, 1, 1), v.y) + Product(Entry(m, 1, 2), v.z),
         Product(Entry(m, 2, 0), v.x) + Product(Entry(m, 2, 1), v.y) + Product(Entry(m, 2, 2), v.z))
  }

  function Scaled(k: real, v: Vec3): Vec3 {
    Vec3(Product(k, v.x), Product(k, v.y), Product(k, v.z))
  }

  lemma RowAgrees(x: real, y: real, z: real, u: real, v: real, w: real, s: real, n: real)
    requires n > 0.0 && s == Square(n) && s > 0.0
    ensures Product(n, Product(x / s, u) + Product(y / s, v) + Product(z / s, w))
            == Product(Reciprocal(n), Product(x, u) + Product(y, v) + Product(z, w))
  {
  }

  function Coordinates(q: Quat): seq<real> {
    [q.w, q.x, q.y, q.z]
  }

  /** Rotation agreement: above the threshold, the matrix and the operator rotate alike, and the operator
      scales by the length of the quaternion. */
  lemma RotationAgreement(q: Quat, v: Vec3, sqrt: real -> real)
    requires IsRoot(sqrt) && Squared(q) > 0.000001
    ensures Length(q, sqrt) > 0.0
    ensures Scaled(Length(q, sqrt), Applied(R3Rotation(Coordinates(q)), v)) == Rotate(q, v, sqrt)
  {
    RootSign(sqrt, Squared(q));
    var a, b, c, d, s, n := q.w, q.x, q.y, q.z, Squared(q), Length(q, sqrt);
    RotationIsSandwich(q, v, sqrt);
    SandwichFirst(q, v);
    SandwichFirst(Turned(q), TurnedVector(v));
    SandwichFirst(Turned(Turned(q)), TurnedVector(TurnedVector(v)));
    SandwichTurned(q, v);
    SandwichTurned(Turned(q), TurnedVector(v));
    MatrixEntries(Coordinates(q));
    RowAgrees(Diagonal(a, b, c, d), Above(a, b, c, d), Beyond(a, b, c, d), v.x, v.y, v.z, s, n);
    RowAgrees(Diagonal(a, c, d, b), Above(a, c, d, b), Beyond(a, c, d, b), v.y, v.z, v.x, s, n);
    RowAgrees(Diagonal(a, d, b, c), Above(a, d, b, c), Beyond(a, d, b, c), v.z, v.x, v.y, s, n);
    hide Product, Diagonal, Above, Beyond, Sandwich, Prod, Quot, R3Rotation, Square, Reciprocal;
  }

  /** The first coordinate of a rotated vector. */
  lemma RotatedFirst(q: Quat, v: Vec3, sqrt: real -> real)
    requires IsRoot(sqrt) && Squared(q) > 0.0
    ensures Length(q, sqrt) > 0.0
    ensures Rotate(q, v, sqrt).x
            == Product(Reciprocal(Length(q, sqrt)),
                       Product(Diagonal(q.w, q.x, q.y, q.z), v.x) + Product(Above(q.w, q.x, q.y, q.z), v.y)
                       + Product(Beyond(q.w, q.x, q.y, q.z), v.z))
  {
    RootSign(sqrt, Squared(q));
    RotationIsSandwich(q, v, sqrt);
    SandwichFirst(q, v);
    hide Product, Diagonal, Above, Beyond, Sandwich, Prod, Quot, Square, Reciprocal;
  }

  lemma RotateTurned(q: Quat, v: Vec3, sqrt: real -> real)
    requires IsRoot(sqrt) && Squared(q) > 0.0
    ensures Squared(Turned(q)) == Squared(q) && Length(q, sqrt) > 0.0
    ensures Rotate(Turned(q), TurnedVector(v), sqrt) == TurnedVector(Rotate(q, v, sqrt))
  {
  }

  lemma DiagonalFull(a: real, b: real, c: real, d: real, n: real)
    requires n > 0.0 && Square(n) == Square(a) + Square(b) + Square(c) + Square(d)
    ensures Product(Reciprocal(n), Product(Diagonal(a, b, c, d), 1.0)) == n <==> c == 0.0 && d == 0.0
  {
    var k, x := Reciprocal(n), Diagonal(a, b, c, d);
    assert k * n == 1.0;
    assert k * x == n <==> x == n * n by {
      assert n * (k * x) == (k * n) * x;
    }
    SquareSign(c);
    SquareSign(d);
  }

  lemma ScalarRotation(q: Quat, v: Vec3, sqrt: real -> real)
    requires IsRoot(sqrt) && Squared(q) > 0.0 && q.x == q.y == q.z == 0.0
    ensures Length(q, sqrt) > 0.0
    ensures Rotate(q, v, sqrt).x == Product(Length(q, sqrt), v.x)
  {
    hide Product, Reciprocal, Rotate, IsRoot, Square;
    RotatedFirst(q, v, sqrt);
    ScalarEntries(q.w);
    RootIs(sqrt, Squared(q));
    ZeroProduct(v.y);
    ZeroProduct(v.z);
    OverItself(Length(q, sqrt), v.x);
  }

  lemma ScalarEntries(w: real)
    ensures Diagonal(w, 0.0, 0.0, 0.0) == Square(w) == Squared(Quat(w, 0.0, 0.0, 0.0))
    ensures Above(w, 0.0, 0.0, 0.0) == Beyond(w, 0.0, 0.0, 0.0) == 0.0
  {
  }

  lemma OverItself(n: real, x: real)
    requires n > 0.0
    ensures Product(Reciprocal(n), Product(Square(n), x)) == Product(n, x)
  {
  }

  lemma Distinguished(q: Quat, v: Vec3, sqrt: real -> real)
    requires IsRoot(sqrt) && Squared(q) > 0.0 && v == Vec3(1.0, 0.0, 0.0)
    ensures Length(q, sqrt) > 0.0
    ensures Rotate(q, v, sqrt).x == Length(q, sqrt) ==> q.y == 0.0 && q.z == 0.0
  {
    RotatedFirst(q, v, sqrt);
    ZeroProduct(Above(q.w, q.x, q.y, q.z));
    ZeroProduct(Beyond(q.w, q.x, q.y, q.z));
    DiagonalFull(q.w, q.x, q.y, q.z, Length(q, sqrt));
    hide Product, Reciprocal, Rotate, Above, Beyond, Diagonal;
  }

  ghost predicate Agrees(q: Quat, sqrt: real -> real)
    requires Length(q, sqrt) > 0.0
  {
    forall v :: Scaled(Length(q, sqrt), Applied(R3Rotation(Coordinates(q)), v)) == Rotate(q, v, sqrt)
  }

  lemma IdentityApplied(m: seq<real>, v: Vec3)
    requires m == IdentityMatrix()
    ensures Applied(m, v) == v
  {
  }

  /** Exactly which non-zero quaternions have a matrix that agrees with the operator: those above the
      threshold, and of the others only the pure scalars, which do not turn anything. */
  lemma AgreementExactly(q: Quat, sqrt: real -> real)
    requires IsRoot(sqrt) && Squared(q) > 0.0
    ensures Length(q, sqrt) > 0.0
    ensures Agrees(q, sqrt) <==> Squared(q) > 0.000001 || q.x == q.y == q.z == 0.0
  {
    var n, m := Length(q, sqrt), R3Rotation(Coordinates(q));
    RootSign(sqrt, Squared(q));
    if Squared(q) > ROTATION_THRESHOLD {
      forall v ensures Scaled(n, Applied(m, v)) == Rotate(q, v, sqrt) {
        RotationAgreement(q, v, sqrt);
      }
    } else {
      forall v ensures Applied(m, v) == v {
        IdentityApplied(m, v);
      }
      if q.x == q.y == q.z == 0.0 {
        forall v ensures Rotate(q, v, sqrt) == Scaled(n, v) {
          RotateTurned(q, v, sqrt);
          RotateTurned(q, TurnedVector(v), sqrt);
          ScalarRotation(q, v, sqrt);
          ScalarRotation(q, TurnedVector(v), sqrt);
          ScalarRotation(q, TurnedVector(TurnedVector(v)), sqrt);
        }
      } else {
        NoAgreement(q, sqrt, m);
      }
    }
  }

  lemma NoAgreement(q: Quat, sqrt: real -> real, m: seq<real>)
    requires IsRoot(sqrt) && 0.0 < Squared(q) && !(q.x == q.y == q.z == 0.0)
             && m == IdentityMatrix() == R3Rotation(Coordinates(q))
    ensures Length(q, sqrt) > 0.0 && !Agrees(q, sqrt)
  {
    RootSign(sqrt, Squared(q));
    var v, n := Vec3(1.0, 0.0, 0.0), Length(q, sqrt);
    var w := TurnedVector(TurnedVector(v));
    IdentityApplied(m, v);
    IdentityApplied(m, w);
    ZeroProduct(n);
    Distinguished(q, v, sqrt);
    Distinguished(Turned(q), TurnedVector(w), sqrt);
    RotateTurned(q, w, sqrt);
    hide Rotate, Product, Applied, R3Rotation;
    assert Scaled(n, Applied(m, v)).x == n && Scaled(n, Applied(m, w)).y == n;
  }

  /** A unit quaternion gets the matrix of its own rotation. */
  lemma UnitRotation(q: Quat, v: Vec3, sqrt: real -> real)
    requires IsRoot(sqrt) && Squared(q) == 1.0
    ensures Length(q, sqrt) == 1.0
    ensures Applied(R3Rotation(Coordinates(q)), v) == Rotate(q, v, sqrt)
  {
    RotationAgreement(q, v, sqrt);
    OneIsSquare();
    RootOfSquare(sqrt, 1.0);
    var w := Applied(R3Rotation(Coordinates(q)), v);
    ZeroProduct(w.x);
    ZeroProduct(w.y);
    ZeroProduct(w.z);
    hide Product, R3Rotation, Rotate, Applied;
  }

  lemma OneIsSquare()
    ensures Square(1.0) == 1.0
  {
  }

  /** Everything else gets the identity: another number of entries, or a squared length of at most 1e-6. */
  lemma IdentityOtherwise(q: seq<real>)
    requires |q| != 4
             || Square(q[0]) + Square(q[1]) + Square(q[2]) + Square(q[3]) <= 0.000001
    ensures R3Rotation(q) == [1.0, 0.0, 0.0, 0.0, 0.0, 1.0, 0.0, 0.0, 0.0, 0.0, 1.0, 0.0, 0.0, 0.0, 0.0, 1.0]
  {
    hide Product;
    assert R3Rotation(q) == IdentityMatrix();
  }
}
