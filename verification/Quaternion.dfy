/** Quaternions as the orientation code writes them: the quotient divides by the length of the divisor,
    not by its square, so the rotation operator also scales by that length. */
module Quaternion {
  import opened Reals

  datatype Quat = Quat(w: real, x: real, y: real, z: real)
  datatype Vec3 = Vec3(x: real, y: real, z: real)

  const ONE := Quat(1.0, 0.0, 0.0, 0.0)

  function Squared(q: Quat): real {
    Square(q.w) + Square(q.x) + Square(q.y) + Square(q.z)
  }

  function Prod(q: Quat, r: Quat): Quat {
    Quat(Product(q.w, r.w) - Product(q.x, r.x) - Product(q.y, r.y) - Product(q.z, r.z),
         Product(q.w, r.x) + Product(q.x, r.w) + Product(q.y, r.z) - Product(q.z, r.y),
         Product(q.w, r.y) - Product(q.x, r.z) + Product(q.y, r.w) + Product(q.z, r.x),
         Product(q.w, r.z) + Product(q.x, r.y) - Product(q.y, r.x) + Product(q.z, r.w))
  }

  function Quot(q: Quat, r: Quat, sqrt: real -> real): Quat
    requires sqrt(Squared(r)) != 0.0
  {
    var r2 := sqrt(Squared(r));
    Quat((Product(q.w, r.w) + Product(q.x, r.x) + Product(q.y, r.y) + Product(q.z, r.z)) / r2,
         (-Product(q.w, r.x) + Product(q.x, r.w) - Product(q.y, r.z) + Product(q.z, r.y)) / r2,
         (-Product(q.w, r.y) + Product(q.x, r.z) + Product(q.y, r.w) - Product(q.z, r.x)) / r2,
         (-Product(q.w, r.z) - Product(q.x, r.y) + Product(q.y, r.x) + Product(q.z, r.w)) / r2)
  }

  function Pure(v: Vec3): Quat {
    Quat(0.0, v.x, v.y, v.z)
  }

  function VectorPart(q: Quat): Vec3 {
    Vec3(q.x, q.y, q.z)
  }

  /** The rotation operator; the scalar part is dropped. */
  function Rotate(q: Quat, v: Vec3, sqrt: real -> real): Vec3
    requires sqrt(Squared(q)) != 0.0
  {
    VectorPart(Prod(q, Quot(Pure(v), q, sqrt)))
  }

  // ----- algebra of the product

  function Conj(q: Quat): Quat {
    Quat(q.w, -q.x, -q.y, -q.z)
  }

  function Times(k: real, q: Quat): Quat {
    Quat(Product(k, q.w), Product(k, q.x), Product(k, q.y), Product(k, q.z))
  }

  lemma Triple(a: real, b: real, c: real, d: real, e: real, f: real, g: real, h: real,
               i: real, j: real, k: real, l: real, w1: real, x1: real, y1: real, z1: real,
               w2: real, x2: real, y2: real, z2: real)
    requires w1 == a * e - b * f - c * g - d * h && x1 == a * f + b * e + c * h - d * g
    requires y1 == a * g - b * h + c * e + d * f && z1 == a * h + b * g - c * f + d * e
    requires w2 == e * i - f * j - g * k - h * l && x2 == e * j + f * i + g * l - h * k
    requires y2 == e * k - f * l + g * i + h * j && z2 == e * l + f * k - g * j + h * i
    ensures w1 * i - x1 * j - y1 * k - z1 * l == a * w2 - b * x2 - c * y2 - d * z2
    ensures w1 * j + x1 * i + y1 * l - z1 * k == a * x2 + b * w2 + c * z2 - d * y2
  {
  }

  lemma NamedTriple(a: real, b: real, c: real, d: real, e: real, f: real, g: real, h: real,
                    i: real, j: real, k: real, l: real, w1: real, x1: real, y1: real, z1: real,
                    w2: real, x2: real, y2: real, z2: real)
    requires w1 == Product(a, e) - Product(b, f) - Product(c, g) - Product(d, h)
    requires x1 == Product(a, f) + Product(b, e) + Product(c, h) - Product(d, g)
    requires y1 == Product(a, g) - Product(b, h) + Product(c, e) + Product(d, f)
    requires z1 == Product(a, h) + Product(b, g) - Product(c, f) + Product(d, e)
    requires w2 == Product(e, i) - Product(f, j) - Product(g, k) - Product(h, l)
    requires x2 == Product(e, j) + Product(f, i) + Product(g, l) - Product(h, k)
    requires y2 == Product(e, k) - Product(f, l) + Product(g, i) + Product(h, j)
    requires z2 == Product(e, l) + Product(f, k) - Product(g, j) + Product(h, i)
    ensures Product(w1, i) - Product(x1, j) - Product(y1, k) - Product(z1, l)
            == Product(a, w2) - Product(b, x2) - Product(c, y2) - Product(d, z2)
    ensures Product(w1, j) + Product(x1, i) + Product(y1, l) - Product(z1, k)
            == Product(a, x2) + Product(b, w2) + Product(c, z2) - Product(d, y2)
  {
    Triple(a, b, c, d, e, f, g, h, i, j, k, l, w1, x1, y1, z1, w2, x2, y2, z2);
  }

  lemma AssociativeFront(p: Quat, q: Quat, r: Quat)
    ensures Prod(Prod(p, q), r).w == Prod(p, Prod(q, r)).w && Prod(Prod(p, q), r).x == Prod(p, Prod(q, r)).x
  {
    hide Product;
    var m, n := Prod(p, q), Prod(q, r);
    NamedTriple(p.w, p.x, p.y, p.z, q.w, q.x, q.y, q.z, r.w, r.x, r.y, r.z, m.w, m.x, m.y, m.z, n.w, n.x, n.y, n.z);
  }

  /** The vector axes renamed in turn; the product does not notice. */
  function Turned(q: Quat): Quat {
    Quat(q.w, q.y, q.z, q.x)
  }

  lemma ProdTurned(q: Quat, r: Quat)
    ensures Prod(Turned(q), Turned(r)) == Turned(Prod(q, r))
  {
  }

  lemma TurnedTwice(p: Quat, q: Quat, r: Quat)
    ensures Prod(Prod(Turned(p), Turned(q)), Turned(r)) == Turned(Prod(Prod(p, q), r))
    ensures Prod(Turned(p), Prod(Turned(q), Turned(r))) == Turned(Prod(p, Prod(q, r)))
  {
    hide Prod, Turned;
    ProdTurned(p, q);
    ProdTurned(Prod(p, q), r);
    ProdTurned(q, r);
    ProdTurned(p, Prod(q, r));
  }

  lemma ProdAssociative(p: Quat, q: Quat, r: Quat)
    ensures Prod(Prod(p, q), r) == Prod(p, Prod(q, r))
  {
    hide Prod;
    AssociativeFront(p, q, r);
    var p', q', r' := Turned(p), Turned(q), Turned(r);
    TurnedTwice(p, q, r);
    AssociativeFront(p', q', r');
    TurnedTwice(p', q', r');
    AssociativeFront(Turned(p'), Turned(q'), Turned(r'));
  }

  lemma FourSquares(p1: real, p2: real, p3: real, p4: real, q1: real, q2: real, q3: real, q4: real,
                    a1: real, a2: real, a3: real, a4: real, m: real, n: real)
    requires a1 == p1 * q1 - p2 * q2 - p3 * q3 - p4 * q4 && a2 == p1 * q2 + p2 * q1 + p3 * q4 - p4 * q3
    requires a3 == p1 * q3 - p2 * q4 + p3 * q1 + p4 * q2 && a4 == p1 * q4 + p2 * q3 - p3 * q2 + p4 * q1
    requires m == p1 * p1 + p2 * p2 + p3 * p3 + p4 * p4 && n == q1 * q1 + q2 * q2 + q3 * q3 + q4 * q4
    ensures a1 * a1 + a2 * a2 + a3 * a3 + a4 * a4 == m * n
  {
  }

  lemma FourSquaresNamed(p1: real, p2: real, p3: real, p4: real, q1: real, q2: real, q3: real, q4: real,
                         a1: real, a2: real, a3: real, a4: real, m: real, n: real)
    requires a1 == Product(p1, q1) - Product(p2, q2) - Product(p3, q3) - Product(p4, q4)
    requires a2 == Product(p1, q2) + Product(p2, q1) + Product(p3, q4) - Product(p4, q3)
    requires a3 == Product(p1, q3) - Product(p2, q4) + Product(p3, q1) + Product(p4, q2)
    requires a4 == Product(p1, q4) + Product(p2, q3) - Product(p3, q2) + Product(p4, q1)
    requires m == Square(p1) + Square(p2) + Square(p3) + Square(p4)
    requires n == Square(q1) + Square(q2) + Square(q3) + Square(q4)
    ensures Square(a1) + Square(a2) + Square(a3) + Square(a4) == Product(m, n)
  {
    FourSquares(p1, p2, p3, p4, q1, q2, q3, q4, a1, a2, a3, a4, m, n);
  }

  /** The length of a product is the product of the lengths. */
  lemma SquaredProd(q: Quat, r: Quat)
    ensures Squared(Prod(q, r)) == Product(Squared(q), Squared(r))
  {
    hide Product, Square;
    var a := Prod(q, r);
    FourSquaresNamed(q.w, q.x, q.y, q.z, r.w, r.x, r.y, r.z, a.w, a.x, a.y, a.z, Squared(q), Squared(r));
  }

  lemma SquaredSign(q: Quat)
    ensures Squared(q) >= 0.0
    ensures Squared(q) == 0.0 <==> q == Quat(0.0, 0.0, 0.0, 0.0)
    ensures Squared(Conj(q)) == Squared(q)
  {
    SquareSign(q.w);
    SquareSign(q.x);
    SquareSign(q.y);
    SquareSign(q.z);
    hide Square;
  }

  lemma Negated(a: real, b: real)
    ensures Product(-a, b) == -Product(a, b) == Product(a, -b)
    ensures Product(-a, -b) == Product(a, b) == Product(b, a)
  {
  }

  lemma ConjProd(q: Quat, r: Quat)
    ensures Conj(Prod(q, r)) == Prod(Conj(r), Conj(q))
  {
    NegatedEntries(q.w, r.w, q.x, r.x, q.y, r.y, q.z, r.z);
    NegatedEntries(q.w, r.x, q.x, r.w, q.y, r.z, q.z, r.y);
    NegatedEntries(q.w, r.y, q.x, r.z, q.y, r.w, q.z, r.x);
    NegatedEntries(q.w, r.z, q.x, r.y, q.y, r.x, q.z, r.w);
    hide Product;
  }

  lemma NegatedEntries(a: real, b: real, c: real, d: real, e: real, f: real, g: real, h: real)
    ensures Product(b, a) == Product(a, b) && Product(-b, -a) == Product(a, b)
    ensures Product(b, -a) == -Product(a, b) == Product(-b, a)
    ensures Product(d, c) == Product(c, d) && Product(-d, -c) == Product(c, d)
    ensures Product(d, -c) == -Product(c, d) == Product(-d, c)
    ensures Product(f, e) == Product(e, f) && Product(-f, -e) == Product(e, f)
    ensures Product(f, -e) == -Product(e, f) == Product(-f, e)
    ensures Product(h, g) == Product(g, h) && Product(-h, -g) == Product(g, h)
    ensures Product(h, -g) == -Product(g, h) == Product(-h, g)
  {
  }

  lemma Distribute(k: real, a: real, b: real, c: real, d: real)
    ensures Product(k, a - b - c - d) == Product(k, a) - Product(k, b) - Product(k, c) - Product(k, d)
    ensures Product(k, a + b + c - d) == Product(k, a) + Product(k, b) + Product(k, c) - Product(k, d)
    ensures Product(k, a - b + c + d) == Product(k, a) - Product(k, b) + Product(k, c) + Product(k, d)
    ensures Product(k, a + b - c + d) == Product(k, a) + Product(k, b) - Product(k, c) + Product(k, d)
  {
  }

  lemma MoveFour(k: real, a: real, r: Quat)
    ensures Product(a, Product(k, r.w)) == Product(k, Product(a, r.w)) == Product(Product(k, a), r.w)
    ensures Product(a, Product(k, r.x)) == Product(k, Product(a, r.x)) == Product(Product(k, a), r.x)
    ensures Product(a, Product(k, r.y)) == Product(k, Product(a, r.y)) == Product(Product(k, a), r.y)
    ensures Product(a, Product(k, r.z)) == Product(k, Product(a, r.z)) == Product(Product(k, a), r.z)
  {
  }

  lemma ProdTimes(k: real, q: Quat, r: Quat)
    ensures Prod(q, Times(k, r)) == Times(k, Prod(q, r)) == Prod(Times(k, q), r)
  {
    hide Product;
    MoveFour(k, q.w, r);
    MoveFour(k, q.x, r);
    MoveFour(k, q.y, r);
    MoveFour(k, q.z, r);
    Distribute(k, Product(q.w, r.w), Product(q.x, r.x), Product(q.y, r.y), Product(q.z, r.z));
    Distribute(k, Product(q.w, r.x), Product(q.x, r.w), Product(q.y, r.z), Product(q.z, r.y));
    Distribute(k, Product(q.w, r.y), Product(q.x, r.z), Product(q.y, r.w), Product(q.z, r.x));
    Distribute(k, Product(q.w, r.z), Product(q.x, r.y), Product(q.y, r.x), Product(q.z, r.w));
  }

  lemma TimesTimes(j: real, k: real, q: Quat)
    ensures Times(j, Times(k, q)) == Times(Product(j, k), q)
  {
  }

  // ----- the quotient

  function Length(q: Quat, sqrt: real -> real): real {
    sqrt(Squared(q))
  }

  /** The quotient is the product with the conjugate over the length. */
  lemma QuotIsProd(q: Quat, r: Quat, sqrt: real -> real)
    requires Length(r, sqrt) != 0.0
    ensures Quot(q, r, sqrt) == Times(Reciprocal(Length(r, sqrt)), Prod(q, Conj(r)))
  {
    var n, p := Length(r, sqrt), Prod(q, Conj(r));
    NegatedEntries(r.w, q.w, r.x, q.x, r.y, q.y, r.z, q.z);
    NegatedEntries(r.x, q.w, r.w, q.x, r.z, q.y, r.y, q.z);
    NegatedEntries(r.y, q.w, r.z, q.x, r.w, q.y, r.x, q.z);
    NegatedEntries(r.z, q.w, r.y, q.x, r.x, q.y, r.w, q.z);
    DivideByProduct(p.w, n);
    DivideByProduct(p.x, n);
    DivideByProduct(p.y, n);
    DivideByProduct(p.z, n);
    hide Product, Reciprocal, Squared;
  }
}
