/** Products of reals under a name, so that proofs can treat them as opaque, and square roots. */
module Reals {

  function Product(a: real, b: real): real {
    a * b
  }

  function Square(a: real): real {
    Product(a, a)
  }

  lemma PositiveProduct(a: real, b: real)
    ensures a > 0.0 && b > 0.0 ==> Product(a, b) > 0.0
    ensures a >= 0.0 && b >= 0.0 ==> Product(a, b) >= 0.0
  {
  }

  lemma ZeroProduct(a: real)
    ensures Product(0.0, a) == 0.0 == Product(a, 0.0)
    ensures Product(1.0, a) == a == Product(a, 1.0)
  {
  }

  lemma SquareSign(a: real)
    ensures Square(a) >= 0.0
    ensures Square(a) == 0.0 <==> a == 0.0
    ensures Square(-a) == Square(a)
  {
    if a > 0.0 {
      PositiveProduct(a, a);
    } else if a < 0.0 {
      PositiveProduct(-a, -a);
      assert Product(-a, -a) == Product(a, a);
    }
  }

  /** Non-negative reals are ordered as their squares, so a non-negative root is unique. */
  lemma SquareOrder(a: real, b: real)
    requires a >= 0.0 && b >= 0.0
    ensures Square(a) <= Square(b) <==> a <= b
    ensures Square(a) == Square(b) <==> a == b
  {
    if a < b {
      PositiveProduct(b - a, b + a);
      assert Product(b - a, b + a) == Square(b) - Square(a);
    } else if b < a {
      PositiveProduct(a - b, a + b);
      assert Product(a - b, a + b) == Square(a) - Square(b);
    }
  }

  lemma SquareOfProduct(a: real, b: real)
    ensures Square(Product(a, b)) == Product(Square(a), Square(b))
  {
  }

  /** A square root: non-negative, and its square is the argument. */
  ghost predicate IsRoot(sqrt: real -> real) {
    forall a: real | a >= 0.0 :: sqrt(a) >= 0.0 && Square(sqrt(a)) == a
  }

  lemma RootIs(sqrt: real -> real, a: real)
    requires IsRoot(sqrt) && a >= 0.0
    ensures sqrt(a) >= 0.0 && Square(sqrt(a)) == a
  {
  }

  lemma RootOfSquare(sqrt: real -> real, a: real)
    requires IsRoot(sqrt) && a >= 0.0
    ensures sqrt(Square(a)) == a
  {
    SquareSign(a);
    SquareOrder(sqrt(Square(a)), a);
  }

  lemma RootSign(sqrt: real -> real, a: real)
    requires IsRoot(sqrt) && a >= 0.0
    ensures sqrt(a) > 0.0 <==> a > 0.0
  {
    SquareSign(sqrt(a));
  }

  lemma RootOfProduct(sqrt: real -> real, a: real, b: real)
    requires IsRoot(sqrt) && a >= 0.0 && b >= 0.0
    ensures Product(a, b) >= 0.0 && sqrt(Product(a, b)) == Product(sqrt(a), sqrt(b))
  {
    PositiveProduct(a, b);
    PositiveProduct(sqrt(a), sqrt(b));
    SquareOfProduct(sqrt(a), sqrt(b));
    SquareOrder(sqrt(Product(a, b)), Product(sqrt(a), sqrt(b)));
  }

  function Reciprocal(a: real): real
    requires a != 0.0
  {
    1.0 / a
  }

  lemma DivideByProduct(a: real, k: real)
    requires k != 0.0
    ensures a / k == Product(Reciprocal(k), a)
    ensures Product(k, Reciprocal(k)) == 1.0
  {
  }

  lemma ReciprocalOfProduct(a: real, b: real)
    requires a != 0.0 && b != 0.0
    ensures Product(a, b) != 0.0 && Reciprocal(Product(a, b)) == Product(Reciprocal(a), Reciprocal(b))
  {
  }

}
