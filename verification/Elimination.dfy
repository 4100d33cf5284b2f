/** Division by a positive definite matrix is always possible: one step of elimination leaves a smaller
    positive definite matrix. */
module Elimination {
  import opened Reals
  import opened Linear

  function FirstColumn(S: Matrix): (c: Vec)
    requires |S| > 0 && IsMatrix(S, |S|, |S|)
    ensures |c| == |S| - 1
  {
    seq(|S| - 1, i requires 0 <= i < |S| - 1 => S[i + 1][0])
  }

  function FirstRow(S: Matrix): (r: Vec)
    requires |S| > 0 && IsMatrix(S, |S|, |S|)
    ensures |r| == |S| - 1
  {
    S[0][1..]
  }

  /** What elimination leaves: the rest of each row, less its share of the first row. */
  function Rest(S: Matrix): (M: Matrix)
    requires |S| > 0 && IsMatrix(S, |S|, |S|) && S[0][0] != 0.0
    ensures IsMatrix(M, |S| - 1, |S| - 1)
  {
    seq(|S| - 1, i requires 0 <= i < |S| - 1 => Minus(S[i + 1][1..], Times(FirstColumn(S)[i] / S[0][0], FirstRow(S))))
  }

  lemma PivotPositive(S: Matrix, n: nat)
    requires n > 0 && IsMatrix(S, n, n) && Positive(S, n)
    ensures S[0][0] > 0.0
  {
    FormEntry(S, n, 0, 0);
    assert Unit(n, 0)[0] != Zero(n)[0];
    hide Form;
  }

  /** The vector at which the form of `S` is that of what is left. */
  function Lifted(S: Matrix, y: Vec): (x: Vec)
    requires |S| > 0 && IsMatrix(S, |S|, |S|) && S[0][0] != 0.0 && |y| == |S| - 1
    ensures |x| == |S|
  {
    [-(Dot(FirstRow(S), y) / S[0][0])] + y
  }

  lemma LiftedParts(S: Matrix, y: Vec)
    requires |S| > 0 && IsMatrix(S, |S|, |S|) && S[0][0] != 0.0 && |y| == |S| - 1
    ensures Lifted(S, y)[0] == -(Dot(FirstRow(S), y) / S[0][0]) && Lifted(S, y)[1..] == y
  {
  }

  lemma RestRow(S: Matrix, i: nat)
    requires |S| > 0 && IsMatrix(S, |S|, |S|) && S[0][0] != 0.0 && i < |S| - 1
    ensures Rest(S)[i] == Minus(S[i + 1][1..], Times(FirstColumn(S)[i] / S[0][0], FirstRow(S)))
  {
  }

  lemma LiftedRow(S: Matrix, y: Vec, i: nat)
    requires |S| > 0 && IsMatrix(S, |S|, |S|) && S[0][0] != 0.0 && |y| == |S| - 1 && i < |S| - 1
    ensures Dot(S[i + 1], Lifted(S, y)) == Dot(Rest(S)[i], y)
  {
    hide Dot, Product, Rest, FirstRow, Lifted;
    var a, c, r, tail := S[0][0], FirstColumn(S)[i], FirstRow(S), S[i + 1][1..];
    var d := Dot(r, y);
    DotOfPair(S[i + 1], Lifted(S, y));
    LiftedParts(S, y);
    RestRow(S, i);
    DotMinus(tail, Times(c / a, r), y);
    DotTimes(c / a, r, y);
    RowBalance(c, d, a, Dot(tail, y), Dot(S[i + 1], Lifted(S, y)), Dot(Rest(S)[i], y));
  }

  lemma RowBalance(c: real, d: real, a: real, t: real, whole: real, rest: real)
    requires a != 0.0 && whole == Product(c, -(d / a)) + t && rest == t - Product(c / a, d)
    ensures whole == rest
  {
  }

  lemma DotOfPair(x: Vec, y: Vec)
    requires |x| == |y| > 0
    ensures Dot(x, y) == Product(x[0], y[0]) + Dot(x[1..], y[1..])
  {
  }

  lemma LiftedFirst(S: Matrix, y: Vec)
    requires |S| > 0 && IsMatrix(S, |S|, |S|) && S[0][0] != 0.0 && |y| == |S| - 1
    ensures Dot(S[0], Lifted(S, y)) == 0.0
  {
  }

  lemma RestPositive(S: Matrix, n: nat)
    requires n > 0 && IsMatrix(S, n, n) && Positive(S, n) && S[0][0] > 0.0
    ensures Positive(Rest(S), n - 1)
  {
    hide Positive;
    forall y: Vec | |y| == n - 1 && y != Zero(n - 1) ensures Form(Rest(S), y, y) > 0.0 {
      LiftedForm(S, n, y);
    }
    PositiveMeans(Rest(S), n - 1);
  }

  lemma PositiveMeans(M: Matrix, n: nat)
    requires IsMatrix(M, n, n)
    ensures (forall y: Vec | |y| == n && y != Zero(n) :: Form(M, y, y) > 0.0) ==> Positive(M, n)
  {
  }

  lemma LiftedForm(S: Matrix, n: nat, y: Vec)
    requires n > 0 && IsMatrix(S, n, n) && Positive(S, n) && S[0][0] > 0.0 && |y| == n - 1 && y != Zero(n - 1)
    ensures Form(Rest(S), y, y) > 0.0
  {
    var x := Lifted(S, y);
    LiftedFirst(S, y);
    forall i | 0 <= i < n - 1 ensures Dot(S[i + 1], x) == Dot(Rest(S)[i], y) {
      LiftedRow(S, y, i);
    }
    assert x[1..] == y;
    assert Apply(S, x)[1..] == Apply(Rest(S), y);
    ZeroTail(x);
    FormFrom(x, Apply(S, x));
    hide Dot, Rest, Lifted, Apply;
  }

  lemma ZeroTail(x: Vec)
    requires |x| > 0
    ensures x == Zero(|x|) ==> x[1..] == Zero(|x| - 1)
  {
  }

  lemma FormFrom(x: Vec, v: Vec)
    requires |x| == |v| > 0 && v[0] == 0.0
    ensures Dot(x, v) == Dot(x[1..], v[1..])
  {
  }

  /** Every row has a solution: solve what is left, then the first unknown. */
  lemma {:induction false} RowSolvable(S: Matrix, n: nat, b: Vec) returns (k: Vec)
    requires IsMatrix(S, n, n) && Positive(S, n) && |b| == n
    ensures |k| == n && Combine(k, S, n) == b
    decreases n
  {
    if n == 0 {
      k := [];
    } else {
      PivotPositive(S, n);
      RestPositive(S, n);
      var a, r := S[0][0], FirstRow(S);
      hide *;
      var later := RowSolvable(Rest(S), n - 1, Minus(b[1..], Times(b[0] / a, r)));
      k := Solved(S, n, b, later);
    }
  }

  lemma Solved(S: Matrix, n: nat, b: Vec, later: Vec) returns (k: Vec)
    requires n > 0 && IsMatrix(S, n, n) && S[0][0] > 0.0 && |b| == n && |later| == n - 1
    requires Combine(later, Rest(S), n - 1) == Minus(b[1..], Times(b[0] / S[0][0], FirstRow(S)))
    ensures |k| == n && Combine(k, S, n) == b
  {
    var a, d := S[0][0], Dot(later, FirstColumn(S));
    k := [(b[0] - d) / a] + later;
    forall j | 0 <= j < n ensures Combine(k, S, n)[j] == b[j] {
      CombineEntry(k, S, n, j);
      assert k[1..] == later;
      if j == 0 {
        assert Column(S, n, 0)[1..] == FirstColumn(S);
        var q := (b[0] - d) / a;
        assert q * a == b[0] - d;
        assert Dot(k, Column(S, n, 0)) == Product(q, a) + d;
      } else {
        SolvedEntry(S, n, b, later, j);
      }
    }
  }

  lemma SolvedEntry(S: Matrix, n: nat, b: Vec, later: Vec, j: nat)
    requires n > 0 && IsMatrix(S, n, n) && S[0][0] > 0.0 && |b| == n && |later| == n - 1 && 0 < j < n
    requires Combine(later, Rest(S), n - 1) == Minus(b[1..], Times(b[0] / S[0][0], FirstRow(S)))
    ensures var k := [(b[0] - Dot(later, FirstColumn(S))) / S[0][0]] + later; Dot(k, Column(S, n, j)) == b[j]
  {
    var a, c, s := S[0][0], FirstColumn(S), S[0][j];
    var k := [(b[0] - Dot(later, c)) / a] + later;
    var column := Column(S, n, j)[1..];
    assert k[1..] == later;
    assert Dot(k, Column(S, n, j)) == Product(k[0], s) + Dot(later, column);
    hide Dot, Product;
    CombineEntry(later, Rest(S), n - 1, j - 1);
    RestColumn(S, n, j);
    DotMinus(column, Times(s / a, c), later);
    DotSymmetric(later, Times(s / a, c));
    DotTimes(s / a, c, later);
    DotSymmetric(c, later);
    Balance(k[0], b[0], Dot(later, c), s, a);
  }

  lemma Balance(q: real, b: real, d: real, s: real, a: real)
    requires a > 0.0 && q == (b - d) / a
    ensures Product(q, s) == Product(b / a, s) - Product(s / a, d)
  {
  }

  lemma RestColumn(S: Matrix, n: nat, j: nat)
    requires n > 0 && IsMatrix(S, n, n) && S[0][0] > 0.0 && 0 < j < n
    ensures Column(Rest(S), n - 1, j - 1) == Minus(Column(S, n, j)[1..], Times(S[0][j] / S[0][0], FirstColumn(S)))
  {
    var left, right := Column(Rest(S), n - 1, j - 1),
      Minus(Column(S, n, j)[1..], Times(S[0][j] / S[0][0], FirstColumn(S)));
    forall i | 0 <= i < n - 1 ensures left[i] == right[i] {
      SwapDivision(FirstColumn(S)[i], S[0][j], S[0][0]);
    }
  }

  lemma SwapDivision(c: real, s: real, a: real)
    requires a > 0.0
    ensures Product(c / a, s) == Product(s / a, c)
  {
  }

  lemma {:induction false} RowsSolvable(S: Matrix, n: nat, B: Matrix, m: nat) returns (K: Matrix)
    requires IsMatrix(S, n, n) && Positive(S, n) && IsMatrix(B, |B|, n) && m <= |B|
    ensures IsMatrix(K, m, n) && forall i | 0 <= i < m :: Combine(K[i], S, n) == B[i]
    decreases m
  {
    hide Combine, Positive;
    if m == 0 {
      K := [];
    } else {
      var before := RowsSolvable(S, n, B, m - 1);
      var k := RowSolvable(S, n, B[m - 1]);
      K := before + [k];
    }
  }

  /** Division from the right by a positive definite matrix. */
  lemma Divisible(B: Matrix, S: Matrix, n: nat) returns (K: Matrix)
    requires IsMatrix(B, n, n) && IsMatrix(S, n, n) && Positive(S, n)
    ensures IsMatrix(K, n, n) && Mul(K, S, n) == B
  {
    K := RowsSolvable(S, n, B, n);
    hide Combine, Positive;
  }

  // ----- division from the left by a symmetric matrix that loses nothing

  ghost predicate Injective(M: Matrix, n: nat)
    requires IsMatrix(M, n, n)
  {
    forall v: Vec | |v| == n && Apply(M, v) == Zero(n) :: v == Zero(n)
  }

  lemma CombineIsApply(M: Matrix, n: nat, v: Vec)
    requires IsMatrix(M, n, n) && Transpose(M, n) == M && |v| == n
    ensures Combine(v, M, n) == Apply(M, v)
  {
    TransposeApplies(v, M, n);
  }

  lemma SquarePositive(M: Matrix, n: nat)
    requires IsMatrix(M, n, n) && Transpose(M, n) == M && Injective(M, n)
    ensures Positive(Mul(M, M, n), n)
  {
    hide Mul, Combine, Transpose, Dot;
    forall v: Vec | |v| == n && v != Zero(n) ensures Form(Mul(M, M, n), v, v) > 0.0 {
      var u := Apply(M, v);
      MulApplies(M, M, v);
      Adjoint(v, M, u);
      CombineIsApply(M, n, v);
      DotSelf(u);
    }
  }

  lemma SquareColumn(M: Matrix, n: nat, i: nat)
    requires IsMatrix(M, n, n) && Transpose(M, n) == M && i < n
    ensures Column(Mul(M, M, n), n, i) == Apply(M, M[i])
  {
    var left, right := Column(Mul(M, M, n), n, i), Apply(M, M[i]);
    assert Column(M, n, i) == Transpose(M, n)[i];
    forall r | 0 <= r < n ensures left[r] == right[r] {
      CombineEntry(M[r], M, n, i);
    }
  }

  lemma SymmetricDivisible(M: Matrix, N: Matrix, n: nat, c: nat) returns (X: Matrix)
    requires IsMatrix(M, n, n) && Transpose(M, n) == M && Injective(M, n) && IsMatrix(N, n, c)
    ensures IsMatrix(X, n, c) && Mul(M, X, c) == N
  {
    hide Injective, Positive, Dot;
    var S := Mul(M, M, n);
    SquarePositive(M, n);
    var K := RowsSolvable(S, n, Transpose(N, c), c);
    var Y := Mul(K, M, n);
    X := Transpose(Y, n);
    forall i, j | 0 <= i < n && 0 <= j < c ensures Mul(M, X, c)[i][j] == N[i][j] {
      QuotientEntry(M, n, K, Y, X, c, i, j);
      assert Combine(K[j], S, n)[i] == Transpose(N, c)[j][i];
    }
    hide Mul;
    forall i | 0 <= i < n ensures Mul(M, X, c)[i] == N[i] {
    }
  }

  lemma QuotientEntry(M: Matrix, n: nat, K: Matrix, Y: Matrix, X: Matrix, c: nat, i: nat, j: nat)
    requires IsMatrix(M, n, n) && Transpose(M, n) == M && IsMatrix(K, c, n)
    requires Y == Mul(K, M, n) && X == Transpose(Y, n) && i < n && j < c
    ensures IsMatrix(X, n, c) && Mul(M, X, c)[i][j] == Combine(K[j], Mul(M, M, n), n)[i]
  {
    assert Column(X, c, j) == Y[j] == Combine(K[j], M, n);
    hide Dot, Combine;
    CombineEntry(M[i], X, c, j);
    DotSymmetric(M[i], Combine(K[j], M, n));
    Adjoint(K[j], M, M[i]);
    SquareColumn(M, n, i);
    CombineEntry(K[j], Mul(M, M, n), n, i);
  }
}
