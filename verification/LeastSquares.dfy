/** Least squares under linear constraints, solved through the multiplier system
    [2 A'A, C'; C, 0] * [a; multipliers] = [2 A'; 0] * s. */
module LeastSquares {
  import opened Reals
  import opened Linear
  import opened Elimination

  function Residual(A: Matrix, b: Vec, s: Vec): (r: Vec)
    requires IsMatrix(A, |s|, |b|)
  {
    Minus(Apply(A, b), s)
  }

  function Misfit(A: Matrix, b: Vec, s: Vec): real
    requires IsMatrix(A, |s|, |b|)
  {
    Dot(Residual(A, b, s), Residual(A, b, s))
  }

  predicate Satisfies(C: Matrix, b: Vec)
    requires IsMatrix(C, |C|, |b|)
  {
    Apply(C, b) == Zero(|C|)
  }

  // ----- the block system

  function BlockRow(A: Matrix, C: Matrix, q: nat, i: nat): (row: Vec)
    requires IsMatrix(A, |A|, q) && IsMatrix(C, |C|, q) && i < q + |C|
    ensures |row| == q + |C|
  {
    if i < q then Times(2.0, Mul(Transpose(A, q), A, q)[i]) + Transpose(C, q)[i] else C[i - q] + Zero(|C|)
  }

  /** The left-hand side. */
  function Block(A: Matrix, C: Matrix, q: nat): (M: Matrix)
    requires IsMatrix(A, |A|, q) && IsMatrix(C, |C|, q)
    ensures IsMatrix(M, q + |C|, q + |C|)
  {
    seq(q + |C|, i requires 0 <= i < q + |C| => BlockRow(A, C, q, i))
  }

  /** The right-hand side, before it is applied to the data. */
  function Right(A: Matrix, q: nat, constraints: nat): (N: Matrix)
    requires IsMatrix(A, |A|, q)
    ensures IsMatrix(N, q + constraints, |A|)
  {
    Scaled(2.0, Transpose(A, q)) + seq(constraints, _ => Zero(|A|))
  }

  lemma {:induction false} DotConcat(x: Vec, y: Vec, u: Vec, v: Vec)
    requires |x| == |u| && |y| == |v|
    ensures Dot(x + y, u + v) == Dot(x, u) + Dot(y, v)
  {
    if x == [] {
      assert x + y == y && u + v == v;
    } else {
      hide Product;
      assert (x + y)[1..] == x[1..] + y && (u + v)[1..] == u[1..] + v;
      DotConcat(x[1..], y, u[1..], v);
    }
  }

  lemma NormalRow(A: Matrix, C: Matrix, q: nat, a: Vec, l: Vec, i: nat)
    requires IsMatrix(A, |A|, q) && IsMatrix(C, |C|, q) && |a| == q && |l| == |C| && i < q
    ensures Apply(Block(A, C, q), a + l)[i] == 2.0 * Combine(Apply(A, a), A, q)[i] + Combine(l, C, q)[i]
  {
    var AtA, At := Mul(Transpose(A, q), A, q), Transpose(A, q);
    assert Block(A, C, q)[i] == Times(2.0, AtA[i]) + Transpose(C, q)[i];
    hide Dot, Mul, Combine, Block;
    DotConcat(Times(2.0, AtA[i]), Transpose(C, q)[i], a, l);
    DotTimes(2.0, AtA[i], a);
    MulApplies(At, A, a);
    ApplyOf(A, a);
    TransposeApplies(Apply(A, a), A, q);
    TransposeApplies(l, C, q);
  }

  lemma ApplyOf(A: Matrix, a: Vec)
    requires IsMatrix(A, |A|, |a|)
    ensures |Apply(A, a)| == |A|
  {
  }

  lemma ConstraintRow(A: Matrix, C: Matrix, q: nat, a: Vec, l: Vec, i: nat)
    requires IsMatrix(A, |A|, q) && IsMatrix(C, |C|, q) && |a| == q && |l| == |C| && i < |C|
    ensures Apply(Block(A, C, q), a + l)[q + i] == Apply(C, a)[i]
  {
    assert Block(A, C, q)[q + i] == C[i] + Zero(|C|);
    hide Dot, Mul, Combine, Block;
    DotConcat(C[i], Zero(|C|), a, l);
    DotZero(Zero(|C|), l);
  }

  lemma RightRows(A: Matrix, q: nat, constraints: nat, s: Vec, i: nat)
    requires IsMatrix(A, |A|, q) && |s| == |A| && i < q + constraints
    ensures Apply(Right(A, q, constraints), s)[i] == if i < q then 2.0 * Combine(s, A, q)[i] else 0.0
  {
    hide Dot, Combine;
    if i < q {
      assert Right(A, q, constraints)[i] == Scaled(2.0, Transpose(A, q))[i];
      DotTimes(2.0, Transpose(A, q)[i], s);
      TransposeApplies(s, A, q);
    } else {
      assert Right(A, q, constraints)[i] == Zero(|A|);
      DotZero(Zero(|A|), s);
    }
  }

  /** The first-order conditions. */
  ghost predicate Stationary(A: Matrix, C: Matrix, s: Vec, a: Vec, l: Vec)
    requires IsMatrix(A, |s|, |a|) && IsMatrix(C, |l|, |a|)
  {
    forall i | 0 <= i < |a| ::
      2.0 * Combine(Apply(A, a), A, |a|)[i] + Combine(l, C, |a|)[i] == 2.0 * Combine(s, A, |a|)[i]
  }

  /** The block system says exactly that the point meets the constraints and the first-order conditions. */
  lemma BlockMeans(A: Matrix, C: Matrix, s: Vec, a: Vec, l: Vec)
    requires IsMatrix(A, |s|, |a|) && IsMatrix(C, |l|, |a|)
    ensures Apply(Block(A, C, |a|), a + l) == Apply(Right(A, |a|, |C|), s)
            <==> Stationary(A, C, s, a, l) && Satisfies(C, a)
  {
    hide Dot, Combine, Block, Right, Mul;
    var q := |a|;
    var left, right := Apply(Block(A, C, q), a + l), Apply(Right(A, q, |C|), s);
    assert |left| == |right| == q + |C|;
    forall i | 0 <= i < q
      ensures left[i] == 2.0 * Combine(Apply(A, a), A, q)[i] + Combine(l, C, q)[i]
              && right[i] == 2.0 * Combine(s, A, q)[i]
    {
      NormalRow(A, C, q, a, l, i);
      RightRows(A, q, |C|, s, i);
    }
    forall i | 0 <= i < |C| ensures left[q + i] == Apply(C, a)[i] && right[q + i] == 0.0 {
      ConstraintRow(A, C, q, a, l, i);
      RightRows(A, q, |C|, s, q + i);
    }
    hide Apply;
    if left == right {
      assert Apply(C, a) == Zero(|C|) by {
        forall i | 0 <= i < |C| ensures Apply(C, a)[i] == 0.0 {
          assert left[q + i] == right[q + i];
        }
        ApplyOf(C, a);
      }
    }
    if Stationary(A, C, s, a, l) && Satisfies(C, a) {
      forall k | 0 <= k < q + |C| ensures left[k] == right[k] {
        if k >= q {
          assert left[q + (k - q)] == Apply(C, a)[k - q] == 0.0;
        }
      }
    }
  }

  // ----- optimality

  /** Along any direction the gradient is that of the constraints. */
  lemma StationaryAlong(A: Matrix, C: Matrix, s: Vec, a: Vec, l: Vec, d: Vec)
    requires IsMatrix(A, |s|, |a|) && IsMatrix(C, |l|, |a|) && |d| == |a| && Stationary(A, C, s, a, l)
    ensures 2.0 * Dot(Residual(A, a, s), Apply(A, d)) == -Dot(l, Apply(C, d))
  {
    var q := |a|;
    var u, v, w := Combine(Apply(A, a), A, q), Combine(s, A, q), Combine(l, C, q);
    assert w == Times(2.0, Minus(v, u)) by {
      forall i | 0 <= i < q ensures w[i] == Product(2.0, v[i] - u[i]) {
        assert 2.0 * u[i] + w[i] == 2.0 * v[i];
      }
    }
    hide Dot, Combine, Stationary;
    DotTimes(2.0, Minus(v, u), d);
    DotMinus(v, u, d);
    ApplyOf(A, a);
    ApplyOf(A, d);
    Adjoint(Apply(A, a), A, d);
    Adjoint(s, A, d);
    Adjoint(l, C, d);
    DotMinus(Apply(A, a), s, Apply(A, d));
    hide Apply, Minus;
  }

  lemma DotOfSum(e: Vec, f: Vec)
    requires |e| == |f|
    ensures Dot(Plus(e, f), Plus(e, f)) == Dot(e, e) + 2.0 * Dot(e, f) + Dot(f, f)
  {
    hide Dot;
    DotPlus(e, f, Plus(e, f));
    DotPlus(e, f, e);
    DotPlus(e, f, f);
    DotSymmetric(e, Plus(e, f));
    DotSymmetric(f, Plus(e, f));
    DotSymmetric(e, f);
  }

  /** Away from a stationary point that meets the constraints, along the constraints, the misfit grows by
      the squared change of the fit. */
  lemma MisfitGrows(A: Matrix, C: Matrix, s: Vec, a: Vec, l: Vec, b: Vec)
    requires IsMatrix(A, |s|, |a|) && IsMatrix(C, |l|, |a|) && |b| == |a|
    requires Stationary(A, C, s, a, l) && Satisfies(C, a) && Satisfies(C, b)
    ensures Misfit(A, b, s) == Misfit(A, a, s) + Dot(Apply(A, Minus(b, a)), Apply(A, Minus(b, a)))
  {
    hide Dot, Stationary;
    var d := Minus(b, a);
    var e, f := Residual(A, a, s), Apply(A, d);
    StationaryAlong(A, C, s, a, l, d);
    ApplyMinus(C, b, a);
    ApplyMinus(A, b, a);
    assert Apply(C, d) == Zero(|C|);
    DotZero(Zero(|C|), l);
    assert Residual(A, b, s) == Plus(e, f);
    hide Apply, Residual, Minus;
    DotOfSum(e, f);
  }

  /** Constrained optimality: a solution of the block system meets the constraints, and no other point
      that meets them has a smaller misfit. */
  lemma ConstrainedOptimum(A: Matrix, C: Matrix, s: Vec, a: Vec, l: Vec, b: Vec)
    requires IsMatrix(A, |s|, |a|) && IsMatrix(C, |l|, |a|) && |b| == |a|
    requires Apply(Block(A, C, |a|), a + l) == Apply(Right(A, |a|, |C|), s)
    ensures Satisfies(C, a)
    ensures Satisfies(C, b) ==> Misfit(A, b, s) >= Misfit(A, a, s)
    ensures Satisfies(C, b) && Misfit(A, b, s) == Misfit(A, a, s) ==> Apply(A, Minus(b, a)) == Zero(|s|)
  {
    hide Apply, Block, Right, Stationary, Misfit, Satisfies;
    BlockMeans(A, C, s, a, l);
    if Satisfies(C, b) {
      MisfitGrows(A, C, s, a, l, b);
      ApplyOf(A, Minus(b, a));
      DotSelf(Apply(A, Minus(b, a)));
    }
  }

  // ----- the block system has a solution

  lemma BlockForm(A: Matrix, C: Matrix, q: nat, a: Vec, l: Vec, b: Vec, k: Vec)
    requires IsMatrix(A, |A|, q) && IsMatrix(C, |C|, q) && |a| == |b| == q && |l| == |k| == |C|
    ensures Form(Block(A, C, q), a + l, b + k)
            == 2.0 * Dot(Apply(A, a), Apply(A, b)) + Dot(Apply(C, a), k) + Dot(l, Apply(C, b))
  {
    hide Dot, Combine, Block, Mul;
    var v := Apply(Block(A, C, q), b + k);
    var u, w := Combine(Apply(A, b), A, q), Combine(k, C, q);
    ApplyOf(A, b);
    ApplyOf(A, a);
    ApplyOf(C, a);
    ApplyOf(C, b);
    assert v == Plus(Times(2.0, u), w) + Apply(C, b) by {
      BlockParts(A, C, q, b, k);
    }
    hide Apply;
    DotConcat(a, l, Plus(Times(2.0, u), w), Apply(C, b));
    DotSymmetric(a, Plus(Times(2.0, u), w));
    DotPlus(Times(2.0, u), w, a);
    DotTimes(2.0, u, a);
    Adjoint(Apply(A, b), A, a);
    DotSymmetric(Apply(A, b), Apply(A, a));
    Adjoint(k, C, a);
    DotSymmetric(k, Apply(C, a));
  }

  lemma BlockParts(A: Matrix, C: Matrix, q: nat, b: Vec, k: Vec)
    requires IsMatrix(A, |A|, q) && IsMatrix(C, |C|, q) && |b| == q && |k| == |C|
    ensures |Apply(A, b)| == |A| && |Apply(C, b)| == |C|
    ensures Apply(Block(A, C, q), b + k)
            == Plus(Times(2.0, Combine(Apply(A, b), A, q)), Combine(k, C, q)) + Apply(C, b)
  {
    hide Dot, Combine, Block, Mul;
    var left, right := Apply(Block(A, C, q), b + k),
      Plus(Times(2.0, Combine(Apply(A, b), A, q)), Combine(k, C, q)) + Apply(C, b);
    forall i | 0 <= i < q ensures left[i] == right[i] {
      NormalRow(A, C, q, b, k, i);
    }
    forall i | q <= i < q + |C| ensures left[i] == right[i] {
      ConstraintRow(A, C, q, b, k, i - q);
    }
  }

  lemma BlockSymmetric(A: Matrix, C: Matrix, q: nat)
    requires IsMatrix(A, |A|, q) && IsMatrix(C, |C|, q)
    ensures Transpose(Block(A, C, q), q + |C|) == Block(A, C, q)
  {
    hide Form, Dot, Block, Apply, Transpose;
    var M, n := Block(A, C, q), q + |C|;
    forall x: Vec, y: Vec | |x| == |y| == n ensures Form(M, x, y) == Form(M, y, x) {
      BlockForm(A, C, q, x[..q], x[q..], y[..q], y[q..]);
      BlockForm(A, C, q, y[..q], y[q..], x[..q], x[q..]);
      assert x == x[..q] + x[q..] && y == y[..q] + y[q..];
      BlockTerms(A, C, q, x[..q], x[q..], y[..q], y[q..]);
    }
    SymmetricIff(M, n);
  }

  lemma BlockTerms(A: Matrix, C: Matrix, q: nat, a: Vec, l: Vec, b: Vec, k: Vec)
    requires IsMatrix(A, |A|, q) && IsMatrix(C, |C|, q) && |a| == |b| == q && |l| == |k| == |C|
    ensures Dot(Apply(A, a), Apply(A, b)) == Dot(Apply(A, b), Apply(A, a))
    ensures |Apply(C, a)| == |Apply(C, b)| == |C| && Dot(Apply(C, a), k) == Dot(k, Apply(C, a))
            && Dot(l, Apply(C, b)) == Dot(Apply(C, b), l)
  {
    hide Dot;
    DotSymmetric(Apply(A, a), Apply(A, b));
    DotSymmetric(Apply(C, a), k);
    DotSymmetric(l, Apply(C, b));
  }

  /** Nothing but the zero vector fits nothing and meets the constraints. */
  ghost predicate Determines(A: Matrix, C: Matrix, q: nat)
    requires IsMatrix(A, |A|, q) && IsMatrix(C, |C|, q)
  {
    forall d: Vec | |d| == q && Apply(A, d) == Zero(|A|) && Satisfies(C, d) :: d == Zero(q)
  }

  /** The constraints are independent: they can take any values. */
  ghost predicate Independent(C: Matrix, q: nat)
    requires IsMatrix(C, |C|, q)
  {
    forall l: Vec | |l| == |C| :: exists v: Vec :: |v| == q && Apply(C, v) == l
  }

  lemma BlockLosesNothing(A: Matrix, C: Matrix, q: nat, a: Vec, l: Vec)
    requires IsMatrix(A, |A|, q) && IsMatrix(C, |C|, q) && Determines(A, C, q) && Independent(C, q)
    requires |a| == q && |l| == |C| && Apply(Block(A, C, q), a + l) == Zero(q + |C|)
    ensures a == Zero(q) && l == Zero(|C|)
  {
    hide Dot, Combine, Block, Mul;
    var M := Block(A, C, q);
    // against (a, 0) and against (0, C a): the fit and the constraints vanish
    ConstraintsVanish(A, C, q, a, l);
    BlockForm(A, C, q, a, Zero(|C|), a, l);
    DotZero(Zero(q + |C|), a + Zero(|C|));
    DotSymmetric(a + Zero(|C|), Zero(q + |C|));
    DotZero(Zero(|C|), l);
    DotZero(Zero(|C|), Zero(|C|));
    ApplyOf(A, a);
    DotSelf(Apply(A, a));
    assert a == Zero(q);
    // the multipliers vanish along a vector that the constraints take to them
    var v: Vec :| |v| == q && Apply(C, v) == l;
    BlockForm(A, C, q, v, Zero(|C|), a, l);
    DotZero(Zero(q + |C|), v + Zero(|C|));
    ApplyZero(A, q);
    DotZero(Zero(|A|), Apply(A, v));
    DotSelf(l);
  }

  lemma ConstraintsVanish(A: Matrix, C: Matrix, q: nat, a: Vec, l: Vec)
    requires IsMatrix(A, |A|, q) && IsMatrix(C, |C|, q) && |a| == q && |l| == |C|
    requires Apply(Block(A, C, q), a + l) == Zero(q + |C|)
    ensures Apply(C, a) == Zero(|C|)
  {
    hide Dot, Combine, Block, Mul;
    var z, c := Zero(q + |C|), Apply(C, a);
    ApplyOf(C, a);
    forall i | 0 <= i < |C| ensures c[i] == 0.0 {
      ConstraintRow(A, C, q, a, l, i);
      assert z[q + i] == 0.0;
    }
  }

  lemma ApplyZero(A: Matrix, q: nat)
    requires IsMatrix(A, |A|, q)
    ensures Apply(A, Zero(q)) == Zero(|A|)
  {
    forall i | 0 <= i < |A| ensures Dot(A[i], Zero(q)) == 0.0 {
      DotZero(Zero(q), A[i]);
    }
  }

  /** The block system is regular, so that some division solves it. */
  lemma BlockSolvable(A: Matrix, C: Matrix, q: nat) returns (X: Matrix)
    requires IsMatrix(A, |A|, q) && IsMatrix(C, |C|, q) && Determines(A, C, q) && Independent(C, q)
    ensures IsMatrix(X, q + |C|, |A|) && Mul(Block(A, C, q), X, |A|) == Right(A, q, |C|)
  {
    hide Dot, Combine, Block, Mul, Apply, Determines, Independent, Right, Transpose;
    var M, n := Block(A, C, q), q + |C|;
    forall v: Vec | |v| == n && Apply(M, v) == Zero(n) ensures v == Zero(n) {
      assert v == v[..q] + v[q..];
      BlockLosesNothing(A, C, q, v[..q], v[q..]);
      assert Zero(n) == Zero(q) + Zero(|C|);
    }
    BlockSymmetric(A, C, q);
    X := SymmetricDivisible(M, Right(A, q, |C|), n, |A|);
  }
}
