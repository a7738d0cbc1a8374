// The Dixon-Coles score matrix, and the markets read off it.
module Football {
  import opened Results
  import opened Products
  import opened Grids

  datatype ValueError = RatesNotPositive | Degenerate | IntegerLine

  const MAX_GOALS: nat := 15

  ghost predicate IsExp(exp: real -> real) {
    forall x :: exp(x) > 0.0
  }

  function Power(x: real, k: nat): real {
    if k == 0 then 1.0 else Mul(x, Power(x, k - 1))
  }

  function Factorial(k: nat): nat {
    if k == 0 then 1 else k * Factorial(k - 1)
  }

  lemma {:induction false} FactorialPositive(k: nat)
    ensures Factorial(k) >= 1
  {
    if k > 0 { FactorialPositive(k - 1); }
  }

  // The Poisson weight of k; without a rate, all the weight is on zero.
  function Pmf(exp: real -> real, k: nat, rate: real): real {
    if rate <= 0.0 then if k == 0 then 1.0 else 0.0
    else
      FactorialPositive(k);
      Mul(exp(-rate), Power(rate, k)) / Factorial(k) as real
  }

  function Tau(x: nat, y: nat, home: real, away: real, rho: real): real {
    if x == 0 && y == 0 then 1.0 - Mul(Mul(home, away), rho)
    else if x == 0 && y == 1 then 1.0 + Mul(home, rho)
    else if x == 1 && y == 0 then 1.0 + Mul(away, rho)
    else if x == 1 && y == 1 then 1.0 - rho
    else 1.0
  }

  // Independent scores, and the correction of the four low ones.
  function Plain(exp: real -> real, home: real, away: real): (nat, nat) -> real {
    (i: nat, j: nat) => Mul(Pmf(exp, i, home), Pmf(exp, j, away))
  }

  function Corrected(exp: real -> real, home: real, away: real, rho: real): (nat, nat) -> real {
    (i: nat, j: nat) => Mul(Mul(Pmf(exp, i, home), Pmf(exp, j, away)), Tau(i, j, home, away, rho))
  }

  function Normaliser(exp: real -> real, home: real, away: real, rho: real, maxGoals: nat): real {
    Grid(Corrected(exp, home, away, rho), maxGoals + 1, maxGoals + 1)
  }

  type Matrix = seq<seq<real>>

  // Every row as long as there are rows.
  predicate Square(m: Matrix) {
    forall i :: 0 <= i < |m| ==> |m[i]| == |m|
  }

  function ScoreMatrix(exp: real -> real, home: real, away: real, rho: real, maxGoals: nat): Result<Matrix, ValueError>
    requires IsExp(exp)
  {
    if home <= 0.0 || away <= 0.0 then Raised(RatesNotPositive)
    else
      var total := Normaliser(exp, home, away, rho, maxGoals);
      if total <= 0.0 then Raised(Degenerate)
      else
        var cell := Corrected(exp, home, away, rho);
        Ok(seq(maxGoals + 1, i requires 0 <= i <= maxGoals =>
             seq(maxGoals + 1, j requires 0 <= j <= maxGoals => cell(i, j) / total)))
  }

  // ----- the correction moves no marginal ---------------------------------------------

  lemma {:induction false} PowerPositive(x: real, k: nat)
    requires x > 0.0
    ensures Power(x, k) > 0.0
  {
    hide Mul;
    if k > 0 {
      PowerPositive(x, k - 1);
      Positive(x, Power(x, k - 1));
    }
  }

  lemma PmfPositive(exp: real -> real, k: nat, rate: real)
    requires IsExp(exp) && rate > 0.0
    ensures Pmf(exp, k, rate) > 0.0
  {
    hide Mul;
    FactorialPositive(k);
    PowerPositive(rate, k);
    Positive(exp(-rate), Power(rate, k));
    PositiveRatio(Mul(exp(-rate), Power(rate, k)), Factorial(k) as real);
  }

  lemma PositiveRatio(x: real, y: real)
    requires x > 0.0 && y > 0.0
    ensures x / y > 0.0
  {
  }

  lemma OverOne(x: real)
    ensures x / 1.0 == x
  {
  }

  // The weights are those of a Poisson count: the k + 1st is the rate over k + 1
  // times the k-th, from exp(-rate) on.
  lemma PoissonWeights(exp: real -> real, k: nat, rate: real)
    requires rate > 0.0
    ensures Pmf(exp, 0, rate) == exp(-rate)
    ensures Mul((k + 1) as real, Pmf(exp, k + 1, rate)) == Mul(rate, Pmf(exp, k, rate))
  {
    FactorialPositive(k);
    FactorialPositive(k + 1);
    var f, f', n := Factorial(k) as real, Factorial(k + 1) as real, (k + 1) as real;
    var w, w' := Mul(exp(-rate), Power(rate, k)), Mul(exp(-rate), Power(rate, k + 1));
    assert f' == Mul(n, f);
    assert Pmf(exp, 0, rate) == exp(-rate) by {
      assert Power(rate, 0) == 1.0 && Factorial(0) == 1;
      OverOne(exp(-rate));
    }
    hide Factorial;
    assert w' == Mul(rate, w) by {
      hide Mul;
      Commutes(rate, exp(-rate));
      Associates(exp(-rate), rate, Power(rate, k));
      Associates(rate, exp(-rate), Power(rate, k));
    }
    var p, p' := w / f, w' / f';
    assert Pmf(exp, k, rate) == p && Pmf(exp, k + 1, rate) == p';
    hide Mul, Power, Pmf;
    NextWeight(w, w', f, f', n, rate);
  }

  lemma NextWeight(w: real, w': real, f: real, f': real, n: real, rate: real)
    requires f > 0.0 && n > 0.0 && f' == Mul(n, f) && w' == Mul(rate, w)
    ensures f' > 0.0 && Mul(n, w' / f') == Mul(rate, w / f)
  {
    hide Mul;
    Positive(n, f);
    var p, p' := w / f, w' / f';
    Quotient(w, f);
    Quotient(w', f');
    Commutes(n, f);
    Associates(f, n, p');
    Commutes(rate, p);
    Associates(f, p, rate);
    Commutes(w, rate);
    Cancel(f, Mul(n, p'), Mul(rate, p));
  }

  lemma OneGoal(exp: real -> real, rate: real)
    requires rate > 0.0
    ensures Pmf(exp, 1, rate) == Mul(rate, Pmf(exp, 0, rate))
  {
    hide Mul, Pmf;
    PoissonWeights(exp, 0, rate);
    Units(Pmf(exp, 1, rate));
  }

  // In the two low rows what one cell loses the next one gains.
  lemma FirstRowCancels(p: real, home: real, away: real, rho: real)
    ensures Mul(p, 1.0 - Mul(Mul(home, away), rho)) + Mul(Mul(away, p), 1.0 + Mul(home, rho)) == p + Mul(away, p)
  {
  }

  lemma SecondRowCancels(p: real, away: real, rho: real)
    ensures Mul(p, 1.0 + Mul(away, rho)) + Mul(Mul(away, p), 1.0 - rho) == p + Mul(away, p)
  {
  }

  lemma LowCells(exp: real -> real, home: real, away: real, rho: real, i: nat)
    requires home > 0.0 && away > 0.0 && i <= 1
    ensures Corrected(exp, home, away, rho)(i, 0) + Corrected(exp, home, away, rho)(i, 1)
            == Plain(exp, home, away)(i, 0) + Plain(exp, home, away)(i, 1)
  {
    var h, a0, a1 := Pmf(exp, i, home), Pmf(exp, 0, away), Pmf(exp, 1, away);
    OneGoal(exp, away);
    hide Mul, Pmf;
    var p := Mul(h, a0);
    Associates(h, away, a0);
    Commutes(h, away);
    Associates(away, h, a0);
    assert Mul(h, a1) == Mul(away, p);
    if i == 0 { FirstRowCancels(p, home, away, rho); } else { SecondRowCancels(p, away, rho); }
  }

  lemma {:induction false} LowLine(exp: real -> real, home: real, away: real, rho: real, i: nat, n: nat)
    requires home > 0.0 && away > 0.0 && i <= 1 && n >= 2
    ensures Line(Corrected(exp, home, away, rho), i, n) == Line(Plain(exp, home, away), i, n)
  {
    var c, p := Corrected(exp, home, away, rho), Plain(exp, home, away);
    if n == 2 {
      LowCells(exp, home, away, rho, i);
      assert Line(c, i, 0) == 0.0 && Line(p, i, 0) == 0.0;
      assert Line(c, i, 1) == c(i, 0) && Line(p, i, 1) == p(i, 0);
    } else {
      LowLine(exp, home, away, rho, i, n - 1);
      hide Mul, Pmf;
      Units(p(i, n - 1));
    }
  }

  // The goals of the home side are distributed as if there were no correction.
  lemma RowMarginal(exp: real -> real, home: real, away: real, rho: real, i: nat, n: nat)
    requires home > 0.0 && away > 0.0 && n >= 2
    ensures Line(Corrected(exp, home, away, rho), i, n) == Line(Plain(exp, home, away), i, n)
  {
    if i <= 1 {
      LowLine(exp, home, away, rho, i, n);
    } else {
      hide Mul, Pmf;
      var c, p := Corrected(exp, home, away, rho), Plain(exp, home, away);
      forall j: nat | j < n ensures c(i, j) == p(i, j) { Units(p(i, j)); }
      LineSame(c, p, i, i, n);
    }
  }

  // Swapping the teams flips the matrix.
  lemma MirrorCell(exp: real -> real, home: real, away: real, rho: real, i: nat, j: nat)
    ensures Corrected(exp, home, away, rho)(i, j) == Corrected(exp, away, home, rho)(j, i)
    ensures Plain(exp, home, away)(i, j) == Plain(exp, away, home)(j, i)
  {
    hide Mul, Pmf;
    Commutes(home, away);
    Commutes(Pmf(exp, i, home), Pmf(exp, j, away));
  }

  // And so are those of the away side.
  lemma ColumnMarginal(exp: real -> real, home: real, away: real, rho: real, j: nat, n: nat)
    requires home > 0.0 && away > 0.0 && n >= 2
    ensures Column(Corrected(exp, home, away, rho), j, n) == Column(Plain(exp, home, away), j, n)
  {
    hide Corrected, Plain;
    forall i: nat | i < n
      ensures Corrected(exp, away, home, rho)(j, i) == Corrected(exp, home, away, rho)(i, j)
      ensures Plain(exp, away, home)(j, i) == Plain(exp, home, away)(i, j)
    {
      MirrorCell(exp, home, away, rho, i, j);
    }
    ColumnIsLine(Corrected(exp, home, away, rho), Corrected(exp, away, home, rho), j, n);
    ColumnIsLine(Plain(exp, home, away), Plain(exp, away, home), j, n);
    RowMarginal(exp, away, home, rho, j, n);
  }

  lemma {:induction false} SameLines(f: (nat, nat) -> real, g: (nat, nat) -> real, rows: nat, columns: nat)
    requires forall i: nat :: i < rows ==> Line(f, i, columns) == Line(g, i, columns)
    ensures Grid(f, rows, columns) == Grid(g, rows, columns)
  {
    if rows > 0 { SameLines(f, g, rows - 1, columns); }
  }

  // The normaliser does not depend on the correction, and is positive: the
  // degenerate case cannot happen.
  lemma NormaliserIgnoresRho(exp: real -> real, home: real, away: real, rho: real, maxGoals: nat)
    requires IsExp(exp) && home > 0.0 && away > 0.0 && maxGoals >= 1
    ensures Normaliser(exp, home, away, rho, maxGoals) == Grid(Plain(exp, home, away), maxGoals + 1, maxGoals + 1)
    ensures Normaliser(exp, home, away, rho, maxGoals) > 0.0
    ensures ScoreMatrix(exp, home, away, rho, maxGoals).Ok?
  {
    var n, p := maxGoals + 1, Plain(exp, home, away);
    forall i: nat | i < n ensures Line(Corrected(exp, home, away, rho), i, n) == Line(p, i, n) {
      RowMarginal(exp, home, away, rho, i, n);
    }
    SameLines(Corrected(exp, home, away, rho), p, n, n);
    forall i: nat, j: nat ensures p(i, j) > 0.0 {
      PmfPositive(exp, i, home);
      PmfPositive(exp, j, away);
      Positive(Pmf(exp, i, home), Pmf(exp, j, away));
    }
    hide Plain, Corrected;
    PositiveGrid(p, n, n);
  }

  // Two positive rates are all a matrix needs.
  lemma RatesDecide(exp: real -> real, home: real, away: real, rho: real, maxGoals: nat)
    requires IsExp(exp) && maxGoals >= 1
    ensures ScoreMatrix(exp, home, away, rho, maxGoals).Ok? <==> home > 0.0 && away > 0.0
    ensures ScoreMatrix(exp, home, away, rho, maxGoals) == Raised(RatesNotPositive) <==> home <= 0.0 || away <= 0.0
  {
    if home > 0.0 && away > 0.0 { NormaliserIgnoresRho(exp, home, away, rho, maxGoals); }
    hide Normaliser, Corrected;
  }

  lemma {:induction false} PositiveGrid(f: (nat, nat) -> real, rows: nat, columns: nat)
    requires columns >= 1 && forall i: nat, j: nat :: f(i, j) > 0.0
    ensures Grid(f, rows, columns) >= 0.0
    ensures rows >= 1 ==> Grid(f, rows, columns) > 0.0
  {
    if rows > 0 {
      PositiveGrid(f, rows - 1, columns);
      PositiveLine(f, rows - 1, columns);
    }
  }

  lemma {:induction false} PositiveLine(f: (nat, nat) -> real, i: nat, columns: nat)
    requires forall i: nat, j: nat :: f(i, j) > 0.0
    ensures Line(f, i, columns) >= 0.0
    ensures columns >= 1 ==> Line(f, i, columns) > 0.0
  {
    if columns > 0 { PositiveLine(f, i, columns - 1); }
  }

  // Every score has a non-negative probability exactly when none of the four
  // correction factors is negative - which nothing checks.
  lemma NonNegativeCells(exp: real -> real, home: real, away: real, rho: real, n: nat)
    requires IsExp(exp) && home > 0.0 && away > 0.0 && n >= 2
    ensures (forall i: nat, j: nat :: i < n && j < n ==> Corrected(exp, home, away, rho)(i, j) >= 0.0)
            <==> Mul(Mul(home, away), rho) <= 1.0 && Mul(home, rho) >= -1.0 && Mul(away, rho) >= -1.0 && rho <= 1.0
  {
    var c := Corrected(exp, home, away, rho);
    hide Mul, Pmf;
    forall i: nat, j: nat ensures c(i, j) >= 0.0 <==> Tau(i, j, home, away, rho) >= 0.0 {
      PmfPositive(exp, i, home);
      PmfPositive(exp, j, away);
      SignOf(Mul(Pmf(exp, i, home), Pmf(exp, j, away)), Tau(i, j, home, away, rho));
      Positive(Pmf(exp, i, home), Pmf(exp, j, away));
    }
    if forall i: nat, j: nat :: i < n && j < n ==> c(i, j) >= 0.0 {
      assert c(0, 0) >= 0.0 && c(0, 1) >= 0.0 && c(1, 0) >= 0.0 && c(1, 1) >= 0.0;
    }
  }

  lemma SignOf(x: real, y: real)
    ensures x > 0.0 ==> (Mul(x, y) >= 0.0 <==> y >= 0.0)
  {
    hide Mul;
    if x > 0.0 {
      Units(x);
      if y >= 0.0 { Scale(x, 0.0, y); } else { Scale(x, y, 0.0); }
    }
  }
}
