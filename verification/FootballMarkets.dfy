// The markets of a football match, summed off its score matrix.
module FootballMarkets {
  import opened Results
  import opened Rounding
  import opened Grids
  import opened Products
  import opened Football

  function Cell(m: Matrix, i: nat, j: nat): real {
    if i < |m| && j < |m[i]| then m[i][j] else 0.0
  }

  // The cells of some scores, zero elsewhere.
  function Only(m: Matrix, scores: (nat, nat) -> bool): (nat, nat) -> real {
    (i: nat, j: nat) => if scores(i, j) then Cell(m, i, j) else 0.0
  }

  function Mass(m: Matrix, scores: (nat, nat) -> bool): real {
    Grid(Only(m, scores), |m|, |m|)
  }

  predicate HomeWins(i: nat, j: nat) { i > j }

  predicate Draw(i: nat, j: nat) { i == j }

  predicate AwayWins(i: nat, j: nat) { i < j }

  predicate Any(i: nat, j: nat) { true }

  function Over(line: real): (nat, nat) -> bool {
    (i: nat, j: nat) => (i + j) as real > line
  }

  function Under(line: real): (nat, nat) -> bool {
    (i: nat, j: nat) => (i + j) as real <= line
  }

  datatype Outcomes = Outcomes(home: real, draw: real, away: real)

  datatype Totals = Totals(over: real, under: real)

  lemma NextCell(m: Matrix, scores: (nat, nat) -> bool, i: nat, j: nat)
    requires i < |m| && j < |m[i]|
    ensures Line(Only(m, scores), i, j + 1) == Line(Only(m, scores), i, j) + if scores(i, j) then m[i][j] else 0.0
  {
    assert Only(m, scores)(i, j) == if scores(i, j) then m[i][j] else 0.0;
  }

  // ----- the loops ---------------------------------------------------------------------

  method OutcomeProbabilities(m: Matrix) returns (r: Outcomes)
    requires Square(m)
    ensures r == Outcomes(Mass(m, HomeWins), Mass(m, Draw), Mass(m, AwayWins))
  {
    var home, draw, away := 0.0, 0.0, 0.0;
    var i := 0;
    while i < |m|
      invariant 0 <= i <= |m|
      invariant home == Grid(Only(m, HomeWins), i, |m|)
      invariant draw == Grid(Only(m, Draw), i, |m|)
      invariant away == Grid(Only(m, AwayWins), i, |m|)
    {
      var j := 0;
      while j < |m[i]|
        invariant 0 <= j <= |m[i]|
        invariant home == Grid(Only(m, HomeWins), i, |m|) + Line(Only(m, HomeWins), i, j)
        invariant draw == Grid(Only(m, Draw), i, |m|) + Line(Only(m, Draw), i, j)
        invariant away == Grid(Only(m, AwayWins), i, |m|) + Line(Only(m, AwayWins), i, j)
      {
        NextCell(m, HomeWins, i, j);
        NextCell(m, Draw, i, j);
        NextCell(m, AwayWins, i, j);
        if i > j {
          home := home + m[i][j];
        } else if i == j {
          draw := draw + m[i][j];
        } else {
          away := away + m[i][j];
        }
        j := j + 1;
      }
      i := i + 1;
    }
    r := Outcomes(home, draw, away);
  }

  method TotalGoalsProbabilities(m: Matrix, line: real) returns (r: Result<Totals, ValueError>)
    requires Square(m)
    ensures r == if WholeLine(line) then Raised(IntegerLine) else Ok(Totals(Mass(m, Over(line)), Mass(m, Under(line))))
  {
    if WholeLine(line) { return Raised(IntegerLine); }
    var over, under := 0.0, 0.0;
    var i := 0;
    while i < |m|
      invariant 0 <= i <= |m|
      invariant over == Grid(Only(m, Over(line)), i, |m|)
      invariant under == Grid(Only(m, Under(line)), i, |m|)
    {
      var j := 0;
      while j < |m[i]|
        invariant 0 <= j <= |m[i]|
        invariant over == Grid(Only(m, Over(line)), i, |m|) + Line(Only(m, Over(line)), i, j)
        invariant under == Grid(Only(m, Under(line)), i, |m|) + Line(Only(m, Under(line)), i, j)
      {
        NextCell(m, Over(line), i, j);
        NextCell(m, Under(line), i, j);
        if (i + j) as real > line {
          over := over + m[i][j];
        } else {
          under := under + m[i][j];
        }
        j := j + 1;
      }
      i := i + 1;
    }
    r := Ok(Totals(over, under));
  }

  // ----- what the numbers add up to -------------------------------------------------------

  lemma {:induction false} LineScaled(k: real, f: (nat, nat) -> real, g: (nat, nat) -> real, i: nat, columns: nat)
    requires forall j: nat :: j < columns ==> g(i, j) == Mul(k, f(i, j))
    ensures Line(g, i, columns) == Mul(k, Line(f, i, columns))
  {
    hide Mul;
    if columns > 0 {
      LineScaled(k, f, g, i, columns - 1);
      Distributes(k, Line(f, i, columns - 1), f(i, columns - 1));
    } else {
      Units(k);
    }
  }

  lemma {:induction false} GridScaled(k: real, f: (nat, nat) -> real, g: (nat, nat) -> real, rows: nat, columns: nat)
    requires forall i: nat, j: nat :: i < rows && j < columns ==> g(i, j) == Mul(k, f(i, j))
    ensures Grid(g, rows, columns) == Mul(k, Grid(f, rows, columns))
  {
    hide Mul;
    if rows > 0 {
      GridScaled(k, f, g, rows - 1, columns);
      LineScaled(k, f, g, rows - 1, columns);
      Distributes(k, Grid(f, rows - 1, columns), Line(f, rows - 1, columns));
    } else {
      Units(k);
    }
  }

  lemma Shares(x: real, total: real)
    requires total > 0.0
    ensures x / total == Mul(1.0 / total, x)
    ensures Mul(1.0 / total, total) == 1.0
  {
  }

  lemma MatrixCells(exp: real -> real, home: real, away: real, rho: real, maxGoals: nat)
    requires IsExp(exp) && ScoreMatrix(exp, home, away, rho, maxGoals).Ok?
    ensures var m, total := ScoreMatrix(exp, home, away, rho, maxGoals).value, Normaliser(exp, home, away, rho, maxGoals);
            && |m| == maxGoals + 1 && Square(m) && total > 0.0
            && forall i: nat, j: nat :: i <= maxGoals && j <= maxGoals ==>
                 Only(m, Any)(i, j) == Cell(m, i, j) == Corrected(exp, home, away, rho)(i, j) / total
  {
    var m, total := ScoreMatrix(exp, home, away, rho, maxGoals).value, Normaliser(exp, home, away, rho, maxGoals);
    var c := Corrected(exp, home, away, rho);
    hide Corrected, Normaliser;
    assert |m| == maxGoals + 1 && total > 0.0;
    forall i: nat, j: nat | i <= maxGoals && j <= maxGoals
      ensures |m[i]| == maxGoals + 1 && m[i][j] == c(i, j) / total
    {
    }
    forall i | 0 <= i < |m| ensures |m[i]| == |m| { assert i <= maxGoals && 0 <= maxGoals; }
    forall i: nat, j: nat | i <= maxGoals && j <= maxGoals
      ensures Only(m, Any)(i, j) == Cell(m, i, j) == c(i, j) / total
    {
      assert Any(i, j) && m[i][j] == c(i, j) / total;
    }
  }

  // The score matrix is square and its cells add up to one.
  lemma MatrixIsOne(exp: real -> real, home: real, away: real, rho: real, maxGoals: nat)
    requires IsExp(exp) && home > 0.0 && away > 0.0 && maxGoals >= 1
    ensures ScoreMatrix(exp, home, away, rho, maxGoals).Ok?
    ensures var m := ScoreMatrix(exp, home, away, rho, maxGoals).value;
            Square(m) && |m| == maxGoals + 1 && Mass(m, Any) == 1.0
  {
    NormaliserIgnoresRho(exp, home, away, rho, maxGoals);
    var m, n := ScoreMatrix(exp, home, away, rho, maxGoals).value, maxGoals + 1;
    var total, c := Normaliser(exp, home, away, rho, maxGoals), Corrected(exp, home, away, rho);
    MatrixCells(exp, home, away, rho, maxGoals);
    hide Mul, Corrected, Normaliser, ScoreMatrix, Only, Cell;
    forall i: nat, j: nat | i < n && j < n ensures Only(m, Any)(i, j) == Mul(1.0 / total, c(i, j)) {
      Shares(c(i, j), total);
    }
    GridScaled(1.0 / total, c, Only(m, Any), n, n);
    Shares(total, total);
  }

  // Two kinds of scores that share none, and what they make together.
  lemma Together(m: Matrix, a: (nat, nat) -> bool, b: (nat, nat) -> bool, c: (nat, nat) -> bool)
    requires forall i: nat, j: nat :: (c(i, j) <==> a(i, j) || b(i, j)) && !(a(i, j) && b(i, j))
    ensures Mass(m, c) == Mass(m, a) + Mass(m, b)
  {
    GridSum(Only(m, a), Only(m, b), Only(m, c), |m|, |m|);
  }

  // Every market of every match is a distribution: home, draw and away make one,
  // over and under make one, a double chance is paid twice over, and a draw-no-bet
  // wins, pushes or loses.
  lemma MarketsAddUp(m: Matrix, line: real)
    requires Square(m) && Mass(m, Any) == 1.0
    ensures var o := Outcomes(Mass(m, HomeWins), Mass(m, Draw), Mass(m, AwayWins));
            && o.home + o.draw + o.away == 1.0
            && (o.home + o.draw) + (o.home + o.away) + (o.draw + o.away) == 2.0
            && o.home + o.draw == 1.0 - o.away && o.away + o.draw == 1.0 - o.home
    ensures Mass(m, Over(line)) + Mass(m, Under(line)) == 1.0
  {
    var decided := (i: nat, j: nat) => HomeWins(i, j) || AwayWins(i, j);
    Together(m, HomeWins, AwayWins, decided);
    Together(m, decided, Draw, Any);
    Together(m, Over(line), Under(line), Any);
  }

  // Swap the teams, and home and away change places; the totals stay.
  lemma SwappedTeams(m: Matrix, m': Matrix, line: real)
    requires Square(m) && Square(m') && |m| == |m'|
    requires forall i: nat, j: nat :: i < |m| && j < |m| ==> Cell(m', j, i) == Cell(m, i, j)
    ensures Mass(m', HomeWins) == Mass(m, AwayWins) && Mass(m', Draw) == Mass(m, Draw)
    ensures Mass(m', Over(line)) == Mass(m, Over(line))
  {
    hide Cell;
    forall i: nat, j: nat | i < |m| && j < |m|
      ensures Only(m', HomeWins)(j, i) == Only(m, AwayWins)(i, j)
      ensures Only(m', Draw)(j, i) == Only(m, Draw)(i, j)
      ensures Only(m', Over(line))(j, i) == Only(m, Over(line))(i, j)
    {
      assert Cell(m', j, i) == Cell(m, i, j);
      assert HomeWins(j, i) == AwayWins(i, j) && Draw(j, i) == Draw(i, j);
    }
    hide Only;
    Flip(Only(m, AwayWins), Only(m', HomeWins), |m|, |m|);
    Flip(Only(m, Draw), Only(m', Draw), |m|, |m|);
    Flip(Only(m, Over(line)), Only(m', Over(line)), |m|, |m|);
  }

  lemma SwappedMatrix(exp: real -> real, home: real, away: real, rho: real, maxGoals: nat, line: real)
    requires IsExp(exp) && home > 0.0 && away > 0.0 && maxGoals >= 1
    ensures ScoreMatrix(exp, home, away, rho, maxGoals).Ok? && ScoreMatrix(exp, away, home, rho, maxGoals).Ok?
    ensures var m := ScoreMatrix(exp, home, away, rho, maxGoals).value;
            var m' := ScoreMatrix(exp, away, home, rho, maxGoals).value;
            && Mass(m', HomeWins) == Mass(m, AwayWins) && Mass(m', Draw) == Mass(m, Draw)
            && Mass(m', Over(line)) == Mass(m, Over(line))
  {
    MatrixIsOne(exp, home, away, rho, maxGoals);
    MatrixIsOne(exp, away, home, rho, maxGoals);
    MatrixCells(exp, home, away, rho, maxGoals);
    MatrixCells(exp, away, home, rho, maxGoals);
    var n, c, c' := maxGoals + 1, Corrected(exp, home, away, rho), Corrected(exp, away, home, rho);
    hide Corrected, ScoreMatrix, Cell, Only;
    forall i: nat, j: nat | i < n && j < n ensures c'(j, i) == c(i, j) { MirrorCell(exp, home, away, rho, i, j); }
    Flip(c, c', n, n);
    SwappedTeams(ScoreMatrix(exp, home, away, rho, maxGoals).value,
                 ScoreMatrix(exp, away, home, rho, maxGoals).value, line);
  }

  // The correction never moves how many goals either side can be expected to score.
  lemma GoalsIgnoreRho(exp: real -> real, home: real, away: real, rho: real, rho': real, maxGoals: nat, goals: nat)
    requires IsExp(exp) && home > 0.0 && away > 0.0 && maxGoals >= 1 && goals <= maxGoals
    ensures ScoreMatrix(exp, home, away, rho, maxGoals).Ok? && ScoreMatrix(exp, home, away, rho', maxGoals).Ok?
    ensures var m := ScoreMatrix(exp, home, away, rho, maxGoals).value;
            var m' := ScoreMatrix(exp, home, away, rho', maxGoals).value;
            && Line(Only(m, Any), goals, |m|) == Line(Only(m', Any), goals, |m|)
            && Column(Only(m, Any), goals, |m|) == Column(Only(m', Any), goals, |m|)
  {
    GoalsOfMatrix(exp, home, away, rho, maxGoals, goals);
    GoalsOfMatrix(exp, home, away, rho', maxGoals, goals);
  }

  // Home goals by row, away goals by column: independent scores, rescaled.
  lemma GoalsOfMatrix(exp: real -> real, home: real, away: real, rho: real, maxGoals: nat, goals: nat)
    requires IsExp(exp) && home > 0.0 && away > 0.0 && maxGoals >= 1 && goals <= maxGoals
    ensures ScoreMatrix(exp, home, away, rho, maxGoals).Ok?
    ensures var m, n := ScoreMatrix(exp, home, away, rho, maxGoals).value, maxGoals + 1;
            var plain := Plain(exp, home, away);
            && |m| == n && Grid(plain, n, n) > 0.0
            && Line(Only(m, Any), goals, n) == Line(plain, goals, n) / Grid(plain, n, n)
            && Column(Only(m, Any), goals, n) == Column(plain, goals, n) / Grid(plain, n, n)
  {
    MatrixIsOne(exp, home, away, rho, maxGoals);
    NormaliserIgnoresRho(exp, home, away, rho, maxGoals);
    var m, n := ScoreMatrix(exp, home, away, rho, maxGoals).value, maxGoals + 1;
    var total, c := Normaliser(exp, home, away, rho, maxGoals), Corrected(exp, home, away, rho);
    var k := 1.0 / total;
    RowMarginal(exp, home, away, rho, goals, n);
    ColumnMarginal(exp, home, away, rho, goals, n);
    MatrixCells(exp, home, away, rho, maxGoals);
    hide Mul, Corrected, Plain, Normaliser, ScoreMatrix, Only, Cell;
    forall i: nat, j: nat | i < n && j < n ensures Only(m, Any)(i, j) == Mul(k, c(i, j)) { Shares(c(i, j), total); }
    LineScaled(k, c, Only(m, Any), goals, n);
    var flipped, flippedOnly := (i: nat, j: nat) => c(j, i), (i: nat, j: nat) => Only(m, Any)(j, i);
    ColumnIsLine(c, flipped, goals, n);
    ColumnIsLine(Only(m, Any), flippedOnly, goals, n);
    LineScaled(k, flipped, flippedOnly, goals, n);
    Shares(Line(c, goals, n), total);
    Shares(Column(c, goals, n), total);
  }

  lemma {:induction false} LinesInRatio(f: (nat, nat) -> real, i: nat, i': nat, a: real, b: real, n: nat)
    requires forall j: nat :: j < n ==> Mul(a, f(i', j)) == Mul(b, f(i, j))
    ensures Mul(a, Line(f, i', n)) == Mul(b, Line(f, i, n))
  {
    hide Mul;
    Units(a);
    Units(b);
    if n > 0 {
      LinesInRatio(f, i, i', a, b, n - 1);
      Distributes(a, Line(f, i', n - 1), f(i', n - 1));
      Distributes(b, Line(f, i, n - 1), f(i, n - 1));
    }
  }

  lemma {:induction false} ColumnsInRatio(f: (nat, nat) -> real, j: nat, j': nat, a: real, b: real, n: nat)
    requires forall i: nat :: i < n ==> Mul(a, f(i, j')) == Mul(b, f(i, j))
    ensures Mul(a, Column(f, j', n)) == Mul(b, Column(f, j, n))
  {
    hide Mul;
    Units(a);
    Units(b);
    if n > 0 {
      ColumnsInRatio(f, j, j', a, b, n - 1);
      Distributes(a, Column(f, j', n - 1), f(n - 1, j'));
      Distributes(b, Column(f, j, n - 1), f(n - 1, j));
    }
  }

  lemma SharesInRatio(a: real, x: real, b: real, y: real, total: real)
    requires total > 0.0 && Mul(a, x) == Mul(b, y)
    ensures Mul(a, x / total) == Mul(b, y / total)
  {
    hide Mul;
    var k := 1.0 / total;
    Shares(x, total);
    Shares(y, total);
    Commutes(k, x);
    Commutes(k, y);
    Associates(a, x, k);
    Associates(b, y, k);
  }

  lemma PlainInRatio(exp: real -> real, home: real, away: real, goals: nat, other: nat)
    requires home > 0.0 && away > 0.0
    ensures var n, plain := (goals + 1) as real, Plain(exp, home, away);
            && Mul(n, plain(goals + 1, other)) == Mul(home, plain(goals, other))
            && Mul(n, plain(other, goals + 1)) == Mul(away, plain(other, goals))
  {
    hide Mul, Pmf;
    var n := (goals + 1) as real;
    var h, a := Pmf(exp, other, home), Pmf(exp, other, away);
    PoissonWeights(exp, goals, home);
    PoissonWeights(exp, goals, away);
    Associates(n, Pmf(exp, goals + 1, home), a);
    Associates(home, Pmf(exp, goals, home), a);
    Commutes(h, Pmf(exp, goals + 1, away));
    Commutes(h, Pmf(exp, goals, away));
    Associates(n, Pmf(exp, goals + 1, away), h);
    Associates(away, Pmf(exp, goals, away), h);
  }

  // Written out on the matrix: one goal more is the rate over the number of goals
  // times as likely, for either side, whatever the correction.
  lemma GoalsArePoisson(exp: real -> real, home: real, away: real, rho: real, maxGoals: nat, goals: nat)
    requires IsExp(exp) && home > 0.0 && away > 0.0 && goals < maxGoals
    ensures ScoreMatrix(exp, home, away, rho, maxGoals).Ok?
    ensures var m, n := ScoreMatrix(exp, home, away, rho, maxGoals).value, maxGoals + 1;
            && Mul((goals + 1) as real, Line(Only(m, Any), goals + 1, n)) == Mul(home, Line(Only(m, Any), goals, n))
            && Mul((goals + 1) as real, Column(Only(m, Any), goals + 1, n)) == Mul(away, Column(Only(m, Any), goals, n))
  {
    hide Mul, ScoreMatrix, Only, Plain;
    var n, k, plain := maxGoals + 1, (goals + 1) as real, Plain(exp, home, away);
    GoalsOfMatrix(exp, home, away, rho, maxGoals, goals);
    GoalsOfMatrix(exp, home, away, rho, maxGoals, goals + 1);
    forall other: nat | other < n
      ensures Mul(k, plain(goals + 1, other)) == Mul(home, plain(goals, other))
      ensures Mul(k, plain(other, goals + 1)) == Mul(away, plain(other, goals))
    {
      PlainInRatio(exp, home, away, goals, other);
    }
    LinesInRatio(plain, goals, goals + 1, k, home, n);
    ColumnsInRatio(plain, goals, goals + 1, k, away, n);
    SharesInRatio(k, Line(plain, goals + 1, n), home, Line(plain, goals, n), Grid(plain, n, n));
    SharesInRatio(k, Column(plain, goals + 1, n), away, Column(plain, goals, n), Grid(plain, n, n));
  }

  // ----- the better side --------------------------------------------------------------------

  lemma Ahead(n: real, home: real, away: real, x: real, y: real, x': real, y': real)
    requires n > 0.0 && home > away > 0.0 && x >= y > 0.0 && Mul(n, x') == Mul(home, x) && Mul(n, y') == Mul(away, y)
    ensures x' > y'
  {
    hide Mul;
    Scale(home, y, x);
    Commutes(home, y);
    Commutes(away, y);
    Scale(y, away, home);
    if x' <= y' { Scale(n, x', y'); }
  }

  // A winning margin is more likely for the side with the higher rate.
  lemma {:induction false} PlainFavours(exp: real -> real, home: real, away: real, i: nat, j: nat)
    requires IsExp(exp) && home > away > 0.0 && j <= i
    ensures Plain(exp, home, away)(i, j) >= Plain(exp, home, away)(j, i) > 0.0
    ensures j < i ==> Plain(exp, home, away)(i, j) > Plain(exp, home, away)(j, i)
  {
    PmfPositive(exp, j, home);
    PmfPositive(exp, i, away);
    hide Pmf, Mul;
    Positive(Pmf(exp, j, home), Pmf(exp, i, away));
    if j < i {
      var plain := Plain(exp, home, away);
      PlainFavours(exp, home, away, i - 1, j);
      PlainInRatio(exp, home, away, i - 1, j);
      Ahead(i as real, home, away, plain(i - 1, j), plain(j, i - 1), plain(i, j), plain(j, i));
    }
  }

  // The correction leaves that as it is: between 1-0 and 0-1 it cancels out.
  lemma CorrectedFavours(exp: real -> real, home: real, away: real, rho: real, i: nat, j: nat)
    requires IsExp(exp) && home > away > 0.0 && j < i
    ensures Corrected(exp, home, away, rho)(i, j) > Corrected(exp, home, away, rho)(j, i)
  {
    PlainFavours(exp, home, away, i, j);
    var plain, c := Plain(exp, home, away), Corrected(exp, home, away, rho);
    if i == 1 {
      PlainFavours(exp, home, away, 0, 0);
      PlainInRatio(exp, home, away, 0, 0);
      hide Pmf, Mul;
      Units(plain(1, 0));
      Units(plain(0, 1));
      Units(plain(0, 0));
      assert c(1, 0) == Mul(Mul(home, plain(0, 0)), 1.0 + Mul(away, rho));
      assert c(0, 1) == Mul(Mul(away, plain(0, 0)), 1.0 + Mul(home, rho));
      CorrectionCancels(plain(0, 0), home, away, rho);
      Scale(plain(0, 0), away, home);
    } else {
      hide Pmf, Mul;
      Units(plain(i, j));
      Units(plain(j, i));
    }
  }

  lemma CorrectionCancels(p: real, home: real, away: real, rho: real)
    ensures Mul(Mul(home, p), 1.0 + Mul(away, rho)) - Mul(Mul(away, p), 1.0 + Mul(home, rho))
            == Mul(p, home) - Mul(p, away)
  {
  }

  lemma FavouriteWinsMore(exp: real -> real, home: real, away: real, rho: real, maxGoals: nat)
    requires IsExp(exp) && home > away > 0.0 && maxGoals >= 1
    ensures ScoreMatrix(exp, home, away, rho, maxGoals).Ok?
    ensures var m := ScoreMatrix(exp, home, away, rho, maxGoals).value;
            Mass(m, HomeWins) > Mass(m, AwayWins)
  {
    MatrixIsOne(exp, home, away, rho, maxGoals);
    var m := ScoreMatrix(exp, home, away, rho, maxGoals).value;
    hide ScoreMatrix, Mass;
    forall i: nat, j: nat | i <= maxGoals && j < i ensures Cell(m, j, i) < Cell(m, i, j) {
      CellFavours(exp, home, away, rho, maxGoals, i, j);
    }
    MarginsDecide(m);
  }

  lemma CellFavours(exp: real -> real, home: real, away: real, rho: real, maxGoals: nat, i: nat, j: nat)
    requires IsExp(exp) && home > away > 0.0 && ScoreMatrix(exp, home, away, rho, maxGoals).Ok?
    requires j < i <= maxGoals
    ensures var m := ScoreMatrix(exp, home, away, rho, maxGoals).value;
            Cell(m, j, i) < Cell(m, i, j)
  {
    MatrixCells(exp, home, away, rho, maxGoals);
    CorrectedFavours(exp, home, away, rho, i, j);
    var c, total := Corrected(exp, home, away, rho), Normaliser(exp, home, away, rho, maxGoals);
    hide Corrected, Normaliser, ScoreMatrix, Cell, Only;
    SharesKeepOrder(c(j, i), c(i, j), total);
  }

  // Every home win likelier than its mirror image.
  lemma MarginsDecide(m: Matrix)
    requires |m| >= 2 && forall i: nat, j: nat :: i < |m| && j < i ==> Cell(m, j, i) < Cell(m, i, j)
    ensures Mass(m, HomeWins) > Mass(m, AwayWins)
  {
    hide Cell;
    var homeWins, mirrored := Only(m, HomeWins), (i: nat, j: nat) => Only(m, AwayWins)(j, i);
    forall i: nat, j: nat | i < |m| && j < |m|
      ensures mirrored(i, j) <= homeWins(i, j) && (j < i ==> mirrored(i, j) < homeWins(i, j))
    {
      var awayWins := Only(m, AwayWins);
      assert mirrored(i, j) == awayWins(j, i) == if AwayWins(j, i) then Cell(m, j, i) else 0.0;
      assert homeWins(i, j) == if HomeWins(i, j) then Cell(m, i, j) else 0.0;
    }
    GridLess(mirrored, homeWins, |m|, |m|, 1, 0);
    Flip(Only(m, AwayWins), mirrored, |m|, |m|);
  }

  lemma SharesKeepOrder(x: real, y: real, total: real)
    requires x < y && total > 0.0
    ensures x / total < y / total
  {
  }

  // The home side is the likelier winner exactly when its rate is the higher one,
  // whatever the correction.
  lemma BetterSideWinsMore(exp: real -> real, home: real, away: real, rho: real, maxGoals: nat)
    requires IsExp(exp) && home > 0.0 && away > 0.0 && maxGoals >= 1
    ensures ScoreMatrix(exp, home, away, rho, maxGoals).Ok?
    ensures var m := ScoreMatrix(exp, home, away, rho, maxGoals).value;
            && (Mass(m, HomeWins) > Mass(m, AwayWins) <==> home > away)
            && (Mass(m, HomeWins) < Mass(m, AwayWins) <==> home < away)
  {
    hide ScoreMatrix, Mass;
    SwappedMatrix(exp, home, away, rho, maxGoals, 0.5);
    SwappedMatrix(exp, away, home, rho, maxGoals, 0.5);
    if home > away { FavouriteWinsMore(exp, home, away, rho, maxGoals); }
    if home < away { FavouriteWinsMore(exp, away, home, rho, maxGoals); }
  }

  // The matrix holds no negative probability exactly when none of the four
  // correction factors is negative - which nothing checks.
  lemma NonNegativeMatrix(exp: real -> real, home: real, away: real, rho: real, maxGoals: nat)
    requires IsExp(exp) && home > 0.0 && away > 0.0 && maxGoals >= 1
    ensures ScoreMatrix(exp, home, away, rho, maxGoals).Ok?
    ensures (forall i: nat, j: nat :: i <= maxGoals && j <= maxGoals ==>
               Cell(ScoreMatrix(exp, home, away, rho, maxGoals).value, i, j) >= 0.0)
            <==> Mul(Mul(home, away), rho) <= 1.0 && Mul(home, rho) >= -1.0 && Mul(away, rho) >= -1.0 && rho <= 1.0
  {
    MatrixIsOne(exp, home, away, rho, maxGoals);
    MatrixCells(exp, home, away, rho, maxGoals);
    NonNegativeCells(exp, home, away, rho, maxGoals + 1);
    var m, c := ScoreMatrix(exp, home, away, rho, maxGoals).value, Corrected(exp, home, away, rho);
    var total := Normaliser(exp, home, away, rho, maxGoals);
    hide Mul, Corrected, Normaliser, ScoreMatrix, Only, Cell;
    forall i: nat, j: nat | i <= maxGoals && j <= maxGoals ensures Cell(m, i, j) >= 0.0 <==> c(i, j) >= 0.0 {
      assert Cell(m, i, j) == c(i, j) / total;
      SignOfShare(c(i, j), total);
    }
    assert (forall i: nat, j: nat :: i <= maxGoals && j <= maxGoals ==> Cell(m, i, j) >= 0.0)
           <==> (forall i: nat, j: nat :: i < maxGoals + 1 && j < maxGoals + 1 ==> c(i, j) >= 0.0);
  }

  lemma SignOfShare(x: real, total: real)
    requires total > 0.0
    ensures x / total >= 0.0 <==> x >= 0.0
    ensures x / total < 0.0 <==> x < 0.0
  {
  }

  // Two goals expected on either side and a correction of a half: the goalless
  // draw gets a negative probability.
  lemma NegativeDraw(exp: real -> real)
    requires IsExp(exp)
    ensures ScoreMatrix(exp, 2.0, 2.0, 0.5, MAX_GOALS).Ok?
    ensures Cell(ScoreMatrix(exp, 2.0, 2.0, 0.5, MAX_GOALS).value, 0, 0) < 0.0
  {
    NegativeCell(exp);
    hide ScoreMatrix, Cell, Corrected, Normaliser, Only, Square;
    MatrixIsOne(exp, 2.0, 2.0, 0.5, MAX_GOALS);
    MatrixCells(exp, 2.0, 2.0, 0.5, MAX_GOALS);
    SignOfShare(Corrected(exp, 2.0, 2.0, 0.5)(0, 0), Normaliser(exp, 2.0, 2.0, 0.5, MAX_GOALS));
  }

  lemma NegativeCell(exp: real -> real)
    requires IsExp(exp)
    ensures Corrected(exp, 2.0, 2.0, 0.5)(0, 0) < 0.0
  {
    PmfPositive(exp, 0, 2.0);
    hide Pmf;
    var p := Mul(Pmf(exp, 0, 2.0), Pmf(exp, 0, 2.0));
    Positive(Pmf(exp, 0, 2.0), Pmf(exp, 0, 2.0));
    assert Tau(0, 0, 2.0, 2.0, 0.5) == -1.0;
    assert Mul(p, -1.0) == -p;
  }

  // With no negative cell, a higher line is never more likely to be passed.
  lemma OverFallsWithTheLine(m: Matrix, line: real, higher: real)
    requires Square(m) && line <= higher && forall i: nat, j: nat :: i < |m| && j < |m| ==> Cell(m, i, j) >= 0.0
    ensures Mass(m, Over(higher)) <= Mass(m, Over(line))
  {
    hide Cell;
    GridBelow(Only(m, Over(higher)), Only(m, Over(line)), |m|, |m|);
  }
}
