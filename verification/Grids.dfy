// Sums over a rectangle of reals.
module Grids {

  function Line(f: (nat, nat) -> real, i: nat, columns: nat): real {
    if columns == 0 then 0.0 else Line(f, i, columns - 1) + f(i, columns - 1)
  }

  function Grid(f: (nat, nat) -> real, rows: nat, columns: nat): real {
    if rows == 0 then 0.0 else Grid(f, rows - 1, columns) + Line(f, rows - 1, columns)
  }

  function Column(f: (nat, nat) -> real, j: nat, rows: nat): real {
    if rows == 0 then 0.0 else Column(f, j, rows - 1) + f(rows - 1, j)
  }

  lemma {:induction false} LineSame(f: (nat, nat) -> real, g: (nat, nat) -> real, i: nat, i': nat, columns: nat)
    requires forall j: nat :: j < columns ==> f(i, j) == g(i', j)
    ensures Line(f, i, columns) == Line(g, i', columns)
  {
    if columns > 0 { LineSame(f, g, i, i', columns - 1); }
  }

  lemma {:induction false} LineSum(f: (nat, nat) -> real, g: (nat, nat) -> real, h: (nat, nat) -> real,
                                  i: nat, columns: nat)
    requires forall j: nat :: j < columns ==> h(i, j) == f(i, j) + g(i, j)
    ensures Line(h, i, columns) == Line(f, i, columns) + Line(g, i, columns)
  {
    if columns > 0 { LineSum(f, g, h, i, columns - 1); }
  }

  lemma {:induction false} GridSum(f: (nat, nat) -> real, g: (nat, nat) -> real, h: (nat, nat) -> real,
                                  rows: nat, columns: nat)
    requires forall i: nat, j: nat :: i < rows && j < columns ==> h(i, j) == f(i, j) + g(i, j)
    ensures Grid(h, rows, columns) == Grid(f, rows, columns) + Grid(g, rows, columns)
  {
    if rows > 0 {
      GridSum(f, g, h, rows - 1, columns);
      LineSum(f, g, h, rows - 1, columns);
    }
  }

  lemma {:induction false} GridBelow(f: (nat, nat) -> real, g: (nat, nat) -> real, rows: nat, columns: nat)
    requires forall i: nat, j: nat :: i < rows && j < columns ==> f(i, j) <= g(i, j)
    ensures Grid(f, rows, columns) <= Grid(g, rows, columns)
  {
    if rows > 0 {
      GridBelow(f, g, rows - 1, columns);
      LineBelow(f, g, rows - 1, columns);
    }
  }

  lemma {:induction false} LineBelow(f: (nat, nat) -> real, g: (nat, nat) -> real, i: nat, columns: nat)
    requires forall j: nat :: j < columns ==> f(i, j) <= g(i, j)
    ensures Line(f, i, columns) <= Line(g, i, columns)
  {
    if columns > 0 { LineBelow(f, g, i, columns - 1); }
  }

  // Nowhere above and somewhere below.
  lemma {:induction false} LineLess(f: (nat, nat) -> real, g: (nat, nat) -> real, i: nat, columns: nat, j: nat)
    requires j < columns && f(i, j) < g(i, j) && forall k: nat :: k < columns ==> f(i, k) <= g(i, k)
    ensures Line(f, i, columns) < Line(g, i, columns)
  {
    if j == columns - 1 { LineBelow(f, g, i, columns - 1); } else { LineLess(f, g, i, columns - 1, j); }
  }

  lemma {:induction false} GridLess(f: (nat, nat) -> real, g: (nat, nat) -> real, rows: nat, columns: nat,
                                    i: nat, j: nat)
    requires i < rows && j < columns && f(i, j) < g(i, j)
    requires forall k: nat, l: nat :: k < rows && l < columns ==> f(k, l) <= g(k, l)
    ensures Grid(f, rows, columns) < Grid(g, rows, columns)
  {
    if i == rows - 1 {
      GridBelow(f, g, rows - 1, columns);
      LineLess(f, g, i, columns, j);
    } else {
      GridLess(f, g, rows - 1, columns, i, j);
      LineBelow(f, g, rows - 1, columns);
    }
  }

  // Row by row or column by column: the sum of the flipped rectangle.
  lemma {:induction false} GridByColumns(f: (nat, nat) -> real, rows: nat, columns: nat)
    ensures columns == 0 ==> Grid(f, rows, columns) == 0.0
    ensures columns > 0 ==> Grid(f, rows, columns) == Grid(f, rows, columns - 1) + Column(f, columns - 1, rows)
  {
    if rows > 0 { GridByColumns(f, rows - 1, columns); }
  }

  lemma {:induction false} ColumnIsLine(f: (nat, nat) -> real, g: (nat, nat) -> real, j: nat, rows: nat)
    requires forall i: nat :: i < rows ==> g(j, i) == f(i, j)
    ensures Column(f, j, rows) == Line(g, j, rows)
  {
    if rows > 0 { ColumnIsLine(f, g, j, rows - 1); }
  }

  lemma {:induction false} Flip(f: (nat, nat) -> real, g: (nat, nat) -> real, rows: nat, columns: nat)
    requires forall i: nat, j: nat :: i < rows && j < columns ==> g(j, i) == f(i, j)
    ensures Grid(f, rows, columns) == Grid(g, columns, rows)
    decreases columns
  {
    GridByColumns(f, rows, columns);
    if columns > 0 {
      Flip(f, g, rows, columns - 1);
      ColumnIsLine(f, g, columns - 1, rows);
    }
  }
}
