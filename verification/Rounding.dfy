// Distances, halvings, rounding to the nearest whole number, and lines too close to one.
module Rounding {

  function Absolute(x: real): real {
    if x < 0.0 then -x else x
  }

  // The width of an interval after n halvings.
  function Halved(width: real, n: nat): real {
    if n == 0 then width else Halved(width, n - 1) / 2.0
  }

  // To the nearest integer, and to the even one of two.
  function Round(x: real): int {
    var n := x.Floor;
    var d := x - n as real;
    if d < 0.5 || (d == 0.5 && n % 2 == 0) then n else n + 1
  }

  // A line within a billionth of a whole number can be pushed.
  predicate WholeLine(line: real) {
    Absolute(line - Round(line) as real) < 0.000000001
  }

  lemma NearANumber(line: real)
    ensures WholeLine(line) <==> exists n: int :: Near(line, n)
  {
    if n: int :| Near(line, n) { assert n == line.Floor || n == line.Floor + 1; }
    if WholeLine(line) { assert Near(line, Round(line)); }
  }

  ghost predicate Near(x: real, n: int) {
    n as real - 0.000000001 < x < n as real + 0.000000001
  }
}
