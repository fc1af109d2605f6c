/** Board coordinates (Position.java). Coordinates are unbounded integers: the
    source's 32-bit `col + 1` can only wrap for positions that are out of bounds
    both before and after the wrap, so the difference is never observable. */
module Positions {

  datatype Position = Position(col: int, row: int)

  function Abs(x: int): nat {
    if x < 0 then -x else x
  }

  /** Orthogonal neighbours: Manhattan distance exactly one. */
  predicate Adjacent(p: Position, q: Position) {
    Abs(p.col - q.col) + Abs(p.row - q.row) == 1
  }

  lemma AdjacentSymmetric(p: Position, q: Position)
    ensures Adjacent(p, q) <==> Adjacent(q, p)
  {
  }

  /** The four orthogonal neighbours, in the order row-1, row+1, col-1, col+1. */
  lemma AdjacentCases(p: Position, q: Position)
    ensures Adjacent(p, q) <==>
      q == Position(p.col, p.row - 1) || q == Position(p.col, p.row + 1) ||
      q == Position(p.col - 1, p.row) || q == Position(p.col + 1, p.row)
  {
  }

  lemma AdjacentIrreflexive(p: Position)
    ensures !Adjacent(p, p)
  {
  }
}
