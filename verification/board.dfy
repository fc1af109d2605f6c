/** The logical Go board (Board.java): a `size × size` grid indexed `[row][col]`.
    Reads outside the grid fail, writes outside the grid are silently ignored. */
module Boards {
  import opened Wrappers
  import opened StoneColors
  import opened Positions

  datatype Grid = Grid(size: nat, rows: seq<seq<StoneColor>>) {
    /** Every row has `size` cells, as the Java array allocation guarantees. */
    predicate WellFormed() {
      |rows| == size && forall r :: 0 <= r < size ==> |rows[r]| == size
    }

    predicate InBounds(p: Position) {
      0 <= p.col < size && 0 <= p.row < size
    }

    /** The cell at an in-bounds position. */
    function At(p: Position): StoneColor
      requires WellFormed() && InBounds(p)
    {
      rows[p.row][p.col]
    }

    /** Every in-bounds position, as a set. */
    ghost function Cells(): (s: set<Position>)
      ensures forall p :: p in s <==> InBounds(p)
    {
      set c, r | 0 <= c < size && 0 <= r < size :: Position(c, r)
    }
  }

  type Board = g: Grid | g.WellFormed() witness Grid(0, [])

  const OutOfBoardError: string := "Poza planszą"

  /** The constructor with `initialize`: every cell starts EMPTY. A negative size
      makes the Java array allocation throw, so the size is a `nat` here. */
  function NewBoard(n: nat): (b: Board)
    ensures b.size == n
    ensures forall p :: b.InBounds(p) ==> b.At(p) == Empty
  {
    Grid(n, seq(n, _ => seq(n, _ => Empty)))
  }

  function IsOutOfBounds(b: Board, p: Position): (r: bool)
    ensures r <==> p !in b.Cells()
  {
    p.row < 0 || p.row >= b.size || p.col < 0 || p.col >= b.size
  }

  /** `getStone`: the colour at `p`, or the exception the source throws outside the board. */
  function GetStone(b: Board, p: Position): (r: Result<StoneColor>)
    ensures r.Failure? <==> IsOutOfBounds(b, p)
    ensures r.Failure? ==> r.error == OutOfBoardError
    ensures r.Success? ==> b.InBounds(p) && r.value == b.At(p)
  {
    if IsOutOfBounds(b, p) then Failure(OutOfBoardError) else Success(b.rows[p.row][p.col])
  }

  /** `setStone`: an in-bounds write changes exactly that cell; any other write is a no-op. */
  function SetStone(b: Board, p: Position, c: StoneColor): (r: Board)
    ensures r.size == b.size
    ensures !b.InBounds(p) ==> r == b
    ensures b.InBounds(p) ==> r.At(p) == c
    ensures forall q :: b.InBounds(q) && q != p ==> r.At(q) == b.At(q)
  {
    if IsOutOfBounds(b, p) then b
    else Grid(b.size, b.rows[p.row := b.rows[p.row][p.col := c]])
  }

  /** `removeStone`: the cell becomes EMPTY; out of bounds nothing happens. */
  function RemoveStone(b: Board, p: Position): (r: Board)
    ensures r.size == b.size
    ensures !b.InBounds(p) ==> r == b
    ensures b.InBounds(p) ==> r.At(p) == Empty
    ensures forall q :: b.InBounds(q) && q != p ==> r.At(q) == b.At(q)
  {
    SetStone(b, p, Empty)
  }

  /** `isEmpty`: false outside the board, otherwise whether the cell holds no stone. */
  function IsEmpty(b: Board, p: Position): (r: bool)
    ensures r <==> GetStone(b, p) == Success(Empty)
  {
    if IsOutOfBounds(b, p) then false else b.rows[p.row][p.col] == Empty
  }

  /** Two boards of one size that agree on every cell are the same board. */
  lemma {:induction false} Extensionality(a: Board, b: Board)
    requires a.size == b.size
    requires forall p :: a.InBounds(p) ==> a.At(p) == b.At(p)
    ensures a == b
  {
    forall r | 0 <= r < a.size
      ensures a.rows[r] == b.rows[r]
    {
      forall c | 0 <= c < a.size
        ensures a.rows[r][c] == b.rows[r][c]
      {
        assert a.At(Position(c, r)) == b.At(Position(c, r));
      }
    }
  }

  lemma GetAfterSet(b: Board, p: Position, c: StoneColor, q: Position)
    requires b.InBounds(p)
    ensures GetStone(SetStone(b, p, c), p) == Success(c)
    ensures q != p ==> GetStone(SetStone(b, p, c), q) == GetStone(b, q)
  {
  }

  /** The board with every in-bounds cell of `s` emptied and every other cell kept. */
  function ClearCells(b: Board, s: set<Position>): (r: Board)
    ensures r.size == b.size
    ensures forall p :: b.InBounds(p) ==> r.At(p) == if p in s then Empty else b.At(p)
  {
    Grid(b.size, seq(b.size, row requires 0 <= row < b.size =>
      seq(b.size, col requires 0 <= col < b.size =>
        if Position(col, row) in s then Empty else b.rows[row][col])))
  }
}
