/** Rectangles of cells. A rectangle whose cells all hold one colour is
    connected, so it lies inside a single component of that colour, and it
    holds width × height cells; together these pin down the groups and regions
    of concrete positions. */
module Shapes {
  import opened StoneColors
  import opened Positions
  import opened Boards
  import opened BoardService
  import opened Components

  /** Columns `c0..c1` and rows `r0..r1`, both inclusive. */
  ghost function Rect(c0: int, c1: int, r0: int, r1: int): (s: set<Position>)
    ensures forall q :: q in s <==> c0 <= q.col <= c1 && r0 <= q.row <= r1
  {
    set c, r | c0 <= c <= c1 && r0 <= r <= r1 :: Position(c, r)
  }

  /** Every cell of `s` is on the board and holds `color`. */
  ghost predicate Uniform(b: Board, color: StoneColor, s: set<Position>) {
    forall q :: q in s ==> b.InBounds(q) && b.At(q) == color
  }

  lemma {:induction false} RowCard(c0: int, c1: int, r: int)
    requires c0 <= c1 + 1
    ensures |Rect(c0, c1, r, r)| == c1 - c0 + 1
    decreases c1 - c0 + 1
  {
    if c1 < c0 {
      assert Rect(c0, c1, r, r) == {};
    } else {
      RowCard(c0, c1 - 1, r);
      assert Rect(c0, c1, r, r) == Rect(c0, c1 - 1, r, r) + {Position(c1, r)};
    }
  }

  /** A rectangle holds width × height cells. */
  lemma {:induction false} RectCard(c0: int, c1: int, r0: int, r1: int)
    requires c0 <= c1 + 1 && r0 <= r1 + 1
    ensures |Rect(c0, c1, r0, r1)| == (c1 - c0 + 1) * (r1 - r0 + 1)
    decreases r1 - r0 + 1
  {
    if r1 < r0 {
      assert Rect(c0, c1, r0, r1) == {};
    } else {
      RectCard(c0, c1, r0, r1 - 1);
      RowCard(c0, c1, r1);
      assert Rect(c0, c1, r0, r1) == Rect(c0, c1, r0, r1 - 1) + Rect(c0, c1, r1, r1);
      assert Rect(c0, c1, r0, r1 - 1) !! Rect(c0, c1, r1, r1);
      var w := c1 - c0 + 1;
      assert w * (r1 - r0) + w == w * (r1 - r0 + 1);
    }
  }

  /** A closed set that holds one cell of a uniform row segment holds all of it. */
  lemma {:induction false} RowWalk(b: Board, color: StoneColor, c: set<Position>, r: int, lo: int, hi: int, k: int, j: int)
    requires Closed(b, color, {}, c) && Position(k, r) in c
    requires Uniform(b, color, Rect(lo, hi, r, r))
    requires lo <= k <= hi && lo <= j <= hi
    ensures Position(j, r) in c
    decreases Abs(j - k)
  {
    if j != k {
      var j' := if j > k then j - 1 else j + 1;
      RowWalk(b, color, c, r, lo, hi, k, j');
      assert Position(j, r) in Rect(lo, hi, r, r);
      assert Joined(b, color, Position(j', r), Position(j, r));
    }
  }

  /** A closed set that holds one cell of a uniform column segment holds all of it. */
  lemma {:induction false} ColWalk(b: Board, color: StoneColor, c: set<Position>, col: int, lo: int, hi: int, k: int, j: int)
    requires Closed(b, color, {}, c) && Position(col, k) in c
    requires Uniform(b, color, Rect(col, col, lo, hi))
    requires lo <= k <= hi && lo <= j <= hi
    ensures Position(col, j) in c
    decreases Abs(j - k)
  {
    if j != k {
      var j' := if j > k then j - 1 else j + 1;
      ColWalk(b, color, c, col, lo, hi, k, j');
      assert Position(col, j) in Rect(col, col, lo, hi);
      assert Joined(b, color, Position(col, j'), Position(col, j));
    }
  }

  /** A uniform rectangle is connected: it lies inside the component of any of its cells. */
  lemma RectInComponent(b: Board, color: StoneColor, c0: int, c1: int, r0: int, r1: int, p: Position)
    requires Uniform(b, color, Rect(c0, c1, r0, r1)) && p in Rect(c0, c1, r0, r1)
    ensures Rect(c0, c1, r0, r1) <= Component(b, color, p)
  {
    forall q | q in Rect(c0, c1, r0, r1)
      ensures q in Component(b, color, p)
    {
      forall c | Closed(b, color, {}, c) && p in c
        ensures q in c
      {
        assert Uniform(b, color, Rect(c0, c1, p.row, p.row));
        RowWalk(b, color, c, p.row, c0, c1, p.col, q.col);
        assert Uniform(b, color, Rect(q.col, q.col, r0, r1));
        ColWalk(b, color, c, q.col, r0, r1, p.row, q.row);
      }
    }
  }

  /** A uniform rectangle with no same-coloured neighbour outside it is a whole component. */
  lemma RectComponent(b: Board, color: StoneColor, c0: int, c1: int, r0: int, r1: int, p: Position)
    requires Uniform(b, color, Rect(c0, c1, r0, r1)) && p in Rect(c0, c1, r0, r1)
    requires Closed(b, color, {}, Rect(c0, c1, r0, r1))
    ensures Component(b, color, p) == Rect(c0, c1, r0, r1)
  {
    RectInComponent(b, color, c0, c1, r0, r1, p);
    ComponentMinimal(b, color, p, Rect(c0, c1, r0, r1));
  }

  /** Every cell next to `s` but outside it holds a stone of another colour
      than `color`, or is off the board. */
  ghost predicate Walled(b: Board, color: StoneColor, s: set<Position>) {
    forall x :: x in s ==> WalledAt(b, color, s, x)
  }

  /** Every cell next to `x` but outside `s` holds a stone of another colour than `color`. */
  ghost predicate WalledAt(b: Board, color: StoneColor, s: set<Position>, x: Position) {
    forall y :: b.InBounds(y) && Adjacent(x, y) && y !in s ==> b.At(y) != color && b.At(y) != Empty
  }

  /** A neighbour that is off the board, inside `s`, or a stone of another colour does not breach the wall. */
  predicate Blocks(b: Board, color: StoneColor, s: set<Position>, y: Position) {
    !b.InBounds(y) || y in s || (b.At(y) != color && b.At(y) != Empty)
  }

  /** The wall around `x` checked on its four orthogonal neighbours. */
  lemma WalledFour(b: Board, color: StoneColor, s: set<Position>, x: Position)
    requires Blocks(b, color, s, Position(x.col, x.row - 1)) && Blocks(b, color, s, Position(x.col, x.row + 1))
    requires Blocks(b, color, s, Position(x.col - 1, x.row)) && Blocks(b, color, s, Position(x.col + 1, x.row))
    ensures WalledAt(b, color, s, x)
  {
    forall y | b.InBounds(y) && Adjacent(x, y) && y !in s
      ensures b.At(y) != color && b.At(y) != Empty
    {
      AdjacentCases(x, y);
    }
  }

  /** A walled uniform rectangle of stones is a whole group without a liberty. */
  lemma EnclosedRect(b: Board, color: StoneColor, c0: int, c1: int, r0: int, r1: int, p: Position)
    requires color != Empty
    requires Uniform(b, color, Rect(c0, c1, r0, r1)) && p in Rect(c0, c1, r0, r1)
    requires Walled(b, color, Rect(c0, c1, r0, r1))
    ensures Component(b, color, p) == Rect(c0, c1, r0, r1)
    ensures !HasLiberty(b, Rect(c0, c1, r0, r1))
  {
    RectComponent(b, color, c0, c1, r0, r1, p);
    forall x, y | x in Rect(c0, c1, r0, r1) && b.InBounds(y) && Adjacent(x, y)
      ensures b.At(y) != Empty
    {
      assert WalledAt(b, color, Rect(c0, c1, r0, r1), x);
    }
  }
}
