/** The region and scoring scenarios of GameEngineTest.java: the empty regions
    `getEmptyRegion` finds on the test boards, and the final score of a small
    finished position. Like the rule scenarios, each lemma holds for every
    board with the test's stones, and a companion lemma shows that the board
    the test builds is one of them. */
module TerritoryScenarios {
  import opened Wrappers
  import opened Seqs
  import opened StoneColors
  import opened Positions
  import opened Players
  import opened Boards
  import opened BoardService
  import opened Components
  import opened Shapes
  import opened GameEngine
  import opened Scenarios

  /** A fill from a cell of a closed uniform empty rectangle, with a visited set
      that separates no empty cells, returns exactly that rectangle and marks it
      visited. */
  lemma RegionIsRect(b: Board, v: set<Position>, start: Position, c0: int, c1: int, r0: int, r1: int, n: int)
    requires Sealed(b, Empty, v) && start !in v
    requires n == (c1 - c0 + 1) * (r1 - r0 + 1)
    requires Uniform(b, Empty, Rect(c0, c1, r0, r1)) && start in Rect(c0, c1, r0, r1)
    requires Closed(b, Empty, {}, Rect(c0, c1, r0, r1))
    ensures var r := GetEmptyRegion(b, start, v);
      && r.Success? && Elems(r.value.cells) == Rect(c0, c1, r0, r1)
      && |r.value.cells| == n
      && r.value.visited == v + Rect(c0, c1, r0, r1)
      && Sealed(b, Empty, r.value.visited)
  {
    var f := GetEmptyRegion(b, start, v).value;
    FillIsComponent(b, Empty, v, start, f);
    RectComponent(b, Empty, c0, c1, r0, r1, start);
    SealedGrow(b, Empty, v, start, f);
    NoDupCard(f.cells);
    RectCard(c0, c1, r0, r1);
  }

  /** `RectCard` with the product already worked out. */
  lemma RectCount(c0: int, c1: int, r0: int, r1: int, n: int)
    requires c0 <= c1 + 1 && r0 <= r1 + 1 && n == (c1 - c0 + 1) * (r1 - r0 + 1)
    ensures |Rect(c0, c1, r0, r1)| == n
  {
    RectCard(c0, c1, r0, r1);
  }

  /* ---------- testShouldFindSingleEmptyRegion ---------- */

  /** On an empty board the region through any cell is the whole board. */
  lemma WholeBoardRegion(b: Board, p: Position)
    requires b.InBounds(p) && forall q :: b.InBounds(q) ==> b.At(q) == Empty
    ensures var r := GetEmptyRegion(b, p, {});
      r.Success? && |r.value.cells| == b.size * b.size && Elems(r.value.cells) == b.Cells()
  {
    var n := b.size - 1;
    SealedEmpty(b, Empty);
    RegionIsRect(b, {}, p, 0, n, 0, n, b.size * b.size);
    assert Rect(0, n, 0, n) == b.Cells();
  }

  /* ---------- testShouldFindEnclosedEmptyRegion ---------- */

  /** The 3×3 middle of the top-left 5×5 corner is empty and ringed by black stones. */
  ghost predicate RingAround(b: Board) {
    && b.size == 9
    && Uniform(b, Empty, Rect(1, 3, 1, 3))
    && (forall i :: 1 <= i <= 3 ==> b.At(Position(i, 0)) == Black && b.At(Position(i, 4)) == Black)
    && (forall i :: 1 <= i <= 3 ==> b.At(Position(0, i)) == Black && b.At(Position(4, i)) == Black)
  }

  const RingStones: seq<Position> := [
    Position(1, 0), Position(1, 4), Position(0, 1), Position(4, 1),
    Position(2, 0), Position(2, 4), Position(0, 2), Position(4, 2),
    Position(3, 0), Position(3, 4), Position(0, 3), Position(4, 3)]

  lemma RingBoardFits()
    ensures RingAround(Layout([], RingStones))
  {
    var b := Layout([], RingStones);
    forall q | q in Rect(1, 3, 1, 3)
      ensures b.InBounds(q) && b.At(q) == Empty
    {
      assert q !in RingStones;
    }
    forall i | 1 <= i <= 3
      ensures b.At(Position(i, 0)) == Black && b.At(Position(i, 4)) == Black
      ensures b.At(Position(0, i)) == Black && b.At(Position(4, i)) == Black
    {
      assert i == 1 || i == 2 || i == 3;
    }
  }

  /** No empty cell borders the middle from outside. */
  lemma RingSeals(b: Board)
    requires RingAround(b)
    ensures Closed(b, Empty, {}, Rect(1, 3, 1, 3))
  {
    forall x, y | x in Rect(1, 3, 1, 3) && Joined(b, Empty, x, y)
      ensures y in Rect(1, 3, 1, 3)
    {
      AdjacentCases(x, y);
    }
  }

  /** The region through any middle cell, (2,2) in the test, is the 3×3 middle:
      nine cells, (1,1) and (3,3) among them. */
  lemma EnclosedRegion(b: Board, p: Position)
    requires RingAround(b) && p in Rect(1, 3, 1, 3)
    ensures var r := GetEmptyRegion(b, p, {});
      && r.Success? && |r.value.cells| == 9
      && Position(1, 1) in r.value.cells && Position(3, 3) in r.value.cells
  {
    RingSeals(b);
    SealedEmpty(b, Empty);
    RegionIsRect(b, {}, p, 1, 3, 1, 3, 9);
  }

  /* ---------- testShouldDetectSeparateEmptyRegions ---------- */

  /** Column 2 is a wall of black stones; every other cell is empty. */
  ghost predicate WallAround(b: Board) {
    && b.size == 9
    && Uniform(b, Black, Rect(2, 2, 0, 8))
    && Uniform(b, Empty, Rect(0, 1, 0, 8))
    && Uniform(b, Empty, Rect(3, 8, 0, 8))
  }

  const WallStones: seq<Position> := [
    Position(2, 0), Position(2, 1), Position(2, 2), Position(2, 3), Position(2, 4),
    Position(2, 5), Position(2, 6), Position(2, 7), Position(2, 8)]

  lemma WallBoardFits()
    ensures WallAround(Layout([], WallStones))
  {
    var b := Layout([], WallStones);
    forall q | q in Rect(2, 2, 0, 8)
      ensures b.InBounds(q) && b.At(q) == Black
    {
      var r := q.row;
      assert r == 0 || r == 1 || r == 2 || r == 3 || r == 4 || r == 5 || r == 6 || r == 7 || r == 8;
    }
    forall q | q in Rect(0, 1, 0, 8) || q in Rect(3, 8, 0, 8)
      ensures b.InBounds(q) && b.At(q) == Empty
    {
      assert q !in WallStones;
    }
  }

  /** The wall keeps either side's empty cells apart from the other's. */
  lemma WallSeals(b: Board, c0: int, c1: int)
    requires WallAround(b)
    requires (c0 == 0 && c1 == 1) || (c0 == 3 && c1 == 8)
    ensures Closed(b, Empty, {}, Rect(c0, c1, 0, 8))
  {
    forall x, y | x in Rect(c0, c1, 0, 8) && Joined(b, Empty, x, y)
      ensures y in Rect(c0, c1, 0, 8)
    {
      assert y.col == 2 ==> y in Rect(2, 2, 0, 8);
    }
  }

  /** The fill through any cell left of the wall finds its two columns, 18 cells,
      and leaves the visited set sealed. */
  lemma LeftRegion(b: Board, p: Position)
    requires WallAround(b) && b.InBounds(p) && p.col < 2
    ensures var left := GetEmptyRegion(b, p, {});
      && left.Success? && |left.value.cells| == 18
      && Elems(left.value.cells) == Rect(0, 1, 0, 8)
      && left.value.visited == Rect(0, 1, 0, 8) && Sealed(b, Empty, left.value.visited)
  {
    WallSeals(b, 0, 1);
    SealedEmpty(b, Empty);
    assert p in Rect(0, 1, 0, 8);
    RegionIsRect(b, {}, p, 0, 1, 0, 8, 18);
  }

  /** The fill through any cell right of the wall, after the left region has
      been visited, finds its six columns, 54 cells. */
  lemma RightRegion(b: Board, v: set<Position>, q: Position)
    requires WallAround(b) && b.InBounds(q) && q.col > 2
    requires v == Rect(0, 1, 0, 8) && Sealed(b, Empty, v)
    ensures var right := GetEmptyRegion(b, q, v);
      right.Success? && |right.value.cells| == 54 && Elems(right.value.cells) == Rect(3, 8, 0, 8)
  {
    WallSeals(b, 3, 8);
    assert q in Rect(3, 8, 0, 8);
    RegionIsRect(b, v, q, 3, 8, 0, 8, 54);
  }

  /** The left region, two columns wide, holds 18 cells; the right region, found
      with the visited set the left fill left behind, holds 54, and the two share
      no cell. The test starts them at (0,1) and (4,1); any start on either side
      gives the same. */
  lemma SeparateRegions(b: Board, p: Position, q: Position)
    requires WallAround(b) && b.InBounds(p) && b.InBounds(q) && p.col < 2 && q.col > 2
    ensures var left := GetEmptyRegion(b, p, {});
      && left.Success? && |left.value.cells| == 18
      && var right := GetEmptyRegion(b, q, left.value.visited);
         && right.Success? && |right.value.cells| == 54
         && Elems(left.value.cells) !! Elems(right.value.cells)
  {
    LeftRegion(b, p);
    RightRegion(b, GetEmptyRegion(b, p, {}).value.visited, q);
  }

  /* ---------- testShouldCalculateScoresCorrectlyOn9x9Board ---------- */

  /** Black walls off the 2×2 top-left corner with five stones, White walls off
      the bottom-right cell with two, and everything else is one empty region. */
  ghost predicate ScoreAround(b: Board) {
    && b.size == 9
    && Uniform(b, Empty, Rect(0, 1, 0, 1))
    && Uniform(b, Black, Rect(0, 2, 2, 2)) && Uniform(b, Black, Rect(2, 2, 0, 1))
    && Uniform(b, Empty, Rect(3, 8, 0, 6)) && Uniform(b, Empty, Rect(0, 6, 3, 8))
    && b.At(Position(7, 7)) == Empty && b.At(Position(8, 8)) == Empty
    && b.At(Position(7, 8)) == White && b.At(Position(8, 7)) == White
  }

  const ScoreBlacks: seq<Position> := [Position(0, 2), Position(1, 2), Position(2, 2), Position(2, 1), Position(2, 0)]
  const ScoreWhites: seq<Position> := [Position(7, 8), Position(8, 7)]

  lemma ScoreBoardFits()
    ensures ScoreAround(Layout(ScoreWhites, ScoreBlacks))
  {
    var b := Layout(ScoreWhites, ScoreBlacks);
    ScoreBandsEmpty(b);
    ScoreWallsBlack(b);
    assert b.At(Position(7, 7)) == Empty && b.At(Position(8, 8)) == Empty;
    assert b.At(Position(7, 8)) == White && b.At(Position(8, 7)) == White;
  }

  lemma ScoreBandsEmpty(b: Board)
    requires b == Layout(ScoreWhites, ScoreBlacks)
    ensures Uniform(b, Empty, Rect(0, 1, 0, 1))
    ensures Uniform(b, Empty, Rect(3, 8, 0, 6)) && Uniform(b, Empty, Rect(0, 6, 3, 8))
  {
    forall q | q in Rect(0, 1, 0, 1)
      ensures b.InBounds(q) && b.At(q) == Empty
    {
      assert q !in ScoreBlacks && q !in ScoreWhites;
    }
    forall q | q in Rect(3, 8, 0, 6)
      ensures b.InBounds(q) && b.At(q) == Empty
    {
      assert q !in ScoreBlacks && q !in ScoreWhites;
    }
    forall q | q in Rect(0, 6, 3, 8)
      ensures b.InBounds(q) && b.At(q) == Empty
    {
      assert q !in ScoreBlacks && q !in ScoreWhites;
    }
  }

  lemma ScoreWallsBlack(b: Board)
    requires b == Layout(ScoreWhites, ScoreBlacks)
    ensures Uniform(b, Black, Rect(0, 2, 2, 2)) && Uniform(b, Black, Rect(2, 2, 0, 1))
  {
    forall q | q in Rect(0, 2, 2, 2)
      ensures b.InBounds(q) && b.At(q) == Black
    {
      assert q == ScoreBlacks[0] || q == ScoreBlacks[1] || q == ScoreBlacks[2];
    }
    forall q | q in Rect(2, 2, 0, 1)
      ensures b.InBounds(q) && b.At(q) == Black
    {
      assert q == ScoreBlacks[3] || q == ScoreBlacks[4];
    }
  }

  /** A set with a cell next to a black stone and a cell next to a white stone
      borders both colours. */
  lemma BordersBoth(b: Board, s: set<Position>, x1: Position, y1: Position, x2: Position, y2: Position)
    requires x1 in s && b.InBounds(y1) && Adjacent(x1, y1) && b.At(y1) == Black
    requires x2 in s && b.InBounds(y2) && Adjacent(x2, y2) && b.At(y2) == White
    ensures BorderOf(b, s) == {Black, White}
  {
  }

  /** Every neighbour of a corner cell is a corner cell or a black stone. */
  lemma CornerWalled(b: Board, x: Position, y: Position)
    requires ScoreAround(b) && x in Rect(0, 1, 0, 1) && b.InBounds(y) && Adjacent(x, y)
    ensures y in Rect(0, 1, 0, 1) || b.At(y) == Black
  {
    assert y in Rect(0, 1, 0, 1) || y in Rect(0, 2, 2, 2) || y in Rect(2, 2, 0, 1);
  }

  /** The corner is a whole empty region, and only black stones border it. */
  lemma CornerOwned(b: Board)
    requires ScoreAround(b)
    ensures Closed(b, Empty, {}, Rect(0, 1, 0, 1))
    ensures BorderOf(b, Rect(0, 1, 0, 1)) == {Black}
  {
    forall x, y | x in Rect(0, 1, 0, 1) && Joined(b, Empty, x, y)
      ensures y in Rect(0, 1, 0, 1)
    {
      CornerWalled(b, x, y);
    }
    CornerBorder(b);
  }

  lemma CornerBorder(b: Board)
    requires ScoreAround(b)
    ensures BorderOf(b, Rect(0, 1, 0, 1)) == {Black}
  {
    forall x, y | x in Rect(0, 1, 0, 1) && b.InBounds(y) && Adjacent(x, y)
      ensures b.At(y) != White
    {
      CornerWalled(b, x, y);
    }
    assert Position(0, 2) in Rect(0, 2, 2, 2) && Adjacent(Position(0, 1), Position(0, 2));
  }

  /** The bottom-right cell is a whole empty region, and only white stones border it. */
  lemma PointOwned(b: Board)
    requires ScoreAround(b)
    ensures Closed(b, Empty, {}, Rect(8, 8, 8, 8))
    ensures BorderOf(b, Rect(8, 8, 8, 8)) == {White}
  {
    forall x, y | x in Rect(8, 8, 8, 8) && b.InBounds(y) && Adjacent(x, y)
      ensures b.At(y) == White
    {
      AdjacentCases(x, y);
    }
    assert Adjacent(Position(8, 8), Position(8, 7));
  }

  /** Every other empty cell lies in one of the two overlapping bands or is (7,7). */
  lemma ScoreEmptyCells(b: Board, p: Position)
    requires ScoreAround(b) && b.InBounds(p) && b.At(p) == Empty
    ensures p in Rect(0, 1, 0, 1) || p == Position(8, 8) || p == Position(7, 7)
      || p in Rect(3, 8, 0, 6) || p in Rect(0, 6, 3, 8)
  {
    assert p in Rect(0, 2, 2, 2) || p in Rect(2, 2, 0, 1) || p in Rect(0, 1, 0, 1)
      || p in Rect(3, 8, 0, 6) || p in Rect(0, 6, 3, 8)
      || p == Position(7, 7) || p == Position(8, 8) || p == Position(7, 8) || p == Position(8, 7);
  }

  /** The region of (7,7) reaches the upper band through (7,6). */
  lemma NookJoinsBand(b: Board)
    requires ScoreAround(b)
    ensures Rect(3, 8, 0, 6) <= Component(b, Empty, Position(7, 7))
  {
    var c := Component(b, Empty, Position(7, 7));
    ComponentBasics(b, Empty, Position(7, 7));
    assert Position(7, 6) in Rect(3, 8, 0, 6);
    assert Joined(b, Empty, Position(7, 7), Position(7, 6));
    ComponentMinimal(b, Empty, Position(7, 6), c);
    RectInComponent(b, Empty, 3, 8, 0, 6, Position(7, 6));
  }

  /** The rest of the empty cells touch both colours, so nobody owns them. */
  lemma SharedRegion(b: Board, p: Position)
    requires ScoreAround(b) && b.InBounds(p) && b.At(p) == Empty
    requires p !in Rect(0, 1, 0, 1) && p != Position(8, 8)
    ensures BorderOf(b, Component(b, Empty, p)) == {Black, White}
  {
    ScoreEmptyCells(b, p);
    var c := Component(b, Empty, p);
    if p in Rect(3, 8, 0, 6) {
      RectInComponent(b, Empty, 3, 8, 0, 6, p);
      assert Position(2, 0) in Rect(2, 2, 0, 1);
      BordersBoth(b, c, Position(3, 0), Position(2, 0), Position(8, 6), Position(8, 7));
    } else if p in Rect(0, 6, 3, 8) {
      RectInComponent(b, Empty, 0, 6, 3, 8, p);
      assert Position(0, 2) in Rect(0, 2, 2, 2);
      BordersBoth(b, c, Position(0, 3), Position(0, 2), Position(6, 8), Position(7, 8));
    } else {
      NookJoinsBand(b);
      assert Position(2, 0) in Rect(2, 2, 0, 1);
      BordersBoth(b, c, Position(3, 0), Position(2, 0), Position(8, 6), Position(8, 7));
    }
  }

  /** Black owns exactly the four corner cells. */
  lemma BlackTerritory(b: Board)
    requires ScoreAround(b)
    ensures Territory(b, Black) == Rect(0, 1, 0, 1) && |Territory(b, Black)| == 4
  {
    RectCount(0, 1, 0, 1, 4);
    CornerOwned(b);
    PointOwned(b);
    forall p | p in ColorCells(b, Empty)
      ensures BorderOf(b, Component(b, Empty, p)) == {Black} <==> p in Rect(0, 1, 0, 1)
    {
      if p in Rect(0, 1, 0, 1) {
        RectComponent(b, Empty, 0, 1, 0, 1, p);
      } else if p == Position(8, 8) {
        RectComponent(b, Empty, 8, 8, 8, 8, p);
        assert White in BorderOf(b, Component(b, Empty, p));
      } else {
        SharedRegion(b, p);
        assert White in BorderOf(b, Component(b, Empty, p));
      }
    }
  }

  /** White owns exactly the bottom-right cell. */
  lemma WhiteTerritory(b: Board)
    requires ScoreAround(b)
    ensures Territory(b, White) == {Position(8, 8)} && |Territory(b, White)| == 1
  {
    CornerOwned(b);
    PointOwned(b);
    forall p | p in ColorCells(b, Empty)
      ensures BorderOf(b, Component(b, Empty, p)) == {White} <==> p == Position(8, 8)
    {
      if p in Rect(0, 1, 0, 1) {
        RectComponent(b, Empty, 0, 1, 0, 1, p);
        assert Black in BorderOf(b, Component(b, Empty, p));
      } else if p == Position(8, 8) {
        RectComponent(b, Empty, 8, 8, 8, 8, p);
      } else {
        SharedRegion(b, p);
        assert Black in BorderOf(b, Component(b, Empty, p));
      }
    }
  }

  /** The engine of the test after the two tally updates: Black 3, White 5, seats unchanged. */
  lemma ScoreTallies(b: Board)
    ensures var e := UpdateCaptureCounts(UpdateCaptureCounts(Start(b), Black, 3), White, 5);
      && e.board == b && e.blackCaptures == 3 && e.whiteCaptures == 5
      && BlackSeat(e) == Some(BlackPlayer)
  {
    var e1 := UpdateCaptureCounts(Start(b), Black, 3);
    assert e1.seats == Start(b).seats;
    var e2 := UpdateCaptureCounts(e1, White, 5);
    assert e2.seats == e1.seats;
  }

  /** With tallies of 3 for Black and 5 for White, Black scores 4 + 3 = 7,
      White 1 + 5 = 6, and the black player wins. */
  lemma ScoreScenario(b: Board)
    requires ScoreAround(b)
    ensures var e := UpdateCaptureCounts(UpdateCaptureCounts(Start(b), Black, 3), White, 5);
      var s := CalculateScores(e);
      s.blackScore == 7 && s.whiteScore == 6 && s.winner == Some(BlackPlayer)
  {
    BlackTerritory(b);
    WhiteTerritory(b);
    ScoreTallies(b);
  }
}
