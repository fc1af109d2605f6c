/** The rule scenarios of GameEngineTest.java, each stated as a lemma about the
    model: a fresh 9×9 board, the players of the test's set-up, the stones the
    test places, and the outcome the test asserts. */
module Scenarios {
  import opened Wrappers
  import opened Seqs
  import opened StoneColors
  import opened Positions
  import opened Players
  import opened Moves
  import opened Boards
  import opened BoardService
  import opened Components
  import opened Shapes
  import opened MoveResults
  import opened GameEngine
  import opened GameEngineService

  const BlackPlayer: GamePlayer := GamePlayer(0, "Black Player", Black)
  const WhitePlayer: GamePlayer := GamePlayer(1, "White Player", White)

  /** The colour a cell gets when the white stones are placed first and the
      black stones after them. */
  function Stone(whites: seq<Position>, blacks: seq<Position>, q: Position): StoneColor {
    if q in blacks then Black else if q in whites then White else Empty
  }

  /** A 9×9 board holding exactly the given stones, built cell by cell. */
  function Layout(whites: seq<Position>, blacks: seq<Position>): (b: Board)
    ensures b.size == 9
    ensures forall q :: b.InBounds(q) ==> b.At(q) == Stone(whites, blacks, q)
  {
    Grid(9, seq(9, r => seq(9, c => Stone(whites, blacks, Position(c, r)))))
  }

  /** Placing the stones one by one on a fresh board, as the tests do, gives
      the layout. */
  lemma SetupIsLayout(whites: seq<Position>, blacks: seq<Position>)
    ensures Restore(Restore(NewBoard(9), whites, White), blacks, Black) == Layout(whites, blacks)
  {
    var b := Restore(Restore(NewBoard(9), whites, White), blacks, Black);
    Extensionality(b, Layout(whites, blacks));
  }

  /** The engine of the test's set-up: Black to move. */
  function Start(b: Board): (e: Engine)
    ensures e.board == b && e.current == Some(BlackPlayer)
    ensures BlackSeat(e) == Some(BlackPlayer) && WhiteSeat(e) == Some(WhitePlayer)
    ensures e.blackCaptures == 0 && e.whiteCaptures == 0 && !e.singleCapture && e.snapshot == None && !e.end
  {
    SetPlayers(NewEngine(b), BlackPlayer, WhitePlayer)
  }

  /** A neighbour of the new stone whose group cannot be among the captured:
      it is off the board, holds no opponent stone, or touches an empty cell. */
  ghost predicate Spared(b: Board, opp: StoneColor, r: Position) {
    !b.InBounds(r) || b.At(r) != opp || exists y :: b.InBounds(y) && Adjacent(r, y) && b.At(y) == Empty
  }

  /** The stone at `r` touches the empty cell `y`. */
  lemma Breathing(b: Board, opp: StoneColor, r: Position, y: Position)
    requires b.InBounds(y) && Adjacent(r, y) && b.At(y) == Empty
    ensures Spared(b, opp, r)
  {
  }

  /** A spared neighbour contributes nothing to the captures. */
  lemma SparedAlive(b: Board, opp: StoneColor, r: Position)
    requires Spared(b, opp, r)
    ensures DeadAt(b, opp, r) == {}
  {
    if b.InBounds(r) && b.At(r) == opp {
      var y :| b.InBounds(y) && Adjacent(r, y) && b.At(y) == Empty;
      ComponentBasics(b, opp, r);
    }
  }

  /** What the neighbour `r` adds to the captures: nothing, because it is
      spared, or the dead group `g` through it. */
  ghost predicate Yields(b: Board, opp: StoneColor, r: Position, g: set<Position>) {
    (g == {} && Spared(b, opp, r)) || DeadAt(b, opp, r) == g
  }

  /** The captures of a move, from what each of its four sides yields. */
  lemma FourSides(e: Engine, m: Move, g0: set<Position>, g1: set<Position>, g2: set<Position>, g3: set<Position>)
    requires var b := Placed(e, m); var opp := Other(m.player.color); var p := m.position;
      && Yields(b, opp, Position(p.col, p.row - 1), g0) && Yields(b, opp, Position(p.col, p.row + 1), g1)
      && Yields(b, opp, Position(p.col - 1, p.row), g2) && Yields(b, opp, Position(p.col + 1, p.row), g3)
    ensures CaptureSet(e, m) == g0 + g1 + g2 + g3
  {
    var b := Placed(e, m);
    var opp := Other(m.player.color);
    var p := m.position;
    if DeadAt(b, opp, Position(p.col, p.row - 1)) != g0 { SparedAlive(b, opp, Position(p.col, p.row - 1)); }
    if DeadAt(b, opp, Position(p.col, p.row + 1)) != g1 { SparedAlive(b, opp, Position(p.col, p.row + 1)); }
    if DeadAt(b, opp, Position(p.col - 1, p.row)) != g2 { SparedAlive(b, opp, Position(p.col - 1, p.row)); }
    if DeadAt(b, opp, Position(p.col + 1, p.row)) != g3 { SparedAlive(b, opp, Position(p.col + 1, p.row)); }
    CaptureFromFourSides(e, m);
  }

  /** A walled rectangle of `color` stones is captured whole. */
  lemma DeadRect(b: Board, color: StoneColor, c0: int, c1: int, r0: int, r1: int, p: Position)
    requires color != Empty
    requires Uniform(b, color, Rect(c0, c1, r0, r1)) && p in Rect(c0, c1, r0, r1)
    requires Walled(b, color, Rect(c0, c1, r0, r1))
    ensures DeadAt(b, color, p) == Rect(c0, c1, r0, r1)
  {
    EnclosedRect(b, color, c0, c1, r0, r1, p);
  }

  /** A single `color` stone with no empty neighbour is captured alone. */
  lemma DeadSingle(b: Board, color: StoneColor, p: Position)
    requires color != Empty && b.InBounds(p) && b.At(p) == color
    requires Blocks(b, color, {p}, Position(p.col, p.row - 1)) && Blocks(b, color, {p}, Position(p.col, p.row + 1))
    requires Blocks(b, color, {p}, Position(p.col - 1, p.row)) && Blocks(b, color, {p}, Position(p.col + 1, p.row))
    ensures DeadAt(b, color, p) == {p}
  {
    var r := Rect(p.col, p.col, p.row, p.row);
    assert r == {p};
    WalledFour(b, color, r, p);
    DeadRect(b, color, p.col, p.col, p.row, p.row, p);
  }

  /** A legal placement that captures something right after a move that did
      not capture exactly one stone is accepted: it reports each captured cell
      once, the mover's tally grows by their number and the turn passes. */
  lemma Capturing(e: Engine, m: Move, cs: set<Position>) returns (s: Step)
    requires MayPlace(e, m) && CaptureSet(e, m) == cs && cs != {} && !e.singleCapture
    ensures s == ApplyMove(e, m) && s.result.ok
    ensures Elems(s.result.captured) == cs && NoDup(s.result.captured) && |s.result.captured| == |cs|
    ensures m.player.color == Black ==> s.engine.blackCaptures == e.blackCaptures + |cs|
    ensures m.player.color != Black ==> s.engine.whiteCaptures == e.whiteCaptures + |cs|
    ensures s.engine.current == if e.current == BlackSeat(e) then WhiteSeat(e) else BlackSeat(e)
  {
    s := ApplyMove(e, m);
    NoDupCard(s.result.captured);
  }

  /** After an accepted capture the captured cells are empty and the new stone stands. */
  lemma CapturedBoard(e: Engine, m: Move, cs: set<Position>)
    requires MayPlace(e, m) && CaptureSet(e, m) == cs && ApplyMove(e, m).result.ok
    ensures var n := ApplyMove(e, m).engine.board;
      && (forall q :: q in cs ==> n.InBounds(q) && n.At(q) == Empty)
      && n.InBounds(m.position) && n.At(m.position) == m.player.color
  {
    AcceptedBoard(e, m);
  }

  /** An accepted move that captures the single stone `c` reports exactly `c`,
      empties its cell, credits the mover with one stone and remembers the
      board from before the move for the ko check. */
  lemma OneCapture(e: Engine, m: Move, c: Position) returns (s: Step)
    requires MayPlace(e, m) && CaptureSet(e, m) == {c} && !e.singleCapture
    ensures s == ApplyMove(e, m) && s.result.ok && s.result.captured == [c]
    ensures s.engine.board.InBounds(c) && s.engine.board.At(c) == Empty
    ensures s.engine.board.InBounds(m.position) && s.engine.board.At(m.position) == m.player.color
    ensures m.player.color == Black ==> s.engine.blackCaptures == e.blackCaptures + 1
    ensures m.player.color != Black ==> s.engine.whiteCaptures == e.whiteCaptures + 1
    ensures s.engine.current == if e.current == BlackSeat(e) then WhiteSeat(e) else BlackSeat(e)
    ensures s.engine.singleCapture && s.engine.snapshot == Some(e.board) && !s.engine.end
    ensures s.engine.board == After(e, m)
  {
    s := Capturing(e, m, {c});
    SingleCaptured(s.result.captured, c);
    CapturedBoard(e, m, {c});
  }

  /** A duplicate-free list holding exactly one position is that position alone. */
  lemma SingleCaptured(ps: seq<Position>, p: Position)
    requires Elems(ps) == {p} && NoDup(ps)
    ensures ps == [p]
  {
    NoDupCard(ps);
    assert ps[0] in Elems(ps);
  }

  /* ---------- testShouldCaptureStoneBySurroundingItInASquare ---------- */

  function SquareBoard(): Board {
    Layout([Position(1, 1)], [Position(0, 1), Position(2, 1), Position(1, 0)])
  }

  /** A lone white stone at (1,1) whose only liberty is (1,2). */
  ghost predicate SquareAround(b: Board) {
    && b.size == 9
    && b.At(Position(1, 1)) == White
    && b.At(Position(1, 0)) == Black && b.At(Position(0, 1)) == Black && b.At(Position(2, 1)) == Black
    && b.At(Position(1, 2)) == Empty
    && b.At(Position(1, 3)) == Empty && b.At(Position(0, 2)) == Empty && b.At(Position(2, 2)) == Empty
  }

  lemma SquareBoardFits()
    ensures SquareAround(SquareBoard())
  {
    var b := SquareBoard();
    assert b.At(Position(1, 1)) == White;
    assert b.At(Position(1, 0)) == Black;
    assert b.At(Position(0, 1)) == Black;
    assert b.At(Position(2, 1)) == Black;
    assert b.At(Position(1, 2)) == Empty;
    assert b.At(Position(1, 3)) == Empty;
    assert b.At(Position(0, 2)) == Empty;
    assert b.At(Position(2, 2)) == Empty;
  }

  lemma SquareLegal(b: Board)
    requires SquareAround(b)
    ensures MayPlace(Start(b), Move(Position(1, 2), BlackPlayer))
  {
  }

  lemma SquareCaptureSet(b: Board)
    requires SquareAround(b)
    ensures CaptureSet(Start(b), Move(Position(1, 2), BlackPlayer)) == {Position(1, 1)}
  {
    var e := Start(b);
    var m := Move(Position(1, 2), BlackPlayer);
    var p := SetStone(b, Position(1, 2), Black);
    assert Placed(e, m) == p;
    DeadSingle(p, White, Position(1, 1));
    assert Spared(p, White, Position(1, 3)) && Spared(p, White, Position(0, 2)) && Spared(p, White, Position(2, 2));
    FourSides(e, m, {Position(1, 1)}, {}, {}, {});
  }

  /** Black closes the last liberty of the white stone at (1,1): the move is
      accepted, the stone is removed, Black's tally is 1 and White moves next. */
  lemma SquareCapture(b: Board)
    requires SquareAround(b)
    ensures var s := ApplyMove(Start(b), Move(Position(1, 2), BlackPlayer));
      && s.result.ok && s.result.captured == [Position(1, 1)]
      && s.engine.board.At(Position(1, 1)) == Empty && s.engine.board.At(Position(1, 2)) == Black
      && s.engine.blackCaptures == 1 && s.engine.current == Some(WhitePlayer)
  {
    var e := Start(b);
    var m := Move(Position(1, 2), BlackPlayer);
    SquareLegal(b);
    SquareCaptureSet(b);
    var s := OneCapture(e, m, Position(1, 1));
  }

  /* ---------- testShouldCaptureFourStoneGroup ---------- */

  function BlockBoard(): Board {
    Layout([Position(0, 1), Position(0, 2), Position(3, 1), Position(3, 2), Position(1, 0), Position(2, 0), Position(1, 3)],
           [Position(1, 1), Position(1, 2), Position(2, 1), Position(2, 2)])
  }

  /** A black 2×2 block whose only liberty is (2,3). */
  ghost predicate BlockAround(b: Board) {
    && b.size == 9
    && b.At(Position(1, 1)) == Black && b.At(Position(1, 2)) == Black
    && b.At(Position(2, 1)) == Black && b.At(Position(2, 2)) == Black
    && b.At(Position(1, 0)) == White && b.At(Position(2, 0)) == White
    && b.At(Position(0, 1)) == White && b.At(Position(0, 2)) == White
    && b.At(Position(3, 1)) == White && b.At(Position(3, 2)) == White
    && b.At(Position(1, 3)) == White && b.At(Position(2, 3)) == Empty
    && b.At(Position(2, 4)) == Empty && b.At(Position(3, 3)) == Empty
  }

  lemma BlockBoardFits()
    ensures BlockAround(BlockBoard())
  {
    var b := BlockBoard();
    assert b.At(Position(1, 1)) == Black;
    assert b.At(Position(1, 2)) == Black;
    assert b.At(Position(2, 1)) == Black;
    assert b.At(Position(2, 2)) == Black;
    assert b.At(Position(1, 0)) == White;
    assert b.At(Position(2, 0)) == White;
    assert b.At(Position(0, 1)) == White;
    assert b.At(Position(0, 2)) == White;
    assert b.At(Position(3, 1)) == White;
    assert b.At(Position(3, 2)) == White;
    assert b.At(Position(1, 3)) == White;
    assert b.At(Position(2, 3)) == Empty;
    assert b.At(Position(2, 4)) == Empty;
    assert b.At(Position(3, 3)) == Empty;
  }

  /** Every neighbour of the block outside it holds a white stone or White's new stone. */
  lemma BlockWalled(b: Board)
    requires BlockAround(b)
    ensures Walled(SetStone(b, Position(2, 3), White), Black, Rect(1, 2, 1, 2))
  {
    var p := SetStone(b, Position(2, 3), White);
    var r := Rect(1, 2, 1, 2);
    WalledFour(p, Black, r, Position(1, 1));
    WalledFour(p, Black, r, Position(1, 2));
    WalledFour(p, Black, r, Position(2, 1));
    WalledFour(p, Black, r, Position(2, 2));
    forall x | x in r
      ensures WalledAt(p, Black, r, x)
    {
      assert x == Position(1, 1) || x == Position(1, 2) || x == Position(2, 1) || x == Position(2, 2);
    }
  }

  lemma BlockDead(b: Board)
    requires BlockAround(b)
    ensures DeadAt(SetStone(b, Position(2, 3), White), Black, Position(2, 2)) == Rect(1, 2, 1, 2)
  {
    var p := SetStone(b, Position(2, 3), White);
    var r := Rect(1, 2, 1, 2);
    forall q | q in r
      ensures p.InBounds(q) && p.At(q) == Black
    {
      assert q == Position(1, 1) || q == Position(1, 2) || q == Position(2, 1) || q == Position(2, 2);
    }
    BlockWalled(b);
    DeadRect(p, Black, 1, 2, 1, 2, Position(2, 2));
  }

  lemma BlockLegal(b: Board)
    requires BlockAround(b)
    ensures MayPlace(ChangePlayers(Start(b)), Move(Position(2, 3), WhitePlayer))
  {
  }

  lemma BlockCaptureSet(b: Board)
    requires BlockAround(b)
    ensures CaptureSet(ChangePlayers(Start(b)), Move(Position(2, 3), WhitePlayer)) == Rect(1, 2, 1, 2)
  {
    var e := ChangePlayers(Start(b));
    var m := Move(Position(2, 3), WhitePlayer);
    var p := SetStone(b, Position(2, 3), White);
    assert Placed(e, m) == p;
    BlockDead(b);
    assert Spared(p, Black, Position(2, 4)) && Spared(p, Black, Position(1, 3)) && Spared(p, Black, Position(3, 3));
    FourSides(e, m, Rect(1, 2, 1, 2), {}, {}, {});
  }

  /** White fills the last liberty of the black 2×2 block: all four stones are
      removed, White's tally is 4 and Black moves next. */
  lemma BlockCapture(b: Board)
    requires BlockAround(b)
    ensures var s := ApplyMove(ChangePlayers(Start(b)), Move(Position(2, 3), WhitePlayer)); var n := s.engine.board;
      && s.result.ok && |s.result.captured| == 4
      && n.At(Position(1, 1)) == Empty && n.At(Position(1, 2)) == Empty
      && n.At(Position(2, 1)) == Empty && n.At(Position(2, 2)) == Empty
      && s.engine.whiteCaptures == 4 && s.engine.current == Some(BlackPlayer)
  {
    var e := ChangePlayers(Start(b));
    var m := Move(Position(2, 3), WhitePlayer);
    BlockLegal(b);
    BlockCaptureSet(b);
    RectCard(1, 2, 1, 2);
    var s := Capturing(e, m, Rect(1, 2, 1, 2));
    CapturedBoard(e, m, Rect(1, 2, 1, 2));
  }

  /* ---------- testShouldCaptureGroupAgainstWall ---------- */

  function EdgeBoard(): Board {
    Layout([Position(0, 1), Position(1, 1)], [Position(0, 0), Position(1, 0)])
  }

  /** A black pair on the top edge whose only liberty is (2,0). */
  ghost predicate EdgeAround(b: Board) {
    && b.size == 9
    && b.At(Position(0, 0)) == Black && b.At(Position(1, 0)) == Black
    && b.At(Position(0, 1)) == White && b.At(Position(1, 1)) == White
    && b.At(Position(2, 0)) == Empty && b.At(Position(2, 1)) == Empty && b.At(Position(3, 0)) == Empty
  }

  lemma EdgeBoardFits()
    ensures EdgeAround(EdgeBoard())
  {
    var b := EdgeBoard();
    assert b.At(Position(0, 0)) == Black;
    assert b.At(Position(1, 0)) == Black;
    assert b.At(Position(0, 1)) == White;
    assert b.At(Position(1, 1)) == White;
    assert b.At(Position(2, 0)) == Empty;
    assert b.At(Position(2, 1)) == Empty;
    assert b.At(Position(3, 0)) == Empty;
  }

  lemma EdgeDead(b: Board)
    requires EdgeAround(b)
    ensures DeadAt(SetStone(b, Position(2, 0), White), Black, Position(1, 0)) == Rect(0, 1, 0, 0)
  {
    var p := SetStone(b, Position(2, 0), White);
    var r := Rect(0, 1, 0, 0);
    forall q | q in r
      ensures p.InBounds(q) && p.At(q) == Black
    {
      assert q == Position(0, 0) || q == Position(1, 0);
    }
    WalledFour(p, Black, r, Position(0, 0));
    WalledFour(p, Black, r, Position(1, 0));
    forall x | x in r
      ensures WalledAt(p, Black, r, x)
    {
      assert x == Position(0, 0) || x == Position(1, 0);
    }
    DeadRect(p, Black, 0, 1, 0, 0, Position(1, 0));
  }

  lemma EdgeLegal(b: Board)
    requires EdgeAround(b)
    ensures MayPlace(ChangePlayers(Start(b)), Move(Position(2, 0), WhitePlayer))
  {
  }

  lemma EdgeCaptureSet(b: Board)
    requires EdgeAround(b)
    ensures CaptureSet(ChangePlayers(Start(b)), Move(Position(2, 0), WhitePlayer)) == Rect(0, 1, 0, 0)
  {
    var e := ChangePlayers(Start(b));
    var m := Move(Position(2, 0), WhitePlayer);
    var p := SetStone(b, Position(2, 0), White);
    assert Placed(e, m) == p;
    EdgeDead(b);
    assert Spared(p, Black, Position(2, -1)) && Spared(p, Black, Position(2, 1)) && Spared(p, Black, Position(3, 0));
    FourSides(e, m, {}, {}, Rect(0, 1, 0, 0), {});
  }

  /** The edge pair as a set display, of two cells. */
  lemma EdgePair()
    ensures Rect(0, 1, 0, 0) == {Position(0, 0), Position(1, 0)}
    ensures |{Position(0, 0), Position(1, 0)}| == 2
  {
  }

  /** A group on the edge has no liberty beyond the edge: White's move at (2,0)
      captures both black stones. */
  lemma EdgeCapture(b: Board)
    requires EdgeAround(b)
    ensures var s := ApplyMove(ChangePlayers(Start(b)), Move(Position(2, 0), WhitePlayer)); var n := s.engine.board;
      && s.result.ok && |s.result.captured| == 2
      && n.At(Position(0, 0)) == Empty && n.At(Position(1, 0)) == Empty
      && s.engine.whiteCaptures == 2 && s.engine.current == Some(BlackPlayer)
  {
    var e := ChangePlayers(Start(b));
    var m := Move(Position(2, 0), WhitePlayer);
    assert e.whiteCaptures == 0 && e.current == WhiteSeat(e) && BlackSeat(e) == Some(BlackPlayer);
    EdgeLegal(b);
    EdgeCaptureSet(b);
    EdgePair();
    var s := Capturing(e, m, {Position(0, 0), Position(1, 0)});
    CapturedBoard(e, m, {Position(0, 0), Position(1, 0)});
  }

  /* ---------- testShouldAllowSuicideMoveBecauseItCaptures ---------- */

  function SnapBoard(): Board {
    Layout([Position(0, 1), Position(1, 0), Position(1, 2), Position(2, 1)], [Position(0, 0), Position(0, 2)])
  }

  /** The empty point (1,1) has four white neighbours; the one at (0,1) has no
      other liberty. */
  ghost predicate SnapAround(b: Board) {
    && b.size == 9
    && b.At(Position(1, 1)) == Empty
    && b.At(Position(0, 1)) == White && b.At(Position(1, 0)) == White
    && b.At(Position(1, 2)) == White && b.At(Position(2, 1)) == White
    && b.At(Position(0, 0)) == Black && b.At(Position(0, 2)) == Black
    && b.At(Position(2, 0)) == Empty && b.At(Position(1, 3)) == Empty && b.At(Position(3, 1)) == Empty
  }

  lemma SnapBoardFits()
    ensures SnapAround(SnapBoard())
  {
    var b := SnapBoard();
    assert b.At(Position(1, 1)) == Empty;
    assert b.At(Position(0, 1)) == White;
    assert b.At(Position(1, 0)) == White;
    assert b.At(Position(1, 2)) == White;
    assert b.At(Position(2, 1)) == White;
    assert b.At(Position(0, 0)) == Black;
    assert b.At(Position(0, 2)) == Black;
    assert b.At(Position(2, 0)) == Empty;
    assert b.At(Position(1, 3)) == Empty;
    assert b.At(Position(3, 1)) == Empty;
  }

  lemma SnapLegal(b: Board)
    requires SnapAround(b)
    ensures MayPlace(Start(b), Move(Position(1, 1), BlackPlayer))
  {
  }

  lemma SnapCaptureSet(b: Board)
    requires SnapAround(b)
    ensures CaptureSet(Start(b), Move(Position(1, 1), BlackPlayer)) == {Position(0, 1)}
  {
    var e := Start(b);
    var m := Move(Position(1, 1), BlackPlayer);
    var p := SetStone(b, Position(1, 1), Black);
    assert Placed(e, m) == p;
    DeadSingle(p, White, Position(0, 1));
    Breathing(p, White, Position(1, 0), Position(2, 0));
    Breathing(p, White, Position(1, 2), Position(1, 3));
    Breathing(p, White, Position(2, 1), Position(3, 1));
    FourSides(e, m, {}, {}, {Position(0, 1)}, {});
  }

  /** Black's stone at (1,1) would have no liberty, but it captures the white
      stone at (0,1) first, so it is not suicide and the move is accepted. */
  lemma SuicideThatCaptures(b: Board)
    requires SnapAround(b)
    ensures var s := ApplyMove(Start(b), Move(Position(1, 1), BlackPlayer));
      && s.result.ok && s.result.captured == [Position(0, 1)]
      && s.engine.board.At(Position(0, 1)) == Empty && s.engine.board.At(Position(1, 1)) == Black
      && s.engine.blackCaptures == 1
  {
    var e := Start(b);
    var m := Move(Position(1, 1), BlackPlayer);
    SnapLegal(b);
    SnapCaptureSet(b);
    var s := OneCapture(e, m, Position(0, 1));
  }

  /* ---------- testShouldPreventGroupSuicideMove ---------- */

  /** The test places (0,1) and (1,1) twice; the repeats change nothing. */
  function PocketBoard(): Board {
    Layout([Position(1, 0), Position(0, 1), Position(2, 1), Position(2, 2), Position(1, 3), Position(0, 2), Position(0, 1)],
           [Position(1, 1), Position(1, 1)])
  }

  /** The empty point (1,2) next to the black stone (1,1), both fenced in by
      white stones that each have a liberty elsewhere. */
  ghost predicate PocketAround(b: Board) {
    && b.size == 9
    && b.At(Position(1, 1)) == Black && b.At(Position(1, 2)) == Empty
    && b.At(Position(1, 0)) == White && b.At(Position(0, 1)) == White && b.At(Position(2, 1)) == White
    && b.At(Position(0, 2)) == White && b.At(Position(2, 2)) == White && b.At(Position(1, 3)) == White
    && b.At(Position(1, 4)) == Empty && b.At(Position(0, 3)) == Empty && b.At(Position(3, 2)) == Empty
  }

  lemma PocketBoardFits()
    ensures PocketAround(PocketBoard())
  {
    var b := PocketBoard();
    assert b.At(Position(1, 1)) == Black;
    assert b.At(Position(1, 2)) == Empty;
    assert b.At(Position(1, 0)) == White;
    assert b.At(Position(0, 1)) == White;
    assert b.At(Position(2, 1)) == White;
    assert b.At(Position(0, 2)) == White;
    assert b.At(Position(2, 2)) == White;
    assert b.At(Position(1, 3)) == White;
    assert b.At(Position(1, 4)) == Empty;
    assert b.At(Position(0, 3)) == Empty;
    assert b.At(Position(3, 2)) == Empty;
  }

  lemma PocketSealed(b: Board)
    requires PocketAround(b)
    ensures var p := SetStone(b, Position(1, 2), Black); !HasLiberty(p, Component(p, Black, Position(1, 2)))
  {
    var p := SetStone(b, Position(1, 2), Black);
    var r := Rect(1, 1, 1, 2);
    forall q | q in r
      ensures p.InBounds(q) && p.At(q) == Black
    {
      assert q == Position(1, 1) || q == Position(1, 2);
    }
    WalledFour(p, Black, r, Position(1, 1));
    WalledFour(p, Black, r, Position(1, 2));
    forall x | x in r
      ensures WalledAt(p, Black, r, x)
    {
      assert x == Position(1, 1) || x == Position(1, 2);
    }
    EnclosedRect(p, Black, 1, 1, 1, 2, Position(1, 2));
  }

  lemma PocketCaptureSet(b: Board)
    requires PocketAround(b)
    ensures CaptureSet(Start(b), Move(Position(1, 2), BlackPlayer)) == {}
  {
    var e := Start(b);
    var m := Move(Position(1, 2), BlackPlayer);
    var p := SetStone(b, Position(1, 2), Black);
    assert Placed(e, m) == p;
    assert Spared(p, White, Position(1, 1));
    Breathing(p, White, Position(1, 3), Position(1, 4));
    Breathing(p, White, Position(0, 2), Position(0, 3));
    Breathing(p, White, Position(2, 2), Position(3, 2));
    FourSides(e, m, {}, {}, {}, {});
  }

  /** Black's move at (1,2) captures nothing and leaves the pair (1,1)-(1,2)
      without a liberty: it is rejected as suicide, and the board and the turn
      stay as they were. */
  lemma GroupSuicideRejected(b: Board)
    requires PocketAround(b)
    ensures var s := ApplyMove(Start(b), Move(Position(1, 2), BlackPlayer));
      && !s.result.ok && s.result.errorMessage == Some(SuicideError)
      && s.engine.board == b && s.engine.current == Some(BlackPlayer)
  {
    var e := Start(b);
    var m := Move(Position(1, 2), BlackPlayer);
    PocketSealed(b);
    PocketCaptureSet(b);
    assert Placed(e, m) == SetStone(b, Position(1, 2), Black);
    assert Suicide(e, m);
  }

  /* ---------- testShouldPreventKo ---------- */

  function KoBoard(): Board {
    Layout([Position(2, 1), Position(3, 2), Position(2, 3)],
           [Position(1, 1), Position(0, 2), Position(1, 3), Position(2, 2)])
  }

  /** A ko shape: the black stone (2,2) has its last liberty at (1,2), which is
      itself ringed by black stones; the neighbouring groups all breathe. */
  ghost predicate KoAround(b: Board) {
    && b.size == 9
    && b.At(Position(1, 2)) == Empty && b.At(Position(2, 2)) == Black
    && b.At(Position(1, 1)) == Black && b.At(Position(0, 2)) == Black && b.At(Position(1, 3)) == Black
    && b.At(Position(2, 1)) == White && b.At(Position(3, 2)) == White && b.At(Position(2, 3)) == White
    && b.At(Position(1, 0)) == Empty && b.At(Position(0, 1)) == Empty && b.At(Position(1, 4)) == Empty
    && b.At(Position(2, 0)) == Empty && b.At(Position(4, 2)) == Empty && b.At(Position(2, 4)) == Empty
  }

  /** The same shape after White has taken (2,2) from (1,2). */
  ghost predicate KoTaken(b: Board) {
    && b.size == 9
    && b.At(Position(1, 2)) == White && b.At(Position(2, 2)) == Empty
    && b.At(Position(1, 1)) == Black && b.At(Position(0, 2)) == Black && b.At(Position(1, 3)) == Black
    && b.At(Position(2, 1)) == White && b.At(Position(3, 2)) == White && b.At(Position(2, 3)) == White
    && b.At(Position(2, 0)) == Empty && b.At(Position(4, 2)) == Empty && b.At(Position(2, 4)) == Empty
  }

  lemma KoBoardFits()
    ensures KoAround(KoBoard())
  {
    var b := KoBoard();
    assert b.At(Position(1, 2)) == Empty;
    assert b.At(Position(2, 2)) == Black;
    assert b.At(Position(1, 1)) == Black;
    assert b.At(Position(0, 2)) == Black;
    assert b.At(Position(1, 3)) == Black;
    assert b.At(Position(2, 1)) == White;
    assert b.At(Position(3, 2)) == White;
    assert b.At(Position(2, 3)) == White;
    assert b.At(Position(1, 0)) == Empty;
    assert b.At(Position(0, 1)) == Empty;
    assert b.At(Position(1, 4)) == Empty;
    assert b.At(Position(2, 0)) == Empty;
    assert b.At(Position(4, 2)) == Empty;
    assert b.At(Position(2, 4)) == Empty;
  }

  const KoTake: Move := Move(Position(1, 2), WhitePlayer)
  const KoRetake: Move := Move(Position(2, 2), BlackPlayer)

  lemma KoTakeLegal(b: Board)
    requires KoAround(b)
    ensures MayPlace(ChangePlayers(Start(b)), KoTake)
  {
  }

  lemma KoTakeCaptureSet(e: Engine)
    requires KoAround(e.board)
    ensures CaptureSet(e, KoTake) == {Position(2, 2)}
  {
    var p := SetStone(e.board, Position(1, 2), White);
    assert Placed(e, KoTake) == p;
    DeadSingle(p, Black, Position(2, 2));
    Breathing(p, Black, Position(1, 1), Position(1, 0));
    Breathing(p, Black, Position(1, 3), Position(1, 4));
    Breathing(p, Black, Position(0, 2), Position(0, 1));
    FourSides(e, KoTake, {}, {}, {}, {Position(2, 2)});
  }

  /** White's capture at (1,2) is accepted; it takes the single stone (2,2),
      remembers the board from before the move and hands the turn to Black. */
  lemma KoTaking(b: Board) returns (s: Step)
    requires KoAround(b)
    ensures s == ApplyMove(ChangePlayers(Start(b)), KoTake)
    ensures s.result.ok && s.result.captured == [Position(2, 2)]
    ensures KoTaken(s.engine.board)
    ensures AgreeExcept(b, s.engine.board, Position(1, 2), Position(2, 2))
    ensures s.engine.singleCapture && s.engine.snapshot == Some(b) && !s.engine.end
    ensures s.engine.current == Some(BlackPlayer)
  {
    var e := ChangePlayers(Start(b));
    assert e.current == WhiteSeat(e) && BlackSeat(e) == Some(BlackPlayer);
    KoTakeLegal(b);
    KoTakeCaptureSet(e);
    s := OneCapture(e, KoTake, Position(2, 2));
    KoTakeBoard(e);
  }

  /** The board after White's capture, cell by cell. */
  lemma KoTakeBoard(e: Engine)
    requires KoAround(e.board) && MayPlace(e, KoTake) && CaptureSet(e, KoTake) == {Position(2, 2)}
    ensures var n := After(e, KoTake);
      KoTaken(n) && AgreeExcept(e.board, n, Position(1, 2), Position(2, 2))
  {
    AcceptedBoard(e, KoTake);
    KoTakenFrom(e.board, After(e, KoTake));
  }

  /** A board that keeps every cell of a ko shape but (1,2), now White, and
      (2,2), now empty, is the taken shape. */
  lemma KoTakenFrom(b: Board, n: Board)
    requires KoAround(b) && Settled(b, n, Position(1, 2), White, {Position(2, 2)})
    ensures KoTaken(n) && AgreeExcept(b, n, Position(1, 2), Position(2, 2))
  {
  }

  lemma KoRetakeCaptureSet(n: Engine)
    requires KoTaken(n.board)
    ensures CaptureSet(n, KoRetake) == {Position(1, 2)}
  {
    var p := SetStone(n.board, Position(2, 2), Black);
    assert Placed(n, KoRetake) == p;
    DeadSingle(p, White, Position(1, 2));
    Breathing(p, White, Position(2, 1), Position(2, 0));
    Breathing(p, White, Position(2, 3), Position(2, 4));
    Breathing(p, White, Position(3, 2), Position(4, 2));
    FourSides(n, KoRetake, {}, {}, {Position(1, 2)}, {});
  }

  lemma KoRetakeLegal(n: Engine)
    requires KoTaken(n.board) && !n.end && n.current == Some(BlackPlayer)
    ensures MayPlace(n, KoRetake)
  {
  }

  /** Black's retake at (2,2) would capture (1,2) and bring back the board from
      before White's capture. */
  lemma KoRetakeRepeats(b: Board, n: Engine)
    requires KoAround(b) && KoTaken(n.board) && AgreeExcept(b, n.board, Position(1, 2), Position(2, 2))
    requires n.singleCapture && n.snapshot == Some(b) && !n.end && n.current == Some(BlackPlayer)
    ensures KoRepeat(n, KoRetake)
  {
    KoRetakeLegal(n);
    KoRetakeCaptureSet(n);
    Restores(b, n, KoRetake, Position(1, 2));
  }

  /** `c` has the size of `b` and agrees with it everywhere but at `x` and `y`. */
  ghost predicate AgreeExcept(b: Board, c: Board, x: Position, y: Position) {
    c.size == b.size && forall q :: b.InBounds(q) && q != x && q != y ==> c.At(q) == b.At(q)
  }

  /** A move that captures the single stone `c` turns a board that differs from
      `b` only at the move and at `c` back into `b`, when `b` holds the mover's
      stone at the move and nothing at `c`. */
  lemma Restores(b: Board, n: Engine, m: Move, c: Position)
    requires MayPlace(n, m) && CaptureSet(n, m) == {c} && AgreeExcept(b, n.board, c, m.position)
    requires b.InBounds(m.position) && b.At(m.position) == m.player.color && b.InBounds(c) && b.At(c) == Empty
    ensures After(n, m) == b
  {
    AcceptedBoard(n, m);
    var a := After(n, m);
    forall q | a.InBounds(q)
      ensures a.At(q) == b.At(q)
    {
      if q != m.position && q != c {
        assert q !in CaptureSet(n, m);
      }
    }
    Extensionality(a, b);
  }

  /** Ko: right after White takes the single stone (2,2), Black may not take
      back at once, because that would recreate the board from before White's
      move; the retake is refused with the ko error and changes nothing. */
  lemma KoPrevented(b: Board)
    requires KoAround(b)
    ensures var s1 := ApplyMove(ChangePlayers(Start(b)), KoTake); var s2 := ApplyMove(s1.engine, KoRetake);
      && s1.result.ok && s1.result.captured == [Position(2, 2)]
      && s2.result == Error(KoError)
      && s2.engine.board == s1.engine.board && s2.engine.current == Some(BlackPlayer)
  {
    var s1 := KoTaking(b);
    KoRetakeLegal(s1.engine);
    KoRetakeRepeats(b, s1.engine);
    KoRetakeCaptureSet(s1.engine);
  }

  /* ---------- testShouldResign ---------- */

  /** Black resigns: White wins, nobody is to move and no further move is
      accepted; White may still resign afterwards, out of turn, and Black is then
      named the winner. */
  lemma ResignScenario(e: Engine)
    requires e == Start(NewBoard(9))
    ensures var r := GameEngineService.Resign(e, BlackPlayer);
      && r.Success? && r.value.engine.current == None && r.value.result.resigned
      && r.value.result.loser == Some(BlackPlayer) && r.value.result.winner == Some(WhitePlayer)
      && !ApplyMove(r.value.engine, Move(Position(0, 0), WhitePlayer)).result.ok
      && var w := GameEngineService.Resign(r.value.engine, WhitePlayer);
         w.Success? && w.value.result.resigned && w.value.result.winner == Some(BlackPlayer)
  {
    var r := GameEngineService.Resign(e, BlackPlayer);
    NothingAfterResign(e, BlackPlayer, Move(Position(0, 0), WhitePlayer), WhitePlayer);
    assert r.value.engine.seats == e.seats;
  }
}
