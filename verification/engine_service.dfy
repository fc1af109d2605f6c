/** GameEngineService.java: the move rules. A move passes fail-fast checks, its
    stone is placed, adjacent opponent groups left without a liberty are captured
    whole, a capture-less move that leaves its own group without a liberty is
    suicide, and a single-stone capture that recreates the board from before the
    previous move is ko. Rejected moves are rolled back. */
module GameEngineService {
  import opened Wrappers
  import opened Seqs
  import opened StoneColors
  import opened Positions
  import opened Players
  import opened Moves
  import opened Boards
  import opened BoardService
  import opened Components
  import opened MoveResults
  import opened GameEngine

  const GameEndedError: string := "Gra została zakończona"
  const NotInitializedError: string := "Gracze nie zostali zainicjalizowani!"
  const OpponentsTurnError: string := "Tura przeciwnika"
  const EmptyColorError: string := "Kolor nie może być pusty"
  const OffBoardError: string := "Ruch poza planszą"
  const OccupiedError: string := "Pole jest już zajęte"
  const SuicideError: string := "Nie można postawić kamienia - samobójstwo"
  const KoError: string := "Zaszło ko- ruch nieprawidłowy"

  /** An engine call: the next state and what is reported. */
  datatype Step = Step(engine: Engine, result: MoveResult)

  /** The first failing check, in the source's order, or None when the stone may
      be placed. */
  function ValidatePreConditions(b: Board, p: Position, color: StoneColor): (r: Option<string>)
    ensures r == None <==> color != Empty && b.InBounds(p) && b.At(p) == Empty
    ensures color == Empty ==> r == Some(EmptyColorError)
    ensures color != Empty && !b.InBounds(p) ==> r == Some(OffBoardError)
    ensures color != Empty && b.InBounds(p) && b.At(p) != Empty ==> r == Some(OccupiedError)
  {
    if color == Empty then Some(EmptyColorError)
    else if IsOutOfBounds(b, p) then Some(OffBoardError)
    else if !IsEmpty(b, p) then Some(OccupiedError)
    else None
  }

  /* ---------- capture ---------- */

  /** The `opp` group through `n`, if `n` holds an `opp` stone. */
  ghost function GroupAt(b: Board, opp: StoneColor, n: Position): set<Position> {
    if b.InBounds(n) && b.At(n) == opp then Component(b, opp, n) else {}
  }

  /** The `opp` group through `n`, if it has no liberty. */
  ghost function DeadAt(b: Board, opp: StoneColor, n: Position): set<Position> {
    if b.InBounds(n) && b.At(n) == opp && !HasLiberty(b, Component(b, opp, n)) then Component(b, opp, n) else {}
  }

  /** The `opp` groups through the positions of `ns`. */
  ghost function GroupsOf(b: Board, opp: StoneColor, ns: seq<Position>): set<Position>
    decreases |ns|
  {
    if ns == [] then {} else GroupsOf(b, opp, ns[..|ns| - 1]) + GroupAt(b, opp, ns[|ns| - 1])
  }

  /** The `opp` groups through the positions of `ns` that have no liberty. */
  ghost function DeadGroups(b: Board, opp: StoneColor, ns: seq<Position>): set<Position>
    decreases |ns|
  {
    if ns == [] then {} else DeadGroups(b, opp, ns[..|ns| - 1]) + DeadAt(b, opp, ns[|ns| - 1])
  }

  /** A cell is in `DeadGroups` exactly when it lies in the dead group of one of the
      positions. */
  lemma {:induction false} DeadGroupsMembers(b: Board, opp: StoneColor, ns: seq<Position>)
    ensures forall q :: q in DeadGroups(b, opp, ns) <==> exists i :: 0 <= i < |ns| && q in DeadAt(b, opp, ns[i])
    ensures DeadGroups(b, opp, ns) <= GroupsOf(b, opp, ns)
    decreases |ns|
  {
    if ns != [] {
      var init := ns[..|ns| - 1];
      DeadGroupsMembers(b, opp, init);
      forall q | q in DeadGroups(b, opp, ns)
        ensures exists i :: 0 <= i < |ns| && q in DeadAt(b, opp, ns[i])
      {
        if q in DeadGroups(b, opp, init) {
          var i :| 0 <= i < |init| && q in DeadAt(b, opp, init[i]);
          assert ns[i] == init[i];
        } else {
          assert q in DeadAt(b, opp, ns[|ns| - 1]);
        }
      }
      forall q | exists i :: 0 <= i < |ns| && q in DeadAt(b, opp, ns[i])
        ensures q in DeadGroups(b, opp, ns)
      {
        var i :| 0 <= i < |ns| && q in DeadAt(b, opp, ns[i]);
        if i < |ns| - 1 {
          assert init[i] == ns[i];
        }
      }
    }
  }

  /** A position already inside the scanned groups brings nothing new: its group
      is one of them. */
  lemma {:induction false} Covered(b: Board, opp: StoneColor, ns: seq<Position>, n: Position)
    requires b.InBounds(n) && b.At(n) == opp && n in GroupsOf(b, opp, ns)
    ensures GroupAt(b, opp, n) <= GroupsOf(b, opp, ns)
    ensures DeadAt(b, opp, n) <= DeadGroups(b, opp, ns)
    decreases |ns|
  {
    var init := ns[..|ns| - 1];
    var last := ns[|ns| - 1];
    if n in GroupsOf(b, opp, init) {
      Covered(b, opp, init, n);
    } else {
      ComponentSymmetric(b, opp, last, n);
    }
  }

  lemma PrefixGrow(b: Board, opp: StoneColor, ns: seq<Position>, k: nat)
    requires k < |ns|
    ensures GroupsOf(b, opp, ns[..k + 1]) == GroupsOf(b, opp, ns[..k]) + GroupAt(b, opp, ns[k])
    ensures DeadGroups(b, opp, ns[..k + 1]) == DeadGroups(b, opp, ns[..k]) + DeadAt(b, opp, ns[k])
  {
    assert ns[..k + 1][..k] == ns[..k];
  }

  /** What the neighbour loop of `tryCaptureOpponents` knows after `k` neighbours. */
  ghost predicate CaptureInv(b: Board, opp: StoneColor, ns: seq<Position>, k: nat,
                             visited: set<Position>, captured: seq<Position>) {
    && k <= |ns|
    && Sealed(b, opp, visited)
    && visited == GroupsOf(b, opp, ns[..k])
    && Elems(captured) == DeadGroups(b, opp, ns[..k])
    && NoDup(captured)
  }

  lemma CaptureSkip(b: Board, opp: StoneColor, ns: seq<Position>, k: nat,
                    visited: set<Position>, captured: seq<Position>)
    requires k < |ns| && b.InBounds(ns[k])
    requires CaptureInv(b, opp, ns, k, visited, captured)
    requires !(b.At(ns[k]) == opp && ns[k] !in visited)
    ensures CaptureInv(b, opp, ns, k + 1, visited, captured)
  {
    PrefixGrow(b, opp, ns, k);
    if b.At(ns[k]) == opp {
      Covered(b, opp, ns[..k], ns[k]);
    }
  }

  lemma CaptureGroup(b: Board, opp: StoneColor, ns: seq<Position>, k: nat,
                     visited: set<Position>, captured: seq<Position>)
    requires opp != Empty && k < |ns| && b.InBounds(ns[k])
    requires CaptureInv(b, opp, ns, k, visited, captured)
    requires b.At(ns[k]) == opp && ns[k] !in visited
    ensures GetGroup(b, ns[k], visited).Success?
    ensures var f := GetGroup(b, ns[k], visited).value;
      var next := if GroupLiberties(b, f.cells) == 0 then captured + f.cells else captured;
      CaptureInv(b, opp, ns, k + 1, f.visited, next)
  {
    var f := GetGroup(b, ns[k], visited).value;
    assert Grown(b, opp, visited, ns[k], f);
    PrefixGrow(b, opp, ns, k);
    FillIsComponent(b, opp, visited, ns[k], f);
    SealedGrow(b, opp, visited, ns[k], f);
    DeadGroupsMembers(b, opp, ns[..k]);
    if GroupLiberties(b, f.cells) == 0 {
      NoDupConcat(captured, f.cells);
    }
  }

  /** The neighbour loop of `tryCaptureOpponents`, from the `k`-th neighbour on,
      sharing one visited set so that a group reached twice is examined once. */
  function CaptureScan(b: Board, opp: StoneColor, ns: seq<Position>, k: nat,
                       visited: set<Position>, captured: seq<Position>): (r: seq<Position>)
    requires opp != Empty
    requires forall q :: q in ns ==> b.InBounds(q)
    requires CaptureInv(b, opp, ns, k, visited, captured)
    ensures Elems(r) == DeadGroups(b, opp, ns) && NoDup(r)
    decreases |ns| - k
  {
    if k == |ns| then
      assert ns[..k] == ns;
      captured
    else
      var next := ScanNeighbor(b, opp, ns, k, visited, captured);
      CaptureScan(b, opp, ns, k + 1, next.0, next.1)
  }

  /** One pass of the neighbour loop: an opponent stone not yet visited has its
      group filled, and the group is appended when it has no liberty; any other
      neighbour leaves the state as it is. Either way the scan invariant moves
      on to the next neighbour. */
  function ScanNeighbor(b: Board, opp: StoneColor, ns: seq<Position>, k: nat,
                        visited: set<Position>, captured: seq<Position>): (r: (set<Position>, seq<Position>))
    requires opp != Empty && k < |ns| && b.InBounds(ns[k])
    requires CaptureInv(b, opp, ns, k, visited, captured)
    ensures CaptureInv(b, opp, ns, k + 1, r.0, r.1)
  {
    var n := ns[k];
    if b.At(n) == opp && n !in visited then
      CaptureGroup(b, opp, ns, k, visited, captured);
      var group := GetGroup(b, n, visited).value;
      (group.visited, if GroupLiberties(b, group.cells) == 0 then captured + group.cells else captured)
    else
      CaptureSkip(b, opp, ns, k, visited, captured);
      (visited, captured)
  }

  /** The removal loop: the listed stones are taken off one by one. */
  function RemoveAll(b: Board, ps: seq<Position>): (r: Board)
    ensures r == ClearCells(b, Elems(ps))
    decreases |ps|
  {
    if ps == [] then
      assert Elems(ps) == {};
      Extensionality(b, ClearCells(b, {}));
      b
    else
      var r := RemoveAll(RemoveStone(b, ps[0]), ps[1..]);
      Extensionality(r, ClearCells(b, Elems(ps)));
      r
  }

  datatype Capture = Capture(board: Board, stones: seq<Position>)

  /** `tryCaptureOpponents`, called only with the mover's colour, never EMPTY:
      the captured stones, each once, are exactly the dead opponent groups next to
      `p`, and they are cleared from the board. */
  function TryCaptureOpponents(b: Board, p: Position, myColor: StoneColor): (r: Capture)
    requires myColor != Empty
    ensures Elems(r.stones) == DeadGroups(b, Other(myColor), Neighbors(b, p))
    ensures NoDup(r.stones)
    ensures r.board == ClearCells(b, Elems(r.stones))
  {
    var ns := Neighbors(b, p);
    SealedEmpty(b, Other(myColor));
    assert ns[..0] == [];
    var stones := CaptureScan(b, Other(myColor), ns, 0, {}, []);
    Capture(RemoveAll(b, stones), stones)
  }

  /** The stones put back by `rollbackMove`, one by one. */
  function Restore(b: Board, ps: seq<Position>, c: StoneColor): (r: Board)
    ensures r.size == b.size
    ensures forall q :: b.InBounds(q) ==> r.At(q) == if q in ps then c else b.At(q)
    decreases |ps|
  {
    if ps == [] then b else Restore(SetStone(b, ps[0], c), ps[1..], c)
  }

  /** `rollbackMove`: the placed stone is lifted and the captured stones return
      in the opponent's colour. */
  function Rollback(b: Board, placed: Position, captured: seq<Position>, color: StoneColor): (r: Board)
    ensures r.size == b.size
    ensures forall q :: b.InBounds(q) ==>
      r.At(q) == if q in captured then Other(color) else if q == placed then Empty else b.At(q)
  {
    Restore(RemoveStone(b, placed), captured, Other(color))
  }

  /* ---------- the rules, stated on the board before the move ---------- */

  /** The board with the new stone, before any capture. */
  ghost function Placed(e: Engine, m: Move): Board {
    SetStone(e.board, m.position, m.player.color)
  }

  /** The dead opponent groups next to the new stone. */
  ghost function CaptureSet(e: Engine, m: Move): set<Position> {
    DeadGroups(Placed(e, m), Other(m.player.color), Neighbors(Placed(e, m), m.position))
  }

  /** The board after the captures. */
  ghost function After(e: Engine, m: Move): Board {
    ClearCells(Placed(e, m), CaptureSet(e, m))
  }

  /** The move passes every fail-fast check. */
  ghost predicate MayPlace(e: Engine, m: Move) {
    && !e.end
    && e.current == Some(m.player)
    && m.player.color != Empty
    && e.board.InBounds(m.position)
    && e.board.At(m.position) == Empty
  }

  /** Nothing is captured and the new stone's group has no liberty. */
  ghost predicate Suicide(e: Engine, m: Move) {
    && CaptureSet(e, m) == {}
    && !HasLiberty(Placed(e, m), Component(Placed(e, m), m.player.color, m.position))
  }

  /** One stone is captured right after a one-stone capture, and the result is the
      board from before the previous move. */
  ghost predicate KoRepeat(e: Engine, m: Move) {
    |CaptureSet(e, m)| == 1 && e.singleCapture && e.snapshot == Some(After(e, m))
  }

  /** The state after an accepted move. */
  ghost predicate AcceptedState(e: Engine, m: Move, n: Engine) {
    && n.board == After(e, m)
    && n.snapshot == Some(e.board)
    && n.singleCapture == (|CaptureSet(e, m)| == 1)
    && (m.player.color == Black ==>
          n.blackCaptures == e.blackCaptures + |CaptureSet(e, m)| && n.whiteCaptures == e.whiteCaptures)
    && (m.player.color != Black ==>
          n.whiteCaptures == e.whiteCaptures + |CaptureSet(e, m)| && n.blackCaptures == e.blackCaptures)
    && n.current == (if e.current == BlackSeat(e) then WhiteSeat(e) else BlackSeat(e))
    && !n.lastMoveWasPass
    && n.(board := e.board, snapshot := e.snapshot, singleCapture := e.singleCapture,
          blackCaptures := e.blackCaptures, whiteCaptures := e.whiteCaptures,
          current := e.current, lastMoveWasPass := e.lastMoveWasPass) == e
  }

  /** Every captured cell held an opponent stone in a group next to the move. */
  lemma CapturedCells(e: Engine, m: Move)
    requires MayPlace(e, m)
    ensures forall q :: q in CaptureSet(e, m) ==>
      e.board.InBounds(q) && q != m.position && e.board.At(q) == Other(m.player.color)
  {
    var b := Placed(e, m);
    var opp := Other(m.player.color);
    var ns := Neighbors(b, m.position);
    DeadGroupsMembers(b, opp, ns);
    forall q | q in CaptureSet(e, m)
      ensures e.board.InBounds(q) && q != m.position && e.board.At(q) == opp
    {
      var i :| 0 <= i < |ns| && q in DeadAt(b, opp, ns[i]);
      ComponentBasics(b, opp, ns[i]);
    }
  }

  /** Lifting the new stone off a capture-less placement restores the board. */
  lemma UndoPlacement(e: Engine, m: Move)
    requires MayPlace(e, m)
    ensures RemoveStone(Placed(e, m), m.position) == e.board
  {
    Extensionality(RemoveStone(Placed(e, m), m.position), e.board);
  }

  /** `rollbackMove` after a capture restores the board from before the move. */
  lemma RollbackRestores(e: Engine, m: Move, captured: seq<Position>)
    requires MayPlace(e, m)
    requires Elems(captured) == CaptureSet(e, m)
    ensures Rollback(After(e, m), m.position, captured, m.player.color) == e.board
  {
    CapturedCells(e, m);
    var r := Rollback(After(e, m), m.position, captured, m.player.color);
    Extensionality(r, e.board);
  }

  /** With nothing captured the board after the move is the board with the stone. */
  lemma NoCaptureKeepsPlacement(e: Engine, m: Move)
    requires CaptureSet(e, m) == {}
    ensures After(e, m) == Placed(e, m)
  {
    Extensionality(After(e, m), Placed(e, m));
  }

  /** The placement and capture of `applyMove`, tied to the rules above. */
  function PlaceAndCapture(e: Engine, m: Move): (cap: Capture)
    requires MayPlace(e, m)
    ensures Elems(cap.stones) == CaptureSet(e, m) && NoDup(cap.stones)
    ensures |cap.stones| == |CaptureSet(e, m)|
    ensures cap.board == After(e, m)
  {
    var cap := TryCaptureOpponents(SetStone(e.board, m.position, m.player.color), m.position, m.player.color);
    NoDupCard(cap.stones);
    cap
  }

  /** The suicide test of `applyMove`: nothing was captured and the group of the
      new stone, found by a fresh flood fill, has no liberty. */
  function IsSuicide(e: Engine, m: Move, cap: Capture): (r: bool)
    requires MayPlace(e, m) && cap == PlaceAndCapture(e, m)
    ensures r <==> Suicide(e, m)
  {
    if cap.stones == [] then
      NoCaptureKeepsPlacement(e, m);
      var b := cap.board;
      var group := GetGroup(b, m.position, {}).value;
      SealedEmpty(b, m.player.color);
      FillIsComponent(b, m.player.color, {}, m.position, group);
      GroupLiberties(b, group.cells) == 0
    else
      assert cap.stones[0] in Elems(cap.stones);
      false
  }

  /** The ko test of `applyMove`: the board after a one-stone capture that follows
      a one-stone capture equals the snapshot. */
  function IsKo(e: Engine, m: Move, cap: Capture): (r: bool)
    requires MayPlace(e, m) && cap == PlaceAndCapture(e, m)
    ensures r <==> KoRepeat(e, m)
  {
    |cap.stones| == 1 && e.singleCapture && e.snapshot == Some(cap.board)
  }

  /** The bookkeeping of an accepted move. */
  function Accept(e: Engine, m: Move, cap: Capture): (n: Engine)
    requires MayPlace(e, m) && cap == PlaceAndCapture(e, m)
    ensures AcceptedState(e, m, n)
  {
    var e1 := e.(board := cap.board, snapshot := Some(e.board), singleCapture := |cap.stones| == 1,
                 lastMoveWasPass := false);
    var e2 := UpdateCaptureCounts(e1, m.player.color, |cap.stones|);
    assert BlackSeat(e2) == BlackSeat(e) && WhiteSeat(e2) == WhiteSeat(e) && e2.current == e.current;
    ChangePlayers(e2)
  }

  /** The stone placement half of `applyMove`, after the fail-fast checks; a
      rejected placement leaves the board as it was. */
  function PlaceStone(e: Engine, m: Move): (s: Step)
    requires MayPlace(e, m)
    ensures s.result.ok <==> !Suicide(e, m) && !KoRepeat(e, m)
    ensures Suicide(e, m) ==> s == Step(e.(lastMoveWasPass := false), Error(SuicideError))
    ensures !Suicide(e, m) && KoRepeat(e, m) ==> s == Step(e.(lastMoveWasPass := false), Error(KoError))
    ensures s.result.ok ==> s.result == Ok(s.result.captured)
    ensures s.result.ok ==> Elems(s.result.captured) == CaptureSet(e, m) && NoDup(s.result.captured)
    ensures s.result.ok ==> AcceptedState(e, m, s.engine)
  {
    var e1 := e.(lastMoveWasPass := false);
    var cap := PlaceAndCapture(e, m);
    if IsSuicide(e, m, cap) then
      NoCaptureKeepsPlacement(e, m);
      UndoPlacement(e, m);
      Step(e1.(board := RemoveStone(cap.board, m.position)), Error(SuicideError))
    else if IsKo(e, m, cap) then
      RollbackRestores(e, m, cap.stones);
      Step(e1.(board := Rollback(cap.board, m.position, cap.stones, m.player.color)), Error(KoError))
    else
      Step(Accept(e, m, cap), Ok(cap.stones))
  }

  /** `applyMove`: the fail-fast checks in the source's order, then the placement. */
  function ApplyMove(e: Engine, m: Move): (s: Step)
    ensures e.end ==> s == Step(e, Error(GameEndedError))
    ensures !e.end && e.current == None ==> s == Step(e, Error(NotInitializedError))
    ensures !e.end && e.current.Some? ==> !s.engine.lastMoveWasPass
    ensures !e.end && e.current.Some? && e.current != Some(m.player) ==> s.result == Error(OpponentsTurnError)
    ensures !e.end && e.current == Some(m.player) ==>
      var v := ValidatePreConditions(e.board, m.position, m.player.color);
      v.Some? ==> s.result == Error(v.value)
    ensures MayPlace(e, m) && Suicide(e, m) ==> s.result == Error(SuicideError)
    ensures MayPlace(e, m) && !Suicide(e, m) && KoRepeat(e, m) ==> s.result == Error(KoError)
    ensures !s.result.ok ==> s.engine.(lastMoveWasPass := e.lastMoveWasPass) == e
    ensures s.result.ok <==> MayPlace(e, m) && !Suicide(e, m) && !KoRepeat(e, m)
    ensures s.result.ok ==> s.result == Ok(s.result.captured)
    ensures s.result.ok ==> Elems(s.result.captured) == CaptureSet(e, m) && NoDup(s.result.captured)
    ensures s.result.ok ==> AcceptedState(e, m, s.engine)
  {
    if e.end then Step(e, Error(GameEndedError))
    else if e.current.None? then Step(e, Error(NotInitializedError))
    else TakeTurn(e, m)
  }

  /** The part of `applyMove` after the game is known to be running with a
      player to move: the turn check, the preconditions and the placement, each
      of which clears the pass flag first. */
  function TakeTurn(e: Engine, m: Move): (s: Step)
    requires !e.end && e.current.Some?
    ensures !s.engine.lastMoveWasPass
    ensures e.current != Some(m.player) ==> s.result == Error(OpponentsTurnError)
    ensures e.current == Some(m.player) ==>
      var v := ValidatePreConditions(e.board, m.position, m.player.color);
      v.Some? ==> s.result == Error(v.value)
    ensures MayPlace(e, m) && Suicide(e, m) ==> s.result == Error(SuicideError)
    ensures MayPlace(e, m) && !Suicide(e, m) && KoRepeat(e, m) ==> s.result == Error(KoError)
    ensures !s.result.ok ==> s.engine == e.(lastMoveWasPass := false)
    ensures s.result.ok <==> MayPlace(e, m) && !Suicide(e, m) && !KoRepeat(e, m)
    ensures s.result.ok ==> s.result == Ok(s.result.captured)
    ensures s.result.ok ==> Elems(s.result.captured) == CaptureSet(e, m) && NoDup(s.result.captured)
    ensures s.result.ok ==> AcceptedState(e, m, s.engine)
  {
    var e1 := e.(lastMoveWasPass := false);
    if m.player != e.current.value then Step(e1, Error(OpponentsTurnError))
    else
      match ValidatePreConditions(e.board, m.position, m.player.color)
      case Some(error) => Step(e1, Error(error))
      case None => PlaceStone(e, m)
  }

  /** `n` is `b` with a `color` stone at `pos` and the cells `cs`, which held
      stones of the other colour, emptied; every other cell is unchanged. */
  ghost predicate Settled(b: Board, n: Board, pos: Position, color: StoneColor, cs: set<Position>) {
    && n.size == b.size
    && n.InBounds(pos) && n.At(pos) == color
    && (forall q :: q in cs ==> b.InBounds(q) && b.At(q) == Other(color) && n.At(q) == Empty)
    && (forall q :: b.InBounds(q) && q != pos && q !in cs ==> n.At(q) == b.At(q))
  }

  /** An accepted move leaves the new stone on its cell, empties exactly the
      captured cells, which held opponent stones, and keeps every other cell. */
  lemma AcceptedBoard(e: Engine, m: Move)
    requires MayPlace(e, m)
    ensures Settled(e.board, After(e, m), m.position, m.player.color, CaptureSet(e, m))
  {
    CapturedCells(e, m);
    var b := Placed(e, m);
    var n := After(e, m);
    assert n.At(m.position) == b.At(m.position) == m.player.color;
    forall q | q in CaptureSet(e, m)
      ensures e.board.InBounds(q) && e.board.At(q) == Other(m.player.color) && n.At(q) == Empty
    {
    }
    forall q | e.board.InBounds(q) && q != m.position && q !in CaptureSet(e, m)
      ensures n.At(q) == e.board.At(q)
    {
      assert n.At(q) == b.At(q);
    }
  }

  /** Captures take whole groups: every captured stone's group is captured with
      it and had no liberty; conversely every liberty-less opponent group next to
      the new stone is captured. */
  lemma CapturesWholeGroups(e: Engine, m: Move)
    requires MayPlace(e, m)
    ensures var b := Placed(e, m); var opp := Other(m.player.color);
      forall q :: q in CaptureSet(e, m) ==>
        Component(b, opp, q) <= CaptureSet(e, m) && !HasLiberty(b, Component(b, opp, q))
    ensures var b := Placed(e, m); var opp := Other(m.player.color);
      forall n :: b.InBounds(n) && Adjacent(m.position, n) && b.At(n) == opp && !HasLiberty(b, Component(b, opp, n)) ==>
        Component(b, opp, n) <= CaptureSet(e, m)
  {
    var b := Placed(e, m);
    var opp := Other(m.player.color);
    var ns := Neighbors(b, m.position);
    DeadGroupsMembers(b, opp, ns);
    forall q | q in CaptureSet(e, m)
      ensures Component(b, opp, q) <= CaptureSet(e, m) && !HasLiberty(b, Component(b, opp, q))
    {
      var i :| 0 <= i < |ns| && q in DeadAt(b, opp, ns[i]);
      ComponentSymmetric(b, opp, ns[i], q);
    }
    forall n | b.InBounds(n) && Adjacent(m.position, n) && b.At(n) == opp && !HasLiberty(b, Component(b, opp, n))
      ensures Component(b, opp, n) <= CaptureSet(e, m)
    {
      var i :| 0 <= i < |ns| && ns[i] == n;
      assert DeadAt(b, opp, ns[i]) == Component(b, opp, n);
    }
  }

  lemma {:induction false} DeadGroupsConcat(b: Board, opp: StoneColor, a: seq<Position>, c: seq<Position>)
    ensures DeadGroups(b, opp, a + c) == DeadGroups(b, opp, a) + DeadGroups(b, opp, c)
    decreases |c|
  {
    if c == [] {
      assert a + c == a;
    } else {
      var c' := c[..|c| - 1];
      assert (a + c)[..|a + c| - 1] == a + c';
      DeadGroupsConcat(b, opp, a, c');
    }
  }

  lemma KeptDead(b: Board, opp: StoneColor, q: Position)
    ensures DeadGroups(b, opp, KeepInBounds(b, q)) == DeadAt(b, opp, q)
  {
    if !IsOutOfBounds(b, q) {
      assert KeepInBounds(b, q)[..0] == [];
    }
  }

  lemma DeadGroupsFour(b: Board, opp: StoneColor, k0: seq<Position>, k1: seq<Position>, k2: seq<Position>, k3: seq<Position>)
    ensures DeadGroups(b, opp, k0 + (k1 + (k2 + k3)))
      == DeadGroups(b, opp, k0) + DeadGroups(b, opp, k1) + DeadGroups(b, opp, k2) + DeadGroups(b, opp, k3)
  {
    DeadGroupsConcat(b, opp, k2, k3);
    DeadGroupsConcat(b, opp, k1, k2 + k3);
    DeadGroupsConcat(b, opp, k0, k1 + (k2 + k3));
  }

  /** The captured stones are exactly the liberty-less opponent groups through
      the four orthogonal neighbours of the new stone; a neighbour off the board
      contributes nothing. */
  lemma CaptureFromFourSides(e: Engine, m: Move)
    ensures var b := Placed(e, m); var opp := Other(m.player.color); var p := m.position;
      CaptureSet(e, m) == DeadAt(b, opp, Position(p.col, p.row - 1)) + DeadAt(b, opp, Position(p.col, p.row + 1))
                        + DeadAt(b, opp, Position(p.col - 1, p.row)) + DeadAt(b, opp, Position(p.col + 1, p.row))
  {
    var b := Placed(e, m);
    var opp := Other(m.player.color);
    var p := m.position;
    var k0 := KeepInBounds(b, Position(p.col, p.row - 1));
    var k1 := KeepInBounds(b, Position(p.col, p.row + 1));
    var k2 := KeepInBounds(b, Position(p.col - 1, p.row));
    var k3 := KeepInBounds(b, Position(p.col + 1, p.row));
    assert Neighbors(b, p) == k0 + (k1 + (k2 + k3));
    DeadGroupsFour(b, opp, k0, k1, k2, k3);
    KeptDead(b, opp, Position(p.col, p.row - 1));
    KeptDead(b, opp, Position(p.col, p.row + 1));
    KeptDead(b, opp, Position(p.col - 1, p.row));
    KeptDead(b, opp, Position(p.col + 1, p.row));
  }

  /** After an accepted move the new stone's group has a liberty: either it had
      one already, or a captured neighbour left an empty cell beside the stone. */
  lemma AcceptedMoveHasLiberty(e: Engine, m: Move)
    requires MayPlace(e, m) && !Suicide(e, m)
    ensures var n := After(e, m);
      HasLiberty(n, Component(n, m.player.color, m.position))
  {
    var n := After(e, m);
    var color := m.player.color;
    CapturedCells(e, m);
    ComponentBasics(n, color, m.position);
    if CaptureSet(e, m) == {} {
      NoCaptureKeepsPlacement(e, m);
    } else {
      var b := Placed(e, m);
      var opp := Other(color);
      var ns := Neighbors(b, m.position);
      DeadGroupsMembers(b, opp, ns);
      var q :| q in CaptureSet(e, m);
      var i :| 0 <= i < |ns| && q in DeadAt(b, opp, ns[i]);
      ComponentBasics(b, opp, ns[i]);
      assert ns[i] in CaptureSet(e, m);
      assert m.position in Component(n, color, m.position) && n.InBounds(ns[i])
        && Adjacent(m.position, ns[i]) && n.At(ns[i]) == Empty;
    }
  }

  /* ---------- pass and resign ---------- */

  /** `pass`: only the current player may pass; the ko state is cleared, and a
      second consecutive pass starts negotiation instead of flipping the turn. */
  function Pass(e: Engine, player: GamePlayer): (s: Step)
    ensures e.current != Some(player) ==> s == Step(e, Error(OpponentsTurnError))
    ensures e.current == Some(player) ==>
      && s.engine.snapshot == None && !s.engine.singleCapture
      && s.engine.board == e.board
      && s.engine.blackCaptures == e.blackCaptures && s.engine.whiteCaptures == e.whiteCaptures
      && s.engine.end == e.end
    ensures e.current == Some(player) && e.lastMoveWasPass ==>
      && s.result == NegotiationStart()
      && s.engine.phase == Negotiation && s.engine.marks == map[] && s.engine.done == {}
      && s.engine.current == e.current && s.engine.lastMoveWasPass
      && s.engine.(snapshot := e.snapshot, singleCapture := e.singleCapture,
                   phase := e.phase, marks := e.marks, done := e.done) == e
    ensures e.current == Some(player) && !e.lastMoveWasPass ==>
      && s.result == PassNext()
      && s.engine.phase == e.phase && s.engine.lastMoveWasPass
      && s.engine.current == (if e.current == BlackSeat(e) then WhiteSeat(e) else BlackSeat(e))
      && s.engine.(snapshot := e.snapshot, singleCapture := e.singleCapture,
                   lastMoveWasPass := e.lastMoveWasPass, current := e.current) == e
  {
    if e.current != Some(player) then Step(e, Error(OpponentsTurnError))
    else
      var e1 := e.(singleCapture := false, snapshot := None);
      if e.lastMoveWasPass then Step(StartNegotiation(e1), NegotiationStart())
      else Step(ChangePlayers(e1.(lastMoveWasPass := true)), PassNext())
  }

  /** Two passes in a row by two distinct seated players start negotiation. */
  lemma DoublePassStartsNegotiation(e: Engine)
    requires e.seats.Seated? && e.seats.black != e.seats.white
    requires e.current == BlackSeat(e) && !e.lastMoveWasPass
    ensures var s1 := Pass(e, e.seats.black);
      var s2 := Pass(s1.engine, e.seats.white);
      && s1.result == PassNext()
      && s2.result == NegotiationStart() && s2.engine.phase == Negotiation
  {
  }

  /** `resign`: either seated player may resign at any time; the opponent wins
      and the game ends with nobody to move. An unknown player is an error. */
  function Resign(e: Engine, player: GamePlayer): (r: Result<Step>)
    ensures r.Failure? <==> GetOpponentPlayer(e, player).Failure?
    ensures r.Failure? ==> r.error == UnknownPlayerError
    ensures r.Success? ==>
      && r.value.result == MoveResults.Resign(player, GetOpponentPlayer(e, player).value)
      && r.value.engine.end && r.value.engine.current == None
      && r.value.engine.(end := e.end, current := e.current) == e
  {
    var winner :- GetOpponentPlayer(e, player);
    Success(Step(e.(current := None, end := true), MoveResults.Resign(player, winner)))
  }

  /** After a resignation no move and no pass is accepted. */
  lemma NothingAfterResign(e: Engine, player: GamePlayer, m: Move, other: GamePlayer)
    requires Resign(e, player).Success?
    ensures var n := Resign(e, player).value.engine;
      && ApplyMove(n, m) == Step(n, Error(GameEndedError))
      && Pass(n, other) == Step(n, Error(OpponentsTurnError))
  {
  }
}
