/** GameEngine.java: the state of one game and the operations on it that do not
    place stones. The mutable object becomes an immutable record; every operation
    returns the next record. */
module GameEngine {
  import opened Wrappers
  import opened Seqs
  import opened StoneColors
  import opened Positions
  import opened Players
  import opened Boards
  import opened BoardService
  import opened Components

  datatype Phase = Playing | Negotiation | Finished

  /** The two players, set together by `setPlayers`; both are null before that. */
  datatype Seats = Unseated | Seated(black: GamePlayer, white: GamePlayer)

  datatype Engine = Engine(
    board: Board,
    seats: Seats,
    current: Option<GamePlayer>,
    blackCaptures: int,
    whiteCaptures: int,
    snapshot: Option<Board>,      // the ko snapshot: the board before the previous accepted move
    singleCapture: bool,          // the previous accepted move captured exactly one stone
    lastMoveWasPass: bool,
    end: bool,
    phase: Phase,
    marks: map<GamePlayer, set<Position>>,
    done: set<GamePlayer>,
    negotiationSucceeded: bool)

  datatype ScoreResult = ScoreResult(blackScore: int, whiteScore: int, winner: Option<GamePlayer>)

  const UnknownPlayerError: string := "Nieznany gracz"

  function NewEngine(b: Board): (e: Engine)
    ensures e.board == b && e.seats == Unseated && e.current == None
    ensures e.blackCaptures == 0 && e.whiteCaptures == 0
    ensures e.snapshot == None && !e.singleCapture && !e.lastMoveWasPass && !e.end
    ensures e.phase == Playing && e.marks == map[] && e.done == {} && !e.negotiationSucceeded
  {
    Engine(b, Unseated, None, 0, 0, None, false, false, false, Playing, map[], {}, false)
  }

  function BlackSeat(e: Engine): Option<GamePlayer> {
    if e.seats.Seated? then Some(e.seats.black) else None
  }

  function WhiteSeat(e: Engine): Option<GamePlayer> {
    if e.seats.Seated? then Some(e.seats.white) else None
  }

  /** Black moves first; nothing but the seats and the turn changes. */
  function SetPlayers(e: Engine, black: GamePlayer, white: GamePlayer): (r: Engine)
    ensures BlackSeat(r) == Some(black) && WhiteSeat(r) == Some(white)
    ensures r.current == Some(black) && GetCurrentColor(r) == black.color
    ensures r.(seats := e.seats, current := e.current) == e
  {
    e.(seats := Seated(black, white), current := Some(black))
  }

  /** After Black comes White; after anyone else, including nobody, comes Black. */
  function ChangePlayers(e: Engine): (r: Engine)
    ensures r.current == BlackSeat(e) <==> e.current != BlackSeat(e) || BlackSeat(e) == WhiteSeat(e)
    ensures e.current == BlackSeat(e) ==> r.current == WhiteSeat(e)
    ensures r.(current := e.current) == e
  {
    e.(current := if e.current == BlackSeat(e) then WhiteSeat(e) else BlackSeat(e))
  }

  /** With two distinct seated players, the turn alternates between them and agrees
      with `GetOpponentPlayer`. */
  lemma ChangePlayersAlternates(e: Engine)
    requires e.seats.Seated? && e.seats.black != e.seats.white
    requires e.current == BlackSeat(e) || e.current == WhiteSeat(e)
    ensures ChangePlayers(e).current != e.current
    ensures ChangePlayers(e).current == Some(GetOpponentPlayer(e, e.current.value).value)
    ensures ChangePlayers(ChangePlayers(e)) == e
  {
  }

  /** A count goes to Black's tally for BLACK and to White's for any other colour;
      nothing else changes. */
  function UpdateCaptureCounts(e: Engine, color: StoneColor, count: int): (r: Engine)
    ensures r.blackCaptures + r.whiteCaptures == e.blackCaptures + e.whiteCaptures + count
    ensures color == Black ==> r.whiteCaptures == e.whiteCaptures
    ensures color != Black ==> r.blackCaptures == e.blackCaptures
    ensures r.(blackCaptures := e.blackCaptures, whiteCaptures := e.whiteCaptures) == e
  {
    if count == 0 then e
    else if color == Black then e.(blackCaptures := e.blackCaptures + count)
    else e.(whiteCaptures := e.whiteCaptures + count)
  }

  /** The other seat; anyone else is an error. */
  function GetOpponentPlayer(e: Engine, player: GamePlayer): (r: Result<GamePlayer>)
    ensures r.Success? <==> Some(player) == BlackSeat(e) || Some(player) == WhiteSeat(e)
    ensures r.Failure? ==> r.error == UnknownPlayerError
    ensures r.Success? && Some(player) == BlackSeat(e) ==> Some(r.value) == WhiteSeat(e)
    ensures r.Success? && Some(player) != BlackSeat(e) ==> Some(r.value) == BlackSeat(e)
  {
    match e.seats
    case Unseated => Failure(UnknownPlayerError)
    case Seated(black, white) =>
      if player == black then Success(white)
      else if player == white then Success(black)
      else Failure(UnknownPlayerError)
  }

  /** For two distinct players, the opponent's opponent is the player. */
  lemma OpponentInvolution(e: Engine, player: GamePlayer)
    requires e.seats.Seated? && e.seats.black != e.seats.white
    requires player == e.seats.black || player == e.seats.white
    ensures GetOpponentPlayer(e, player).Success?
    ensures GetOpponentPlayer(e, player).value != player
    ensures GetOpponentPlayer(e, GetOpponentPlayer(e, player).value) == Success(player)
  {
  }

  /** EMPTY when nobody is to move. */
  function GetCurrentColor(e: Engine): (c: StoneColor)
    ensures e.current.Some? ==> c == e.current.value.color
    ensures e.current.None? ==> c == Empty
  {
    if e.current.Some? then e.current.value.color else Empty
  }

  /* ---------- dead-stone negotiation ---------- */

  /** `getOrDefault(player, emptySet)`. */
  function MarksOf(e: Engine, player: GamePlayer): set<Position> {
    if player in e.marks then e.marks[player] else {}
  }

  function StartNegotiation(e: Engine): (r: Engine)
    ensures r.phase == Negotiation
    ensures forall p :: MarksOf(r, p) == {} && p !in r.done
    ensures r.(phase := e.phase, marks := e.marks, done := e.done) == e
  {
    e.(phase := Negotiation, marks := map[], done := {})
  }

  /** Adds one position to the player's marks; other players' marks are untouched. */
  function MarkNegotiationPosition(e: Engine, player: GamePlayer, pos: Position): (r: Engine)
    ensures MarksOf(r, player) == MarksOf(e, player) + {pos}
    ensures forall q :: q != player ==> MarksOf(r, q) == MarksOf(e, q)
    ensures r.(marks := e.marks) == e
  {
    e.(marks := e.marks[player := MarksOf(e, player) + {pos}])
  }

  /** The marked cells that hold a stone of colour `c`. */
  function MarkedStones(b: Board, agreed: set<Position>, c: StoneColor): (s: set<Position>)
    ensures forall p :: p in s <==> p in agreed && b.InBounds(p) && b.At(p) == c
  {
    set p | p in agreed && b.InBounds(p) && b.At(p) == c
  }

  /** On consensus the marked stones leave the board, each credited to the player of
      the other colour, and the game ends; otherwise play resumes. */
  function ApplyNegotiationResults(e: Engine): (r: Engine)
    requires e.seats.Seated?
    ensures var agreed := MarksOf(e, e.seats.black);
      agreed == MarksOf(e, e.seats.white) ==>
        && r.board == ClearCells(e.board, agreed)
        && r.blackCaptures == e.blackCaptures + |MarkedStones(e.board, agreed, White)|
        && r.whiteCaptures == e.whiteCaptures + |MarkedStones(e.board, agreed, Black)|
        && r.end && r.phase == Finished && r.negotiationSucceeded
        && r.(board := e.board, blackCaptures := e.blackCaptures, whiteCaptures := e.whiteCaptures,
              end := e.end, phase := e.phase, negotiationSucceeded := e.negotiationSucceeded) == e
    ensures MarksOf(e, e.seats.black) != MarksOf(e, e.seats.white) ==>
        && r.phase == Playing && r.marks == map[] && r.done == {}
        && !r.lastMoveWasPass && !r.negotiationSucceeded
        && r.(phase := e.phase, marks := e.marks, done := e.done, lastMoveWasPass := e.lastMoveWasPass,
              negotiationSucceeded := e.negotiationSucceeded) == e
  {
    var blackMarks := MarksOf(e, e.seats.black);
    var whiteMarks := MarksOf(e, e.seats.white);
    if blackMarks == whiteMarks then
      var byBlack := |MarkedStones(e.board, blackMarks, White)|;
      var byWhite := |MarkedStones(e.board, blackMarks, Black)|;
      var e1 := e.(board := ClearCells(e.board, blackMarks));
      var e2 := if byBlack > 0 then UpdateCaptureCounts(e1, Black, byBlack) else e1;
      var e3 := if byWhite > 0 then UpdateCaptureCounts(e2, White, byWhite) else e2;
      e3.(end := true, phase := Finished, negotiationSucceeded := true)
    else
      e.(negotiationSucceeded := false, phase := Playing, marks := map[], done := {}, lastMoveWasPass := false)
  }

  /** The stones on the board. */
  ghost function Stones(b: Board): set<Position> {
    set p | p in b.Cells() && b.At(p) != Empty
  }

  /** Clearing a set of cells removes exactly its stones from the board. */
  lemma StonesAfterClear(b: Board, agreed: set<Position>)
    ensures Stones(ClearCells(b, agreed))
              == Stones(b) - (MarkedStones(b, agreed, White) + MarkedStones(b, agreed, Black))
  {
  }

  /** Consensus conserves stones: every stone that leaves the board is added to
      exactly one tally. */
  lemma NegotiationConservesStones(e: Engine)
    requires e.seats.Seated?
    requires MarksOf(e, e.seats.black) == MarksOf(e, e.seats.white)
    ensures var r := ApplyNegotiationResults(e);
      |Stones(e.board)| == |Stones(r.board)| + (r.blackCaptures - e.blackCaptures) + (r.whiteCaptures - e.whiteCaptures)
  {
    var agreed := MarksOf(e, e.seats.black);
    var w := MarkedStones(e.board, agreed, White);
    var k := MarkedStones(e.board, agreed, Black);
    StonesAfterClear(e.board, agreed);
    assert w + k <= Stones(e.board);
    CardSplit(Stones(e.board), w + k);
    assert w !! k;
  }

  /** Records that `player` is done; once both seats are done the results apply. */
  function FinishNegotiationFor(e: Engine, player: GamePlayer): (r: (Engine, bool))
    ensures r.1 <==> e.seats.Seated? && e.seats.black in e.done + {player} && e.seats.white in e.done + {player}
    ensures !r.1 ==> r.0 == e.(done := e.done + {player})
    ensures r.1 ==> r.0 == ApplyNegotiationResults(e.(done := e.done + {player}))
  {
    var e1 := e.(done := e.done + {player});
    if e1.seats.Seated? && e1.seats.black in e1.done && e1.seats.white in e1.done then
      (ApplyNegotiationResults(e1), true)
    else
      (e1, false)
  }

  /* ---------- scoring ---------- */

  /** Reference definition: the empty cells whose empty region touches stones of
      `color` and of no other colour. */
  ghost function Territory(b: Board, color: StoneColor): set<Position> {
    set p | p in ColorCells(b, Empty) && BorderOf(b, Component(b, Empty, p)) == {color}
  }

  /** The part of `v` that `Territory(b, color)` contains. */
  ghost function OwnedIn(b: Board, v: set<Position>, color: StoneColor): set<Position> {
    set p | p in v && BorderOf(b, Component(b, Empty, p)) == {color}
  }

  /** Row-major order: `p` comes before cell (col c, row r). */
  predicate ScannedBefore(p: Position, r: int, c: int) {
    p.row < r || (p.row == r && p.col < c)
  }

  /** A colour set without EMPTY has size one and contains BLACK exactly when it is {BLACK}. */
  lemma SingleColor(s: set<StoneColor>)
    requires Empty !in s
    ensures |s| == 1 && Black in s <==> s == {Black}
    ensures |s| == 1 && Black !in s && White in s <==> s == {White}
    ensures |s| == 1 ==> Black in s || White in s
  {
    forall c | c in s ensures c == Black || c == White { }
    if Black in s && White in s {
      assert s == {Black, White};
    } else if Black in s {
      assert s == {Black};
    } else if White in s {
      assert s == {White};
    } else {
      assert s == {};
    }
  }

  /** Taking a subset out of a finite set leaves the difference of the sizes. */
  lemma CardSplit<T>(a: set<T>, s: set<T>)
    requires s <= a
    ensures |a| == |a - s| + |s|
  {
    assert a == (a - s) + s;
  }

  /** Adding a whole empty component to the visited set adds it to the owned part
      exactly when the component is bordered by `color` alone. */
  lemma OwnedGrow(b: Board, visited: set<Position>, comp: set<Position>, color: StoneColor)
    requires visited !! comp
    requires forall q :: q in comp ==> Component(b, Empty, q) == comp
    ensures OwnedIn(b, visited + comp, color)
              == OwnedIn(b, visited, color) + if BorderOf(b, comp) == {color} then comp else {}
  {
  }

  /** One region of the scan: the fill is the whole empty component, and the
      owned part of the visited set grows by exactly that component when it is
      bordered by `color` alone. */
  lemma ScanStep(b: Board, visited: set<Position>, p: Position, f: Fill, color: StoneColor)
    requires b.InBounds(p) && b.At(p) == Empty && p !in visited
    requires Sealed(b, Empty, visited)
    requires Grown(b, Empty, visited, p, f)
    ensures Elems(f.cells) == Component(b, Empty, p)
    ensures Sealed(b, Empty, f.visited)
    ensures |OwnedIn(b, f.visited, color)| == |OwnedIn(b, visited, color)|
              + if BorderOf(b, Elems(f.cells)) == {color} then |f.cells| else 0
  {
    FillIsComponent(b, Empty, visited, p, f);
    SealedGrow(b, Empty, visited, p, f);
    var comp := Component(b, Empty, p);
    NoDupCard(f.cells);
    forall q | q in comp
      ensures Component(b, Empty, q) == comp
    {
      ComponentSymmetric(b, Empty, p, q);
    }
    OwnedGrow(b, visited, comp, color);
    assert OwnedIn(b, visited, color) <= visited;
  }

  /** What the scan knows before cell (col c, row r): the visited set holds whole
      empty regions, covers every empty cell scanned so far, and the counters are
      the sizes of its parts owned by each colour. */
  ghost predicate ScanInv(b: Board, r: nat, c: nat, visited: set<Position>, bt: nat, wt: nat) {
    && r <= b.size && c <= b.size
    && Sealed(b, Empty, visited)
    && visited <= ColorCells(b, Empty)
    && (forall p :: p in ColorCells(b, Empty) && ScannedBefore(p, r, c) ==> p in visited)
    && bt == |OwnedIn(b, visited, Black)| && wt == |OwnedIn(b, visited, White)|
  }

  /** The region credit of `calculateScores`: a region bordered by one colour
      only adds its size to that colour's territory. */
  function Credit(colors: set<StoneColor>, n: nat, bt: nat, wt: nat): (res: (nat, nat))
    requires Empty !in colors
    ensures colors == {Black} ==> res == (bt + n, wt)
    ensures colors == {White} ==> res == (bt, wt + n)
    ensures colors != {Black} && colors != {White} ==> res == (bt, wt)
  {
    SingleColor(colors);
    if |colors| == 1 && Black in colors then (bt + n, wt)
    else if |colors| == 1 && White in colors then (bt, wt + n)
    else (bt, wt)
  }

  lemma ScanDone(b: Board, c: nat, visited: set<Position>, bt: nat, wt: nat)
    requires ScanInv(b, b.size, c, visited, bt, wt)
    ensures bt == |Territory(b, Black)| && wt == |Territory(b, White)|
  {
    assert visited == ColorCells(b, Empty);
    assert OwnedIn(b, visited, Black) == Territory(b, Black);
    assert OwnedIn(b, visited, White) == Territory(b, White);
  }

  lemma ScanNextRow(b: Board, r: nat, visited: set<Position>, bt: nat, wt: nat)
    requires r < b.size && ScanInv(b, r, b.size, visited, bt, wt)
    ensures ScanInv(b, r + 1, 0, visited, bt, wt)
  {
  }

  lemma ScanSkip(b: Board, r: nat, c: nat, visited: set<Position>, bt: nat, wt: nat)
    requires r < b.size && c < b.size && ScanInv(b, r, c, visited, bt, wt)
    requires !(IsEmpty(b, Position(c, r)) && Position(c, r) !in visited)
    ensures ScanInv(b, r, c + 1, visited, bt, wt)
  {
  }

  lemma ScanRegion(b: Board, r: nat, c: nat, visited: set<Position>, bt: nat, wt: nat, f: Fill)
    requires r < b.size && c < b.size && ScanInv(b, r, c, visited, bt, wt)
    requires b.At(Position(c, r)) == Empty && Position(c, r) !in visited
    requires f == FillFrom(b, Position(c, r), Empty, visited)
    ensures var k := Credit(BorderingColors(b, f.cells), |f.cells|, bt, wt);
      ScanInv(b, r, c + 1, f.visited, k.0, k.1)
  {
    var p := Position(c, r);
    assert Grown(b, Empty, visited, p, f);
    RegionCredit(b, visited, p, f, bt, wt);
    assert f.visited <= ColorCells(b, Empty);
    forall q | q in ColorCells(b, Empty) && ScannedBefore(q, r, c + 1)
      ensures q in f.visited
    {
      if q != p {
        assert ScannedBefore(q, r, c);
      }
    }
  }

  /** The credit for one region keeps the counters equal to the owned parts of
      the grown visited set. */
  lemma RegionCredit(b: Board, visited: set<Position>, p: Position, f: Fill, bt: nat, wt: nat)
    requires b.InBounds(p) && b.At(p) == Empty && p !in visited
    requires Sealed(b, Empty, visited) && Grown(b, Empty, visited, p, f)
    requires bt == |OwnedIn(b, visited, Black)| && wt == |OwnedIn(b, visited, White)|
    ensures Sealed(b, Empty, f.visited)
    ensures var k := Credit(BorderingColors(b, f.cells), |f.cells|, bt, wt);
      k.0 == |OwnedIn(b, f.visited, Black)| && k.1 == |OwnedIn(b, f.visited, White)|
  {
    ScanStep(b, visited, p, f, Black);
    ScanStep(b, visited, p, f, White);
    var colors := BorderingColors(b, f.cells);
    assert colors == BorderOf(b, Elems(f.cells));
  }

  /** The row-major scan of `calculateScores`, one cell per call, returning the
      territory sizes of Black and White. */
  function ScanTerritory(b: Board, r: nat, c: nat, visited: set<Position>, bt: nat, wt: nat): (res: (nat, nat))
    requires ScanInv(b, r, c, visited, bt, wt)
    ensures res.0 == |Territory(b, Black)| && res.1 == |Territory(b, White)|
    decreases b.size - r, b.size - c
  {
    if r == b.size then
      ScanDone(b, c, visited, bt, wt);
      (bt, wt)
    else if c == b.size then
      ScanNextRow(b, r, visited, bt, wt);
      ScanTerritory(b, r + 1, 0, visited, bt, wt)
    else
      var p := Position(c, r);
      if IsEmpty(b, p) && p !in visited then
        var region := FillFrom(b, p, Empty, visited);
        var colors := BorderingColors(b, region.cells);
        var counts := Credit(colors, |region.cells|, bt, wt);
        ScanRegion(b, r, c, visited, bt, wt, region);
        ScanTerritory(b, r, c + 1, region.visited, counts.0, counts.1)
      else
        ScanSkip(b, r, c, visited, bt, wt);
        ScanTerritory(b, r, c + 1, visited, bt, wt)
  }

  /** Each score is the territory bordered by that colour alone plus its tally;
      the higher score wins and a tie has no winner. */
  function CalculateScores(e: Engine): (s: ScoreResult)
    ensures s.blackScore == |Territory(e.board, Black)| + e.blackCaptures
    ensures s.whiteScore == |Territory(e.board, White)| + e.whiteCaptures
    ensures s.blackScore == s.whiteScore ==> s.winner == None
    ensures s.blackScore > s.whiteScore ==> s.winner == BlackSeat(e)
    ensures s.blackScore < s.whiteScore ==> s.winner == WhiteSeat(e)
  {
    SealedEmpty(e.board, Empty);
    assert ScanInv(e.board, 0, 0, {}, 0, 0);
    var (bt, wt) := ScanTerritory(e.board, 0, 0, {}, 0, 0);
    var blackScore := bt + e.blackCaptures;
    var whiteScore := wt + e.whiteCaptures;
    var winner := if blackScore == whiteScore then None
                  else if blackScore > whiteScore then BlackSeat(e) else WhiteSeat(e);
    ScoreResult(blackScore, whiteScore, winner)
  }

  /** No empty cell counts for both players, so the two territories together
      never exceed the number of empty cells. */
  lemma TerritoriesDisjoint(b: Board)
    ensures Territory(b, Black) !! Territory(b, White)
    ensures |Territory(b, Black)| + |Territory(b, White)| <= |ColorCells(b, Empty)|
  {
    var u := Territory(b, Black) + Territory(b, White);
    assert u <= ColorCells(b, Empty);
    CardSplit(ColorCells(b, Empty), u);
  }
}
