/** BoardService.java: neighbourhood, breadth-first flood fill with a shared
    visited set, stone groups, empty regions, group liberties and the colours
    bordering a region. */
module BoardService {
  import opened Wrappers
  import opened Seqs
  import opened StoneColors
  import opened Positions
  import opened Boards

  /* ---------- neighbours ---------- */

  /** Rank of `q` in the source's fixed neighbour order: row-1, row+1, col-1, col+1. */
  function Direction(p: Position, q: Position): nat {
    if q == Position(p.col, p.row - 1) then 0
    else if q == Position(p.col, p.row + 1) then 1
    else if q == Position(p.col - 1, p.row) then 2
    else if q == Position(p.col + 1, p.row) then 3
    else 4
  }

  function KeepInBounds(b: Board, q: Position): seq<Position> {
    if IsOutOfBounds(b, q) then [] else [q]
  }

  /** `getNeighbors`: exactly the in-bounds orthogonal neighbours, in the fixed order. */
  function Neighbors(b: Board, p: Position): (r: seq<Position>)
    ensures forall q :: q in r <==> b.InBounds(q) && Adjacent(p, q)
    ensures |r| <= 4
    ensures forall i, j :: 0 <= i < j < |r| ==> Direction(p, r[i]) < Direction(p, r[j])
    ensures NoDup(r)
  {
    var right := KeepInBounds(b, Position(p.col + 1, p.row));
    var left := KeepInBounds(b, Position(p.col - 1, p.row)) + right;
    var down := KeepInBounds(b, Position(p.col, p.row + 1)) + left;
    var r := KeepInBounds(b, Position(p.col, p.row - 1)) + down;
    KeepOrdered(b, p, Position(p.col + 1, p.row), [], 3);
    KeepOrdered(b, p, Position(p.col - 1, p.row), right, 2);
    KeepOrdered(b, p, Position(p.col, p.row + 1), left, 1);
    KeepOrdered(b, p, Position(p.col, p.row - 1), down, 0);
    NeighborMembers(b, p);
    r
  }

  /** Exactly the in-bounds orthogonal neighbours survive the bounds filter. */
  lemma NeighborMembers(b: Board, p: Position)
    ensures forall q :: q in NeighborList(b, p) <==> b.InBounds(q) && Adjacent(p, q)
  {
    forall q
      ensures q in NeighborList(b, p) <==> b.InBounds(q) && Adjacent(p, q)
    {
      NeighborMember(b, p, q);
    }
  }

  lemma NeighborMember(b: Board, p: Position, q: Position)
    ensures q in NeighborList(b, p) <==> b.InBounds(q) && Adjacent(p, q)
  {
    AdjacentCases(p, q);
    var up, down := Position(p.col, p.row - 1), Position(p.col, p.row + 1);
    var left, right := Position(p.col - 1, p.row), Position(p.col + 1, p.row);
    assert q in NeighborList(b, p) <==> (q == up || q == down || q == left || q == right) && b.InBounds(q);
  }

  /** The four bounds-filtered directions in the source's order. */
  function NeighborList(b: Board, p: Position): seq<Position> {
    KeepInBounds(b, Position(p.col, p.row - 1)) + (KeepInBounds(b, Position(p.col, p.row + 1))
    + (KeepInBounds(b, Position(p.col - 1, p.row)) + KeepInBounds(b, Position(p.col + 1, p.row))))
  }

  /** Neighbours listed in strictly increasing direction. */
  predicate DirectionSorted(p: Position, r: seq<Position>) {
    forall i, j :: 0 <= i < j < |r| ==> Direction(p, r[i]) < Direction(p, r[j])
  }

  /** Putting the neighbour of direction `k` in front of later directions keeps the order. */
  lemma KeepOrdered(b: Board, p: Position, q: Position, rest: seq<Position>, k: nat)
    requires Direction(p, q) == k && DirectionSorted(p, rest)
    requires forall x :: x in rest ==> Direction(p, x) > k
    requires |rest| <= 3 - k
    ensures DirectionSorted(p, KeepInBounds(b, q) + rest)
    ensures forall x :: x in KeepInBounds(b, q) + rest ==> Direction(p, x) >= k
    ensures |KeepInBounds(b, q) + rest| <= 4 - k
  {
    var r := KeepInBounds(b, q) + rest;
    if !IsOutOfBounds(b, q) {
      forall i, j | 0 <= i < j < |r|
        ensures Direction(p, r[i]) < Direction(p, r[j])
      {
        assert r[j] == rest[j - 1];
        if i > 0 {
          assert r[i] == rest[i - 1];
        }
      }
    } else {
      assert r == rest;
    }
  }

  /* ---------- liberties ---------- */

  /** Reference definition: the distinct empty cells adjacent to some member of `s`. */
  ghost function LibertiesOf(b: Board, s: set<Position>): set<Position> {
    set q | q in b.Cells() && b.At(q) == Empty && exists x :: x in s && Adjacent(x, q)
  }

  ghost predicate HasLiberty(b: Board, s: set<Position>) {
    exists x, y :: x in s && b.InBounds(y) && Adjacent(x, y) && b.At(y) == Empty
  }

  lemma LibertiesEmptyIff(b: Board, s: set<Position>)
    ensures LibertiesOf(b, s) == {} <==> !HasLiberty(b, s)
  {
    if HasLiberty(b, s) {
      var x, y :| x in s && b.InBounds(y) && Adjacent(x, y) && b.At(y) == Empty;
      assert y in LibertiesOf(b, s);
    }
  }

  /** The empty neighbours of one cell, as the inner loop of `getGroupLiberties` collects them. */
  function EmptyNeighbors(b: Board, p: Position): (r: set<Position>)
    ensures forall q :: q in r <==> b.InBounds(q) && Adjacent(p, q) && b.At(q) == Empty
  {
    set q | q in Neighbors(b, p) && IsEmpty(b, q)
  }

  function LibertySet(b: Board, group: seq<Position>): (r: set<Position>)
    ensures r == LibertiesOf(b, Elems(group))
  {
    if group == [] then {}
    else
      var rest := LibertySet(b, group[1..]);
      assert Elems(group) == {group[0]} + Elems(group[1..]);
      rest + EmptyNeighbors(b, group[0])
  }

  /** `getGroupLiberties`: the number of distinct liberties of the listed stones;
      a liberty shared by two members counts once. */
  function GroupLiberties(b: Board, group: seq<Position>): (r: nat)
    ensures r == |LibertiesOf(b, Elems(group))|
    ensures r == 0 <==> !HasLiberty(b, Elems(group))
  {
    LibertiesEmptyIff(b, Elems(group));
    |LibertySet(b, group)|
  }

  function CountEmpty(b: Board, ns: seq<Position>): (r: nat)
    requires forall q :: q in ns ==> b.InBounds(q)
    requires NoDup(ns)
    ensures r == |set q | q in ns && b.At(q) == Empty|
    ensures r <= |ns|
  {
    if ns == [] then 0
    else
      var rest := CountEmpty(b, ns[1..]);
      var tail := set q | q in ns[1..] && b.At(q) == Empty;
      assert ns[0] !in ns[1..];
      if b.At(ns[0]) == Empty then
        assert (set q | q in ns && b.At(q) == Empty) == tail + {ns[0]};
        rest + 1
      else
        assert (set q | q in ns && b.At(q) == Empty) == tail;
        rest
  }

  /** `getLibertiesCount`: a single stone's liberties, the same number
      `getGroupLiberties` gives for the one-stone group. */
  function LibertiesCount(b: Board, p: Position): (r: nat)
    ensures r == |LibertiesOf(b, {p})|
    ensures r <= 4
  {
    var ns := Neighbors(b, p);
    assert (set q | q in ns && b.At(q) == Empty) == LibertiesOf(b, {p});
    CountEmpty(b, ns)
  }

  /* ---------- flood fill ---------- */

  datatype Fill = Fill(cells: seq<Position>, visited: set<Position>)

  /** `y` is an in-bounds orthogonal neighbour of `x` holding `color`. */
  predicate Joined(b: Board, color: StoneColor, x: Position, y: Position) {
    b.InBounds(y) && Adjacent(x, y) && b.At(y) == color
  }

  /** No cell of `c` has a `color` neighbour outside both `c` and `avoid`. */
  ghost predicate Closed(b: Board, color: StoneColor, avoid: set<Position>, c: set<Position>) {
    forall x, y :: x in c && y !in avoid && Joined(b, color, x, y) ==> y in c
  }

  /** `s` lies inside every closed set that contains `start`: it is reachable from it. */
  ghost predicate Minimal(b: Board, color: StoneColor, avoid: set<Position>, start: Position, s: set<Position>) {
    forall c :: Closed(b, color, avoid, c) && start in c ==> s <= c
  }

  /** What a successful fill from `start` returns: the `color` cells connected to
      `start` through cells outside `avoid`, each once, all now marked visited. */
  ghost predicate Grown(b: Board, color: StoneColor, avoid: set<Position>, start: Position, f: Fill) {
    && start in f.cells
    && NoDup(f.cells)
    && Elems(f.cells) !! avoid
    && (forall x :: x in f.cells ==> b.InBounds(x) && b.At(x) == color)
    && f.visited == avoid + Elems(f.cells)
    && Closed(b, color, avoid, Elems(f.cells))
    && Minimal(b, color, avoid, start, Elems(f.cells))
  }

  /** The contract of `floodFill`: nothing found and nothing marked when the start
      has another colour or was already visited; otherwise a grown region. */
  ghost predicate IsFloodFill(b: Board, start: Position, color: StoneColor, avoid: set<Position>, f: Fill)
    requires b.InBounds(start)
  {
    if b.At(start) != color || start in avoid then f == Fill([], avoid)
    else Grown(b, color, avoid, start, f)
  }

  /** The neighbour loop of `floodFill`: the not yet visited neighbours of `color`,
      in neighbour order, each marked visited as it is queued. */
  function Enqueue(b: Board, color: StoneColor, ns: seq<Position>, visited: set<Position>): (added: seq<Position>)
    requires forall q :: q in ns ==> b.InBounds(q)
    ensures NoDup(added)
    ensures forall q :: q in added ==> q in ns && b.At(q) == color && q !in visited
    ensures forall q :: q in ns && b.At(q) == color ==> q in visited || q in added
  {
    if ns == [] then []
    else
      var q := ns[0];
      if q !in visited && b.At(q) == color then [q] + Enqueue(b, color, ns[1..], visited + {q})
      else Enqueue(b, color, ns[1..], visited)
  }

  /** The state of the breadth-first loop: `group` holds the polled cells, `queue`
      the pending ones, and `visited` everything seen. */
  ghost predicate ExploreInv(b: Board, color: StoneColor, avoid: set<Position>, start: Position,
                             group: seq<Position>, queue: seq<Position>, visited: set<Position>)
  {
    && visited == avoid + Elems(group) + Elems(queue)
    && NoDup(group) && NoDup(queue) && Elems(group) !! Elems(queue)
    && Elems(group) !! avoid && Elems(queue) !! avoid
    && (forall x :: x in group ==> b.InBounds(x) && b.At(x) == color)
    && (forall x :: x in queue ==> b.InBounds(x) && b.At(x) == color)
    && (start in group || start in queue)
    && (forall x, y :: x in group && y !in avoid && Joined(b, color, x, y) ==> y in visited)
    && (forall c :: Closed(b, color, avoid, c) && start in c ==> Elems(group) <= c && Elems(queue) <= c)
  }

  lemma ShrinkUnvisited(u: set<Position>, v: set<Position>, a: set<Position>)
    requires a <= u && a !! v && a != {}
    ensures |u - (v + a)| < |u - v|
  {
    assert u - v == (u - (v + a)) + a;
    assert (u - (v + a)) !! a;
  }

  /** The bookkeeping half of one loop step: sets, duplicates and colours. */
  lemma ExploreStepSets(b: Board, color: StoneColor, avoid: set<Position>,
                        group: seq<Position>, queue: seq<Position>, visited: set<Position>,
                        added: seq<Position>)
    requires visited == avoid + Elems(group) + Elems(queue)
    requires NoDup(group) && NoDup(queue) && Elems(group) !! Elems(queue)
    requires Elems(group) !! avoid && Elems(queue) !! avoid
    requires queue != []
    requires NoDup(added)
    requires forall q :: q in added ==> q !in visited
    ensures visited + Elems(added) == avoid + Elems(group + [queue[0]]) + Elems(queue[1..] + added)
    ensures NoDup(group + [queue[0]]) && NoDup(queue[1..] + added)
    ensures Elems(group + [queue[0]]) !! Elems(queue[1..] + added)
    ensures Elems(group + [queue[0]]) !! avoid && Elems(queue[1..] + added) !! avoid
  {
    var x := queue[0];
    assert queue == [x] + queue[1..];
    assert Elems(queue) == {x} + Elems(queue[1..]);
    assert Elems(group + [x]) == Elems(group) + {x};
    assert Elems(queue[1..] + added) == Elems(queue[1..]) + Elems(added);
    assert x !in Elems(queue[1..]);
    NoDupConcat(group, [x]);
    NoDupConcat(queue[1..], added);
  }

  /** The closure half of one loop step: the polled cell's `color` neighbours are all seen. */
  lemma ExploreStepClosed(b: Board, color: StoneColor, avoid: set<Position>,
                          group: seq<Position>, x: Position, visited: set<Position>, added: seq<Position>)
    requires forall x', y :: x' in group && y !in avoid && Joined(b, color, x', y) ==> y in visited
    requires forall q :: q in Neighbors(b, x) && b.At(q) == color ==> q in visited || q in added
    ensures forall x', y :: x' in group + [x] && y !in avoid && Joined(b, color, x', y) ==> y in visited + Elems(added)
  {
    forall x', y | x' in group + [x] && y !in avoid && Joined(b, color, x', y)
      ensures y in visited + Elems(added)
    {
      if x' == x {
        assert y in Neighbors(b, x);
      } else {
        assert x' in group;
      }
    }
  }

  /** The minimality half of one loop step: a queued neighbour lies in every
      closed set that holds the polled cell. */
  lemma ExploreStepMinimal(b: Board, color: StoneColor, avoid: set<Position>, start: Position,
                           group: seq<Position>, queue: seq<Position>, visited: set<Position>,
                           added: seq<Position>)
    requires avoid <= visited
    requires queue != []
    requires forall q :: q in added ==> q in Neighbors(b, queue[0]) && b.At(q) == color && q !in visited
    requires forall c :: Closed(b, color, avoid, c) && start in c ==> Elems(group) <= c && Elems(queue) <= c
    ensures forall c :: Closed(b, color, avoid, c) && start in c ==>
              Elems(group + [queue[0]]) <= c && Elems(queue[1..] + added) <= c
  {
    var x := queue[0];
    forall c | Closed(b, color, avoid, c) && start in c
      ensures Elems(group + [x]) <= c && Elems(queue[1..] + added) <= c
    {
      assert x in Elems(queue);
      forall y | y in added
        ensures y in c
      {
        assert Joined(b, color, x, y);
      }
      assert Elems(group + [x]) == Elems(group) + {x};
      assert Elems(queue[1..] + added) == Elems(queue[1..]) + Elems(added);
      assert Elems(queue[1..]) <= Elems(queue);
    }
  }

  lemma {:induction false} ExploreStep(b: Board, color: StoneColor, avoid: set<Position>, start: Position,
                                       group: seq<Position>, queue: seq<Position>, visited: set<Position>,
                                       added: seq<Position>)
    requires ExploreInv(b, color, avoid, start, group, queue, visited)
    requires queue != []
    requires added == Enqueue(b, color, Neighbors(b, queue[0]), visited)
    ensures ExploreInv(b, color, avoid, start, group + [queue[0]], queue[1..] + added, visited + Elems(added))
    ensures added == [] ==> visited + Elems(added) == visited
    ensures added != [] ==> |b.Cells() - (visited + Elems(added))| < |b.Cells() - visited|
  {
    var x := queue[0];
    ExploreStepSets(b, color, avoid, group, queue, visited, added);
    ExploreStepClosed(b, color, avoid, group, x, visited, added);
    ExploreStepMinimal(b, color, avoid, start, group, queue, visited, added);
    ExploreStepMembers(b, color, start, group, queue, added);
    QueueingShrinks(b, visited, added);
  }

  /** Where the polled cell and the queued neighbours end up. */
  lemma ExploreStepMembers(b: Board, color: StoneColor, start: Position,
                           group: seq<Position>, queue: seq<Position>, added: seq<Position>)
    requires queue != []
    requires forall x :: x in group ==> b.InBounds(x) && b.At(x) == color
    requires forall x :: x in queue ==> b.InBounds(x) && b.At(x) == color
    requires forall x :: x in added ==> b.InBounds(x) && b.At(x) == color
    requires start in group || start in queue
    ensures forall y :: y in group + [queue[0]] ==> b.InBounds(y) && b.At(y) == color
    ensures forall y :: y in queue[1..] + added ==> b.InBounds(y) && b.At(y) == color
    ensures start in group + [queue[0]] || start in queue[1..] + added
  {
    assert queue == [queue[0]] + queue[1..];
    assert forall y :: y in group + [queue[0]] ==> y in group || y == queue[0];
    assert forall y :: y in queue[1..] + added ==> y in queue || y in added;
  }

  /** Queueing fresh in-bounds cells strictly shrinks the set of unvisited cells. */
  lemma QueueingShrinks(b: Board, visited: set<Position>, added: seq<Position>)
    requires forall q :: q in added ==> b.InBounds(q) && q !in visited
    ensures added != [] ==> |b.Cells() - (visited + Elems(added))| < |b.Cells() - visited|
  {
    if added != [] {
      assert added[0] in Elems(added);
      ShrinkUnvisited(b.Cells(), visited, Elems(added));
    }
  }

  function Explore(b: Board, color: StoneColor, avoid: set<Position>, start: Position,
                   group: seq<Position>, queue: seq<Position>, visited: set<Position>): (f: Fill)
    requires ExploreInv(b, color, avoid, start, group, queue, visited)
    ensures Grown(b, color, avoid, start, f)
    decreases |b.Cells() - visited|, |queue|
  {
    if queue == [] then
      Fill(group, visited)
    else
      var added := Enqueue(b, color, Neighbors(b, queue[0]), visited);
      ExploreStep(b, color, avoid, start, group, queue, visited, added);
      Explore(b, color, avoid, start, group + [queue[0]], queue[1..] + added, visited + Elems(added))
  }

  /** `floodFill` from an in-bounds start. */
  function FillFrom(b: Board, start: Position, color: StoneColor, visited: set<Position>): (f: Fill)
    requires b.InBounds(start)
    ensures IsFloodFill(b, start, color, visited, f)
  {
    if b.At(start) != color || start in visited then Fill([], visited)
    else Explore(b, color, visited, start, [], [start], visited + {start})
  }

  /** `floodFill`: reading the start cell throws outside the board. */
  function FloodFill(b: Board, start: Position, color: StoneColor, visited: set<Position>): (r: Result<Fill>)
    ensures r.Failure? <==> !b.InBounds(start)
    ensures r.Failure? ==> r.error == OutOfBoardError
    ensures r.Success? ==> b.InBounds(start) && IsFloodFill(b, start, color, visited, r.value)
  {
    if IsOutOfBounds(b, start) then Failure(OutOfBoardError) else Success(FillFrom(b, start, color, visited))
  }

  /** `getGroup`: the stone group through `start`; an empty start gives an empty
      list and leaves `visited` alone. */
  function GetGroup(b: Board, start: Position, visited: set<Position>): (r: Result<Fill>)
    ensures r.Failure? <==> !b.InBounds(start)
    ensures r.Success? && b.At(start) == Empty ==> r.value == Fill([], visited)
    ensures r.Success? && b.At(start) != Empty ==> IsFloodFill(b, start, b.At(start), visited, r.value)
  {
    var color :- GetStone(b, start);
    if color == Empty then Success(Fill([], visited)) else FloodFill(b, start, color, visited)
  }

  /** `getEmptyRegion`: the flood fill over EMPTY cells. */
  function GetEmptyRegion(b: Board, start: Position, visited: set<Position>): (r: Result<Fill>)
    ensures r.Failure? <==> !b.InBounds(start)
    ensures r.Success? ==> b.InBounds(start) && IsFloodFill(b, start, Empty, visited, r.value)
  {
    FloodFill(b, start, Empty, visited)
  }

  /* ---------- bordering colours ---------- */

  /** Reference definition: the stone colours found next to some cell of `s`. */
  ghost function BorderOf(b: Board, s: set<Position>): set<StoneColor> {
    (if Touches(b, s, Black) then {Black} else {}) + (if Touches(b, s, White) then {White} else {})
  }

  /** Some cell of `s` has an orthogonal neighbour holding `c`. */
  ghost predicate Touches(b: Board, s: set<Position>, c: StoneColor) {
    exists x, y :: x in s && b.InBounds(y) && Adjacent(x, y) && b.At(y) == c
  }

  function StoneNeighborColors(b: Board, p: Position): (r: set<StoneColor>)
    ensures forall c :: c in r <==> c != Empty && exists y :: b.InBounds(y) && Adjacent(p, y) && b.At(y) == c
  {
    var r := set q | q in Neighbors(b, p) && b.At(q) != Empty :: b.At(q);
    assert forall c, y :: b.InBounds(y) && Adjacent(p, y) && b.At(y) == c && c != Empty ==> y in Neighbors(b, p) && c in r;
    r
  }

  /** `getBorderingColors`: never EMPTY, and exactly the colours of the stones
      adjacent to the region. */
  function BorderingColors(b: Board, region: seq<Position>): (r: set<StoneColor>)
    ensures Empty !in r
    ensures r == BorderOf(b, Elems(region))
  {
    if region == [] then {}
    else
      var rest := BorderingColors(b, region[1..]);
      assert Elems(region) == {region[0]} + Elems(region[1..]);
      rest + StoneNeighborColors(b, region[0])
  }
}
