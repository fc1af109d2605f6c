/** Connected groups and regions, defined independently of the breadth-first
    search: the component of `p` is the intersection of all sets that contain
    `p` and are closed under same-colour adjacency. The lemmas connect it to the
    flood fill of BoardService.java:77-106 when the shared visited set is a
    union of whole components. */
module Components {
  import opened Seqs
  import opened StoneColors
  import opened Positions
  import opened Boards
  import opened BoardService

  ghost function Component(b: Board, color: StoneColor, p: Position): set<Position> {
    set q | q in b.Cells() && forall c :: Closed(b, color, {}, c) && p in c ==> q in c
  }

  /** A visited set that never separates a `color` cell from its `color` neighbours. */
  ghost predicate Sealed(b: Board, color: StoneColor, v: set<Position>) {
    forall y, x :: y in v && b.InBounds(y) && b.At(y) == color && Joined(b, color, y, x) ==> x in v
  }

  ghost function ColorCells(b: Board, color: StoneColor): (s: set<Position>)
    ensures forall q :: q in s <==> b.InBounds(q) && b.At(q) == color
  {
    set q | q in b.Cells() && b.At(q) == color
  }

  lemma ComponentBasics(b: Board, color: StoneColor, p: Position)
    requires b.InBounds(p) && b.At(p) == color
    ensures p in Component(b, color, p)
    ensures Closed(b, color, {}, Component(b, color, p))
    ensures forall q :: q in Component(b, color, p) ==> b.InBounds(q) && b.At(q) == color
  {
    var comp := Component(b, color, p);
    forall x, y | x in comp && Joined(b, color, x, y)
      ensures y in comp
    {
      forall c | Closed(b, color, {}, c) && p in c
        ensures y in c
      {
        assert x in c;
      }
    }
    assert Closed(b, color, {}, ColorCells(b, color));
  }

  lemma ComponentMinimal(b: Board, color: StoneColor, p: Position, c: set<Position>)
    requires Closed(b, color, {}, c) && p in c
    ensures Component(b, color, p) <= c
  {
  }

  /** Same-colour adjacency is symmetric. */
  lemma JoinedSymmetric(b: Board, color: StoneColor, x: Position, y: Position)
    requires b.InBounds(x) && b.At(x) == color && Joined(b, color, x, y)
    ensures Joined(b, color, y, x)
  {
    AdjacentSymmetric(x, y);
  }

  /** Membership in a component is symmetric, so components partition the cells of a colour. */
  lemma {:induction false} ComponentSymmetric(b: Board, color: StoneColor, p: Position, q: Position)
    requires b.InBounds(p) && b.At(p) == color
    requires q in Component(b, color, p)
    ensures Component(b, color, q) == Component(b, color, p)
  {
    ComponentBasics(b, color, p);
    var cp := Component(b, color, p);
    assert b.InBounds(q) && b.At(q) == color;
    ComponentBasics(b, color, q);
    var cq := Component(b, color, q);
    ComponentMinimal(b, color, q, cp);
    // p is in cq: otherwise cp - cq would be a closed set around p that misses q.
    var d := cp - cq;
    forall x, y | x in d && Joined(b, color, x, y)
      ensures y in d
    {
      JoinedSymmetric(b, color, x, y);
    }
    assert Closed(b, color, {}, d);
    assert q in cq && q !in d;
    assert p in cq;
    ComponentMinimal(b, color, p, cq);
  }

  /** With a sealed visited set, the flood fill finds the whole component. */
  lemma FillIsComponent(b: Board, color: StoneColor, v: set<Position>, p: Position, f: Fill)
    requires b.InBounds(p) && b.At(p) == color && p !in v
    requires Sealed(b, color, v)
    requires Grown(b, color, v, p, f)
    ensures Elems(f.cells) == Component(b, color, p)
  {
    var r := Elems(f.cells);
    forall x, y | x in r && Joined(b, color, x, y)
      ensures y in r
    {
      JoinedSymmetric(b, color, x, y);
    }
    assert Closed(b, color, {}, r);
    ComponentMinimal(b, color, p, r);
    forall q | q in r
      ensures q in Component(b, color, p)
    {
      forall c | Closed(b, color, {}, c) && p in c
        ensures q in c
      {
        assert Closed(b, color, v, c);
      }
    }
  }

  /** Adding a grown region to a sealed visited set keeps it sealed. */
  lemma SealedGrow(b: Board, color: StoneColor, v: set<Position>, p: Position, f: Fill)
    requires Sealed(b, color, v)
    requires Grown(b, color, v, p, f)
    ensures Sealed(b, color, f.visited)
  {
  }

  lemma SealedEmpty(b: Board, color: StoneColor)
    ensures Sealed(b, color, {})
  {
  }
}
