/** Connected components of a grid of cells, by paths. */
module Connectivity {

  datatype Cell = Cell(row: int, col: int)

  /** The cells of a grid that are on. */
  datatype Mask = Mask(rows: nat, cols: nat, on: set<Cell>) {
    predicate Valid() {
      forall c :: c in on ==> 0 <= c.row < rows && 0 <= c.col < cols
    }
  }

  function Neighbours(c: Cell): seq<Cell> {
    [Cell(c.row - 1, c.col), Cell(c.row + 1, c.col), Cell(c.row, c.col - 1), Cell(c.row, c.col + 1)]
  }

  predicate Adjacent(a: Cell, b: Cell) {
    b in Neighbours(a)
  }

  lemma AdjacentSymmetric(a: Cell, b: Cell)
    ensures Adjacent(a, b) ==> Adjacent(b, a)
  {}

  predicate Path(m: Mask, p: seq<Cell>) {
    && p != []
    && (forall i :: 0 <= i < |p| ==> p[i] in m.on)
    && (forall i, j :: 0 <= i < |p| && 0 <= j < |p| && j == i + 1 ==> Adjacent(p[i], p[j]))
  }

  predicate PathBetween(m: Mask, p: seq<Cell>, a: Cell, b: Cell) {
    Path(m, p) && p[0] == a && p[|p| - 1] == b
  }

  ghost predicate Linked(m: Mask, a: Cell, b: Cell) {
    exists p :: PathBetween(m, p, a, b)
  }

  /** Everything that can be reached from a cell. */
  ghost function Component(m: Mask, a: Cell): set<Cell> {
    set b | b in m.on && Linked(m, a, b)
  }

  /** No way out of `s`. */
  predicate Closed(m: Mask, s: set<Cell>) {
    forall a, b :: a in s && b in m.on && Adjacent(a, b) ==> b in s
  }

  lemma LinkedSelf(m: Mask, a: Cell)
    requires a in m.on
    ensures Linked(m, a, a)
  {
    assert PathBetween(m, [a], a, a);
  }

  lemma LinkedStep(m: Mask, a: Cell, b: Cell, c: Cell)
    requires Linked(m, a, b) && c in m.on && Adjacent(b, c)
    ensures Linked(m, a, c)
  {
    var p :| PathBetween(m, p, a, b);
    assert PathBetween(m, p + [c], a, c);
  }

  lemma {:induction false} StaysInside(m: Mask, s: set<Cell>, p: seq<Cell>)
    requires Closed(m, s) && Path(m, p) && p[0] in s
    ensures p[|p| - 1] in s
    decreases |p|
  {
    if |p| > 1 {
      var q := p[..|p| - 1];
      assert Path(m, q);
      StaysInside(m, s, q);
      assert Adjacent(p[|p| - 2], p[|p| - 1]);
    }
  }

  /** A closed set holds the component of each of its cells. */
  lemma ClosedHolds(m: Mask, s: set<Cell>, a: Cell)
    requires Closed(m, s) && a in s
    ensures Component(m, a) <= s
  {
    forall b | b in Component(m, a)
      ensures b in s
    {
      var p :| PathBetween(m, p, a, b);
      StaysInside(m, s, p);
    }
  }

  lemma {:induction false} LinkedBack(m: Mask, p: seq<Cell>)
    requires Path(m, p)
    ensures Linked(m, p[|p| - 1], p[0])
    decreases |p|
  {
    if |p| == 1 {
      LinkedSelf(m, p[0]);
    } else {
      var q := p[1..];
      assert Path(m, q);
      LinkedBack(m, q);
      AdjacentSymmetric(p[0], p[1]);
      LinkedStep(m, p[|p| - 1], p[1], p[0]);
    }
  }

  lemma ComponentClosed(m: Mask, a: Cell)
    ensures Closed(m, Component(m, a))
  {
    forall b, c | b in Component(m, a) && c in m.on && Adjacent(b, c)
      ensures c in Component(m, a)
    {
      LinkedStep(m, a, b, c);
    }
  }

  /** Components are classes: every cell of one has the same component. */
  lemma SameComponent(m: Mask, a: Cell, b: Cell)
    requires a in m.on && b in Component(m, a)
    ensures Component(m, b) == Component(m, a)
  {
    ComponentClosed(m, a);
    ClosedHolds(m, Component(m, a), b);
    var p :| PathBetween(m, p, a, b);
    LinkedBack(m, p);
    ComponentClosed(m, b);
    ClosedHolds(m, Component(m, b), a);
  }

  /** A closed set that the component of `a` covers, and that holds `a`, is the component. */
  lemma ComponentIs(m: Mask, s: set<Cell>, a: Cell)
    requires a in s && Closed(m, s) && s <= Component(m, a)
    ensures s == Component(m, a)
  {
    ClosedHolds(m, s, a);
  }

  /** The neighbours of a cell are the four at distance one. */
  lemma FourNeighbours(a: Cell, b: Cell)
    ensures Adjacent(a, b) <==> (a.row == b.row && (a.col - b.col == 1 || b.col - a.col == 1))
                                || (a.col == b.col && (a.row - b.row == 1 || b.row - a.row == 1))
  {}
}
