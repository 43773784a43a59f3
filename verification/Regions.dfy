/** Grouping the cells of a mask into regions (firemex/detect/stub.py, _grid_regions). */
module Regions {
  import opened Connectivity
  import opened Geometry

  // ---- the flood -----------------------------------------------------------

  function AsSet(s: seq<Cell>): set<Cell> {
    set c | c in s
  }

  lemma {:induction false} DistinctSize(s: seq<Cell>)
    requires Distinct(s)
    ensures |AsSet(s)| == |s|
  {
    if s != [] {
      var n := |s| - 1;
      DistinctSize(s[..n]);
      assert s == s[..n] + [s[n]];
      assert AsSet(s) == AsSet(s[..n]) + {s[n]};
    }
  }

  lemma SubsetSize(a: set<Cell>, b: set<Cell>)
    requires a <= b
    ensures |a| <= |b|
    decreases |b|
  {
    if a != {} {
      var x :| x in a;
      SubsetSize(a - {x}, b - {x});
    }
  }

  /** `seen` is true at the cells of `marked` and nowhere else. */
  predicate Marks(m: Mask, seen: array2<bool>, marked: set<Cell>)
    reads seen
  {
    && seen.Length0 == m.rows && seen.Length1 == m.cols
    && forall r, c :: 0 <= r < m.rows && 0 <= c < m.cols ==> (seen[r, c] <==> Cell(r, c) in marked)
  }

  /** The state of a flood: `found` in the order of discovery, none of it seen before, and the
      first `n` done with all their neighbours. */
  ghost predicate Flooding(m: Mask, start: Cell, before: set<Cell>, found: seq<Cell>, n: nat) {
    && start in found && Distinct(found) && n <= |found|
    && (forall c :: c in found ==> c in m.on && c !in before && Linked(m, start, c))
    && (forall i, b :: 0 <= i < n && b in m.on && Adjacent(found[i], b) ==> b in found || b in before)
  }

  lemma FloodFits(m: Mask, start: Cell, before: set<Cell>, found: seq<Cell>, n: nat)
    requires Flooding(m, start, before, found, n)
    ensures |found| <= |m.on|
  {
    DistinctSize(found);
    SubsetSize(AsSet(found), m.on);
  }

  lemma FloodDone(m: Mask, start: Cell, before: set<Cell>, found: seq<Cell>)
    requires Flooding(m, start, before, found, |found|) && Closed(m, before)
    ensures AsSet(found) == Component(m, start) && |found| == |Component(m, start)|
  {
    forall a, b | a in AsSet(found) && b in m.on && Adjacent(a, b)
      ensures b in AsSet(found)
    {
      AdjacentSymmetric(a, b);
      var i :| 0 <= i < |found| && found[i] == a;
    }
    ComponentIs(m, AsSet(found), start);
    DistinctSize(found);
  }

  lemma FloodAdds(m: Mask, start: Cell, before: set<Cell>, found: seq<Cell>, n: nat, cell: Cell, next: Cell)
    requires Flooding(m, start, before, found, n) && cell in found
    requires next in m.on && next !in before && next !in found && Adjacent(cell, next)
    ensures Flooding(m, start, before, found + [next], n)
  {
    LinkedStep(m, start, cell, next);
    assert start in found + [next];
  }

  lemma FloodAdvances(m: Mask, start: Cell, before: set<Cell>, found: seq<Cell>, n: nat)
    requires Flooding(m, start, before, found, n) && n < |found|
    requires forall b :: b in Neighbours(found[n]) && b in m.on ==> b in found || b in before
    ensures Flooding(m, start, before, found, n + 1)
  {}

  lemma FloodStarts(m: Mask, start: Cell, before: set<Cell>)
    requires start in m.on && start !in before
    ensures Flooding(m, start, before, [start], 0)
  {
    LinkedSelf(m, start);
  }

  /** The unseen neighbours of `cell`, in order, each marked as it is found. */
  method Spread(m: Mask, seen: array2<bool>, cell: Cell, ghost marked: set<Cell>) returns (more: seq<Cell>)
    requires m.Valid() && Marks(m, seen, marked)
    modifies seen
    ensures Marks(m, seen, marked + AsSet(more))
    ensures Distinct(more)
    ensures forall b :: b in more ==> b in Neighbours(cell) && b in m.on && b !in marked
    ensures forall b :: b in Neighbours(cell) && b in m.on ==> b in more || b in marked
  {
    var ns := Neighbours(cell);
    more := [];
    for k := 0 to |ns|
      invariant Marks(m, seen, marked + AsSet(more))
      invariant Distinct(more)
      invariant forall b :: b in more ==> b in ns && b in m.on && b !in marked
      invariant forall i :: 0 <= i < k && ns[i] in m.on ==> ns[i] in more || ns[i] in marked
    {
      var next := ns[k];
      if 0 <= next.row < m.rows && 0 <= next.col < m.cols && next in m.on && !seen[next.row, next.col] {
        seen[next.row, next.col] := true;
        more := more + [next];
      }
    }
  }

  lemma {:induction false} FloodAddsAll(m: Mask, start: Cell, before: set<Cell>, found: seq<Cell>, n: nat, cell: Cell,
                                        more: seq<Cell>)
    requires Flooding(m, start, before, found, n) && cell in found && Distinct(more)
    requires forall b :: b in more ==> b in Neighbours(cell) && b in m.on && b !in before && b !in found
    ensures Flooding(m, start, before, found + more, n)
  {
    if more == [] {
      assert found + more == found;
    } else {
      var k := |more| - 1;
      FloodAddsAll(m, start, before, found, n, cell, more[..k]);
      assert cell in found + more[..k];
      FloodAdds(m, start, before, found + more[..k], n, cell, more[k]);
      assert found + more[..k] + [more[k]] == found + more;
    }
  }

  /** One round: the cell at the head of the queue is done, its new neighbours are queued. */
  lemma FloodRound(m: Mask, start: Cell, before: set<Cell>, cells: seq<Cell>, queue: seq<Cell>, more: seq<Cell>)
    requires queue != [] && Flooding(m, start, before, cells + queue, |cells|)
    requires var marked := before + AsSet(cells + queue);
             && Distinct(more)
             && (forall b :: b in more ==> b in Neighbours(queue[0]) && b in m.on && b !in marked)
             && (forall b :: b in Neighbours(queue[0]) && b in m.on ==> b in more || b in marked)
    ensures Flooding(m, start, before, (cells + [queue[0]]) + (queue[1..] + more), |cells| + 1)
    ensures before + AsSet((cells + [queue[0]]) + (queue[1..] + more)) == before + AsSet(cells + queue) + AsSet(more)
    ensures |cells| < |m.on|
  {
    var found := cells + queue;
    FloodFits(m, start, before, found, |cells|);
    assert (cells + [queue[0]]) + (queue[1..] + more) == found + more;
    assert found[|cells|] == queue[0];
    FloodAddsAll(m, start, before, found, |cells|, queue[0], more);
    FloodAdvances(m, start, before, found + more, |cells|);
  }

  /** Breadth-first search from one unseen cell. */
  method Flood(m: Mask, seen: array2<bool>, start: Cell, ghost before: set<Cell>) returns (cells: seq<Cell>)
    requires m.Valid() && start in m.on && start !in before && Closed(m, before) && Marks(m, seen, before)
    modifies seen
    ensures Marks(m, seen, before + Component(m, start))
    ensures AsSet(cells) == Component(m, start) && |cells| == |Component(m, start)|
  {
    var queue := [start];
    seen[start.row, start.col] := true;
    cells := [];
    FloodStarts(m, start, before);
    assert cells + queue == [start];
    while |queue| > 0
      invariant Flooding(m, start, before, cells + queue, |cells|)
      invariant Marks(m, seen, before + AsSet(cells + queue))
      decreases |m.on| - |cells|
    {
      var cell := queue[0];
      var more := Spread(m, seen, cell, before + AsSet(cells + queue));
      FloodRound(m, start, before, cells, queue, more);
      cells, queue := cells + [cell], queue[1..] + more;
    }
    assert cells + queue == cells;
    FloodDone(m, start, before, cells);
  }

  // ---- regions -------------------------------------------------------------

  /** Rows r0 to r1 and columns c0 to c1, the ends not included. */
  datatype Region = Region(r0: int, c0: int, r1: int, c1: int, fill: real)

  function Area(height: int, width: int): int {
    height * width
  }

  function Size(g: Region): int {
    Area(g.r1 - g.r0, g.c1 - g.c0)
  }

  function Fill(count: nat, size: int): real {
    count as real / (if size > 1 then size else 1) as real
  }

  predicate Covers(g: Region, c: Cell) {
    g.r0 <= c.row < g.r1 && g.c0 <= c.col < g.c1
  }

  /** The tight bounding box of a set of cells, and how much of it they take. */
  ghost predicate Describes(g: Region, s: set<Cell>) {
    && (forall c :: c in s ==> Covers(g, c))
    && (exists c :: c in s && c.row == g.r0) && (exists c :: c in s && c.row == g.r1 - 1)
    && (exists c :: c in s && c.col == g.c0) && (exists c :: c in s && c.col == g.c1 - 1)
    && Size(g) > 0
    && g.fill == Fill(|s|, Size(g))
  }

  /** A set of cells has one description. */
  lemma DescriptionUnique(g: Region, h: Region, s: set<Cell>)
    requires Describes(g, s) && Describes(h, s)
    ensures g == h
  {
    var a :| a in s && a.row == g.r0;
    var b :| b in s && b.row == g.r1 - 1;
    var c :| c in s && c.col == g.c0;
    var d :| d in s && d.col == g.c1 - 1;
    var e :| e in s && e.row == h.r0;
    var f :| f in s && f.row == h.r1 - 1;
    var i :| i in s && i.col == h.c0;
    var j :| j in s && j.col == h.c1 - 1;
    assert Covers(h, a) && Covers(h, b) && Covers(h, c) && Covers(h, d);
    assert Covers(g, e) && Covers(g, f) && Covers(g, i) && Covers(g, j);
  }

  function Least(values: seq<int>): (r: int)
    requires values != []
    ensures r in values && forall v :: v in values ==> r <= v
  {
    var n := |values| - 1;
    if n == 0 then values[0]
    else
      var front := Least(values[..n]);
      assert values == values[..n] + [values[n]];
      if values[n] < front then values[n] else front
  }

  function Greatest(values: seq<int>): (r: int)
    requires values != []
    ensures r in values && forall v :: v in values ==> v <= r
  {
    var n := |values| - 1;
    if n == 0 then values[0]
    else
      var front := Greatest(values[..n]);
      assert values == values[..n] + [values[n]];
      if values[n] > front then values[n] else front
  }

  function RowsOf(cells: seq<Cell>): (r: seq<int>)
    ensures |r| == |cells|
    ensures forall v :: v in r <==> exists c :: c in cells && c.row == v
  {
    if cells == [] then []
    else
      var n := |cells| - 1;
      assert cells == cells[..n] + [cells[n]];
      RowsOf(cells[..n]) + [cells[n].row]
  }

  function ColsOf(cells: seq<Cell>): (r: seq<int>)
    ensures |r| == |cells|
    ensures forall v :: v in r <==> exists c :: c in cells && c.col == v
  {
    if cells == [] then []
    else
      var n := |cells| - 1;
      assert cells == cells[..n] + [cells[n]];
      ColsOf(cells[..n]) + [cells[n].col]
  }

  function RegionOf(cells: seq<Cell>): Region
    requires cells != []
  {
    var r0, r1 := Least(RowsOf(cells)), Greatest(RowsOf(cells)) + 1;
    var c0, c1 := Least(ColsOf(cells)), Greatest(ColsOf(cells)) + 1;
    Region(r0, c0, r1, c1, Fill(|cells|, Area(r1 - r0, c1 - c0)))
  }

  lemma PositiveArea(h: int, w: int)
    requires h > 0 && w > 0
    ensures Area(h, w) > 0
  {}

  lemma RegionDescribes(cells: seq<Cell>)
    requires cells != [] && |cells| == |AsSet(cells)|
    ensures Describes(RegionOf(cells), AsSet(cells))
  {
    var g := RegionOf(cells);
    var rows, cols := RowsOf(cells), ColsOf(cells);
    forall c | c in AsSet(cells)
      ensures Covers(g, c)
    {
      assert c.row in rows && c.col in cols;
    }
    assert cells[0] in AsSet(cells);
    PositiveArea(g.r1 - g.r0, g.c1 - g.c0);
  }

  // ---- sorting -------------------------------------------------------------

  /** Puts a region after all whose key is at least as large. */
  function Insert(s: seq<Region>, x: Region, key: Region -> int): seq<Region> {
    if s == [] || key(s[|s| - 1]) >= key(x) then s + [x]
    else Insert(s[..|s| - 1], x, key) + [s[|s| - 1]]
  }

  function Sort(s: seq<Region>, key: Region -> int): seq<Region> {
    if s == [] then [] else Insert(Sort(s[..|s| - 1], key), s[|s| - 1], key)
  }

  predicate Descending(s: seq<Region>, key: Region -> int) {
    forall i, j :: 0 <= i < j < |s| ==> key(s[i]) >= key(s[j])
  }

  /** The regions of one key, in their order. */
  function WithKey(s: seq<Region>, key: Region -> int, k: int): seq<Region> {
    if s == [] then []
    else WithKey(s[..|s| - 1], key, k) + (if key(s[|s| - 1]) == k then [s[|s| - 1]] else [])
  }

  lemma {:induction false} InsertContents(s: seq<Region>, x: Region, key: Region -> int)
    ensures multiset(Insert(s, x, key)) == multiset(s) + multiset{x}
  {
    if s != [] && key(s[|s| - 1]) < key(x) {
      var n := |s| - 1;
      InsertContents(s[..n], x, key);
      assert s == s[..n] + [s[n]];
    }
  }

  lemma {:induction false} InsertOrder(s: seq<Region>, x: Region, key: Region -> int)
    requires Descending(s, key)
    ensures Descending(Insert(s, x, key), key)
    ensures forall i :: 0 <= i < |Insert(s, x, key)| ==> Insert(s, x, key)[i] in s || Insert(s, x, key)[i] == x
  {
    if s != [] && key(s[|s| - 1]) < key(x) {
      InsertOrder(s[..|s| - 1], x, key);
    }
  }

  lemma {:induction false} InsertStable(s: seq<Region>, x: Region, key: Region -> int, k: int)
    requires Descending(s, key)
    ensures WithKey(Insert(s, x, key), key, k) == WithKey(s, key, k) + (if key(x) == k then [x] else [])
  {
    var t := Insert(s, x, key);
    if s == [] || key(s[|s| - 1]) >= key(x) {
      assert t[..|s|] == s;
    } else {
      var n := |s| - 1;
      InsertStable(s[..n], x, key, k);
      assert t[..|t| - 1] == Insert(s[..n], x, key);
      if key(x) == k {
        assert key(s[n]) != k;
      }
    }
  }

  lemma {:induction false} SortContents(s: seq<Region>, key: Region -> int)
    ensures multiset(Sort(s, key)) == multiset(s)
  {
    if s != [] {
      var n := |s| - 1;
      SortContents(s[..n], key);
      assert s == s[..n] + [s[n]];
      InsertContents(Sort(s[..n], key), s[n], key);
    }
  }

  lemma {:induction false} SortOrder(s: seq<Region>, key: Region -> int)
    ensures Descending(Sort(s, key), key)
  {
    if s != [] {
      var n := |s| - 1;
      SortOrder(s[..n], key);
      InsertOrder(Sort(s[..n], key), s[n], key);
    }
  }

  /** Regions of the same key stay in their order. */
  lemma {:induction false} SortStable(s: seq<Region>, key: Region -> int, k: int)
    ensures WithKey(Sort(s, key), key, k) == WithKey(s, key, k)
  {
    if s != [] {
      var n := |s| - 1;
      SortStable(s[..n], key, k);
      SortOrder(s[..n], key);
      InsertStable(Sort(s[..n], key), s[n], key, k);
    }
  }

  // ---- the whole grid ------------------------------------------------------

  predicate Before(a: Cell, b: Cell) {
    a.row < b.row || (a.row == b.row && a.col < b.col)
  }

  /** The first cell of its component in scanning order. */
  ghost predicate First(m: Mask, a: Cell) {
    a in m.on && forall x :: x in Component(m, a) ==> !Before(x, a)
  }

  /** The regions of large enough components, each listed at its first cell, in order. */
  ghost predicate Listed(m: Mask, minCells: int, regions: seq<Region>, firsts: seq<Cell>) {
    && |regions| == |firsts|
    && (forall i :: 0 <= i < |firsts| ==>
          && First(m, firsts[i])
          && |Component(m, firsts[i])| >= minCells
          && Describes(regions[i], Component(m, firsts[i])))
    && (forall i, j :: 0 <= i < j < |firsts| ==> Before(firsts[i], firsts[j]))
  }

  /** Every large enough component that meets `marked` is listed. */
  ghost predicate Complete(m: Mask, minCells: int, firsts: seq<Cell>, marked: set<Cell>) {
    forall a :: a in marked && |Component(m, a)| >= minCells ==> exists f :: f in firsts && a in Component(m, f)
  }

  /** All that the scan has passed is marked, and what is marked is whole components. */
  ghost predicate Scanned(m: Mask, marked: set<Cell>, firsts: seq<Cell>, limit: Cell) {
    && marked <= m.on && Closed(m, marked)
    && (forall c :: c in m.on && Before(c, limit) ==> c in marked)
    && (forall f :: f in firsts ==> Before(f, limit))
  }

  /** An unmarked cell that the scan comes to is the first of its component. */
  lemma ScanFirst(m: Mask, marked: set<Cell>, firsts: seq<Cell>, at: Cell)
    requires Scanned(m, marked, firsts, at) && at in m.on && at !in marked
    ensures First(m, at)
  {
    forall x | x in Component(m, at)
      ensures !Before(x, at)
    {
      if x in marked {
        SameComponent(m, at, x);
        LinkedSelf(m, at);
        ClosedHolds(m, marked, x);
      }
    }
  }

  lemma ScanClosed(m: Mask, marked: set<Cell>, at: Cell)
    requires Closed(m, marked)
    ensures Closed(m, marked + Component(m, at))
  {
    ComponentClosed(m, at);
  }

  lemma ListMore(m: Mask, minCells: int, regions: seq<Region>, firsts: seq<Cell>, g: Region, at: Cell)
    requires Listed(m, minCells, regions, firsts)
    requires First(m, at) && |Component(m, at)| >= minCells && Describes(g, Component(m, at))
    requires forall f :: f in firsts ==> Before(f, at)
    ensures Listed(m, minCells, regions + [g], firsts + [at])
  {}

  lemma CompleteMore(m: Mask, minCells: int, firsts: seq<Cell>, marked: set<Cell>, at: Cell)
    requires Complete(m, minCells, firsts, marked) && at in m.on
    ensures |Component(m, at)| >= minCells ==> Complete(m, minCells, firsts + [at], marked + Component(m, at))
    ensures |Component(m, at)| < minCells ==> Complete(m, minCells, firsts, marked + Component(m, at))
  {
    var all, more := Component(m, at), firsts + [at];
    assert at in more;
    assert forall f :: f in firsts ==> f in more;
    forall a | a in all
      ensures Component(m, a) == all
    {
      SameComponent(m, at, a);
    }
  }

  /** The state of the scan when it comes to `limit`. */
  ghost predicate Scanning(m: Mask, minCells: int, marked: set<Cell>, regions: seq<Region>, firsts: seq<Cell>,
                           limit: Cell)
  {
    && Scanned(m, marked, firsts, limit)
    && Listed(m, minCells, regions, firsts)
    && Complete(m, minCells, firsts, marked)
  }

  lemma ScanPasses(m: Mask, marked: set<Cell>, firsts: seq<Cell>, at: Cell)
    requires Scanned(m, marked, firsts, at)
    requires at in m.on ==> at in marked
    ensures Scanned(m, marked, firsts, Cell(at.row, at.col + 1))
  {}

  lemma NextRow(m: Mask, marked: set<Cell>, firsts: seq<Cell>, row: int)
    requires m.Valid() && Scanned(m, marked, firsts, Cell(row, m.cols))
    ensures Scanned(m, marked, firsts, Cell(row + 1, 0))
  {}

  lemma ScannedMore(m: Mask, marked: set<Cell>, more: set<Cell>, firsts: seq<Cell>, at: Cell)
    requires Scanned(m, marked, firsts, at)
    requires at in more && more <= m.on && Closed(m, marked + more)
    ensures Scanned(m, marked + more, firsts, Cell(at.row, at.col + 1))
    ensures Scanned(m, marked + more, firsts + [at], Cell(at.row, at.col + 1))
  {}

  lemma ScanGrows(m: Mask, minCells: int, marked: set<Cell>, regions: seq<Region>, firsts: seq<Cell>, at: Cell,
                  cells: seq<Cell>)
    requires Scanning(m, minCells, marked, regions, firsts, at) && at in m.on && at !in marked
    requires AsSet(cells) == Component(m, at) && |cells| == |Component(m, at)|
    ensures cells != []
    ensures |cells| >= minCells ==>
              Scanning(m, minCells, marked + Component(m, at), regions + [RegionOf(cells)], firsts + [at],
                       Cell(at.row, at.col + 1))
    ensures |cells| < minCells ==>
              Scanning(m, minCells, marked + Component(m, at), regions, firsts, Cell(at.row, at.col + 1))
  {
    LinkedSelf(m, at);
    assert at in AsSet(cells);
    ScanFirst(m, marked, firsts, at);
    ScanClosed(m, marked, at);
    ScannedMore(m, marked, AsSet(cells), firsts, at);
    CompleteMore(m, minCells, firsts, marked, at);
    RegionDescribes(cells);
    if |cells| >= minCells {
      ListMore(m, minCells, regions, firsts, RegionOf(cells), at);
    }
  }

  /** One cell of the scan: an unseen cell that is on starts a flood. */
  method ScanCell(m: Mask, seen: array2<bool>, minCells: int, at: Cell, regions: seq<Region>,
                  ghost marked: set<Cell>, ghost firsts: seq<Cell>)
    returns (more: seq<Region>, ghost marked': set<Cell>, ghost firsts': seq<Cell>)
    requires m.Valid() && Marks(m, seen, marked) && 0 <= at.row < m.rows && 0 <= at.col < m.cols
    requires Scanning(m, minCells, marked, regions, firsts, at)
    modifies seen
    ensures Marks(m, seen, marked')
    ensures Scanning(m, minCells, marked', more, firsts', Cell(at.row, at.col + 1))
  {
    more, marked', firsts' := regions, marked, firsts;
    if at !in m.on || seen[at.row, at.col] {
      ScanPasses(m, marked, firsts, at);
      return;
    }
    var cells := Flood(m, seen, at, marked);
    marked' := marked + Component(m, at);
    ScanGrows(m, minCells, marked, regions, firsts, at, cells);
    if |cells| < minCells {
      return;
    }
    more, firsts' := regions + [RegionOf(cells)], firsts + [at];
  }

  method ScanRow(m: Mask, seen: array2<bool>, minCells: int, r: nat, regions: seq<Region>,
                 ghost marked: set<Cell>, ghost firsts: seq<Cell>)
    returns (more: seq<Region>, ghost marked': set<Cell>, ghost firsts': seq<Cell>)
    requires m.Valid() && Marks(m, seen, marked) && r < m.rows
    requires Scanning(m, minCells, marked, regions, firsts, Cell(r, 0))
    modifies seen
    ensures Marks(m, seen, marked')
    ensures Scanning(m, minCells, marked', more, firsts', Cell(r + 1, 0))
  {
    more, marked', firsts' := regions, marked, firsts;
    for c := 0 to m.cols
      invariant Marks(m, seen, marked')
      invariant Scanning(m, minCells, marked', more, firsts', Cell(r, c))
    {
      more, marked', firsts' := ScanCell(m, seen, minCells, Cell(r, c), more, marked', firsts');
    }
    NextRow(m, marked', firsts', r);
  }

  lemma ScanStarts(m: Mask, minCells: int)
    requires m.Valid()
    ensures Scanning(m, minCells, {}, [], [], Cell(0, 0))
  {}

  /** The regions of the mask in the order of the scan. */
  ghost predicate Listing(m: Mask, minCells: int, found: seq<Region>, firsts: seq<Cell>) {
    Listed(m, minCells, found, firsts) && Complete(m, minCells, firsts, m.on)
  }

  lemma ScanEnds(m: Mask, minCells: int, marked: set<Cell>, regions: seq<Region>, firsts: seq<Cell>)
    requires m.Valid() && Scanning(m, minCells, marked, regions, firsts, Cell(m.rows, 0))
    ensures Listing(m, minCells, regions, firsts)
  {}

  /** The regions of the mask: one for each maximal connected component of at least
      `minCells` cells and nothing else, by descending box size, components with boxes of the
      same size in the order of their first cells. */
  method GridRegions(m: Mask, minCells: int)
    returns (regions: seq<Region>)
    requires m.Valid()
    ensures exists found, firsts :: Listing(m, minCells, found, firsts) && regions == Sort(found, Size)
  {
    var seen := new bool[m.rows, m.cols]((_, _) => false);
    var list: seq<Region> := [];
    ghost var marked: set<Cell> := {};
    ghost var firsts: seq<Cell> := [];
    ScanStarts(m, minCells);
    for r := 0 to m.rows
      invariant Marks(m, seen, marked)
      invariant Scanning(m, minCells, marked, list, firsts, Cell(r, 0))
    {
      list, marked, firsts := ScanRow(m, seen, minCells, r, list, marked, firsts);
    }
    ScanEnds(m, minCells, marked, list, firsts);
    regions := Sort(list, Size);
    assert Listing(m, minCells, list, firsts);
  }

  /** No component is listed twice. */
  lemma ListedOnce(m: Mask, minCells: int, found: seq<Region>, firsts: seq<Cell>, i: nat, j: nat)
    requires Listed(m, minCells, found, firsts) && i < j < |firsts|
    ensures Component(m, firsts[i]) != Component(m, firsts[j])
  {
    LinkedSelf(m, firsts[i]);
    assert firsts[i] in Component(m, firsts[i]);
    assert Before(firsts[i], firsts[j]);
  }

  /** A component is listed exactly if it has enough cells. */
  lemma ListedExactlyWhen(m: Mask, minCells: int, found: seq<Region>, firsts: seq<Cell>, a: Cell)
    requires Listing(m, minCells, found, firsts) && a in m.on
    ensures |Component(m, a)| >= minCells <==>
            exists f :: f in firsts && Component(m, f) == Component(m, a)
  {
    if |Component(m, a)| >= minCells {
      var f :| f in firsts && a in Component(m, f);
      SameComponent(m, f, a);
    }
  }

  /** A component has one first cell. */
  lemma FirstUnique(m: Mask, a: Cell, b: Cell)
    requires First(m, a) && First(m, b) && Component(m, a) == Component(m, b)
    ensures a == b
  {
    LinkedSelf(m, a);
    LinkedSelf(m, b);
    assert a in Component(m, a) && b in Component(m, b);
    assert !Before(a, b) && !Before(b, a);
  }

  /** A listing holds the first cells of all large enough components and no other cell. */
  lemma ListsFirsts(m: Mask, minCells: int, found: seq<Region>, firsts: seq<Cell>)
    requires Listing(m, minCells, found, firsts)
    ensures AsSet(firsts) == set a | a in m.on && First(m, a) && |Component(m, a)| >= minCells
  {
    forall a | First(m, a) && |Component(m, a)| >= minCells
      ensures a in firsts
    {
      ListedExactlyWhen(m, minCells, found, firsts, a);
      var f :| f in firsts && Component(m, f) == Component(m, a);
      FirstUnique(m, f, a);
    }
  }

  predicate Ascending(cells: seq<Cell>) {
    forall i, j :: 0 <= i < j < |cells| ==> Before(cells[i], cells[j])
  }

  lemma AscendingLast(a: seq<Cell>)
    requires Ascending(a) && a != []
    ensures var x := a[|a| - 1];
            && x in AsSet(a)
            && (forall c :: c in AsSet(a) ==> c == x || Before(c, x))
            && AsSet(a[..|a| - 1]) == AsSet(a) - {x}
  {
    assert a == a[..|a| - 1] + [a[|a| - 1]];
  }

  lemma EmptySet(a: seq<Cell>)
    ensures a == [] <==> AsSet(a) == {}
  {
    if a != [] {
      assert a[0] in AsSet(a);
    }
  }

  lemma {:induction false} AscendingUnique(a: seq<Cell>, b: seq<Cell>)
    requires Ascending(a) && Ascending(b) && AsSet(a) == AsSet(b)
    ensures a == b
  {
    EmptySet(a);
    EmptySet(b);
    if a != [] {
      AscendingLast(a);
      AscendingLast(b);
      assert a[|a| - 1] == b[|b| - 1];
      AscendingUnique(a[..|a| - 1], b[..|b| - 1]);
      assert a == a[..|a| - 1] + [a[|a| - 1]] && b == b[..|b| - 1] + [b[|b| - 1]];
    }
  }

  /** The mask and the threshold determine the listing, and so the result. */
  lemma ListingUnique(m: Mask, minCells: int, f: seq<Region>, a: seq<Cell>, g: seq<Region>, b: seq<Cell>)
    requires Listing(m, minCells, f, a) && Listing(m, minCells, g, b)
    ensures a == b && f == g
  {
    ListsFirsts(m, minCells, f, a);
    ListsFirsts(m, minCells, g, b);
    AscendingUnique(a, b);
    forall i | 0 <= i < |f|
      ensures f[i] == g[i]
    {
      DescriptionUnique(f[i], g[i], Component(m, a[i]));
    }
  }

  // ---- what fill means -----------------------------------------------------

  /** The cells of the mask in a region's box. */
  function InBox(m: Mask, g: Region): set<Cell> {
    set c | c in m.on && Covers(g, c)
  }

  /** Fill times the size of the box is the number of cells: nothing for none, one for a full box. */
  lemma FillIsShare(count: nat, size: int)
    requires size >= 1
    ensures Fill(count, size) * size as real == count as real
    ensures 0.0 <= Fill(count, size) && (count <= size ==> Fill(count, size) <= 1.0)
    ensures Fill(count, size) == 1.0 <==> count == size
  {}

  /** The cells of one row from column c0 to column c1. */
  function RowOf(row: int, c0: int, c1: int): (s: set<Cell>)
    requires c0 <= c1
    ensures |s| == c1 - c0 && forall c: Cell :: c in s <==> c.row == row && c0 <= c.col < c1
    decreases c1 - c0
  {
    if c0 == c1 then {} else RowOf(row, c0, c1 - 1) + {Cell(row, c1 - 1)}
  }

  lemma OneRowMore(h: int, w: int)
    ensures Area(h + 1, w) == Area(h, w) + w
  {}

  lemma DisjointSize(a: set<Cell>, b: set<Cell>, s: set<Cell>)
    requires a !! b && s == a + b
    ensures |s| == |a| + |b|
  {}

  /** The size of a region is the number of cells in its box. */
  lemma {:induction false} SizeCounts(g: Region, s: set<Cell>)
    requires g.r0 <= g.r1 && g.c0 <= g.c1 && forall c :: c in s <==> Covers(g, c)
    ensures |s| == Size(g)
    decreases g.r1 - g.r0
  {
    if g.r0 == g.r1 {
      assert s == {};
    } else {
      var last := RowOf(g.r1 - 1, g.c0, g.c1);
      SizeCounts(g.(r1 := g.r1 - 1), s - last);
      OneRowMore(g.r1 - 1 - g.r0, g.c1 - g.c0);
      DisjointSize(s - last, last, s);
    }
  }

  lemma FillGrows(a: nat, b: nat, size: int)
    ensures Fill(a, size) <= Fill(b, size) <==> a <= b
  {}

  /** Fill never exceeds the mean of the mask over the box, and equals it exactly if no cell
      of another component lies in the box. */
  lemma FillIsMeanExactlyWhen(m: Mask, g: Region, s: set<Cell>)
    requires Describes(g, s) && s <= m.on
    ensures g.fill <= Fill(|InBox(m, g)|, Size(g))
    ensures g.fill == Fill(|InBox(m, g)|, Size(g)) <==> InBox(m, g) == s
  {
    var box := InBox(m, g);
    SubsetSize(s, box);
    FillGrows(|s|, |box|, Size(g));
    FillGrows(|box|, |s|, Size(g));
    if s != box {
      var x :| x in box && x !in s;
      SubsetSize(s, box - {x});
    }
  }

  // ---- a region that fill understates --------------------------------------

  /** Five cells around a corner. */
  const ELBOW: set<Cell> := {Cell(0, 0), Cell(0, 1), Cell(0, 2), Cell(1, 0), Cell(2, 0)}

  const STRAY := Cell(2, 2)

  const CORNERED := Mask(3, 3, ELBOW + {STRAY})

  lemma ElbowLinked()
    ensures ELBOW <= Component(CORNERED, Cell(0, 0))
  {
    var m, a := CORNERED, Cell(0, 0);
    LinkedSelf(m, a);
    LinkedStep(m, a, a, Cell(0, 1));
    LinkedStep(m, a, Cell(0, 1), Cell(0, 2));
    LinkedStep(m, a, a, Cell(1, 0));
    LinkedStep(m, a, Cell(1, 0), Cell(2, 0));
  }

  lemma ElbowClosed()
    ensures Closed(CORNERED, ELBOW)
  {}

  lemma ElbowIsComponent()
    ensures Component(CORNERED, Cell(0, 0)) == ELBOW
  {
    ElbowLinked();
    ElbowClosed();
    ComponentIs(CORNERED, ELBOW, Cell(0, 0));
  }

  lemma ElbowBox(g: Region)
    requires g == Region(0, 0, 3, 3, Fill(5, 9))
    ensures Describes(g, ELBOW) && |ELBOW| == 5 && |InBox(CORNERED, g)| == 6
  {
    assert Size(g) == 9;
    assert |ELBOW| == 5;
    assert Cell(0, 0) in ELBOW && Cell(2, 0) in ELBOW && Cell(0, 2) in ELBOW;
    assert InBox(CORNERED, g) == ELBOW + {STRAY};
  }

  /** The box of a large enough component at `a` holds further cells of the mask. */
  ghost predicate Shares(m: Mask, minCells: int, a: Cell, g: Region) {
    && a in m.on && Describes(g, Component(m, a))
    && minCells <= |Component(m, a)| < |InBox(m, g)|
  }

  /** Such a component is listed with a fill below the mean. */
  lemma SharedIsUnderstated(m: Mask, minCells: int, found: seq<Region>, firsts: seq<Cell>, a: Cell, g: Region)
    requires Listing(m, minCells, found, firsts) && Shares(m, minCells, a, g)
    ensures exists h :: h in found && h.fill < Fill(|InBox(m, h)|, Size(h))
  {
    var f :| f in firsts && a in Component(m, f);
    SameComponent(m, f, a);
    var i :| 0 <= i < |firsts| && firsts[i] == f;
    DescriptionUnique(found[i], g, Component(m, a));
    FillGrows(|InBox(m, g)|, |Component(m, a)|, Size(g));
    assert found[i] in found;
  }

  lemma ElbowShares(minCells: int, g: Region)
    requires minCells <= 5 && g == Region(0, 0, 3, 3, Fill(5, 9))
    ensures Shares(CORNERED, minCells, Cell(0, 0), g)
  {
    ElbowIsComponent();
    ElbowBox(g);
  }

  /** Where the claim that fill is the mean of the mask over the box fails: an elbow with a
      stray cell in the free corner of its box, whatever threshold up to five lists it. */
  lemma FillBelowMean(minCells: int, found: seq<Region>, firsts: seq<Cell>)
    requires minCells <= 5 && Listing(CORNERED, minCells, found, firsts)
    ensures exists g :: g in found && g.fill < Fill(|InBox(CORNERED, g)|, Size(g))
  {
    var g := Region(0, 0, 3, 3, Fill(5, 9));
    ElbowShares(minCells, g);
    SharedIsUnderstated(CORNERED, minCells, found, firsts, Cell(0, 0), g);
  }
}
