/** The area of a union of boxes (firemex/incident/engine.py, _union_area).

    The source sums the cells of a compressed coordinate grid whose centre lies in
    some box.  Measure below defines the area of a union without any grid, by
    inclusion and exclusion; the sum is proved equal to it on every list of boxes. */
module Measures {
  import opened Geometry

  /** |b + rest| = |b| + |rest| - |b * rest|, for any measure of single boxes. */
  function InclusionExclusion(area: BBox -> real, boxes: seq<BBox>): real
    decreases |boxes|
  {
    if boxes == [] then 0.0
    else area(boxes[0]) + InclusionExclusion(area, boxes[1..])
         - InclusionExclusion(area, MeetAll(boxes[0], boxes[1..]))
  }

  function AreaOf(b: BBox): real { b.Area() }

  /** The area of the union of the boxes. */
  function Measure(boxes: seq<BBox>): real { InclusionExclusion(AreaOf, boxes) }

  function MeetAll(b: BBox, boxes: seq<BBox>): (r: seq<BBox>)
    ensures |r| == |boxes|
    ensures forall k :: 0 <= k < |r| ==> r[k] == Meet(b, boxes[k])
  {
    seq(|boxes|, k requires 0 <= k < |boxes| => Meet(b, boxes[k]))
  }

  // ---- grids ---------------------------------------------------------------

  predicate Increasing(xs: seq<real>) {
    forall i, j :: 0 <= i < j < |xs| ==> xs[i] < xs[j]
  }

  lemma HeadIsLeast(xs: seq<real>)
    requires Increasing(xs) && xs != []
    ensures forall u :: u in xs[1..] ==> xs[0] < u
  {
    forall u | u in xs[1..]
      ensures xs[0] < u
    {
      var k :| 0 <= k < |xs[1..]| && xs[1..][k] == u;
      assert xs[k + 1] == u;
    }
  }

  lemma InsertBehind(xs: seq<real>, v: real, rest: seq<real>)
    requires Increasing(xs) && xs != [] && xs[0] < v
    requires Increasing(rest) && forall u :: u in rest <==> u in xs[1..] || u == v
    ensures Increasing([xs[0]] + rest)
    ensures forall u :: u in [xs[0]] + rest <==> u in xs || u == v
  {
    HeadIsLeast(xs);
    forall j | 0 <= j < |rest|
      ensures xs[0] < rest[j]
    {
      assert rest[j] in rest;
    }
    assert xs == [xs[0]] + xs[1..];
  }

  function Insert(xs: seq<real>, v: real): (r: seq<real>)
    requires Increasing(xs)
    ensures Increasing(r)
    ensures forall u :: u in r <==> u in xs || u == v
  {
    if xs == [] then [v]
    else if v < xs[0] then [v] + xs
    else if v == xs[0] then xs
    else
      var rest := Insert(xs[1..], v);
      InsertBehind(xs, v, rest);
      [xs[0]] + rest
  }

  /** Python's sorted(set(vals)): increasing, with exactly the values of vals. */
  function SortedSet(vals: seq<real>): (r: seq<real>)
    ensures Increasing(r)
    ensures forall u :: u in r <==> u in vals
  {
    if vals == [] then [] else Insert(SortedSet(vals[1..]), vals[0])
  }

  function EdgesX(boxes: seq<BBox>): (r: seq<real>)
    ensures forall b :: b in boxes ==> b.x1 in r && b.x2 in r
  {
    if boxes == [] then [] else [boxes[0].x1, boxes[0].x2] + EdgesX(boxes[1..])
  }

  function EdgesY(boxes: seq<BBox>): (r: seq<real>)
    ensures forall b :: b in boxes ==> b.y1 in r && b.y2 in r
  {
    if boxes == [] then [] else [boxes[0].y1, boxes[0].y2] + EdgesY(boxes[1..])
  }

  /** The i-th interval of a strictly increasing list of coordinates. */
  function Gap(xs: seq<real>, i: nat): real
    requires i + 1 < |xs|
  {
    xs[i + 1] - xs[i]
  }

  /** A grid whose lines include every edge of every box. */
  datatype Grid = Grid(xs: seq<real>, ys: seq<real>) {
    predicate For(boxes: seq<BBox>) {
      && Increasing(xs) && Increasing(ys) && |xs| > 0 && |ys| > 0
      && forall b :: b in boxes ==> b.x1 in xs && b.x2 in xs && b.y1 in ys && b.y2 in ys
    }

    /** Cell (i, j) lies inside b. */
    predicate CellIn(i: nat, j: nat, b: BBox)
      requires i + 1 < |xs| && j + 1 < |ys|
    {
      b.x1 <= xs[i] && xs[i + 1] <= b.x2 && b.y1 <= ys[j] && ys[j + 1] <= b.y2
    }

    predicate Covered(i: nat, j: nat, boxes: seq<BBox>)
      requires i + 1 < |xs| && j + 1 < |ys|
    {
      exists k :: 0 <= k < |boxes| && CellIn(i, j, boxes[k])
    }

    function CellArea(i: nat, j: nat): real
      requires i + 1 < |xs| && j + 1 < |ys|
    {
      Gap(xs, i) * Gap(ys, j)
    }

    function Cell(i: nat, j: nat, boxes: seq<BBox>): real
      requires i + 1 < |xs| && j + 1 < |ys|
    {
      if Covered(i, j, boxes) then CellArea(i, j) else 0.0
    }

    function Row(i: nat, m: nat, boxes: seq<BBox>): real
      requires i + 1 < |xs| && m < |ys|
    {
      if m == 0 then 0.0 else Row(i, m - 1, boxes) + Cell(i, m - 1, boxes)
    }

    function Rows(n: nat, boxes: seq<BBox>): real
      requires n < |xs| && |ys| > 0
    {
      if n == 0 then 0.0 else Rows(n - 1, boxes) + Row(n - 1, |ys| - 1, boxes)
    }

    function Sum(boxes: seq<BBox>): real
      requires |xs| > 0 && |ys| > 0
    {
      Rows(|xs| - 1, boxes)
    }
  }

  // ---- one box: the cells inside it add up to its area ---------------------

  /** Length of the first m intervals of xs that lie inside [lo, hi]. */
  function Strip(xs: seq<real>, lo: real, hi: real, m: nat): real
    requires m < |xs|
  {
    if m == 0 then 0.0
    else Strip(xs, lo, hi, m - 1) +
         if lo <= xs[m - 1] && xs[m] <= hi then Gap(xs, m - 1) else 0.0
  }

  lemma {:induction false} StripLength(xs: seq<real>, lo: real, hi: real, m: nat)
    requires Increasing(xs) && m < |xs| && lo <= hi && lo in xs && hi in xs
    ensures Strip(xs, lo, hi, m) == Max(lo, Min(xs[m], hi)) - lo
  {
    if m == 0 {
      assert xs[0] <= lo;
    } else {
      StripLength(xs, lo, hi, m - 1);
      NoPointBetween(xs, lo, m - 1);
      NoPointBetween(xs, hi, m - 1);
    }
  }

  lemma NoPointBetween(xs: seq<real>, v: real, i: nat)
    requires Increasing(xs) && i + 1 < |xs| && v in xs
    ensures v <= xs[i] || xs[i + 1] <= v
  {}

  lemma Distribute(a: real, b: real, c: real)
    ensures a * (b + c) == a * b + a * c
    ensures (b + c) * a == b * a + c * a
  {}

  predicate ColumnInside(g: Grid, b: BBox, i: nat)
    requires i + 1 < |g.xs|
  {
    b.x1 <= g.xs[i] && g.xs[i + 1] <= b.x2
  }

  lemma {:induction false} RowInBox(g: Grid, b: BBox, i: nat, m: nat, w: real, height: real)
    requires i + 1 < |g.xs| && m < |g.ys| && ColumnInside(g, b, i)
    requires w == Gap(g.xs, i) && height == Strip(g.ys, b.y1, b.y2, m)
    ensures g.Row(i, m, [b]) == w * height
  {
    if m > 0 {
      RowInBox(g, b, i, m - 1, w, Strip(g.ys, b.y1, b.y2, m - 1));
      assert g.Covered(i, m - 1, [b]) <==> g.CellIn(i, m - 1, [b][0]);
      Distribute(w, Strip(g.ys, b.y1, b.y2, m - 1), Gap(g.ys, m - 1));
    }
  }

  lemma {:induction false} RowOutOfBox(g: Grid, b: BBox, i: nat, m: nat)
    requires i + 1 < |g.xs| && m < |g.ys| && !ColumnInside(g, b, i)
    ensures g.Row(i, m, [b]) == 0.0
  {
    if m > 0 {
      RowOutOfBox(g, b, i, m - 1);
      assert g.Covered(i, m - 1, [b]) <==> g.CellIn(i, m - 1, [b][0]);
    }
  }

  lemma {:induction false} RowsOfBox(g: Grid, b: BBox, n: nat, height: real, area: real)
    requires n < |g.xs| && |g.ys| > 0
    requires height == Strip(g.ys, b.y1, b.y2, |g.ys| - 1)
    requires area == Strip(g.xs, b.x1, b.x2, n) * height
    ensures g.Rows(n, [b]) == area
  {
    if n > 0 {
      var width := Strip(g.xs, b.x1, b.x2, n - 1);
      RowsOfBox(g, b, n - 1, height, width * height);
      AddColumn(g, b, n - 1, width, height);
    }
  }

  lemma AddColumn(g: Grid, b: BBox, i: nat, width: real, height: real)
    requires i + 1 < |g.xs| && |g.ys| > 0
    requires width == Strip(g.xs, b.x1, b.x2, i) && height == Strip(g.ys, b.y1, b.y2, |g.ys| - 1)
    ensures width * height + g.Row(i, |g.ys| - 1, [b]) == Strip(g.xs, b.x1, b.x2, i + 1) * height
  {
    var row, w := g.Row(i, |g.ys| - 1, [b]), if ColumnInside(g, b, i) then Gap(g.xs, i) else 0.0;
    if ColumnInside(g, b, i) {
      RowInBox(g, b, i, |g.ys| - 1, w, height);
    } else {
      RowOutOfBox(g, b, i, |g.ys| - 1);
    }
    AddProduct(width, w, height, row, Strip(g.xs, b.x1, b.x2, i + 1));
  }

  lemma AddProduct(width: real, w: real, height: real, row: real, total: real)
    requires row == w * height && total == width + w
    ensures width * height + row == total * height
  {}

  lemma LastIsLargest(xs: seq<real>, v: real)
    requires Increasing(xs) && v in xs
    ensures v <= xs[|xs| - 1]
  {}

  lemma WholeStrip(xs: seq<real>, lo: real, hi: real)
    requires Increasing(xs) && lo <= hi && lo in xs && hi in xs
    ensures Strip(xs, lo, hi, |xs| - 1) == hi - lo
  {
    StripLength(xs, lo, hi, |xs| - 1);
    LastIsLargest(xs, hi);
  }

  lemma SumOfBox(g: Grid, b: BBox)
    requires g.For([b])
    ensures g.Sum([b]) == b.Area()
  {
    assert b in [b];
    WholeStrip(g.xs, b.x1, b.x2);
    WholeStrip(g.ys, b.y1, b.y2);
    RowsOfBox(g, b, |g.xs| - 1, b.Height(), b.Area());
  }

  // ---- inclusion and exclusion, cell by cell -------------------------------

  lemma CellMeet(g: Grid, i: nat, j: nat, a: BBox, b: BBox)
    requires Increasing(g.xs) && Increasing(g.ys) && i + 1 < |g.xs| && j + 1 < |g.ys|
    ensures g.CellIn(i, j, Meet(a, b)) <==> g.CellIn(i, j, a) && g.CellIn(i, j, b)
  {}

  lemma CellSplit(g: Grid, i: nat, j: nat, b: BBox, rest: seq<BBox>)
    requires Increasing(g.xs) && Increasing(g.ys) && i + 1 < |g.xs| && j + 1 < |g.ys|
    ensures g.Cell(i, j, [b] + rest) ==
            g.Cell(i, j, [b]) + g.Cell(i, j, rest) - g.Cell(i, j, MeetAll(b, rest))
  {
    var all, meet := [b] + rest, MeetAll(b, rest);
    assert g.Covered(i, j, [b]) <==> g.CellIn(i, j, [b][0]);
    forall k | 0 <= k < |rest|
      ensures g.CellIn(i, j, meet[k]) <==> g.CellIn(i, j, b) && g.CellIn(i, j, rest[k])
    {
      CellMeet(g, i, j, b, rest[k]);
    }
    assert g.Covered(i, j, all) <==> g.CellIn(i, j, b) || g.Covered(i, j, rest) by {
      assert all[0] == b;
      assert forall k :: 0 <= k < |rest| ==> all[k + 1] == rest[k];
    }
    assert g.Covered(i, j, meet) <==> g.CellIn(i, j, b) && g.Covered(i, j, rest);
  }

  lemma {:induction false} RowSplit(g: Grid, i: nat, m: nat, b: BBox, rest: seq<BBox>)
    requires Increasing(g.xs) && Increasing(g.ys) && i + 1 < |g.xs| && m < |g.ys|
    ensures g.Row(i, m, [b] + rest) ==
            g.Row(i, m, [b]) + g.Row(i, m, rest) - g.Row(i, m, MeetAll(b, rest))
  {
    if m > 0 {
      RowSplit(g, i, m - 1, b, rest);
      CellSplit(g, i, m - 1, b, rest);
    }
  }

  lemma {:induction false} RowsSplit(g: Grid, n: nat, b: BBox, rest: seq<BBox>)
    requires Increasing(g.xs) && Increasing(g.ys) && n < |g.xs| && |g.ys| > 0
    ensures g.Rows(n, [b] + rest) ==
            g.Rows(n, [b]) + g.Rows(n, rest) - g.Rows(n, MeetAll(b, rest))
  {
    if n > 0 {
      RowsSplit(g, n - 1, b, rest);
      RowSplit(g, n - 1, |g.ys| - 1, b, rest);
    }
  }

  lemma {:induction false} RowOfNone(g: Grid, i: nat, m: nat)
    requires i + 1 < |g.xs| && m < |g.ys|
    ensures g.Row(i, m, []) == 0.0
  {
    if m > 0 { RowOfNone(g, i, m - 1); }
  }

  lemma {:induction false} RowsOfNone(g: Grid, n: nat)
    requires n < |g.xs| && |g.ys| > 0
    ensures g.Rows(n, []) == 0.0
  {
    if n > 0 {
      RowsOfNone(g, n - 1);
      RowOfNone(g, n - 1, |g.ys| - 1);
    }
  }

  lemma MeetOnGrid(g: Grid, b: BBox, rest: seq<BBox>)
    requires g.For([b] + rest)
    ensures g.For([b]) && g.For(rest) && g.For(MeetAll(b, rest))
  {}

  lemma {:induction false} GridInduction(g: Grid, boxes: seq<BBox>, area: BBox -> real)
    requires g.For(boxes)
    requires forall b :: g.For([b]) ==> g.Sum([b]) == area(b)
    ensures g.Sum(boxes) == InclusionExclusion(area, boxes)
    decreases |boxes|
  {
    if boxes == [] {
      RowsOfNone(g, |g.xs| - 1);
    } else {
      var b, rest := boxes[0], boxes[1..];
      assert boxes == [b] + rest;
      MeetOnGrid(g, b, rest);
      RowsSplit(g, |g.xs| - 1, b, rest);
      GridInduction(g, rest, area);
      GridInduction(g, MeetAll(b, rest), area);
    }
  }

  /** Every grid that carries the edges of the boxes gives the same sum: Measure. */
  lemma GridSum(g: Grid, boxes: seq<BBox>)
    requires g.For(boxes)
    ensures g.Sum(boxes) == Measure(boxes)
  {
    forall b | g.For([b])
      ensures g.Sum([b]) == AreaOf(b)
    {
      SumOfBox(g, b);
    }
    GridInduction(g, boxes, AreaOf);
  }

  // ---- what the measure depends on -----------------------------------------

  predicate AnyContains(boxes: seq<BBox>, x: real, y: real) {
    exists k :: 0 <= k < |boxes| && Contains(boxes[k], x, y)
  }

  /** (x, y) is an interior point of one of the boxes. */
  predicate AnyInside(boxes: seq<BBox>, x: real, y: real) {
    exists k :: 0 <= k < |boxes| && Inside(boxes[k], x, y)
  }

  /** On a grid for the boxes, any interior point of a cell, so its centre, decides the
      whole cell, and it does not matter whether the boxes are taken with their edges. */
  lemma CentreTest(g: Grid, boxes: seq<BBox>, i: nat, j: nat, cx: real, cy: real)
    requires g.For(boxes) && i + 1 < |g.xs| && j + 1 < |g.ys|
    requires g.xs[i] < cx < g.xs[i + 1] && g.ys[j] < cy < g.ys[j + 1]
    ensures AnyContains(boxes, cx, cy) <==> g.Covered(i, j, boxes)
    ensures AnyInside(boxes, cx, cy) <==> g.Covered(i, j, boxes)
  {}

  function CommonGrid(p: seq<BBox>, q: seq<BBox>): (g: Grid)
    ensures g.For(p) && g.For(q)
  {
    Grid(Insert(SortedSet(EdgesX(p) + EdgesX(q)), 0.0), Insert(SortedSet(EdgesY(p) + EdgesY(q)), 0.0))
  }

  /** Every interior point of p is covered by q. */
  ghost predicate CoversAtMost(p: seq<BBox>, q: seq<BBox>) {
    forall x, y :: AnyInside(p, x, y) ==> AnyContains(q, x, y)
  }

  lemma CellMono(g: Grid, i: nat, j: nat, p: seq<BBox>, q: seq<BBox>)
    requires g.For(p) && g.For(q) && i + 1 < |g.xs| && j + 1 < |g.ys| && CoversAtMost(p, q)
    ensures 0.0 <= g.Cell(i, j, p) <= g.Cell(i, j, q)
  {
    var cx, cy := (g.xs[i] + g.xs[i + 1]) / 2.0, (g.ys[j] + g.ys[j + 1]) / 2.0;
    CentreTest(g, p, i, j, cx, cy);
    CentreTest(g, q, i, j, cx, cy);
    assert g.Covered(i, j, p) ==> g.Covered(i, j, q);
    CellSize(g, i, j, p);
    CellSize(g, i, j, q);
  }

  lemma CellSize(g: Grid, i: nat, j: nat, boxes: seq<BBox>)
    requires Increasing(g.xs) && Increasing(g.ys) && i + 1 < |g.xs| && j + 1 < |g.ys|
    ensures g.Cell(i, j, boxes) >= 0.0
  {}

  lemma {:induction false} RowMono(g: Grid, i: nat, m: nat, p: seq<BBox>, q: seq<BBox>)
    requires g.For(p) && g.For(q) && i + 1 < |g.xs| && m < |g.ys| && CoversAtMost(p, q)
    ensures 0.0 <= g.Row(i, m, p) <= g.Row(i, m, q)
  {
    if m > 0 {
      RowMono(g, i, m - 1, p, q);
      CellMono(g, i, m - 1, p, q);
    }
  }

  lemma {:induction false} RowsMono(g: Grid, n: nat, p: seq<BBox>, q: seq<BBox>)
    requires g.For(p) && g.For(q) && n < |g.xs| && CoversAtMost(p, q)
    ensures 0.0 <= g.Rows(n, p) <= g.Rows(n, q)
  {
    if n > 0 {
      RowsMono(g, n - 1, p, q);
      RowMono(g, n - 1, |g.ys| - 1, p, q);
    }
  }

  /** The measure is monotone in the set of covered points, so it depends on that set
      only: order, duplicates and how the region is cut into boxes do not matter. */
  lemma MeasureMonotone(p: seq<BBox>, q: seq<BBox>)
    requires CoversAtMost(p, q)
    ensures 0.0 <= Measure(p) <= Measure(q)
  {
    var g := CommonGrid(p, q);
    RowsMono(g, |g.xs| - 1, p, q);
    GridSum(g, p);
    GridSum(g, q);
  }

  lemma SameRegion(p: seq<BBox>, q: seq<BBox>)
    requires CoversAtMost(p, q) && CoversAtMost(q, p)
    ensures Measure(p) == Measure(q)
  {
    MeasureMonotone(p, q);
    MeasureMonotone(q, p);
  }

  /** Adding boxes never lowers the measure; reordering or repeating them keeps it. */
  lemma MeasureOfSubset(p: seq<BBox>, q: seq<BBox>)
    requires forall b :: b in p ==> b in q
    ensures Measure(p) <= Measure(q)
    ensures (forall b :: b in q ==> b in p) ==> Measure(p) == Measure(q)
  {
    CoverOfSubset(p, q);
    MeasureMonotone(p, q);
    if forall b :: b in q ==> b in p {
      CoverOfSubset(q, p);
      MeasureMonotone(q, p);
    }
  }

  lemma CoverOfSubset(p: seq<BBox>, q: seq<BBox>)
    requires forall b :: b in p ==> b in q
    ensures CoversAtMost(p, q)
  {
    forall x, y | AnyInside(p, x, y)
      ensures AnyContains(q, x, y)
    {
      var k :| 0 <= k < |p| && Inside(p[k], x, y);
      assert p[k] in p;
      var m :| 0 <= m < |q| && q[m] == p[k];
      assert Contains(q[m], x, y);
    }
  }

  function SumOfAreas(boxes: seq<BBox>): real {
    if boxes == [] then 0.0 else boxes[0].Area() + SumOfAreas(boxes[1..])
  }

  /** Boxes over one fire are not counted twice: at least the largest box, at most the
      sum of all, and at most any box around them. */
  lemma {:induction false} MeasureBounds(boxes: seq<BBox>, around: BBox)
    ensures 0.0 <= Measure(boxes) <= SumOfAreas(boxes)
    ensures forall b :: b in boxes ==> b.Area() <= Measure(boxes)
    ensures (forall b :: b in boxes ==> Within(b, around)) ==> Measure(boxes) <= around.Area()
  {
    AtMostSum(boxes);
    CoverOfSubset([], boxes);
    MeasureMonotone([], boxes);
    forall b | b in boxes
      ensures b.Area() <= Measure(boxes)
    {
      MeasureOfSubset([b], boxes);
      MeasureOfOne(b);
    }
    if forall b :: b in boxes ==> Within(b, around) {
      forall x, y | AnyInside(boxes, x, y)
        ensures AnyContains([around], x, y)
      {
        var k :| 0 <= k < |boxes| && Inside(boxes[k], x, y);
        assert boxes[k] in boxes;
        assert Contains([around][0], x, y);
      }
      MeasureMonotone(boxes, [around]);
      MeasureOfOne(around);
    }
  }

  lemma {:induction false} AtMostSum(boxes: seq<BBox>)
    ensures Measure(boxes) <= SumOfAreas(boxes)
  {
    if boxes != [] {
      AtMostSum(boxes[1..]);
      MeasureMonotone(MeetAll(boxes[0], boxes[1..]), MeetAll(boxes[0], boxes[1..]));
    }
  }

  lemma MeasureOfOne(b: BBox)
    ensures Measure([b]) == b.Area()
  {}

  /** For two boxes the measure is the denominator of IoU. */
  lemma MeasureOfTwo(a: BBox, b: BBox)
    ensures Measure([a, b]) == a.Area() + b.Area() - Intersection(a, b)
    ensures Overlap(a, b) ==> Measure([a, b]) > 0.0 && Iou(a, b) == Intersection(a, b) / Measure([a, b])
  {
    assert [a, b][1..] == [b];
    assert MeetAll(a, [b]) == [Meet(a, b)];
    MeasureOfOne(b);
    MeasureOfOne(Meet(a, b));
    MeetArea(a, b);
  }

  // ---- the source's computation --------------------------------------------

  /** The boxes that have an area. */
  function Positive(boxes: seq<BBox>): seq<BBox> {
    if boxes == [] then []
    else (if boxes[0].Area() > 0.0 then [boxes[0]] else []) + Positive(boxes[1..])
  }

  lemma {:induction false} PositiveMembers(boxes: seq<BBox>)
    ensures forall b :: b in Positive(boxes) <==> b in boxes && b.Area() > 0.0
  {
    if boxes != [] { PositiveMembers(boxes[1..]); }
  }

  lemma PositiveMeasure(boxes: seq<BBox>)
    ensures Measure(Positive(boxes)) == Measure(boxes)
  {
    var q := Positive(boxes);
    PositiveMembers(boxes);
    CoverOfSubset(q, boxes);
    forall x, y | AnyInside(boxes, x, y)
      ensures AnyContains(q, x, y)
    {
      var k :| 0 <= k < |boxes| && Inside(boxes[k], x, y);
      FlatArea(boxes[k]);
      assert boxes[k] in q;
      var m :| 0 <= m < |q| && q[m] == boxes[k];
      assert Contains(q[m], x, y);
    }
    SameRegion(q, boxes);
  }

  lemma RowStep(g: Grid, boxes: seq<BBox>, i: nat, j: nat, cx: real, cy: real)
    requires g.For(boxes) && i + 1 < |g.xs| && j + 1 < |g.ys|
    requires g.xs[i] < cx < g.xs[i + 1] && g.ys[j] < cy < g.ys[j + 1]
    ensures g.Row(i, j + 1, boxes) ==
            g.Row(i, j, boxes) + if AnyContains(boxes, cx, cy) then g.CellArea(i, j) else 0.0
  {}

  /** The nested loops: the cells whose centre lies in a box, added up. */
  method GridTotal(boxes: seq<BBox>, g: Grid) returns (total: real)
    requires g.For(boxes)
    ensures total == Measure(boxes)
  {
    total := 0.0;
    for i := 0 to |g.xs| - 1
      invariant total == g.Rows(i, boxes)
    {
      for j := 0 to |g.ys| - 1
        invariant total == g.Rows(i, boxes) + g.Row(i, j, boxes)
      {
        assert g.xs[i] < g.xs[i + 1] && g.ys[j] < g.ys[j + 1];
        var cx := (g.xs[i] + g.xs[i + 1]) / 2.0;
        var cy := (g.ys[j] + g.ys[j + 1]) / 2.0;
        RowStep(g, boxes, i, j, cx, cy);
        if AnyContains(boxes, cx, cy) {
          total := total + g.CellArea(i, j);
        }
      }
    }
    GridSum(g, boxes);
  }

  method UnionArea(boxes: seq<BBox>) returns (total: real)
    ensures total == Measure(boxes)
  {
    PositiveMeasure(boxes);
    var bs := Positive(boxes);
    if bs == [] {
      return 0.0;
    }
    if |bs| == 1 {
      MeasureOfOne(bs[0]);
      assert bs == [bs[0]];
      return bs[0].Area();
    }
    assert bs[0] in bs;
    total := GridTotal(bs, Grid(SortedSet(EdgesX(bs)), SortedSet(EdgesY(bs))));
  }

  // ---- the lattice ---------------------------------------------------------

  /** The sum of n equal steps. */
  function Total(n: nat, step: real): real {
    if n == 0 then 0.0 else step + Total(n - 1, step)
  }

  lemma {:induction false} TotalIsProduct(n: nat, step: real)
    ensures Total(n, step) == n as real * step
  {
    if n > 0 {
      TotalIsProduct(n - 1, step);
      assert n as real * step == (n - 1) as real * step + step;
    }
  }

  lemma {:induction false} TotalAdds(n: nat, m: nat, step: real)
    ensures Total(n + m, step) == Total(n, step) + Total(m, step)
  {
    if n > 0 { TotalAdds(n - 1, m, step); }
  }

  /** The lines of a lattice: line(k) is the k-th, each unit after the one before. */
  ghost predicate Lattice(line: int -> real, unit: real) {
    unit > 0.0 && forall i, j :: i <= j ==> line(j) - line(i) == Total(j - i, unit)
  }

  ghost predicate Rising(line: int -> real) {
    forall i, j :: i <= j <==> line(i) <= line(j)
  }

  lemma LatticeRises(line: int -> real, unit: real)
    requires Lattice(line, unit)
    ensures Rising(line)
  {
    forall i, j
      ensures i <= j <==> line(i) <= line(j)
    {
      if i <= j { TotalSign(j - i, unit); } else { TotalSign(i - j, unit); }
    }
  }

  lemma {:induction false} TotalSign(n: nat, unit: real)
    requires unit > 0.0
    ensures Total(n, unit) >= 0.0
    ensures n > 0 ==> Total(n, unit) > 0.0
  {
    if n > 0 { TotalSign(n - 1, unit); }
  }

  /** A box whose edges are lattice lines, as those of every list of floating-point
      boxes are on a lattice fine enough. */
  datatype LatticeBox = LatticeBox(x1: int, y1: int, x2: int, y2: int) {
    predicate Ordered() { x1 <= x2 && y1 <= y2 }

    function Cells(): set<(int, int)> {
      set x, y | x1 <= x < x2 && y1 <= y < y2 :: (x, y)
    }

    ghost function At(line: int -> real): BBox
      requires Ordered() && Rising(line)
    {
      Corners(line(x1), line(y1), line(x2), line(y2))
    }
  }

  ghost function AllAt(boxes: seq<LatticeBox>, line: int -> real): (r: seq<BBox>)
    requires Rising(line) && forall b :: b in boxes ==> b.Ordered()
    ensures |r| == |boxes|
    ensures forall k :: 0 <= k < |r| ==> r[k] == boxes[k].At(line)
  {
    seq(|boxes|, k requires 0 <= k < |boxes| => boxes[k].At(line))
  }

  function CellsOf(boxes: seq<LatticeBox>): set<(int, int)> {
    if boxes == [] then {} else boxes[0].Cells() + CellsOf(boxes[1..])
  }

  lemma {:induction false} ColumnCount(x: int, y1: int, y2: int)
    requires y1 <= y2
    ensures |LatticeBox(x, y1, x + 1, y2).Cells()| == y2 - y1
    decreases y2 - y1
  {
    var s := LatticeBox(x, y1, x + 1, y2).Cells();
    if y1 == y2 {
      assert s == {};
    } else {
      ColumnCount(x, y1, y2 - 1);
      assert s == LatticeBox(x, y1, x + 1, y2 - 1).Cells() + {(x, y2 - 1)};
    }
  }

  lemma OneMore(w: int, h: int)
    ensures (w + 1) * h == w * h + h
  {}

  lemma {:induction false} BoxCount(b: LatticeBox)
    requires b.Ordered()
    ensures |b.Cells()| == (b.x2 - b.x1) * (b.y2 - b.y1)
    decreases b.x2 - b.x1
  {
    if b.x1 == b.x2 {
      assert b.Cells() == {};
    } else {
      var front, last := b.(x2 := b.x2 - 1), b.(x1 := b.x2 - 1);
      BoxCount(front);
      ColumnCount(b.x2 - 1, b.y1, b.y2);
      OneMore(b.x2 - 1 - b.x1, b.y2 - b.y1);
      assert b.Cells() == front.Cells() + last.Cells() && front.Cells() !! last.Cells();
    }
  }

  function MaxInt(a: int, b: int): int { if a >= b then a else b }

  function MinInt(a: int, b: int): int { if a <= b then a else b }

  function LatticeMeet(a: LatticeBox, b: LatticeBox): (r: LatticeBox)
    ensures r.Ordered()
  {
    var x1, y1 := MaxInt(a.x1, b.x1), MaxInt(a.y1, b.y1);
    LatticeBox(x1, y1, MaxInt(x1, MinInt(a.x2, b.x2)), MaxInt(y1, MinInt(a.y2, b.y2)))
  }

  function LatticeMeetAll(b: LatticeBox, boxes: seq<LatticeBox>): (r: seq<LatticeBox>)
    ensures |r| == |boxes|
    ensures forall k :: 0 <= k < |r| ==> r[k] == LatticeMeet(b, boxes[k])
    ensures forall c :: c in r ==> c.Ordered()
  {
    if boxes == [] then [] else [LatticeMeet(b, boxes[0])] + LatticeMeetAll(b, boxes[1..])
  }

  lemma {:induction false} CellsOfMeetAll(b: LatticeBox, boxes: seq<LatticeBox>)
    ensures CellsOf(LatticeMeetAll(b, boxes)) == b.Cells() * CellsOf(boxes)
  {
    if boxes != [] {
      CellsOfMeetAll(b, boxes[1..]);
      assert LatticeMeet(b, boxes[0]).Cells() == b.Cells() * boxes[0].Cells();
    }
  }

  lemma MeetAt(a: LatticeBox, b: LatticeBox, line: int -> real)
    requires a.Ordered() && b.Ordered() && Rising(line)
    ensures LatticeMeet(a, b).At(line) == Meet(a.At(line), b.At(line))
  {}

  lemma MeetAllAt(b: LatticeBox, rest: seq<LatticeBox>, line: int -> real)
    requires Rising(line) && b.Ordered() && forall c :: c in rest ==> c.Ordered()
    ensures MeetAll(b.At(line), AllAt(rest, line)) == AllAt(LatticeMeetAll(b, rest), line)
  {
    forall k | 0 <= k < |rest|
      ensures MeetAll(b.At(line), AllAt(rest, line))[k] == AllAt(LatticeMeetAll(b, rest), line)[k]
    {
      MeetAt(b, rest[k], line);
    }
  }

  lemma MeasureAt(area: BBox -> real, boxes: seq<LatticeBox>, line: int -> real)
    requires Rising(line) && boxes != [] && forall c :: c in boxes ==> c.Ordered()
    ensures boxes[0].Ordered() && forall c :: c in boxes[1..] ==> c.Ordered()
    ensures InclusionExclusion(area, AllAt(boxes, line)) ==
            area(boxes[0].At(line)) + InclusionExclusion(area, AllAt(boxes[1..], line))
            - InclusionExclusion(area, AllAt(LatticeMeetAll(boxes[0], boxes[1..]), line))
  {
    assert boxes[0] in boxes && forall c :: c in boxes[1..] ==> c in boxes;
    MeetAllAt(boxes[0], boxes[1..], line);
    assert AllAt(boxes, line)[1..] == AllAt(boxes[1..], line);
  }

  /** A rectangle of w by h steps holds w * h cells. */
  lemma RectangleArea(w: nat, h: nat, unit: real)
    ensures Total(w, unit) * Total(h, unit) == Total(w * h, unit * unit)
  {
    TotalIsProduct(w, unit);
    TotalIsProduct(h, unit);
    TotalIsProduct(w * h, unit * unit);
    Regroup(w as real, h as real, unit);
    assert (w * h) as real == w as real * h as real;
  }

  lemma Regroup(w: real, h: real, unit: real)
    ensures (w * unit) * (h * unit) == (w * h) * (unit * unit)
  {}

  lemma AreaAt(b: LatticeBox, line: int -> real, unit: real)
    requires Lattice(line, unit) && Rising(line) && b.Ordered()
    ensures b.At(line).Area() == Total(|b.Cells()|, unit * unit)
  {
    BoxCount(b);
    assert b.At(line).Width() == Total(b.x2 - b.x1, unit);
    assert b.At(line).Height() == Total(b.y2 - b.y1, unit);
    RectangleArea(b.x2 - b.x1, b.y2 - b.y1, unit);
  }

  lemma CountUnion(a: set<(int, int)>, b: set<(int, int)>, cell: real)
    ensures Total(|a + b|, cell) == Total(|a|, cell) + Total(|b|, cell) - Total(|a * b|, cell)
  {
    TotalAdds(|a + b|, |a * b|, cell);
    TotalAdds(|a|, |b|, cell);
  }

  ghost predicate CellHasArea(area: BBox -> real, line: int -> real, cell: real)
    requires Rising(line)
  {
    forall b: LatticeBox {:trigger b.At(line)} :: b.Ordered() ==> area(b.At(line)) == Total(|b.Cells()|, cell)
  }

  lemma {:induction false} CountCells(area: BBox -> real, boxes: seq<LatticeBox>, line: int -> real, cell: real)
    requires Rising(line) && CellHasArea(area, line, cell)
    requires forall b :: b in boxes ==> b.Ordered()
    ensures InclusionExclusion(area, AllAt(boxes, line)) == Total(|CellsOf(boxes)|, cell)
    decreases |boxes|
  {
    if boxes != [] {
      MeasureAt(area, boxes, line);
      CountCells(area, boxes[1..], line, cell);
      CountCells(area, LatticeMeetAll(boxes[0], boxes[1..]), line, cell);
      CellsOfSplit(boxes, cell);
    }
  }

  lemma CellsOfSplit(boxes: seq<LatticeBox>, cell: real)
    requires boxes != []
    ensures Total(|CellsOf(boxes)|, cell) ==
            Total(|boxes[0].Cells()|, cell) + Total(|CellsOf(boxes[1..])|, cell)
            - Total(|CellsOf(LatticeMeetAll(boxes[0], boxes[1..]))|, cell)
  {
    CellsOfMeetAll(boxes[0], boxes[1..]);
    CountUnion(boxes[0].Cells(), CellsOf(boxes[1..]), cell);
  }

  /** On a lattice the measure is the area of one cell, once for each covered cell. */
  lemma MeasureCountsCells(boxes: seq<LatticeBox>, line: int -> real, unit: real)
    requires Lattice(line, unit)
    requires forall b :: b in boxes ==> b.Ordered()
    ensures Rising(line)
    ensures Measure(AllAt(boxes, line)) == Total(|CellsOf(boxes)|, unit * unit)
  {
    LatticeRises(line, unit);
    forall b: LatticeBox | b.Ordered()
      ensures AreaOf(b.At(line)) == Total(|b.Cells()|, unit * unit)
    {
      AreaAt(b, line, unit);
    }
    CountCells(AreaOf, boxes, line, unit * unit);
  }
}
