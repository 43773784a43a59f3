/** Exclusion zones (firemex/incident/zones.py): the ray-casting point test, the sampled
    overlap of a box with a polygon, and the bounding-box shortcut in front of it. */
module Zones {
  import opened Geometry

  datatype Point = Point(x: real, y: real)

  type Polygon = seq<Point>

  // ---- the ray-casting test ------------------------------------------------

  /** Where the line through a and b meets the horizontal at y. */
  function CrossX(a: Point, b: Point, y: real): real
    requires a.y != b.y
  {
    a.x + (y - a.y) / (b.y - a.y) * (b.x - a.x)
  }

  /** The ray from p to the right crosses the edge from a to b. */
  predicate Crosses(p: Point, a: Point, b: Point) {
    (a.y > p.y) != (b.y > p.y) && p.x < CrossX(a, b, p.y)
  }

  /** Whether the ray crosses an open chain of vertices an odd number of times. */
  predicate OddCrossings(p: Point, chain: seq<Point>) {
    |chain| >= 2 && Crosses(p, chain[0], chain[1]) != OddCrossings(p, chain[1..])
  }

  /** A closed polygon is the chain that returns to its first vertex. */
  function Closed(polygon: Polygon): seq<Point>
    requires polygon != []
  {
    polygon + [polygon[0]]
  }

  predicate InPolygon(p: Point, polygon: Polygon) {
    polygon != [] && OddCrossings(p, Closed(polygon))
  }

  method PointInPolygon(p: Point, polygon: Polygon) returns (inside: bool)
    ensures inside == InPolygon(p, polygon)
  {
    inside := false;
    var count := |polygon|;
    for i := 0 to count
      invariant inside == (count > 0 && OddCrossings(p, Closed(polygon)[..i + 1]))
    {
      var a, b := polygon[i], polygon[(i + 1) % count];
      NextEdge(p, polygon, i);
      if (a.y > p.y) != (b.y > p.y) {
        if p.x < CrossX(a, b, p.y) {
          inside := !inside;
        }
      }
    }
    if count > 0 {
      assert Closed(polygon)[..count + 1] == Closed(polygon);
    }
  }

  lemma Wrap(i: nat, n: nat)
    requires i < n
    ensures (i + 1) % n == if i + 1 == n then 0 else i + 1
  {}

  lemma NextEdge(p: Point, polygon: Polygon, i: nat)
    requires i < |polygon|
    ensures OddCrossings(p, Closed(polygon)[..i + 2]) <==>
            OddCrossings(p, Closed(polygon)[..i + 1]) != Crosses(p, polygon[i], polygon[(i + 1) % |polygon|])
  {
    var chain, a, b := Closed(polygon), polygon[i], polygon[(i + 1) % |polygon|];
    Wrap(i, |polygon|);
    assert chain[..i + 2] == chain[..i] + [a] + [b];
    assert chain[..i + 1] == chain[..i] + [a];
    AddEdge(p, chain[..i], a, b);
  }

  lemma {:induction false} AddEdge(p: Point, chain: seq<Point>, a: Point, b: Point)
    ensures OddCrossings(p, chain + [a] + [b]) <==> OddCrossings(p, chain + [a]) != Crosses(p, a, b)
  {
    Join(p, chain, a, [b]);
    assert chain + [a] + [b] == chain + ([a] + [b]);
    assert ([a] + [b])[1..] == [b];
  }

  /** Crossings add up where two chains meet. */
  lemma {:induction false} Join(p: Point, c: seq<Point>, v: Point, d: seq<Point>)
    ensures OddCrossings(p, c + [v] + d) <==> OddCrossings(p, c + [v]) != OddCrossings(p, [v] + d)
  {
    if c == [] {
      assert [] + [v] + d == [v] + d && c + [v] == [v];
    } else {
      Join(p, c[1..], v, d);
      assert (c + [v] + d)[1..] == c[1..] + [v] + d;
      assert (c + [v])[1..] == c[1..] + [v];
      if |c| > 1 {
      } else {
        assert c[1..] + [v] == [v];
      }
    }
  }

  // ---- the answer does not depend on where the vertex list starts or turns --

  lemma RotateChain(p: Point, a: Polygon, b: Polygon)
    requires a != [] && b != []
    ensures InPolygon(p, a + b) <==> OddCrossings(p, a + [b[0]]) != OddCrossings(p, b + [a[0]])
  {
    assert Closed(a + b) == a + [b[0]] + (b[1..] + [a[0]]);
    Join(p, a, b[0], b[1..] + [a[0]]);
    assert [b[0]] + (b[1..] + [a[0]]) == b + [a[0]];
  }

  lemma RotationInvariant(p: Point, a: Polygon, b: Polygon)
    ensures InPolygon(p, a + b) <==> InPolygon(p, b + a)
  {
    if a == [] || b == [] {
      assert a + b == b + a;
    } else {
      RotateChain(p, a, b);
      RotateChain(p, b, a);
    }
  }

  lemma EdgeSymmetric(p: Point, a: Point, b: Point)
    ensures Crosses(p, a, b) <==> Crosses(p, b, a)
  {}

  function Reverse(c: seq<Point>): (r: seq<Point>)
    ensures |r| == |c|
  {
    if c == [] then [] else Reverse(c[1..]) + [c[0]]
  }

  lemma {:induction false} ReverseChain(p: Point, c: seq<Point>)
    ensures OddCrossings(p, Reverse(c)) <==> OddCrossings(p, c)
  {
    if |c| >= 2 {
      ReverseChain(p, c[1..]);
      var r := Reverse(c[2..]);
      assert Reverse(c[1..]) == r + [c[1]] by { assert c[1..][1..] == c[2..]; }
      AddEdge(p, r, c[1], c[0]);
      EdgeSymmetric(p, c[0], c[1]);
    }
  }

  lemma {:induction false} ReverseOfAppend(c: seq<Point>, v: Point)
    ensures Reverse(c + [v]) == [v] + Reverse(c)
  {
    if c == [] {
      assert c + [v] == [v] && [v][1..] == [];
    } else {
      ReverseOfAppend(c[1..], v);
      assert (c + [v])[1..] == c[1..] + [v];
    }
  }

  lemma ReversalInvariant(p: Point, polygon: Polygon)
    ensures InPolygon(p, Reverse(polygon)) <==> InPolygon(p, polygon)
  {
    if polygon != [] {
      var first := polygon[0];
      var closed := Closed(polygon);
      var r := Reverse(polygon[1..]);
      ReverseChain(p, closed);
      ReverseOfAppend(polygon, first);
      assert Reverse(polygon) == r + [first];
      assert Reverse(closed) == [first] + r + [first];
      assert Closed([first] + r) == Reverse(closed);
      RotationInvariant(p, r, [first]);
    }
  }

  /** Cutting a polygon along a chord: a point is in the whole when it is in exactly one
      of the two parts. */
  lemma ChordSplits(p: Point, u: Point, c: seq<Point>, v: Point, d: seq<Point>)
    ensures InPolygon(p, [u] + c + [v] + d) <==>
            InPolygon(p, [u] + c + [v]) != InPolygon(p, [v] + d + [u])
  {
    var one, two := [u] + c, [v] + d;
    assert [u] + c + [v] + d == one + two;
    RotateChain(p, one, two);
    AddEdge(p, one, v, u);
    AddEdge(p, two, u, v);
    EdgeSymmetric(p, u, v);
    assert Closed([u] + c + [v]) == one + [v] + [u];
    assert Closed([v] + d + [u]) == two + [u] + [v];
  }

  // ---- triangles -----------------------------------------------------------

  /** On which side of the line from a to b the point lies: twice the signed area of p, a, b. */
  function Side(p: Point, a: Point, b: Point): real {
    (a.x - p.x) * (b.y - p.y) - (a.y - p.y) * (b.x - p.x)
  }

  /** p lies on the segment from a to b, ends included. */
  predicate OnEdge(p: Point, a: Point, b: Point) {
    && Side(p, a, b) == 0.0
    && Min(a.x, b.x) <= p.x <= Max(a.x, b.x) && Min(a.y, b.y) <= p.y <= Max(a.y, b.y)
  }

  lemma QuotientOrder(n: real, d: real, u: real, v: real, q: real)
    requires d > 0.0 && q == n / d
    ensures v < q * u <==> v * d < n * u
  {
    assert q * d == n;
    MulOrder(v, q * u, d);
    assert q * u * d == n * u;
  }

  /** An upward edge is crossed exactly from its left. */
  lemma UpwardCrossing(p: Point, a: Point, b: Point)
    requires a.y <= p.y < b.y
    ensures Crosses(p, a, b) <==> Side(p, a, b) > 0.0
  {
    var n, d, u, v := p.y - a.y, b.y - a.y, b.x - a.x, p.x - a.x;
    var q := n / d;
    QuotientOrder(n, d, u, v, q);
    SideFrom(p, a, b);
    assert Side(p, a, b) == n * u - v * d;
    assert CrossX(a, b, p.y) == a.x + q * u;
    assert p.x < CrossX(a, b, p.y) <==> v < q * u;
  }

  lemma SideFrom(p: Point, a: Point, b: Point)
    ensures Side(p, a, b) == (p.y - a.y) * (b.x - a.x) - (p.x - a.x) * (b.y - a.y)
  {}

  lemma SideBack(p: Point, a: Point, b: Point)
    ensures Side(p, b, a) == -Side(p, a, b)
  {}

  /** What a crossing is, for every edge: it passes the height of p, its lower end included, with
      p on the left of it as seen going up. */
  lemma CrossesExactlyWhen(p: Point, a: Point, b: Point)
    ensures Crosses(p, a, b) <==>
            (a.y <= p.y < b.y && Side(p, a, b) > 0.0) || (b.y <= p.y < a.y && Side(p, a, b) < 0.0)
  {
    if a.y <= p.y < b.y {
      UpwardCrossing(p, a, b);
    } else if b.y <= p.y < a.y {
      UpwardCrossing(p, b, a);
      EdgeSymmetric(p, a, b);
      SideBack(p, a, b);
    }
  }

  lemma ThreeEdges(p: Point, a: Point, b: Point, c: Point)
    ensures InPolygon(p, [a, b, c]) <==> (Crosses(p, a, b) != (Crosses(p, b, c) != Crosses(p, c, a)))
  {
    assert Closed([a, b, c]) == [a, b, c, a];
    assert [a, b, c, a][1..] == [b, c, a];
    assert [b, c, a][1..] == [c, a];
    assert [c, a][1..] == [a];
    assert !OddCrossings(p, [a]);
    assert OddCrossings(p, [c, a]) <==> Crosses(p, c, a);
    assert OddCrossings(p, [b, c, a]) <==> (Crosses(p, b, c) != Crosses(p, c, a));
  }

  /** The corners, weighted by the sides opposite, balance at p. */
  lemma Balance(p: Point, a: Point, b: Point, c: Point)
    ensures Side(p, b, c) * (a.y - p.y) + Side(p, c, a) * (b.y - p.y) + Side(p, a, b) * (c.y - p.y) == 0.0
  {}

  /** p is on the same side of all three edges. */
  predicate SameSide(p: Point, a: Point, b: Point, c: Point) {
    || (Side(p, a, b) > 0.0 && Side(p, b, c) > 0.0 && Side(p, c, a) > 0.0)
    || (Side(p, a, b) < 0.0 && Side(p, b, c) < 0.0 && Side(p, c, a) < 0.0)
  }

  lemma Sign(u: real, v: real, x: real)
    requires x == u * v
    ensures u > 0.0 ==> (x > 0.0 <==> v > 0.0) && (x < 0.0 <==> v < 0.0)
    ensures u < 0.0 ==> (x > 0.0 <==> v < 0.0) && (x < 0.0 <==> v > 0.0)
    ensures u == 0.0 ==> x == 0.0
  {}

  /** What three weighted heights that balance say about the weights. */
  lemma Balanced(s: real, t: real, r: real, u: real, v: real, w: real)
    requires s * u + t * v + r * w == 0.0
    ensures (s > 0.0 && t > 0.0 && r > 0.0) || (s < 0.0 && t < 0.0 && r < 0.0) ==>
              !(u > 0.0 && v > 0.0 && w > 0.0) && (u <= 0.0 && v <= 0.0 && w <= 0.0 ==> u == 0.0 && v == 0.0)
    ensures (u > 0.0 && v > 0.0 && w <= 0.0) || (u <= 0.0 && v <= 0.0 && w > 0.0 && !(u == 0.0 && v == 0.0)) ==>
              (s > 0.0 && t > 0.0 ==> r > 0.0) && (s < 0.0 && t < 0.0 ==> r < 0.0)
  {
    Sign(s, u, s * u);
    Sign(t, v, t * v);
    Sign(r, w, r * w);
    Sign(w, r, r * w);
  }

  lemma Level(p: Point, a: Point, b: Point)
    requires a.y == p.y && b.y == p.y
    ensures Side(p, a, b) == 0.0
  {}

  /** With no corner above p, or all of them, p is not on the same side of all edges. */
  lemma AllOnOneSide(p: Point, a: Point, b: Point, c: Point)
    requires (a.y > p.y && b.y > p.y && c.y > p.y) || (a.y <= p.y && b.y <= p.y && c.y <= p.y)
    ensures !SameSide(p, a, b, c)
  {
    Balance(p, a, b, c);
    Balanced(Side(p, b, c), Side(p, c, a), Side(p, a, b), a.y - p.y, b.y - p.y, c.y - p.y);
    if a.y == p.y && b.y == p.y {
      Level(p, a, b);
    }
  }

  lemma QuotientUnit(n: real, d: real, q: real)
    requires 0.0 <= n < d && q == n / d
    ensures 0.0 <= q < 1.0
  {
    assert q * d == n;
    MulOrder(0.0, q, d);
    MulOrder(q, 1.0, d);
  }

  lemma QuotientEqual(n: real, d: real, u: real, v: real, q: real)
    requires d > 0.0 && q == n / d && n * u == v * d
    ensures v == q * u
  {
    QuotientOrder(n, d, u, v, q);
    QuotientOrder(n, d, -u, -v, q);
    assert q * -u == -(q * u);
  }

  /** On the line of an edge that passes its height, p is on the edge. */
  lemma OnPassingEdge(p: Point, a: Point, b: Point)
    requires a.y <= p.y < b.y && Side(p, a, b) == 0.0
    ensures OnEdge(p, a, b)
  {
    var n, d, u, v := p.y - a.y, b.y - a.y, b.x - a.x, p.x - a.x;
    var q := n / d;
    SideFrom(p, a, b);
    assert Side(p, a, b) == n * u - v * d;
    QuotientEqual(n, d, u, v, q);
    QuotientUnit(n, d, q);
    Mix(a.x, b.x, q);
    assert p.x == a.x + q * (b.x - a.x);
  }

  lemma OnEdgeBack(p: Point, a: Point, b: Point)
    ensures OnEdge(p, a, b) <==> OnEdge(p, b, a)
  {
    SideBack(p, a, b);
  }

  lemma LevelSides(p: Point, a: Point, b: Point, c: Point)
    requires a.y == p.y && b.y == p.y && c.y > p.y
    ensures Side(p, b, c) > 0.0 <==> b.x > p.x
    ensures Side(p, b, c) < 0.0 <==> b.x < p.x
    ensures Side(p, c, a) > 0.0 <==> a.x < p.x
    ensures Side(p, c, a) < 0.0 <==> a.x > p.x
  {
    Sign(c.y - p.y, b.x - p.x, Side(p, b, c));
    Sign(c.y - p.y, p.x - a.x, Side(p, c, a));
  }

  /** The third side follows from the two at c, if c alone is above p or alone is not. */
  lemma ThirdSide(p: Point, a: Point, b: Point, c: Point)
    requires (a.y > p.y) == (b.y > p.y) && (a.y > p.y) != (c.y > p.y) && !OnEdge(p, a, b)
    ensures Side(p, b, c) > 0.0 && Side(p, c, a) > 0.0 ==> Side(p, a, b) > 0.0
    ensures Side(p, b, c) < 0.0 && Side(p, c, a) < 0.0 ==> Side(p, a, b) < 0.0
  {
    Balance(p, a, b, c);
    Balanced(Side(p, b, c), Side(p, c, a), Side(p, a, b), a.y - p.y, b.y - p.y, c.y - p.y);
    if a.y == p.y && b.y == p.y {
      Level(p, a, b);
      LevelSides(p, a, b, c);
    }
  }

  /** p is on the line of neither edge at c. */
  lemma OffLines(p: Point, a: Point, b: Point, c: Point)
    requires (a.y > p.y) == (b.y > p.y) && (a.y > p.y) != (c.y > p.y) && !OnEdge(p, b, c) && !OnEdge(p, c, a)
    ensures Side(p, b, c) != 0.0 && Side(p, c, a) != 0.0
  {
    OnLine(p, b, c);
    OnLine(p, c, a);
  }

  lemma OnLine(p: Point, a: Point, b: Point)
    requires (a.y > p.y) != (b.y > p.y)
    ensures Side(p, a, b) == 0.0 ==> OnEdge(p, a, b)
  {
    OnEdgeBack(p, a, b);
    SideBack(p, a, b);
    if Side(p, a, b) == 0.0 {
      if b.y > p.y {
        OnPassingEdge(p, a, b);
      } else {
        OnPassingEdge(p, b, a);
      }
    }
  }

  /** c alone is above p, or alone is not: p is inside exactly if it is on the same side of the
      two edges at c, and then of the third. */
  lemma OneAlone(p: Point, a: Point, b: Point, c: Point)
    requires (a.y > p.y) == (b.y > p.y) && (a.y > p.y) != (c.y > p.y)
    requires !OnEdge(p, a, b) && !OnEdge(p, b, c) && !OnEdge(p, c, a)
    ensures InPolygon(p, [a, b, c]) <==> SameSide(p, a, b, c)
  {
    ThreeEdges(p, a, b, c);
    CrossesExactlyWhen(p, b, c);
    CrossesExactlyWhen(p, c, a);
    ThirdSide(p, a, b, c);
    OffLines(p, a, b, c);
  }

  lemma NoneAlone(p: Point, a: Point, b: Point, c: Point)
    requires (a.y > p.y && b.y > p.y && c.y > p.y) || (a.y <= p.y && b.y <= p.y && c.y <= p.y)
    ensures !InPolygon(p, [a, b, c]) && !SameSide(p, a, b, c)
  {
    ThreeEdges(p, a, b, c);
    AllOnOneSide(p, a, b, c);
  }

  lemma RotateTriangle(p: Point, a: Point, b: Point, c: Point)
    ensures InPolygon(p, [a, b, c]) <==> InPolygon(p, [b, c, a])
  {
    ThreeEdges(p, a, b, c);
    ThreeEdges(p, b, c, a);
  }

  lemma AloneAtLast(p: Point, a: Point, b: Point, c: Point)
    requires (a.y > p.y) == (b.y > p.y) && !OnEdge(p, a, b) && !OnEdge(p, b, c) && !OnEdge(p, c, a)
    ensures InPolygon(p, [a, b, c]) <==> SameSide(p, a, b, c)
  {
    if (a.y > p.y) == (c.y > p.y) {
      NoneAlone(p, a, b, c);
    } else {
      OneAlone(p, a, b, c);
    }
  }

  /** A point off the edges of a triangle tests inside exactly if it is on the same side of all
      three: together with the chords this fixes the test on every polygon that can be cut into
      triangles. */
  lemma TriangleIsMembership(p: Point, a: Point, b: Point, c: Point)
    requires !OnEdge(p, a, b) && !OnEdge(p, b, c) && !OnEdge(p, c, a)
    ensures InPolygon(p, [a, b, c]) <==> SameSide(p, a, b, c)
  {
    RotateTriangle(p, a, b, c);
    RotateTriangle(p, b, c, a);
    if (a.y > p.y) == (b.y > p.y) {
      AloneAtLast(p, a, b, c);
    } else if (b.y > p.y) == (c.y > p.y) {
      AloneAtLast(p, b, c, a);
    } else {
      AloneAtLast(p, c, a, b);
    }
  }

  // ---- bounds --------------------------------------------------------------

  predicate WithinBounds(polygon: Polygon, b: BBox) {
    forall k :: 0 <= k < |polygon| ==> Contains(b, polygon[k].x, polygon[k].y)
  }

  /** min and max of both coordinates; the source fails on an empty list. */
  function Bounds(polygon: Polygon): (b: BBox)
    requires polygon != []
    ensures WithinBounds(polygon, b)
    ensures forall c: BBox :: WithinBounds(polygon, c) ==> Within(b, c)
  {
    var v := polygon[0];
    if |polygon| == 1 then Corners(v.x, v.y, v.x, v.y)
    else
      var rest := Bounds(polygon[1..]);
      assert forall c: BBox :: WithinBounds(polygon, c) ==> WithinBounds(polygon[1..], c);
      Corners(Min(v.x, rest.x1), Min(v.y, rest.y1), Max(v.x, rest.x2), Max(v.y, rest.y2))
  }

  /** An edge that straddles the ray meets it between its two ends. */
  lemma CrossBetween(a: Point, b: Point, y: real)
    requires (a.y > y) != (b.y > y)
    ensures Min(a.x, b.x) <= CrossX(a, b, y) <= Max(a.x, b.x)
  {
    var n, d := y - a.y, b.y - a.y;
    var t := n / d;
    assert t * d == n;
    if d > 0.0 {
      MulOrder(0.0, t, d);
      MulOrder(t, 1.0, d);
    } else {
      assert t * -d == -n;
      MulOrder(0.0, t, -d);
      MulOrder(t, 1.0, -d);
    }
    Mix(a.x, b.x, t);
  }

  lemma Mix(a: real, b: real, t: real)
    requires 0.0 <= t <= 1.0
    ensures Min(a, b) <= a + t * (b - a) <= Max(a, b)
  {
    if a <= b {
      MulMono(t, b - a, 1.0, b - a);
    } else {
      MulMono(t, a - b, 1.0, a - b);
      assert t * (b - a) == -(t * (a - b));
    }
  }

  /** To the left of a chain the ray crosses it an even number of times exactly when the
      chain ends on the side of the ray it started on; to the right, and above or below,
      it never crosses. */
  lemma {:induction false} OutsideChain(p: Point, chain: seq<Point>, b: BBox)
    requires chain != [] && WithinBounds(chain, b) && !Contains(b, p.x, p.y)
    ensures OddCrossings(p, chain) ==> (chain[0].y > p.y) != (chain[|chain| - 1].y > p.y)
    ensures p.x < b.x1 ==> (OddCrossings(p, chain) <==> (chain[0].y > p.y) != (chain[|chain| - 1].y > p.y))
    ensures p.x >= b.x1 ==> !OddCrossings(p, chain)
  {
    if |chain| >= 2 {
      OutsideChain(p, chain[1..], b);
      if (chain[0].y > p.y) != (chain[1].y > p.y) {
        CrossBetween(chain[0], chain[1], p.y);
      }
    }
  }

  /** No point outside the bounds of a polygon is inside the polygon. */
  lemma OutsideBounds(p: Point, polygon: Polygon)
    requires polygon != [] && !Contains(Bounds(polygon), p.x, p.y)
    ensures !InPolygon(p, polygon)
  {
    OutsideChain(p, Closed(polygon), Bounds(polygon));
  }

  // ---- sampled overlap -----------------------------------------------------

  /** The k-th of n sample coordinates between lo and lo + length. */
  function Sample(lo: real, length: real, k: nat, n: nat): real
    requires n > 0
  {
    lo + length * (k as real + 0.5) / n as real
  }

  lemma SampleInside(lo: real, length: real, k: nat, n: nat)
    requires k < n && length > 0.0
    ensures lo < Sample(lo, length, k, n) < lo + length
  {
    var m, s := k as real + 0.5, n as real;
    var q := length * m / s;
    MulOrder(0.0, m, length);
    MulOrder(m, s, length);
    QuotientBetween(length * m, s, length, q);
  }

  lemma QuotientBetween(n: real, d: real, top: real, q: real)
    requires d > 0.0 && q == n / d && 0.0 < n < top * d
    ensures 0.0 < q < top
  {}

  predicate SampleHit(box: BBox, polygon: Polygon, i: nat, j: nat, n: nat)
    requires n > 0
  {
    InPolygon(Point(Sample(box.x1, box.Width(), i, n), Sample(box.y1, box.Height(), j, n)), polygon)
  }

  function ColumnHits(box: BBox, polygon: Polygon, i: nat, j: nat, n: nat): nat
    requires n > 0
  {
    if j == 0 then 0
    else ColumnHits(box, polygon, i, j - 1, n) + if SampleHit(box, polygon, i, j - 1, n) then 1 else 0
  }

  function SampleHits(box: BBox, polygon: Polygon, i: nat, n: nat): nat
    requires n > 0
  {
    if i == 0 then 0 else SampleHits(box, polygon, i - 1, n) + ColumnHits(box, polygon, i - 1, n, n)
  }

  function Ratio(hits: nat, total: nat): real
    requires total > 0
  {
    hits as real / total as real
  }

  /** The fraction of the n by n sample points of a box that lie in the polygon. */
  function OverlapFraction(box: BBox, polygon: Polygon, n: nat): real
    requires n > 0
  {
    if box.Area() <= 0.0 then 0.0 else Ratio(SampleHits(box, polygon, n, n), n * n)
  }

  predicate BoundsIntersect(a: BBox, b: BBox) {
    !(a.x2 < b.x1 || b.x2 < a.x1 || a.y2 < b.y1 || b.y2 < a.y1)
  }

  lemma {:induction false} NoColumnHits(box: BBox, polygon: Polygon, i: nat, j: nat, n: nat)
    requires 0 < n && i < n && j <= n && box.Area() > 0.0
    requires polygon != [] && !BoundsIntersect(box, Bounds(polygon))
    ensures ColumnHits(box, polygon, i, j, n) == 0
  {
    if j > 0 {
      NoColumnHits(box, polygon, i, j - 1, n);
      FlatArea(box);
      SampleInside(box.x1, box.Width(), i, n);
      SampleInside(box.y1, box.Height(), j - 1, n);
      OutsideBounds(Point(Sample(box.x1, box.Width(), i, n), Sample(box.y1, box.Height(), j - 1, n)), polygon);
    }
  }

  lemma {:induction false} NoHits(box: BBox, polygon: Polygon, i: nat, n: nat)
    requires 0 < n && i <= n && box.Area() > 0.0
    requires polygon != [] && !BoundsIntersect(box, Bounds(polygon))
    ensures SampleHits(box, polygon, i, n) == 0
  {
    if i > 0 {
      NoHits(box, polygon, i - 1, n);
      NoColumnHits(box, polygon, i - 1, n, n);
    }
  }

  /** The source's computation, with its early exit; the exit never changes the answer. */
  method BoxOverlapFraction(box: BBox, polygon: Polygon, samples: nat) returns (fraction: real)
    requires samples > 0 && polygon != []
    ensures fraction == OverlapFraction(box, polygon, samples)
  {
    if box.Area() <= 0.0 {
      return 0.0;
    }
    if !BoundsIntersect(box, Bounds(polygon)) {
      NoHits(box, polygon, samples, samples);
      return 0.0;
    }
    var inside := 0;
    var total := samples * samples;
    for i := 0 to samples
      invariant inside == SampleHits(box, polygon, i, samples)
    {
      var x := Sample(box.x1, box.Width(), i, samples);
      for j := 0 to samples
        invariant inside == SampleHits(box, polygon, i, samples) + ColumnHits(box, polygon, i, j, samples)
      {
        var y := Sample(box.y1, box.Height(), j, samples);
        var hit := PointInPolygon(Point(x, y), polygon);
        if hit {
          inside := inside + 1;
        }
      }
    }
    assert total > 0;
    return Ratio(inside, total);
  }

  // ---- rectangular zones ---------------------------------------------------

  function Rectangle(b: BBox): Polygon {
    [Point(b.x1, b.y1), Point(b.x2, b.y1), Point(b.x2, b.y2), Point(b.x1, b.y2)]
  }

  lemma VerticalEdge(p: Point, x: real, y1: real, y2: real)
    ensures Crosses(p, Point(x, y1), Point(x, y2)) <==> Min(y1, y2) <= p.y < Max(y1, y2) && p.x < x
  {}

  /** For a rectangle the test is membership, with the left and top edges included. */
  lemma RectangleIsMembership(p: Point, b: BBox)
    ensures InPolygon(p, Rectangle(b)) <==> b.x1 <= p.x < b.x2 && b.y1 <= p.y < b.y2
  {
    FourEdges(p, Point(b.x1, b.y1), Point(b.x2, b.y1), Point(b.x2, b.y2), Point(b.x1, b.y2));
    VerticalEdge(p, b.x2, b.y1, b.y2);
    VerticalEdge(p, b.x1, b.y2, b.y1);
  }

  lemma FourEdges(p: Point, a: Point, b: Point, c: Point, d: Point)
    ensures InPolygon(p, [a, b, c, d]) <==>
            (Crosses(p, a, b) != (Crosses(p, b, c) != (Crosses(p, c, d) != Crosses(p, d, a))))
  {
    assert Closed([a, b, c, d]) == [a, b, c, d, a];
    assert [a, b, c, d, a][1..] == [b, c, d, a];
    assert [b, c, d, a][1..] == [c, d, a];
    assert [c, d, a][1..] == [d, a];
    assert [d, a][1..] == [a];
    assert !OddCrossings(p, [a]);
    assert OddCrossings(p, [d, a]) <==> Crosses(p, d, a);
    assert OddCrossings(p, [c, d, a]) <==> (Crosses(p, c, d) != Crosses(p, d, a));
    assert OddCrossings(p, [b, c, d, a]) <==> (Crosses(p, b, c) != OddCrossings(p, [c, d, a]));
  }

  lemma {:induction false} AllColumnHits(box: BBox, zone: BBox, i: nat, j: nat, n: nat)
    requires 0 < n && i < n && j <= n && box.Area() > 0.0 && Within(box, zone)
    ensures ColumnHits(box, Rectangle(zone), i, j, n) == j
  {
    if j > 0 {
      AllColumnHits(box, zone, i, j - 1, n);
      FlatArea(box);
      SampleInside(box.x1, box.Width(), i, n);
      SampleInside(box.y1, box.Height(), j - 1, n);
      RectangleIsMembership(Point(Sample(box.x1, box.Width(), i, n), Sample(box.y1, box.Height(), j - 1, n)), zone);
    }
  }

  lemma {:induction false} AllHits(box: BBox, zone: BBox, i: nat, n: nat)
    requires 0 < n && i <= n && box.Area() > 0.0 && Within(box, zone)
    ensures SampleHits(box, Rectangle(zone), i, n) == i * n
  {
    if i > 0 {
      AllHits(box, zone, i - 1, n);
      AllColumnHits(box, zone, i - 1, n, n);
      assert i * n == (i - 1) * n + n;
    }
  }

  lemma FullRatio(total: nat)
    requires total > 0
    ensures Ratio(total, total) == 1.0
  {}

  /** Overlap with a rectangular zone is complete for a box within it. */
  lemma RectangleOverlap(box: BBox, zone: BBox, n: nat)
    requires n > 0 && box.Area() > 0.0 && Within(box, zone)
    ensures OverlapFraction(box, Rectangle(zone), n) == 1.0
  {
    AllHits(box, zone, n, n);
    assert n * n > 0;
    FullRatio(n * n);
  }

  // ---- zones that cover whole parts of a box -------------------------------

  /** The k-th of the lines that cut a length into n equal parts. */
  function Cut(lo: real, length: real, k: nat, n: nat): real
    requires n > 0
  {
    lo + length * k as real / n as real
  }

  lemma CutsRise(lo: real, length: real, k: nat, m: nat, n: nat)
    requires n > 0 && length > 0.0 && k <= m
    ensures Cut(lo, length, k, n) <= Cut(lo, length, m, n)
  {
    Shares(length, k as real, m as real, n as real);
  }

  lemma Shares(length: real, a: real, b: real, n: real)
    requires n > 0.0 && length > 0.0
    ensures a < b ==> length * a / n < length * b / n
    ensures a <= b ==> length * a / n <= length * b / n
  {
    MulOrder(a, b, length);
    QuotientOrdered(length * a, length * b, n);
  }

  lemma QuotientOrdered(a: real, b: real, n: real)
    requires n > 0.0
    ensures a < b ==> a / n < b / n
    ensures a <= b ==> a / n <= b / n
  {}

  /** Each part has its own sample. */
  lemma SampleInPart(lo: real, length: real, k: nat, n: nat)
    requires n > 0 && length > 0.0
    ensures Cut(lo, length, k, n) < Sample(lo, length, k, n) < Cut(lo, length, k + 1, n)
  {
    Shares(length, k as real, k as real + 0.5, n as real);
    Shares(length, k as real + 0.5, (k + 1) as real, n as real);
  }

  lemma SampleAmong(lo: real, length: real, k: nat, a: nat, b: nat, n: nat)
    requires n > 0 && length > 0.0 && a <= b
    ensures Cut(lo, length, a, n) <= Sample(lo, length, k, n) < Cut(lo, length, b, n) <==> a <= k < b
  {
    SampleInPart(lo, length, k, n);
    if k < a {
      CutsRise(lo, length, k + 1, a, n);
    } else {
      CutsRise(lo, length, a, k, n);
    }
    if k < b {
      CutsRise(lo, length, k + 1, b, n);
    } else {
      CutsRise(lo, length, b, k, n);
    }
  }

  /** A rectangle of whole parts of the box: columns i1 to i2 and rows j1 to j2 of n. */
  function Parts(box: BBox, i1: nat, i2: nat, j1: nat, j2: nat, n: nat): Corners
    requires n > 0
  {
    Corners(Cut(box.x1, box.Width(), i1, n), Cut(box.y1, box.Height(), j1, n),
            Cut(box.x1, box.Width(), i2, n), Cut(box.y1, box.Height(), j2, n))
  }

  lemma PartHit(box: BBox, zone: BBox, i1: nat, i2: nat, j1: nat, j2: nat, i: nat, j: nat, n: nat)
    requires 0 < n && box.Area() > 0.0 && i1 <= i2 && j1 <= j2 && zone == Parts(box, i1, i2, j1, j2, n)
    ensures SampleHit(box, Rectangle(zone), i, j, n) <==> i1 <= i < i2 && j1 <= j < j2
  {
    FlatArea(box);
    SampleAmong(box.x1, box.Width(), i, i1, i2, n);
    SampleAmong(box.y1, box.Height(), j, j1, j2, n);
    RectangleIsMembership(Point(Sample(box.x1, box.Width(), i, n), Sample(box.y1, box.Height(), j, n)), zone);
  }

  /** How many of the numbers below k lie from a to b. */
  function Among(k: nat, a: nat, b: nat): nat
    requires a <= b
  {
    if k <= a then 0 else if k <= b then k - a else b - a
  }

  lemma {:induction false} PartColumn(box: BBox, zone: BBox, i1: nat, i2: nat, j1: nat, j2: nat, i: nat, j: nat, n: nat)
    requires 0 < n && box.Area() > 0.0 && i1 <= i2 && j1 <= j2 && zone == Parts(box, i1, i2, j1, j2, n)
    ensures ColumnHits(box, Rectangle(zone), i, j, n) == if i1 <= i < i2 then Among(j, j1, j2) else 0
  {
    if j > 0 {
      PartColumn(box, zone, i1, i2, j1, j2, i, j - 1, n);
      PartHit(box, zone, i1, i2, j1, j2, i, j - 1, n);
    }
  }

  lemma {:induction false} PartHits(box: BBox, zone: BBox, i1: nat, i2: nat, j1: nat, j2: nat, i: nat, n: nat)
    requires 0 < n && box.Area() > 0.0 && i1 <= i2 && j1 <= j2 <= n && zone == Parts(box, i1, i2, j1, j2, n)
    ensures SampleHits(box, Rectangle(zone), i, n) == Among(i, i1, i2) * (j2 - j1)
  {
    if i > 0 {
      PartHits(box, zone, i1, i2, j1, j2, i - 1, n);
      PartColumn(box, zone, i1, i2, j1, j2, i - 1, n, n);
      OneColumnMore(Among(i - 1, i1, i2), j2 - j1);
    }
  }

  lemma OneColumnMore(w: nat, h: nat)
    ensures (w + 1) * h == w * h + h
  {}

  /** A zone that covers w columns and h rows of the n by n parts of a box overlaps it by exactly
      w h / n n, which is the share of its area. */
  lemma PartsOverlap(box: BBox, zone: BBox, i1: nat, i2: nat, j1: nat, j2: nat, n: nat)
    requires 0 < n && box.Area() > 0.0 && i1 <= i2 <= n && j1 <= j2 <= n && zone == Parts(box, i1, i2, j1, j2, n)
    ensures n * n > 0 && OverlapFraction(box, Rectangle(zone), n) == ((i2 - i1) * (j2 - j1)) as real / (n * n) as real
  {
    PartHits(box, zone, i1, i2, j1, j2, n, n);
    assert n * n > 0;
  }

  // ---- the mask of one camera ----------------------------------------------

  const SAMPLES: nat := 7

  /** zones holds only polygons of three or more points. */
  datatype ZoneMask = ZoneMask(zones: seq<Polygon>, threshold: real) {
    predicate Valid() {
      forall k :: 0 <= k < |zones| ==> |zones[k]| >= 3
    }

    predicate Excludes(box: BBox)
      requires Valid()
    {
      exists k :: 0 <= k < |zones| && OverlapFraction(box, zones[k], SAMPLES) >= threshold
    }
  }

  function Drawable(zones: seq<Polygon>): (r: seq<Polygon>)
    ensures forall z :: z in r <==> z in zones && |z| >= 3
  {
    if zones == [] then []
    else (if |zones[0]| >= 3 then [zones[0]] else []) + Drawable(zones[1..])
  }

  function MakeMask(zones: seq<Polygon>, threshold: real): (m: ZoneMask)
    ensures m.Valid()
  {
    ZoneMask(Drawable(zones), threshold)
  }

  /** Tests a box against the zones in turn, stopping at the first that excludes it. */
  method Excludes(mask: ZoneMask, box: BBox) returns (excluded: bool)
    requires mask.Valid()
    ensures excluded == mask.Excludes(box)
  {
    for k := 0 to |mask.zones|
      invariant forall m :: 0 <= m < k ==> OverlapFraction(box, mask.zones[m], SAMPLES) < mask.threshold
    {
      var fraction := BoxOverlapFraction(box, mask.zones[k], SAMPLES);
      if fraction >= mask.threshold {
        return true;
      }
    }
    return false;
  }

  /** A box that reaches the bounds of no zone is never excluded. */
  lemma KeptOutsideBounds(zones: seq<Polygon>, threshold: real, box: BBox)
    requires threshold > 0.0 && box.Area() > 0.0
    requires forall z :: z in zones && |z| >= 3 ==> !BoundsIntersect(box, Bounds(z))
    ensures !MakeMask(zones, threshold).Excludes(box)
  {
    var mask := MakeMask(zones, threshold);
    forall k | 0 <= k < |mask.zones|
      ensures OverlapFraction(box, mask.zones[k], SAMPLES) < threshold
    {
      assert mask.zones[k] in mask.zones;
      NoHits(box, mask.zones[k], SAMPLES, SAMPLES);
    }
  }

  /** A box that lies within a rectangular zone is always excluded. */
  lemma ExcludedWithinRectangle(zones: seq<Polygon>, threshold: real, box: BBox, zone: BBox)
    requires threshold <= 1.0 && box.Area() > 0.0
    requires Rectangle(zone) in zones && Within(box, zone)
    ensures MakeMask(zones, threshold).Excludes(box)
  {
    RectangleOverlap(box, zone, SAMPLES);
    assert Rectangle(zone) in MakeMask(zones, threshold).zones;
  }
}
