/** Boxes and labels shared by the whole pipeline (firemex/detect/base.py). */
module Geometry {

  function Min(a: real, b: real): real { if a <= b then a else b }

  function Max(a: real, b: real): real { if a >= b then a else b }

  /** Four coordinates, in no particular order: what a detector row decodes to. */
  datatype Corners = Corners(x1: real, y1: real, x2: real, y2: real) {
    predicate Ordered() { x1 <= x2 && y1 <= y2 }

    function Width(): real { x2 - x1 }

    function Height(): real { y2 - y1 }

    function Area(): real { Width() * Height() }
  }

  /** A box: constructing one from corners out of order is an error in the source. */
  type BBox = c: Corners | c.Ordered() witness Corners(0.0, 0.0, 0.0, 0.0)

  datatype Option<+T> = None | Some(value: T)

  predicate Distinct<T(==)>(s: seq<T>) {
    forall i, j :: 0 <= i < j < |s| ==> s[i] != s[j]
  }

  function Repeat<T>(x: T, n: nat): (r: seq<T>)
    ensures |r| == n && forall i :: 0 <= i < n ==> r[i] == x
  {
    seq(n, i => x)
  }

  /** The box constructor, which refuses corners that are out of order. */
  function MakeBox(x1: real, y1: real, x2: real, y2: real): Option<BBox> {
    var c := Corners(x1, y1, x2, y2);
    if x2 < x1 || y2 < y1 then None else Some(c)
  }

  function Union(a: BBox, b: BBox): BBox {
    Corners(Min(a.x1, b.x1), Min(a.y1, b.y1), Max(a.x2, b.x2), Max(a.y2, b.y2))
  }

  function Clamp01(v: real): real { Min(Max(v, 0.0), 1.0) }

  function Clipped(b: BBox): BBox {
    Corners(Clamp01(b.x1), Clamp01(b.y1), Clamp01(b.x2), Clamp01(b.y2))
  }

  /** The interiors meet. */
  predicate Overlap(a: BBox, b: BBox) {
    Max(a.x1, b.x1) < Min(a.x2, b.x2) && Max(a.y1, b.y1) < Min(a.y2, b.y2)
  }

  function Intersection(a: BBox, b: BBox): real {
    if Overlap(a, b) then
      (Min(a.x2, b.x2) - Max(a.x1, b.x1)) * (Min(a.y2, b.y2) - Max(a.y1, b.y1))
    else 0.0
  }

  function Iou(a: BBox, b: BBox): real {
    if !Overlap(a, b) then 0.0
    else
      var denominator := a.Area() + b.Area() - Intersection(a, b);
      if denominator > 0.0 then Intersection(a, b) / denominator else 0.0
  }

  /** Membership in the closed box. */
  predicate Contains(b: BBox, x: real, y: real) {
    b.x1 <= x <= b.x2 && b.y1 <= y <= b.y2
  }

  /** Membership in the open box. */
  predicate Inside(b: BBox, x: real, y: real) {
    b.x1 < x < b.x2 && b.y1 < y < b.y2
  }

  predicate Within(a: BBox, b: BBox) {
    b.x1 <= a.x1 && a.x2 <= b.x2 && b.y1 <= a.y1 && a.y2 <= b.y2
  }

  datatype Label = Fire | Smoke | Other(name: string)

  datatype Detection = Detection(kind: Label, confidence: real, box: BBox)

  lemma MulMono(a: real, b: real, c: real, d: real)
    requires 0.0 <= a <= c && 0.0 <= b <= d
    ensures 0.0 <= a * b <= c * d
  {}

  lemma WithinArea(a: BBox, b: BBox)
    requires Within(a, b)
    ensures 0.0 <= a.Area() <= b.Area()
  {
    MulMono(a.Width(), a.Height(), b.Width(), b.Height());
  }

  /** The union is the least box that contains both. */
  lemma UnionIsLeast(a: BBox, b: BBox, c: BBox)
    ensures Within(a, Union(a, b)) && Within(b, Union(a, b))
    ensures Within(a, c) && Within(b, c) <==> Within(Union(a, b), c)
  {}

  /** Scaling by a positive factor keeps and reflects the order. */
  lemma MulOrder(a: real, b: real, c: real)
    requires c > 0.0
    ensures a < b <==> a * c < b * c
    ensures a <= b <==> a * c <= b * c
  {}

  lemma FlatArea(b: BBox)
    ensures b.Area() > 0.0 <==> b.x1 < b.x2 && b.y1 < b.y2
    ensures b.Area() >= 0.0
  {}

  lemma DivideUnit(n: real, d: real)
    requires 0.0 < n <= d
    ensures 0.0 < n / d <= 1.0
    ensures n / d == 1.0 <==> n == d
  {}

  lemma SameProduct(a: real, b: real, c: real, d: real)
    requires 0.0 < a <= c && 0.0 < b <= d && a * b >= c * d
    ensures a == c && b == d
  {}

  /** A box inside another of the same positive area is that box. */
  lemma SameArea(a: BBox, b: BBox)
    requires Within(a, b) && a.Area() >= b.Area() > 0.0
    ensures a == b
  {
    FlatArea(b);
    FlatArea(a);
    SameProduct(a.Width(), a.Height(), b.Width(), b.Height());
  }

  /** The common part of two boxes; it is flat when their interiors do not meet. */
  function Meet(a: BBox, b: BBox): BBox {
    var x1, y1 := Max(a.x1, b.x1), Max(a.y1, b.y1);
    Corners(x1, y1, Max(x1, Min(a.x2, b.x2)), Max(y1, Min(a.y2, b.y2)))
  }

  lemma MeetArea(a: BBox, b: BBox)
    ensures Intersection(a, b) == Meet(a, b).Area()
    ensures Intersection(a, b) > 0.0 <==> Overlap(a, b)
    ensures 0.0 <= Intersection(a, b) <= a.Area()
    ensures Intersection(a, b) <= b.Area()
  {
    FlatArea(Meet(a, b));
    FlatArea(a);
    FlatArea(b);
    if Overlap(a, b) {
      WithinArea(Meet(a, b), a);
      WithinArea(Meet(a, b), b);
    }
  }

  /** IoU is a symmetric ratio in [0, 1], positive exactly when the interiors meet,
      and 1 exactly on equal boxes of positive area. */
  lemma IouLaws(a: BBox, b: BBox)
    ensures 0.0 <= Iou(a, b) <= 1.0
    ensures Iou(a, b) == Iou(b, a)
    ensures Iou(a, b) > 0.0 <==> Overlap(a, b)
    ensures Iou(a, b) == 1.0 <==> a == b && a.Area() > 0.0
  {
    FlatArea(a);
    if Overlap(a, b) {
      MeetArea(a, b);
      MeetArea(b, a);
      var i := Intersection(a, b);
      var d := a.Area() + b.Area() - i;
      assert Meet(a, b) == Meet(b, a);
      assert Iou(a, b) == i / d && Iou(b, a) == i / d;
      DivideUnit(i, d);
      if i == d {
        SameArea(Meet(a, b), a);
        SameArea(Meet(a, b), b);
      }
    }
  }

  /** Clipping keeps a box inside the unit square and is the identity there. */
  lemma ClippedLaws(b: BBox)
    ensures Within(Clipped(b), Corners(0.0, 0.0, 1.0, 1.0))
    ensures Within(b, Corners(0.0, 0.0, 1.0, 1.0)) <==> Clipped(b) == b
    ensures Clipped(Clipped(b)) == Clipped(b)
  {}

  /** A box that meets the unit square is cut down to what they have in common. */
  lemma ClippedIsCommon(b: BBox, x: real, y: real)
    requires b.x1 <= 1.0 && b.y1 <= 1.0 && 0.0 <= b.x2 && 0.0 <= b.y2
    ensures Contains(Clipped(b), x, y) <==> Contains(b, x, y) && 0.0 <= x <= 1.0 && 0.0 <= y <= 1.0
  {}
}
