/** The letterbox transform and the way back (firemex/detect/onnx_backend.py, letterbox and
    the coordinate formulas of the two decoders). */
module Letterbox {
  import opened Geometry

  // ---- arithmetic ----------------------------------------------------------

  /** Rounding to the nearest integer, halves to the even one. */
  function Round(x: real): int {
    var f := x.Floor;
    var d := x - f as real;
    if d < 0.5 || (d == 0.5 && f % 2 == 0) then f else f + 1
  }

  lemma RoundLaws(x: real, n: int)
    ensures x - 0.5 <= Round(x) as real <= x + 0.5
    ensures x <= n as real ==> Round(x) <= n
    ensures x == n as real ==> Round(x) == n
  {}

  /** Halfway between two integers the even one is taken. */
  lemma RoundHalfEven(n: int)
    ensures Round(n as real + 0.5) % 2 == 0
  {
    assert (n as real + 0.5).Floor == n;
  }

  lemma Divide(a: real, b: real, s: real)
    requires s > 0.0
    ensures a / s < b / s <==> a < b
    ensures a / s <= b / s <==> a <= b
  {}

  // ---- the transform -------------------------------------------------------

  function Scale(height: nat, width: nat, size: nat): real
    requires height > 0 && width > 0
  {
    Min(size as real / height as real, size as real / width as real)
  }

  function Resized(length: nat, scale: real): int {
    var r := Round(length as real * scale);
    if r < 1 then 1 else r
  }

  /** Floor division, as the source's. */
  function Pad(size: int, length: int): int {
    (size - length) / 2
  }

  lemma ResizedFits(length: nat, size: nat, scale: real)
    requires length > 0 && size > 0 && scale <= size as real / length as real
    ensures 1 <= Resized(length, scale) <= size
    ensures scale == size as real / length as real ==> Resized(length, scale) == size
    ensures var exact := length as real * scale;
            Resized(length, scale) as real - exact <= 0.5 || Resized(length, scale) == 1
    ensures length as real * scale - Resized(length, scale) as real <= 0.5
  {}

  /** The resized image always fits its canvas, centred to within one pixel, and fills it in
      at least one direction; both sides are within half a pixel of true proportion, unless
      that would leave less than one pixel. */
  lemma AlwaysFits(height: nat, width: nat, size: nat)
    requires height > 0 && width > 0 && size > 0
    ensures var scale := Scale(height, width, size);
            var h, w := Resized(height, scale), Resized(width, scale);
            var padY, padX := Pad(size, h), Pad(size, w);
            && scale > 0.0 && h >= 1 && w >= 1
            && 0 <= padY && padY + h <= size && 0 <= padX && padX + w <= size
            && 0 <= size - h - 2 * padY <= 1 && 0 <= size - w - 2 * padX <= 1
            && (h == size || w == size)
            && (h as real - height as real * scale <= 0.5 || h == 1) && height as real * scale - h as real <= 0.5
            && (w as real - width as real * scale <= 0.5 || w == 1) && width as real * scale - w as real <= 0.5
  {
    var scale := Scale(height, width, size);
    Divide(0.0, size as real, height as real);
    Divide(0.0, size as real, width as real);
    ResizedFits(height, size, scale);
    ResizedFits(width, size, scale);
  }

  // ---- coordinates ---------------------------------------------------------

  datatype Transform = Transform(scale: real, padX: int, padY: int, height: nat, width: nat) {
    predicate Valid() { scale > 0.0 && height > 0 && width > 0 }
  }

  function TransformOf(height: nat, width: nat, size: nat): (t: Transform)
    requires height > 0 && width > 0 && size > 0
    ensures t.Valid()
  {
    var scale := Scale(height, width, size);
    Divide(0.0, size as real, height as real);
    Divide(0.0, size as real, width as real);
    Transform(scale, Pad(size, Resized(width, scale)), Pad(size, Resized(height, scale)), height, width)
  }

  /** Where a coordinate of the frame, as a fraction of `length`, lies on the canvas. */
  function Forward(x: real, scale: real, pad: int, length: nat): real {
    x * length as real * scale + pad as real
  }

  function Undo(x: real, scale: real, pad: int): real
    requires scale > 0.0
  {
    (x - pad as real) / scale
  }

  /** Canvas corners in pixels of the original frame. */
  function Unpad(t: Transform, c: Corners): Corners
    requires t.Valid()
  {
    Corners(Undo(c.x1, t.scale, t.padX), Undo(c.y1, t.scale, t.padY),
            Undo(c.x2, t.scale, t.padX), Undo(c.y2, t.scale, t.padY))
  }

  function Normalise(t: Transform, c: Corners): Corners
    requires t.Valid()
  {
    Corners(c.x1 / t.width as real, c.y1 / t.height as real, c.x2 / t.width as real, c.y2 / t.height as real)
  }

  /** A box of the frame as the network sees it. */
  function Project(t: Transform, b: Corners): Corners {
    Corners(Forward(b.x1, t.scale, t.padX, t.width), Forward(b.y1, t.scale, t.padY, t.height),
            Forward(b.x2, t.scale, t.padX, t.width), Forward(b.y2, t.scale, t.padY, t.height))
  }

  /** Corners from centre and size, as raw rows give them. */
  function FromCentre(cx: real, cy: real, w: real, h: real): Corners {
    Corners(cx - w / 2.0, cy - h / 2.0, cx + w / 2.0, cy + h / 2.0)
  }

  lemma UndoForward(x: real, scale: real, pad: int, length: nat)
    requires scale > 0.0 && length > 0
    ensures Undo(Forward(x, scale, pad, length), scale, pad) / length as real == x
  {}

  /** Centre and size of corners, as raw rows state them. */
  function CentreForm(c: Corners): (real, real, real, real) {
    ((c.x1 + c.x2) / 2.0, (c.y1 + c.y2) / 2.0, c.x2 - c.x1, c.y2 - c.y1)
  }

  lemma CentreFormInverts(c: Corners)
    ensures var (cx, cy, w, h) := CentreForm(c);
            FromCentre(cx, cy, w, h) == c
  {}

  /** Going back undoes the letterbox exactly, from corners and from centre and size. */
  lemma DecodeInverts(t: Transform, b: Corners)
    requires t.Valid()
    ensures Normalise(t, Unpad(t, Project(t, b))) == b
    ensures var (cx, cy, w, h) := CentreForm(Project(t, b));
            Normalise(t, Unpad(t, FromCentre(cx, cy, w, h))) == b
  {
    CentreFormInverts(Project(t, b));
    UndoForward(b.x1, t.scale, t.padX, t.width);
    UndoForward(b.x2, t.scale, t.padX, t.width);
    UndoForward(b.y1, t.scale, t.padY, t.height);
    UndoForward(b.y2, t.scale, t.padY, t.height);
  }

  /** Going back keeps the order of corners, and loses none. */
  lemma DecodeKeepsOrder(t: Transform, c: Corners)
    requires t.Valid()
    ensures var p := Unpad(t, c);
            var n := Normalise(t, p);
            && (p.x1 < p.x2 <==> c.x1 < c.x2) && (p.y1 < p.y2 <==> c.y1 < c.y2)
            && (n.x1 < n.x2 <==> c.x1 < c.x2) && (n.y1 < n.y2 <==> c.y1 < c.y2)
            && (n.x1 <= n.x2 <==> c.x1 <= c.x2) && (n.y1 <= n.y2 <==> c.y1 <= c.y2)
  {}

  // ---- what the network sees -----------------------------------------------

  lemma ScaleFits(length: nat, size: nat, scale: real)
    requires length > 0 && 0.0 < scale <= size as real / length as real
    ensures 0.0 < length as real * scale <= size as real
  {
    Divide(length as real * scale, size as real, length as real);
    assert length as real * scale / length as real == scale;
  }

  lemma Part(x: real, exact: real, y: real)
    requires 0.0 <= x <= 1.0 && exact >= 0.0 && y == x * exact
    ensures 0.0 <= y <= exact
  {}

  lemma PlacedFits(x: real, exact: real, y: real, size: nat, r: int)
    requires 0.0 <= x <= 1.0 && 1 <= r <= size && 0.0 < exact <= size as real && exact - r as real <= 0.5
    requires y == x * exact
    ensures 0.0 <= y + Pad(size, r) as real <= size as real
  {
    Part(x, exact, y);
    PadFits(size, r, y);
  }

  lemma PadFits(size: nat, r: int, y: real)
    requires 1 <= r <= size && 0.0 <= y <= size as real && y - r as real <= 0.5
    ensures 0.0 <= y + Pad(size, r) as real <= size as real
  {}

  lemma Regroup(x: real, length: real, scale: real)
    ensures x * length * scale == x * (length * scale)
  {}

  /** A coordinate of the frame lands on the canvas. */
  lemma ForwardFits(x: real, scale: real, length: nat, size: nat)
    requires 0.0 <= x <= 1.0 && length > 0 && size > 0 && 0.0 < scale <= size as real / length as real
    ensures 0.0 <= Forward(x, scale, Pad(size, Resized(length, scale)), length) <= size as real
  {
    ScaleFits(length, size, scale);
    ResizedFits(length, size, scale);
    Regroup(x, length as real, scale);
    PlacedFits(x, length as real * scale, x * length as real * scale, size, Resized(length, scale));
  }

  /** The network is shown the whole frame: every box of it lies on the canvas. */
  lemma FrameIsShown(height: nat, width: nat, size: nat, b: BBox)
    requires height > 0 && width > 0 && size > 0 && Within(b, Corners(0.0, 0.0, 1.0, 1.0))
    ensures var p := Project(TransformOf(height, width, size), b);
            0.0 <= p.x1 && 0.0 <= p.y1 && p.x2 <= size as real && p.y2 <= size as real
  {
    var t := TransformOf(height, width, size);
    ForwardFits(b.x1, t.scale, width, size);
    ForwardFits(b.x2, t.scale, width, size);
    ForwardFits(b.y1, t.scale, height, size);
    ForwardFits(b.y2, t.scale, height, size);
  }

  lemma ForwardEnds(scale: real, pad: int, length: nat)
    ensures Forward(0.0, scale, pad, length) == pad as real
    ensures Forward(1.0, scale, pad, length) == length as real * scale + pad as real
  {}

  /** An end of a side lands within half a pixel of the end of the resized image, or within one if
      the image is kept from vanishing. */
  predicate LandsOn(p: real, pad: int, length: int) {
    -0.5 <= pad as real + length as real - p && (pad as real + length as real - p <= 0.5 || length == 1)
  }

  lemma SideLands(length: nat, size: nat, scale: real)
    requires length > 0 && size > 0 && scale <= size as real / length as real
    ensures var r := Resized(length, scale);
            LandsOn(Forward(1.0, scale, Pad(size, r), length), Pad(size, r), r)
  {
    ResizedFits(length, size, scale);
    ForwardEnds(scale, Pad(size, Resized(length, scale)), length);
  }

  /** Where the frame's corners land: the first on the corner of the resized image, the last on the
      opposite one. */
  lemma FrameLandsOnImage(height: nat, width: nat, size: nat)
    requires height > 0 && width > 0 && size > 0
    ensures var t := TransformOf(height, width, size);
            var p := Project(t, Corners(0.0, 0.0, 1.0, 1.0));
            && p.x1 == t.padX as real && p.y1 == t.padY as real
            && LandsOn(p.x2, t.padX, Resized(width, t.scale)) && LandsOn(p.y2, t.padY, Resized(height, t.scale))
  {
    var t := TransformOf(height, width, size);
    SideLands(height, size, t.scale);
    SideLands(width, size, t.scale);
    ForwardEnds(t.scale, t.padX, width);
    ForwardEnds(t.scale, t.padY, height);
  }
}
