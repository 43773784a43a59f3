/** The two output decoders (firemex/detect/onnx_backend.py, _decode and _decode_end2end). */
module Decoders {
  import opened Geometry
  import opened Letterbox
  import opened Nms

  /** A raw row: centre, size and one score for each class. */
  datatype RawRow = RawRow(cx: real, cy: real, w: real, h: real, scores: seq<real>)

  /** An end-to-end row: corners, score and class number. */
  datatype EndRow = EndRow(corners: Corners, score: real, cls: real)

  /** The canonical label of each class, or none for a class that is to be dropped. */
  type LabelMap = map<int, Option<Label>>

  predicate Canonical(labels: LabelMap) {
    forall k :: k in labels && labels[k].Some? ==> labels[k].value == Fire || labels[k].value == Smoke
  }

  function LabelOf(labels: LabelMap, cls: int): Option<Label> {
    if cls in labels then labels[cls] else None
  }

  /** The first class of the highest score. */
  function ArgMax(scores: seq<real>): (k: nat)
    requires scores != []
    ensures k < |scores|
    ensures forall i :: 0 <= i < |scores| ==> scores[i] <= scores[k]
    ensures forall i :: 0 <= i < k ==> scores[i] < scores[k]
  {
    var n := |scores| - 1;
    if n == 0 then 0
    else
      var k := ArgMax(scores[..n]);
      if scores[n] > scores[k] then n else k
  }

  /** What one row leads to: nothing, a detection, or the exception of the box constructor. */
  datatype Emission = Skip | Emits(detection: Detection) | Fault

  /** The common end of both decoders. */
  function EmitBox(kind: Label, score: real, n: Corners): Emission {
    match MakeBox(n.x1, n.y1, n.x2, n.y2)
    case None => Fault
    case Some(box) =>
      var clipped := Clipped(box);
      if clipped.Area() <= 0.0 then Skip else Emits(Detection(kind, score, clipped))
  }

  function RawPixels(t: Transform, row: RawRow): Corners
    requires t.Valid()
  {
    Unpad(t, FromCentre(row.cx, row.cy, row.w, row.h))
  }

  function EmitRaw(t: Transform, labels: LabelMap, row: RawRow): Emission
    requires t.Valid() && row.scores != []
  {
    var k := ArgMax(row.scores);
    match LabelOf(labels, k)
    case None => Skip
    case Some(kind) => EmitBox(kind, row.scores[k], Normalise(t, RawPixels(t, row)))
  }

  function EmitPixels(t: Transform, kind: Label, score: real, p: Corners): Emission
    requires t.Valid()
  {
    if p.x2 <= p.x1 || p.y2 <= p.y1 then Skip else EmitBox(kind, score, Normalise(t, p))
  }

  function EmitEnd(t: Transform, labels: LabelMap, row: EndRow): Emission
    requires t.Valid()
  {
    match LabelOf(labels, Round(row.cls))
    case None => Skip
    case Some(kind) => EmitPixels(t, kind, row.score, Unpad(t, row.corners))
  }

  /** The detections in order; nothing at all if a row faults. */
  function Collect(es: seq<Emission>): Option<seq<Detection>> {
    if es == [] then Some([])
    else
      match Collect(es[..|es| - 1])
      case None => None
      case Some(ds) =>
        match es[|es| - 1]
        case Fault => None
        case Skip => Some(ds)
        case Emits(d) => Some(ds + [d])
  }

  // ---- the decoders --------------------------------------------------------

  predicate Shaped(rows: seq<RawRow>) {
    forall i :: 0 <= i < |rows| ==> rows[i].scores != []
  }

  function BestScore(row: RawRow): real
    requires row.scores != []
  {
    row.scores[ArgMax(row.scores)]
  }

  /** The rows that reach the confidence floor. */
  function Confident(rows: seq<RawRow>, floor: real): (r: seq<RawRow>)
    requires Shaped(rows)
    ensures Shaped(r)
    ensures forall row :: row in r <==> row in rows && BestScore(row) >= floor
  {
    if rows == [] then []
    else
      var n := |rows| - 1;
      var front := Confident(rows[..n], floor);
      assert rows == rows[..n] + [rows[n]];
      if BestScore(rows[n]) >= floor then front + [rows[n]] else front
  }

  function ConfidentEnd(rows: seq<EndRow>, floor: real): (r: seq<EndRow>)
    ensures forall row :: row in r <==> row in rows && row.score >= floor
  {
    if rows == [] then []
    else
      var n := |rows| - 1;
      var front := ConfidentEnd(rows[..n], floor);
      assert rows == rows[..n] + [rows[n]];
      if rows[n].score >= floor then front + [rows[n]] else front
  }

  function PixelBoxes(t: Transform, rows: seq<RawRow>): (r: seq<Corners>)
    requires t.Valid()
    ensures |r| == |rows|
  {
    seq(|rows|, i requires 0 <= i < |rows| => RawPixels(t, rows[i]))
  }

  function BestScores(rows: seq<RawRow>): (r: seq<real>)
    requires Shaped(rows)
    ensures |r| == |rows|
  {
    seq(|rows|, i requires 0 <= i < |rows| => BestScore(rows[i]))
  }

  function EmissionsRaw(t: Transform, labels: LabelMap, rows: seq<RawRow>, keep: seq<nat>): (r: seq<Emission>)
    requires t.Valid() && Shaped(rows) && forall i :: 0 <= i < |keep| ==> keep[i] < |rows|
    ensures |r| == |keep|
  {
    seq(|keep|, i requires 0 <= i < |keep| => EmitRaw(t, labels, rows[keep[i]]))
  }

  function EmissionsEnd(t: Transform, labels: LabelMap, rows: seq<EndRow>): (r: seq<Emission>)
    requires t.Valid()
    ensures |r| == |rows|
  {
    seq(|rows|, i requires 0 <= i < |rows| => EmitEnd(t, labels, rows[i]))
  }

  /** The confident rows that survive suppression, in its order. */
  function Survivors(t: Transform, rows: seq<RawRow>, iou: real, sorted: seq<nat>): (keep: seq<nat>)
    requires t.Valid() && Shaped(rows) && Argsorted(BestScores(rows), sorted)
    ensures forall i :: 0 <= i < |keep| ==> keep[i] < |rows|
  {
    SelectedInOrder(Overlapping(PixelBoxes(t, rows), iou), BestScores(rows), sorted);
    Selected(Overlapping(PixelBoxes(t, rows), iou), sorted)
  }

  /** The raw decoder.  `sorted` is the order its suppression puts the confident rows in. */
  method DecodeRaw(t: Transform, labels: LabelMap, rows: seq<RawRow>, floor: real, iou: real, sorted: seq<nat>)
    returns (result: Option<seq<Detection>>)
    requires t.Valid() && Shaped(rows)
    requires Argsorted(BestScores(Confident(rows, floor)), sorted)
    ensures var confident := Confident(rows, floor);
            result == Collect(EmissionsRaw(t, labels, confident, Survivors(t, confident, iou, sorted)))
    ensures iou >= 0.0 ==> (result == None <==> FaultGiven(labels, rows, floor))
  {
    RawFaultsExactlyWhen(t, labels, rows, floor, iou, sorted);
    var confident := Confident(rows, floor);
    var boxes, scores := PixelBoxes(t, confident), BestScores(confident);
    var keep := Suppress(boxes, scores, sorted, iou);
    SelectedInOrder(Overlapping(boxes, iou), scores, sorted);
    result := EmitKept(t, labels, confident, keep);
  }

  /** The body of the emission loop. */
  method EmitRow(t: Transform, labels: LabelMap, row: RawRow) returns (e: Emission)
    requires t.Valid() && row.scores != []
    ensures e == EmitRaw(t, labels, row)
  {
    var k := ArgMax(row.scores);
    var kind := LabelOf(labels, k);
    if kind.None? {
      return Skip;
    }
    var n := Normalise(t, RawPixels(t, row));
    var made := MakeBox(n.x1, n.y1, n.x2, n.y2);
    if made.None? {
      return Fault;
    }
    var box := Clipped(made.value);
    if box.Area() <= 0.0 {
      return Skip;
    }
    return Emits(Detection(kind.value, row.scores[k], box));
  }

  method EmitKept(t: Transform, labels: LabelMap, rows: seq<RawRow>, keep: seq<nat>)
    returns (result: Option<seq<Detection>>)
    requires t.Valid() && Shaped(rows) && forall i :: 0 <= i < |keep| ==> keep[i] < |rows|
    ensures result == Collect(EmissionsRaw(t, labels, rows, keep))
  {
    ghost var es := EmissionsRaw(t, labels, rows, keep);
    var out := [];
    for i := 0 to |keep|
      invariant Collect(es[..i]) == Some(out)
    {
      assert es[..i + 1][..i] == es[..i];
      var e := EmitRow(t, labels, rows[keep[i]]);
      if e == Fault {
        FaultStays(es, i + 1);
        return None;
      }
      if e.Emits? {
        out := out + [e.detection];
      }
    }
    assert es[..|keep|] == es;
    return Some(out);
  }

  method DecodeEnd(t: Transform, labels: LabelMap, rows: seq<EndRow>, floor: real) returns (out: seq<Detection>)
    requires t.Valid()
    ensures Collect(EmissionsEnd(t, labels, ConfidentEnd(rows, floor))) == Some(out)
  {
    var confident := ConfidentEnd(rows, floor);
    ghost var es := EmissionsEnd(t, labels, confident);
    out := [];
    for i := 0 to |confident|
      invariant Collect(es[..i]) == Some(out)
    {
      assert es[..i + 1][..i] == es[..i];
      var row := confident[i];
      var kind := LabelOf(labels, Round(row.cls));
      if kind.None? {
        continue;
      }
      var p := Unpad(t, row.corners);
      if p.x2 <= p.x1 || p.y2 <= p.y1 {
        continue;
      }
      DecodeKeepsOrder(t, row.corners);
      var n := Normalise(t, p);
      var box := Clipped(MakeBox(n.x1, n.y1, n.x2, n.y2).value);
      if box.Area() <= 0.0 {
        continue;
      }
      out := out + [Detection(kind.value, row.score, box)];
    }
    assert es[..|confident|] == es;
  }

  lemma {:induction false} FaultStays(es: seq<Emission>, n: nat)
    requires n <= |es| && Collect(es[..n]) == None
    ensures Collect(es) == None
  {
    if n == |es| {
      assert es[..n] == es;
    } else {
      assert es[..|es| - 1][..n] == es[..n];
      FaultStays(es[..|es| - 1], n);
    }
  }

  // ---- what they emit ------------------------------------------------------

  const FRAME: BBox := Corners(0.0, 0.0, 1.0, 1.0)

  /** What the incident engine may rely on. */
  predicate Sound(d: Detection) {
    Within(d.box, FRAME) && d.box.Area() > 0.0 && (d.kind == Fire || d.kind == Smoke)
  }

  lemma {:induction false} CollectLaws(es: seq<Emission>)
    ensures Collect(es) == None <==> Fault in es
    ensures Collect(es).Some? ==> forall d :: d in Collect(es).value <==> Emits(d) in es
  {
    if es != [] {
      var front, last := es[..|es| - 1], es[|es| - 1];
      CollectLaws(front);
      assert es == front + [last];
    }
  }

  lemma ClampOrder(a: real, b: real)
    requires a <= b
    ensures Clamp01(a) < Clamp01(b) <==> Max(a, 0.0) < Min(b, 1.0)
  {}

  lemma ClippedArea(n: BBox)
    ensures Clipped(n).Area() > 0.0 <==> Overlap(n, FRAME)
  {
    ClampOrder(n.x1, n.x2);
    ClampOrder(n.y1, n.y2);
    FlatArea(Clipped(n));
  }

  /** A box faults exactly if its corners are out of order, and is emitted, clipped to the
      frame, exactly if its interior meets the frame's. */
  lemma EmitBoxLaws(kind: Label, score: real, n: Corners)
    ensures EmitBox(kind, score, n) == Fault <==> !n.Ordered()
    ensures n.Ordered() ==>
              EmitBox(kind, score, n) == (if Overlap(n, FRAME) then Emits(Detection(kind, score, Clipped(n))) else Skip)
  {
    if n.Ordered() {
      ClippedArea(n);
    }
  }

  lemma EmittedBox(kind: Label, score: real, n: Corners)
    requires EmitBox(kind, score, n).Emits?
    ensures var d := EmitBox(kind, score, n).detection;
            d.kind == kind && d.confidence == score && Within(d.box, FRAME) && d.box.Area() > 0.0
  {
    EmitBoxLaws(kind, score, n);
    ClippedArea(n);
    ClippedLaws(n);
  }

  predicate Inverted(row: RawRow) {
    row.w < 0.0 || row.h < 0.0
  }

  /** A row of a known class whose width or height is negative. */
  predicate Faulty(labels: LabelMap, row: RawRow)
    requires row.scores != []
  {
    LabelOf(labels, ArgMax(row.scores)).Some? && Inverted(row)
  }

  lemma RowFaultsExactlyWhen(t: Transform, labels: LabelMap, row: RawRow)
    requires t.Valid() && row.scores != []
    ensures EmitRaw(t, labels, row) == Fault <==> Faulty(labels, row)
    ensures RawPixels(t, row).Ordered() <==> !Inverted(row)
  {
    var c := FromCentre(row.cx, row.cy, row.w, row.h);
    DecodeKeepsOrder(t, c);
    var k := ArgMax(row.scores);
    if LabelOf(labels, k).Some? {
      EmitBoxLaws(LabelOf(labels, k).value, row.scores[k], Normalise(t, Unpad(t, c)));
    }
  }

  predicate KeepsFault(labels: LabelMap, rows: seq<RawRow>, keep: seq<nat>)
    requires Shaped(rows) && forall i :: 0 <= i < |keep| ==> keep[i] < |rows|
  {
    exists k :: k in keep && Faulty(labels, rows[k])
  }

  lemma KeptFaultsExactlyWhen(t: Transform, labels: LabelMap, rows: seq<RawRow>, keep: seq<nat>)
    requires t.Valid() && Shaped(rows) && forall i :: 0 <= i < |keep| ==> keep[i] < |rows|
    ensures Collect(EmissionsRaw(t, labels, rows, keep)) == None <==> KeepsFault(labels, rows, keep)
  {
    var es := EmissionsRaw(t, labels, rows, keep);
    CollectLaws(es);
    forall i | 0 <= i < |keep|
      ensures es[i] == Fault <==> Faulty(labels, rows[keep[i]])
    {
      RowFaultsExactlyWhen(t, labels, rows[keep[i]]);
    }
    if Fault in es {
      var i :| 0 <= i < |es| && es[i] == Fault;
      assert keep[i] in keep;
    }
    forall k | k in keep && Faulty(labels, rows[k])
      ensures Fault in es
    {
      var i :| 0 <= i < |keep| && keep[i] == k;
      assert es[i] in es;
    }
  }

  lemma FaultySurvives(t: Transform, labels: LabelMap, rows: seq<RawRow>, iou: real, sorted: seq<nat>, k: nat)
    requires t.Valid() && Shaped(rows) && Argsorted(BestScores(rows), sorted)
    requires k < |rows| && Faulty(labels, rows[k]) && iou >= 0.0
    ensures k in Survivors(t, rows, iou, sorted)
  {
    RowFaultsExactlyWhen(t, labels, rows[k]);
    InvertedIsSelected(PixelBoxes(t, rows), BestScores(rows), sorted, iou, k);
  }

  /** Some row given is confident, of a known class and of negative width or height. */
  predicate FaultGiven(labels: LabelMap, rows: seq<RawRow>, floor: real)
    requires Shaped(rows)
  {
    exists row :: row in rows && BestScore(row) >= floor && Faulty(labels, row)
  }

  lemma FaultGivenSurvives(t: Transform, labels: LabelMap, rows: seq<RawRow>, floor: real, iou: real,
                           sorted: seq<nat>)
    requires t.Valid() && Shaped(rows) && Argsorted(BestScores(Confident(rows, floor)), sorted) && iou >= 0.0
    ensures var c := Confident(rows, floor);
            FaultGiven(labels, rows, floor) <==> KeepsFault(labels, c, Survivors(t, c, iou, sorted))
  {
    var c := Confident(rows, floor);
    var keep := Survivors(t, c, iou, sorted);
    if KeepsFault(labels, c, keep) {
      var k :| k in keep && Faulty(labels, c[k]);
      assert c[k] in c;
    }
    if FaultGiven(labels, rows, floor) {
      var row :| row in rows && BestScore(row) >= floor && Faulty(labels, row);
      assert row in c;
      var k :| 0 <= k < |c| && c[k] == row;
      FaultySurvives(t, labels, c, iou, sorted, k);
      assert k in keep;
    }
  }

  lemma FirstSurvives(t: Transform, labels: LabelMap, c: seq<RawRow>, iou: real, sorted: seq<nat>)
    requires t.Valid() && Shaped(c) && Argsorted(BestScores(c), sorted) && iou < 0.0
    ensures (c != [] && Faulty(labels, c[sorted[0]])) <==>
            KeepsFault(labels, c, Survivors(t, c, iou, sorted))
  {
    if c != [] {
      OnlyBestBelowZero(PixelBoxes(t, c), sorted, iou);
      assert Survivors(t, c, iou, sorted) == [sorted[0]];
      assert sorted[0] in Survivors(t, c, iou, sorted);
    }
  }

  /** Where the raw decoder raises, told from the rows given: suppression removes no such row
      (under a negative threshold it removes all but the first). */
  lemma RawFaultsExactlyWhen(t: Transform, labels: LabelMap, rows: seq<RawRow>, floor: real, iou: real,
                             sorted: seq<nat>)
    requires t.Valid() && Shaped(rows) && Argsorted(BestScores(Confident(rows, floor)), sorted)
    ensures var c := Confident(rows, floor);
            Collect(EmissionsRaw(t, labels, c, Survivors(t, c, iou, sorted))) == None <==>
            if iou >= 0.0 then FaultGiven(labels, rows, floor) else c != [] && Faulty(labels, c[sorted[0]])
  {
    var c := Confident(rows, floor);
    KeptFaultsExactlyWhen(t, labels, c, Survivors(t, c, iou, sorted));
    if iou >= 0.0 {
      FaultGivenSurvives(t, labels, rows, floor, iou, sorted);
    } else {
      FirstSurvives(t, labels, c, iou, sorted);
    }
  }

  const SQUARE := Transform(1.0, 0, 0, 1, 1)

  const BACKWARD := RawRow(0.5, 0.5, -1.0, 1.0, [1.0])

  lemma OneRow(row: RawRow, floor: real)
    requires row.scores != [] && BestScore(row) >= floor
    ensures Confident([row], floor) == [row] && Argsorted(BestScores([row]), [0])
  {
    assert [row][..0] == [];
    assert Confident([], floor) == [] && [] + [row] == [row];
    var order: seq<nat> := [0];
    assert order[0] in order;
  }

  /** One row of negative width, which no confidence floor up to its score keeps out. */
  lemma OneBackwardRow(floor: real, iou: real)
    requires floor <= 1.0
    ensures Confident([BACKWARD], floor) == [BACKWARD] && Argsorted(BestScores([BACKWARD]), [0])
    ensures var labels: LabelMap := map[0 := Some(Fire)];
            Collect(EmissionsRaw(SQUARE, labels, [BACKWARD], Survivors(SQUARE, [BACKWARD], iou, [0]))) == None
  {
    var labels: LabelMap := map[0 := Some(Fire)];
    OneRow(BACKWARD, floor);
    assert BACKWARD in [BACKWARD] && Faulty(labels, BACKWARD);
    RawFaultsExactlyWhen(SQUARE, labels, [BACKWARD], floor, iou, [0]);
  }

  lemma SoundEmission(t: Transform, labels: LabelMap, row: RawRow)
    requires t.Valid() && row.scores != [] && Canonical(labels)
    ensures var e := EmitRaw(t, labels, row);
            e.Emits? ==> Sound(e.detection) && e.detection.confidence == BestScore(row)
  {}

  /** Everything the raw decoder emits is sound and confident. */
  lemma RawIsSound(t: Transform, labels: LabelMap, rows: seq<RawRow>, floor: real, keep: seq<nat>)
    requires t.Valid() && Shaped(rows) && Canonical(labels)
    requires forall i :: 0 <= i < |keep| ==> keep[i] < |Confident(rows, floor)|
    ensures var out := Collect(EmissionsRaw(t, labels, Confident(rows, floor), keep));
            out.Some? ==> forall d :: d in out.value ==> Sound(d) && d.confidence >= floor
  {
    var confident := Confident(rows, floor);
    var es := EmissionsRaw(t, labels, confident, keep);
    CollectLaws(es);
    forall i | 0 <= i < |es|
      ensures es[i].Emits? ==> Sound(es[i].detection) && es[i].detection.confidence >= floor
    {
      SoundEmission(t, labels, confident[keep[i]]);
      assert confident[keep[i]] in confident;
    }
  }

  /** Everything the end-to-end decoder emits is sound and confident. */
  lemma EndIsSound(t: Transform, labels: LabelMap, rows: seq<EndRow>, floor: real)
    requires t.Valid() && Canonical(labels)
    ensures var out := Collect(EmissionsEnd(t, labels, ConfidentEnd(rows, floor)));
            out.Some? ==> forall d :: d in out.value ==> Sound(d) && d.confidence >= floor
  {
    var confident := ConfidentEnd(rows, floor);
    var es := EmissionsEnd(t, labels, confident);
    CollectLaws(es);
    forall i | 0 <= i < |es|
      ensures es[i].Emits? ==> Sound(es[i].detection) && es[i].detection.confidence >= floor
    {
      var row := confident[i];
      assert row in confident;
      var kind := LabelOf(labels, Round(row.cls));
      if es[i].Emits? {
        EmittedBox(kind.value, row.score, Normalise(t, Unpad(t, row.corners)));
      }
    }
  }

  /** The extra check of the end-to-end decoder only skips what would be skipped anyway. */
  lemma FlatIsSkipped(kind: Label, score: real, n: Corners)
    requires n.Ordered() && (n.x2 <= n.x1 || n.y2 <= n.y1)
    ensures EmitBox(kind, score, n) == Skip
  {
    EmitBoxLaws(kind, score, n);
  }

  lemma PixelsAgree(t: Transform, kind: Label, score: real, c: Corners)
    requires t.Valid() && c.Ordered()
    ensures EmitPixels(t, kind, score, Unpad(t, c)) == EmitBox(kind, score, Normalise(t, Unpad(t, c)))
  {
    DecodeKeepsOrder(t, c);
    var p := Unpad(t, c);
    var n := Normalise(t, p);
    if n.x2 <= n.x1 || n.y2 <= n.y1 {
      FlatIsSkipped(kind, score, n);
    }
  }

  /** The class of an end-to-end row is the integer nearest to the number it gives. */
  lemma NearestClass(t: Transform, labels: LabelMap, row: EndRow, k: int)
    requires t.Valid() && k as real - 0.5 < row.cls < k as real + 0.5
    ensures EmitEnd(t, labels, row) == EmitEnd(t, labels, row.(cls := k as real))
  {
    RoundLaws(row.cls, k);
    RoundLaws(k as real, k);
  }

  /** The same box in either layout: unless the raw decoder raises, both decoders do the same
      with it. */
  lemma LayoutsAgree(t: Transform, labels: LabelMap, row: RawRow)
    requires t.Valid() && row.scores != [] && EmitRaw(t, labels, row) != Fault
    ensures var k := ArgMax(row.scores);
            var c := FromCentre(row.cx, row.cy, row.w, row.h);
            EmitEnd(t, labels, EndRow(c, row.scores[k], k as real)) == EmitRaw(t, labels, row)
  {
    var k := ArgMax(row.scores);
    RoundLaws(k as real, k);
    RowFaultsExactlyWhen(t, labels, row);
    var c := FromCentre(row.cx, row.cy, row.w, row.h);
    if LabelOf(labels, k).Some? {
      PixelsAgree(t, LabelOf(labels, k).value, row.scores[k], c);
    }
  }

  /** A box of the frame, seen through the letterbox and decoded, comes back as it was. */
  lemma DecodeRoundTrip(t: Transform, labels: LabelMap, b: BBox, scores: seq<real>)
    requires t.Valid() && scores != [] && LabelOf(labels, ArgMax(scores)).Some?
    requires Within(b, FRAME) && b.Area() > 0.0
    ensures var (cx, cy, w, h) := CentreForm(Project(t, b));
            var k := ArgMax(scores);
            var d := Detection(LabelOf(labels, k).value, scores[k], b);
            && EmitRaw(t, labels, RawRow(cx, cy, w, h, scores)) == Emits(d)
            && EmitEnd(t, labels, EndRow(Project(t, b), scores[k], k as real)) == Emits(d)
  {
    var (cx, cy, w, h) := CentreForm(Project(t, b));
    var row := RawRow(cx, cy, w, h, scores);
    CentreFormInverts(Project(t, b));
    DecodeInverts(t, b);
    ClippedLaws(b);
    LayoutsAgree(t, labels, row);
  }
}
