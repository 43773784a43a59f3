/** What the confirmation rules mean: the cluster rule as a count of nearby boxes, the
    envelope as a least box, and the area trends under growth and rescaling. */
module Rules {
  import opened Geometry
  import opened Measures
  import Zones
  import opened Confirmation

  // ---- spatial stability ---------------------------------------------------

  function CloseTo(boxes: seq<BBox>, seed: BBox, threshold: real): set<nat> {
    set k: nat | k < |boxes| && Iou(seed, boxes[k]) >= threshold
  }

  lemma {:induction false} SupportCounts(boxes: seq<BBox>, seed: BBox, threshold: real)
    ensures Support(boxes, seed, threshold) == |CloseTo(boxes, seed, threshold)|
  {
    if boxes == [] {
      assert CloseTo(boxes, seed, threshold) == {};
    } else {
      var n := |boxes| - 1;
      var front := boxes[..n];
      SupportCounts(front, seed, threshold);
      var last := if Iou(seed, boxes[n]) >= threshold then {n} else {};
      assert CloseTo(boxes, seed, threshold) == CloseTo(front, seed, threshold) + last;
    }
  }

  lemma {:induction false} BestSupportBound(seeds: seq<BBox>, boxes: seq<BBox>, threshold: real, k: nat)
    requires k >= 1
    ensures BestSupport(seeds, boxes, threshold) >= k <==>
            exists s :: 0 <= s < |seeds| && |CloseTo(boxes, seeds[s], threshold)| >= k
  {
    if seeds != [] {
      var n := |seeds| - 1;
      BestSupportBound(seeds[..n], boxes, threshold, k);
      SupportCounts(boxes, seeds[n], threshold);
      if exists s :: 0 <= s < |seeds[..n]| && |CloseTo(boxes, seeds[..n][s], threshold)| >= k {
        var s :| 0 <= s < |seeds[..n]| && |CloseTo(boxes, seeds[..n][s], threshold)| >= k;
        assert |CloseTo(boxes, seeds[s], threshold)| >= k;
      }
      if exists s :: 0 <= s < |seeds| && |CloseTo(boxes, seeds[s], threshold)| >= k {
        var s :| 0 <= s < |seeds| && |CloseTo(boxes, seeds[s], threshold)| >= k;
        assert s == n || seeds[..n][s] == seeds[s];
      }
    }
  }

  /** The cluster has k boxes exactly when some box has k boxes, itself counted, at or
      above the threshold. */
  lemma ClusterMeaning(boxes: seq<BBox>, threshold: real, k: nat)
    requires k >= 1
    ensures LargestStableCluster(boxes, threshold) >= k <==>
            exists s :: 0 <= s < |boxes| && |CloseTo(boxes, boxes[s], threshold)| >= k
  {
    BestSupportBound(boxes, boxes, threshold, k);
  }

  // ---- filtering -----------------------------------------------------------

  /** Fire or smoke, confident enough for the time of day, large enough, in no zone. */
  predicate Qualified(rig: Rig, isNight: bool, d: Detection)
    requires rig.Valid()
  {
    var limits := if isNight then rig.camera.night else rig.camera.day;
    && ((d.kind == Fire && d.confidence >= limits.fire) || (d.kind == Smoke && d.confidence >= limits.smoke))
    && d.box.Area() >= rig.camera.confirm.minBoxArea
    && forall z :: z in rig.mask.zones ==> Zones.OverlapFraction(d.box, z, Zones.SAMPLES) < rig.mask.threshold
  }

  lemma RejectedUnlessQualified(rig: Rig, isNight: bool, d: Detection)
    requires rig.Valid()
    ensures Rejection(rig, isNight, d) == None <==> Qualified(rig, isNight, d)
  {
    var zones := rig.mask.zones;
    assert forall k :: 0 <= k < |zones| ==> zones[k] in zones;
  }

  /** A frame keeps exactly its qualified detections. */
  lemma {:induction false} KeptExactlyWhen(rig: Rig, isNight: bool, ds: seq<Detection>)
    requires rig.Valid()
    ensures forall d :: d in Kept(rig, isNight, ds) <==> d in ds && Qualified(rig, isNight, d)
  {
    if ds != [] {
      var n := |ds| - 1;
      KeptExactlyWhen(rig, isNight, ds[..n]);
      RejectedUnlessQualified(rig, isNight, ds[n]);
      assert ds == ds[..n] + [ds[n]];
    }
  }

  // ---- envelopes -----------------------------------------------------------

  /** The envelope is the least box around all of them. */
  lemma {:induction false} EnvelopeIsLeast(boxes: seq<BBox>, around: BBox)
    ensures EnvelopeOf(boxes).Some? <==> boxes != []
    ensures forall b :: b in boxes ==> Within(b, EnvelopeOf(boxes).value)
    ensures boxes != [] ==>
              ((forall b :: b in boxes ==> Within(b, around)) <==> Within(EnvelopeOf(boxes).value, around))
  {
    if boxes != [] {
      var n := |boxes| - 1;
      EnvelopeIsLeast(boxes[..n], around);
      assert forall b :: b in boxes <==> b in boxes[..n] || b == boxes[n];
      if n > 0 {
        UnionIsLeast(EnvelopeOf(boxes[..n]).value, boxes[n], around);
      }
    }
  }

  lemma JoinAssociative(a: Option<BBox>, b: Option<BBox>, c: Option<BBox>)
    ensures Join(Join(a, b), c) == Join(a, Join(b, c))
  {}

  lemma {:induction false} EnvelopeOfConcat(a: seq<BBox>, b: seq<BBox>)
    ensures EnvelopeOf(a + b) == Join(EnvelopeOf(a), EnvelopeOf(b))
  {
    if b == [] {
      assert a + b == a;
    } else {
      var n := |b| - 1;
      assert (a + b)[..|a + b| - 1] == a + b[..n];
      EnvelopeOfConcat(a, b[..n]);
      JoinAssociative(EnvelopeOf(a), EnvelopeOf(b[..n]), Some(b[n]));
    }
  }

  lemma BoxesOfConcat(a: seq<Detection>, b: seq<Detection>)
    ensures BoxesOf(a + b) == BoxesOf(a) + BoxesOf(b)
  {}

  /** The window's envelope is the envelope of all its boxes. */
  lemma {:induction false} WindowEnvelopeMeaning(window: seq<Observation>)
    ensures WindowEnvelope(window) == EnvelopeOf(BoxesOf(AllDetections(window)))
  {
    if window != [] {
      var n := |window| - 1;
      var front := AllDetections(window[..n]);
      WindowEnvelopeMeaning(window[..n]);
      BoxesOfConcat(front, window[n].detections);
      EnvelopeOfConcat(BoxesOf(front), BoxesOf(window[n].detections));
    }
  }

  lemma {:induction false} HitsAreHits(window: seq<Observation>)
    ensures forall o :: o in Hits(window) <==> o in window && o.Hit()
    ensures |Hits(window)| <= |window|
  {
    if window != [] { HitsAreHits(window[..|window| - 1]); }
  }

  lemma HitHasEnvelope(obs: Observation)
    ensures obs.Envelope().Some? <==> obs.Hit()
  {}

  lemma {:induction false} EnvelopesOfSome(hits: seq<Observation>)
    requires forall k :: 0 <= k < |hits| ==> hits[k].Envelope().Some?
    ensures |Envelopes(hits)| == |hits|
    ensures forall k :: 0 <= k < |hits| ==> Envelopes(hits)[k] == hits[k].Envelope().value
  {
    if hits != [] {
      var front := hits[..|hits| - 1];
      forall k | 0 <= k < |front|
        ensures front[k].Envelope().Some?
      {
        assert front[k] == hits[k];
      }
      EnvelopesOfSome(front);
      assert Envelopes(hits) == Envelopes(front) + [hits[|hits| - 1].Envelope().value];
    }
  }

  /** Every hit contributes its envelope to the cluster rule. */
  lemma EnvelopesOfHits(hits: seq<Observation>)
    requires forall o :: o in hits ==> o.Hit()
    ensures |Envelopes(hits)| == |hits|
    ensures forall k :: 0 <= k < |hits| ==> hits[k].Envelope() == Some(Envelopes(hits)[k])
  {
    forall k | 0 <= k < |hits|
      ensures hits[k].Envelope().Some?
    {
      assert hits[k] in hits;
      HitHasEnvelope(hits[k]);
    }
    EnvelopesOfSome(hits);
  }

  // ---- what was detected ---------------------------------------------------

  /** A label is among those of the detections exactly if one of them has it. */
  lemma LabelsMeaning(ds: seq<Detection>, kind: Label)
    ensures kind in LabelsOf(ds) <==> exists d :: d in ds && d.kind == kind
  {}

  predicate Shows(window: seq<Observation>, d: Detection) {
    exists k :: 0 <= k < |window| && d in window[k].detections
  }

  lemma ShowsSnoc(window: seq<Observation>, d: Detection)
    requires window != []
    ensures Shows(window, d) <==> Shows(window[..|window| - 1], d) || d in window[|window| - 1].detections
  {
    var n := |window| - 1;
    if Shows(window, d) {
      var k :| 0 <= k < |window| && d in window[k].detections;
      assert k == n || window[..n][k] == window[k];
    }
    if Shows(window[..n], d) {
      var k :| 0 <= k < n && d in window[..n][k].detections;
      assert window[k] == window[..n][k];
    }
  }

  /** The detections of a window are those its frames show. */
  lemma {:induction false} DetectionsMeaning(window: seq<Observation>, d: Detection)
    ensures d in AllDetections(window) <==> Shows(window, d)
  {
    if window != [] {
      DetectionsMeaning(window[..|window| - 1], d);
      ShowsSnoc(window, d);
    }
  }

  // ---- peaks ---------------------------------------------------------------

  lemma {:induction false} PeakOfConcat(a: seq<Detection>, b: seq<Detection>, floor: real)
    ensures PeakOf(a + b, floor) == PeakOf(b, PeakOf(a, floor))
  {
    if b == [] {
      assert a + b == a;
    } else {
      assert (a + b)[..|a + b| - 1] == a + b[..|b| - 1];
      PeakOfConcat(a, b[..|b| - 1], floor);
    }
  }

  lemma OpeningPeakConcat(a: seq<Detection>, b: seq<Detection>)
    requires a != []
    ensures OpeningPeak(a + b) == PeakOf(b, OpeningPeak(a))
  {
    assert (a + b)[1..] == a[1..] + b;
    PeakOfConcat(a[1..], b, a[0].confidence);
  }

  lemma {:induction false} PeakBounds(ds: seq<Detection>, floor: real)
    ensures PeakOf(ds, floor) >= floor
    ensures forall d :: d in ds ==> d.confidence <= PeakOf(ds, floor)
    ensures PeakOf(ds, floor) == floor || exists d :: d in ds && d.confidence == PeakOf(ds, floor)
  {
    if ds != [] {
      var n := |ds| - 1;
      PeakBounds(ds[..n], floor);
      assert forall d :: d in ds <==> d in ds[..n] || d == ds[n];
      if PeakOf(ds, floor) != floor && PeakOf(ds, floor) != ds[n].confidence {
        var d :| d in ds[..n] && d.confidence == PeakOf(ds[..n], floor);
        assert d in ds;
      }
    }
  }

  /** The peak is attained and not exceeded. */
  lemma OpeningPeakMeaning(ds: seq<Detection>)
    requires ds != []
    ensures forall d :: d in ds ==> d.confidence <= OpeningPeak(ds)
    ensures exists d :: d in ds && d.confidence == OpeningPeak(ds)
  {
    PeakBounds(ds[1..], ds[0].confidence);
    assert forall d :: d in ds <==> d == ds[0] || d in ds[1..];
  }

  // ---- area trends ---------------------------------------------------------

  predicate NonDecreasing(xs: seq<real>) {
    forall i, j :: 0 <= i <= j < |xs| ==> xs[i] <= xs[j]
  }

  lemma {:induction false} SumBounds(xs: seq<real>, lo: real, hi: real)
    requires forall k :: 0 <= k < |xs| ==> lo <= xs[k] <= hi
    ensures |xs| as real * lo <= Sum(xs) <= |xs| as real * hi
  {
    if xs != [] {
      SumBounds(xs[..|xs| - 1], lo, hi);
      OneMoreReal(|xs| - 1, lo);
      OneMoreReal(|xs| - 1, hi);
    }
  }

  lemma OneMoreReal(n: nat, v: real)
    ensures (n + 1) as real * v == n as real * v + v
  {}

  lemma MeanBounds(xs: seq<real>, lo: real, hi: real)
    requires xs != [] && forall k :: 0 <= k < |xs| ==> lo <= xs[k] <= hi
    ensures lo <= Mean(xs) <= hi
  {
    SumBounds(xs, lo, hi);
    QuotientBounds(Sum(xs), |xs| as real, lo, hi);
  }

  lemma QuotientBounds(s: real, n: real, lo: real, hi: real)
    requires n > 0.0 && n * lo <= s <= n * hi
    ensures lo <= s / n <= hi
  {}

  lemma ShrinkProduct(first: real, tolerance: real)
    requires first > 0.0 && tolerance >= 0.0
    ensures first * (1.0 - tolerance) <= first
  {}

  /** Areas that never decrease are never called shrinking. */
  lemma GrowingIsNotShrinking(areas: seq<real>, tolerance: real)
    requires NonDecreasing(areas) && tolerance >= 0.0
    ensures NotShrinking(areas, tolerance)
  {
    if |areas| >= 4 {
      var split := |areas| / 2;
      MeanBounds(areas[..split], areas[0], areas[split - 1]);
      MeanBounds(areas[split..], areas[split], areas[|areas| - 1]);
      var first := Mean(areas[..split]);
      if first > 0.0 { ShrinkProduct(first, tolerance); }
    }
  }

  /** Positive areas that never decrease have a trend of at least 1, and exactly 1 when
      they are all equal. */
  lemma GrowingTrend(samples: seq<real>)
    requires NonDecreasing(samples) && forall k :: 0 <= k < |samples| ==> samples[k] > 0.0
    ensures Trend(samples) >= 1.0
    ensures samples != [] && samples[0] == samples[|samples| - 1] ==> Trend(samples) == 1.0
  {
    if |samples| >= 6 {
      var n := |samples|;
      var third := if n / 3 < 2 then 2 else n / 3;
      var early, late := Mean(samples[..third]), Mean(samples[n - third..]);
      MeanBounds(samples[..third], samples[0], samples[third - 1]);
      MeanBounds(samples[n - third..], samples[n - third], samples[n - 1]);
      RatioAtLeastOne(early, late);
    }
  }

  lemma RatioAtLeastOne(early: real, late: real)
    requires 0.0 < early <= late
    ensures late / early >= 1.0
    ensures early == late ==> late / early == 1.0
  {}

  // Both results compare areas with areas, so the unit of area does not matter.

  function Scaled(x: real, unit: real): real { x * unit }

  function Rescale(xs: seq<real>, unit: real): (r: seq<real>)
    ensures |r| == |xs|
    ensures forall k :: 0 <= k < |xs| ==> r[k] == Scaled(xs[k], unit)
  {
    seq(|xs|, k requires 0 <= k < |xs| => Scaled(xs[k], unit))
  }

  lemma RescaleSlice(xs: seq<real>, unit: real, i: nat, j: nat)
    requires i <= j <= |xs|
    ensures Rescale(xs, unit)[i..j] == Rescale(xs[i..j], unit)
  {}

  lemma {:induction false} SumRescaled(xs: seq<real>, unit: real)
    ensures Sum(Rescale(xs, unit)) == Sum(xs) * unit
  {
    if xs != [] {
      var n := |xs| - 1;
      RescaleSlice(xs, unit, 0, n);
      SumRescaled(xs[0..n], unit);
      assert xs[..n] == xs[0..n] && Rescale(xs, unit)[..n] == Rescale(xs, unit)[0..n];
      Distribute(unit, Sum(xs[..n]), xs[n]);
    }
  }

  lemma MeanRescaled(xs: seq<real>, unit: real)
    requires xs != []
    ensures Mean(Rescale(xs, unit)) == Mean(xs) * unit
  {
    SumRescaled(xs, unit);
    QuotientRescaled(Sum(xs), |xs| as real, unit, Sum(Rescale(xs, unit)));
  }

  lemma QuotientRescaled(s: real, n: real, unit: real, scaled: real)
    requires n > 0.0 && scaled == s * unit
    ensures scaled / n == s / n * unit
  {}

  lemma SliceMeans(xs: seq<real>, unit: real, i: nat, j: nat)
    requires 0 < i <= |xs| && j < |xs|
    ensures Mean(Rescale(xs, unit)[..i]) == Mean(xs[..i]) * unit
    ensures Mean(Rescale(xs, unit)[j..]) == Mean(xs[j..]) * unit
  {
    RescaleSlice(xs, unit, 0, i);
    RescaleSlice(xs, unit, j, |xs|);
    assert Rescale(xs, unit)[..i] == Rescale(xs, unit)[0..i] && xs[..i] == xs[0..i];
    assert Rescale(xs, unit)[j..] == Rescale(xs, unit)[j..|xs|] && xs[j..] == xs[j..|xs|];
    MeanRescaled(xs[..i], unit);
    MeanRescaled(xs[j..], unit);
  }

  lemma ShrinkTestRescaled(areas: seq<real>, tolerance: real, unit: real)
    requires unit > 0.0
    ensures NotShrinking(Rescale(areas, unit), tolerance) <==> NotShrinking(areas, tolerance)
  {
    if |areas| >= 4 {
      var split := |areas| / 2;
      var scaled := Rescale(areas, unit);
      SliceMeans(areas, unit, split, split);
      var first, second := Mean(areas[..split]), Mean(areas[split..]);
      var f1 := first * (1.0 - tolerance);
      MulOrder(first, 0.0, unit);
      MulOrder(f1, second, unit);
      Swap(first, unit, 1.0 - tolerance);
    }
  }

  lemma Swap(a: real, b: real, c: real)
    ensures (a * b) * c == (a * c) * b
  {}

  lemma TrendRescaled(samples: seq<real>, unit: real)
    requires unit > 0.0
    ensures Trend(Rescale(samples, unit)) == Trend(samples)
  {
    if |samples| >= 6 {
      var n := |samples|;
      var third := if n / 3 < 2 then 2 else n / 3;
      var scaled := Rescale(samples, unit);
      SliceMeans(samples, unit, third, n - third);
      var early, late := Mean(samples[..third]), Mean(samples[n - third..]);
      MulOrder(early, 0.0, unit);
      if early > 0.0 {
        RatioRescaled(late, early, unit);
      }
    }
  }

  lemma RatioRescaled(a: real, b: real, unit: real)
    requires b > 0.0 && unit > 0.0
    ensures b * unit > 0.0 && (a * unit) / (b * unit) == a / b
  {}
}
