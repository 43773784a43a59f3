/** What the two area trends of the confirmation rules say, told from the areas alone: when
    shrinking areas keep an incident from opening, and when growing ones make it critical
    (firemex/incident/engine.py, _not_shrinking and _growth_ratio). */
module Trends {
  import opened Geometry
  import opened Confirmation
  import opened Rules
  import opened Histories
  import opened Lifecycle
  import opened Severities
  import opened Openings

  // ---- sums and means ------------------------------------------------------

  lemma {:induction false} SumConcat(a: seq<real>, b: seq<real>)
    ensures Sum(a + b) == Sum(a) + Sum(b)
  {
    if b == [] {
      assert a + b == a;
    } else {
      assert (a + b)[..|a + b| - 1] == a + b[..|b| - 1];
      SumConcat(a, b[..|b| - 1]);
    }
  }

  lemma SumOfOne(x: real)
    ensures Sum([x]) == x
  {
    assert [x][..0] == [];
  }

  /** Without the value at `k`. */
  function Without(b: seq<real>, k: nat): (r: seq<real>)
    requires k < |b|
    ensures |r| == |b| - 1
  {
    b[..k] + b[k + 1..]
  }

  lemma SumWithOne(a: seq<real>, x: real, c: seq<real>)
    ensures Sum(a + [x] + c) == Sum(a + c) + x
    ensures multiset(a + [x] + c) == multiset(a + c) + multiset{x}
  {
    SumConcat(a + [x], c);
    SumConcat(a, [x]);
    SumConcat(a, c);
    SumOfOne(x);
  }

  lemma Apart(b: seq<real>, k: nat)
    requires k < |b|
    ensures b == b[..k] + [b[k]] + b[k + 1..]
  {}

  lemma SumWithout(b: seq<real>, k: nat)
    requires k < |b|
    ensures Sum(b) == Sum(Without(b, k)) + b[k]
    ensures multiset(b) == multiset(Without(b, k)) + multiset{b[k]}
  {
    Apart(b, k);
    SumWithOne(b[..k], b[k], b[k + 1..]);
  }

  /** A sum does not depend on the order. */
  lemma {:induction false} SumPermuted(a: seq<real>, b: seq<real>)
    requires multiset(a) == multiset(b)
    ensures Sum(a) == Sum(b)
    decreases |a|
  {
    assert |a| == |multiset(a)| && |b| == |multiset(b)|;
    if a != [] {
      assert a[0] in multiset(b);
      var k :| 0 <= k < |b| && b[k] == a[0];
      SumWithout(a, 0);
      SumWithout(b, k);
      assert multiset(Without(a, 0)) == multiset(a) - multiset{a[0]};
      assert multiset(Without(b, k)) == multiset(b) - multiset{a[0]};
      SumPermuted(Without(a, 0), Without(b, k));
    }
  }

  lemma {:induction false} SumMonotone(a: seq<real>, b: seq<real>)
    requires |a| == |b| && forall k :: 0 <= k < |a| ==> a[k] <= b[k]
    ensures Sum(a) <= Sum(b)
  {
    if a != [] {
      SumMonotone(a[..|a| - 1], b[..|b| - 1]);
    }
  }

  lemma QuotientMonotone(s: real, t: real, n: real)
    requires n > 0.0 && s <= t
    ensures s / n <= t / n
  {}

  lemma MeanMonotone(a: seq<real>, b: seq<real>)
    requires a != [] && |a| == |b| && forall k :: 0 <= k < |a| ==> a[k] <= b[k]
    ensures Mean(a) <= Mean(b)
  {
    SumMonotone(a, b);
    QuotientMonotone(Sum(a), Sum(b), |a| as real);
  }

  lemma MeanPermuted(a: seq<real>, b: seq<real>)
    requires a != [] && multiset(a) == multiset(b)
    ensures b != [] && Mean(a) == Mean(b)
  {
    assert |a| == |multiset(a)| && |b| == |multiset(b)|;
    SumPermuted(a, b);
  }

  lemma MeanOfLevel(x: real, n: nat)
    requires n > 0
    ensures Mean(Repeat(x, n)) == x
  {
    MeanBounds(Repeat(x, n), x, x);
  }

  function Moved(xs: seq<real>, i: nat, j: nat, d: real): (r: seq<real>)
    requires i < |xs| && j < |xs| && i != j
    ensures |r| == |xs|
  {
    xs[i := xs[i] + d][j := xs[j] - d]
  }

  lemma SumUpdated(xs: seq<real>, i: nat, v: real)
    requires i < |xs|
    ensures Sum(xs[i := v]) == Sum(xs) - xs[i] + v
  {
    SumWithout(xs, i);
    SumWithout(xs[i := v], i);
    assert Without(xs[i := v], i) == Without(xs, i);
  }

  lemma MovedBefore(xs: seq<real>, i: nat, j: nat, d: real, cut: nat)
    requires i < cut && j < cut <= |xs| && i != j
    ensures Moved(xs, i, j, d)[..cut] == Moved(xs[..cut], i, j, d) && Moved(xs, i, j, d)[cut..] == xs[cut..]
  {}

  lemma MovedAfter(xs: seq<real>, i: nat, j: nat, d: real, cut: nat)
    requires cut <= i < |xs| && cut <= j < |xs| && i != j
    ensures Moved(xs, i, j, d)[cut..] == Moved(xs[cut..], i - cut, j - cut, d) && Moved(xs, i, j, d)[..cut] == xs[..cut]
  {}

  /** Moving an amount from one value to another does not change the mean. */
  lemma MeanMoved(xs: seq<real>, i: nat, j: nat, d: real)
    requires i < |xs| && j < |xs| && i != j
    ensures Mean(Moved(xs, i, j, d)) == Mean(xs)
  {
    SumUpdated(xs, i, xs[i] + d);
    SumUpdated(xs[i := xs[i] + d], j, xs[j] - d);
  }

  /** A value of the list that none is above, or below. */
  lemma {:induction false} Extremes(xs: seq<real>) returns (lo: real, hi: real)
    requires xs != []
    ensures lo in xs && hi in xs && forall x :: x in xs ==> lo <= x <= hi
  {
    var n := |xs| - 1;
    lo, hi := xs[n], xs[n];
    if n > 0 {
      var l, h := Extremes(xs[..n]);
      assert xs == xs[..n] + [xs[n]];
      lo, hi := Min(l, xs[n]), Max(h, xs[n]);
    }
  }

  lemma MeanWithin(xs: seq<real>, lo: real, hi: real)
    requires xs != [] && forall x :: x in xs ==> lo <= x <= hi
    ensures lo <= Mean(xs) <= hi
  {
    assert forall k :: 0 <= k < |xs| ==> xs[k] in xs;
    MeanBounds(xs, lo, hi);
  }

  // ---- the shrink test -----------------------------------------------------

  function Earlier(areas: seq<real>): seq<real> { areas[..|areas| / 2] }

  function Later(areas: seq<real>): seq<real> { areas[|areas| / 2..] }

  /** Every area of the later half is below the fraction of every area of the earlier half. */
  predicate Shrunk(areas: seq<real>, tolerance: real) {
    forall x, y :: x in Earlier(areas) && y in Later(areas) ==> x > 0.0 && y < x * (1.0 - tolerance)
  }

  lemma FallsBelow(first: real, second: real, lo: real, hi: real, f: real)
    requires 0.0 < lo <= first && second <= hi && f >= 0.0 && hi < lo * f
    ensures second < first * f
  {
    ScaledUp(lo, first, f);
  }

  lemma ScaledUp(x: real, y: real, k: real)
    requires x <= y && k >= 0.0
    ensures x * k <= y * k
  {
    if k > 0.0 {
      MulOrder(x, y, k);
    }
  }

  /** Areas that have clearly shrunk fail the test. */
  lemma ShrunkFails(areas: seq<real>, tolerance: real)
    requires |areas| >= 4 && 0.0 <= tolerance <= 1.0 && Shrunk(areas, tolerance)
    ensures !NotShrinking(areas, tolerance)
  {
    var lo, top := Extremes(Earlier(areas));
    var bottom, hi := Extremes(Later(areas));
    MeanWithin(Earlier(areas), lo, top);
    MeanWithin(Later(areas), bottom, hi);
    FallsBelow(Mean(Earlier(areas)), Mean(Later(areas)), lo, hi, 1.0 - tolerance);
  }

  /** Fewer than four areas pass. */
  lemma FewPass(areas: seq<real>, tolerance: real)
    requires |areas| < 4
    ensures NotShrinking(areas, tolerance)
  {}

  /** The second level is not below the tolerated fraction of the first. */
  predicate Tolerated(a: real, b: real, tolerance: real) {
    b >= a * (1.0 - tolerance)
  }

  predicate TwoLevels(areas: seq<real>, a: real, b: real) {
    a > 0.0 && areas == Repeat(a, |areas| / 2) + Repeat(b, |areas| - |areas| / 2)
  }

  /** Two levels, one for each half: the test passes exactly if the second is not below the
      fraction of the first. */
  lemma LevelsPassExactlyWhen(a: real, b: real, areas: seq<real>, tolerance: real)
    requires |areas| >= 4 && TwoLevels(areas, a, b)
    ensures NotShrinking(areas, tolerance) <==> Tolerated(a, b, tolerance)
  {
    assert Earlier(areas) == Repeat(a, |areas| / 2) && Later(areas) == Repeat(b, |areas| - |areas| / 2);
    MeanOfLevel(a, |areas| / 2);
    MeanOfLevel(b, |areas| - |areas| / 2);
  }

  /** Smaller areas earlier or larger ones later never turn a pass into a failure. */
  lemma PassesOn(areas: seq<real>, other: seq<real>, tolerance: real)
    requires |areas| == |other| && tolerance <= 1.0 && NotShrinking(areas, tolerance)
    requires forall k :: 0 <= k < |areas| / 2 ==> other[k] <= areas[k]
    requires forall k :: |areas| / 2 <= k < |areas| ==> areas[k] <= other[k]
    ensures NotShrinking(other, tolerance)
  {
    if |areas| >= 4 {
      MeanMonotone(Earlier(other), Earlier(areas));
      MeanMonotone(Later(areas), Later(other));
      ScaledUp(Mean(Earlier(other)), Mean(Earlier(areas)), 1.0 - tolerance);
    }
  }

  /** The order within a half does not matter. */
  lemma OrderWithinHalves(areas: seq<real>, other: seq<real>, tolerance: real)
    requires |areas| == |other|
    requires multiset(Earlier(areas)) == multiset(Earlier(other)) && multiset(Later(areas)) == multiset(Later(other))
    ensures NotShrinking(areas, tolerance) <==> NotShrinking(other, tolerance)
  {
    if |areas| >= 4 {
      MeanPermuted(Earlier(areas), Earlier(other));
      MeanPermuted(Later(areas), Later(other));
    }
  }

  /** Nor does it matter which frame of a half has the area: with this and the two levels the test
      is determined. */
  lemma MovedWithinHalf(areas: seq<real>, i: nat, j: nat, d: real, tolerance: real)
    requires i < |areas| && j < |areas| && i != j && (i < |areas| / 2 <==> j < |areas| / 2)
    ensures NotShrinking(Moved(areas, i, j, d), tolerance) <==> NotShrinking(areas, tolerance)
  {
    var half := |areas| / 2;
    if |areas| >= 4 {
      if i < half {
        MovedBefore(areas, i, j, d, half);
        MeanMoved(Earlier(areas), i, j, d);
      } else {
        MovedAfter(areas, i, j, d, half);
        MeanMoved(Later(areas), i - half, j - half, d);
      }
    }
  }

  // ---- the growth ratio ----------------------------------------------------

  /** How many areas at either end are compared: a third of them, but two at least. */
  function Third(n: nat): nat { if n / 3 < 2 then 2 else n / 3 }

  function Early(samples: seq<real>): seq<real>
    requires |samples| >= 6
  {
    samples[..Third(|samples|)]
  }

  function Late(samples: seq<real>): seq<real>
    requires |samples| >= 6
  {
    samples[|samples| - Third(|samples|)..]
  }

  predicate AllPositive(samples: seq<real>) {
    forall x :: x in samples ==> x > 0.0
  }

  predicate GrownTo(samples: seq<real>, k: real)
    requires |samples| >= 6
  {
    forall x, y :: x in Early(samples) && y in Late(samples) ==> y >= x * k
  }

  predicate GrownLess(samples: seq<real>, k: real)
    requires |samples| >= 6
  {
    forall x, y :: x in Early(samples) && y in Late(samples) ==> y < x * k
  }

  lemma RatioBounds(early: real, late: real, k: real)
    requires early > 0.0
    ensures late >= early * k <==> late / early >= k
  {
    var q := late / early;
    assert q * early == late;
    MulOrder(k, q, early);
  }

  lemma RatioAtLeast(early: real, late: real, top: real, bottom: real, k: real)
    requires 0.0 < early <= top && bottom <= late && k >= 0.0 && bottom >= top * k
    ensures late / early >= k
  {
    ScaledUp(early, top, k);
    RatioBounds(early, late, k);
  }

  lemma RatioBelow(early: real, late: real, lo: real, hi: real, k: real)
    requires 0.0 < lo <= early && late <= hi && k >= 0.0 && hi < lo * k
    ensures late / early < k
  {
    ScaledUp(lo, early, k);
    RatioBounds(early, late, k);
  }

  /** Early and late areas, and what lies between their means. */
  lemma MeansApart(samples: seq<real>) returns (lo: real, top: real, bottom: real, hi: real)
    requires |samples| >= 6 && AllPositive(samples)
    ensures lo in Early(samples) && top in Early(samples) && bottom in Late(samples) && hi in Late(samples)
    ensures 0.0 < lo <= Mean(Early(samples)) <= top && bottom <= Mean(Late(samples)) <= hi
  {
    lo, top := Extremes(Early(samples));
    bottom, hi := Extremes(Late(samples));
    MeanWithin(Early(samples), lo, top);
    MeanWithin(Late(samples), bottom, hi);
    assert lo in samples;
  }

  /** If every late area is at least k times every early one, the ratio is at least k. */
  lemma GrownToRatio(samples: seq<real>, k: real)
    requires |samples| >= 6 && AllPositive(samples) && k >= 0.0 && GrownTo(samples, k)
    ensures Trend(samples) >= k
  {
    var lo, top, bottom, hi := MeansApart(samples);
    RatioAtLeast(Mean(Early(samples)), Mean(Late(samples)), top, bottom, k);
  }

  /** If every late area is below k times every early one, so is the ratio. */
  lemma GrownLessRatio(samples: seq<real>, k: real)
    requires |samples| >= 6 && AllPositive(samples) && k >= 0.0 && GrownLess(samples, k)
    ensures Trend(samples) < k
  {
    var lo, top, bottom, hi := MeansApart(samples);
    RatioBelow(Mean(Early(samples)), Mean(Late(samples)), lo, hi, k);
  }

  /** Fewer than six areas say nothing. */
  lemma FewAreSteady(samples: seq<real>)
    requires |samples| < 6
    ensures Trend(samples) == 1.0
  {}

  /** Two levels at the two ends: the ratio is their quotient. */
  lemma LevelsRatio(a: real, b: real, samples: seq<real>)
    requires |samples| >= 6 && AllPositive(samples) && a > 0.0
    requires Early(samples) == Repeat(a, Third(|samples|)) && Late(samples) == Repeat(b, Third(|samples|))
    ensures Trend(samples) == b / a
  {
    MeanOfLevel(a, Third(|samples|));
    MeanOfLevel(b, Third(|samples|));
  }

  /** It does not matter which of the early, or of the late, frames has the area. */
  lemma MovedWithinThird(samples: seq<real>, i: nat, j: nat, d: real)
    requires |samples| >= 6 && i != j
    requires (i < Third(|samples|) && j < Third(|samples|))
             || (|samples| - Third(|samples|) <= i < |samples| && |samples| - Third(|samples|) <= j < |samples|)
    ensures Trend(Moved(samples, i, j, d)) == Trend(samples)
  {
    var third := Third(|samples|);
    var start := |samples| - third;
    if i < third && j < third {
      MovedBefore(samples, i, j, d, third);
      MovedBefore(samples, i, j, d, start);
      MeanMoved(Early(samples), i, j, d);
    } else {
      MovedAfter(samples, i, j, d, third);
      MovedAfter(samples, i, j, d, start);
      MeanMoved(Late(samples), i - start, j - start, d);
    }
  }

  /** The areas in the middle do not count. */
  lemma MiddleIgnored(samples: seq<real>, other: seq<real>)
    requires |samples| == |other| && |samples| >= 6
    requires Early(samples) == Early(other) && Late(samples) == Late(other)
    ensures Trend(samples) == Trend(other)
  {}

  lemma {:induction false} PositiveConcat(a: seq<AreaSample>, b: seq<AreaSample>)
    ensures PositiveAreas(a + b) == PositiveAreas(a) + PositiveAreas(b)
  {
    if b == [] {
      assert a + b == a;
    } else {
      assert (a + b)[..|a + b| - 1] == a + b[..|b| - 1];
      PositiveConcat(a, b[..|b| - 1]);
    }
  }

  lemma {:induction false} OnlyPositive(history: seq<AreaSample>)
    ensures AllPositive(PositiveAreas(history))
    ensures (forall s :: s in history ==> s.area > 0.0) ==>
              |PositiveAreas(history)| == |history|
              && forall k :: 0 <= k < |history| ==> PositiveAreas(history)[k] == history[k].area
  {
    if history != [] {
      var n := |history| - 1;
      OnlyPositive(history[..n]);
      assert history == history[..n] + [history[n]];
    }
  }

  /** Frames without area do not count. */
  lemma ZerosIgnored(a: seq<AreaSample>, s: AreaSample, b: seq<AreaSample>)
    requires s.area <= 0.0
    ensures GrowthRatio(a + [s] + b) == GrowthRatio(a + b)
  {
    PositiveConcat(a + [s], b);
    PositiveConcat(a, [s]);
    PositiveConcat(a, b);
    assert [s][..0] == [];
    assert PositiveAreas(a) + [] == PositiveAreas(a);
  }

  // ---- openings ------------------------------------------------------------

  /** The hits among the last frames when the next frame is shown. */
  function HitsWith(rig: Rig, e: Engine, result: FrameResult): seq<Observation>
    requires rig.Valid() && e.Valid()
  {
    Hits(Push(e.window, Filter(rig, result), rig.capacity))
  }

  /** Where growth is asked for, hits that have clearly shrunk open nothing, whatever else holds. */
  lemma ShrunkOpensNothing(rig: Rig, e: Engine, result: FrameResult, id: string)
    requires rig.Valid() && e.Valid() && rig.camera.confirm.requireGrowth
    requires var hits := HitsWith(rig, e, result);
             |hits| >= 4 && Shrunk(Areas(hits), rig.camera.confirm.growthTolerance)
    ensures !Emits(Step(rig, e, Frame(result, id)).1, Opened)
  {
    StepOpens(rig, e, result, id);
    ShrunkFails(Areas(HitsWith(rig, e, result)), rig.camera.confirm.growthTolerance);
  }

  /** Enough hits, one of them near enough others. */
  ghost predicate Persistent(confirm: ConfirmConfig, hits: seq<Observation>) {
    && |hits| >= confirm.framesRequired
    && exists s :: 0 <= s < |hits| && |NearHits(hits, s, confirm.stabilityIou)| >= confirm.stabilityFrames
  }

  /** With nothing open and no cancel holding, persistent hits open an incident exactly if they are
      not shrinking. */
  lemma PersistentOpens(rig: Rig, e: Engine, result: FrameResult, id: string)
    requires rig.Valid() && e.Valid() && e.incident.None? && !e.suppressed && rig.camera.confirm.requireGrowth
    requires Persistent(rig.camera.confirm, HitsWith(rig, e, result))
    ensures Emits(Step(rig, e, Frame(result, id)).1, Opened) <==>
            NotShrinking(Areas(HitsWith(rig, e, result)), rig.camera.confirm.growthTolerance)
  {
    StepOpens(rig, e, result, id);
    PersistentQualifies(rig.camera.confirm, HitsWith(rig, e, result));
  }

  /** The areas of the hits are of two sizes, one after the other. */
  predicate OfTwoSizes(hits: seq<Observation>, a: real, b: real) {
    |hits| >= 4 && TwoLevels(Areas(hits), a, b)
  }

  lemma TwoSizesPassExactlyWhen(hits: seq<Observation>, a: real, b: real, tolerance: real)
    requires OfTwoSizes(hits, a, b)
    ensures NotShrinking(Areas(hits), tolerance) <==> Tolerated(a, b, tolerance)
  {
    LevelsPassExactlyWhen(a, b, Areas(hits), tolerance);
  }

  /** Hits of two sizes, one after the other: with nothing open and no cancel holding, they open an
      incident exactly if the second size is not below the tolerated fraction of the first. */
  lemma LevelsOpenExactlyWhen(rig: Rig, e: Engine, result: FrameResult, id: string, a: real, b: real)
    requires rig.Valid() && e.Valid() && e.incident.None? && !e.suppressed && rig.camera.confirm.requireGrowth
    requires Persistent(rig.camera.confirm, HitsWith(rig, e, result)) && OfTwoSizes(HitsWith(rig, e, result), a, b)
    ensures Emits(Step(rig, e, Frame(result, id)).1, Opened) <==> Tolerated(a, b, rig.camera.confirm.growthTolerance)
  {
    PersistentOpens(rig, e, result, id);
    TwoSizesPassExactlyWhen(HitsWith(rig, e, result), a, b, rig.camera.confirm.growthTolerance);
  }

  lemma PersistentQualifies(confirm: ConfirmConfig, hits: seq<Observation>)
    requires Persistent(confirm, hits) && confirm.requireGrowth
    ensures Qualifies(confirm, hits) <==> NotShrinking(Areas(hits), confirm.growthTolerance)
  {}

  // ---- severity ------------------------------------------------------------

  /** Six areas or more, every late one at least 1.6 times every early one. */
  predicate Surging(history: seq<AreaSample>) {
    var areas := PositiveAreas(history);
    |areas| >= 6 && GrownTo(areas, 1.6)
  }

  /** Fewer than six areas, or every late one below 1.6 times every early one. */
  predicate Tame(history: seq<AreaSample>) {
    var areas := PositiveAreas(history);
    |areas| < 6 || GrownLess(areas, 1.6)
  }

  lemma SurgingReaches(history: seq<AreaSample>)
    ensures Surging(history) ==> GrowthRatio(history) >= 1.6
    ensures Tame(history) ==> GrowthRatio(history) < 1.6
  {
    var areas := PositiveAreas(history);
    OnlyPositive(history);
    if Surging(history) {
      GrownToRatio(areas, 1.6);
    }
    if Tame(history) && |areas| >= 6 {
      GrownLessRatio(areas, 1.6);
    }
  }

  /** The areas surged when the incident opened or on a hit since. */
  predicate SurgedOnce(rig: Rig, e: Engine, after: seq<Input>)
    requires rig.Valid() && e.Valid()
  {
    if after == [] then Surging(e.history)
    else
      var last := after[|after| - 1];
      || SurgedOnce(rig, e, after[..|after| - 1])
      || (last.Frame? && Filter(rig, last.result).Hit() && Surging(Resume(rig, e, after).history))
  }

  /** They were tame when it opened and on every hit since. */
  predicate TameThroughout(rig: Rig, e: Engine, after: seq<Input>)
    requires rig.Valid() && e.Valid()
  {
    if after == [] then Tame(e.history)
    else
      var last := after[|after| - 1];
      && TameThroughout(rig, e, after[..|after| - 1])
      && (last.Frame? && Filter(rig, last.result).Hit() ==> Tame(Resume(rig, e, after).history))
  }

  lemma OpeningRatio(rig: Rig, e: Engine, opening: Input)
    requires rig.Valid() && e.Valid() && Emits(Step(rig, e, opening).1, Opened)
    ensures var n := Step(rig, e, opening).0;
            n.incident.Some? && n.incident.value.growthRatio == GrowthRatio(n.history)
  {}

  lemma {:induction false} SurgesShow(rig: Rig, e: Engine, after: seq<Input>)
    requires rig.Valid() && e.Valid() && e.incident.Some? && e.incident.value.growthRatio == GrowthRatio(e.history)
    ensures SurgedOnce(rig, e, after) ==> Surged(rig, e, after)
    ensures TameThroughout(rig, e, after) ==> !Surged(rig, e, after)
  {
    SurgingReaches(e.history);
    if after != [] {
      SurgesShow(rig, e, after[..|after| - 1]);
      SurgingReaches(Resume(rig, e, after).history);
    }
  }

  /** An incident of smoke alone is CRITICAL if its areas surged when it opened or on some hit
      since, and is not if they were tame all the time. */
  lemma SmokeSeverity(rig: Rig, before: seq<Input>, opening: Input, after: seq<Input>)
    requires rig.Valid() && Emits(NewEvents(rig, before, opening), Opened)
    requires StaysOpen(rig, Run(rig, before + [opening]).engine, after)
    requires Fire !in Resume(rig, Run(rig, before + [opening]).engine, after).incident.value.labels
    ensures var e := Run(rig, before + [opening]).engine;
            var severity := Resume(rig, e, after).incident.value.severity;
            && (SurgedOnce(rig, e, after) ==> severity == Critical)
            && (TameThroughout(rig, e, after) ==> severity == Warning)
  {
    SeverityMeaning(rig, before, opening, after);
    RunSnoc(rig, before, opening);
    OpeningRatio(rig, Run(rig, before).engine, opening);
    SurgesShow(rig, Run(rig, before + [opening]).engine, after);
  }
}
