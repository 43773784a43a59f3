/** When an incident opens: the exact condition over every history, and the silence an
    operator's cancel buys. */
module Openings {
  import opened Geometry
  import opened Measures
  import opened Confirmation
  import opened Rules
  import opened Histories
  import opened Lifecycle

  // ---- the condition, from the history alone -------------------------------

  /** Enough hits, one of them near enough others, and no shrinking where that matters. */
  ghost predicate Qualifies(confirm: ConfirmConfig, hits: seq<Observation>) {
    && |hits| >= confirm.framesRequired
    && (exists s :: 0 <= s < |hits| && |NearHits(hits, s, confirm.stabilityIou)| >= confirm.stabilityFrames)
    && (confirm.requireGrowth ==> NotShrinking(Areas(hits), confirm.growthTolerance))
  }

  /** The hits whose envelope overlaps that of hit s at or above the threshold. */
  function NearHits(hits: seq<Observation>, s: nat, threshold: real): set<nat>
    requires s < |hits|
  {
    set k: nat | k < |hits| && NearHit(hits[s], hits[k], threshold)
  }

  predicate NearHit(a: Observation, b: Observation, threshold: real) {
    a.Hit() && b.Hit() && EnvelopeIou(a, b) >= threshold
  }

  function EnvelopeIou(a: Observation, b: Observation): real
    requires a.Hit() && b.Hit()
  {
    HitHasEnvelope(a);
    HitHasEnvelope(b);
    Iou(a.Envelope().value, b.Envelope().value)
  }

  function WindowAfter(rig: Rig, inputs: seq<Input>): seq<Observation>
    requires rig.Valid()
  {
    LastN(Frames(rig, inputs), rig.capacity)
  }

  predicate CancelledOpen(rig: Rig, inputs: seq<Input>, c: nat)
    requires rig.Valid()
  {
    c < |inputs| && inputs[c].OperatorCancel? && IsOpen(Run(rig, inputs[..c]).events)
  }

  /** The window is quiet once the inputs have been taken in. */
  predicate QuietAfter(rig: Rig, inputs: seq<Input>)
    requires rig.Valid()
  {
    Hits(WindowAfter(rig, inputs)) == []
  }

  /** Input c cancelled an open incident and no frame since has completed a quiet window. */
  predicate CancelHolds(rig: Rig, inputs: seq<Input>, c: nat)
    requires rig.Valid()
  {
    if |inputs| <= c + 1 then CancelledOpen(rig, inputs, c)
    else
      && CancelHolds(rig, inputs[..|inputs| - 1], c)
      && (inputs[|inputs| - 1].Frame? ==> !QuietAfter(rig, inputs))
  }

  predicate Suppressed(rig: Rig, inputs: seq<Input>)
    requires rig.Valid()
  {
    exists c :: 0 <= c < |inputs| && CancelHolds(rig, inputs, c)
  }

  predicate Opens(rig: Rig, inputs: seq<Input>, input: Input)
    requires rig.Valid()
  {
    Emits(NewEvents(rig, inputs, input), Opened)
  }

  // ---- the rules say Qualifies ---------------------------------------------

  lemma NearIsNear(hits: seq<Observation>, s: nat, threshold: real)
    requires (forall o :: o in hits ==> o.Hit()) && s < |hits|
    ensures |Envelopes(hits)| == |hits|
    ensures CloseTo(Envelopes(hits), Envelopes(hits)[s], threshold) == NearHits(hits, s, threshold)
  {
    EnvelopesOfHits(hits);
    var e := Envelopes(hits);
    forall k: nat | k < |hits|
      ensures NearHit(hits[s], hits[k], threshold) <==> Iou(e[s], e[k]) >= threshold
    {
      assert hits[s] in hits && hits[k] in hits;
    }
  }

  lemma AssessMeaning(confirm: ConfirmConfig, hits: seq<Observation>, growth: real)
    requires confirm.Valid() && forall o :: o in hits ==> o.Hit()
    ensures Assess(confirm, hits, growth).confirmed <==> Qualifies(confirm, hits)
    ensures Assess(confirm, hits, growth).rejected.Some? <==> !Qualifies(confirm, hits)
  {
    var e, t, n := Envelopes(hits), confirm.stabilityIou, confirm.stabilityFrames;
    EnvelopesOfHits(hits);
    ClusterMeaning(e, t, n);
    forall s | 0 <= s < |hits|
      ensures |CloseTo(e, e[s], t)| == |NearHits(hits, s, t)|
    {
      NearIsNear(hits, s, t);
    }
  }

  lemma UnconfirmedOpens(rig: Rig, e: Engine, obs: Observation, id: string)
    requires rig.Valid() && e.incident.None?
    ensures var r := ObserveUnconfirmed(rig, e, obs, id);
            && (Emits(r.1, Opened) <==> !e.suppressed && Qualifies(rig.camera.confirm, Hits(e.window)))
            && (r.1 == [] <==> !Emits(r.1, Opened))
            && r.0.suppressed == (e.suppressed && Hits(e.window) != [])
            && (r.0.incident.Some? <==> Emits(r.1, Opened))
  {
    HitsAreHits(e.window);
    AssessMeaning(rig.camera.confirm, Hits(e.window), GrowthRatio(e.history));
  }

  lemma ConfirmedNeverOpens(rig: Rig, e: Engine, obs: Observation)
    requires rig.Valid() && e.incident.Some?
    ensures var r := ObserveConfirmed(rig, e, obs);
            !Emits(r.1, Opened) && r.0.suppressed == e.suppressed
  {}

  lemma StepOpens(rig: Rig, e: Engine, result: FrameResult, id: string)
    requires rig.Valid() && e.Valid()
    ensures var r := Step(rig, e, Frame(result, id));
            var hits := Hits(Push(e.window, Filter(rig, result), rig.capacity));
            && (Emits(r.1, Opened) <==>
                e.incident.None? && !e.suppressed && Qualifies(rig.camera.confirm, hits))
            && r.0.suppressed == (e.suppressed && (e.incident.Some? || hits != []))
  {
    var obs := Filter(rig, result);
    var e1 := Intake(rig, e, obs);
    if e.incident.Some? {
      ConfirmedNeverOpens(rig, e1, obs);
    } else {
      UnconfirmedOpens(rig, e1, obs, id);
    }
  }

  /** Without an open incident, a camera is a candidate exactly if its window shows a hit once a frame
      has been taken in. */
  lemma CandidateExactlyWhen(rig: Rig, e: Engine, result: FrameResult, id: string)
    requires rig.Valid() && e.Valid() && e.incident.None?
    ensures var n := Step(rig, e, Frame(result, id)).0;
            n.incident.None? ==> n.state == if Hits(n.window) != [] then Candidate else Idle
  {}

  // ---- suppression, from the history alone ---------------------------------

  lemma SuppressedLater(rig: Rig, inputs: seq<Input>)
    requires rig.Valid() && inputs != []
    ensures var n := |inputs| - 1;
            Suppressed(rig, inputs) <==>
            || CancelHolds(rig, inputs, n)
            || (Suppressed(rig, inputs[..n]) && (inputs[n].Frame? ==> !QuietAfter(rig, inputs)))
  {
    var n := |inputs| - 1;
    if Suppressed(rig, inputs) {
      var c :| 0 <= c < |inputs| && CancelHolds(rig, inputs, c);
      assert c == n || CancelHolds(rig, inputs[..n], c);
    }
    if Suppressed(rig, inputs[..n]) && (inputs[n].Frame? ==> !QuietAfter(rig, inputs)) {
      var c :| 0 <= c < n && CancelHolds(rig, inputs[..n], c);
      assert CancelHolds(rig, inputs, c);
    }
  }

  lemma CancelSuppresses(e: Engine)
    requires e.Valid() && (e.suppressed ==> e.incident.None?)
    ensures Cancel(e).0.suppressed == (e.suppressed || e.incident.Some?)
    ensures Cancel(e).0.incident.None?
  {}

  lemma ObserveSuppressed(rig: Rig, e: Engine, result: FrameResult, id: string)
    requires rig.Valid() && e.Valid() && (e.suppressed ==> e.incident.None?)
    ensures var r := Observe(rig, e, result, id).0;
            && (r.suppressed <==> e.suppressed && Hits(r.window) != [])
            && (r.suppressed ==> r.incident.None?)
  {}

  /** The flag that suppresses openings, told from the inputs alone. */
  lemma {:induction false} SuppressedMeaning(rig: Rig, inputs: seq<Input>)
    requires rig.Valid()
    ensures Run(rig, inputs).engine.suppressed <==> Suppressed(rig, inputs)
    ensures Run(rig, inputs).engine.suppressed ==> Run(rig, inputs).engine.incident.None?
  {
    if inputs != [] {
      var n := |inputs| - 1;
      SuppressedMeaning(rig, inputs[..n]);
      SuppressedLater(rig, inputs);
      OpenByLastEvent(rig, inputs[..n]);
      if inputs[n].Frame? {
        ObserveSuppressed(rig, Run(rig, inputs[..n]).engine, inputs[n].result, inputs[n].id);
        WindowIsLastFrames(rig, inputs);
      } else {
        CancelSuppresses(Run(rig, inputs[..n]).engine);
      }
    }
  }

  /** For every history: a frame opens an incident exactly when none is open, no cancel
      still holds, and the hits among the last frames qualify. */
  lemma OpensExactlyWhen(rig: Rig, inputs: seq<Input>, result: FrameResult, id: string)
    requires rig.Valid()
    ensures Opens(rig, inputs, Frame(result, id)) <==>
            && !IsOpen(Run(rig, inputs).events)
            && !Suppressed(rig, inputs)
            && Qualifies(rig.camera.confirm,
                         Hits(LastN(Frames(rig, inputs) + [Filter(rig, result)], rig.capacity)))
  {
    StepOpens(rig, Run(rig, inputs).engine, result, id);
    SuppressedMeaning(rig, inputs);
    OpenByLastEvent(rig, inputs);
    WindowIsLastFrames(rig, inputs);
    PushIsLastN(Frames(rig, inputs), Filter(rig, result), rig.capacity);
  }

  // ---- the silence after a cancel ------------------------------------------

  lemma {:induction false} HitsConcat(a: seq<Observation>, b: seq<Observation>)
    ensures Hits(a + b) == Hits(a) + Hits(b)
  {
    if b == [] {
      assert a + b == a;
    } else {
      assert (a + b)[..|a + b| - 1] == a + b[..|b| - 1];
      HitsConcat(a, b[..|b| - 1]);
    }
  }

  lemma LastNConcat(a: seq<Observation>, c: seq<Observation>, n: nat)
    ensures LastN(a + c, n) == if |c| >= n then LastN(c, n) else LastN(a, n - |c|) + c
  {}

  lemma LastNOfLastN(a: seq<Observation>, m: nat, n: nat)
    requires m <= n
    ensures LastN(LastN(a, n), m) == LastN(a, m)
  {}

  /** After a quiet window the hits of a later window all came later. */
  lemma HitsAfterQuiet(a: seq<Observation>, c: seq<Observation>, n: nat)
    requires Hits(LastN(a, n)) == []
    ensures |Hits(LastN(a + c, n))| <= |Hits(c)|
  {
    LastNConcat(a, c, n);
    if |c| >= n {
      HitsOfLastN(c, n);
    } else {
      LastNOfLastN(a, n - |c|, n);
      HitsOfLastN(LastN(a, n), n - |c|);
      HitsConcat(LastN(a, n - |c|), c);
    }
  }

  /** No incident is open before some frame was a hit. */
  lemma {:induction false} OpenMeansHit(rig: Rig, inputs: seq<Input>)
    requires rig.Valid() && Run(rig, inputs).engine.incident.Some?
    ensures Hits(Frames(rig, inputs)) != []
  {
    if inputs != [] {
      var n := |inputs| - 1;
      var p, input := inputs[..n], inputs[n];
      var e := Run(rig, p).engine;
      if e.incident.Some? {
        OpenMeansHit(rig, p);
        if input.Frame? { HitsConcat(Frames(rig, p), [Filter(rig, input.result)]); }
      } else if input.Frame? {
        var obs := Filter(rig, input.result);
        UnconfirmedOpens(rig, Intake(rig, e, obs), obs, input.id);
        WindowIsLastFrames(rig, inputs);
        StepMemory(rig, e, input);
        HitsOfLastN(Frames(rig, inputs), rig.capacity);
      }
    }
  }

  lemma HitsOfLastN(frames: seq<Observation>, n: nat)
    ensures |Hits(LastN(frames, n))| <= |Hits(frames)|
  {
    if |frames| > n {
      var k := |frames| - n;
      assert frames == frames[..k] + frames[k..];
      HitsConcat(frames[..k], frames[k..]);
    }
  }

  lemma QuietFramesAreMany(frames: seq<Observation>, n: nat)
    requires Hits(frames) != [] && Hits(LastN(frames, n)) == []
    ensures |LastN(frames, n)| == n
  {}

  lemma {:induction false} FramesGrow(rig: Rig, inputs: seq<Input>, c: nat)
    requires rig.Valid() && c <= |inputs|
    ensures Hits(Frames(rig, inputs[..c])) != [] ==> Hits(Frames(rig, inputs)) != []
  {
    assert inputs == inputs[..c] + inputs[c..];
    FramesConcat(rig, inputs[..c], inputs[c..]);
    HitsConcat(Frames(rig, inputs[..c]), Frames(rig, inputs[c..]));
  }

  /** A quiet window after an incident was open is a full one. */
  lemma QuietWindowIsFull(rig: Rig, inputs: seq<Input>, c: nat)
    requires rig.Valid() && c <= |inputs|
    requires Run(rig, inputs[..c]).engine.incident.Some? && QuietAfter(rig, inputs)
    ensures |WindowAfter(rig, inputs)| == rig.capacity
  {
    OpenMeansHit(rig, inputs[..c]);
    FramesGrow(rig, inputs, c);
    QuietFramesAreMany(Frames(rig, inputs), rig.capacity);
  }
}
