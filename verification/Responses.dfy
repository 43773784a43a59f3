/** How a steady fire is answered: exactly on time from any quiet camera, also after a
    cancel. */
module Responses {
  import opened Geometry
  import opened Measures
  import opened Confirmation
  import opened Rules
  import opened Histories
  import opened Lifecycle
  import opened Openings

  /** Nothing is open, no cancel holds and the window shows no hit. */
  predicate AtRest(rig: Rig, inputs: seq<Input>)
    requires rig.Valid()
  {
    !IsOpen(Run(rig, inputs).events) && !Suppressed(rig, inputs) && QuietAfter(rig, inputs)
  }

  /** A new engine is at rest. */
  lemma FreshIsAtRest(rig: Rig)
    requires rig.Valid()
    ensures AtRest(rig, [])
  {}

  /** A quiet window ends the silence of a cancel: without an open incident, a frame that
      leaves the window quiet leaves the camera at rest. */
  lemma QuietEndsSilence(rig: Rig, inputs: seq<Input>)
    requires rig.Valid() && inputs != [] && inputs[|inputs| - 1].Frame?
    requires !IsOpen(Run(rig, inputs).events) && QuietAfter(rig, inputs)
    ensures AtRest(rig, inputs)
  {
    SuppressedLater(rig, inputs);
  }

  /** From rest, fewer frames than are required open nothing. */
  lemma {:induction false} NothingEarly(rig: Rig, inputs: seq<Input>, more: seq<Input>)
    requires rig.Valid() && AtRest(rig, inputs)
    requires |Frames(rig, more)| < rig.camera.confirm.framesRequired
    ensures Run(rig, inputs + more).events == Run(rig, inputs).events
    ensures Run(rig, inputs + more).engine.incident.None? && !Run(rig, inputs + more).engine.suppressed
  {
    if more == [] {
      assert inputs + more == inputs;
      OpenByLastEvent(rig, inputs);
      SuppressedMeaning(rig, inputs);
    } else {
      var front, input := more[..|more| - 1], more[|more| - 1];
      NothingEarly(rig, inputs, front);
      assert inputs + more == inputs + front + [input];
      RunSnoc(rig, inputs + front, input);
      match input
      case Frame(result, id) =>
        FewHits(rig, inputs, front, result);
        QuietStep(rig, inputs + front, result, id);
      case OperatorCancel =>
        CancelOfNothing(rig, Run(rig, inputs + front).engine);
    }
  }

  /** Since the camera was at rest, the window holds no more hits than there were frames. */
  lemma FewHits(rig: Rig, inputs: seq<Input>, more: seq<Input>, result: FrameResult)
    requires rig.Valid() && QuietAfter(rig, inputs)
    ensures |Hits(LastN(Frames(rig, inputs + more) + [Filter(rig, result)], rig.capacity))|
            <= |Frames(rig, more)| + 1
  {
    var a, c, obs := Frames(rig, inputs), Frames(rig, more), Filter(rig, result);
    FramesConcat(rig, inputs, more);
    assert a + c + [obs] == a + (c + [obs]);
    HitsAfterQuiet(a, c + [obs], rig.capacity);
    HitsAreHits(c + [obs]);
  }

  lemma CancelOfNothing(rig: Rig, e: Engine)
    requires rig.Valid() && e.Valid() && e.incident.None?
    ensures Step(rig, e, OperatorCancel) == (e, [])
  {}

  lemma QuietStep(rig: Rig, inputs: seq<Input>, result: FrameResult, id: string)
    requires rig.Valid()
    requires Run(rig, inputs).engine.incident.None? && !Run(rig, inputs).engine.suppressed
    requires |Hits(LastN(Frames(rig, inputs) + [Filter(rig, result)], rig.capacity))|
             < rig.camera.confirm.framesRequired
    ensures var r := Step(rig, Run(rig, inputs).engine, Frame(result, id));
            r.1 == [] && r.0.incident.None? && !r.0.suppressed
  {
    var e, obs := Run(rig, inputs).engine, Filter(rig, result);
    WindowIsLastFrames(rig, inputs);
    PushIsLastN(Frames(rig, inputs), obs, rig.capacity);
    UnconfirmedOpens(rig, Intake(rig, e, obs), obs, id);
  }

  // ---- a steady fire -------------------------------------------------------

  /** All frames hit, none smaller than the one before, and all near frame s. */
  predicate Steady(frames: seq<Observation>, s: nat, threshold: real) {
    && s < |frames|
    && (forall k :: 0 <= k < |frames| ==> frames[k].Hit() && frames[k].Area() > 0.0)
    && (forall i, j :: 0 <= i <= j < |frames| ==> frames[i].Area() <= frames[j].Area())
    && (forall k :: 0 <= k < |frames| && k != s ==> NearHit(frames[s], frames[k], threshold))
  }

  lemma {:induction false} AllHits(frames: seq<Observation>)
    requires forall k :: 0 <= k < |frames| ==> frames[k].Hit()
    ensures Hits(frames) == frames
  {
    if frames != [] {
      var n := |frames| - 1;
      AllHits(frames[..n]);
      assert frames == frames[..n] + [frames[n]];
    }
  }

  lemma NearItself(obs: Observation, threshold: real)
    requires obs.Hit() && obs.Area() > 0.0 && threshold <= 1.0
    ensures NearHit(obs, obs, threshold)
  {
    var boxes := BoxesOf(obs.detections);
    HitHasEnvelope(obs);
    var e := obs.Envelope().value;
    EnvelopeIsLeast(boxes, e);
    MeasureBounds(boxes, e);
    IouLaws(e, e);
  }

  lemma IndexCount(n: nat, s: set<nat>)
    requires forall k: nat :: k in s <==> k < n
    ensures |s| == n
  {
    if n == 0 {
      assert s == {};
    } else {
      IndexCount(n - 1, s - {n - 1});
    }
  }

  lemma SteadyQualifies(confirm: ConfirmConfig, frames: seq<Observation>, s: nat)
    requires confirm.Valid() && |frames| == confirm.framesRequired
    requires Steady(frames, s, confirm.stabilityIou)
    ensures Qualifies(confirm, frames)
  {
    NearItself(frames[s], confirm.stabilityIou);
    IndexCount(|frames|, NearHits(frames, s, confirm.stabilityIou));
    assert |NearHits(frames, s, confirm.stabilityIou)| >= confirm.stabilityFrames;
    GrowingIsNotShrinking(Areas(frames), confirm.growthTolerance);
  }

  lemma QuietTail(a: seq<Observation>, m: nat, n: nat)
    requires Hits(LastN(a, n)) == [] && m <= n
    ensures Hits(LastN(a, m)) == []
  {
    LastNOfLastN(a, m, n);
    HitsOfLastN(LastN(a, n), m);
  }

  lemma LastNTail(a: seq<Observation>, c: seq<Observation>, n: nat)
    requires |c| <= n
    ensures LastN(a + c, n) == LastN(a, n - |c|) + c
  {
    LastNConcat(a, c, n);
    if |c| == n {
      assert LastN(c, n) == c && LastN(a, 0) == [];
    }
  }

  lemma SteadyWindow(a: seq<Observation>, c: seq<Observation>, n: nat)
    requires Hits(LastN(a, n)) == [] && |c| <= n && forall k :: 0 <= k < |c| ==> c[k].Hit()
    ensures Hits(LastN(a + c, n)) == c
  {
    var d := LastN(a, n - |c|);
    QuietTail(a, n - |c|, n);
    AllHits(c);
    HitsConcat(d, c);
    LastNTail(a, c, n);
  }

  /** From rest, hits fill the window as long as they fit. */
  lemma SteadyHits(rig: Rig, inputs: seq<Input>, more: seq<Input>, result: FrameResult)
    requires rig.Valid() && QuietAfter(rig, inputs)
    requires var c := Frames(rig, more) + [Filter(rig, result)];
             |c| <= rig.capacity && forall k :: 0 <= k < |c| ==> c[k].Hit()
    ensures Hits(LastN(Frames(rig, inputs + more) + [Filter(rig, result)], rig.capacity))
            == Frames(rig, more) + [Filter(rig, result)]
  {
    var a, c := Frames(rig, inputs), Frames(rig, more) + [Filter(rig, result)];
    FramesConcat(rig, inputs, more);
    assert Frames(rig, inputs + more) + [Filter(rig, result)] == a + c;
    SteadyWindow(a, c, rig.capacity);
  }

  /** From rest, after any history, steady frames stay unanswered until frame number
      framesRequired and open an incident on it. */
  lemma SteadyFireOpensFromRest(rig: Rig, inputs: seq<Input>, more: seq<Input>, result: FrameResult, id: string, s: nat)
    requires rig.Valid() && AtRest(rig, inputs)
    requires |Frames(rig, more)| + 1 == rig.camera.confirm.framesRequired <= rig.capacity
    requires Steady(Frames(rig, more) + [Filter(rig, result)], s, rig.camera.confirm.stabilityIou)
    ensures Run(rig, inputs + more).events == Run(rig, inputs).events
    ensures Opens(rig, inputs + more, Frame(result, id))
  {
    NothingEarly(rig, inputs, more);
    SuppressedMeaning(rig, inputs + more);
    OpenByLastEvent(rig, inputs + more);
    SteadyHits(rig, inputs, more, result);
    SteadyQualifies(rig.camera.confirm, Frames(rig, more) + [Filter(rig, result)], s);
    OpensExactlyWhen(rig, inputs + more, result, id);
  }

  /** A fresh engine fed steady frames stays silent until frame number framesRequired,
      and opens an incident on it. */
  lemma SteadyFireOpensOnTime(camera: CameraConfig, inputs: seq<Input>, result: FrameResult, id: string, s: nat)
    requires camera.Valid()
    requires |Frames(MakeRig(camera), inputs)| + 1 == camera.confirm.framesRequired
    requires Steady(Frames(MakeRig(camera), inputs) + [Filter(MakeRig(camera), result)], s, camera.confirm.stabilityIou)
    ensures Run(MakeRig(camera), inputs).events == []
    ensures Opens(MakeRig(camera), inputs, Frame(result, id))
  {
    var rig := MakeRig(camera);
    FreshIsAtRest(rig);
    SteadyFireOpensFromRest(rig, [], inputs, result, id, s);
    assert [] + inputs == inputs;
  }
}
