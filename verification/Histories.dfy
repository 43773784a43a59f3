/** Whole runs of one camera's engine: a run is any list of frames and operator cancels
    fed to a fresh engine on a fixed configuration. */
module Histories {
  import opened Geometry
  import opened Measures
  import opened Confirmation
  import opened Rules

  datatype Input = Frame(result: FrameResult, id: string) | OperatorCancel

  function Step(rig: Rig, e: Engine, input: Input): (r: (Engine, seq<Event>))
    requires rig.Valid() && e.Valid()
    ensures r.0.Valid() && |r.1| <= 1
  {
    match input
    case Frame(result, id) => Observe(rig, e, result, id)
    case OperatorCancel => Cancel(e)
  }

  datatype Trace = Trace(engine: Engine, events: seq<Event>)

  function Run(rig: Rig, inputs: seq<Input>): (t: Trace)
    requires rig.Valid()
    ensures t.engine.Valid()
  {
    if inputs == [] then Trace(FRESH, [])
    else
      var before := Run(rig, inputs[..|inputs| - 1]);
      var (e, events) := Step(rig, before.engine, inputs[|inputs| - 1]);
      Trace(e, before.events + events)
  }

  /** The engine after further inputs. */
  function Resume(rig: Rig, e: Engine, inputs: seq<Input>): (r: Engine)
    requires rig.Valid() && e.Valid()
    ensures r.Valid()
  {
    if inputs == [] then e
    else Step(rig, Resume(rig, e, inputs[..|inputs| - 1]), inputs[|inputs| - 1]).0
  }

  lemma {:induction false} RunConcat(rig: Rig, a: seq<Input>, b: seq<Input>)
    requires rig.Valid()
    ensures Run(rig, a + b).engine == Resume(rig, Run(rig, a).engine, b)
  {
    if b == [] {
      assert a + b == a;
    } else {
      assert (a + b)[..|a + b| - 1] == a + b[..|b| - 1];
      RunConcat(rig, a, b[..|b| - 1]);
    }
  }

  /** The filtered frames of a run. */
  function Frames(rig: Rig, inputs: seq<Input>): seq<Observation>
    requires rig.Valid()
  {
    if inputs == [] then []
    else
      var front := Frames(rig, inputs[..|inputs| - 1]);
      match inputs[|inputs| - 1]
      case Frame(result, _) => front + [Filter(rig, result)]
      case OperatorCancel => front
  }

  lemma RunSnoc(rig: Rig, inputs: seq<Input>, input: Input)
    requires rig.Valid()
    ensures var before := Run(rig, inputs);
            var (e, events) := Step(rig, before.engine, input);
            Run(rig, inputs + [input]) == Trace(e, before.events + events)
    ensures Frames(rig, inputs + [input]) ==
            Frames(rig, inputs) + if input.Frame? then [Filter(rig, input.result)] else []
  {}

  lemma {:induction false} FramesConcat(rig: Rig, a: seq<Input>, b: seq<Input>)
    requires rig.Valid()
    ensures Frames(rig, a + b) == Frames(rig, a) + Frames(rig, b)
  {
    if b == [] {
      assert a + b == a;
    } else {
      assert (a + b)[..|a + b| - 1] == a + b[..|b| - 1];
      FramesConcat(rig, a, b[..|b| - 1]);
    }
  }

  // ---- what the engine remembers -------------------------------------------

  function LastN(s: seq<Observation>, n: nat): seq<Observation> {
    if |s| <= n then s else s[|s| - n..]
  }

  lemma PushIsLastN(s: seq<Observation>, obs: Observation, n: nat)
    requires n >= 1
    ensures Push(LastN(s, n), obs, n) == LastN(s + [obs], n)
  {}

  /** Only frames touch the window and the area history, and always in the same way. */
  lemma StepMemory(rig: Rig, e: Engine, input: Input)
    requires rig.Valid() && e.Valid()
    ensures input.OperatorCancel? ==>
              Step(rig, e, input).0.window == e.window && Step(rig, e, input).0.history == e.history
    ensures input.Frame? ==>
              var obs := Filter(rig, input.result);
              && Step(rig, e, input).0.window == Push(e.window, obs, rig.capacity)
              && Step(rig, e, input).0.history
                 == RecordArea(e.history, obs, rig.camera.confirm.growthWindow)
  {}

  /** The window is the last frames of the run, whatever the events were. */
  lemma {:induction false} WindowIsLastFrames(rig: Rig, inputs: seq<Input>)
    requires rig.Valid()
    ensures Run(rig, inputs).engine.window == LastN(Frames(rig, inputs), rig.capacity)
  {
    if inputs != [] {
      var before, input := inputs[..|inputs| - 1], inputs[|inputs| - 1];
      WindowIsLastFrames(rig, before);
      StepMemory(rig, Run(rig, before).engine, input);
      if input.Frame? {
        PushIsLastN(Frames(rig, before), Filter(rig, input.result), rig.capacity);
      }
    }
  }

  predicate Timely(frames: seq<Observation>) {
    forall i, j :: 0 <= i <= j < |frames| ==> frames[i].ts <= frames[j].ts
  }

  /** The samples of the frames no older than cutoff. */
  function Recent(frames: seq<Observation>, cutoff: real): seq<AreaSample> {
    if frames == [] then []
    else
      var front := Recent(frames[..|frames| - 1], cutoff);
      var last := frames[|frames| - 1];
      if last.ts >= cutoff then front + [SampleOf(last)] else front
  }

  /** One sample for each frame. */
  function Samples(frames: seq<Observation>): (r: seq<AreaSample>)
    ensures |r| == |frames|
    ensures forall k :: 0 <= k < |frames| ==> r[k] == SampleOf(frames[k])
  {
    seq(|frames|, k requires 0 <= k < |frames| => SampleOf(frames[k]))
  }

  lemma {:induction false} RecentIsSuffix(frames: seq<Observation>, cutoff: real, i: nat)
    requires Timely(frames)
    requires SplitAt(frames, cutoff, i)
    ensures Recent(frames, cutoff) == Samples(frames)[i..]
  {
    if frames != [] {
      var n := |frames| - 1;
      var front := frames[..n];
      if i <= n {
        RecentIsSuffix(front, cutoff, i);
        assert Samples(frames)[i..] == Samples(front)[i..] + [SampleOf(frames[n])];
      } else {
        RecentIsSuffix(front, cutoff, n);
      }
    }
  }

  lemma {:induction false} FirstRecent(frames: seq<Observation>, cutoff: real) returns (i: nat)
    requires Timely(frames)
    ensures SplitAt(frames, cutoff, i)
  {
    i := 0;
    while i < |frames| && frames[i].ts < cutoff
      invariant i <= |frames|
      invariant forall k :: 0 <= k < i ==> frames[k].ts < cutoff
    {
      i := i + 1;
    }
  }

  lemma {:induction false} DropStaleSuffix(frames: seq<Observation>, cutoff: real, i: nat, j: nat)
    requires Timely(frames) && i <= j <= |frames|
    requires SplitAt(frames, cutoff, j)
    ensures DropStale(Samples(frames)[i..], cutoff) == Samples(frames)[j..]
    decreases j - i
  {
    if i < j {
      assert Samples(frames)[i..][1..] == Samples(frames)[i + 1..];
      DropStaleSuffix(frames, cutoff, i + 1, j);
    }
  }

  /** The samples of the growth window at the end of some frames. */
  function GrowthSamples(frames: seq<Observation>, span: real): seq<AreaSample> {
    if frames == [] then [] else Recent(frames, frames[|frames| - 1].ts - span)
  }

  /** With nondecreasing timestamps, dropping stale samples from the front keeps exactly
      the samples inside the growth window. */
  lemma {:induction false} HistoryIsRecent(rig: Rig, inputs: seq<Input>)
    requires rig.Valid() && Timely(Frames(rig, inputs))
    ensures Run(rig, inputs).engine.history
            == GrowthSamples(Frames(rig, inputs), rig.camera.confirm.growthWindow)
  {
    if inputs != [] {
      var before, input := inputs[..|inputs| - 1], inputs[|inputs| - 1];
      StepMemory(rig, Run(rig, before).engine, input);
      if input.Frame? {
        var obs := Filter(rig, input.result);
        TimelyPrefix(Frames(rig, before), obs);
        HistoryIsRecent(rig, before);
        RecentStep(Frames(rig, before), obs, rig.camera.confirm.growthWindow);
      } else {
        HistoryIsRecent(rig, before);
      }
    }
  }

  lemma TimelyPrefix(frames: seq<Observation>, obs: Observation)
    requires Timely(frames + [obs])
    ensures Timely(frames)
    ensures forall k :: 0 <= k < |frames| ==> frames[k].ts <= obs.ts
  {
    assert forall k :: 0 <= k < |frames| ==> (frames + [obs])[k] == frames[k];
    assert (frames + [obs])[|frames|] == obs;
  }

  /** A sample is the time of its frame and the area its detections cover together. */
  lemma SampleMeaning(obs: Observation, boxes: seq<BBox>)
    requires |boxes| == |obs.detections| && forall k :: 0 <= k < |boxes| ==> boxes[k] == obs.detections[k].box
    ensures SampleOf(obs) == AreaSample(obs.ts, Measure(boxes))
  {
    assert boxes == BoxesOf(obs.detections);
  }

  /** frames is split at i by whether a frame is older than cutoff. */
  predicate SplitAt(frames: seq<Observation>, cutoff: real, i: nat) {
    && i <= |frames|
    && (forall k :: 0 <= k < i ==> frames[k].ts < cutoff)
    && (forall k :: i <= k < |frames| ==> frames[k].ts >= cutoff)
  }

  lemma HistorySuffix(frames: seq<Observation>, span: real) returns (i: nat)
    requires span > 0.0 && Timely(frames)
    ensures i <= |frames| && GrowthSamples(frames, span) == Samples(frames)[i..]
    ensures frames != [] ==> SplitAt(frames, frames[|frames| - 1].ts - span, i)
  {
    if frames == [] {
      i := 0;
    } else {
      i := FirstRecent(frames, frames[|frames| - 1].ts - span);
      RecentIsSuffix(frames, frames[|frames| - 1].ts - span, i);
    }
  }

  lemma SamplesSnoc(frames: seq<Observation>, obs: Observation, i: nat)
    requires i <= |frames|
    ensures Samples(frames + [obs])[i..] == Samples(frames)[i..] + [SampleOf(obs)]
  {}

  lemma NewSuffix(frames: seq<Observation>, obs: Observation, span: real) returns (j: nat)
    requires span > 0.0 && Timely(frames + [obs])
    ensures SplitAt(frames + [obs], obs.ts - span, j)
    ensures GrowthSamples(frames + [obs], span) == Samples(frames + [obs])[j..]
  {
    j := HistorySuffix(frames + [obs], span);
  }

  lemma RecentStep(frames: seq<Observation>, obs: Observation, span: real)
    requires span > 0.0 && Timely(frames + [obs])
    ensures RecordArea(GrowthSamples(frames, span), obs, span) == GrowthSamples(frames + [obs], span)
  {
    var all := frames + [obs];
    TimelyPrefix(frames, obs);
    var i := HistorySuffix(frames, span);
    var j := NewSuffix(frames, obs, span);
    SamplesSnoc(frames, obs, i);
    SplitsInOrder(frames, obs, span, i, j);
    DropStaleSuffix(all, obs.ts - span, i, j);
  }

  lemma SplitsInOrder(frames: seq<Observation>, obs: Observation, span: real, i: nat, j: nat)
    requires span > 0.0 && Timely(frames + [obs]) && i <= |frames|
    requires frames != [] ==> SplitAt(frames, frames[|frames| - 1].ts - span, i)
    requires SplitAt(frames + [obs], obs.ts - span, j)
    ensures i <= j
  {
    TimelyPrefix(frames, obs);
    if j < |frames| {
      assert (frames + [obs])[j] == frames[j];
    }
  }
}
