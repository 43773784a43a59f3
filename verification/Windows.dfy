/** Which engines can still open an incident, whatever their past and whatever comes: those
    whose window, fixed when they were built, holds the frames their tuning now requires. */
module Windows {
  import opened Geometry
  import opened Measures
  import opened Confirmation
  import opened Rules
  import opened Histories
  import opened Lifecycle
  import opened Openings
  import opened Responses

  // ---- engines with any past -----------------------------------------------

  /** The window never outgrows its capacity. */
  predicate Fits(rig: Rig, e: Engine) {
    e.Valid() && |e.window| <= rig.capacity
  }

  /** From `e`, after `inputs`, the frame opens an incident. */
  predicate OpensFrom(rig: Rig, e: Engine, inputs: seq<Input>, result: FrameResult, id: string)
    requires rig.Valid() && e.Valid()
  {
    Emits(Step(rig, Resume(rig, e, inputs), Frame(result, id)).1, Opened)
  }

  ghost predicate CanOpen(rig: Rig, e: Engine)
    requires rig.Valid() && e.Valid()
  {
    exists inputs, result, id :: OpensFrom(rig, e, inputs, result, id)
  }

  lemma PushAfter(a: seq<Observation>, c: seq<Observation>, obs: Observation, n: nat)
    requires n >= 1
    ensures Push(LastN(a + c, n), obs, n) == LastN(a + (c + [obs]), n)
  {
    PushIsLastN(a + c, obs, n);
    assert a + c + [obs] == a + (c + [obs]);
  }

  lemma {:induction false} ResumeWindow(rig: Rig, e: Engine, inputs: seq<Input>)
    requires rig.Valid() && Fits(rig, e)
    ensures Resume(rig, e, inputs).window == LastN(e.window + Frames(rig, inputs), rig.capacity)
  {
    if inputs == [] {
      assert e.window + [] == e.window;
    } else {
      var front, input := inputs[..|inputs| - 1], inputs[|inputs| - 1];
      ResumeWindow(rig, e, front);
      StepMemory(rig, Resume(rig, e, front), input);
      if input.Frame? {
        var obs := Filter(rig, input.result);
        PushAfter(e.window, Frames(rig, front), obs, rig.capacity);
      }
    }
  }

  lemma {:induction false} ResumeConcat(rig: Rig, e: Engine, a: seq<Input>, b: seq<Input>)
    requires rig.Valid() && e.Valid()
    ensures Resume(rig, e, a + b) == Resume(rig, Resume(rig, e, a), b)
  {
    if b == [] {
      assert a + b == a;
    } else {
      assert (a + b)[..|a + b| - 1] == a + b[..|b| - 1];
      ResumeConcat(rig, e, a, b[..|b| - 1]);
    }
  }

  /** Where more frames are required than the window holds, nothing is ever opened again. */
  lemma TooShortForever(rig: Rig, e: Engine, inputs: seq<Input>, result: FrameResult, id: string)
    requires rig.Valid() && Fits(rig, e) && rig.capacity < rig.camera.confirm.framesRequired
    ensures !OpensFrom(rig, e, inputs, result, id)
  {
    var r, obs := Resume(rig, e, inputs), Filter(rig, result);
    ResumeWindow(rig, e, inputs);
    StepOpens(rig, r, result, id);
    HitsAreHits(Push(r.window, obs, rig.capacity));
  }

  // ---- a run that opens one ------------------------------------------------

  /** Nothing open, nothing suppressed, no hit in the window. */
  predicate Resting(rig: Rig, e: Engine) {
    Fits(rig, e) && e.incident.None? && !e.suppressed && Hits(e.window) == []
  }

  function Still(d: Detection, isNight: bool): FrameResult {
    FrameResult("", 0.0, 0.0, [d], isNight)
  }

  /** The same frame over and over. */
  function Repeated(d: Detection, isNight: bool, n: nat): (r: seq<Input>)
    ensures |r| == n
  {
    if n == 0 then [] else Repeated(d, isNight, n - 1) + [Frame(Still(d, isNight), "")]
  }

  lemma StillIsHit(rig: Rig, d: Detection, isNight: bool)
    requires rig.Valid() && Rejection(rig, isNight, d) == None
    ensures Filter(rig, Still(d, isNight)) == Observation(0.0, 0.0, [d])
  {
    assert [d][..0] == [];
    assert Kept(rig, isNight, [d]) == [d];
  }

  lemma {:induction false} RepeatedFrames(rig: Rig, d: Detection, isNight: bool, n: nat)
    requires rig.Valid() && Rejection(rig, isNight, d) == None
    ensures Frames(rig, Repeated(d, isNight, n)) == Repeat(Observation(0.0, 0.0, [d]), n)
  {
    if n > 0 {
      RepeatedFrames(rig, d, isNight, n - 1);
      StillIsHit(rig, d, isNight);
      FramesSnoc(rig, Repeated(d, isNight, n - 1), Still(d, isNight), "");
      RepeatMore(Observation(0.0, 0.0, [d]), n - 1);
    }
  }

  lemma FramesSnoc(rig: Rig, inputs: seq<Input>, result: FrameResult, id: string)
    requires rig.Valid()
    ensures Frames(rig, inputs + [Frame(result, id)]) == Frames(rig, inputs) + [Filter(rig, result)]
  {
    var all := inputs + [Frame(result, id)];
    assert all[..|all| - 1] == inputs;
  }

  lemma RepeatMore(obs: Observation, n: nat)
    ensures Repeat(obs, n + 1) == Repeat(obs, n) + [obs]
  {}

  lemma StillArea(d: Detection)
    ensures Observation(0.0, 0.0, [d]).Area() == d.box.Area()
  {
    assert BoxesOf([d]) == [d.box];
    MeasureOfOne(d.box);
  }

  lemma ConstantIsSteady(frames: seq<Observation>, obs: Observation, threshold: real)
    requires frames != [] && forall k :: 0 <= k < |frames| ==> frames[k] == obs
    requires obs.Hit() && obs.Area() > 0.0 && threshold <= 1.0
    ensures Steady(frames, 0, threshold)
  {
    NearItself(obs, threshold);
  }

  /** From rest, after `n` of the still frames that fit, the window holds exactly these hits. */
  lemma StillHits(rig: Rig, e: Engine, d: Detection, isNight: bool, n: nat)
    requires rig.Valid() && Resting(rig, e) && Rejection(rig, isNight, d) == None && n < rig.capacity
    ensures var r := Resume(rig, e, Repeated(d, isNight, n));
            Hits(Push(r.window, Observation(0.0, 0.0, [d]), rig.capacity)) == Repeat(Observation(0.0, 0.0, [d]), n + 1)
  {
    var obs := Observation(0.0, 0.0, [d]);
    RepeatedFrames(rig, d, isNight, n);
    ResumeWindow(rig, e, Repeated(d, isNight, n));
    PushAfter(e.window, Repeat(obs, n), obs, rig.capacity);
    RepeatMore(obs, n);
    assert LastN(e.window, rig.capacity) == e.window;
    SteadyWindow(e.window, Repeat(obs, n + 1), rig.capacity);
  }

  lemma {:induction false} StillUnanswered(rig: Rig, e: Engine, d: Detection, isNight: bool, n: nat)
    requires rig.Valid() && Resting(rig, e) && Rejection(rig, isNight, d) == None
    requires n < rig.camera.confirm.framesRequired <= rig.capacity
    ensures var r := Resume(rig, e, Repeated(d, isNight, n));
            r.incident.None? && !r.suppressed
  {
    if n > 0 {
      StillUnanswered(rig, e, d, isNight, n - 1);
      StillHits(rig, e, d, isNight, n - 1);
      StillIsHit(rig, d, isNight);
      var r := Resume(rig, e, Repeated(d, isNight, n - 1));
      var obs := Observation(0.0, 0.0, [d]);
      assert Repeated(d, isNight, n)[..n - 1] == Repeated(d, isNight, n - 1);
      UnconfirmedOpens(rig, Intake(rig, r, obs), obs, "");
    }
  }

  /** From rest, the still fire opens an incident on the last of the frames required. */
  lemma StillFireOpens(rig: Rig, e: Engine, d: Detection, isNight: bool, id: string)
    requires rig.Valid() && Resting(rig, e) && Rejection(rig, isNight, d) == None && d.box.Area() > 0.0
    requires rig.camera.confirm.framesRequired <= rig.capacity
    ensures OpensFrom(rig, e, Repeated(d, isNight, rig.camera.confirm.framesRequired - 1), Still(d, isNight), id)
  {
    var n, obs := rig.camera.confirm.framesRequired - 1, Observation(0.0, 0.0, [d]);
    StillUnanswered(rig, e, d, isNight, n);
    StillHits(rig, e, d, isNight, n);
    StillIsHit(rig, d, isNight);
    StillArea(d);
    ConstantIsSteady(Repeat(obs, n + 1), obs, rig.camera.confirm.stabilityIou);
    SteadyQualifies(rig.camera.confirm, Repeat(obs, n + 1), 0);
    StepOpens(rig, Resume(rig, e, Repeated(d, isNight, n)), Still(d, isNight), id);
  }

  // ---- bringing an engine to rest ------------------------------------------

  const BLANK: FrameResult := FrameResult("", 0.0, 0.0, [], false)

  /** A cancel and then `k` frames without detections. */
  function Hush(k: nat): (r: seq<Input>)
    ensures |r| == k + 1
  {
    if k == 0 then [OperatorCancel] else Hush(k - 1) + [Frame(BLANK, "")]
  }

  lemma {:induction false} HushedFrames(rig: Rig, k: nat)
    requires rig.Valid()
    ensures Frames(rig, Hush(k)) == Repeat(Observation(0.0, 0.0, []), k)
  {
    if k > 0 {
      HushedFrames(rig, k - 1);
      assert Hush(k)[..k] == Hush(k - 1);
      RepeatMore(Observation(0.0, 0.0, []), k - 1);
    }
  }

  /** An engine that cannot open an incident has none after a cancel. */
  lemma {:induction false} HushedIncident(rig: Rig, e: Engine, k: nat)
    requires rig.Valid() && e.Valid() && !CanOpen(rig, e)
    ensures Resume(rig, e, Hush(k)).incident.None?
  {
    if k == 0 {
      assert Hush(0)[..0] == [];
    } else {
      HushedIncident(rig, e, k - 1);
      var r, obs := Resume(rig, e, Hush(k - 1)), Filter(rig, BLANK);
      assert Hush(k)[..k] == Hush(k - 1);
      assert !OpensFrom(rig, e, Hush(k - 1), BLANK, "");
      UnconfirmedOpens(rig, Intake(rig, r, obs), obs, "");
    }
  }

  lemma LastNWhole(a: seq<Observation>, c: seq<Observation>)
    ensures LastN(a + c, |c|) == c
  {}

  lemma {:induction false} NoHitAtAll(frames: seq<Observation>)
    requires forall k :: 0 <= k < |frames| ==> !frames[k].Hit()
    ensures Hits(frames) == []
  {
    if frames != [] {
      NoHitAtAll(frames[..|frames| - 1]);
    }
  }

  lemma HushedWindow(rig: Rig, e: Engine)
    requires rig.Valid() && Fits(rig, e)
    ensures var r := Resume(rig, e, Hush(rig.capacity));
            Hits(r.window) == [] && |r.window| == rig.capacity
  {
    var k := rig.capacity;
    var blanks := Repeat(Observation(0.0, 0.0, []), k);
    HushedFrames(rig, k);
    ResumeWindow(rig, e, Hush(k));
    LastNWhole(e.window, blanks);
    NoHitAtAll(blanks);
  }

  /** A frame that leaves the window quiet lifts the suppression. */
  lemma QuietLifts(rig: Rig, e: Engine, result: FrameResult, id: string)
    requires rig.Valid() && e.Valid() && e.incident.None?
    requires Hits(Step(rig, e, Frame(result, id)).0.window) == []
    ensures !Step(rig, e, Frame(result, id)).0.suppressed
  {
    StepMemory(rig, e, Frame(result, id));
    StepOpens(rig, e, result, id);
  }

  lemma HushedRests(rig: Rig, e: Engine)
    requires rig.Valid() && Fits(rig, e) && !CanOpen(rig, e)
    ensures Resting(rig, Resume(rig, e, Hush(rig.capacity)))
  {
    var k := rig.capacity;
    HushedIncident(rig, e, k - 1);
    HushedIncident(rig, e, k);
    HushedWindow(rig, e);
    assert Hush(k)[..k] == Hush(k - 1);
    QuietLifts(rig, Resume(rig, e, Hush(k - 1)), BLANK, "");
  }

  /** An engine with any past, under a tuning that lets some detection through by day or by
      night, can open an incident exactly if the frames its tuning requires fit in the window
      it was built with. */
  lemma OpensAgainExactlyWhen(rig: Rig, e: Engine, d: Detection, isNight: bool)
    requires rig.Valid() && Fits(rig, e) && Rejection(rig, isNight, d) == None && d.box.Area() > 0.0
    ensures CanOpen(rig, e) <==> rig.camera.confirm.framesRequired <= rig.capacity
  {
    if rig.camera.confirm.framesRequired <= rig.capacity {
      if !CanOpen(rig, e) {
        var hush, still := Hush(rig.capacity), Repeated(d, isNight, rig.camera.confirm.framesRequired - 1);
        HushedRests(rig, e);
        StillFireOpens(rig, Resume(rig, e, hush), d, isNight, "");
        ResumeConcat(rig, e, hush, still);
        assert OpensFrom(rig, e, hush + still, Still(d, isNight), "");
      }
    }
    forall inputs, result, id | OpensFrom(rig, e, inputs, result, id)
      ensures rig.camera.confirm.framesRequired <= rig.capacity
    {
      if rig.capacity < rig.camera.confirm.framesRequired {
        TooShortForever(rig, e, inputs, result, id);
      }
    }
  }

  lemma FromFresh(rig: Rig, inputs: seq<Input>, result: FrameResult, id: string)
    requires rig.Valid()
    ensures Opens(rig, inputs, Frame(result, id)) <==> OpensFrom(rig, FRESH, inputs, result, id)
  {
    RunConcat(rig, [], inputs);
    assert [] + inputs == inputs;
  }

  /** A new engine in particular. */
  lemma OpensAtAllExactlyWhen(rig: Rig, d: Detection, isNight: bool)
    requires rig.Valid() && Rejection(rig, isNight, d) == None && d.box.Area() > 0.0
    ensures (exists inputs, result, id :: Opens(rig, inputs, Frame(result, id)))
            <==> rig.camera.confirm.framesRequired <= rig.capacity
  {
    OpensAgainExactlyWhen(rig, FRESH, d, isNight);
    forall inputs, result, id
      ensures Opens(rig, inputs, Frame(result, id)) <==> OpensFrom(rig, FRESH, inputs, result, id)
    {
      FromFresh(rig, inputs, result, id);
    }
    assert CanOpen(rig, FRESH) <==> exists inputs, result, id :: Opens(rig, inputs, Frame(result, id));
  }
}
