/** Silence and clearing on a running site: what holds of an engine with any past, and so at
    any moment of any run with reconfigurations (firemex/incident/engine.py). */
module Silences {
  import opened Geometry
  import opened Confirmation
  import opened Histories
  import opened Lifecycle
  import opened Openings
  import opened Windows
  import opened Fleet
  import opened SiteRuns
  import opened SiteIncidents

  // ---- engines with any past -----------------------------------------------

  /** An open incident means a hit in the window or a full window. */
  predicate Warm(rig: Rig, e: Engine) {
    Fits(rig, e) && (e.incident.Some? ==> Hits(e.window) != [] || |e.window| == rig.capacity)
  }

  lemma PushKeepsWarm(window: seq<Observation>, obs: Observation, n: nat)
    requires n >= 1 && |window| <= n && (Hits(window) != [] || |window| == n)
    ensures Hits(Push(window, obs, n)) != [] || |Push(window, obs, n)| == n
  {
    if |window| < n {
      HitsConcat(window, [obs]);
    }
  }

  lemma StepKeepsWarm(rig: Rig, e: Engine, input: Input)
    requires rig.Valid() && Warm(rig, e)
    ensures Warm(rig, Step(rig, e, input).0)
  {
    StepMemory(rig, e, input);
    if input.Frame? {
      var obs := Filter(rig, input.result);
      if e.incident.Some? {
        PushKeepsWarm(e.window, obs, rig.capacity);
      } else {
        UnconfirmedOpens(rig, Intake(rig, e, obs), obs, input.id);
      }
    }
  }

  lemma LiftedNow(rig: Rig, e: Engine, inputs: seq<Input>)
    requires rig.Valid() && e.Valid() && e.suppressed && e.incident.None? && inputs != []
    requires Resume(rig, e, inputs[..|inputs| - 1]).suppressed && !Resume(rig, e, inputs).suppressed
    ensures inputs[|inputs| - 1].Frame? && Hits(Resume(rig, e, inputs).window) == []
  {
    var front := inputs[..|inputs| - 1];
    StaysSilent(rig, e, front);
    SilentStep(rig, Resume(rig, e, front), inputs[|inputs| - 1]);
  }

  /** A silenced engine that no longer is has seen a quiet window. */
  lemma {:induction false} SilenceEnds(rig: Rig, e: Engine, inputs: seq<Input>) returns (p: seq<Input>)
    requires rig.Valid() && e.Valid() && e.suppressed && e.incident.None?
    requires !Resume(rig, e, inputs).suppressed
    ensures p != [] && p <= inputs && p[|p| - 1].Frame? && Hits(Resume(rig, e, p).window) == []
  {
    p := inputs;
    if Resume(rig, e, inputs[..|inputs| - 1]).suppressed {
      LiftedNow(rig, e, inputs);
    } else {
      p := SilenceEnds(rig, e, inputs[..|inputs| - 1]);
    }
  }

  lemma SilentStep(rig: Rig, e: Engine, input: Input)
    requires rig.Valid() && e.Valid() && (e.suppressed ==> e.incident.None?)
    ensures var r := Step(rig, e, input).0;
            && (r.suppressed ==> r.incident.None?)
            && (e.suppressed && !r.suppressed ==> input.Frame? && Hits(r.window) == [])
  {
    match input
    case Frame(result, id) => ObserveSuppressed(rig, e, result, id);
    case OperatorCancel => CancelSuppresses(e);
  }

  lemma {:induction false} StaysSilent(rig: Rig, e: Engine, inputs: seq<Input>)
    requires rig.Valid() && e.Valid() && (e.suppressed ==> e.incident.None?)
    ensures var r := Resume(rig, e, inputs);
            r.suppressed ==> r.incident.None?
  {
    if inputs != [] {
      StaysSilent(rig, e, inputs[..|inputs| - 1]);
      SilentStep(rig, Resume(rig, e, inputs[..|inputs| - 1]), inputs[|inputs| - 1]);
    }
  }

  lemma FullWhenQuiet(rig: Rig, e: Engine, inputs: seq<Input>)
    requires rig.Valid() && Fits(rig, e) && (Hits(e.window) != [] || |e.window| == rig.capacity)
    requires Hits(Resume(rig, e, inputs).window) == []
    ensures |Resume(rig, e, inputs).window| == rig.capacity
  {
    var later := Frames(rig, inputs);
    ResumeWindow(rig, e, inputs);
    if |e.window| < rig.capacity {
      HitsConcat(e.window, later);
      QuietFramesAreMany(e.window + later, rig.capacity);
    }
  }

  /** From a quiet window on, an opening takes its hits from the frames that follow. */
  lemma HitsSince(rig: Rig, e: Engine, inputs: seq<Input>, result: FrameResult, id: string)
    requires rig.Valid() && Fits(rig, e) && Hits(e.window) == [] && OpensFrom(rig, e, inputs, result, id)
    ensures |Hits(Frames(rig, inputs) + [Filter(rig, result)])| >= rig.camera.confirm.framesRequired
  {
    var obs, later := Filter(rig, result), Frames(rig, inputs);
    StepOpens(rig, Resume(rig, e, inputs), result, id);
    ResumeWindow(rig, e, inputs);
    PushAfter(e.window, later, obs, rig.capacity);
    assert LastN(e.window, rig.capacity) == e.window;
    HitsAfterQuiet(e.window, later + [obs], rig.capacity);
  }

  /** Input `q` completes a full window of quiet frames. */
  predicate QuietAt(rig: Rig, e: Engine, inputs: seq<Input>, q: nat)
    requires rig.Valid() && e.Valid()
  {
    q < |inputs| && inputs[q].Frame? &&
    var window := Resume(rig, e, inputs[..q + 1]).window;
    Hits(window) == [] && |window| == rig.capacity
  }

  lemma ResumeFits(rig: Rig, e: Engine, inputs: seq<Input>)
    requires rig.Valid() && Fits(rig, e)
    ensures Fits(rig, Resume(rig, e, inputs))
  {
    ResumeWindow(rig, e, inputs);
  }

  lemma CutAt(inputs: seq<Input>, n: nat)
    requires n <= |inputs|
    ensures inputs[..n] + inputs[n..] == inputs
  {}

  lemma OpensAfter(rig: Rig, e: Engine, head: seq<Input>, rest: seq<Input>, result: FrameResult, id: string)
    requires rig.Valid() && Fits(rig, e)
    requires Hits(Resume(rig, e, head).window) == [] && OpensFrom(rig, e, head + rest, result, id)
    ensures |Hits(Frames(rig, rest) + [Filter(rig, result)])| >= rig.camera.confirm.framesRequired
  {
    ResumeFits(rig, e, head);
    ResumeConcat(rig, e, head, rest);
    HitsSince(rig, Resume(rig, e, head), rest, result, id);
  }

  lemma OpensUnsilenced(rig: Rig, e: Engine, inputs: seq<Input>, result: FrameResult, id: string)
    requires rig.Valid() && e.Valid() && OpensFrom(rig, e, inputs, result, id)
    ensures !Resume(rig, e, inputs).suppressed
  {
    StepOpens(rig, Resume(rig, e, inputs), result, id);
  }

  lemma QuietFound(rig: Rig, e: Engine, inputs: seq<Input>) returns (q: nat)
    requires rig.Valid() && Fits(rig, e) && (Hits(e.window) != [] || |e.window| == rig.capacity)
    requires e.suppressed && e.incident.None? && !Resume(rig, e, inputs).suppressed
    ensures QuietAt(rig, e, inputs, q)
  {
    var p := SilenceEnds(rig, e, inputs);
    q := |p| - 1;
    assert inputs[..q + 1] == p;
    FullWhenQuiet(rig, e, p);
  }

  lemma SilencedOpens(rig: Rig, e: Engine, inputs: seq<Input>, result: FrameResult, id: string) returns (q: nat)
    requires rig.Valid() && Fits(rig, e) && (Hits(e.window) != [] || |e.window| == rig.capacity)
    requires e.suppressed && e.incident.None? && OpensFrom(rig, e, inputs, result, id)
    ensures QuietAt(rig, e, inputs, q)
    ensures |Hits(Frames(rig, inputs[q + 1..]) + [Filter(rig, result)])| >= rig.camera.confirm.framesRequired
  {
    OpensUnsilenced(rig, e, inputs, result, id);
    q := QuietFound(rig, e, inputs);
    CutAt(inputs, q + 1);
    OpensAfter(rig, e, inputs[..q + 1], inputs[q + 1..], result, id);
  }

  /** After a cancel of its open incident an engine, whatever its past, opens another only
      after some frame that completes a full window of quiet frames, and with at least
      framesRequired hits after that frame. */
  lemma CancelSilencesFrom(rig: Rig, e: Engine, inputs: seq<Input>, result: FrameResult, id: string) returns (q: nat)
    requires rig.Valid() && Warm(rig, e) && e.incident.Some?
    requires OpensFrom(rig, Cancel(e).0, inputs, result, id)
    ensures QuietAt(rig, Cancel(e).0, inputs, q)
    ensures |Hits(Frames(rig, inputs[q + 1..]) + [Filter(rig, result)])| >= rig.camera.confirm.framesRequired
  {
    q := SilencedOpens(rig, Cancel(e).0, inputs, result, id);
  }

  // ---- one camera from the start -------------------------------------------

  lemma {:induction false} RunIsWarm(rig: Rig, inputs: seq<Input>)
    requires rig.Valid()
    ensures Warm(rig, Run(rig, inputs).engine)
  {
    if inputs != [] {
      RunIsWarm(rig, inputs[..|inputs| - 1]);
      StepKeepsWarm(rig, Run(rig, inputs[..|inputs| - 1]).engine, inputs[|inputs| - 1]);
    }
  }

  /** A window quiet and full in what follows `a` is so in the run. */
  lemma QuietInRun(rig: Rig, a: seq<Input>, b: seq<Input>)
    requires rig.Valid()
    requires var window := Resume(rig, Run(rig, a).engine, b).window;
             Hits(window) == [] && |window| == rig.capacity
    ensures QuietAfter(rig, a + b) && |WindowAfter(rig, a + b)| == rig.capacity
  {
    RunConcat(rig, a, b);
    WindowIsLastFrames(rig, a + b);
  }

  lemma OpensFromThere(rig: Rig, a: seq<Input>, b: seq<Input>, result: FrameResult, id: string)
    requires rig.Valid() && Opens(rig, a + b, Frame(result, id))
    ensures OpensFrom(rig, Run(rig, a).engine, b, result, id)
  {
    RunConcat(rig, a, b);
  }

  /** In every run, once a cancel has closed an open incident, whatever else happens, a frame opens
      another only after some frame `q` that completes a full window of quiet frames, and with at
      least framesRequired hits after it. */
  lemma CancelSilences(rig: Rig, before: seq<Input>, after: seq<Input>, result: FrameResult, id: string)
    returns (q: nat)
    requires rig.Valid() && IsOpen(Run(rig, before).events)
    requires Opens(rig, before + [OperatorCancel] + after, Frame(result, id))
    ensures q < |after| && after[q].Frame?
    ensures var head := before + [OperatorCancel] + after[..q + 1];
            QuietAfter(rig, head) && |WindowAfter(rig, head)| == rig.capacity
    ensures |Hits(Frames(rig, after[q + 1..]) + [Filter(rig, result)])| >= rig.camera.confirm.framesRequired
  {
    RunIsWarm(rig, before);
    OpenByLastEvent(rig, before);
    RunSnoc(rig, before, OperatorCancel);
    OpensFromThere(rig, before + [OperatorCancel], after, result, id);
    q := CancelSilencesFrom(rig, Run(rig, before).engine, after, result, id);
    QuietInRun(rig, before + [OperatorCancel], after[..q + 1]);
  }

  // ---- running sites -------------------------------------------------------

  predicate AllWarm(f: Seats) {
    forall id :: id in f ==> Warm(f[id].rig, f[id].engine)
  }

  lemma PerformKeepsWarm(f: Seats, act: Act)
    requires AllValid(f) && AllWarm(f) && (act.Configure? ==> Sound(act.incoming))
    ensures AllWarm(Perform(f, act).seats)
  {
    match act
    case Feed(r) =>
      if r.cameraId in f {
        StepKeepsWarm(f[r.cameraId].rig, f[r.cameraId].engine, r.input);
      }
    case Configure(incoming) =>
      forall id | id in incoming
        ensures Warm(Reconfigured(f, incoming)[id].rig, Reconfigured(f, incoming)[id].engine)
      {
        ReconfiguredSeats(f, incoming, id);
      }
  }

  lemma {:induction false} WarmThroughout(acts: seq<Act>)
    requires AllSound(acts)
    ensures AllWarm(RunActs(map[], acts).seats)
  {
    if acts != [] {
      WarmThroughout(acts[..|acts| - 1]);
      PerformKeepsWarm(RunActs(map[], acts[..|acts| - 1]).seats, acts[|acts| - 1]);
    }
  }

  /** Every new configuration lists the camera, and changes nothing about it. */
  predicate Retains(acts: seq<Act>, id: string, camera: CameraConfig) {
    forall i :: 0 <= i < |acts| && acts[i].Configure? ==> id in acts[i].incoming && acts[i].incoming[id] == camera
  }

  /** What the camera is fed. */
  function FedTo(acts: seq<Act>, id: string): seq<Input> {
    if acts == [] then []
    else
      var front := FedTo(acts[..|acts| - 1], id);
      var last := acts[|acts| - 1];
      if last.Feed? && last.routed.cameraId == id then front + [last.routed.input] else front
  }

  /** While its configuration is retained, a camera runs on what it is fed, whatever else happens. */
  lemma {:induction false} RetainedRuns(f: Seats, acts: seq<Act>, id: string)
    requires AllValid(f) && AllSound(acts) && id in f && Retains(acts, id, f[id].rig.camera)
    ensures var g := RunActs(f, acts).seats;
            id in g && g[id] == Seat(f[id].rig, Resume(f[id].rig, f[id].engine, FedTo(acts, id)))
  {
    if acts != [] {
      var front, last := acts[..|acts| - 1], acts[|acts| - 1];
      RetainedRuns(f, front, id);
      match last
      case Feed(r) =>
      case Configure(incoming) => ReconfiguredSeats(RunActs(f, front).seats, incoming, id);
    }
  }

  /** The frame opens an incident on the camera. */
  predicate OpensOn(f: Seats, id: string, result: FrameResult, incidentId: string)
    requires AllValid(f)
  {
    id in f && Emits(Step(f[id].rig, f[id].engine, Frame(result, incidentId)).1, Opened)
  }

  function AfterCancel(f: Seats, id: string): Seats
    requires AllValid(f)
  {
    Perform(f, Feed(Routed(id, OperatorCancel))).seats
  }

  /** At any moment of any run of a site, after a cancel of the open incident of a camera, for
      as long as no configuration leaves the camera out or changes anything about it, a frame opens
      another only after some frame that completes a full window of quiet frames, and with
      at least framesRequired hits after that frame. */
  lemma CancelSilencesThroughout(acts: seq<Act>, more: seq<Act>, id: string, result: FrameResult, incidentId: string)
    returns (q: nat)
    requires AllSound(acts) && AllSound(more) && HasOpen(RunActs(map[], acts).seats, id)
    requires Retains(more, id, RunActs(map[], acts).seats[id].rig.camera)
    requires OpensOn(RunActs(AfterCancel(RunActs(map[], acts).seats, id), more).seats, id, result, incidentId)
    ensures var s, fed := AfterCancel(RunActs(map[], acts).seats, id)[id], FedTo(more, id);
            && QuietAt(s.rig, s.engine, fed, q)
            && |Hits(Frames(s.rig, fed[q + 1..]) + [Filter(s.rig, result)])| >= s.rig.camera.confirm.framesRequired
  {
    var f := RunActs(map[], acts).seats;
    WarmThroughout(acts);
    RetainedRuns(AfterCancel(f, id), more, id);
    q := CancelSilencesFrom(f[id].rig, f[id].engine, FedTo(more, id), result, incidentId);
  }

  /** A new configuration leaves a silenced camera silenced exactly if it lists the camera and
      changes nothing about it, be it only the name. */
  lemma SilenceKeptExactlyWhen(f: Seats, incoming: SiteConfig, id: string)
    requires AllValid(f) && Sound(incoming) && id in f && f[id].engine.suppressed && f[id].engine.incident.None?
    ensures var g := Perform(f, Configure(incoming)).seats;
            (id in g && g[id].engine.suppressed) <==> (id in incoming && incoming[id] == f[id].rig.camera)
  {
    if id in incoming {
      ReconfiguredSeats(f, incoming, id);
    }
  }

  /** An incident of a running site clears on exactly the quiet frame that comes at least
      clearAfter, as then configured, after the later of its opening and its last hit. */
  lemma ClearsThroughout(f: Seats, acts: seq<Act>, id: string, opening: Observation, incidentId: string,
                         seen: seq<Detection>, result: FrameResult, freshId: string)
    requires AllValid(f) && AllSound(acts) && OpenThroughout(f, acts, id)
    requires SeatSumsUp(f, id, opening, incidentId, seen, [])
    ensures var s := RunActs(f, acts).seats[id];
            var obs, since := Filter(s.rig, result), LastHit(opening.ts, FramesThroughout(f, acts, id));
            Emits(Step(s.rig, s.engine, Frame(result, freshId)).1, Closed) <==>
            !obs.Hit() && obs.ts - since >= s.rig.camera.confirm.clearAfter
  {
    SumsUpThroughout(f, acts, id, opening, incidentId, seen);
    var s := RunActs(f, acts).seats[id];
    var obs := Filter(s.rig, result);
    ClosesWhen(s.rig, Intake(s.rig, s.engine, obs), obs);
  }
}
