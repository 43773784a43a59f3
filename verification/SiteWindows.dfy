/** The windows of a running site, and the cameras a new configuration leaves unable to open
    anything (firemex/incident/engine.py, IncidentEngine). */
module SiteWindows {
  import opened Geometry
  import opened Confirmation
  import opened Histories
  import opened Lifecycle
  import opened Openings
  import opened Windows
  import opened Fleet
  import opened SiteRuns

  // ---- windows that are too short ------------------------------------------

  /** No window is longer than its engine was built to hold. */
  predicate AllFit(f: Seats)
    requires AllValid(f)
  {
    forall id :: id in f ==> Fits(f[id].rig, f[id].engine)
  }

  lemma StepFits(rig: Rig, e: Engine, input: Input)
    requires rig.Valid() && Fits(rig, e)
    ensures Fits(rig, Step(rig, e, input).0)
  {
    StepMemory(rig, e, input);
  }

  lemma PerformFits(f: Seats, act: Act)
    requires AllValid(f) && AllFit(f) && (act.Configure? ==> Sound(act.incoming))
    ensures AllFit(Perform(f, act).seats)
  {
    match act
    case Feed(r) =>
      if r.cameraId in f {
        StepFits(f[r.cameraId].rig, f[r.cameraId].engine, r.input);
      }
    case Configure(incoming) =>
      forall id | id in incoming
        ensures Fits(Reconfigured(f, incoming)[id].rig, Reconfigured(f, incoming)[id].engine)
      {
        ReconfiguredSeats(f, incoming, id);
      }
  }

  /** So it is at every moment of every run that starts without cameras. */
  lemma {:induction false} WindowsFitThroughout(acts: seq<Act>)
    requires AllSound(acts)
    ensures AllFit(RunActs(map[], acts).seats)
  {
    if acts != [] {
      WindowsFitThroughout(acts[..|acts| - 1]);
      PerformFits(RunActs(map[], acts[..|acts| - 1]).seats, acts[|acts| - 1]);
    }
  }

  /** The camera keeps its engine, and with it a window too short for what it is to
      require. */
  predicate Outgrown(f: Seats, incoming: SiteConfig, id: string)
    requires id in incoming
  {
    && id in f && (f[id].engine.incident.Some? || f[id].rig.camera == incoming[id])
    && f[id].rig.capacity < incoming[id].confirm.framesRequired
  }

  /** At any moment of any run of a site, a new configuration leaves a camera unable to open
      another incident, whatever it is shown under that configuration, exactly if the camera
      keeps an engine (that of its open incident, or of the same configuration) with too short
      a window. */
  lemma BlindedExactlyWhen(acts: seq<Act>, incoming: SiteConfig, id: string, d: Detection, isNight: bool)
    requires AllSound(acts) && Sound(incoming) && id in incoming
    requires var rig := Reconfigured(RunActs(map[], acts).seats, incoming)[id].rig;
             rig.Valid() && Rejection(rig, isNight, d) == None && d.box.Area() > 0.0
    ensures var f := RunActs(map[], acts).seats;
            var s := Reconfigured(f, incoming)[id];
            s.Valid() && (!CanOpen(s.rig, s.engine) <==> Outgrown(f, incoming, id))
  {
    var f := RunActs(map[], acts).seats;
    var s := Reconfigured(f, incoming)[id];
    WindowsFitThroughout(acts);
    PerformFits(f, Configure(incoming));
    ReconfiguredSeats(f, incoming, id);
    OpensAgainExactlyWhen(s.rig, s.engine, d, isNight);
  }

  /** A blind camera without an open incident sees again once anything but its tuning changes. */
  lemma RenamedSeesAgain(acts: seq<Act>, incoming: SiteConfig, id: string, d: Detection, isNight: bool)
    requires AllSound(acts) && Sound(incoming) && id in incoming && id in RunActs(map[], acts).seats
    requires var s := RunActs(map[], acts).seats[id];
             && s.engine.incident.None? && s.rig.capacity < s.rig.camera.confirm.framesRequired
             && s.rig.camera.SameTuning(incoming[id]) && s.rig.camera != incoming[id]
    requires Rejection(MakeRig(incoming[id]), isNight, d) == None && d.box.Area() > 0.0
    ensures var f := RunActs(map[], acts).seats;
            var s := Reconfigured(f, incoming)[id];
            s.Valid() && !CanOpen(f[id].rig, f[id].engine) && CanOpen(s.rig, s.engine)
  {
    var f := RunActs(map[], acts).seats;
    WindowsFitThroughout(acts);
    BlindedExactlyWhen(acts, incoming, id, d, isNight);
    forall inputs, result, freshId
      ensures !OpensFrom(f[id].rig, f[id].engine, inputs, result, freshId)
    {
      TooShortForever(f[id].rig, f[id].engine, inputs, result, freshId);
    }
  }
}
