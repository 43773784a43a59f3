/** The engine of one camera as an object (firemex/incident/engine.py,
    CameraIncidentEngine).  It updates its fields in place; every method is proved to
    compute what module Confirmation says. */
module CameraEngine {
  import opened Geometry
  import opened Measures
  import opened Zones
  import opened Confirmation

  /** The live record of an incident.  Events refer to it, so later frames change what is
      read through an event, but not the snapshot the event carries. */
  class LiveIncident {
    const id: string
    const cameraId: string
    const openedTs: real
    const openedWall: real
    const framesConfirmed: nat
    var severity: Severity
    var labels: set<Label>
    var peakConfidence: real
    var envelope: Option<BBox>
    var growthRatio: real
    var lastHitTs: real
    var closedWall: Option<real>

    function View(): Incident
      reads this
    {
      Incident(id, cameraId, openedTs, openedWall, severity, labels, peakConfidence, envelope,
               framesConfirmed, growthRatio, lastHitTs, closedWall)
    }

    constructor (i: Incident)
      ensures View() == i
    {
      id, cameraId, openedTs, openedWall := i.id, i.cameraId, i.openedTs, i.openedWall;
      framesConfirmed, severity, labels := i.framesConfirmed, i.severity, i.labels;
      peakConfidence, envelope, growthRatio := i.peakConfidence, i.envelope, i.growthRatio;
      lastHitTs, closedWall := i.lastHitTs, i.closedWall;
    }
  }

  datatype IncidentEvent = IncidentEvent(
    kind: EventKind,
    incident: LiveIncident,
    observation: Observation,
    severity: Severity,
    labels: set<Label>
  ) {
    function View(): Event
      reads incident
    {
      Event(kind, incident.View(), observation, severity, labels)
    }
  }

  function ViewOf(events: seq<IncidentEvent>): seq<Event>
    requires |events| <= 1
    reads set e | e in events :: e.incident
  {
    if events == [] then [] else [events[0].View()]
  }

  // ---- loops over one frame or one window ----------------------------------

  /** The envelope of a frame, joined box by box. */
  method EnvelopeOfBoxes(boxes: seq<BBox>) returns (envelope: Option<BBox>)
    ensures envelope == EnvelopeOf(boxes)
  {
    if boxes == [] {
      return None;
    }
    var box: BBox := boxes[0];
    assert boxes[..1][..0] == [];
    for i := 1 to |boxes|
      invariant EnvelopeOf(boxes[..i]) == Some(box)
    {
      assert boxes[..i + 1][..i] == boxes[..i];
      box := Union(box, boxes[i]);
    }
    assert boxes[..|boxes|] == boxes;
    return Some(box);
  }

  method WindowEnvelopeOf(window: seq<Observation>) returns (envelope: Option<BBox>)
    ensures envelope == WindowEnvelope(window)
  {
    envelope := None;
    for i := 0 to |window|
      invariant envelope == WindowEnvelope(window[..i])
    {
      assert window[..i + 1][..i] == window[..i];
      var box := EnvelopeOfBoxes(BoxesOf(window[i].detections));
      if box.Some? {
        envelope := if envelope.None? then box else Some(Union(envelope.value, box.value));
      }
    }
    assert window[..|window|] == window;
  }

  /** All detections of a window in order. */
  method Gather(window: seq<Observation>) returns (ds: seq<Detection>)
    ensures ds == AllDetections(window)
  {
    ds := [];
    for i := 0 to |window|
      invariant ds == AllDetections(window[..i])
    {
      assert window[..i + 1][..i] == window[..i];
      ds := ds + window[i].detections;
    }
    assert window[..|window|] == window;
  }

  method AreasOf(hits: seq<Observation>) returns (areas: seq<real>)
    ensures areas == Areas(hits)
  {
    areas := [];
    for i := 0 to |hits|
      invariant |areas| == i && forall k :: 0 <= k < i ==> areas[k] == hits[k].Area()
    {
      var area := UnionArea(BoxesOf(hits[i].detections));
      areas := areas + [area];
    }
  }

  class CameraIncidentEngine {
    var camera: CameraConfig
    const mask: ZoneMask
    const capacity: nat
    var window: seq<Observation>
    var history: seq<AreaSample>
    var state: State
    var incident: LiveIncident?
    var suppressed: bool
    var lastAssessment: Option<Assessment>
    var lastHitWall: Option<real>
    var framesSeen: nat

    function MyRig(): Rig
      reads this
    {
      Rig(camera, mask, capacity)
    }

    function View(): Engine
      reads this, incident
    {
      Engine(window, history, state, if incident == null then None else Some(incident.View()),
             suppressed, lastAssessment, lastHitWall, framesSeen)
    }

    ghost predicate Valid()
      reads this, incident
    {
      MyRig().Valid() && View().Valid()
    }

    constructor (camera: CameraConfig)
      requires camera.Valid()
      ensures Valid() && MyRig() == MakeRig(camera) && View() == FRESH && incident == null
    {
      this.camera := camera;
      mask, capacity := MakeMask(camera.excludeZones, ZONE_OVERLAP), camera.confirm.window;
      window, history, state, incident, suppressed := [], [], Idle, null, false;
      lastAssessment, lastHitWall, framesSeen := None, None, 0;
    }

    method FilterFrame(result: FrameResult) returns (obs: Observation)
      requires MyRig().Valid()
      ensures obs == Filter(MyRig(), result)
    {
      var ds := result.detections;
      var kept := [];
      for i := 0 to |ds|
        invariant kept == Kept(MyRig(), result.isNight, ds[..i])
      {
        assert ds[..i + 1][..i] == ds[..i];
        var d := ds[i];
        var reason := None;
        if d.kind != Fire && d.kind != Smoke {
          reason := Some(UnknownLabel);
        } else if d.confidence < camera.Thresholds(result.isNight).ForLabel(d.kind) {
          reason := Some(BelowThreshold);
        } else if d.box.Area() < camera.confirm.minBoxArea {
          reason := Some(TooSmall);
        } else {
          var excluded := Excludes(mask, d.box);
          if excluded {
            reason := Some(ExcludedZone);
          }
        }
        assert reason == Rejection(MyRig(), result.isNight, d);
        if reason.None? {
          kept := kept + [d];
        }
      }
      assert ds[..|ds|] == ds;
      return Observation(result.ts, result.wallTs, kept);
    }

    method RecordFrameArea(obs: Observation)
      modifies this`history
      ensures history == RecordArea(old(history), obs, camera.confirm.growthWindow)
    {
      var area := 0.0;
      if obs.Hit() {
        area := UnionArea(BoxesOf(obs.detections));
      }
      history := history + [AreaSample(obs.ts, area)];
      var cutoff := obs.ts - camera.confirm.growthWindow;
      while history != [] && history[0].ts < cutoff
        invariant DropStale(history, cutoff)
                  == RecordArea(old(history), obs, camera.confirm.growthWindow)
        decreases |history|
      {
        history := history[1..];
      }
    }

    method AssessHits(hits: seq<Observation>) returns (a: Assessment)
      ensures a == Assess(camera.confirm, hits, GrowthRatio(history))
    {
      var confirm := camera.confirm;
      var required, stability := confirm.framesRequired, confirm.stabilityFrames;
      var growth := GrowthRatio(history);
      if |hits| < required {
        return Assessment(false, |hits|, required, 0, stability, growth, Some(InsufficientPersistence));
      }
      var cluster := LargestStableCluster(Envelopes(hits), confirm.stabilityIou);
      if cluster < stability {
        return Assessment(false, |hits|, required, cluster, stability, growth, Some(NotSpatiallyStable));
      }
      if confirm.requireGrowth {
        var areas := AreasOf(hits);
        if !NotShrinking(areas, confirm.growthTolerance) {
          return Assessment(false, |hits|, required, cluster, stability, growth, Some(Shrinking));
        }
      }
      return Assessment(true, |hits|, required, cluster, stability, growth, None);
    }

    method OpenNow(obs: Observation, a: Assessment, freshId: string) returns (ev: IncidentEvent)
      modifies this`incident, this`state
      ensures incident != null && fresh(incident) && ev.incident == incident
      ensures incident.View() == OpenIncident(MyRig(), old(View()), obs, a.hitFrames, freshId)
      ensures state == Confirmed && ev.View() == MakeEvent(Opened, incident.View(), obs)
    {
      var seen := Gather(window);
      var labels := LabelsOf(obs.detections) + LabelsOf(seen);
      var growth := GrowthRatio(history);
      var envelope := WindowEnvelopeOf(window);
      incident := new LiveIncident(
        Incident(freshId, camera.id, obs.ts, obs.wallTs, SeverityOf(labels, growth), labels,
                 OpeningPeak(seen), envelope, a.hitFrames, growth, obs.ts, None));
      state := Confirmed;
      return IncidentEvent(Opened, incident, obs, incident.severity, incident.labels);
    }

    method CloseNow(obs: Option<Observation>) returns (ev: IncidentEvent)
      requires incident != null
      modifies this`incident, this`state, incident`closedWall
      ensures View() == Close(old(View()), obs).0 && incident == null
      ensures ev.incident == old(incident) && [ev.View()] == Close(old(View()), obs).1
    {
      var closing := incident;
      var last := if obs.Some? then obs
                  else if window != [] then Some(window[|window| - 1]) else None;
      closing.closedWall := Some(if last.Some? then last.value.wallTs else closing.openedWall);
      incident := null;
      state := if last.Some? && last.value.Hit() then Candidate else Idle;
      return IncidentEvent(Closed, closing,
                           if last.Some? then last.value else Observation(0.0, closing.openedWall, []),
                           closing.severity, closing.labels);
    }

    method WhenUnconfirmed(obs: Observation, freshId: string) returns (events: seq<IncidentEvent>)
      requires MyRig().Valid() && incident == null
      modifies this`state, this`suppressed, this`lastAssessment, this`incident
      ensures View() == ObserveUnconfirmed(MyRig(), old(View()), obs, freshId).0
      ensures |events| <= 1 && ViewOf(events) == ObserveUnconfirmed(MyRig(), old(View()), obs, freshId).1
      ensures incident != null ==> fresh(incident)
      ensures forall ev :: ev in events ==> ev.incident == incident
    {
      var hits := Hits(window);
      state := if hits != [] then Candidate else Idle;
      if hits == [] {
        suppressed := false;
      }
      var a := AssessHits(hits);
      lastAssessment := Some(a);
      if !a.confirmed || suppressed {
        return [];
      }
      var ev := OpenNow(obs, a, freshId);
      return [ev];
    }

    method WhenConfirmed(obs: Observation) returns (events: seq<IncidentEvent>)
      requires MyRig().Valid() && incident != null
      modifies this`state, this`incident, incident
      ensures View() == ObserveConfirmed(MyRig(), old(View()), obs).0
      ensures |events| <= 1 && ViewOf(events) == ObserveConfirmed(MyRig(), old(View()), obs).1
      ensures incident == null || incident == old(incident)
      ensures forall ev :: ev in events ==> ev.incident == old(incident)
    {
      if obs.Hit() {
        incident.lastHitTs := obs.ts;
        incident.labels := incident.labels + LabelsOf(obs.detections);
        incident.peakConfidence := PeakOf(obs.detections, incident.peakConfidence);
        var box := EnvelopeOfBoxes(BoxesOf(obs.detections));
        if box.Some? {
          incident.envelope := if incident.envelope.None? then box
                               else Some(Union(incident.envelope.value, box.value));
        }
        incident.growthRatio := GrowthRatio(history);
        var severity := SeverityOf(incident.labels, incident.growthRatio);
        if severity == Critical && incident.severity != Critical {
          incident.severity := severity;
          return [IncidentEvent(Escalated, incident, obs, incident.severity, incident.labels)];
        }
        return [];
      }
      if obs.ts - incident.lastHitTs >= camera.confirm.clearAfter {
        var ev := CloseNow(Some(obs));
        return [ev];
      }
      return [];
    }

    /** What every frame does first: filter, push, record, count. */
    method TakeIn(result: FrameResult) returns (obs: Observation)
      requires Valid()
      modifies this`framesSeen, this`window, this`history, this`lastHitWall
      ensures obs == Filter(MyRig(), result)
      ensures View() == Intake(MyRig(), old(View()), obs)
    {
      framesSeen := framesSeen + 1;
      obs := FilterFrame(result);
      window := if |window| < capacity then window + [obs]
                else window[1 + |window| - capacity..] + [obs];
      RecordFrameArea(obs);
      if obs.Hit() {
        lastHitWall := Some(obs.wallTs);
      }
    }

    /** Feeds one detector result. */
    method ObserveFrame(result: FrameResult, freshId: string) returns (events: seq<IncidentEvent>)
      requires Valid()
      modifies this, incident
      ensures Valid() && MyRig() == old(MyRig())
      ensures View() == Observe(old(MyRig()), old(View()), result, freshId).0
      ensures |events| <= 1 && ViewOf(events) == Observe(old(MyRig()), old(View()), result, freshId).1
      ensures incident == null || incident == old(incident) || fresh(incident)
      ensures forall ev :: ev in events ==> ev.incident == incident || ev.incident == old(incident)
    {
      var obs := TakeIn(result);
      if state == Confirmed {
        events := WhenConfirmed(obs);
      } else {
        events := WhenUnconfirmed(obs, freshId);
      }
    }

    /** An operator cancels the open incident; no re-opening until the camera is quiet. */
    method CancelOpen() returns (events: seq<IncidentEvent>)
      requires Valid()
      modifies this, incident
      ensures Valid() && MyRig() == old(MyRig())
      ensures View() == Cancel(old(View())).0
      ensures |events| <= 1 && ViewOf(events) == Cancel(old(View())).1
      ensures incident == null
      ensures forall ev :: ev in events ==> ev.incident == old(incident)
    {
      if incident == null {
        return [];
      }
      suppressed := true;
      var ev := CloseNow(None);
      return [ev];
    }
  }
}
