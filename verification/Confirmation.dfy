/** The confirmation rules of one camera (firemex/incident/engine.py) on values: what one
    frame or one operator cancel does to the state of the engine, and which events it
    emits.  The class CameraIncidentEngine is proved against Observe and Cancel below. */
module Confirmation {
  import opened Geometry
  import opened Measures
  import opened Zones

  // ---- configuration -------------------------------------------------------

  datatype ClassThresholds = ClassThresholds(fire: real, smoke: real) {
    function ForLabel(kind: Label): real { if kind == Smoke then smoke else fire }
  }

  /** After validation: stabilityFrames is filled in and the three counts are ordered. */
  datatype ConfirmConfig = ConfirmConfig(
    framesRequired: nat,
    window: nat,
    stabilityIou: real,
    stabilityFrames: nat,
    requireGrowth: bool,
    growthTolerance: real,
    growthWindow: real,
    minBoxArea: real,
    clearAfter: real
  ) {
    predicate Valid() {
      && 1 <= stabilityFrames <= framesRequired <= window
      && 0.0 <= stabilityIou <= 1.0 && 0.0 <= growthTolerance <= 1.0
      && growthWindow > 0.0 && 0.0 <= minBoxArea <= 1.0 && clearAfter > 0.0
    }
  }

  /** `rest` stands for everything no confirmation rule reads: name, stream address and credentials, location,
      sampling rate, contacts, night hours.  The other fields are the camera's tuning. */
  datatype CameraConfig = CameraConfig(
    id: string,
    day: ClassThresholds,
    night: ClassThresholds,
    confirm: ConfirmConfig,
    excludeZones: seq<Polygon>,
    rest: string
  ) {
    function Thresholds(isNight: bool): ClassThresholds { if isNight then night else day }

    predicate Valid() { confirm.Valid() }

    predicate SameTuning(c: CameraConfig) { this.(rest := c.rest) == c }
  }

  const ZONE_OVERLAP := 0.6

  /** A camera's configuration together with what its engine fixed when it was built: swapping
      the configuration of a live engine changes neither the window length nor the zone mask. */
  datatype Rig = Rig(camera: CameraConfig, mask: ZoneMask, capacity: nat) {
    predicate Valid() { camera.Valid() && mask.Valid() && capacity >= 1 }
  }

  function MakeRig(camera: CameraConfig): (r: Rig)
    requires camera.Valid()
    ensures r.Valid()
  {
    Rig(camera, MakeMask(camera.excludeZones, ZONE_OVERLAP), camera.confirm.window)
  }

  // ---- frames --------------------------------------------------------------

  datatype FrameResult = FrameResult(
    cameraId: string,
    ts: real,
    wallTs: real,
    detections: seq<Detection>,
    isNight: bool
  )

  datatype Reason = BelowThreshold | ExcludedZone | TooSmall | UnknownLabel
                  | InsufficientPersistence | NotSpatiallyStable | Shrinking

  function Rejection(rig: Rig, isNight: bool, d: Detection): Option<Reason>
    requires rig.Valid()
  {
    if d.kind != Fire && d.kind != Smoke then Some(UnknownLabel)
    else if d.confidence < rig.camera.Thresholds(isNight).ForLabel(d.kind) then Some(BelowThreshold)
    else if d.box.Area() < rig.camera.confirm.minBoxArea then Some(TooSmall)
    else if rig.mask.Excludes(d.box) then Some(ExcludedZone)
    else None
  }

  function Kept(rig: Rig, isNight: bool, ds: seq<Detection>): seq<Detection>
    requires rig.Valid()
  {
    if ds == [] then []
    else
      var front := Kept(rig, isNight, ds[..|ds| - 1]);
      var d := ds[|ds| - 1];
      if Rejection(rig, isNight, d) == None then front + [d] else front
  }

  /** One sampled frame after filtering. */
  datatype Observation = Observation(ts: real, wallTs: real, detections: seq<Detection>) {
    predicate Hit() { detections != [] }

    function Area(): real { Measure(BoxesOf(detections)) }

    function Envelope(): Option<BBox> { EnvelopeOf(BoxesOf(detections)) }
  }

  function Filter(rig: Rig, result: FrameResult): Observation
    requires rig.Valid()
  {
    Observation(result.ts, result.wallTs, Kept(rig, result.isNight, result.detections))
  }

  function BoxesOf(ds: seq<Detection>): (r: seq<BBox>)
    ensures |r| == |ds|
    ensures forall k :: 0 <= k < |ds| ==> r[k] == ds[k].box
  {
    seq(|ds|, k requires 0 <= k < |ds| => ds[k].box)
  }

  /** The boxes joined from left to right. */
  function EnvelopeOf(boxes: seq<BBox>): Option<BBox> {
    if boxes == [] then None
    else Join(EnvelopeOf(boxes[..|boxes| - 1]), Some(boxes[|boxes| - 1]))
  }

  function Join(a: Option<BBox>, b: Option<BBox>): Option<BBox> {
    if a.None? then b else if b.None? then a else Some(Union(a.value, b.value))
  }

  function LabelsOf(ds: seq<Detection>): set<Label> { set d | d in ds :: d.kind }

  /** The greatest of floor and the confidences. */
  function PeakOf(ds: seq<Detection>, floor: real): real {
    if ds == [] then floor else Max(PeakOf(ds[..|ds| - 1], floor), ds[|ds| - 1].confidence)
  }

  /** Greatest confidence, 0 for no detection. */
  function OpeningPeak(ds: seq<Detection>): real {
    if ds == [] then 0.0 else PeakOf(ds[1..], ds[0].confidence)
  }

  // ---- the rules -----------------------------------------------------------

  function Hits(window: seq<Observation>): seq<Observation> {
    if window == [] then []
    else
      var front := Hits(window[..|window| - 1]);
      if window[|window| - 1].Hit() then front + [window[|window| - 1]] else front
  }

  /** Detections of all frames in order. */
  function AllDetections(window: seq<Observation>): seq<Detection> {
    if window == [] then []
    else AllDetections(window[..|window| - 1]) + window[|window| - 1].detections
  }

  function WindowEnvelope(window: seq<Observation>): Option<BBox> {
    if window == [] then None
    else Join(WindowEnvelope(window[..|window| - 1]), window[|window| - 1].Envelope())
  }

  function Envelopes(hits: seq<Observation>): seq<BBox> {
    if hits == [] then []
    else
      var front := Envelopes(hits[..|hits| - 1]);
      var e := hits[|hits| - 1].Envelope();
      if e.None? then front else front + [e.value]
  }

  function Support(boxes: seq<BBox>, seed: BBox, threshold: real): nat {
    if boxes == [] then 0
    else Support(boxes[..|boxes| - 1], seed, threshold)
         + if Iou(seed, boxes[|boxes| - 1]) >= threshold then 1 else 0
  }

  function BestSupport(seeds: seq<BBox>, boxes: seq<BBox>, threshold: real): nat {
    if seeds == [] then 0
    else
      var front := BestSupport(seeds[..|seeds| - 1], boxes, threshold);
      var last := Support(boxes, seeds[|seeds| - 1], threshold);
      if last > front then last else front
  }

  function LargestStableCluster(boxes: seq<BBox>, threshold: real): nat {
    BestSupport(boxes, boxes, threshold)
  }

  function Areas(hits: seq<Observation>): (r: seq<real>)
    ensures |r| == |hits|
    ensures forall k :: 0 <= k < |hits| ==> r[k] == hits[k].Area()
  {
    seq(|hits|, k requires 0 <= k < |hits| => hits[k].Area())
  }

  function Sum(xs: seq<real>): real {
    if xs == [] then 0.0 else Sum(xs[..|xs| - 1]) + xs[|xs| - 1]
  }

  function Mean(xs: seq<real>): real
    requires xs != []
  {
    Sum(xs) / |xs| as real
  }

  predicate NotShrinking(areas: seq<real>, tolerance: real) {
    |areas| < 4 ||
    var split := |areas| / 2;
    var first, second := Mean(areas[..split]), Mean(areas[split..]);
    first <= 0.0 || second >= first * (1.0 - tolerance)
  }

  function Trend(samples: seq<real>): real {
    if |samples| < 6 then 1.0
    else
      var third := if |samples| / 3 < 2 then 2 else |samples| / 3;
      var early, late := Mean(samples[..third]), Mean(samples[|samples| - third..]);
      if early <= 0.0 then 1.0 else late / early
  }

  datatype AreaSample = AreaSample(ts: real, area: real)

  function PositiveAreas(history: seq<AreaSample>): seq<real> {
    if history == [] then []
    else
      var front := PositiveAreas(history[..|history| - 1]);
      var a := history[|history| - 1].area;
      if a > 0.0 then front + [a] else front
  }

  function GrowthRatio(history: seq<AreaSample>): real { Trend(PositiveAreas(history)) }

  datatype Severity = Warning | Critical

  const FAST_GROWTH := 1.6

  function SeverityOf(labels: set<Label>, growthRatio: real): Severity {
    if Fire in labels || growthRatio >= FAST_GROWTH then Critical else Warning
  }

  datatype Assessment = Assessment(
    confirmed: bool,
    hitFrames: nat,
    framesRequired: nat,
    clusterSize: nat,
    stabilityRequired: nat,
    growthRatio: real,
    rejected: Option<Reason>
  )

  function Assess(confirm: ConfirmConfig, hits: seq<Observation>, growthRatio: real): Assessment {
    var required, stability := confirm.framesRequired, confirm.stabilityFrames;
    if |hits| < required then
      Assessment(false, |hits|, required, 0, stability, growthRatio, Some(InsufficientPersistence))
    else
      var cluster := LargestStableCluster(Envelopes(hits), confirm.stabilityIou);
      if cluster < stability then
        Assessment(false, |hits|, required, cluster, stability, growthRatio, Some(NotSpatiallyStable))
      else if confirm.requireGrowth && !NotShrinking(Areas(hits), confirm.growthTolerance) then
        Assessment(false, |hits|, required, cluster, stability, growthRatio, Some(Shrinking))
      else
        Assessment(true, |hits|, required, cluster, stability, growthRatio, None)
  }

  // ---- the state of one camera's engine ------------------------------------

  datatype State = Idle | Candidate | Confirmed

  datatype Incident = Incident(
    id: string,
    cameraId: string,
    openedTs: real,
    openedWall: real,
    severity: Severity,
    labels: set<Label>,
    peakConfidence: real,
    envelope: Option<BBox>,
    framesConfirmed: nat,
    growthRatio: real,
    lastHitTs: real,
    closedWall: Option<real>
  )

  datatype EventKind = Opened | Escalated | Closed

  /** incident is the record as it was when the event was emitted. */
  datatype Event = Event(
    kind: EventKind,
    incident: Incident,
    observation: Observation,
    severity: Severity,
    labels: set<Label>
  )

  function MakeEvent(kind: EventKind, incident: Incident, observation: Observation): Event {
    Event(kind, incident, observation, incident.severity, incident.labels)
  }

  datatype Engine = Engine(
    window: seq<Observation>,
    history: seq<AreaSample>,
    state: State,
    incident: Option<Incident>,
    suppressed: bool,
    lastAssessment: Option<Assessment>,
    lastHitWall: Option<real>,
    framesSeen: nat
  ) {
    predicate Valid() { state == Confirmed <==> incident.Some? }
  }

  const FRESH := Engine([], [], Idle, None, false, None, None, 0)

  /** A deque of bounded length drops from the left. */
  function Push(window: seq<Observation>, obs: Observation, capacity: nat): seq<Observation>
    requires capacity >= 1
  {
    if |window| < capacity then window + [obs] else window[1 + |window| - capacity..] + [obs]
  }

  function DropStale(history: seq<AreaSample>, cutoff: real): seq<AreaSample> {
    if history != [] && history[0].ts < cutoff then DropStale(history[1..], cutoff) else history
  }

  function SampleOf(obs: Observation): AreaSample {
    AreaSample(obs.ts, if obs.Hit() then obs.Area() else 0.0)
  }

  function RecordArea(history: seq<AreaSample>, obs: Observation, growthWindow: real): seq<AreaSample> {
    DropStale(history + [SampleOf(obs)], obs.ts - growthWindow)
  }

  /** What every frame does before the state is looked at. */
  function Intake(rig: Rig, e: Engine, obs: Observation): Engine
    requires rig.Valid()
  {
    e.(framesSeen := e.framesSeen + 1,
       window := Push(e.window, obs, rig.capacity),
       history := RecordArea(e.history, obs, rig.camera.confirm.growthWindow),
       lastHitWall := if obs.Hit() then Some(obs.wallTs) else e.lastHitWall)
  }

  function OpenIncident(rig: Rig, e: Engine, obs: Observation, hitFrames: nat, id: string): Incident {
    var labels := LabelsOf(obs.detections) + LabelsOf(AllDetections(e.window));
    var growth := GrowthRatio(e.history);
    Incident(id, rig.camera.id, obs.ts, obs.wallTs, SeverityOf(labels, growth), labels,
             OpeningPeak(AllDetections(e.window)), WindowEnvelope(e.window), hitFrames, growth, obs.ts, None)
  }

  function ObserveUnconfirmed(rig: Rig, e: Engine, obs: Observation, id: string): (Engine, seq<Event>) {
    var hits := Hits(e.window);
    var a := Assess(rig.camera.confirm, hits, GrowthRatio(e.history));
    var e1 := e.(state := if hits != [] then Candidate else Idle,
                 suppressed := e.suppressed && hits != [],
                 lastAssessment := Some(a));
    if !a.confirmed || e1.suppressed then (e1, [])
    else
      var incident := OpenIncident(rig, e1, obs, a.hitFrames, id);
      (e1.(incident := Some(incident), state := Confirmed), [MakeEvent(Opened, incident, obs)])
  }

  function Absorb(incident: Incident, obs: Observation, growth: real): Incident {
    incident.(lastHitTs := obs.ts,
              labels := incident.labels + LabelsOf(obs.detections),
              peakConfidence := PeakOf(obs.detections, incident.peakConfidence),
              envelope := Join(incident.envelope, obs.Envelope()),
              growthRatio := growth)
  }

  function Close(e: Engine, obs: Option<Observation>): (Engine, seq<Event>)
    requires e.incident.Some?
  {
    var incident := e.incident.value;
    var last := if obs.Some? then obs
                else if e.window != [] then Some(e.window[|e.window| - 1]) else None;
    var closed := incident.(closedWall := Some(if last.Some? then last.value.wallTs else incident.openedWall));
    (e.(incident := None, state := if last.Some? && last.value.Hit() then Candidate else Idle),
     [MakeEvent(Closed, closed, if last.Some? then last.value else Observation(0.0, incident.openedWall, []))])
  }

  function ObserveConfirmed(rig: Rig, e: Engine, obs: Observation): (Engine, seq<Event>)
    requires e.incident.Some?
  {
    var incident := e.incident.value;
    if obs.Hit() then
      var i1 := Absorb(incident, obs, GrowthRatio(e.history));
      if SeverityOf(i1.labels, i1.growthRatio) == Critical && i1.severity != Critical then
        var i2 := i1.(severity := Critical);
        (e.(incident := Some(i2)), [MakeEvent(Escalated, i2, obs)])
      else (e.(incident := Some(i1)), [])
    else if obs.ts - incident.lastHitTs >= rig.camera.confirm.clearAfter then
      Close(e, Some(obs))
    else (e, [])
  }

  /** One detector result; id names the incident should this frame open one. */
  function Observe(rig: Rig, e: Engine, result: FrameResult, id: string): (r: (Engine, seq<Event>))
    requires rig.Valid() && e.Valid()
    ensures r.0.Valid() && |r.1| <= 1
  {
    var obs := Filter(rig, result);
    var e1 := Intake(rig, e, obs);
    if e.state == Confirmed then ObserveConfirmed(rig, e1, obs)
    else ObserveUnconfirmed(rig, e1, obs, id)
  }

  /** An operator cancels the open incident, if there is one. */
  function Cancel(e: Engine): (r: (Engine, seq<Event>))
    requires e.Valid()
    ensures r.0.Valid() && |r.1| <= 1
  {
    if e.incident.None? then (e, []) else Close(e.(suppressed := true), None)
  }
}
