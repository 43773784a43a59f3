/** The zone masks of a running site: an engine keeps the mask it was built with, so a zone drawn
    while an incident is open is never applied by it (firemex/incident/engine.py). */
module SiteMasks {
  import opened Geometry
  import opened Zones
  import opened Confirmation
  import opened Histories
  import opened Fleet
  import opened SiteRuns
  import opened SiteIncidents
  import opened Silences

  /** The configuration a camera runs under: the last one given for it. */
  function Latest(acts: seq<Act>, id: string): Option<CameraConfig> {
    if acts == [] then None
    else
      match acts[|acts| - 1]
      case Feed(_) => Latest(acts[..|acts| - 1], id)
      case Configure(incoming) => if id in incoming then Some(incoming[id]) else None
  }

  /** The configuration its engine was built for: the last that came while no incident was open
      and that differed from the one before. */
  function Origin(acts: seq<Act>, id: string): Option<CameraConfig>
    requires AllSound(acts)
  {
    if acts == [] then None
    else
      var front := acts[..|acts| - 1];
      match acts[|acts| - 1]
      case Feed(_) => Origin(front, id)
      case Configure(incoming) =>
        if id !in incoming then None
        else if Latest(front, id) == Some(incoming[id]) || HasOpen(RunActs(map[], front).seats, id)
        then Origin(front, id) else Some(incoming[id])
  }

  /** The camera runs under `now` on an engine built for `built`. */
  predicate RunsUnder(f: Seats, id: string, now: Option<CameraConfig>, built: Option<CameraConfig>) {
    && (id in f <==> now.Some?) && (id in f <==> built.Some?)
    && (id in f ==> built.value.Valid() && f[id].rig == MakeRig(built.value).(camera := now.value))
  }

  lemma ConfigureRuns(f: Seats, incoming: SiteConfig, id: string, now: Option<CameraConfig>,
                      built: Option<CameraConfig>)
    requires AllValid(f) && Sound(incoming) && id in incoming && RunsUnder(f, id, now, built)
    ensures RunsUnder(Reconfigured(f, incoming), id, Some(incoming[id]),
                      if now == Some(incoming[id]) || HasOpen(f, id) then built else Some(incoming[id]))
  {}

  /** Every engine of every run of a site has the mask and the window of the configuration it was
      built for, and the thresholds and rules of the last one given. */
  lemma {:induction false} RigThroughout(acts: seq<Act>, id: string)
    requires AllSound(acts)
    ensures RunsUnder(RunActs(map[], acts).seats, id, Latest(acts, id), Origin(acts, id))
  {
    if acts != [] {
      var front := acts[..|acts| - 1];
      RigThroughout(front, id);
      match acts[|acts| - 1]
      case Feed(_) =>
      case Configure(incoming) =>
        if id in incoming {
          ConfigureRuns(RunActs(map[], front).seats, incoming, id, Latest(front, id), Origin(front, id));
        }
    }
  }

  /** Everything about a detection but the zones. */
  predicate Passes(c: CameraConfig, isNight: bool, d: Detection) {
    && (d.kind == Fire || d.kind == Smoke)
    && d.confidence >= c.Thresholds(isNight).ForLabel(d.kind)
    && d.box.Area() >= c.confirm.minBoxArea
  }

  function MaskOf(c: CameraConfig): (m: ZoneMask)
    ensures m.Valid()
  {
    MakeMask(c.excludeZones, ZONE_OVERLAP)
  }

  lemma RejectedUnlessPasses(rig: Rig, isNight: bool, d: Detection)
    requires rig.Valid()
    ensures Rejection(rig, isNight, d) == None <==> Passes(rig.camera, isNight, d) && !rig.mask.Excludes(d.box)
  {}

  /** The detection lies in a zone of the camera's configuration and is kept all the same. */
  predicate KeptInZone(f: Seats, id: string, isNight: bool, d: Detection)
    requires AllValid(f)
  {
    id in f && MaskOf(f[id].rig.camera).Excludes(d.box) && Rejection(f[id].rig, isNight, d) == None
  }

  /** At any moment of any run of a site, a detection in a configured zone is kept exactly if it
      passes otherwise and the configuration the engine was built for has no zone against it. */
  lemma KeptInZoneExactlyWhen(acts: seq<Act>, id: string, isNight: bool, d: Detection)
    requires AllSound(acts) && Latest(acts, id).Some? && MaskOf(Latest(acts, id).value).Excludes(d.box)
    ensures Origin(acts, id).Some?
    ensures KeptInZone(RunActs(map[], acts).seats, id, isNight, d) <==>
            Passes(Latest(acts, id).value, isNight, d) && !MaskOf(Origin(acts, id).value).Excludes(d.box)
  {
    RigThroughout(acts, id);
    RejectedUnlessPasses(RunActs(map[], acts).seats[id].rig, isNight, d);
  }

  /** It stays so for as long as the configuration is given as it is, whether or not the
      incident is closed. */
  lemma KeptInZoneForever(f: Seats, more: seq<Act>, id: string, isNight: bool, d: Detection)
    requires AllValid(f) && AllSound(more) && KeptInZone(f, id, isNight, d) && Retains(more, id, f[id].rig.camera)
    ensures KeptInZone(RunActs(f, more).seats, id, isNight, d)
  {
    RetainedRuns(f, more, id);
  }

  // ---- where the threshold lies --------------------------------------------

  lemma OneDrawable(zone: Polygon)
    requires |zone| >= 3
    ensures Drawable([zone]) == [zone]
  {
    assert [zone][1..] == [];
  }

  lemma Threshold(fraction: real, parts: nat, total: nat)
    requires total == 49 && fraction == parts as real / total as real
    ensures fraction >= 0.6 <==> parts >= 30
  {}

  lemma OneZone(c: CameraConfig, box: BBox, zone: Polygon, n: nat)
    requires c.excludeZones == [zone] && |zone| >= 3 && n == SAMPLES
    ensures MaskOf(c).Excludes(box) <==> OverlapFraction(box, zone, n) >= 0.6
  {
    OneDrawable(zone);
    assert MaskOf(c).zones[0] == zone;
  }

  /** The zone covers w columns and h rows of the n by n parts of a box. */
  ghost predicate CoversParts(box: BBox, zone: BBox, w: nat, h: nat, n: nat)
    requires n > 0
  {
    exists i1: nat, i2: nat, j1: nat, j2: nat ::
      zone == Parts(box, i1, i2, j1, j2, n) && i1 <= i2 <= n && j1 <= j2 <= n && i2 - i1 == w && j2 - j1 == h
  }

  lemma PartsShare(box: BBox, zone: BBox, w: nat, h: nat, n: nat)
    requires 0 < n && box.Area() > 0.0 && CoversParts(box, zone, w, h, n)
    ensures n * n > 0 && OverlapFraction(box, Rectangle(zone), n) == (w * h) as real / (n * n) as real
  {
    var i1: nat, i2: nat, j1: nat, j2: nat :|
      zone == Parts(box, i1, i2, j1, j2, n) && i1 <= i2 <= n && j1 <= j2 <= n && i2 - i1 == w && j2 - j1 == h;
    PartsOverlap(box, zone, i1, i2, j1, j2, n);
  }

  lemma PartsReach(box: BBox, zone: BBox, w: nat, h: nat, n: nat)
    requires n == 7 && box.Area() > 0.0 && CoversParts(box, zone, w, h, n)
    ensures OverlapFraction(box, Rectangle(zone), n) >= 0.6 <==> w * h >= 30
  {
    PartsShare(box, zone, w, h, n);
    Threshold(OverlapFraction(box, Rectangle(zone), n), w * h, n * n);
  }

  /** A camera with one zone, which covers w columns and h rows of the 7 by 7 parts of a box, does
      not see the box exactly if they are 30 parts or more of the 49. */
  lemma ThirtyOfFortyNine(c: CameraConfig, box: BBox, zone: BBox, w: nat, h: nat)
    requires box.Area() > 0.0 && CoversParts(box, zone, w, h, SAMPLES) && c.excludeZones == [Rectangle(zone)]
    ensures MaskOf(c).Excludes(box) <==> w * h >= 30
  {
    OneZone(c, box, Rectangle(zone), SAMPLES);
    PartsReach(box, zone, w, h, SAMPLES);
  }
}
