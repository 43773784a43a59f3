/** All cameras together (firemex/incident/engine.py, IncidentEngine): routing results to
    the engine of their camera, and applying a new configuration to a running site. */
module Fleet {
  import opened Geometry
  import opened Confirmation
  import opened Histories
  import opened CameraEngine

  datatype Seat = Seat(rig: Rig, engine: Engine) {
    predicate Valid() { rig.Valid() && engine.Valid() }
  }

  type Seats = map<string, Seat>

  predicate AllValid(f: Seats) {
    forall id :: id in f ==> f[id].Valid() && f[id].rig.camera.id == id
  }

  function FreshSeat(camera: CameraConfig): (s: Seat)
    requires camera.Valid()
    ensures s.Valid()
  {
    Seat(MakeRig(camera), FRESH)
  }

  // ---- routing -------------------------------------------------------------

  /** A frame or a cancel for one camera. */
  datatype Routed = Routed(cameraId: string, input: Input)

  datatype Tagged = Tagged(cameraId: string, event: Event)

  datatype SiteTrace = SiteTrace(seats: Seats, log: seq<Tagged>)

  function TagAll(id: string, events: seq<Event>): (r: seq<Tagged>)
    ensures |r| == |events|
    ensures forall k :: 0 <= k < |events| ==> r[k] == Tagged(id, events[k])
  {
    seq(|events|, k requires 0 <= k < |events| => Tagged(id, events[k]))
  }

  /** A result for a camera that is not configured is dropped. */
  function Route(f: Seats, r: Routed): (t: SiteTrace)
    requires AllValid(f)
    ensures AllValid(t.seats)
  {
    if r.cameraId !in f then SiteTrace(f, [])
    else
      var seat := f[r.cameraId];
      var (e, events) := Step(seat.rig, seat.engine, r.input);
      SiteTrace(f[r.cameraId := seat.(engine := e)], TagAll(r.cameraId, events))
  }

  function RunSite(f: Seats, rs: seq<Routed>): (t: SiteTrace)
    requires AllValid(f)
    ensures AllValid(t.seats)
  {
    if rs == [] then SiteTrace(f, [])
    else
      var before := RunSite(f, rs[..|rs| - 1]);
      var t := Route(before.seats, rs[|rs| - 1]);
      SiteTrace(t.seats, before.log + t.log)
  }

  function InputsOf(rs: seq<Routed>, id: string): seq<Input> {
    if rs == [] then []
    else
      var front := InputsOf(rs[..|rs| - 1], id);
      var last := rs[|rs| - 1];
      if last.cameraId == id then front + [last.input] else front
  }

  function EventsOf(log: seq<Tagged>, id: string): seq<Event> {
    if log == [] then []
    else
      var front := EventsOf(log[..|log| - 1], id);
      var last := log[|log| - 1];
      if last.cameraId == id then front + [last.event] else front
  }

  lemma EventsOfSnoc(log: seq<Tagged>, tag: string, events: seq<Event>, id: string)
    requires |events| <= 1
    ensures EventsOf(log + TagAll(tag, events), id) ==
            EventsOf(log, id) + if tag == id then events else []
  {
    var more := TagAll(tag, events);
    if events == [] {
      assert log + more == log;
    } else {
      assert log + more == log + [more[0]];
      assert (log + more)[..|log|] == log;
    }
  }

  /** Cameras do not disturb each other: in any interleaving each one emits the events,
      and ends in the state, of running on its own inputs alone. */
  lemma {:induction false} CamerasAreIsolated(f: Seats, rs: seq<Routed>, id: string)
    requires AllValid(f) && id in f && f[id].engine == FRESH
    ensures RunSite(f, rs).seats.Keys == f.Keys
    ensures RunSite(f, rs).seats[id] == Seat(f[id].rig, Run(f[id].rig, InputsOf(rs, id)).engine)
    ensures EventsOf(RunSite(f, rs).log, id) == Run(f[id].rig, InputsOf(rs, id)).events
  {
    if rs != [] {
      var before, last := rs[..|rs| - 1], rs[|rs| - 1];
      CamerasAreIsolated(f, before, id);
      var t := RunSite(f, before);
      if last.cameraId in t.seats {
        var seat := t.seats[last.cameraId];
        EventsOfSnoc(t.log, last.cameraId, Step(seat.rig, seat.engine, last.input).1, id);
      } else {
        assert t.log + [] == t.log;
      }
      if last.cameraId == id {
        RunSnoc(f[id].rig, InputsOf(before, id), last.input);
      }
    }
  }

  // ---- reconfiguration -----------------------------------------------------

  /** The configurations by id; a later one replaces an earlier one of the same id. */
  function ById(cameras: seq<CameraConfig>): (m: map<string, CameraConfig>)
    ensures forall id :: id in m ==> m[id] in cameras && m[id].id == id
    ensures forall c :: c in cameras ==> c.id in m
  {
    if cameras == [] then map[]
    else ById(cameras[..|cameras| - 1])[cameras[|cameras| - 1].id := cameras[|cameras| - 1]]
  }

  /** The last configuration given for an id counts. */
  lemma {:induction false} LastCounts(cameras: seq<CameraConfig>, k: nat)
    requires k < |cameras| && forall j :: k < j < |cameras| ==> cameras[j].id != cameras[k].id
    ensures cameras[k].id in ById(cameras) && ById(cameras)[cameras[k].id] == cameras[k]
  {
    if k < |cameras| - 1 {
      LastCounts(cameras[..|cameras| - 1], k);
    }
  }

  function Reseat(f: Seats, id: string, camera: CameraConfig): Seat
    requires camera.Valid()
  {
    if id !in f then FreshSeat(camera)
    else if f[id].rig.camera == camera then f[id]
    else if f[id].engine.state == Confirmed then f[id].(rig := f[id].rig.(camera := camera))
    else FreshSeat(camera)
  }

  function Reconfigured(f: Seats, incoming: map<string, CameraConfig>): Seats
    requires forall id :: id in incoming ==> incoming[id].Valid()
  {
    map id | id in incoming :: Reseat(f, id, incoming[id])
  }

  lemma ReseatLaws(f: Seats, id: string, camera: CameraConfig)
    requires AllValid(f) && camera.Valid() && camera.id == id
    ensures var s := Reseat(f, id, camera);
            && s.Valid() && s.rig.camera == camera
            && (id in f && (f[id].engine.incident.Some? || f[id].rig.camera == camera) ==> s.engine == f[id].engine)
            && (id in f && f[id].rig.camera == camera ==> s == f[id])
  {}

  /** A new configuration leaves exactly the cameras it lists, each under what it gives
      for it, and never loses or alters an open incident of a listed camera; applying it
      again changes nothing. */
  lemma ReconfigureLaws(f: Seats, incoming: map<string, CameraConfig>)
    requires AllValid(f)
    requires forall id :: id in incoming ==> incoming[id].Valid() && incoming[id].id == id
    ensures var g := Reconfigured(f, incoming);
            && g.Keys == incoming.Keys && AllValid(g)
            && (forall id :: id in g ==> g[id].rig.camera == incoming[id])
            && (forall id :: id in g && id in f && f[id].engine.incident.Some? ==> g[id].engine == f[id].engine)
            && (forall id :: id in g && id in f && f[id].rig.camera == incoming[id] ==> g[id] == f[id])
            && Reconfigured(g, incoming) == g
  {
    var g := Reconfigured(f, incoming);
    forall id | id in g
      ensures g[id].Valid() && g[id].rig.camera == incoming[id] && Reseat(g, id, incoming[id]) == g[id]
      ensures id in f && f[id].engine.incident.Some? ==> g[id].engine == f[id].engine
      ensures id in f && f[id].rig.camera == incoming[id] ==> g[id] == f[id]
    {
      ReseatLaws(f, id, incoming[id]);
    }
  }

  /** What becomes of each listed camera: a new one, and one that is not confirmed and whose
      configuration changes in any way, gets an engine that knows nothing, built for it; a
      confirmed one gets the configuration but keeps the zone mask and the window length it was
      built with. */
  lemma ReconfiguredSeats(f: Seats, incoming: map<string, CameraConfig>, id: string)
    requires AllValid(f) && id in incoming
    requires forall k :: k in incoming ==> incoming[k].Valid() && incoming[k].id == k
    ensures var s, c := Reconfigured(f, incoming)[id], incoming[id];
            var anew := id !in f || (f[id].rig.camera != c && f[id].engine.incident.None?);
            && (anew ==> s.engine == FRESH && s.rig.camera == c && s.rig.capacity == c.confirm.window
                         && s.rig.mask.threshold == ZONE_OVERLAP
                         && forall z :: z in s.rig.mask.zones <==> z in c.excludeZones && |z| >= 3)
            && (!anew ==> s.rig.mask == f[id].rig.mask && s.rig.capacity == f[id].rig.capacity
                          && s.rig.camera == c && s.engine == f[id].engine)
  {}

  /** A listed camera of unchanged tuning keeps its state exactly if nothing else of its
      configuration changes either, or an incident is open on it (or it has no state yet). */
  lemma StateKeptExactlyWhen(f: Seats, incoming: map<string, CameraConfig>, id: string)
    requires AllValid(f) && id in f && id in incoming && f[id].rig.camera.SameTuning(incoming[id])
    requires forall k :: k in incoming ==> incoming[k].Valid() && incoming[k].id == k
    ensures Reconfigured(f, incoming)[id].engine == f[id].engine <==>
            f[id].rig.camera == incoming[id] || f[id].engine.incident.Some? || f[id].engine == FRESH
  {
    ReconfiguredSeats(f, incoming, id);
  }

  /** The cameras of `f` named by `ids`. */
  function Restricted(f: Seats, ids: set<string>): Seats {
    map id | id in f && id in ids :: f[id]
  }

  /** The site when the cameras of `done` have been put in place. */
  function Partly(f: Seats, incoming: map<string, CameraConfig>, done: set<string>): Seats
    requires done <= incoming.Keys
    requires forall id :: id in incoming ==> incoming[id].Valid()
  {
    map id | id in f.Keys + done :: if id in done then Reseat(f, id, incoming[id]) else f[id]
  }

  lemma ApplyStep(f: Seats, incoming: map<string, CameraConfig>, done: set<string>, id: string)
    requires done <= incoming.Keys && id in incoming && id !in done
    requires forall k :: k in incoming ==> incoming[k].Valid()
    ensures var now := Partly(f, incoming, done);
            Partly(f, incoming, done + {id}) == now[id := Reseat(now, id, incoming[id])]
  {}

  lemma ApplyAll(f: Seats, kept: Seats, after: Seats, incoming: map<string, CameraConfig>)
    requires forall k :: k in incoming ==> incoming[k].Valid()
    requires kept == Restricted(f, incoming.Keys) && after == Partly(kept, incoming, incoming.Keys)
    ensures after == Reconfigured(f, incoming)
  {}

  lemma RestrictedValid(f: Seats, ids: set<string>)
    requires AllValid(f)
    ensures AllValid(Restricted(f, ids))
  {}

  lemma OneSeatReplaced(before: Seats, after: Seats, id: string)
    requires after.Keys == before.Keys + {id} && forall k :: k in after && k != id ==> after[k] == before[k]
    ensures after == before[id := after[id]]
  {}

  lemma UpdatedValid(f: Seats, id: string, seat: Seat)
    requires AllValid(f) && seat.Valid() && seat.rig.camera.id == id
    ensures AllValid(f[id := seat])
  {}

  /** The configurations keyed by id, one after the other. */
  method Index(cameras: seq<CameraConfig>) returns (incoming: map<string, CameraConfig>)
    ensures incoming == ById(cameras)
  {
    incoming := map[];
    for i := 0 to |cameras|
      invariant incoming == ById(cameras[..i])
    {
      assert cameras[..i + 1][..i] == cameras[..i];
      incoming := incoming[cameras[i].id := cameras[i]];
    }
    assert cameras[..|cameras|] == cameras;
  }

  // ---- the object ----------------------------------------------------------

  function SeatOf(e: CameraIncidentEngine): Seat
    reads e, e.incident
  {
    Seat(e.MyRig(), e.View())
  }

  class IncidentEngine {
    var engines: map<string, CameraIncidentEngine>

    ghost function Incidents(): set<LiveIncident?>
      reads this, engines.Values
    {
      set id | id in engines :: engines[id].incident
    }

    /** No two cameras share an engine or an incident. */
    ghost predicate Separate()
      reads this, engines.Values
    {
      forall a, b :: a in engines && b in engines && a != b ==>
        engines[a] != engines[b] &&
        (engines[a].incident != null ==> engines[a].incident != engines[b].incident)
    }

    ghost function View(): Seats
      reads this, engines.Values, Incidents()
    {
      map id | id in engines :: SeatOf(engines[id])
    }

    ghost predicate Valid()
      reads this, engines.Values, Incidents()
    {
      Separate() && AllValid(View())
    }

    constructor ()
      ensures Valid() && View() == map[]
    {
      engines := map[];
    }

    /** Feeds a result to the engine of its camera and to no other. */
    method ObserveFrame(result: FrameResult, freshId: string) returns (events: seq<IncidentEvent>)
      requires Valid()
      modifies if result.cameraId in engines
               then {engines[result.cameraId], engines[result.cameraId].incident} else {}
      ensures Valid() && engines == old(engines)
      ensures |events| <= 1
      ensures SiteTrace(View(), TagAll(result.cameraId, ViewOf(events)))
              == Route(old(View()), Routed(result.cameraId, Frame(result, freshId)))
    {
      var id := result.cameraId;
      ghost var before := View();
      if id !in engines {
        return [];
      }
      ghost var seat := before[id];
      events := Feed(id, result, freshId);
      RouteFrame(before, seat, result, freshId);
    }

    /** The heap side of one step: the engine of camera `id` is updated in place, everybody
        else's stays as it was. */
    method Feed(id: string, result: FrameResult, freshId: string) returns (events: seq<IncidentEvent>)
      requires Valid() && id in engines
      modifies engines[id], engines[id].incident
      ensures Valid() && engines == old(engines)
      ensures View() == old(View())[id := SeatOf(engines[id])]
      ensures SeatOf(engines[id]).rig == old(View())[id].rig
      ensures SeatOf(engines[id]).engine == Observe(old(View())[id].rig, old(View())[id].engine, result, freshId).0
      ensures |events| <= 1
      ensures ViewOf(events) == Observe(old(View())[id].rig, old(View())[id].engine, result, freshId).1
    {
      var engine := engines[id];
      assert View()[id] == SeatOf(engine);
      events := engine.ObserveFrame(result, freshId);
      OneReplaced(id);
    }

    /** An operator cancels whatever is open on one camera. */
    method CancelOpen(id: string) returns (events: seq<IncidentEvent>)
      requires Valid()
      modifies if id in engines then {engines[id], engines[id].incident} else {}
      ensures Valid() && engines == old(engines)
      ensures |events| <= 1
      ensures SiteTrace(View(), TagAll(id, ViewOf(events)))
              == Route(old(View()), Routed(id, OperatorCancel))
    {
      if id !in engines {
        return [];
      }
      assert View()[id] == SeatOf(engines[id]);
      events := engines[id].CancelOpen();
      OneReplaced(id);
    }

    /** The camera on which an incident is open, if any. */
    method FindIncident(incidentId: string) returns (owner: Option<string>)
      ensures match owner
              case Some(id) => id in engines && engines[id].incident != null && engines[id].incident.id == incidentId
              case None => forall id :: id in engines && engines[id].incident != null ==>
                                          engines[id].incident.id != incidentId
    {
      var todo := engines.Keys;
      while todo != {}
        invariant todo <= engines.Keys
        invariant forall id :: id in engines && id !in todo && engines[id].incident != null ==>
                                 engines[id].incident.id != incidentId
      {
        var id :| id in todo;
        var engine := engines[id];
        if engine.incident != null && engine.incident.id == incidentId {
          return Some(id);
        }
        todo := todo - {id};
      }
      return None;
    }

    /** Puts a new engine in the camera's place. */
    method AddCamera(camera: CameraConfig)
      requires Valid() && camera.Valid()
      modifies this
      ensures Valid()
      ensures camera.id in engines && fresh(engines[camera.id])
      ensures engines == old(engines)[camera.id := engines[camera.id]]
      ensures View() == old(View())[camera.id := FreshSeat(camera)]
    {
      var engine := new CameraIncidentEngine(camera);
      engines := engines[camera.id := engine];
      Added(camera.id);
    }

    twostate lemma Added(id: string)
      requires old(Valid()) && id in engines && fresh(engines[id]) && engines[id].incident == null
      requires engines == old(engines)[id := engines[id]]
      requires SeatOf(engines[id]).Valid() && engines[id].camera.id == id
      requires forall k :: k in engines && k != id ==> Same(engines[k])
      ensures Valid()
      ensures View() == old(View())[id := SeatOf(engines[id])]
    {
      ViewReplaced(id);
      UpdatedValid(old(View()), id, SeatOf(engines[id]));
      AddedSeparate(id);
    }

    twostate lemma AddedSeparate(id: string)
      requires old(Separate()) && id in engines && fresh(engines[id]) && engines[id].incident == null
      requires engines == old(engines)[id := engines[id]]
      requires forall k :: k in engines && k != id ==> Same(engines[k])
      ensures Separate()
    {
      forall k | k in engines && k != id
        ensures engines[k].incident == old(engines[k].incident)
      {
        assert Same(engines[k]);
      }
    }

    twostate lemma ViewReplaced(id: string)
      requires id in engines && engines.Keys == old(engines).Keys + {id}
      requires forall k :: k in engines && k != id ==> engines[k] == old(engines)[k] && Same(engines[k])
      ensures View() == old(View())[id := SeatOf(engines[id])]
    {
      Untouched(engines.Keys - {id});
      ghost var before, after := old(View()), View();
      assert after.Keys == before.Keys + {id};
      OneSeatReplaced(before, after, id);
    }

    /** What has not been touched looks as it did. */
    twostate lemma Untouched(ids: set<string>)
      requires ids <= engines.Keys * old(engines).Keys
      requires forall k :: k in ids ==> engines[k] == old(engines)[k] && Same(engines[k])
      ensures forall k :: k in ids ==> View()[k] == old(View())[k]
    {
      forall k | k in ids
        ensures View()[k] == old(View())[k]
      {
        assert Same(engines[k]);
      }
    }

    /** Puts one listed camera in place: a new engine for a new camera or for one that is
        not confirmed, the new configuration in the same engine for one that is. */
    method Apply(camera: CameraConfig)
      requires Valid() && camera.Valid()
      modifies this, if camera.id in engines then {engines[camera.id]} else {}
      ensures Valid()
      ensures engines.Keys == old(engines).Keys + {camera.id}
      ensures fresh(engines[camera.id])
           || (camera.id in old(engines) && engines[camera.id] == old(engines)[camera.id])
      ensures forall k :: k in engines && k != camera.id ==> engines[k] == old(engines)[k]
      ensures View() == old(View())[camera.id := Reseat(old(View()), camera.id, camera)]
    {
      var id := camera.id;
      ghost var before := View();
      if id !in engines {
        AddCamera(camera);
        return;
      }
      var engine := engines[id];
      assert before[id] == SeatOf(engine);
      if engine.camera != camera {
        if engine.state == Confirmed {
          engine.camera := camera;
          OneReplaced(id);
        } else {
          AddCamera(camera);
        }
      }
    }

    /** Applies a new list of cameras to the running site. */
    method Reconfigure(cameras: seq<CameraConfig>)
      requires Valid() && forall c :: c in cameras ==> c.Valid()
      modifies this, engines.Values
      ensures Valid()
      ensures View() == Reconfigured(old(View()), ById(cameras))
    {
      ghost var before := View();
      var incoming := Index(cameras);
      ghost var start := View();
      assert start == before by {
        assert forall k :: k in engines ==> SeatOf(engines[k]) == before[k];
      }
      RemoveMissing(incoming);
      ghost var kept := View();
      ApplyEach(incoming);
      ApplyAll(before, kept, View(), incoming);
    }

    method ApplyEach(incoming: map<string, CameraConfig>)
      requires Valid()
      requires forall k :: k in incoming ==> incoming[k].Valid() && incoming[k].id == k
      modifies this, engines.Values
      ensures Valid()
      ensures View() == Partly(old(View()), incoming, incoming.Keys)
    {
      ghost var before := View();
      var todo := incoming.Keys;
      ghost var done: set<string> := {};
      while todo != {}
        invariant Valid() && todo + done == incoming.Keys && todo * done == {}
        invariant forall k :: k in engines ==> engines[k] in old(engines.Values) || fresh(engines[k])
        invariant View() == Partly(before, incoming, done)
      {
        var id :| id in todo;
        ApplyNext(incoming, before, done, id);
        todo, done := todo - {id}, done + {id};
      }
      assert done == incoming.Keys;
    }

    /** One round of the loop: camera `id` joins those that have been put in place. */
    method ApplyNext(incoming: map<string, CameraConfig>, ghost before: Seats, ghost done: set<string>, id: string)
      requires Valid() && id in incoming && id !in done && done <= incoming.Keys
      requires forall k :: k in incoming ==> incoming[k].Valid() && incoming[k].id == k
      requires View() == Partly(before, incoming, done)
      modifies this, if id in engines then {engines[id]} else {}
      ensures Valid()
      ensures forall k :: k in engines ==> (k in old(engines) && engines[k] == old(engines)[k]) || fresh(engines[k])
      ensures View() == Partly(before, incoming, done + {id})
    {
      ApplyStep(before, incoming, done, id);
      Apply(incoming[id]);
    }

    method RemoveMissing(incoming: map<string, CameraConfig>)
      requires Valid()
      modifies this
      ensures Valid()
      ensures forall k :: k in engines ==> k in old(engines) && engines[k] == old(engines)[k]
      ensures View() == Restricted(old(View()), incoming.Keys)
    {
      engines := map id | id in engines && id in incoming :: engines[id];
      RemovedSeparate();
      ViewRestricted(incoming.Keys);
      RestrictedValid(old(View()), incoming.Keys);
    }

    twostate lemma ViewRestricted(ids: set<string>)
      requires engines.Keys == old(engines).Keys * ids
      requires forall k :: k in engines ==> engines[k] == old(engines)[k] && Same(engines[k])
      ensures View() == Restricted(old(View()), ids)
    {
      Untouched(engines.Keys);
    }

    twostate lemma RemovedSeparate()
      requires old(Separate())
      requires forall k :: k in engines ==> k in old(engines) && engines[k] == old(engines)[k]
      requires forall k :: k in engines ==> Same(engines[k])
      ensures Separate()
    {
      forall k | k in engines
        ensures engines[k].incident == old(engines[k].incident)
      {
        assert Same(engines[k]);
      }
    }

    /** Updating the engine of one camera, and no incident of another, keeps the rest. */
    twostate lemma OneReplaced(id: string)
      requires old(Valid()) && id in engines && engines == old(engines)
      requires SeatOf(engines[id]).Valid() && engines[id].camera.id == id
      requires engines[id].incident == null || engines[id].incident == old(engines[id].incident)
            || fresh(engines[id].incident)
      requires forall k :: k in engines && k != id ==> Same(engines[k])
      ensures Valid()
      ensures View() == old(View())[id := SeatOf(engines[id])]
    {
      ViewReplaced(id);
      UpdatedValid(old(View()), id, SeatOf(engines[id]));
      StaysSeparate(id);
    }

    twostate lemma StaysSeparate(id: string)
      requires old(Separate()) && id in engines && engines == old(engines)
      requires engines[id].incident == null || engines[id].incident == old(engines[id].incident)
            || fresh(engines[id].incident)
      requires forall k :: k in engines && k != id ==> Same(engines[k])
      ensures Separate()
    {
      forall k | k in engines && k != id
        ensures engines[k].incident == old(engines[k].incident)
      {
        assert Same(engines[k]);
      }
    }
  }

  twostate predicate Same(e: CameraIncidentEngine)
    reads e, e.incident
  {
    e.incident == old(e.incident) && SeatOf(e) == old(SeatOf(e))
  }

  lemma RouteFrame(f: Seats, seat: Seat, result: FrameResult, id: string)
    requires AllValid(f) && result.cameraId in f && f[result.cameraId] == seat
    ensures Route(f, Routed(result.cameraId, Frame(result, id)))
            == SiteTrace(f[result.cameraId := seat.(engine := Observe(seat.rig, seat.engine, result, id).0)],
                         TagAll(result.cameraId, Observe(seat.rig, seat.engine, result, id).1))
  {}
}
