/** Incidents of a running site: what an open one sums up and when it clears, through any new
    configurations, and the ids of all of them (firemex/incident/engine.py, IncidentEngine). */
module SiteIncidents {
  import opened Geometry
  import opened Confirmation
  import opened Histories
  import opened Lifecycle
  import opened Severities
  import opened Fleet
  import opened SiteRuns

  // ---- an incident carried across a swap -----------------------------------

  /** The frames of a camera, each filtered by the rig it came under. */
  function FramesThroughout(f: Seats, acts: seq<Act>, id: string): seq<Observation>
    requires AllValid(f) && AllSound(acts)
  {
    if acts == [] then []
    else FramesThroughout(f, acts[..|acts| - 1], id)
         + FrameOf(RunActs(f, acts[..|acts| - 1]).seats, acts[|acts| - 1], id)
  }

  function FrameOf(f: Seats, act: Act, id: string): seq<Observation>
    requires AllValid(f)
  {
    if act.Feed? && act.routed.cameraId == id && id in f && act.routed.input.Frame?
    then [Filter(f[id].rig, act.routed.input.result)] else []
  }

  predicate HasOpen(f: Seats, id: string) {
    id in f && f[id].engine.incident.Some?
  }

  predicate OpenThroughout(f: Seats, acts: seq<Act>, id: string)
    requires AllValid(f) && AllSound(acts)
  {
    HasOpen(RunActs(f, acts).seats, id) && (acts == [] || OpenThroughout(f, acts[..|acts| - 1], id))
  }

  /** The camera's open incident was opened on `opening` and sums up `seen`. */
  predicate SeatSumsUp(f: Seats, id: string, opening: Observation, incidentId: string, seen: seq<Detection>,
                       later: seq<Observation>)
  {
    HasOpen(f, id) && SumsUp(f[id].engine.incident.value, f[id].rig, opening, incidentId, seen, later)
  }

  /** When it opens, an incident sums up the window it opened on. */
  lemma OpensSummedUp(f: Seats, id: string, result: FrameResult, incidentId: string)
    requires AllValid(f) && id in f
    requires Emits(Step(f[id].rig, f[id].engine, Frame(result, incidentId)).1, Opened)
    ensures var g := Route(f, Routed(id, Frame(result, incidentId))).seats;
            id in g &&
            SeatSumsUp(g, id, Filter(f[id].rig, result), incidentId, AllDetections(g[id].engine.window), [])
  {
    var rig, e, obs := f[id].rig, f[id].engine, Filter(f[id].rig, result);
    StepMemory(rig, e, Frame(result, incidentId));
    OpensUnconfirmed(rig, e, obs, incidentId);
    OpeningSumsUp(rig, Intake(rig, e, obs), obs, incidentId);
  }

  lemma FeedSumsUp(f: Seats, r: Routed, id: string, opening: Observation, incidentId: string,
                   seen: seq<Detection>, later: seq<Observation>)
    requires AllValid(f) && SeatSumsUp(f, id, opening, incidentId, seen, later)
    requires HasOpen(Route(f, r).seats, id)
    ensures var more := FrameOf(f, Feed(r), id);
            SeatSumsUp(Route(f, r).seats, id, opening, incidentId, seen + AllDetections(more), later + more)
  {
    var seat, more := f[id], FrameOf(f, Feed(r), id);
    if r.cameraId == id {
      var next := Step(seat.rig, seat.engine, r.input).0;
      assert Route(f, r).seats[id] == seat.(engine := next);
      NextFrameSumsUp(seat.rig, seat.engine, r.input, next.incident, opening, incidentId, seen, later);
      assert more == [Filter(seat.rig, r.input.result)];
      DetectionsSnoc([], more[0]);
      assert [] + more == more;
      assert AllDetections(more) == more[0].detections;
    } else {
      assert seen + [] == seen && later + [] == later;
    }
  }

  lemma ConfigureSumsUp(f: Seats, incoming: SiteConfig, id: string, opening: Observation, incidentId: string,
                        seen: seq<Detection>, later: seq<Observation>)
    requires AllValid(f) && Sound(incoming) && SeatSumsUp(f, id, opening, incidentId, seen, later)
    requires id in incoming
    ensures SeatSumsUp(Reconfigured(f, incoming), id, opening, incidentId, seen, later)
  {
    ReconfiguredSeats(f, incoming, id);
  }

  lemma {:induction false} AllDetectionsConcat(a: seq<Observation>, b: seq<Observation>)
    ensures AllDetections(a + b) == AllDetections(a) + AllDetections(b)
  {
    if b == [] {
      assert a + b == a;
    } else {
      assert (a + b)[..|a + b| - 1] == a + b[..|b| - 1];
      AllDetectionsConcat(a, b[..|b| - 1]);
    }
  }

  /** For as long as it is open, through any reconfigurations, an incident sums up what it was
      opened on and all frames since, each as the rig of its moment let it through. */
  lemma {:induction false} SumsUpThroughout(f: Seats, acts: seq<Act>, id: string, opening: Observation,
                                            incidentId: string, seen: seq<Detection>)
    requires AllValid(f) && AllSound(acts) && OpenThroughout(f, acts, id)
    requires SeatSumsUp(f, id, opening, incidentId, seen, [])
    ensures var later := FramesThroughout(f, acts, id);
            SeatSumsUp(RunActs(f, acts).seats, id, opening, incidentId, seen + AllDetections(later), later)
  {
    if acts == [] {
      assert seen + AllDetections([]) == seen;
    } else {
      var front, last := acts[..|acts| - 1], acts[|acts| - 1];
      SumsUpThroughout(f, front, id, opening, incidentId, seen);
      var g, later := RunActs(f, front).seats, FramesThroughout(f, front, id);
      AllDetectionsConcat(later, FrameOf(g, last, id));
      Associate(seen, AllDetections(later), AllDetections(FrameOf(g, last, id)));
      match last
      case Feed(r) => FeedSumsUp(g, r, id, opening, incidentId, seen + AllDetections(later), later);
      case Configure(incoming) =>
        ConfigureSumsUp(g, incoming, id, opening, incidentId, seen + AllDetections(later), later);
        assert later + [] == later && AllDetections(later) + [] == AllDetections(later);
    }
  }

  // ---- what the severity says ----------------------------------------------

  /** The growth ratio reached 1.6 when the incident opened or on a hit since, under whatever
      configuration. */
  predicate SurgedThroughout(f: Seats, acts: seq<Act>, id: string)
    requires AllValid(f) && AllSound(acts)
  {
    if acts == [] then HasOpen(f, id) && f[id].engine.incident.value.growthRatio >= 1.6
    else
      var front := acts[..|acts| - 1];
      SurgedThroughout(f, front, id) || SurgesOn(RunActs(f, front).seats, acts[|acts| - 1], id)
  }

  /** The act shows the camera a hit on which the growth ratio reaches 1.6. */
  predicate SurgesOn(f: Seats, act: Act, id: string)
    requires AllValid(f) && (act.Configure? ==> Sound(act.incoming))
  {
    var more, g := FrameOf(f, act, id), Perform(f, act).seats;
    more != [] && more[0].Hit() && id in g && GrowthRatio(g[id].engine.history) >= 1.6
  }

  predicate SeatJudged(f: Seats, id: string, surged: bool) {
    HasOpen(f, id) && Judged(f[id].engine.incident.value, surged)
  }

  lemma OpensJudged(f: Seats, id: string, input: Input)
    requires AllValid(f) && id in f && Emits(Step(f[id].rig, f[id].engine, input).1, Opened)
    ensures var g := Route(f, Routed(id, input)).seats;
            HasOpen(g, id) && SeatJudged(g, id, g[id].engine.incident.value.growthRatio >= 1.6)
  {
    OpeningJudged(f[id].rig, f[id].engine, input);
  }

  lemma PerformJudged(f: Seats, act: Act, id: string, surged: bool)
    requires AllValid(f) && (act.Configure? ==> Sound(act.incoming)) && SeatJudged(f, id, surged)
    requires HasOpen(Perform(f, act).seats, id)
    ensures SeatJudged(Perform(f, act).seats, id, surged || SurgesOn(f, act, id))
  {
    match act
    case Feed(r) =>
      if r.cameraId == id && r.input.Frame? {
        FrameJudged(f[id].rig, f[id].engine, r.input.result, r.input.id, surged);
      }
    case Configure(incoming) => ReconfiguredSeats(f, incoming, id);
  }

  /** For as long as it is open, through any reconfigurations, an incident is CRITICAL exactly if
      fire is among its labels or its growth ratio reached 1.6 when it opened or on some hit
      since. */
  lemma {:induction false} SeverityThroughout(f: Seats, acts: seq<Act>, id: string)
    requires AllValid(f) && AllSound(acts) && OpenThroughout(f, acts, id)
    requires HasOpen(f, id) && SeatJudged(f, id, f[id].engine.incident.value.growthRatio >= 1.6)
    ensures SeatJudged(RunActs(f, acts).seats, id, SurgedThroughout(f, acts, id))
  {
    if acts != [] {
      var front := acts[..|acts| - 1];
      SeverityThroughout(f, front, id);
      PerformJudged(RunActs(f, front).seats, acts[|acts| - 1], id, SurgedThroughout(f, front, id));
    }
  }

  // ---- ids over the whole site ---------------------------------------------

  /** The ids handed to frames, one for each, over all cameras. */
  function IdsGiven(acts: seq<Act>): seq<string> {
    if acts == [] then []
    else
      var front := IdsGiven(acts[..|acts| - 1]);
      match acts[|acts| - 1]
      case Feed(Routed(_, Frame(_, id))) => front + [id]
      case _ => front
  }

  /** The incidents opened, over all cameras. */
  function IdsOpened(log: seq<Tagged>): seq<string> {
    if log == [] then []
    else
      var front := IdsOpened(log[..|log| - 1]);
      var event := log[|log| - 1].event;
      if event.kind == Opened then front + [event.incident.id] else front
  }

  lemma IdsOpenedSnoc(log: seq<Tagged>, more: seq<Tagged>)
    requires |more| <= 1
    ensures IdsOpened(log + more) == IdsOpened(log) + IdsOpened(more)
  {
    if more == [] {
      assert log + more == log;
    } else {
      assert (log + more)[..|log|] == log;
      assert more[..0] == [];
    }
  }

  lemma PerformOpens(f: Seats, act: Act)
    requires AllValid(f) && (act.Configure? ==> Sound(act.incoming))
    ensures var log := Perform(f, act).log;
            && |log| <= 1
            && (IdsOpened(log) == [] ||
                (act.Feed? && act.routed.input.Frame? && IdsOpened(log) == [act.routed.input.id]))
  {
    if act.Feed? && act.routed.cameraId in f {
      var seat, log := f[act.routed.cameraId], Perform(f, act).log;
      StepOpensWithGivenId(seat.rig, seat.engine, act.routed.input);
      if log != [] {
        assert log[..0] == [];
      }
    }
  }

  lemma DistinctPrefix(s: seq<string>, x: string)
    ensures Distinct(s + [x]) <==> Distinct(s) && x !in s
  {
    var t := s + [x];
    if Distinct(t) {
      forall i, j | 0 <= i < j < |s|
        ensures s[i] != s[j]
      {
        assert t[i] == s[i] && t[j] == s[j];
      }
      forall i | 0 <= i < |s|
        ensures s[i] != x
      {
        assert t[i] == s[i] && t[|s|] == x;
      }
    }
  }

  /** With ids fresh over the whole site, no incident is opened twice by any cameras, through
      any reconfigurations: the dispatcher they share starts at most one escalation for each. */
  lemma {:induction false} OneOpeningPerIncident(f: Seats, acts: seq<Act>)
    requires AllValid(f) && AllSound(acts) && Distinct(IdsGiven(acts))
    ensures Distinct(IdsOpened(RunActs(f, acts).log))
    ensures forall id :: id in IdsOpened(RunActs(f, acts).log) ==> id in IdsGiven(acts)
  {
    if acts != [] {
      var front, last := acts[..|acts| - 1], acts[|acts| - 1];
      if last.Feed? && last.routed.input.Frame? {
        DistinctPrefix(IdsGiven(front), last.routed.input.id);
      }
      OneOpeningPerIncident(f, front);
      var t := RunActs(f, front);
      PerformOpens(t.seats, last);
      IdsOpenedSnoc(t.log, Perform(t.seats, last).log);
      if last.Feed? && last.routed.input.Frame? {
        DistinctPrefix(IdsOpened(t.log), last.routed.input.id);
      }
      assert IdsOpened(t.log) + [] == IdsOpened(t.log);
    }
  }

  // ---- one camera alone ----------------------------------------------------

  function OpenedIds(events: seq<Event>): seq<string> {
    if events == [] then []
    else
      var front := OpenedIds(events[..|events| - 1]);
      var last := events[|events| - 1];
      if last.kind == Opened then front + [last.incident.id] else front
  }

  /** The ids handed to the frames of a run, one for each frame. */
  function GivenIds(inputs: seq<Input>): seq<string> {
    if inputs == [] then []
    else
      var front := GivenIds(inputs[..|inputs| - 1]);
      var last := inputs[|inputs| - 1];
      if last.Frame? then front + [last.id] else front
  }

  lemma OpenedIdsSnoc(events: seq<Event>, more: seq<Event>)
    requires |more| <= 1
    ensures OpenedIds(events + more) ==
            OpenedIds(events) + if Emits(more, Opened) then [more[0].incident.id] else []
  {
    if more == [] {
      assert events + more == events;
    } else {
      assert (events + more)[..|events + more| - 1] == events;
    }
  }

  /** A site of one camera that is fed these inputs. */
  function Fed(id: string, inputs: seq<Input>): (acts: seq<Act>)
    ensures |acts| == |inputs| && AllSound(acts)
  {
    if inputs == [] then []
    else Fed(id, inputs[..|inputs| - 1]) + [Feed(Routed(id, inputs[|inputs| - 1]))]
  }

  lemma {:induction false} FedGives(id: string, inputs: seq<Input>)
    ensures IdsGiven(Fed(id, inputs)) == GivenIds(inputs)
  {
    if inputs != [] {
      FedGives(id, inputs[..|inputs| - 1]);
      assert Fed(id, inputs)[..|inputs| - 1] == Fed(id, inputs[..|inputs| - 1]);
    }
  }

  lemma TaggedOpens(id: string, events: seq<Event>)
    requires |events| <= 1
    ensures IdsOpened(TagAll(id, events)) == if Emits(events, Opened) then [events[0].incident.id] else []
  {
    if events != [] {
      assert TagAll(id, events)[..0] == [];
    }
  }

  lemma FeedAlone(rig: Rig, e: Engine, input: Input)
    requires rig.Valid() && e.Valid()
    ensures var id, r := rig.camera.id, Step(rig, e, input);
            Route(map[id := Seat(rig, e)], Routed(id, input)) == SiteTrace(map[id := Seat(rig, r.0)], TagAll(id, r.1))
  {
    var id, r := rig.camera.id, Step(rig, e, input);
    assert map[id := Seat(rig, e)][id := Seat(rig, r.0)] == map[id := Seat(rig, r.0)];
  }

  lemma FedLast(f: Seats, id: string, inputs: seq<Input>)
    requires AllValid(f) && inputs != []
    ensures var before := RunActs(f, Fed(id, inputs[..|inputs| - 1]));
            var t := Route(before.seats, Routed(id, inputs[|inputs| - 1]));
            RunActs(f, Fed(id, inputs)) == SiteTrace(t.seats, before.log + t.log)
  {
    assert Fed(id, inputs)[..|inputs| - 1] == Fed(id, inputs[..|inputs| - 1]);
  }

  /** The camera runs, and opens incidents, as it does by itself. */
  predicate RunsAlone(rig: Rig, inputs: seq<Input>, t: SiteTrace)
    requires rig.Valid()
  {
    && t.seats == map[rig.camera.id := Seat(rig, Run(rig, inputs).engine)]
    && IdsOpened(t.log) == OpenedIds(Run(rig, inputs).events)
  }

  lemma RunsAloneNext(rig: Rig, inputs: seq<Input>, input: Input, t: SiteTrace)
    requires rig.Valid() && RunsAlone(rig, inputs, t)
    ensures var id := rig.camera.id;
            var next := Route(t.seats, Routed(id, input));
            RunsAlone(rig, inputs + [input], SiteTrace(next.seats, t.log + next.log))
  {
    var before := Run(rig, inputs);
    var events := Step(rig, before.engine, input).1;
    RunSnoc(rig, inputs, input);
    FeedAlone(rig, before.engine, input);
    TaggedOpens(rig.camera.id, events);
    IdsOpenedSnoc(t.log, TagAll(rig.camera.id, events));
    OpenedIdsSnoc(before.events, events);
  }

  lemma Whole(inputs: seq<Input>)
    requires inputs != []
    ensures inputs[..|inputs| - 1] + [inputs[|inputs| - 1]] == inputs
  {}

  lemma {:induction false} FedRuns(rig: Rig, inputs: seq<Input>)
    requires rig.Valid()
    ensures RunsAlone(rig, inputs, RunActs(map[rig.camera.id := Seat(rig, FRESH)], Fed(rig.camera.id, inputs)))
  {
    if inputs != [] {
      var front, last := inputs[..|inputs| - 1], inputs[|inputs| - 1];
      var f := map[rig.camera.id := Seat(rig, FRESH)];
      FedRuns(rig, front);
      FedLast(f, rig.camera.id, inputs);
      RunsAloneNext(rig, front, last, RunActs(f, Fed(rig.camera.id, front)));
      Whole(inputs);
    }
  }

  /** In a run of one camera every opening takes the id of its own frame, so with fresh ids no
      incident is opened twice. */
  lemma OneOpeningPerId(rig: Rig, inputs: seq<Input>)
    requires rig.Valid() && Distinct(GivenIds(inputs))
    ensures Distinct(OpenedIds(Run(rig, inputs).events))
    ensures forall id :: id in OpenedIds(Run(rig, inputs).events) ==> id in GivenIds(inputs)
  {
    FedGives(rig.camera.id, inputs);
    FedRuns(rig, inputs);
    OneOpeningPerIncident(map[rig.camera.id := Seat(rig, FRESH)], Fed(rig.camera.id, inputs));
  }
}
