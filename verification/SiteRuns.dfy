/** Sites that are reconfigured while they run: every mix of results, cancels and new
    configurations (firemex/incident/engine.py, IncidentEngine). */
module SiteRuns {
  import opened Geometry
  import opened Confirmation
  import opened Histories
  import opened Lifecycle
  import opened Fleet

  type SiteConfig = map<string, CameraConfig>

  datatype Act = Feed(routed: Routed) | Configure(incoming: SiteConfig)

  predicate Sound(t: SiteConfig) {
    forall id :: id in t ==> t[id].Valid() && t[id].id == id
  }

  predicate AllSound(acts: seq<Act>) {
    forall i :: 0 <= i < |acts| && acts[i].Configure? ==> Sound(acts[i].incoming)
  }

  function Perform(f: Seats, act: Act): (t: SiteTrace)
    requires AllValid(f) && (act.Configure? ==> Sound(act.incoming))
    ensures AllValid(t.seats)
  {
    match act
    case Feed(r) => Route(f, r)
    case Configure(incoming) =>
      ReconfigureLaws(f, incoming);
      SiteTrace(Reconfigured(f, incoming), [])
  }

  function RunActs(f: Seats, acts: seq<Act>): (t: SiteTrace)
    requires AllValid(f) && AllSound(acts)
    ensures AllValid(t.seats)
  {
    if acts == [] then SiteTrace(f, [])
    else
      var before := RunActs(f, acts[..|acts| - 1]);
      var t := Perform(before.seats, acts[|acts| - 1]);
      SiteTrace(t.seats, before.log + t.log)
  }

  // ---- the order of events -------------------------------------------------

  /** The incident open on a camera; a camera that is not configured has none. */
  function HeldBy(f: Seats, id: string): Option<Incident> {
    if id in f then f[id].engine.incident else None
  }

  /** A new configuration leaves the camera out while an incident is open on it. */
  predicate Drops(f: Seats, act: Act, id: string) {
    act.Configure? && id !in act.incoming && HeldBy(f, id).Some?
  }

  lemma FeedFollows(f: Seats, r: Routed, id: string, p: Phase)
    requires AllValid(f) && Matches(p, HeldBy(f, id))
    ensures var t := Route(f, r);
            var more := EventsOf(t.log, id);
            |more| <= 1 && Matches(if more == [] then p else Advance(p, more[0]), HeldBy(t.seats, id))
  {
    if r.cameraId in f {
      var step := Step(f[r.cameraId].rig, f[r.cameraId].engine, r.input);
      EventsOfSnoc([], r.cameraId, step.1, id);
      assert [] + TagAll(r.cameraId, step.1) == Route(f, r).log;
      assert [] + step.1 == step.1;
      if r.cameraId == id {
        StepFollows(f[id].rig, f[id].engine, r.input, p);
      }
    }
  }

  lemma ConfigureFollows(f: Seats, incoming: SiteConfig, id: string)
    requires AllValid(f) && Sound(incoming)
    ensures HeldBy(Reconfigured(f, incoming), id) == if id in incoming then HeldBy(f, id) else None
  {
    if id in incoming {
      ReconfiguredSeats(f, incoming, id);
    }
  }

  /** One act moves the phase and the incident together, unless it drops the incident. */
  lemma PerformFollows(f: Seats, act: Act, id: string, p: Phase)
    requires AllValid(f) && (act.Configure? ==> Sound(act.incoming)) && Matches(p, HeldBy(f, id))
    ensures var t := Perform(f, act);
            var more := EventsOf(t.log, id);
            && |more| <= 1
            && (Matches(if more == [] then p else Advance(p, more[0]), HeldBy(t.seats, id)) <==> !Drops(f, act, id))
  {
    match act
    case Feed(r) => FeedFollows(f, r, id, p);
    case Configure(incoming) => ConfigureFollows(f, incoming, id);
  }

  lemma {:induction false} EventsOfConcat(a: seq<Tagged>, b: seq<Tagged>, id: string)
    ensures EventsOf(a + b, id) == EventsOf(a, id) + EventsOf(b, id)
  {
    if b == [] {
      assert a + b == a;
    } else {
      assert (a + b)[..|a + b| - 1] == a + b[..|b| - 1];
      EventsOfConcat(a, b[..|b| - 1], id);
    }
  }

  /** The events of a camera are in order and its engine holds the incident they leave open. */
  predicate Agrees(f: Seats, acts: seq<Act>, id: string)
    requires AllValid(f) && AllSound(acts)
  {
    var t := RunActs(f, acts);
    Matches(PhaseAfter(EventsOf(t.log, id)), HeldBy(t.seats, id))
  }

  predicate AgreesThroughout(f: Seats, acts: seq<Act>, id: string)
    requires AllValid(f) && AllSound(acts)
  {
    Agrees(f, acts, id) && (acts == [] || AgreesThroughout(f, acts[..|acts| - 1], id))
  }

  predicate NeverDropped(f: Seats, acts: seq<Act>, id: string)
    requires AllValid(f) && AllSound(acts)
  {
    acts == [] ||
    var front := acts[..|acts| - 1];
    NeverDropped(f, front, id) && !Drops(RunActs(f, front).seats, acts[|acts| - 1], id)
  }

  /** The events of the last act. */
  lemma LastEvents(f: Seats, acts: seq<Act>, id: string)
    requires AllValid(f) && AllSound(acts) && acts != []
    ensures var before := RunActs(f, acts[..|acts| - 1]);
            EventsOf(RunActs(f, acts).log, id)
            == EventsOf(before.log, id) + EventsOf(Perform(before.seats, acts[|acts| - 1]).log, id)
  {
    var before := RunActs(f, acts[..|acts| - 1]);
    EventsOfConcat(before.log, Perform(before.seats, acts[|acts| - 1]).log, id);
  }

  /** In every mix of results, cancels and reconfigurations, the events of a camera are in
      order at every moment, and its engine where they say it is, exactly if no configuration
      ever leaves the camera out while an incident is open on it. */
  lemma {:induction false} EventsInOrderExactlyWhen(f: Seats, acts: seq<Act>, id: string)
    requires AllValid(f) && AllSound(acts) && HeldBy(f, id).None?
    ensures AgreesThroughout(f, acts, id) <==> NeverDropped(f, acts, id)
  {
    if acts != [] {
      var front, last := acts[..|acts| - 1], acts[|acts| - 1];
      EventsInOrderExactlyWhen(f, front, id);
      var t := RunActs(f, front);
      var events := EventsOf(t.log, id);
      if AgreesThroughout(f, front, id) {
        PerformFollows(t.seats, last, id, PhaseAfter(events));
        LastEvents(f, acts, id);
        PhaseSnoc(events, EventsOf(Perform(t.seats, last).log, id));
      }
    }
  }

  // ---- the kinds of events -------------------------------------------------

  /** An event of the camera comes after its incident was dropped. */
  predicate SpeaksAfterDrop(f: Seats, acts: seq<Act>, id: string)
    requires AllValid(f) && AllSound(acts)
  {
    acts != [] &&
    var front := acts[..|acts| - 1];
    || SpeaksAfterDrop(f, front, id)
    || (!NeverDropped(f, front, id) && EventsOf(Perform(RunActs(f, front).seats, acts[|acts| - 1]).log, id) != [])
  }

  predicate LeftOpen(kinds: seq<EventKind>) {
    Lifecycles(kinds) && kinds != [] && kinds[|kinds| - 1] != Closed
  }

  /** What has been announced is a life cycle, left open if the incident was dropped, for as
      long as nothing is said after a drop. */
  predicate Announced(f: Seats, acts: seq<Act>, id: string)
    requires AllValid(f) && AllSound(acts)
  {
    var t := RunActs(f, acts);
    var kinds := Kinds(EventsOf(t.log, id));
    if SpeaksAfterDrop(f, acts, id) then !Lifecycles(kinds)
    else if NeverDropped(f, acts, id) then Lifecycles(kinds) && Agrees(f, acts, id)
    else LeftOpen(kinds) && HeldBy(t.seats, id).None?
  }

  lemma AgreedKinds(events: seq<Event>)
    requires PhaseAfter(events) != Broken
    ensures Lifecycles(Kinds(events))
    ensures PhaseAfter(events).Live? ==> LeftOpen(Kinds(events))
  {
    PhaseBothWays(events);
    UnbrokenIsLifecycles(events);
  }

  lemma KindsSnoc(events: seq<Event>, more: seq<Event>)
    requires |more| <= 1
    ensures Kinds(events + more) == Kinds(events) + Kinds(more)
  {}

  /** From a camera that holds nothing only an opening can come. */
  lemma OnlyOpens(f: Seats, act: Act, id: string)
    requires AllValid(f) && (act.Configure? ==> Sound(act.incoming)) && HeldBy(f, id).None?
    ensures var t := Perform(f, act);
            var more := EventsOf(t.log, id);
            && |more| <= 1
            && (more == [] ==> HeldBy(t.seats, id).None?)
            && (more != [] ==> more[0].kind == Opened)
  {
    PerformFollows(f, act, id, Quiet);
  }

  lemma AnnouncedInOrder(f: Seats, acts: seq<Act>, id: string)
    requires AllValid(f) && AllSound(acts) && acts != []
    requires NeverDropped(f, acts[..|acts| - 1], id) && Announced(f, acts[..|acts| - 1], id)
    requires !SpeaksAfterDrop(f, acts[..|acts| - 1], id)
    ensures Announced(f, acts, id)
  {
    var front, last := acts[..|acts| - 1], acts[|acts| - 1];
    var t := RunActs(f, front);
    var events, more := EventsOf(t.log, id), EventsOf(Perform(t.seats, last).log, id);
    PerformFollows(t.seats, last, id, PhaseAfter(events));
    LastEvents(f, acts, id);
    PhaseSnoc(events, more);
    if Drops(t.seats, last, id) {
      AgreedKinds(events);
      assert more == [] && events + [] == events;
    } else {
      AgreedKinds(events + more);
    }
  }

  lemma AnnouncedAfterDrop(f: Seats, acts: seq<Act>, id: string)
    requires AllValid(f) && AllSound(acts) && acts != []
    requires !NeverDropped(f, acts[..|acts| - 1], id) && Announced(f, acts[..|acts| - 1], id)
    ensures Announced(f, acts, id)
  {
    var front, last := acts[..|acts| - 1], acts[|acts| - 1];
    var t := RunActs(f, front);
    var events, more := EventsOf(t.log, id), EventsOf(Perform(t.seats, last).log, id);
    LastEvents(f, acts, id);
    PerformEvents(t.seats, last, id);
    KindsSnoc(events, more);
    if more == [] {
      assert Kinds(events) + [] == Kinds(events);
    } else {
      LifecyclesSnoc(Kinds(events), more[0].kind);
      assert Kinds(more) == [more[0].kind];
    }
    if !SpeaksAfterDrop(f, front, id) {
      OnlyOpens(t.seats, last, id);
    }
  }

  lemma PerformEvents(f: Seats, act: Act, id: string)
    requires AllValid(f) && (act.Configure? ==> Sound(act.incoming))
    ensures |EventsOf(Perform(f, act).log, id)| <= 1
  {
    if act.Feed? && act.routed.cameraId in f {
      var r := act.routed;
      EventsOfSnoc([], r.cameraId, Step(f[r.cameraId].rig, f[r.cameraId].engine, r.input).1, id);
      assert [] + Perform(f, act).log == Perform(f, act).log;
    }
  }

  lemma {:induction false} AnnouncedAlways(f: Seats, acts: seq<Act>, id: string)
    requires AllValid(f) && AllSound(acts) && HeldBy(f, id).None?
    ensures Announced(f, acts, id)
  {
    if acts != [] {
      var front := acts[..|acts| - 1];
      AnnouncedAlways(f, front, id);
      if NeverDropped(f, front, id) {
        SilentBefore(f, front, id);
        AnnouncedInOrder(f, acts, id);
      } else {
        AnnouncedAfterDrop(f, acts, id);
      }
    }
  }

  lemma {:induction false} SilentBefore(f: Seats, acts: seq<Act>, id: string)
    requires AllValid(f) && AllSound(acts) && NeverDropped(f, acts, id)
    ensures !SpeaksAfterDrop(f, acts, id)
  {
    if acts != [] {
      SilentBefore(f, acts[..|acts| - 1], id);
    }
  }

  /** The kinds of a camera's events are a prefix of (OPENED ESCALATED? CLOSED)* exactly if no
      event of the camera comes after a configuration that dropped an open incident of it. */
  lemma EventGrammarExactlyWhen(f: Seats, acts: seq<Act>, id: string)
    requires AllValid(f) && AllSound(acts) && HeldBy(f, id).None?
    ensures Lifecycles(Kinds(EventsOf(RunActs(f, acts).log, id))) <==> !SpeaksAfterDrop(f, acts, id)
  {
    AnnouncedAlways(f, acts, id);
  }
}
