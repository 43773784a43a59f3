/** The life of an incident over every run: the order of its events, what it has seen,
    and when it clears. */
module Lifecycle {
  import opened Geometry
  import opened Measures
  import opened Confirmation
  import opened Rules
  import opened Histories

  /** An input emits at most one event. */
  predicate Emits(events: seq<Event>, kind: EventKind) {
    events != [] && events[0].kind == kind
  }

  function NewEvents(rig: Rig, inputs: seq<Input>, input: Input): seq<Event>
    requires rig.Valid()
  {
    Step(rig, Run(rig, inputs).engine, input).1
  }

  predicate IsOpen(events: seq<Event>) {
    events != [] && events[|events| - 1].kind != Closed
  }

  // ---- the order of events -------------------------------------------------

  /** Where a camera stands after some events; Broken is an order that must not happen. */
  datatype Phase = Quiet | Live(id: string, severity: Severity, labels: set<Label>) | Broken

  function Advance(p: Phase, ev: Event): Phase {
    var next := Live(ev.incident.id, ev.severity, ev.labels);
    match ev.kind
    case Opened =>
      if p.Quiet? then next else Broken
    case Escalated =>
      if p.Live? && p.id == next.id && p.severity == Warning && next.severity == Critical
         && p.labels <= next.labels
      then next else Broken
    case Closed =>
      if p.Live? && p.id == next.id && p.severity == next.severity && p.labels <= next.labels
      then Quiet else Broken
  }

  function PhaseAfter(events: seq<Event>): Phase {
    if events == [] then Quiet
    else Advance(PhaseAfter(events[..|events| - 1]), events[|events| - 1])
  }

  /** The phase tells what the engine holds: an incident exactly when live, under the same
      id, with the severity last announced and at least the labels last announced. */
  predicate Matches(p: Phase, incident: Option<Incident>) {
    match p
    case Quiet => incident.None?
    case Live(id, severity, labels) =>
      incident.Some? && incident.value.id == id && incident.value.severity == severity
      && labels <= incident.value.labels
    case Broken => false
  }

  function PhaseFrom(p: Phase, events: seq<Event>): Phase
    decreases |events|
  {
    if events == [] then p else PhaseFrom(Advance(p, events[0]), events[1..])
  }

  lemma UnconfirmedFollows(rig: Rig, e: Engine, obs: Observation, id: string, p: Phase)
    requires rig.Valid() && e.incident.None? && Matches(p, e.incident)
    ensures var r := ObserveUnconfirmed(rig, e, obs, id);
            |r.1| <= 1 && Matches(if r.1 == [] then p else Advance(p, r.1[0]), r.0.incident)
  {}

  lemma ConfirmedFollows(rig: Rig, e: Engine, obs: Observation, p: Phase)
    requires rig.Valid() && e.incident.Some? && Matches(p, e.incident)
    ensures var r := ObserveConfirmed(rig, e, obs);
            |r.1| <= 1 && Matches(if r.1 == [] then p else Advance(p, r.1[0]), r.0.incident)
  {}

  lemma CancelFollows(e: Engine, p: Phase)
    requires e.Valid() && Matches(p, e.incident)
    ensures var r := Cancel(e);
            |r.1| <= 1 && Matches(if r.1 == [] then p else Advance(p, r.1[0]), r.0.incident)
  {}

  lemma StepFollows(rig: Rig, e: Engine, input: Input, p: Phase)
    requires rig.Valid() && e.Valid() && Matches(p, e.incident)
    ensures var r := Step(rig, e, input);
            Matches(if r.1 == [] then p else Advance(p, r.1[0]), r.0.incident)
  {
    if input.OperatorCancel? {
      CancelFollows(e, p);
    } else {
      var obs := Filter(rig, input.result);
      if e.incident.Some? {
        ConfirmedFollows(rig, Intake(rig, e, obs), obs, p);
      } else {
        UnconfirmedFollows(rig, Intake(rig, e, obs), obs, input.id, p);
      }
    }
  }

  lemma PhaseSnoc(events: seq<Event>, more: seq<Event>)
    requires |more| <= 1
    ensures PhaseAfter(events + more) ==
            if more == [] then PhaseAfter(events) else Advance(PhaseAfter(events), more[0])
  {
    if more == [] {
      assert events + more == events;
    } else {
      assert (events + more)[..|events + more| - 1] == events;
    }
  }

  /** In every run the events are in order and the engine is where they say it is. */
  lemma {:induction false} EventsInOrder(rig: Rig, inputs: seq<Input>)
    requires rig.Valid()
    ensures Matches(PhaseAfter(Run(rig, inputs).events), Run(rig, inputs).engine.incident)
  {
    if inputs != [] {
      var before, input := inputs[..|inputs| - 1], inputs[|inputs| - 1];
      var t := Run(rig, before);
      EventsInOrder(rig, before);
      StepFollows(rig, t.engine, input, PhaseAfter(t.events));
      PhaseSnoc(t.events, Step(rig, t.engine, input).1);
    }
  }

  /** An incident is open exactly when the last event is not a closing. */
  lemma OpenByLastEvent(rig: Rig, inputs: seq<Input>)
    requires rig.Valid()
    ensures Run(rig, inputs).engine.incident.Some? <==> IsOpen(Run(rig, inputs).events)
    ensures Run(rig, inputs).engine.state == Confirmed <==> IsOpen(Run(rig, inputs).events)
  {
    EventsInOrder(rig, inputs);
  }

  function Kinds(events: seq<Event>): (r: seq<EventKind>)
    ensures |r| == |events|
    ensures forall k :: 0 <= k < |events| ==> r[k] == events[k].kind
  {
    seq(|events|, k requires 0 <= k < |events| => events[k].kind)
  }

  /** A prefix of (Opened Escalated? Closed)*. */
  predicate Lifecycles(kinds: seq<EventKind>) {
    kinds == [] ||
    (kinds[0] == Opened &&
     (|kinds| == 1 ||
      (kinds[1] == Closed && Lifecycles(kinds[2..])) ||
      (kinds[1] == Escalated && (|kinds| == 2 || (kinds[2] == Closed && Lifecycles(kinds[3..]))))))
  }

  lemma {:induction false} BrokenStays(events: seq<Event>)
    ensures PhaseFrom(Broken, events) == Broken
  {
    if events != [] { BrokenStays(events[1..]); }
  }

  lemma {:induction false} PhaseFromSnoc(p: Phase, events: seq<Event>, last: Event)
    ensures PhaseFrom(p, events + [last]) == Advance(PhaseFrom(p, events), last)
    decreases |events|
  {
    if events == [] {
      assert ([] + [last])[1..] == [];
    } else {
      assert (events + [last])[1..] == events[1..] + [last];
      PhaseFromSnoc(Advance(p, events[0]), events[1..], last);
    }
  }

  lemma {:induction false} PhaseBothWays(events: seq<Event>)
    ensures PhaseAfter(events) == PhaseFrom(Quiet, events)
  {
    if events != [] {
      var n := |events| - 1;
      PhaseBothWays(events[..n]);
      PhaseFromSnoc(Quiet, events[..n], events[n]);
      assert events == events[..n] + [events[n]];
    }
  }

  lemma {:induction false} UnbrokenIsLifecycles(events: seq<Event>)
    requires PhaseFrom(Quiet, events) != Broken
    ensures Lifecycles(Kinds(events))
    decreases |events|
  {
    if |events| >= 2 {
      var p1 := Advance(Quiet, events[0]);
      var p2 := Advance(p1, events[1]);
      PhaseFromTwo(Quiet, events);
      BrokenStays(events[1..]);
      BrokenStays(events[2..]);
      if p2 == Quiet {
        assert Kinds(events)[2..] == Kinds(events[2..]);
        UnbrokenIsLifecycles(events[2..]);
      } else if |events| >= 3 {
        assert PhaseFrom(p2, events[2..]) == PhaseFrom(Advance(p2, events[2]), events[3..]) by {
          assert events[2..][1..] == events[3..];
        }
        BrokenStays(events[3..]);
        assert Kinds(events)[3..] == Kinds(events[3..]);
        UnbrokenIsLifecycles(events[3..]);
      }
    }
  }

  lemma PhaseFromTwo(p: Phase, events: seq<Event>)
    requires |events| >= 2
    ensures PhaseFrom(p, events) == PhaseFrom(Advance(Advance(p, events[0]), events[1]), events[2..])
  {}

  predicate MayFollow(kinds: seq<EventKind>, next: EventKind) {
    if kinds == [] || kinds[|kinds| - 1] == Closed then next == Opened
    else next == Closed || (next == Escalated && kinds[|kinds| - 1] == Opened)
  }

  /** The same grammar, told from the end. */
  lemma {:induction false} LifecyclesSnoc(kinds: seq<EventKind>, next: EventKind)
    ensures Lifecycles(kinds + [next]) <==> Lifecycles(kinds) && MayFollow(kinds, next)
    decreases |kinds|
  {
    var all := kinds + [next];
    if |kinds| >= 2 && kinds[0] == Opened && kinds[1] == Closed {
      assert all[2..] == kinds[2..] + [next];
      LifecyclesSnoc(kinds[2..], next);
    } else if |kinds| >= 3 && kinds[0] == Opened && kinds[1] == Escalated && kinds[2] == Closed {
      assert all[3..] == kinds[3..] + [next];
      LifecyclesSnoc(kinds[3..], next);
    } else if kinds == [Opened, Escalated] {
      assert all[3..] == [];
    } else if |kinds| == 1 {
      assert all[2..] == [];
    }
  }

  /** The kinds of the events of every run. */
  lemma EventGrammar(rig: Rig, inputs: seq<Input>)
    requires rig.Valid()
    ensures Lifecycles(Kinds(Run(rig, inputs).events))
  {
    EventsInOrder(rig, inputs);
    PhaseBothWays(Run(rig, inputs).events);
    UnbrokenIsLifecycles(Run(rig, inputs).events);
  }

  // ---- ids -----------------------------------------------------------------

  lemma StepOpensWithGivenId(rig: Rig, e: Engine, input: Input)
    requires rig.Valid() && e.Valid()
    ensures var r := Step(rig, e, input);
            Emits(r.1, Opened) ==> input.Frame? && r.1[0].incident.id == input.id
  {}

  // ---- what an open incident has seen --------------------------------------

  function LastHit(since: real, frames: seq<Observation>): real {
    if frames == [] then since
    else if frames[|frames| - 1].Hit() then frames[|frames| - 1].ts
    else LastHit(since, frames[..|frames| - 1])
  }

  /** The incident was opened by input opening after before, and sums up seen. */
  predicate SumsUp(i: Incident, rig: Rig, opening: Observation, id: string, seen: seq<Detection>,
                   later: seq<Observation>)
  {
    && i.id == id && i.cameraId == rig.camera.id
    && i.openedTs == opening.ts && i.openedWall == opening.wallTs
    && i.labels == LabelsOf(seen)
    && i.peakConfidence == OpeningPeak(seen)
    && i.envelope == EnvelopeOf(BoxesOf(seen))
    && i.lastHitTs == LastHit(opening.ts, later)
    && seen != []
  }

  lemma LabelsConcat(a: seq<Detection>, b: seq<Detection>)
    ensures LabelsOf(a + b) == LabelsOf(a) + LabelsOf(b)
  {}

  lemma OpeningSumsUp(rig: Rig, e: Engine, obs: Observation, id: string)
    requires rig.Valid() && e.incident.None? && e.window != [] && e.window[|e.window| - 1] == obs
    requires Emits(ObserveUnconfirmed(rig, e, obs, id).1, Opened)
    ensures var r := ObserveUnconfirmed(rig, e, obs, id).0;
            r.incident.Some? && SumsUp(r.incident.value, rig, obs, id, AllDetections(e.window), [])
  {
    var seen := AllDetections(e.window);
    LabelsConcat(AllDetections(e.window[..|e.window| - 1]), obs.detections);
    WindowEnvelopeMeaning(e.window);
    HitsSeen(e.window);
  }

  lemma {:induction false} HitsSeen(window: seq<Observation>)
    ensures Hits(window) != [] <==> AllDetections(window) != []
  {
    if window != [] { HitsSeen(window[..|window| - 1]); }
  }

  lemma AbsorbSumsUp(i: Incident, rig: Rig, obs: Observation, growth: real, opening: Observation, id: string,
                     seen: seq<Detection>, later: seq<Observation>)
    requires SumsUp(i, rig, opening, id, seen, later) && obs.Hit()
    ensures SumsUp(Absorb(i, obs, growth), rig, opening, id, seen + obs.detections, later + [obs])
  {
    LabelsConcat(seen, obs.detections);
    OpeningPeakConcat(seen, obs.detections);
    BoxesOfConcat(seen, obs.detections);
    EnvelopeOfConcat(BoxesOf(seen), BoxesOf(obs.detections));
  }

  lemma QuietSumsUp(i: Incident, rig: Rig, obs: Observation, opening: Observation, id: string,
                    seen: seq<Detection>, later: seq<Observation>)
    requires SumsUp(i, rig, opening, id, seen, later) && !obs.Hit()
    ensures SumsUp(i, rig, opening, id, seen + obs.detections, later + [obs])
  {
    assert (later + [obs])[..|later|] == later;
    assert seen + obs.detections == seen;
  }

  lemma StaysSummedUp(rig: Rig, e: Engine, obs: Observation, opening: Observation, id: string,
                      seen: seq<Detection>, later: seq<Observation>)
    requires rig.Valid() && e.incident.Some?
    requires SumsUp(e.incident.value, rig, opening, id, seen, later)
    requires ObserveConfirmed(rig, e, obs).0.incident.Some?
    ensures SumsUp(ObserveConfirmed(rig, e, obs).0.incident.value, rig, opening, id,
                   seen + obs.detections, later + [obs])
  {
    if obs.Hit() {
      AbsorbSumsUp(e.incident.value, rig, obs, GrowthRatio(e.history), opening, id, seen, later);
    } else {
      QuietSumsUp(e.incident.value, rig, obs, opening, id, seen, later);
    }
  }

  /** An incident is open in e and after every input of after. */
  predicate StaysOpen(rig: Rig, e: Engine, after: seq<Input>)
    requires rig.Valid() && e.Valid()
  {
    && Resume(rig, e, after).incident.Some?
    && (after == [] || StaysOpen(rig, e, after[..|after| - 1]))
  }

  /** The open incident sums up what was shown when it opened and all frames since. */
  predicate Summarised(rig: Rig, e: Engine, opening: Observation, id: string, shown: seq<Detection>, after: seq<Input>)
    requires rig.Valid() && e.Valid()
  {
    var i, later := Resume(rig, e, after).incident, Frames(rig, after);
    i.Some? && SumsUp(i.value, rig, opening, id, shown + AllDetections(later), later)
  }

  lemma {:induction false} StaysSummarised(rig: Rig, e: Engine, opening: Observation, id: string,
                                           shown: seq<Detection>, after: seq<Input>)
    requires rig.Valid() && e.Valid() && e.incident.Some? && StaysOpen(rig, e, after)
    requires SumsUp(e.incident.value, rig, opening, id, shown, [])
    ensures Summarised(rig, e, opening, id, shown, after)
  {
    if after == [] {
      assert shown + AllDetections([]) == shown;
    } else {
      StaysSummarised(rig, e, opening, id, shown, after[..|after| - 1]);
      LaterSummary(rig, e, after, opening, id, shown);
    }
  }

  lemma LaterSummary(rig: Rig, e: Engine, after: seq<Input>, opening: Observation, id: string, shown: seq<Detection>)
    requires rig.Valid() && e.Valid() && after != []
    requires Summarised(rig, e, opening, id, shown, after[..|after| - 1])
    requires Resume(rig, e, after).incident.Some?
    ensures Summarised(rig, e, opening, id, shown, after)
  {
    var front, last := after[..|after| - 1], after[|after| - 1];
    var later := Frames(rig, front);
    NextFrameSumsUp(rig, Resume(rig, e, front), last, Resume(rig, e, after).incident, opening, id,
                    shown + AllDetections(later), later);
    DetectionsSnoc(later, Filter(rig, last.result));
    Associate(shown, AllDetections(later), Filter(rig, last.result).detections);
  }

  /** For as long as it is open, an incident's labels, peak and envelope are the union,
      the maximum and the least box of every detection in the window it opened on and in
      all later frames, and it remembers the last hit. */
  lemma OpenIncidentSumsUp(rig: Rig, before: seq<Input>, opening: Input, after: seq<Input>)
    requires rig.Valid() && opening.Frame?
    requires Emits(NewEvents(rig, before, opening), Opened)
    requires StaysOpen(rig, Run(rig, before + [opening]).engine, after)
    ensures Summarised(rig, Run(rig, before + [opening]).engine, Filter(rig, opening.result), opening.id,
                       AllDetections(LastN(Frames(rig, before + [opening]), rig.capacity)), after)
  {
    RunSnoc(rig, before, opening);
    OpeningFrameSumsUp(rig, before, opening);
    StaysSummarised(rig, Run(rig, before + [opening]).engine, Filter(rig, opening.result), opening.id,
                    AllDetections(LastN(Frames(rig, before + [opening]), rig.capacity)), after);
  }

  lemma DetectionsSnoc(frames: seq<Observation>, obs: Observation)
    ensures AllDetections(frames + [obs]) == AllDetections(frames) + obs.detections
  {}

  lemma Associate(a: seq<Detection>, b: seq<Detection>, c: seq<Detection>)
    ensures a + (b + c) == a + b + c
  {}

  lemma OpeningFrameSumsUp(rig: Rig, before: seq<Input>, opening: Input)
    requires rig.Valid() && opening.Frame?
    requires Emits(NewEvents(rig, before, opening), Opened)
    ensures var e := Step(rig, Run(rig, before).engine, opening).0;
            e.incident.Some? &&
            SumsUp(e.incident.value, rig, Filter(rig, opening.result), opening.id,
                   AllDetections(LastN(Frames(rig, before + [opening]), rig.capacity)), [])
  {
    var e := Run(rig, before).engine;
    var obs := Filter(rig, opening.result);
    WindowIsLastFrames(rig, before);
    PushIsLastN(Frames(rig, before), obs, rig.capacity);
    RunSnoc(rig, before, opening);
    OpensUnconfirmed(rig, e, obs, opening.id);
    OpeningSumsUp(rig, Intake(rig, e, obs), obs, opening.id);
  }

  /** Only a camera with no open incident opens one. */
  lemma OpensUnconfirmed(rig: Rig, e: Engine, obs: Observation, id: string)
    requires rig.Valid() && e.Valid()
    ensures e.incident.Some? ==> !Emits(ObserveConfirmed(rig, Intake(rig, e, obs), obs).1, Opened)
  {}

  lemma NextFrameSumsUp(rig: Rig, e: Engine, input: Input, i: Option<Incident>, opening: Observation, id: string,
                        seen: seq<Detection>, later: seq<Observation>)
    requires rig.Valid() && e.Valid() && e.incident.Some?
    requires SumsUp(e.incident.value, rig, opening, id, seen, later)
    requires Step(rig, e, input).0.incident == i && i.Some?
    ensures input.Frame?
    ensures var obs := Filter(rig, input.result);
            SumsUp(i.value, rig, opening, id, seen + obs.detections, later + [obs])
  {
    if input.Frame? {
      var obs := Filter(rig, input.result);
      StaysSummedUp(rig, Intake(rig, e, obs), obs, opening, id, seen, later);
    }
  }

  /** Fire is among the labels of an incident exactly if some detection it has seen was fire, and so
      for every label. */
  lemma LabelsSeen(i: Incident, rig: Rig, opening: Observation, id: string, seen: seq<Detection>,
                   later: seq<Observation>, kind: Label)
    requires SumsUp(i, rig, opening, id, seen, later)
    ensures kind in i.labels <==> exists d :: d in seen && d.kind == kind
  {
    LabelsMeaning(seen, kind);
  }

  /** What an event carries: the frame it comes with, and the incident as the engine then holds it,
      or held it and with the time of closing if it closes. */
  lemma EventsCarryTheRecord(rig: Rig, e: Engine, input: Input)
    requires rig.Valid() && e.Valid() && Step(rig, e, input).1 != []
    ensures var (n, events) := Step(rig, e, input);
            var ev := events[0];
            && ev.severity == ev.incident.severity && ev.labels == ev.incident.labels
            && (input.Frame? ==> ev.observation == Filter(rig, input.result))
            && (input.OperatorCancel? && e.window != [] ==> ev.observation == e.window[|e.window| - 1])
            && (ev.kind != Closed ==> n.incident == Some(ev.incident))
            && (ev.kind == Closed ==> e.incident.Some? && ev.incident == e.incident.value.(closedWall := Some(
                  if input.OperatorCancel? && e.window == [] then e.incident.value.openedWall
                  else ev.observation.wallTs)))
  {}

  /** The number of frames an incident was confirmed on is that of the hits in the window. */
  lemma OpeningCounts(rig: Rig, e: Engine, input: Input)
    requires rig.Valid() && e.Valid() && Emits(Step(rig, e, input).1, Opened)
    ensures var n := Step(rig, e, input).0;
            && n.incident.Some? && n.incident.value.framesConfirmed == |Hits(n.window)|
            && n.incident.value.closedWall == None
  {}

  /** An open incident clears on exactly the quiet frame that comes at least clearAfter
      after the later of its opening and its last hit. */
  lemma ClearsExactlyWhen(rig: Rig, before: seq<Input>, opening: Input, after: seq<Input>, next: Input)
    requires rig.Valid() && opening.Frame? && next.Frame?
    requires Emits(NewEvents(rig, before, opening), Opened)
    requires StaysOpen(rig, Run(rig, before + [opening]).engine, after)
    ensures var obs, since := Filter(rig, next.result), LastHit(Filter(rig, opening.result).ts, Frames(rig, after));
            Emits(NewEvents(rig, before + [opening] + after, next), Closed) <==>
            !obs.Hit() && obs.ts - since >= rig.camera.confirm.clearAfter
  {
    OpenIncidentSumsUp(rig, before, opening, after);
    RunConcat(rig, before + [opening], after);
    var e := Resume(rig, Run(rig, before + [opening]).engine, after);
    var obs := Filter(rig, next.result);
    ClosesWhen(rig, Intake(rig, e, obs), obs);
  }

  lemma ClosesWhen(rig: Rig, e: Engine, obs: Observation)
    requires rig.Valid() && e.incident.Some?
    ensures Emits(ObserveConfirmed(rig, e, obs).1, Closed) <==>
            !obs.Hit() && obs.ts - e.incident.value.lastHitTs >= rig.camera.confirm.clearAfter
  {}

  /** LastHit is the opening or the time of a hit, and on timely frames no hit is later. */
  lemma {:induction false} LastHitIsLast(since: real, frames: seq<Observation>)
    requires Timely(frames) && forall k :: 0 <= k < |frames| ==> since <= frames[k].ts
    ensures LastHit(since, frames) >= since
    ensures forall k :: 0 <= k < |frames| && frames[k].Hit() ==> frames[k].ts <= LastHit(since, frames)
    ensures LastHit(since, frames) == since ||
            exists k :: 0 <= k < |frames| && frames[k].Hit() && frames[k].ts == LastHit(since, frames)
  {
    if frames != [] && !frames[|frames| - 1].Hit() {
      LastHitIsLast(since, frames[..|frames| - 1]);
      assert forall k :: 0 <= k < |frames| - 1 ==> frames[..|frames| - 1][k] == frames[k];
    }
  }
}
