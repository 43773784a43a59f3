/** Concrete sites on which a new configuration does harm (firemex/incident/engine.py,
    IncidentEngine). */
module SiteExamples {
  import opened Geometry
  import opened Zones
  import opened Confirmation
  import opened Histories
  import opened Lifecycle
  import opened Openings
  import opened Windows
  import opened Fleet
  import opened SiteRuns
  import opened SiteWindows
  import opened SiteMasks

  // ---- a site of one camera ------------------------------------------------

  const SWIFT := ConfirmConfig(1, 1, 0.0, 1, false, 0.0, 1.0, 0.0, 1.0)

  const PATIENT := SWIFT.(framesRequired := 2, window := 2)

  const TWEAKED := SWIFT.(clearAfter := 2.0)

  function Tuned(confirm: ConfirmConfig): CameraConfig {
    CameraConfig("", ClassThresholds(0.0, 0.0), ClassThresholds(0.0, 0.0), confirm, [], "")
  }

  const BLAZE := Detection(Fire, 1.0, Corners(0.0, 0.0, 1.0, 1.0))

  function Shown(id: string): Input {
    Frame(Still(BLAZE, false), id)
  }

  predicate LetsThrough(rig: Rig, d: Detection) {
    rig.Valid() && Rejection(rig, false, d) == None && d.box.Area() > 0.0
  }

  /** The first input opens an incident. */
  predicate OpensAtOnce(c: CameraConfig, input: Input)
    requires c.Valid()
  {
    Step(MakeRig(c), FRESH, input).0.incident.Some?
  }

  lemma BlazeOpens(camera: CameraConfig, shown: Input, id: string)
    requires camera.SameTuning(Tuned(SWIFT)) || camera.SameTuning(Tuned(TWEAKED))
    requires shown == Shown(id)
    ensures OpensAtOnce(camera, shown)
  {
    var rig := MakeRig(camera);
    StillFireOpens(rig, FRESH, BLAZE, false, id);
    StepFollows(rig, FRESH, shown, Quiet);
  }

  /** From no cameras the acts lead to these seats, with these events on the camera; `whole`
      says that they never drop an incident of it. */
  predicate Reaches(acts: seq<Act>, f: Seats, kinds: seq<EventKind>, whole: bool) {
    && AllSound(acts) && RunActs(map[], acts).seats == f
    && Kinds(EventsOf(RunActs(map[], acts).log, "")) == kinds
    && NeverDropped(map[], acts, "") == whole
  }

  /** What one act does to the site. */
  predicate Does(f: Seats, act: Act, g: Seats, kinds: seq<EventKind>)
    requires AllValid(f) && (act.Configure? ==> Sound(act.incoming))
  {
    Perform(f, act).seats == g && Kinds(EventsOf(Perform(f, act).log, "")) == kinds
  }

  lemma ReachesNothing()
    ensures Reaches([], map[], [], true)
  {}

  lemma ReachesNext(acts: seq<Act>, f: Seats, kinds: seq<EventKind>, whole: bool, act: Act, g: Seats,
                    more: seq<EventKind>, all: seq<EventKind>)
    requires AllValid(f) && Reaches(acts, f, kinds, whole) && |more| <= 1 && all == kinds + more
    requires (act.Configure? ==> Sound(act.incoming)) && Does(f, act, g, more)
    ensures Reaches(acts + [act], g, all, whole && !Drops(f, act, ""))
  {
    assert (acts + [act])[..|acts + [act]| - 1] == acts;
    LastEvents(map[], acts + [act], "");
    KindsSnoc(EventsOf(RunActs(map[], acts).log, ""), EventsOf(Perform(f, act).log, ""));
  }

  function Alone(rig: Rig, e: Engine): Seats {
    map["" := Seat(rig, e)]
  }

  lemma EventsOfTagged(id: string, events: seq<Event>)
    requires |events| <= 1
    ensures EventsOf(TagAll(id, events), id) == events
  {
    EventsOfSnoc([], id, events, id);
    assert [] + TagAll(id, events) == TagAll(id, events);
  }

  lemma AloneStill(rig: Rig, e: Engine, next: Engine)
    ensures Alone(rig, e)["" := Seat(rig, next)] == Alone(rig, next)
  {}

  lemma FeedDoes(rig: Rig, e: Engine, input: Input)
    requires rig.Valid() && e.Valid() && rig.camera.id == ""
    ensures var r := Step(rig, e, input);
            Does(Alone(rig, e), Feed(Routed("", input)), Alone(rig, r.0), Kinds(r.1))
  {
    var r := Step(rig, e, input);
    AloneStill(rig, e, r.0);
    assert Route(Alone(rig, e), Routed("", input)) == SiteTrace(Alone(rig, r.0), TagAll("", r.1));
    EventsOfTagged("", r.1);
  }

  /** A camera without an incident gets a new engine for another configuration. */
  lemma ConfigureDoes(f: Seats, c: CameraConfig)
    requires AllValid(f) && c.Valid() && c.id == ""
    requires "" in f ==> f[""].engine.incident.None? && f[""].rig.camera != c
    ensures Does(f, Configure(map["" := c]), Alone(MakeRig(c), FRESH), [])
  {
    assert Reconfigured(f, map["" := c]) == Alone(MakeRig(c), FRESH);
  }

  lemma EmptyDoes(f: Seats)
    requires AllValid(f)
    ensures Does(f, Configure(map[]), map[], [])
  {
    assert Reconfigured(f, map[]) == map[];
  }

  lemma FirstEvent(c: CameraConfig, input: Input)
    requires c.Valid() && OpensAtOnce(c, input)
    ensures Kinds(Step(MakeRig(c), FRESH, input).1) == [Opened]
  {
    var events := Step(MakeRig(c), FRESH, input).1;
    StepFollows(MakeRig(c), FRESH, input, Quiet);
    assert events != [] && events[0].kind == Opened;
    OneKind(events);
  }

  lemma OneKind(events: seq<Event>)
    requires |events| == 1
    ensures Kinds(events) == [events[0].kind]
  {}

  function Opening(c: CameraConfig, input: Input): (e: Engine)
    requires c.Valid()
    ensures e.Valid()
  {
    Step(MakeRig(c), FRESH, input).0
  }

  lemma ReachesAnew(acts: seq<Act>, f: Seats, kinds: seq<EventKind>, whole: bool, c: CameraConfig)
    requires AllValid(f) && Reaches(acts, f, kinds, whole) && c.Valid() && c.id == ""
    requires "" in f ==> f[""].engine.incident.None? && f[""].rig.camera != c
    ensures Reaches(acts + [Configure(map["" := c])], Alone(MakeRig(c), FRESH), kinds, whole)
  {
    ConfigureDoes(f, c);
    ReachesNext(acts, f, kinds, whole, Configure(map["" := c]), Alone(MakeRig(c), FRESH), [], kinds);
  }

  lemma ReachesFirst(acts: seq<Act>, kinds: seq<EventKind>, whole: bool, c: CameraConfig, input: Input,
                     all: seq<EventKind>)
    requires c.Valid() && c.id == "" && OpensAtOnce(c, input)
    requires Reaches(acts, Alone(MakeRig(c), FRESH), kinds, whole) && all == kinds + [Opened]
    ensures Reaches(acts + [Feed(Routed("", input))], Alone(MakeRig(c), Opening(c, input)), all, whole)
  {
    var rig := MakeRig(c);
    FirstEvent(c, input);
    FeedDoes(rig, FRESH, input);
    ReachesNext(acts, Alone(rig, FRESH), kinds, whole, Feed(Routed("", input)), Alone(rig, Opening(c, input)), [Opened],
                all);
  }

  /** The camera, new or without an incident and configured otherwise, is configured and shown a
      frame that opens an incident. */
  lemma ReachesOpening(acts: seq<Act>, f: Seats, kinds: seq<EventKind>, whole: bool, c: CameraConfig, input: Input,
                       all: seq<EventKind>)
    requires AllValid(f) && Reaches(acts, f, kinds, whole) && all == kinds + [Opened]
    requires c.Valid() && c.id == "" && OpensAtOnce(c, input)
    requires "" in f ==> f[""].engine.incident.None? && f[""].rig.camera != c
    ensures Reaches(acts + [Configure(map["" := c])] + [Feed(Routed("", input))],
                    Alone(MakeRig(c), Opening(c, input)), all, whole)
  {
    ReachesAnew(acts, f, kinds, whole, c);
    ReachesFirst(acts + [Configure(map["" := c])], kinds, whole, c, input, all);
  }

  function Once(c: CameraConfig, input: Input): seq<Act> {
    [] + [Configure(map["" := c])] + [Feed(Routed("", input))]
  }

  lemma ReachesOnce(c: CameraConfig, input: Input)
    requires c.Valid() && c.id == "" && OpensAtOnce(c, input)
    ensures Reaches(Once(c, input), Alone(MakeRig(c), Opening(c, input)), [Opened], true)
  {
    ReachesNothing();
    ReachesOpening([], map[], [], true, c, input, [Opened]);
  }

  // ---- a camera blinded by a swap ------------------------------------------

  /** The engine, which has an incident open, is kept under the next configuration and never opens
      another. */
  ghost predicate Blinds(rig: Rig, e: Engine, next: CameraConfig)
    requires rig.Valid() && e.Valid() && next.Valid()
  {
    && e.incident.Some? && Reconfigured(Alone(rig, e), map["" := next]) == Alone(rig.(camera := next), e)
    && !CanOpen(rig.(camera := next), e)
  }

  lemma SwapBlinds(rig: Rig, e: Engine, next: CameraConfig, d: Detection)
    requires rig.Valid() && Fits(rig, e) && e.incident.Some? && next.Valid() && next != rig.camera
    requires rig.capacity < next.confirm.framesRequired && LetsThrough(rig.(camera := next), d)
    ensures Blinds(rig, e, next)
  {
    OpensAgainExactlyWhen(rig.(camera := next), e, d, false);
    assert Reconfigured(Alone(rig, e), map["" := next]) == Alone(rig.(camera := next), e);
  }

  /** A rig without zones and thresholds lets the blaze through. */
  lemma BlazeCounts(rig: Rig)
    requires rig.Valid() && rig.mask.zones == [] && rig.camera == Tuned(PATIENT)
    ensures LetsThrough(rig, BLAZE)
  {}

  lemma BlazeBlinds(swift: CameraConfig, shown: Input, patient: CameraConfig)
    requires swift == Tuned(SWIFT) && shown == Shown("a") && patient == Tuned(PATIENT)
    ensures Reaches(Once(swift, shown), Alone(MakeRig(swift), Opening(swift, shown)), [Opened], true)
    ensures Blinds(MakeRig(swift), Opening(swift, shown), patient) && CanOpen(MakeRig(patient), FRESH)
  {
    BlazeOpens(swift, shown, "a");
    ReachesOnce(swift, shown);
    StepFits(MakeRig(swift), FRESH, shown);
    BlazeCounts(MakeRig(swift).(camera := patient));
    BlazeCounts(MakeRig(patient));
    SwapBlinds(MakeRig(swift), Opening(swift, shown), patient, BLAZE);
    OpensAgainExactlyWhen(MakeRig(patient), FRESH, BLAZE, false);
  }

  /** One frame of fire opens an incident.  The camera is then told to require two frames,
      and nothing is ever opened again, although a new engine for that configuration would. */
  lemma BlindedBySwap()
    ensures var rig, e := MakeRig(Tuned(SWIFT)), Opening(Tuned(SWIFT), Shown("a"));
            && Reaches(Once(Tuned(SWIFT), Shown("a")), Alone(rig, e), [Opened], true)
            && Blinds(rig, e, Tuned(PATIENT)) && CanOpen(MakeRig(Tuned(PATIENT)), FRESH)
  {
    BlazeBlinds(Tuned(SWIFT), Shown("a"), Tuned(PATIENT));
  }

  // ---- an incident dropped -------------------------------------------------

  /** The camera opens an incident, is left out, comes back and opens another. */
  function Twice(c: CameraConfig, first: Input, second: Input): seq<Act> {
    Once(c, first) + [Configure(map[])] + [Configure(map["" := c])] + [Feed(Routed("", second))]
  }

  lemma ReachesNone(c: CameraConfig, first: Input)
    requires c.Valid() && c.id == "" && OpensAtOnce(c, first)
    ensures Reaches(Once(c, first) + [Configure(map[])], map[], [Opened], false)
  {
    var f := Alone(MakeRig(c), Opening(c, first));
    ReachesOnce(c, first);
    EmptyDoes(f);
    ReachesNext(Once(c, first), f, [Opened], true, Configure(map[]), map[], [], [Opened]);
  }

  lemma ReachesTwice(c: CameraConfig, first: Input, second: Input)
    requires c.Valid() && c.id == "" && OpensAtOnce(c, first) && OpensAtOnce(c, second)
    ensures Reaches(Twice(c, first, second), Alone(MakeRig(c), Opening(c, second)), [Opened, Opened], false)
  {
    ReachesNone(c, first);
    ReachesOpening(Once(c, first) + [Configure(map[])], map[], [Opened], false, c, second, [Opened, Opened]);
  }

  lemma BlazeDropped(swift: CameraConfig, first: Input, second: Input)
    requires swift == Tuned(SWIFT) && first == Shown("a") && second == Shown("b")
    ensures Reaches(Twice(swift, first, second), Alone(MakeRig(swift), Opening(swift, second)), [Opened, Opened], false)
  {
    BlazeOpens(swift, first, "a");
    BlazeOpens(swift, second, "b");
    ReachesTwice(swift, first, second);
  }

  /** A camera opens an incident, is left out of the configuration and listed again, and opens
      another: two openings without a closing in between. */
  lemma OpenedTwice()
    ensures Reaches(Twice(Tuned(SWIFT), Shown("a"), Shown("b")),
                    Alone(MakeRig(Tuned(SWIFT)), Opening(Tuned(SWIFT), Shown("b"))), [Opened, Opened], false)
  {
    BlazeDropped(Tuned(SWIFT), Shown("a"), Shown("b"));
  }

  // ---- a silence lost ------------------------------------------------------

  /** The camera opens an incident, an operator cancels it, the configuration changes, and the next
      frame opens another. */
  function Retuned(c: CameraConfig, first: Input, next: CameraConfig, second: Input): seq<Act> {
    Once(c, first) + [Feed(Routed("", OperatorCancel))] + [Configure(map["" := next])] + [Feed(Routed("", second))]
  }

  lemma CancelCloses(rig: Rig, e: Engine)
    requires rig.Valid() && e.Valid() && e.incident.Some?
    ensures Kinds(Step(rig, e, OperatorCancel).1) == [Closed]
    ensures var r := Step(rig, e, OperatorCancel).0;
            r.incident.None? && r.suppressed
  {}

  lemma ReachesCancel(acts: seq<Act>, rig: Rig, e: Engine, kinds: seq<EventKind>, whole: bool, all: seq<EventKind>)
    returns (silenced: Engine)
    requires rig.Valid() && rig.camera.id == "" && e.Valid() && e.incident.Some?
    requires Reaches(acts, Alone(rig, e), kinds, whole) && all == kinds + [Closed]
    ensures silenced.Valid() && silenced.incident.None? && silenced.suppressed
    ensures Reaches(acts + [Feed(Routed("", OperatorCancel))], Alone(rig, silenced), all, whole)
  {
    silenced := Step(rig, e, OperatorCancel).0;
    CancelCloses(rig, e);
    FeedDoes(rig, e, OperatorCancel);
    ReachesNext(acts, Alone(rig, e), kinds, whole, Feed(Routed("", OperatorCancel)), Alone(rig, silenced), [Closed],
                all);
  }

  lemma ReachesSilence(c: CameraConfig, first: Input) returns (e: Engine)
    requires c.Valid() && c.id == "" && OpensAtOnce(c, first)
    ensures e.Valid() && e.incident.None? && e.suppressed
    ensures Reaches(Once(c, first) + [Feed(Routed("", OperatorCancel))], Alone(MakeRig(c), e), [Opened, Closed], true)
  {
    ReachesOnce(c, first);
    e := ReachesCancel(Once(c, first), MakeRig(c), Opening(c, first), [Opened], true, [Opened, Closed]);
  }

  lemma ReachesRetuned(c: CameraConfig, first: Input, next: CameraConfig, second: Input)
    requires c.Valid() && c.id == "" && next.Valid() && next.id == "" && next != c
    requires OpensAtOnce(c, first) && OpensAtOnce(next, second)
    ensures Reaches(Retuned(c, first, next, second), Alone(MakeRig(next), Opening(next, second)),
                    [Opened, Closed, Opened], true)
  {
    var e := ReachesSilence(c, first);
    ThreeEvents();
    ReachesOpening(Once(c, first) + [Feed(Routed("", OperatorCancel))], Alone(MakeRig(c), e), [Opened, Closed], true,
                   next, second, [Opened, Closed] + [Opened]);
  }

  lemma ThreeEvents()
    ensures [Opened, Closed] + [Opened] == [Opened, Closed, Opened]
  {}

  /** The blaze, and a second camera configuration that differs in name or in tuning. */
  lemma BlazeReopens(swift: CameraConfig, first: Input, other: CameraConfig, second: Input)
    requires swift == Tuned(SWIFT) && first == Shown("a") && second == Shown("b")
    requires other == Tuned(TWEAKED) || (other.SameTuning(swift) && other != swift)
    ensures Reaches(Retuned(swift, first, other, second), Alone(MakeRig(other), Opening(other, second)),
                    [Opened, Closed, Opened], true)
  {
    BlazeOpens(swift, first, "a");
    BlazeOpens(other, second, "b");
    ReachesRetuned(swift, first, other, second);
  }

  /** A change of tuning after a cancel ends the silence: the very next frame opens another
      incident, with no quiet frame in between. */
  lemma ReopenedAfterCancel()
    ensures Reaches(Retuned(Tuned(SWIFT), Shown("a"), Tuned(TWEAKED), Shown("b")),
                    Alone(MakeRig(Tuned(TWEAKED)), Opening(Tuned(TWEAKED), Shown("b"))), [Opened, Closed, Opened], true)
  {
    BlazeReopens(Tuned(SWIFT), Shown("a"), Tuned(TWEAKED), Shown("b"));
  }

  /** So does a new name, although no rule reads it. */
  lemma ReopenedAfterRename(name: string)
    requires name != ""
    ensures var renamed := Tuned(SWIFT).(rest := name);
            && Tuned(SWIFT).SameTuning(renamed)
            && Reaches(Retuned(Tuned(SWIFT), Shown("a"), renamed, Shown("b")),
                       Alone(MakeRig(renamed), Opening(renamed, Shown("b"))), [Opened, Closed, Opened], true)
  {
    BlazeReopens(Tuned(SWIFT), Shown("a"), Tuned(SWIFT).(rest := name), Shown("b"));
  }

  // ---- a zone ignored ------------------------------------------------------

  /** A zone over the whole frame. */
  const COVERED: CameraConfig := Tuned(SWIFT).(excludeZones := [Rectangle(BLAZE.box)])

  const DARK := Frame(FrameResult("", 1.0, 1.0, [], false), "")

  /** The camera opens an incident, a zone is drawn, the incident clears, and the next frame
      opens another. */
  function Zoned(c: CameraConfig, first: Input, zoned: CameraConfig, dark: Input, second: Input): seq<Act> {
    Once(c, first) + [Configure(map["" := zoned])] + [Feed(Routed("", dark))] + [Feed(Routed("", second))]
  }

  lemma SwapDoes(rig: Rig, e: Engine, next: CameraConfig)
    requires rig.Valid() && rig.camera.id == "" && e.Valid() && e.incident.Some? && next.Valid() && next.id == ""
    ensures Does(Alone(rig, e), Configure(map["" := next]), Alone(rig.(camera := next), e), [])
  {
    assert Reconfigured(Alone(rig, e), map["" := next]) == Alone(rig.(camera := next), e);
  }

  lemma ReachesFed(acts: seq<Act>, rig: Rig, e: Engine, kinds: seq<EventKind>, input: Input, kind: EventKind,
                   all: seq<EventKind>)
    requires rig.Valid() && rig.camera.id == "" && e.Valid() && Reaches(acts, Alone(rig, e), kinds, true)
    requires Kinds(Step(rig, e, input).1) == [kind] && all == kinds + [kind]
    ensures Reaches(acts + [Feed(Routed("", input))], Alone(rig, Step(rig, e, input).0), all, true)
  {
    FeedDoes(rig, e, input);
    ReachesNext(acts, Alone(rig, e), kinds, true, Feed(Routed("", input)), Alone(rig, Step(rig, e, input).0), [kind],
                all);
  }

  lemma ReachesSwapped(c: CameraConfig, first: Input, zoned: CameraConfig)
    requires c.Valid() && c.id == "" && zoned.Valid() && zoned.id == "" && OpensAtOnce(c, first)
    ensures Reaches(Once(c, first) + [Configure(map["" := zoned])],
                    Alone(MakeRig(c).(camera := zoned), Opening(c, first)), [Opened], true)
  {
    var rig, e := MakeRig(c), Opening(c, first);
    ReachesOnce(c, first);
    SwapDoes(rig, e, zoned);
    ReachesNext(Once(c, first), Alone(rig, e), [Opened], true, Configure(map["" := zoned]),
                Alone(rig.(camera := zoned), e), [], [Opened]);
  }

  /** The input closes the incident and leaves the engine at rest. */
  predicate ClosesToRest(rig: Rig, e: Engine, input: Input)
    requires rig.Valid() && e.Valid()
  {
    Kinds(Step(rig, e, input).1) == [Closed] && Resting(rig, Step(rig, e, input).0)
  }

  /** An incident last hit at time 0 clears on the dark frame. */
  lemma DarkCloses(rig: Rig, e: Engine, dark: Input)
    requires rig.Valid() && Fits(rig, e) && rig.capacity == 1 && rig.camera.confirm.clearAfter <= 1.0
    requires e.incident.Some? && e.incident.value.lastHitTs == 0.0 && !e.suppressed && dark == DARK
    ensures ClosesToRest(rig, e, dark)
  {
    var obs := Observation(1.0, 1.0, []);
    assert Filter(rig, dark.result) == obs;
    ClosesWhen(rig, Intake(rig, e, obs), obs);
    StepFits(rig, e, dark);
    var r := Step(rig, e, dark);
    OneKind(r.1);
    NoHitAtAll([obs]);
    assert r.0.window == [obs] && Resting(rig, r.0);
    assert Kinds(r.1) == [Closed];
  }

  /** From rest one blaze opens an incident. */
  lemma BlazeOpensAgain(rig: Rig, e: Engine, second: Input, id: string)
    requires rig.Valid() && Resting(rig, e) && rig.camera.confirm.framesRequired == 1
    requires LetsThrough(rig, BLAZE) && second == Shown(id)
    ensures Kinds(Step(rig, e, second).1) == [Opened]
  {
    StillFireOpens(rig, e, BLAZE, false, id);
    OneKind(Step(rig, e, second).1);
  }

  /** The last of three events is an opening on a detection that lies in a configured zone. */
  predicate Ignores(acts: seq<Act>) {
    && AllSound(acts) && Kinds(EventsOf(RunActs(map[], acts).log, "")) == [Opened, Closed, Opened]
    && KeptInZone(RunActs(map[], acts).seats, "", false, BLAZE)
  }

  lemma ReachesZoned(c: CameraConfig, first: Input, zoned: CameraConfig, dark: Input, second: Input, id: string)
    requires c.Valid() && c.id == "" && c.confirm.window == 1 && OpensAtOnce(c, first)
    requires zoned.Valid() && zoned.id == "" && zoned.confirm.framesRequired == 1 && zoned.confirm.clearAfter <= 1.0
    requires LetsThrough(MakeRig(c).(camera := zoned), BLAZE) && MaskOf(zoned).Excludes(BLAZE.box)
    requires Opening(c, first).incident.value.lastHitTs == 0.0 && !Opening(c, first).suppressed
    requires dark == DARK && second == Shown(id)
    ensures Ignores(Zoned(c, first, zoned, dark, second))
  {
    var rig, e := MakeRig(c).(camera := zoned), Opening(c, first);
    StepFits(MakeRig(c), FRESH, first);
    ReachesSwapped(c, first, zoned);
    DarkCloses(rig, e, dark);
    ReachesAgain(Once(c, first) + [Configure(map["" := zoned])], rig, e, dark, second, id);
  }

  lemma ReachesDark(acts: seq<Act>, rig: Rig, e: Engine, dark: Input) returns (next: Engine)
    requires rig.Valid() && rig.camera.id == "" && e.Valid() && ClosesToRest(rig, e, dark)
    requires Reaches(acts, Alone(rig, e), [Opened], true)
    ensures Resting(rig, next)
    ensures Reaches(acts + [Feed(Routed("", dark))], Alone(rig, next), [Opened, Closed], true)
  {
    next := Step(rig, e, dark).0;
    ReachesFed(acts, rig, e, [Opened], dark, Closed, [Opened, Closed]);
  }

  lemma ReachesAgain(acts: seq<Act>, rig: Rig, e: Engine, dark: Input, second: Input, id: string)
    requires rig.Valid() && rig.camera.id == "" && e.Valid() && ClosesToRest(rig, e, dark)
    requires rig.camera.confirm.framesRequired == 1
    requires Reaches(acts, Alone(rig, e), [Opened], true) && second == Shown(id)
    requires LetsThrough(rig, BLAZE) && MaskOf(rig.camera).Excludes(BLAZE.box)
    ensures Ignores(acts + [Feed(Routed("", dark))] + [Feed(Routed("", second))])
  {
    var next := ReachesDark(acts, rig, e, dark);
    ReachesLast(acts + [Feed(Routed("", dark))], rig, next, second, id);
  }

  lemma ReachesLast(acts: seq<Act>, rig: Rig, e: Engine, second: Input, id: string)
    requires rig.Valid() && rig.camera.id == "" && Resting(rig, e) && rig.camera.confirm.framesRequired == 1
    requires Reaches(acts, Alone(rig, e), [Opened, Closed], true) && second == Shown(id)
    requires LetsThrough(rig, BLAZE) && MaskOf(rig.camera).Excludes(BLAZE.box)
    ensures Ignores(acts + [Feed(Routed("", second))])
  {
    BlazeOpensAgain(rig, e, second, id);
    ReachesFed(acts, rig, e, [Opened, Closed], second, Opened, [Opened, Closed, Opened]);
    IgnoresAtLast(acts + [Feed(Routed("", second))], rig, Step(rig, e, second).0);
  }

  lemma IgnoresAtLast(acts: seq<Act>, rig: Rig, e: Engine)
    requires rig.Valid() && rig.camera.id == "" && e.Valid()
    requires Reaches(acts, Alone(rig, e), [Opened, Closed, Opened], true)
    requires LetsThrough(rig, BLAZE) && MaskOf(rig.camera).Excludes(BLAZE.box)
    ensures Ignores(acts)
  {}

  lemma BlazeIncident(camera: CameraConfig, shown: Input)
    requires camera == Tuned(SWIFT) && shown == Shown("a") && OpensAtOnce(camera, shown)
    ensures Opening(camera, shown).incident.value.lastHitTs == 0.0 && !Opening(camera, shown).suppressed
  {
    StillIsHit(MakeRig(camera), BLAZE, false);
  }

  lemma CoveredCounts(rig: Rig)
    requires rig.Valid() && rig.mask.zones == [] && rig.camera == COVERED
    ensures LetsThrough(rig, BLAZE)
  {}

  lemma CoveredExcludes(zoned: CameraConfig)
    requires zoned == COVERED
    ensures MaskOf(zoned).Excludes(BLAZE.box)
  {
    ExcludedWithinRectangle(zoned.excludeZones, ZONE_OVERLAP, BLAZE.box, BLAZE.box);
  }

  lemma BlazeIgnored(swift: CameraConfig, first: Input, zoned: CameraConfig, dark: Input, second: Input)
    requires swift == Tuned(SWIFT) && first == Shown("a") && zoned == COVERED && dark == DARK && second == Shown("b")
    ensures Ignores(Zoned(swift, first, zoned, dark, second))
  {
    BlazeOpens(swift, first, "a");
    BlazeIncident(swift, first);
    CoveredCounts(MakeRig(swift).(camera := zoned));
    CoveredExcludes(zoned);
    ReachesZoned(swift, first, zoned, dark, second, "b");
  }

  /** A zone over the whole frame is drawn while an incident is open.  The incident clears, and
      the next frame opens another on a detection in the zone. */
  lemma ZoneIgnored()
    ensures Ignores(Zoned(Tuned(SWIFT), Shown("a"), COVERED, DARK, Shown("b")))
  {
    BlazeIgnored(Tuned(SWIFT), Shown("a"), COVERED, DARK, Shown("b"));
  }
}
