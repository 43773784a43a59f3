# FiremeX, verified

A Dafny model of the decisions in FiremeX that lie between a camera frame and a ringing
phone, and proofs of what they keep. Nothing here is compiled or executed; the verifier
checks every file with

    dafny verify dfyconfig.toml

## What is modelled

| file | component |
|---|---|
| `Geometry.dfy` | boxes, clipping, IoU (`firemex/detect/base.py`) |
| `Measures.dfy` | area of a union of boxes (`firemex/incident/engine.py`) |
| `Zones.dfy` | exclusion zones: ray casting and sampled overlap (`firemex/incident/zones.py`) |
| `Confirmation.dfy` | one camera's state machine as functions of its state (`firemex/incident/engine.py`) |
| `CameraEngine.dfy` | the same as the object it is, with fields updated in place |
| `Rules.dfy` | what the confirmation rules mean |
| `Histories.dfy` | runs over any history of frames and operator cancels |
| `Trends.dfy` | when shrinking areas keep an incident from opening and growing ones make it critical, told from the areas |
| `Lifecycle.dfy`, `Severities.dfy`, `Openings.dfy`, `Responses.dfy`, `Windows.dfy` | the order of events, what an incident sums up, what its severity says, when one opens and clears, the silence after a cancel, the answer to a steady fire, which engines can still open anything |
| `Fleet.dfy` | all cameras together: routing and reconfiguration |
| `SiteRuns.dfy`, `SiteIncidents.dfy`, `SiteWindows.dfy`, `Silences.dfy`, `SiteMasks.dfy`, `SiteExamples.dfy` | runs of a site in which both occur: the order of events, what incidents sum up, how severe they are and when they clear, which cameras go blind, the silence after a cancel, which zones are applied, and sites on which a new configuration does harm |
| `Escalation.dfy`, `EscalationLaws.dfy`, `EscalationWalks.dfy`, `EscalationRuns.dfy`, `EscalationCalm.dfy`, `EscalationWaits.dfy`, `EscalationLimits.dfy` | the escalation protocol against any outside world (`firemex/notify/dispatcher.py`): its steps, the walk over the chain, whole runs, when every send begins, and exactly where it does less than documented |
| `Dispatcher.dfy` | the same as loops over a run record and an acknowledgement bus |
| `Cooldown.dfy`, `Suppression.dfy` | the per-camera cooldown (`firemex/notify/base.py`), and the runs that ask for it |
| `Nms.dfy`, `Letterbox.dfy`, `Decoders.dfy` | suppression, the letterbox transform and both output decoders (`firemex/detect/onnx_backend.py`) |
| `Connectivity.dfy`, `Regions.dfy` | connected components of a grid by breadth-first search (`firemex/detect/stub.py`) |
| `Ingest.dfy` | sampling and the drop-oldest hand-off of frames (`firemex/ingest/worker.py`) |
| `Inference.dfy`, `Stranding.dfy` | the batching inference service (`firemex/detect/service.py`), and the callers it never answers |
| `Login.dfy` | the login throttle (`firemex/store.py`) |

How it is modelled:

- Where the source updates state in loops or objects there is a method or a class, and its
  `ensures` equates the result or the new state with a specification function. The main
  results are lemmas about those functions, over every input or every run.
- Floating-point numbers are reals. Whatever the source draws from outside is a parameter:
  the fresh id of an incident, clock readings, the order in which a sort leaves equal scores,
  whether a password is right.
- A camera's *rig* is its current configuration together with the zone mask and the window
  length fixed when its engine was built; `reconfigure` replaces only the first
  (`firemex/incident/engine.py:569-571`). The modules on one camera fix the rig; `SiteRuns.dfy`,
  `SiteIncidents.dfy` and `Silences.dfy` carry the event order, the summary of an open incident,
  its severity and clearing, the silence after a cancel and the distinctness of ids through the
  reconfigurations of a running site.
- The escalation run is atomic between awaits. Every await reads the next reply of a *tape*,
  an arbitrary infinite sequence: which acknowledgements arrived meanwhile, whether the
  awaited operation returned, raised or was cancelled, and its outcome. A theorem for all
  tapes is a theorem for all interleavings. Times in a run record are positions on the tape.
- The worker and the inference service are transition systems whose actions can be
  interleaved in any order. Fields that only record history (such as the frames evicted so
  far) are there to state conservation.

Where the code and its documentation differ, the model follows the code:

- The dispatcher is documented to stop the moment, or the instant, a human acknowledges
  (`firemex/notify/dispatcher.py:3-7`, `README.md:232`). It stops at its next check.
  `RingsAfterAcknowledgement` shows a first call placed after an acknowledgement, and
  `SendsLateExactlyWhen` gives the configurations in which some run begins a send after one:
  those in which nothing looks at the bus before the first send, before a call that follows a
  text or a failed call, or between the texts of two contacts. `OneMoreCall` bounds the calls
  that can still follow one: only repetitions of a call that failed.
- Without a voice channel (the supervisor always supplies both channels,
  `firemex/supervisor.py:184-192`, so this and the next point concern dispatchers built
  otherwise) it can even go on to a later contact, since a contact who is to be called answers
  "not acknowledged" whatever the bus says (`firemex/notify/dispatcher.py:288-291`). `CarriesOnExactlyWhen` gives the configurations in
  which some run does; in the others `NextContact` rules it out.
- For the same reason an acknowledged incident can end EXHAUSTED. `UnheardAcknowledgement` is
  such a run and `UnheardExactlyWhen` gives the configurations that have one.
- The cancel window is documented to come before the cooldown is asked for (`README.md:228-229`).
  The code asks first (`firemex/notify/dispatcher.py:209-234`), so an incident that is cancelled
  in the window still silences the next one: `CancelledInGrace` is such a run for every
  configuration with a window, `NobodyHears` the two incidents nobody hears of, and
  `InVainExactlyWhen` gives the configurations in which an alert can be spent without a send.
- The fill of a grid region is documented as the mean of the mask over its box
  (`firemex/detect/stub.py:31-32`). The code counts only the region's own cells;
  `FillIsMeanExactlyWhen` says when the two agree and `FillBelowMean` is a mask on which they
  do not.
- The raw decoder raises on a row of negative width or height, where the end-to-end decoder
  skips it. `OneBackwardRow` is such a row, and `RawFaultsExactlyWhen` tells from the rows
  given when it happens.
- `reconfigure` is documented to preserve the state of a camera whose tuning is unchanged
  (`firemex/incident/engine.py:558-559`). The guard compares the whole configuration
  (`firemex/incident/engine.py:568`), so a new name or contact builds a new engine:
  `StateKeptExactlyWhen` says when the state of such a camera is kept.
- A new engine has not been told of a cancel. The silence after one lasts through a configuration
  exactly if the camera keeps its whole configuration (`SilenceKeptExactlyWhen`): in
  `ReopenedAfterRename` the camera gets another name, in `ReopenedAfterCancel` another tuning, and
  the next frame opens another incident.
- A reconfiguration that swaps the configuration of a confirmed camera in place keeps the old
  window (`firemex/incident/engine.py:217-218`, `firemex/incident/engine.py:569-571`). If the new
  tuning requires more frames than fit in it, that engine opens no further incident under it:
  `BlindedBySwap` is a site on which this happens, `BlindedExactlyWhen` the exact condition at
  any moment of any run of a site, and by `RenamedSeesAgain` a new name cures it once the
  incident is over.
- The swap also keeps the old zone mask, and afterwards the configurations are equal, so a zone
  drawn while an incident is open is not applied. `KeptInZoneExactlyWhen` says at any moment
  which detections in a configured zone are kept, `KeptInZoneForever` for how long; in
  `ZoneIgnored` one of them opens an incident.
- A reconfiguration that no longer lists a camera drops its engine and with it an open
  incident, without a closing event (`firemex/incident/engine.py:561-563`). Events and engine
  agree exactly as long as that does not happen (`EventsInOrderExactlyWhen`), and their order is
  broken exactly if the camera speaks again (`EventGrammarExactlyWhen`); `OpenedTwice` is a site
  with two openings in a row.
- Results are paired with jobs without a check of their number, and what the pairing raises is
  not caught (`firemex/detect/service.py:134-147`). A caller whose job is left out is never
  answered, and neither is anybody once the loop has died: `StrandedExactlyWhen`,
  `StrandedForever` and `DeadForever` say when and for how long, `OneResultForTwo` and
  `NoResultForAnybody` are such runs.

## Model

| member | source | states |
|---|---|---|
| Geometry.UnionIsLeast | firemex/detect/base.py:99-105 | the union of two boxes is the least box that contains both |
| Geometry.IouLaws | firemex/detect/base.py:108-116 | IoU is symmetric, in [0, 1], positive exactly when the interiors meet, and 1 exactly on equal boxes of positive area |
| Geometry.MeetArea | firemex/detect/base.py:110-114 | the intersection term of IoU is the area of the common box, at most either area |
| Geometry.ClippedLaws | firemex/detect/base.py:83-89 | clipping lands in the unit square, changes nothing inside it, and is idempotent |
| Geometry.ClippedIsCommon | firemex/detect/base.py:83-89 | a box that meets the unit square is cut down to exactly the points they have in common |
| Measures.UnionArea | firemex/incident/engine.py:170-189 | the computation with its shortcuts for no box and one box returns the measure of the union (inclusion and exclusion, no grid) on every list of boxes |
| Measures.GridTotal | firemex/incident/engine.py:180-189 | the nested loops over cells tested at their centres add up to that measure |
| Measures.GridSum | firemex/incident/engine.py:180-189 | every grid that carries the edges of the boxes gives the same sum |
| Measures.CentreTest | firemex/incident/engine.py:185-187 | any interior point of a cell decides the whole cell, with or without box edges |
| Measures.MeasureMonotone | firemex/incident/engine.py:170-189 | covering at least the same points gives at least the same area |
| Measures.SameRegion | firemex/incident/engine.py:170-189 | the area depends only on the set of points covered |
| Measures.MeasureOfSubset | firemex/incident/engine.py:170-189 | adding boxes never lowers the area; order and duplicates do not matter |
| Measures.MeasureBounds | firemex/incident/engine.py:170-189 | at least each box, at most the sum of all, at most any box around them |
| Measures.PositiveMeasure | firemex/incident/engine.py:175 | leaving out boxes of no area changes nothing |
| Measures.MeasureOfTwo | firemex/detect/base.py:114-116 | for two boxes the area of the union is the denominator of IoU |
| Measures.MeasureCountsCells | firemex/incident/engine.py:170-189 | for boxes on a lattice the area is the number of lattice cells covered, times the area of one |
| Zones.PointInPolygon | firemex/incident/zones.py:18-31 | the toggling loop computes the parity of crossings of the closed vertex chain |
| Zones.RotationInvariant | firemex/incident/zones.py:18-31 | the test does not depend on the vertex the list starts with |
| Zones.ReversalInvariant | firemex/incident/zones.py:18-31 | nor on the direction of the list |
| Zones.ChordSplits | firemex/incident/zones.py:18-31 | a point is in a polygon exactly when it is in one, not both, of the parts a chord cuts it into |
| Zones.CrossesExactlyWhen | firemex/incident/zones.py:24-30 | an edge is crossed exactly if it passes the height of the point, lower end included, with the point on the left of it as seen going up |
| Zones.TriangleIsMembership | firemex/incident/zones.py:18-31 | a point off the edges of a triangle tests inside exactly if it is on the same side of all three edges |
| Zones.OutsideBounds | firemex/incident/zones.py:34-37 | a point outside a polygon's bounds is never inside the polygon |
| Zones.RectangleIsMembership | firemex/incident/zones.py:18-31 | on a rectangle the test is membership, left and top edges included |
| Zones.BoxOverlapFraction | firemex/incident/zones.py:40-60 | the sampled fraction with its early exit equals the fraction computed over all samples |
| Zones.NoHits | firemex/incident/zones.py:49-50 | a box whose bounds miss the polygon's has no sample inside, so the exit is sound |
| Zones.RectangleOverlap | firemex/incident/zones.py:40-60 | a box within a rectangular zone overlaps it completely |
| Zones.SampleInPart | firemex/incident/zones.py:53-57 | each of the equal parts of a side has its own sample |
| Zones.PartsOverlap | firemex/incident/zones.py:40-60 | a rectangular zone that covers w columns and h rows of the n by n parts of a box overlaps it by exactly w h / n n |
| Zones.Excludes | firemex/incident/zones.py:80-85 | the scan over zones answers whether some zone reaches the threshold |
| Zones.KeptOutsideBounds | firemex/incident/zones.py:67-85 | a box that reaches no zone's bounds is never excluded |
| Zones.ExcludedWithinRectangle | firemex/incident/zones.py:67-85 | a box within a rectangular zone always is |
| Rules.KeptExactlyWhen | firemex/incident/engine.py:292-316 | a frame keeps exactly the detections of fire or smoke that reach the threshold of the time of day and the least area and that no zone excludes |
| Rules.LabelsMeaning | firemex/incident/engine.py:377-381 | a label is among those of a frame exactly if a detection has it |
| Rules.DetectionsMeaning | firemex/incident/engine.py:383 | the detections of a window are exactly those of its frames |
| Rules.ClusterMeaning | firemex/incident/engine.py:192-200 | the cluster reaches k exactly when some seed box has k boxes at or above the threshold |
| Rules.EnvelopeIsLeast | firemex/incident/engine.py:90-99 | a frame's envelope is the least box around its detections |
| Rules.WindowEnvelopeMeaning | firemex/incident/engine.py:526-533 | the window's envelope is the envelope of all its boxes |
| Rules.EnvelopesOfHits | firemex/incident/engine.py:446-447 | every hit contributes its envelope to the cluster rule, in order |
| Rules.OpeningPeakMeaning | firemex/incident/engine.py:383-391 | the opening peak is attained and not exceeded in the window |
| Rules.GrowingIsNotShrinking | firemex/incident/engine.py:486-503 | areas that never decrease pass the shrink test |
| Rules.ShrinkTestRescaled | firemex/incident/engine.py:486-503 | the shrink test does not depend on the unit of area |
| Rules.GrowingTrend | firemex/incident/engine.py:505-515 | positive areas that never decrease have growth ratio at least 1, exactly 1 if constant |
| Rules.TrendRescaled | firemex/incident/engine.py:505-515 | the growth ratio does not depend on the unit of area |
| Trends.ShrunkFails | firemex/incident/engine.py:486-503 | four or more areas of which every later one is below the tolerated fraction of every earlier one fail the shrink test |
| Trends.LevelsPassExactlyWhen | firemex/incident/engine.py:486-503 | areas of two levels, one for each half, pass exactly if the second is not below the tolerated fraction of the first |
| Trends.PassesOn | firemex/incident/engine.py:486-503 | smaller areas earlier or larger ones later never turn a pass into a failure |
| Trends.OrderWithinHalves | firemex/incident/engine.py:486-503 | the order within a half does not matter |
| Trends.MovedWithinHalf | firemex/incident/engine.py:486-503 | nor which frame of a half has the area |
| Trends.FewPass | firemex/incident/engine.py:486-503 | fewer than four areas pass |
| Trends.GrownToRatio | firemex/incident/engine.py:505-515 | if every area of the last third is at least k times every one of the first, the growth ratio is at least k |
| Trends.GrownLessRatio | firemex/incident/engine.py:505-515 | if every one is below k times, so is the ratio |
| Trends.LevelsRatio | firemex/incident/engine.py:505-515 | on two levels the ratio is their quotient |
| Trends.MovedWithinThird | firemex/incident/engine.py:505-515 | it does not matter which of the early, or of the late, frames has the area |
| Trends.MiddleIgnored | firemex/incident/engine.py:505-515 | nor what the areas in between are |
| Trends.FewAreSteady | firemex/incident/engine.py:505-515 | fewer than six positive areas have ratio 1 |
| Trends.ZerosIgnored | firemex/incident/engine.py:505-515 | frames without area do not count |
| Trends.ShrunkOpensNothing | firemex/incident/engine.py:465-478 | where growth is asked for, hits whose areas have clearly shrunk open nothing, whatever else holds |
| Trends.LevelsOpenExactlyWhen | firemex/incident/engine.py:465-503 | with nothing open and no cancel holding, persistent hits of two sizes open an incident exactly if the second size is not below the tolerated fraction of the first |
| Trends.SmokeSeverity | firemex/incident/engine.py:356-524 | an incident of smoke alone is CRITICAL if its late areas were all at least 1.6 times its early ones when it opened or on some hit since, and is not if they were all below that at every such time |
| Histories.WindowIsLastFrames | firemex/incident/engine.py:217-236 | after every run the window is the last filtered frames, as many as its capacity |
| Histories.HistoryIsRecent | firemex/incident/engine.py:318-323 | with nondecreasing times the pruned area history is the full history filtered to the growth window |
| Histories.SampleMeaning | firemex/incident/engine.py:318-320 | a sample is the time of its frame and the area its detections cover together |
| Lifecycle.EventsInOrder | firemex/incident/engine.py:327-425 | in every run: one id from opening to closing, severity only from WARNING to CRITICAL, labels only growing, and the engine holds an incident exactly between opening and closing, with the severity last announced |
| Lifecycle.EventGrammar | firemex/incident/engine.py:327-425 | the kinds of the events are a prefix of (OPENED ESCALATED? CLOSED)* |
| Lifecycle.OpenByLastEvent | firemex/incident/engine.py:342-425 | CONFIRMED holds exactly when an incident is open, and exactly when the last event is not a closing |
| Lifecycle.OpenIncidentSumsUp | firemex/incident/engine.py:342-410 | while it is open, an incident's labels, peak and envelope are the union, the maximum and the least box over every kept detection of the opening window and all later frames, and it remembers the last hit |
| Lifecycle.LabelsSeen | firemex/incident/engine.py:348-381 | a label is on an incident exactly if some detection it has seen had it |
| Lifecycle.EventsCarryTheRecord | firemex/incident/engine.py:393-425 | an event carries its frame and the incident as the engine then holds it, or held it and with its closing time |
| Lifecycle.OpeningCounts | firemex/incident/engine.py:391 | an incident opens with the number of hits in the window |
| Lifecycle.ClearsExactlyWhen | firemex/incident/engine.py:370-374 | it clears on exactly the quiet frame at least clear_after_seconds after the later of its opening and its last hit |
| Lifecycle.LastHitIsLast | firemex/incident/engine.py:345-346 | the time counted from is the opening or a hit, and no later frame is a hit |
| Severities.SeverityMeaning | firemex/incident/engine.py:356-367 | for as long as it is open an incident is CRITICAL exactly if fire is among its labels or its growth ratio reached 1.6 when it opened or on some hit since |
| Openings.AssessMeaning | firemex/incident/engine.py:429-484 | the three rules confirm exactly when there are enough hits, one of them near enough others, and no shrinking where that is asked |
| Openings.SuppressedMeaning | firemex/incident/engine.py:247-333 | the suppression flag holds exactly when some cancel of an open incident has not yet been followed by a quiet window |
| Openings.OpensExactlyWhen | firemex/incident/engine.py:327-340 | for every history a frame opens an incident exactly when none is open, no cancel holds and the hits among the last frames qualify |
| Openings.QuietWindowIsFull | firemex/incident/engine.py:328-333 | once an incident has been open, a window without hits is a full one |
| Openings.CandidateExactlyWhen | firemex/incident/engine.py:327-333 | without an open incident a camera is a candidate exactly if its window shows a hit |
| Responses.NothingEarly | firemex/incident/engine.py:435-444 | from a camera at rest (nothing open, no cancel holding, no hit in the window) fewer frames than frames_required open nothing |
| Responses.SteadyFireOpensFromRest | firemex/incident/engine.py:327-484 | after any history that left the camera at rest, frames whose areas are positive and never decrease, all near one of them, open an incident exactly at frame number frames_required |
| Responses.SteadyFireOpensOnTime | firemex/incident/engine.py:327-484 | so they do on a new engine |
| Responses.QuietEndsSilence | firemex/incident/engine.py:331-333 | the silence of a cancel ends: a frame that leaves the window quiet with nothing open leaves the camera at rest |
| Windows.TooShortForever | firemex/incident/engine.py:217-218 | an engine with any past whose window is shorter than frames_required opens nothing, whatever it is shown |
| Windows.OpensAgainExactlyWhen | firemex/incident/engine.py:217-484 | an engine with any past, under a tuning that lets some detection through by day or by night, can open another incident exactly if frames_required fits in the window it was built with |
| Windows.OpensAtAllExactlyWhen | firemex/incident/engine.py:217-218 | so it is for a new engine |
| CameraEngine.CameraIncidentEngine.FilterFrame | firemex/incident/engine.py:292-316 | the loop keeps exactly the detections no reason rejects, in order |
| CameraEngine.CameraIncidentEngine.RecordFrameArea | firemex/incident/engine.py:318-323 | appends the frame's union area and drops stale samples from the front |
| CameraEngine.CameraIncidentEngine.AssessHits | firemex/incident/engine.py:429-484 | computes the assessment in the source's order of rules |
| CameraEngine.CameraIncidentEngine.OpenNow | firemex/incident/engine.py:376-410 | creates the incident record of the specification, fresh, and its event with a snapshot |
| CameraEngine.CameraIncidentEngine.CloseNow | firemex/incident/engine.py:412-425 | closes the record in place and forgets it, as specified |
| CameraEngine.CameraIncidentEngine.ObserveFrame | firemex/incident/engine.py:231-245 | one frame changes the object's whole state, and emits events, as the state machine says |
| CameraEngine.CameraIncidentEngine.CancelOpen | firemex/incident/engine.py:247-259 | a cancel closes the open incident, if any, and suppresses re-opening |
| CameraEngine.WindowEnvelopeOf | firemex/incident/engine.py:526-533 | the joining loop computes the window's envelope |
| Fleet.CamerasAreIsolated | firemex/incident/engine.py:578-585 | in any interleaving each camera ends in the state, and emits the events, of running alone on its own inputs |
| Fleet.ReconfigureLaws | firemex/incident/engine.py:557-573 | a reconfiguration leaves exactly the listed cameras under what it gives for them, keeps every open incident of a listed camera and everything of a camera whose whole configuration is unchanged, and is idempotent |
| Fleet.LastCounts | firemex/incident/engine.py:560 | of several configurations for one id the last counts |
| Fleet.ReconfiguredSeats | firemex/incident/engine.py:564-573 | a new camera, and one without an open incident whose configuration changes in any way, gets a fresh engine built for it; any other keeps its engine, zone mask and window length |
| Fleet.StateKeptExactlyWhen | firemex/incident/engine.py:558-573 | a listed camera of unchanged tuning keeps its state exactly if nothing else of its configuration changes, or an incident is open on it, or it has no state yet |
| Fleet.IncidentEngine.ObserveFrame | firemex/incident/engine.py:578-585 | the object feeds a result to the engine of its camera and no other engine or incident changes |
| Fleet.IncidentEngine.CancelOpen | firemex/supervisor.py:350-354 | a cancel reaches one camera's engine only |
| Fleet.IncidentEngine.FindIncident | firemex/incident/engine.py:593-597 | finds a camera with that open incident, or there is none |
| Fleet.IncidentEngine.AddCamera | firemex/incident/engine.py:549-552 | a new engine takes the camera's place and shares nothing |
| Fleet.IncidentEngine.Reconfigure | firemex/incident/engine.py:557-573 | the removing and updating loops leave the site the specification of a reconfiguration describes |
| SiteRuns.EventsInOrderExactlyWhen | firemex/incident/engine.py:557-585 | in every mix of results, cancels and reconfigurations a camera's events are in order, and its engine holds the incident they leave open, at every moment exactly if no configuration ever leaves the camera out while an incident is open on it |
| SiteRuns.EventGrammarExactlyWhen | firemex/incident/engine.py:557-585 | their kinds are a prefix of (OPENED ESCALATED? CLOSED)* exactly if no event of the camera comes after a configuration that dropped an open incident of it |
| SiteIncidents.OpensSummedUp | firemex/incident/engine.py:376-410 | when it opens, an incident of a running site sums up the window it opened on |
| SiteIncidents.SumsUpThroughout | firemex/incident/engine.py:342-573 | an open incident sums up its opening window and all frames since, each filtered by the rig of its moment, through any swaps |
| SiteIncidents.OpensJudged | firemex/incident/engine.py:376-399 | when it opens, an incident of a running site is CRITICAL exactly if fire is among its labels or its growth ratio is at least 1.6 |
| SiteIncidents.SeverityThroughout | firemex/incident/engine.py:356-573 | for as long as it is open, through any swaps, it is so exactly if fire is among its labels or the ratio reached 1.6 when it opened or on some hit since |
| SiteIncidents.OneOpeningPerIncident | firemex/supervisor.py:251-267 | with ids fresh over the whole site no incident is opened twice by any cameras, through any reconfigurations, so dispatching on openings starts at most one escalation for each |
| SiteIncidents.OneOpeningPerId | firemex/incident/engine.py:376-399 | in a run of one camera every opening takes the id of its own frame, so with fresh ids no incident is opened twice |
| SiteWindows.WindowsFitThroughout | firemex/incident/engine.py:217-236 | at every moment of every run of a site no window is longer than its engine was built to hold |
| SiteWindows.BlindedExactlyWhen | firemex/incident/engine.py:569-571 | at any moment of any run of a site, a new configuration leaves a camera unable to open another incident under it exactly if the camera keeps an engine whose window is shorter than frames_required |
| SiteWindows.RenamedSeesAgain | firemex/incident/engine.py:568-573 | a blind camera without an open incident can open again once anything but its tuning changes |
| SiteMasks.RigThroughout | firemex/incident/engine.py:217-218 | at every moment of every run of a site a camera runs under the last configuration given for it, with the mask and window of the one its engine was built for |
| SiteMasks.KeptInZoneExactlyWhen | firemex/incident/engine.py:292-316 | at any moment of any run of a site a detection in a configured zone is kept exactly if it passes otherwise and the configuration the engine was built for has no zone against it |
| SiteMasks.KeptInZoneForever | firemex/incident/engine.py:557-573 | it stays so for as long as the configuration is given as it is, whether or not the incident is closed |
| SiteMasks.ThirtyOfFortyNine | firemex/incident/zones.py:67-85 | one zone that covers w columns and h rows of the 7 by 7 parts of a box hides the box exactly if w h is at least 30 |
| SiteExamples.BlindedBySwap | firemex/incident/engine.py:569-571 | a site whose camera opens an incident on one frame, is told to require two, and can open nothing more, although a new engine could |
| SiteExamples.OpenedTwice | firemex/incident/engine.py:561-563 | a site whose camera opens an incident, is left out of a configuration, comes back and opens another: the kinds are OPENED OPENED |
| SiteExamples.ReopenedAfterCancel | firemex/incident/engine.py:572-573 | a site whose camera opens an incident, is cancelled, gets another tuning and opens another incident on the very next frame |
| SiteExamples.ReopenedAfterRename | firemex/incident/engine.py:568-573 | the same with another name instead of another tuning, for every other name |
| SiteExamples.ZoneIgnored | firemex/incident/engine.py:569-571 | a site on which a zone is drawn over the whole frame while an incident is open, the incident clears, and the next frame opens another on a detection in the zone |
| Silences.CancelSilencesFrom | firemex/incident/engine.py:247-333 | an engine with any past opens another incident after a cancel only after a frame that completes a full quiet window, and with at least frames_required hits after that frame |
| Silences.CancelSilences | firemex/incident/engine.py:247-259 | so it is in every run of one camera from the start, after the cancel of an open incident and whatever else happens |
| Silences.CancelSilencesThroughout | firemex/incident/engine.py:247-333 | and for a camera at any moment of any run of a site, swapped in place or not, for as long as no configuration leaves it out or changes anything about it |
| Silences.SilenceKeptExactlyWhen | firemex/incident/engine.py:557-573 | a new configuration leaves a silenced camera silenced exactly if it lists the camera and changes nothing about it, be it only the name |
| Silences.ClearsThroughout | firemex/incident/engine.py:370-374 | an incident of a running site, swapped in place or not, clears on exactly the quiet frame at least clear_after_seconds, as then configured, after the later of its opening and its last hit |
| EscalationLaws.PlanAt | firemex/notify/dispatcher.py:245-255 | the plan holds each contact's steps one contact after the other |
| EscalationLaws.AckStays | firemex/notify/base.py:77-83 | the first acknowledgement stays the one recorded |
| EscalationLaws.SendLaws | firemex/notify/dispatcher.py:281-296 | a send is begun once, recorded only if it returned, and published |
| EscalationLaws.RingLaws | firemex/notify/dispatcher.py:293-311 | one call attempt: it answers yes only if acknowledged, and goes on after an acknowledgement only if the call failed |
| EscalationLaws.CallsLaws | firemex/notify/dispatcher.py:293-312 | the retry loop begins only its own calls, all of them unless it ends early, and answers the state of the bus |
| EscalationLaws.TryLaws | firemex/notify/dispatcher.py:269-312 | a try follows the plan, does all its steps if it answers no, and with a voice channel answers the state of the bus |
| EscalationWalks.WalkLaws | firemex/notify/dispatcher.py:245-265 | the walk over the chain follows the plan and has done all of it if nobody acknowledged |
| EscalationWalks.WalkSwitch | firemex/notify/dispatcher.py:245-265 | the walk goes on to another contact after an acknowledgement only where the configuration overlooks it: no voice channel, both contacts get texts, and the first and all between are to be called |
| EscalationWalks.WalkAnswers | firemex/notify/dispatcher.py:245-265 | where some contact reports the state of the bus and none after it sends, the walk's answer is whether somebody acknowledged |
| EscalationRuns.EveryRun | firemex/notify/dispatcher.py:159-266 | for every outside world: what was begun is a prefix of the plan, attempts record it with the outcomes given, the run ends within three awaits a step and six besides, and its verdict means what it says (ACKNOWLEDGED, EXHAUSTED with the whole plan done, CANCELLED, FAILED, SHADOW, SUPPRESSED, NO_CONTACTS) |
| EscalationRuns.OneWalk | firemex/notify/dispatcher.py:198-246 | a run that sends anything is not in shadow mode and not within the cooldown, and walks the chain once |
| EscalationRuns.NextContact | firemex/notify/dispatcher.py:245-312 | in every run of every configuration, a send to another contact than the one before it begins after an acknowledgement only if the configuration overlooks acknowledgements between the two |
| EscalationRuns.AfterAcknowledgement | firemex/notify/dispatcher.py:245-312 | where every contact to be called can be, no send to another contact than the one before begins after an acknowledgement, however late the acknowledgement came |
| EscalationRuns.OneMoreCall | firemex/notify/dispatcher.py:293-312 | whatever is sent after a call that began after an acknowledgement is the same call again, made because that one failed |
| EscalationRuns.UndisturbedRun | firemex/notify/dispatcher.py:247-266 | where acknowledgements are always heard, a run that nothing cancels and in which no webhook, cooldown question, sleep or send raises ends ACKNOWLEDGED if somebody acknowledged before its verdict and EXHAUSTED, the whole plan done, if not |
| EscalationWaits.EverySendOnTime | firemex/notify/dispatcher.py:233-312 | in every run the first send begins when the grace period is over and every other one when the one before is over, a call that got through only after its wait, and that wait brought no acknowledgement in time and was not cancelled |
| EscalationWaits.ExhaustedOnTime | firemex/notify/dispatcher.py:245-266 | the chain is given up exactly when its last send is over and unanswered |
| EscalationWaits.AnswerEnds | firemex/notify/dispatcher.py:247-312 | a call that is answered during its wait is the last send, and the verdict is ACKNOWLEDGED, unless publishing it is cancelled |
| EscalationWaits.EarlyVerdicts | firemex/notify/dispatcher.py:195-231 | the webhook goes first, in shadow mode too, then the cooldown question; SHADOW, SUPPRESSED and NO_CONTACTS are decided right after them |
| EscalationLimits.HearsExactlyWhen | firemex/notify/dispatcher.py:285-291 | a try hears every acknowledgement exactly if the contact is not to be called or the site has a voice channel |
| EscalationLimits.UnheardExactlyWhen | firemex/notify/dispatcher.py:245-291 | some run ends EXHAUSTED after an acknowledgement exactly if the site is not in shadow mode, has contacts and no voice channel, and every contact that is not to be called is followed by one that gets a text |
| EscalationLimits.CarriesOnExactlyWhen | firemex/notify/dispatcher.py:245-291 | some run goes on to another contact after an acknowledgement exactly if the site is not in shadow mode, has no voice channel, and two contacts get texts one after the other while the first and all between are to be called |
| EscalationLimits.SendsLateExactlyWhen | firemex/notify/dispatcher.py:245-312 | some run begins a send after an acknowledgement exactly if the site is not in shadow mode and either the first contact that gets anything is preceded only by contacts to be called, or some contact is called after a text or more than once, or two contacts get texts one after the other with nobody heard in between |
| EscalationLimits.UnheardAcknowledgement | firemex/notify/dispatcher.py:288-291 | a run that ends EXHAUSTED although its contact acknowledged |
| EscalationLimits.RingsAfterAcknowledgement | firemex/notify/dispatcher.py:233-296 | a run whose phone rings after an acknowledgement during the grace period |
| Dispatcher.AckBus.Acknowledge | firemex/notify/base.py:77-83 | the first acknowledgement of an incident is accepted and kept, later ones are refused |
| Dispatcher.Escalator.Suspend | firemex/notify/dispatcher.py:123-146 | while a run waits, acknowledgements and an operator's cancel change the bus and the record as specified |
| Dispatcher.Escalator.Wait | firemex/notify/base.py:91-99 | waiting returns at once if acknowledged, and otherwise what the wait brought |
| Dispatcher.Escalator.CallContact | firemex/notify/dispatcher.py:293-312 | the retry loop does what the recursive specification says |
| Dispatcher.Escalator.TryOne | firemex/notify/dispatcher.py:269-312 | so does a try |
| Dispatcher.Escalator.EscalateChain | firemex/notify/dispatcher.py:233-266 | so does the loop over the chain |
| Dispatcher.Escalator.RunToEnd | firemex/notify/dispatcher.py:159-183 | and the whole run with its exception handlers |
| Cooldown.AcceptedExactlyWhen | firemex/notify/base.py:116-121 | an alert goes through exactly if every accepted alert of its camera before it is at least its own cooldown away, whatever the clock does and however the cooldown changes |
| Cooldown.SeenIsLatest | firemex/notify/base.py:113-121 | the store holds the latest accepted alert of each camera |
| Cooldown.CooldownStore.Ask | firemex/notify/base.py:116-121 | the store's answer is the one for its history |
| Suppression.InVainExactlyWhen | firemex/notify/dispatcher.py:209-265 | some run is let through by the cooldown and sends nothing exactly if the site is not in shadow mode and has a cancel window, or looks for an acknowledgement before its first send, or has nothing to send |
| Suppression.CancelledInGrace | firemex/notify/dispatcher.py:209-234 | for every configuration with contacts and a cancel window, a run that is let through, cancelled in the window and sends nothing |
| Suppression.NextAlertSilenced | firemex/notify/dispatcher.py:209-219 | a run whose camera was let through less than its cooldown ago sends nothing, whatever became of that alert |
| Suppression.NobodyHears | firemex/notify/dispatcher.py:209-234 | two incidents of one camera within its cooldown, the first cancelled in the window: neither run sends anything |
| Nms.GreedyIsSelected | firemex/detect/onnx_backend.py:65-78 | filtering over and over keeps what one pass in order keeps |
| Nms.SelectedExactlyWhen | firemex/detect/onnx_backend.py:60-79 | a box is kept exactly if no box kept before it is near |
| Nms.SelectedAgain | firemex/detect/onnx_backend.py:60-79 | running again over the result keeps all of it |
| Nms.SuppressionLaws | firemex/detect/onnx_backend.py:60-79 | the result is distinct, by descending score, pairwise at most at the threshold, and every dropped box overlaps a kept one that scores at least as high |
| Nms.RawIouIsIou | firemex/detect/onnx_backend.py:71-77 | on proper boxes the overlap measure is the IoU of the geometry module |
| Nms.KeepFar | firemex/detect/onnx_backend.py:70-78 | one filtering round keeps exactly the boxes not above the threshold, in order |
| Nms.Suppress | firemex/detect/onnx_backend.py:60-79 | the shrinking loop computes the greedy result, for any descending order |
| Letterbox.AlwaysFits | firemex/detect/onnx_backend.py:34-57 | the resized image fits its canvas, fills it in one direction, is centred to a pixel and true to proportion to half a pixel (or one pixel thin) |
| Letterbox.FrameIsShown | firemex/detect/onnx_backend.py:39-57 | under the transform computed for an image every box of it lies on the canvas |
| Letterbox.FrameLandsOnImage | firemex/detect/onnx_backend.py:39-57 | the frame's corners land on the corners of the resized image, to half a pixel (or one, if it would be thinner) |
| Letterbox.RoundHalfEven | firemex/detect/onnx_backend.py:43 | halfway between two integers the even one is taken |
| Letterbox.DecodeInverts | firemex/detect/onnx_backend.py:216-219 | both decoders' formulas undo the letterbox exactly |
| Letterbox.DecodeKeepsOrder | firemex/detect/onnx_backend.py:262-267 | they keep the order of corners |
| Decoders.ArgMax | firemex/detect/onnx_backend.py:207-208 | the class of a row is the first of the highest score |
| Decoders.DecodeRaw | firemex/detect/onnx_backend.py:205-233 | filter, suppression and emission loop give the collected emissions of the surviving rows, or the exception, which with a threshold not below zero means exactly that a faulty row was given |
| Decoders.DecodeEnd | firemex/detect/onnx_backend.py:252-274 | the end-to-end loop gives the collected emissions of the confident rows, and never raises |
| Decoders.EmitBoxLaws | firemex/detect/onnx_backend.py:229-232 | a box is emitted, clipped, exactly if its interior meets the frame's, and raises exactly if its corners are out of order |
| Nms.InvertedIsSelected | firemex/detect/onnx_backend.py:60-79 | suppression with a threshold not below zero never removes a box whose corners are out of order |
| Decoders.RawFaultsExactlyWhen | firemex/detect/onnx_backend.py:205-233 | the raw decoder raises exactly if some row given reaches the confidence floor, is of a known class and has negative width or height (with a threshold below zero, if the row its sort puts first is one) |
| Decoders.OneBackwardRow | firemex/detect/onnx_backend.py:205-233 | one row of negative width on which it raises |
| Decoders.RawIsSound | firemex/detect/onnx_backend.py:221-233 | what it emits lies in the unit square, has positive area, is fire or smoke and reaches the confidence floor |
| Decoders.EndIsSound | firemex/detect/onnx_backend.py:257-274 | so does what the end-to-end decoder emits |
| Decoders.LayoutsAgree | firemex/detect/onnx_backend.py:216-273 | unless the raw decoder raises, both decoders do the same with the same box |
| Decoders.NearestClass | firemex/detect/onnx_backend.py:257-262 | the class of an end-to-end row is the integer nearest to the number it gives |
| Decoders.DecodeRoundTrip | firemex/detect/onnx_backend.py:34-57 | a box of the frame, projected on the canvas and decoded from either layout, comes back as it was |
| Connectivity.SameComponent | firemex/detect/stub.py:38-50 | cells joined by a path have the same component |
| Connectivity.ClosedHolds | firemex/detect/stub.py:45-50 | a set no neighbour leaves holds the component of each of its cells |
| Connectivity.FourNeighbours | firemex/detect/stub.py:46-47 | neighbours are the four cells at distance one |
| Regions.Spread | firemex/detect/stub.py:47-50 | one expansion finds exactly the unseen neighbours that are on, and marks them |
| Regions.Flood | firemex/detect/stub.py:41-50 | the queue loop ends with exactly the component of its start, each cell once, and marks nothing else |
| Regions.RegionDescribes | firemex/detect/stub.py:53-57 | the region has the tight bounding box of its cells and their share of it |
| Regions.FillIsShare | firemex/detect/stub.py:56-57 | fill times the size of the box is the number of cells, one exactly for a full box |
| Regions.SizeCounts | firemex/detect/stub.py:55-59 | the size of a region is the number of cells in its box |
| Regions.DescriptionUnique | firemex/detect/stub.py:53-58 | a set of cells has one description |
| Regions.GridRegions | firemex/detect/stub.py:28-60 | the scan lists one region for each component with enough cells, at its first cell in scanning order, and returns the list sorted |
| Regions.ListedExactlyWhen | firemex/detect/stub.py:51-52 | a component is listed exactly if it has enough cells |
| Regions.ListedOnce | firemex/detect/stub.py:39-40 | no component is listed twice |
| Regions.ListsFirsts | firemex/detect/stub.py:36-52 | the list holds the first cells of all large enough components and no other cell |
| Regions.ListingUnique | firemex/detect/stub.py:28-60 | the mask and the threshold determine the list, and so the result |
| Regions.SortContents | firemex/detect/stub.py:59 | sorting permutes the regions |
| Regions.SortOrder | firemex/detect/stub.py:59 | by descending box size |
| Regions.SortStable | firemex/detect/stub.py:59 | and keeps the order of regions of the same size |
| Regions.FillIsMeanExactlyWhen | firemex/detect/stub.py:31-32 | fill is at most the mean of the mask over the box, and equals it exactly if no other component's cell lies there |
| Regions.FillBelowMean | firemex/detect/stub.py:31-32 | a mask on which the listed region of an elbow of five cells, with a stray cell in the free corner of its box, has a fill below the mean |
| Ingest.EveryRunConserves | firemex/ingest/worker.py:218-275 | in every interleaving the frames sampled are those taken, evicted, queued and on their way, nothing lost or doubled, and the drop counter counts evictions and refusals |
| Ingest.EveryRunSpaces | firemex/ingest/worker.py:189-210 | frames sampled on one connection are at least one interval apart, whatever the clock does |
| Ingest.SampledExactlyWhen | firemex/ingest/worker.py:207-222 | in every run a decoded frame is sampled exactly if every frame sampled on its connection is at least one interval old |
| Ingest.EveryRunNumbers | firemex/ingest/worker.py:217-225 | frames are numbered from 1 without gaps, over all connections |
| Ingest.EveryRunInLine | firemex/ingest/worker.py:217-242 | with a clock that never runs back, frames stay in order on their way to the consumer |
| Ingest.EvictedForNewer | firemex/ingest/worker.py:235-242 | a frame is evicted only when the two then queued are newer |
| Ingest.QueueHoldsNewest | firemex/ingest/worker.py:228-242 | once the scheduled callbacks have run, the queue holds the newest of the frames that waited |
| Ingest.ConsumerDrains | firemex/ingest/worker.py:263-281 | a free consumer takes the queued frames one after the other until there are none |
| Ingest.DeliveredInOrder | firemex/ingest/worker.py:263-281 | delivered frames have strictly increasing numbers and nondecreasing times |
| Ingest.EngineFramesAreTimely | firemex/ingest/worker.py:263-281 | so the incident engine's assumption on time holds, with operator cancels anywhere in between |
| Ingest.CameraWorker.StartReading | firemex/ingest/worker.py:189-195 | a new stream starts a new connection whose first frame is due at once, as the transition says |
| Ingest.CameraWorker.ReadOne | firemex/ingest/worker.py:195-226 | one decoded frame is sampled or not, as the transition says |
| Ingest.CameraWorker.EnqueueNext | firemex/ingest/worker.py:235-242 | the callback drops the oldest frame of a full queue |
| Ingest.CameraWorker.TakeNext | firemex/ingest/worker.py:263-265 | the consumer takes the oldest frame, one at a time |
| Ingest.CameraWorker.Conclude | firemex/ingest/worker.py:266-281 | the submitted frame is delivered, refused or lost to an error |
| Inference.EveryJobInOnePlace | firemex/detect/service.py:89-167 | in every run each accepted job is finished, in the current batch or queued, never two of these; jobs leave the queue in order; batch and queue keep their bounds |
| Inference.SettledForGood | firemex/detect/service.py:132-147 | a future that has its result never changes again |
| Inference.EveryRunTruthful | firemex/detect/service.py:137-146 | in every run every result carries the identity of its own frame, whatever the detector returns |
| Inference.BatchEndsItsOwn | firemex/detect/service.py:114-146 | a success gives each waiting job the detections of its own image, a failure fails only the waiting jobs of its batch |
| Inference.NobodyLeftWaiting | firemex/detect/service.py:107-147 | when the loop is idle with an empty queue no caller waits |
| Inference.GrabsFill | firemex/detect/service.py:149-165 | collecting takes one queued job after the other until the batch is full or the queue empty, and no more |
| Inference.SubmitsFill | firemex/detect/service.py:95-101 | frames are accepted until the queue is full, and from then on refused and counted |
| Inference.AnswersAllExactlyWhen | firemex/detect/service.py:134-136 | a batch that ends well answers all its jobs exactly if none beyond the end of the results still waits |
| Stranding.StrandedExactlyWhen | firemex/detect/service.py:107-147 | in every run, whatever the detector returns, a caller waits for a job that will not be served exactly if some batch ended well with too few results to reach the job, or the loop died before it got to it or had died when the job came, and the caller has not given up since |
| Stranding.StrandedForever | firemex/detect/service.py:107-147 | such a caller is never answered, however the run goes on |
| Stranding.OneResultForTwo | firemex/detect/service.py:134-146 | a batch of two jobs with one result leaves the second caller waiting for ever |
| Stranding.DeadForever | firemex/detect/service.py:134-147 | once the pairing has raised, nobody who waits or comes later is ever answered |
| Stranding.NoResultForAnybody | firemex/detect/service.py:134-147 | a batch of two jobs whose results cannot be paired: no caller is ever answered, now or later |
| Inference.InferenceService.SubmitFrame | firemex/detect/service.py:89-105 | a frame is queued, or refused and counted when the queue is full |
| Inference.InferenceService.GrabJob | firemex/detect/service.py:149-167 | collecting takes the oldest queued job while the batch has room |
| Inference.InferenceService.StartBatch | firemex/detect/service.py:149-167 | the batch is the collected jobs whose callers still wait |
| Inference.InferenceService.HandOut | firemex/detect/service.py:134-146 | the pairing loop resolves pending futures in step with the results, as far as it gets |
| Inference.InferenceService.Deliver | firemex/detect/service.py:134-146 | a batch that ends well hands out its results and collecting starts again, as the transition says |
| Inference.InferenceService.Derail | firemex/detect/service.py:134-147 | a pairing that raises hands out the results before and ends the loop, as the transition says |
| Inference.InferenceService.FailBatch | firemex/detect/service.py:121-128 | the failing loop fails the batch's pending futures |
| Login.GuessesAreBounded | firemex/store.py:465-499 | in any period of length T without success, unlock or reset, at most 5 (floor(T / 300) + 1) wrong guesses are compared with the password |
| Login.AnswerFromAnswers | firemex/store.py:476-499 | from the answers before: an attempt is refused as locked exactly if the last five compared wrong guesses with no success between or after them ended less than 300 seconds before, and otherwise succeeds exactly if the password is right |
| Login.BoundIsReached | firemex/store.py:482-492 | for every number of lock periods some run reaches that bound |
| Login.CounterStaysLow | firemex/store.py:482-497 | the failure counter stays below five |
| Login.AccountStore.TryLogin | firemex/store.py:465-499 | the store answers and updates the record as specified, for known and unknown names |
| Login.AccountStore.Unlock | firemex/api/routes_users.py:136-140 | an unlock clears the counter and the lock of that user and nothing else |

## Left out

- Decoding, resampling, inference, telephony, webhooks, storage, HTTP and the dashboard: foreign calls and I/O; a send is an arbitrary outcome, a stored row a record.
- Float rounding: all coordinates, areas and times are reals; only `letterbox` rounds.
- Metrics, logging, wall-clock fields used only for display, and `status()` reports: no effect on what is modelled.
- Password hashing and the folding of user names to lower case: whether a password is right is a parameter, names are given folded.
- Login.GuessesAreBounded: takes each authentication as one step and assumes that the clock does not run back. The source runs authentications in worker threads with a session each (`firemex/store.py:501-502`), so how concurrent ones read and write the counter depends on the database, and it reads the wall clock (`firemex/store.py:467`), which can be set back.
- `AckBus.forget` during a live run: the waiter keeps an event nobody sets; the tape has no such step, so the escalation results assume it does not happen.
- A change of the site's alerting configuration during an escalation run: a run has one configuration.
- The cooldown question of a run is answered by the tape, since the store may be the in-memory or the shared one; module Suppression joins runs with the in-memory one.
- `AlertDispatcher.dispatch` finding a live task of the same incident: a lookup in a dictionary; that openings have distinct ids is `SiteIncidents.OneOpeningPerIncident`.
- Row de-duplication when a run is stored: attempts without a provider id are inserted on every publish (`firemex/store.py:192`), so there is nothing to prove.
- Service shutdown: jobs already taken by `_collect_batch` are not drained by `stop` (`firemex/detect/service.py:76-80`), so runs without shutdown are what is modelled.
- Inference.EveryJobInOnePlace: assumes the documented contract of one list for each image; `Inference.AnswersAllExactlyWhen` and module Stranding say what happens without it.
- Ingest.EveryRunInLine: assumes that the monotonic clock never runs back, which is what a monotonic clock promises; the conservation and spacing results do not need it.
- The decode thread's reconnection, backoff and watchdog: a reconnection is one action that may come at any time.
- Silences.CancelSilencesThroughout: assumes that the camera keeps its configuration after the cancel, because a new engine knows nothing of it; `Silences.SilenceKeptExactlyWhen` says when it does and `SiteExamples.ReopenedAfterRename` what happens otherwise.
- Decoders.DecodeRaw: takes rows already turned into shape (n, 4 + classes) and the order of the sort; telling the two layouts apart is not modelled.
- The ring buffer, label aliases, the day and night clock, redaction and configuration editing: short bodies with nothing behind them.
