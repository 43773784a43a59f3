/** What one escalation run does (firemex/notify/dispatcher.py, _execute and _try_contact),
    as a function of everything the outside world answers.  The run is atomic between
    awaits; each await consumes one reply, which says which acknowledgements arrived while
    the run was suspended and how the awaited operation ended. */
module Escalation {
  import opened Geometry

  // ---- configuration -------------------------------------------------------

  datatype Contact = Contact(id: string, sms: bool, call: bool, retries: nat)

  /** `voice` and `text` say whether the site has the channel at all; `publishes` and
      `webhook` whether somebody listens. */
  datatype Config = Config(
    shadow: bool,
    delay: real,
    chain: seq<Contact>,
    voice: bool,
    text: bool,
    webhook: bool,
    publishes: bool
  )

  // ---- the world outside ---------------------------------------------------

  datatype Outcome = Queued | Failed | Skipped

  datatype Fate = Returns | Raises | Cancelled(byOperator: bool)

  /** One await: the acknowledgements received meanwhile in order, how it ended, the outcome
      if it was a send, and the answer if it was the cooldown question or a wait (where no
      means that the timeout won). */
  datatype Reply = Reply(acks: seq<string>, fate: Fate, outcome: Outcome, yes: bool)

  type Tape = nat -> Reply

  /** Who had acknowledged first when reply `n` was about to be read. */
  function FirstAck(tape: Tape, early: Option<string>, n: nat): Option<string> {
    if n == 0 then early
    else
      var before := FirstAck(tape, early, n - 1);
      if before.Some? then before
      else if tape(n - 1).acks != [] then Some(tape(n - 1).acks[0])
      else None
  }

  // ---- the record ----------------------------------------------------------

  datatype Status = SHADOW | SUPPRESSED | CANCELLED | ACKNOWLEDGED | EXHAUSTED | NO_CONTACTS | FAILED

  datatype Channel = Sms | Call

  datatype Step = Step(channel: Channel, position: nat, contact: string)

  datatype Attempt = Attempt(step: Step, outcome: Outcome)

  /** A send that was started when reply `at` was about to be read; the source records an
      attempt only once its send has returned. */
  datatype Begin = Begin(step: Step, at: nat)

  datatype Run = Run(
    status: Status,
    attempts: seq<Attempt>,
    acknowledgedBy: Option<string>,
    finished: Option<nat>,
    begun: seq<Begin>
  )

  datatype World = World(clock: nat, acked: Option<string>, run: Run)

  datatype Cause = Exception | Cancellation

  /** How a piece of the run ends: normally, with an answer, or by an exception. */
  datatype Flow = Goes(answer: bool, world: World) | Stops(cause: Cause, world: World)

  // ---- the protocol --------------------------------------------------------

  /** What happens while the run is suspended.  An operator's cancel marks the record at
      once; a cancellation by shutdown does not. */
  function Await(tape: Tape, w: World): World {
    var r := tape(w.clock);
    var news := w.acked.None? && r.acks != [];
    var run := if news then w.run.(acknowledgedBy := Some(r.acks[0])) else w.run;
    World(w.clock + 1,
          if news then Some(r.acks[0]) else w.acked,
          if r.fate == Cancelled(true) then run.(status := CANCELLED, finished := Some(w.clock + 1)) else run)
  }

  /** An await whose exceptions reach the run. */
  function Ask(tape: Tape, w: World): Flow {
    var n := Await(tape, w);
    match tape(w.clock).fate
    case Returns => Goes(tape(w.clock).yes, n)
    case Raises => Stops(Exception, n)
    case Cancelled(_) => Stops(Cancellation, n)
  }

  /** Persisting the record: its exceptions are swallowed, a cancellation is not. */
  function Publish(tape: Tape, cfg: Config, w: World): Flow {
    if !cfg.publishes then Goes(false, w)
    else if tape(w.clock).fate.Cancelled? then Stops(Cancellation, Await(tape, w))
    else Goes(false, Await(tape, w))
  }

  function Started(w: World, step: Step): World {
    w.(run := w.run.(begun := w.run.begun + [Begin(step, w.clock)]))
  }

  function Recorded(w: World, step: Step, outcome: Outcome): World {
    w.(run := w.run.(attempts := w.run.attempts + [Attempt(step, outcome)]))
  }

  function Send(tape: Tape, cfg: Config, w: World, step: Step): Flow {
    var sent := Ask(tape, Started(w, step));
    if sent.Stops? then sent
    else Publish(tape, cfg, Recorded(sent.world, step, tape(w.clock).outcome))
  }

  /** Waits for an acknowledgement, true at once if there is one.  A timeout can win even
      though the acknowledgement has just arrived. */
  function WaitForAck(tape: Tape, w: World): Flow {
    if w.acked.Some? then Goes(true, w)
    else
      var n := Await(tape, w);
      if tape(w.clock).fate.Cancelled? then Stops(Cancellation, n)
      else Goes(n.acked.Some? && tape(w.clock).yes, n)
  }

  /** One call and, unless it could not be placed, the wait for its acknowledgement. */
  function Ring(tape: Tape, cfg: Config, w: World, step: Step): Flow {
    var sent := Send(tape, cfg, w, step);
    if sent.Stops? then sent
    else if tape(w.clock).outcome == Failed then Goes(false, sent.world)
    else WaitForAck(tape, sent.world)
  }

  /** The call attempts left for one contact. */
  function Calls(tape: Tape, cfg: Config, w: World, step: Step, left: nat): Flow
    decreases left
  {
    if left == 0 then Goes(w.acked.Some?, w)
    else
      var rung := Ring(tape, cfg, w, step);
      if rung.Stops? || rung.answer then rung
      else Calls(tape, cfg, rung.world, step, left - 1)
  }

  function Text(tape: Tape, cfg: Config, w: World, k: nat): Flow
    requires k < |cfg.chain|
  {
    var c := cfg.chain[k];
    if c.sms && cfg.text then Send(tape, cfg, w, Step(Sms, k, c.id)) else Goes(false, w)
  }

  function TryContact(tape: Tape, cfg: Config, w: World, k: nat): Flow
    requires k < |cfg.chain|
  {
    var c := cfg.chain[k];
    var texted := Text(tape, cfg, w, k);
    if texted.Stops? then texted
    else if !c.call then Goes(texted.world.acked.Some?, texted.world)
    else if !cfg.voice then Goes(false, texted.world)
    else Calls(tape, cfg, texted.world, Step(Call, k, c.id), c.retries + 1)
  }

  /** The chain from contact `k` on; the answer says whether somebody acknowledged. */
  function Walk(tape: Tape, cfg: Config, w: World, k: nat): Flow
    requires k <= |cfg.chain|
    decreases |cfg.chain| - k
  {
    if k == |cfg.chain| then Goes(false, w)
    else
      var tried := TryContact(tape, cfg, w, k);
      if tried.Stops? || tried.answer then tried
      else Walk(tape, cfg, tried.world, k + 1)
  }

  function Decided(w: World, status: Status): World {
    w.(run := w.run.(status := status, finished := Some(w.clock)))
  }

  function Finish(tape: Tape, cfg: Config, w: World, status: Status): Flow {
    Publish(tape, cfg, Decided(w, status))
  }

  /** The grace period during which an operator can still cancel. */
  function Grace(tape: Tape, cfg: Config, w: World): Flow {
    if cfg.delay <= 0.0 then Goes(false, w)
    else
      var published := Publish(tape, cfg, w);
      if published.Stops? then published else Ask(tape, published.world)
  }

  function Escalate(tape: Tape, cfg: Config, w: World): Flow {
    var graced := Grace(tape, cfg, w);
    if graced.Stops? then graced
    else
      var walked := Walk(tape, cfg, graced.world, 0);
      if walked.Stops? then walked
      else if walked.answer then
        Finish(tape, cfg, walked.world.(run := walked.world.run.(acknowledgedBy := walked.world.acked)), ACKNOWLEDGED)
      else Finish(tape, cfg, walked.world, EXHAUSTED)
  }

  function Announce(tape: Tape, cfg: Config, w: World): Flow {
    if cfg.webhook then Ask(tape, w) else Goes(false, w)
  }

  function Execute(tape: Tape, cfg: Config, w: World): Flow {
    var announced := Announce(tape, cfg, w);
    if announced.Stops? then announced
    else if cfg.shadow then Finish(tape, cfg, announced.world, SHADOW)
    else
      var asked := Ask(tape, announced.world);
      if asked.Stops? then asked
      else if !asked.answer then Finish(tape, cfg, asked.world, SUPPRESSED)
      else if cfg.chain == [] then Finish(tape, cfg, asked.world, NO_CONTACTS)
      else Escalate(tape, cfg, asked.world)
  }

  /** Somebody may have acknowledged the incident before its run starts. */
  function Initial(early: Option<string>): World {
    World(0, early, Run(SHADOW, [], None, None, []))
  }

  /** What the exception handlers of a run do. */
  function Handle(tape: Tape, cfg: Config, f: Flow): World {
    match f
    case Goes(_, w) => w
    case Stops(Cancellation, w) => Publish(tape, cfg, Decided(w, CANCELLED)).world
    case Stops(Exception, w) => Publish(tape, cfg, Decided(w, FAILED)).world
  }

  /** The whole run. */
  function Complete(tape: Tape, cfg: Config, early: Option<string>): World {
    Handle(tape, cfg, Execute(tape, cfg, Initial(early)))
  }

  // ---- the plan ------------------------------------------------------------

  function PlanFor(cfg: Config, k: nat): seq<Step>
    requires k < |cfg.chain|
  {
    var c := cfg.chain[k];
    (if c.sms && cfg.text then [Step(Sms, k, c.id)] else [])
    + (if c.call && cfg.voice then Repeat(Step(Call, k, c.id), c.retries + 1) else [])
  }

  /** Every step for the first `k` contacts, in order. */
  function Plan(cfg: Config, k: nat): seq<Step>
    requires k <= |cfg.chain|
  {
    if k == 0 then [] else Plan(cfg, k - 1) + PlanFor(cfg, k - 1)
  }

  function FullPlan(cfg: Config): seq<Step> {
    Plan(cfg, |cfg.chain|)
  }
}
