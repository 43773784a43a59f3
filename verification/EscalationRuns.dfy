/** Whole escalation runs (firemex/notify/dispatcher.py, run): the verdict, the log against
    the plan, and what an acknowledgement still lets happen. */
module EscalationRuns {
  import opened Geometry
  import opened Escalation
  import opened EscalationLaws
  import opened EscalationWalks

  /** Nothing has been sent and nothing is being sent. */
  predicate Idle(tape: Tape, early: Option<string>, w: World) {
    Good(tape, early, w) && w.run.begun == []
  }

  lemma PublishLaws(tape: Tape, early: Option<string>, cfg: Config, w: World)
    requires Good(tape, early, w)
    ensures var f := Publish(tape, cfg, w);
            && Good(tape, early, f.world) && w.clock <= f.world.clock <= w.clock + 1
            && f.world.run.begun == w.run.begun && f.world.run.attempts == w.run.attempts
            && (f.Stops? ==> f.cause.Cancellation? && Blamed(tape, f))
  {
    AwaitLaws(tape, early, w);
  }

  lemma AskLaws(tape: Tape, early: Option<string>, w: World)
    requires Idle(tape, early, w)
    ensures var f := Ask(tape, w);
            && Idle(tape, early, f.world) && f.world.clock == w.clock + 1
            && (f.Stops? ==> Blamed(tape, f))
            && (f.Goes? ==> f.answer == tape(w.clock).yes)
  {}

  lemma GraceLaws(tape: Tape, early: Option<string>, cfg: Config, w: World)
    requires Idle(tape, early, w)
    ensures var f := Grace(tape, cfg, w);
            && Idle(tape, early, f.world) && w.clock <= f.world.clock <= w.clock + 2
            && (f.Stops? ==> Blamed(tape, f))
            && (f.Stops? && f.cause.Exception? ==> cfg.delay > 0.0 && f.world.clock == w.clock + Publishing(cfg) + 1)
  {
    PublishLaws(tape, early, cfg, w);
    var published := Publish(tape, cfg, w);
    AskLaws(tape, early, published.world);
  }

  /** The reply that answers the cooldown question. */
  function Gate(cfg: Config): nat {
    if cfg.webhook then 1 else 0
  }

  /** How many awaits publishing takes. */
  function Publishing(cfg: Config): nat {
    if cfg.publishes then 1 else 0
  }

  /** The reply that ends the grace period. */
  function SleepAt(cfg: Config): nat {
    Gate(cfg) + 1 + Publishing(cfg)
  }

  /** Reply `t` is that of the webhook, the cooldown question, the sleep or a send: the awaits
      whose exceptions reach the run. */
  predicate Asked(cfg: Config, begun: seq<Begin>, t: nat) {
    || (cfg.webhook && t == 0)
    || (!cfg.shadow && t == Gate(cfg))
    || (cfg.delay > 0.0 && t == SleepAt(cfg))
    || exists b :: b in begun && b.at == t
  }

  /** The verdict is dated: it is about what was known when reply `finished` was still to
      be read. */
  predicate Verdict(tape: Tape, early: Option<string>, cfg: Config, run: Run, clock: nat) {
    && run.finished.Some?
    && var n := run.finished.value;
       n <= clock &&
       match run.status
       case FAILED => n > 0 && tape(n - 1).fate.Raises? && Asked(cfg, run.begun, n - 1)
       case CANCELLED => n > 0 && tape(n - 1).fate.Cancelled?
       case ACKNOWLEDGED => AckedBy(tape, early, n) && run.acknowledgedBy == FirstAck(tape, early, n)
       case EXHAUSTED =>
         && !cfg.shadow && cfg.chain != []
         && |run.attempts| == |FullPlan(cfg)|
         && (Heard(cfg) ==> !AckedBy(tape, early, n))
       case SHADOW => cfg.shadow && run.begun == []
       case SUPPRESSED => !cfg.shadow && run.begun == [] && !tape(Gate(cfg)).yes
       case NO_CONTACTS => cfg.chain == []
  }

  /** A piece of the run that ends normally leaves a verdict; one that stops says why. */
  predicate Ends(tape: Tape, early: Option<string>, cfg: Config, f: Flow, slack: nat) {
    && Good(tape, early, f.world)
    && Follows(f.world.run.begun, FullPlan(cfg))
    && f.world.clock <= slack + 3 * |f.world.run.begun|
    && (f.Goes? ==> Verdict(tape, early, cfg, f.world.run, f.world.clock))
    && (f.Stops? ==> Blamed(tape, f))
    && (f.Stops? && f.cause.Exception? ==> Asked(cfg, f.world.run.begun, f.world.clock - 1))
  }

  lemma FinishLaws(tape: Tape, early: Option<string>, cfg: Config, w: World, status: Status, slack: nat)
    requires Good(tape, early, w) && Follows(w.run.begun, FullPlan(cfg))
    requires w.clock <= slack + 3 * |w.run.begun|
    requires Verdict(tape, early, cfg, Decided(w, status).run, w.clock)
    ensures Ends(tape, early, cfg, Finish(tape, cfg, w, status), slack + 1)
  {
    var d := Decided(w, status);
    assert Good(tape, early, d);
    PublishLaws(tape, early, cfg, d);
  }

  lemma WalkVerdict(tape: Tape, early: Option<string>, cfg: Config, w: World)
    requires Idle(tape, early, w) && cfg.chain != []
    ensures var f := Walk(tape, cfg, w, 0);
            && Extends(tape, early, w, f)
            && Follows(f.world.run.begun, FullPlan(cfg))
            && (f.Goes? && f.answer ==> f.world.acked.Some?)
            && (f.Goes? && !f.answer ==> |f.world.run.attempts| == |FullPlan(cfg)|)
            && (f.Goes? && !f.answer && Heard(cfg) ==> f.world.acked.None?)
  {
    WalkLaws(tape, early, cfg, w, 0);
    if Heard(cfg) {
      var m := SomebodyAnswers(cfg);
      WalkAnswers(tape, early, cfg, w, 0, m);
    }
  }

  lemma EscalateLaws(tape: Tape, early: Option<string>, cfg: Config, w: World)
    requires Idle(tape, early, w) && !cfg.shadow && cfg.chain != [] && w.clock == Gate(cfg) + 1
    ensures Ends(tape, early, cfg, Escalate(tape, cfg, w), w.clock + 3)
  {
    GraceLaws(tape, early, cfg, w);
    var graced := Grace(tape, cfg, w);
    if graced.Goes? {
      WalkVerdict(tape, early, cfg, graced.world);
      var walked := Walk(tape, cfg, graced.world, 0);
      if walked.Goes? && walked.answer {
        FinishLaws(tape, early, cfg, walked.world.(run := walked.world.run.(acknowledgedBy := walked.world.acked)),
                   ACKNOWLEDGED, w.clock + 2);
      } else if walked.Goes? {
        FinishLaws(tape, early, cfg, walked.world, EXHAUSTED, w.clock + 2);
      } else if walked.cause.Exception? {
        LastIsAsked(cfg, walked.world);
      }
    }
  }

  lemma LastIsAsked(cfg: Config, w: World)
    requires SendRaised(w) && w.clock > 0
    ensures Asked(cfg, w.run.begun, w.clock - 1)
  {
    assert w.run.begun[|w.run.begun| - 1] in w.run.begun;
  }

  lemma AnnounceLaws(tape: Tape, early: Option<string>, cfg: Config, w: World)
    requires Idle(tape, early, w)
    ensures var f := Announce(tape, cfg, w);
            && Idle(tape, early, f.world)
            && (f.Goes? ==> f.world.clock == w.clock + Gate(cfg))
            && (f.Stops? ==> cfg.webhook && f.world.clock == w.clock + 1 && Blamed(tape, f))
  {}

  lemma ExecuteLaws(tape: Tape, early: Option<string>, cfg: Config)
    ensures Ends(tape, early, cfg, Execute(tape, cfg, Initial(early)), 5)
  {
    var w := Initial(early);
    assert Idle(tape, early, w);
    AnnounceLaws(tape, early, cfg, w);
    var announced := Announce(tape, cfg, w);
    if announced.Goes? {
      if cfg.shadow {
        FinishLaws(tape, early, cfg, announced.world, SHADOW, 1);
      } else {
        AskLaws(tape, early, announced.world);
        var asked := Ask(tape, announced.world);
        if asked.Goes? {
          if !asked.answer {
            FinishLaws(tape, early, cfg, asked.world, SUPPRESSED, 2);
          } else if cfg.chain == [] {
            FinishLaws(tape, early, cfg, asked.world, NO_CONTACTS, 2);
          } else {
            EscalateLaws(tape, early, cfg, asked.world);
          }
        }
      }
    }
  }

  lemma HandleLaws(tape: Tape, early: Option<string>, cfg: Config, f: Flow)
    requires Ends(tape, early, cfg, f, 5)
    ensures var w := Handle(tape, cfg, f);
            && Good(tape, early, w)
            && w.run.begun == f.world.run.begun
            && w.clock <= f.world.clock + 1
            && Verdict(tape, early, cfg, w.run, w.clock)
  {
    if f.Stops? {
      var d := Decided(f.world, if f.cause.Cancellation? then CANCELLED else FAILED);
      assert Good(tape, early, d);
      PublishLaws(tape, early, cfg, d);
    }
  }

  /** Every run ends, after at most three awaits for each planned step and six besides; what
      it began is a prefix of the plan, what it recorded is what it began with the outcomes
      it was given (the last may be missing), and its verdict means what it says. */
  lemma EveryRun(tape: Tape, cfg: Config, early: Option<string>)
    ensures var w := Complete(tape, cfg, early);
            && Good(tape, early, w)
            && Follows(w.run.begun, FullPlan(cfg))
            && w.clock <= 6 + 3 * |FullPlan(cfg)|
            && Verdict(tape, early, cfg, w.run, w.clock)
  {
    ExecuteLaws(tape, early, cfg);
    HandleLaws(tape, early, cfg, Execute(tape, cfg, Initial(early)));
  }

  lemma EscalateWalks(tape: Tape, early: Option<string>, cfg: Config, w: World)
    requires Idle(tape, early, w)
    ensures var begun := Escalate(tape, cfg, w).world.run.begun;
            var graced := Grace(tape, cfg, w);
            && Idle(tape, early, graced.world)
            && (begun != [] ==> begun == Walk(tape, cfg, graced.world, 0).world.run.begun)
  {
    GraceLaws(tape, early, cfg, w);
  }

  lemma SameLog(tape: Tape, cfg: Config, early: Option<string>)
    ensures Complete(tape, cfg, early).run.begun == Execute(tape, cfg, Initial(early)).world.run.begun
  {}

  /** A run that sends anything at all walks the chain once, from where the world was after
      the grace period, and not in shadow mode or within the cooldown. */
  lemma OneWalk(tape: Tape, cfg: Config, early: Option<string>) returns (start: World)
    ensures var begun := Complete(tape, cfg, early).run.begun;
            begun != [] ==>
              && !cfg.shadow && tape(Gate(cfg)).yes
              && Idle(tape, early, start)
              && begun == Walk(tape, cfg, start, 0).world.run.begun
  {
    SameLog(tape, cfg, early);
    var w := Initial(early);
    assert Idle(tape, early, w);
    AnnounceLaws(tape, early, cfg, w);
    var asked := Ask(tape, Announce(tape, cfg, w).world);
    AskLaws(tape, early, Announce(tape, cfg, w).world);
    EscalateWalks(tape, early, cfg, asked.world);
    start := Grace(tape, cfg, asked.world).world;
  }

  /** Going on to another contact: the run has been acknowledged before only if the
      configuration overlooks acknowledgements between the two. */
  lemma NextContact(tape: Tape, cfg: Config, early: Option<string>, j: nat)
    requires var begun := Complete(tape, cfg, early).run.begun;
             0 < j < |begun| && begun[j - 1].step.position != begun[j].step.position
    ensures var begun := Complete(tape, cfg, early).run.begun;
            AckedBy(tape, early, begun[j].at) ==> Overlooks(cfg, begun[j - 1].step.position, begun[j].step.position)
  {
    var start := OneWalk(tape, cfg, early);
    WalkSwitch(tape, early, cfg, start, 0, j);
  }

  /** Where every contact that is to be called can be, no contact is attempted after an
      acknowledgement, however late in the try before it has come. */
  lemma AfterAcknowledgement(tape: Tape, cfg: Config, early: Option<string>, j: nat)
    requires Reachable(cfg)
    requires var begun := Complete(tape, cfg, early).run.begun;
             0 < j < |begun| && begun[j - 1].step.position != begun[j].step.position
    ensures !AckedBy(tape, early, Complete(tape, cfg, early).run.begun[j].at)
  {
    NextContact(tape, cfg, early, j);
    var begun := Complete(tape, cfg, early).run.begun;
    var p := begun[j - 1].step.position;
    if Overlooks(cfg, p, begun[j].step.position) {
      assert cfg.chain[p] in cfg.chain;
    }
  }

  /** A call begun after an acknowledgement is followed by another send only if it failed, and
      then by another call to the same contact. */
  lemma OneMoreCall(tape: Tape, cfg: Config, early: Option<string>, i: nat, j: nat)
    requires var begun := Complete(tape, cfg, early).run.begun;
             i < j < |begun| && begun[i].step.channel == Call && AckedBy(tape, early, begun[i].at)
    ensures var begun := Complete(tape, cfg, early).run.begun;
            && begun[j].step == begun[i].step
            && tape(begun[i].at).outcome == Failed
  {
    var start := OneWalk(tape, cfg, early);
    EveryRun(tape, cfg, early);
    var begun := Complete(tape, cfg, early).run.begun;
    PlannedCalls(cfg, |cfg.chain|, i);
    WalkWinding(tape, early, cfg, start, 0, i, j);
    PlanSorted(cfg, |cfg.chain|, i, j);
  }

  /** Calls are planned only with a voice channel. */
  lemma {:induction false} PlannedCalls(cfg: Config, k: nat, i: nat)
    requires k <= |cfg.chain| && i < |Plan(cfg, k)| && Plan(cfg, k)[i].channel == Call
    ensures cfg.voice
    decreases k
  {
    if i < |Plan(cfg, k - 1)| {
      PlannedCalls(cfg, k - 1, i);
    }
  }

  lemma {:induction false} PlanPositions(cfg: Config, k: nat, i: nat)
    requires k <= |cfg.chain| && i < |Plan(cfg, k)|
    ensures Plan(cfg, k)[i].position < k
    decreases k
  {
    if i < |Plan(cfg, k - 1)| {
      PlanPositions(cfg, k - 1, i);
    }
  }

  /** After a call to a contact the plan holds for that contact only the same call again. */
  lemma {:induction false} PlanSorted(cfg: Config, k: nat, i: nat, j: nat)
    requires k <= |cfg.chain| && i < j < |Plan(cfg, k)|
    requires Plan(cfg, k)[i].channel == Call && Plan(cfg, k)[i].position == Plan(cfg, k)[j].position
    ensures Plan(cfg, k)[i] == Plan(cfg, k)[j]
    decreases k
  {
    if j < |Plan(cfg, k - 1)| {
      PlanSorted(cfg, k - 1, i, j);
    } else if i < |Plan(cfg, k - 1)| {
      PlanPositions(cfg, k - 1, i);
    }
  }

  /** A run that nothing cancels, and in which no webhook, cooldown question, sleep or send
      raises, ends ACKNOWLEDGED if somebody acknowledged before its verdict, and EXHAUSTED,
      with the whole plan done, if not. */
  lemma UndisturbedRun(tape: Tape, cfg: Config, early: Option<string>)
    requires Heard(cfg) && !cfg.shadow && cfg.chain != [] && tape(Gate(cfg)).yes
    requires var w := Complete(tape, cfg, early);
             forall t: nat :: t < w.clock ==>
               !tape(t).fate.Cancelled? && (Asked(cfg, w.run.begun, t) ==> !tape(t).fate.Raises?)
    ensures var run := Complete(tape, cfg, early).run;
            && run.finished.Some?
            && run.status == (if AckedBy(tape, early, run.finished.value) then ACKNOWLEDGED else EXHAUSTED)
            && (run.status == EXHAUSTED ==> Follows(run.begun, FullPlan(cfg)) && |run.begun| == |FullPlan(cfg)|)
  {
    EveryRun(tape, cfg, early);
    var w := Complete(tape, cfg, early);
  }
}
