/** The cooldown and the run that asks for it: an alert that was let through but of which nobody
    heard still silences the next ones (firemex/notify/dispatcher.py, firemex/notify/base.py). */
module Suppression {
  import opened Geometry
  import opened Cooldown
  import opened Escalation
  import opened EscalationLaws
  import opened EscalationWalks
  import opened EscalationRuns
  import opened EscalationCalm
  import opened EscalationLimits

  /** The run comes to ask for the cooldown and is let through: its camera has now alerted. */
  predicate Spends(tape: Tape, cfg: Config) {
    && !cfg.shadow && (cfg.webhook ==> tape(0).fate.Returns?)
    && tape(Gate(cfg)).fate.Returns? && tape(Gate(cfg)).yes
  }

  /** It is let through and sends nothing. */
  predicate InVain(tape: Tape, cfg: Config, early: Option<string>) {
    Spends(tape, cfg) && Complete(tape, cfg, early).run.begun == []
  }

  /** The world of such a run when it has its answer. */
  function Admitted(tape: Tape, cfg: Config, early: Option<string>): World {
    Ask(tape, Announce(tape, cfg, Initial(early)).world).world
  }

  lemma AdmittedGoesOn(tape: Tape, cfg: Config, early: Option<string>)
    requires Spends(tape, cfg)
    ensures Idle(tape, early, Admitted(tape, cfg, early)) && Admitted(tape, cfg, early).clock == Gate(cfg) + 1
    ensures var begun := Complete(tape, cfg, early).run.begun;
            begun == if cfg.chain == [] then [] else Escalate(tape, cfg, Admitted(tape, cfg, early)).world.run.begun
  {
    var w := Initial(early);
    assert Idle(tape, early, w);
    AnnounceLaws(tape, early, cfg, w);
    var announced := Announce(tape, cfg, w);
    assert announced.Goes? && announced.world.clock == Gate(cfg);
    AskLaws(tape, early, announced.world);
    SameLog(tape, cfg, early);
  }

  lemma EscalateSends(tape: Tape, cfg: Config, w: World)
    requires Grace(tape, cfg, w).Goes?
    ensures Escalate(tape, cfg, w).world.run.begun == Walk(tape, cfg, Grace(tape, cfg, w).world, 0).world.run.begun
  {}

  // ---- runs that cannot be in vain -----------------------------------------

  lemma NeverInVain(tape: Tape, cfg: Config, early: Option<string>, k: nat)
    requires cfg.delay <= 0.0 && StartsBlindly(cfg, k)
    ensures !InVain(tape, cfg, early)
  {
    if Spends(tape, cfg) {
      var w := Admitted(tape, cfg, early);
      AdmittedGoesOn(tape, cfg, early);
      EscalateSends(tape, cfg, w);
      BlindFirst(tape, early, cfg, w, k);
    }
  }

  // ---- runs that are -------------------------------------------------------

  /** Everything returns, but the operator cancels during await `at`. */
  function CancelledAt(at: nat): Tape {
    n => Reply([], if n == at then Cancelled(true) else Returns, Queued, true)
  }

  /** An operator cancels during the grace period: nothing is sent, and the camera has alerted. */
  lemma CancelledInGrace(cfg: Config, early: Option<string>)
    requires !cfg.shadow && cfg.chain != [] && cfg.delay > 0.0
    ensures InVain(CancelledAt(SleepAt(cfg)), cfg, early)
    ensures Complete(CancelledAt(SleepAt(cfg)), cfg, early).run.status == CANCELLED
  {
    var tape := CancelledAt(SleepAt(cfg));
    var w := Admitted(tape, cfg, early);
    AdmittedGoesOn(tape, cfg, early);
    GraceLaws(tape, early, cfg, w);
    var published := Publish(tape, cfg, w);
    assert published.Goes? && published.world.clock == SleepAt(cfg);
    assert Grace(tape, cfg, w).Stops?;
    assert Execute(tape, cfg, Initial(early)) == Grace(tape, cfg, w);
  }

  lemma SilentTry(tape: Tape, early: Option<string>, cfg: Config, w: World, k: nat)
    requires k < |cfg.chain| && Placed(tape, early, cfg, w, k) && w.acked.Some? && !Sends(cfg, k)
    ensures cfg.chain[k].call ==>
              Placed(tape, early, cfg, w, k + 1) && Walk(tape, cfg, w, k) == Walk(tape, cfg, w, k + 1)
    ensures !cfg.chain[k].call ==> Walk(tape, cfg, w, k) == Goes(true, w)
  {
    TrySends(tape, early, cfg, w, k);
    WalkStep(tape, early, cfg, w, k);
  }

  predicate PassedOver(cfg: Config, k: nat) {
    k <= |cfg.chain| && forall l :: 0 <= l < k ==> !Sends(cfg, l) && cfg.chain[l].call
  }

  /** Somebody has acknowledged, and the walk finds out before it comes to anybody to send to,
      or there is nobody. */
  lemma {:induction false} SilentStart(tape: Tape, early: Option<string>, cfg: Config, w: World, k: nat)
    requires PassedOver(cfg, k) && Placed(tape, early, cfg, w, k) && w.acked.Some?
    requires forall q: nat :: !StartsBlindly(cfg, q)
    ensures Walk(tape, cfg, w, k).world == w
    decreases |cfg.chain| - k
  {
    if k < |cfg.chain| {
      assert !StartsBlindly(cfg, k);
      SilentTry(tape, early, cfg, w, k);
      if cfg.chain[k].call {
        SilentStart(tape, early, cfg, w, k + 1);
      }
    }
  }

  lemma FoundOut(cfg: Config) returns (tape: Tape, early: Option<string>)
    requires !cfg.shadow && cfg.delay <= 0.0 && forall q: nat :: !StartsBlindly(cfg, q)
    ensures InVain(tape, cfg, early)
  {
    tape, early := Smooth(0, "x", Queued), Some("x");
    var w := Admitted(tape, cfg, early);
    AdmittedGoesOn(tape, cfg, early);
    if cfg.chain != [] {
      AckStays(tape, early, 0, w.clock);
      EscalateSends(tape, cfg, w);
      SilentStart(tape, early, cfg, w, 0);
    }
  }

  /** Some run is let through by the cooldown and sends nothing exactly if the site is not in
      shadow mode and has a grace period, or looks for an acknowledgement before its first send,
      or has nothing to send. */
  lemma InVainExactlyWhen(cfg: Config)
    ensures (exists tape: Tape, early: Option<string> :: InVain(tape, cfg, early))
            <==> !cfg.shadow && (cfg.delay > 0.0 || forall k: nat :: !StartsBlindly(cfg, k))
  {
    forall tape: Tape, early: Option<string>, k: nat | cfg.delay <= 0.0 && StartsBlindly(cfg, k)
      ensures !InVain(tape, cfg, early)
    {
      NeverInVain(tape, cfg, early, k);
    }
    if !cfg.shadow {
      if cfg.delay > 0.0 {
        if cfg.chain == [] {
          AdmittedGoesOn(Smooth(0, "x", Queued), cfg, None);
          assert InVain(Smooth(0, "x", Queued), cfg, None);
        } else {
          CancelledInGrace(cfg, None);
        }
      } else if forall k: nat :: !StartsBlindly(cfg, k) {
        var tape, early := FoundOut(cfg);
      }
    }
  }

  // ---- the next alert ------------------------------------------------------

  /** A run whose camera has alerted less than its cooldown ago sends nothing, whatever became
      of the run that alerted then. */
  lemma NextAlertSilenced(qs: seq<Query>, k: nat, j: nat, tape: Tape, cfg: Config, early: Option<string>)
    requires Sensible(qs) && k < j < |qs| && AcceptedFor(qs, k, qs[j].camera)
    requires qs[j].now - qs[k].now < qs[j].cooldown
    requires tape(Gate(cfg)).yes == Accepted(qs, j)
    ensures Complete(tape, cfg, early).run.begun == []
  {
    AcceptedExactlyWhen(qs, j);
    var start := OneWalk(tape, cfg, early);
  }

  /** Two incidents of one camera within its cooldown: the first is cancelled during the grace
      period, and nobody hears of either. */
  lemma NobodyHears(qs: seq<Query>, j: nat, cfg: Config, next: Config, tape: Tape, early: Option<string>)
    requires Sensible(qs) && 0 < j < |qs| && qs[j].camera == qs[0].camera
    requires qs[j].now - qs[0].now < qs[j].cooldown
    requires !cfg.shadow && cfg.chain != [] && cfg.delay > 0.0
    requires tape(Gate(next)).yes == Accepted(qs, j)
    ensures var first := CancelledAt(SleepAt(cfg));
            && first(Gate(cfg)).yes == Accepted(qs, 0)
            && Complete(first, cfg, None).run.begun == []
            && Complete(tape, next, early).run.begun == []
  {
    CancelledInGrace(cfg, None);
    NextAlertSilenced(qs, 0, j, tape, next, early);
  }
}
