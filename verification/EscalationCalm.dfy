/** Escalation runs in which nothing goes wrong and one person acknowledges: the runs that show
    what a configuration lets happen (firemex/notify/dispatcher.py). */
module EscalationCalm {
  import opened Geometry
  import opened Escalation
  import opened EscalationLaws
  import opened EscalationWalks
  import opened EscalationRuns

  /** Nothing raises, nothing is cancelled, and acknowledgements arrive during await `at` only. */
  ghost predicate Calm(tape: Tape, at: nat) {
    forall n: nat :: tape(n).fate == Returns && tape(n).yes && (tape(n).acks != [] <==> n == at)
  }

  /** No send gets through. */
  ghost predicate Failing(tape: Tape) {
    forall n: nat :: tape(n).outcome == Failed
  }

  /** Every send has this outcome, and `who` acknowledges during await `at`. */
  function Smooth(at: nat, who: string, outcome: Outcome): Tape {
    n => Reply(if n == at then [who] else [], Returns, outcome, true)
  }

  // ---- up to the acknowledgement -------------------------------------------

  /** The awaits that `n` sends take if none of them is waited for. */
  function Spent(cfg: Config, n: nat): nat {
    if cfg.publishes then 2 * n else n
  }

  function Cost(cfg: Config, k: nat): nat
    requires k < |cfg.chain|
  {
    Spent(cfg, |PlanFor(cfg, k)|)
  }

  function Offset(cfg: Config, k: nat): nat
    requires k <= |cfg.chain|
  {
    if k == 0 then 0 else Offset(cfg, k - 1) + Cost(cfg, k - 1)
  }

  /** The awaits before the walk. */
  function Lead(cfg: Config): nat {
    Gate(cfg) + 1 + if cfg.delay > 0.0 then Publishing(cfg) + 1 else 0
  }

  lemma CalmSend(cfg: Config, tape: Tape, at: nat, w: World, step: Step)
    requires Calm(tape, at) && w.acked == None && w.clock + Spent(cfg, 1) <= at
    ensures var f := Send(tape, cfg, w, step);
            f.Goes? && f.world.acked == None && f.world.clock == w.clock + Spent(cfg, 1)
  {}

  lemma {:induction false} CalmCalls(cfg: Config, tape: Tape, at: nat, w: World, step: Step, left: nat)
    requires Calm(tape, at) && Failing(tape) && w.acked == None && w.clock + Spent(cfg, left) <= at
    ensures var f := Calls(tape, cfg, w, step, left);
            GoesOn(f) && f.world.acked == None && f.world.clock == w.clock + Spent(cfg, left)
    decreases left
  {
    if left > 0 {
      CalmSend(cfg, tape, at, w, step);
      CalmCalls(cfg, tape, at, Send(tape, cfg, w, step).world, step, left - 1);
    }
  }

  /** Without an acknowledgement, and if no call gets through, a try takes its awaits and goes on. */
  lemma CalmTry(cfg: Config, tape: Tape, at: nat, w: World, k: nat)
    requires k < |cfg.chain| && Calm(tape, at) && (cfg.voice ==> Failing(tape))
    requires w.acked == None && w.clock + Cost(cfg, k) <= at
    ensures var f := TryContact(tape, cfg, w, k);
            GoesOn(f) && f.world.acked == None && f.world.clock == w.clock + Cost(cfg, k)
  {
    var c := cfg.chain[k];
    if Texted(cfg, k) {
      CalmSend(cfg, tape, at, w, Step(Sms, k, c.id));
    }
    if c.call && cfg.voice {
      CalmCalls(cfg, tape, at, Text(tape, cfg, w, k).world, Step(Call, k, c.id), c.retries + 1);
    }
  }

  lemma CalmStep(cfg: Config, tape: Tape, at: nat, w: World, k: nat) returns (v: World)
    requires k < |cfg.chain| && Calm(tape, at) && (cfg.voice ==> Failing(tape))
    requires Placed(tape, None, cfg, w, k) && w.acked == None && w.clock + Cost(cfg, k) <= at
    ensures Placed(tape, None, cfg, v, k + 1) && v.acked == None && v.clock == w.clock + Cost(cfg, k)
    ensures Walk(tape, cfg, w, k) == Walk(tape, cfg, v, k + 1)
  {
    CalmTry(cfg, tape, at, w, k);
    WalkStep(tape, None, cfg, w, k);
    v := TryContact(tape, cfg, w, k).world;
  }

  lemma {:induction false} CalmWalk(cfg: Config, tape: Tape, at: nat, w: World, k: nat, j: nat) returns (v: World)
    requires k <= j <= |cfg.chain| && Calm(tape, at) && (cfg.voice ==> Failing(tape))
    requires Placed(tape, None, cfg, w, k)
    requires w.acked == None && w.clock == Lead(cfg) + Offset(cfg, k) && Lead(cfg) + Offset(cfg, j) <= at
    ensures Placed(tape, None, cfg, v, j) && v.acked == None && v.clock == Lead(cfg) + Offset(cfg, j)
    ensures Walk(tape, cfg, w, k) == Walk(tape, cfg, v, j)
    decreases j - k
  {
    v := w;
    if k < j {
      OffsetGrows(cfg, k + 1, j);
      var next := CalmStep(cfg, tape, at, w, k);
      v := CalmWalk(cfg, tape, at, next, k + 1, j);
    }
  }

  lemma {:induction false} OffsetGrows(cfg: Config, k: nat, j: nat)
    requires k <= j <= |cfg.chain|
    ensures Offset(cfg, k) <= Offset(cfg, j)
    decreases j
  {
    if k < j {
      OffsetGrows(cfg, k, j - 1);
    }
  }

  // ---- the whole run -------------------------------------------------------

  /** Where the walk starts if nothing has stopped the run. */
  function StartOf(tape: Tape, cfg: Config, early: Option<string>): World {
    Grace(tape, cfg, Ask(tape, Announce(tape, cfg, Initial(early)).world).world).world
  }

  lemma CalmStart(cfg: Config, tape: Tape, at: nat, early: Option<string>)
    requires Calm(tape, at) && (early.Some? || Lead(cfg) <= at)
    ensures var start := StartOf(tape, cfg, early);
            && Placed(tape, early, cfg, start, 0)
            && start.acked == early && start.clock == Lead(cfg)
  {
    var w := Initial(early);
    AnnounceLaws(tape, early, cfg, w);
    var announced := Announce(tape, cfg, w).world;
    AskLaws(tape, early, announced);
    GraceLaws(tape, early, cfg, Ask(tape, announced).world);
  }

  /** A calm run sends what its walk does, and ends EXHAUSTED if nobody is heard. */
  lemma CalmEnd(cfg: Config, tape: Tape, at: nat, early: Option<string>)
    requires Calm(tape, at) && !cfg.shadow && cfg.chain != []
    ensures var walked := Walk(tape, cfg, StartOf(tape, cfg, early), 0);
            var run := Complete(tape, cfg, early).run;
            && run.begun == walked.world.run.begun
            && (GoesOn(walked) ==> run.status == EXHAUSTED && run.finished == Some(walked.world.clock))
  {
    var asked := Ask(tape, Announce(tape, cfg, Initial(early)).world).world;
    assert Execute(tape, cfg, Initial(early)) == Escalate(tape, cfg, asked);
    CalmEscalation(cfg, tape, at, asked);
    SameLog(tape, cfg, early);
  }

  lemma CalmEscalation(cfg: Config, tape: Tape, at: nat, w: World)
    requires Calm(tape, at)
    ensures var walked, f := Walk(tape, cfg, Grace(tape, cfg, w).world, 0), Escalate(tape, cfg, w);
            && f.world.run.begun == walked.world.run.begun
            && (GoesOn(walked) ==>
                  f.Goes? && f.world.run.status == EXHAUSTED && f.world.run.finished == Some(walked.world.clock))
  {
    assert Grace(tape, cfg, w).Goes?;
  }
}
