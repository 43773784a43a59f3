/** What every escalation run keeps, whatever the world answers
    (firemex/notify/dispatcher.py). */
module EscalationLaws {
  import opened Geometry
  import opened Escalation

  // ---- the plan by position ------------------------------------------------

  lemma {:induction false} PlanGrows(cfg: Config, k: nat, m: nat)
    requires k <= m <= |cfg.chain|
    ensures Plan(cfg, k) <= Plan(cfg, m)
    decreases m
  {
    if k < m {
      PlanGrows(cfg, k, m - 1);
    }
  }

  lemma PlanAt(cfg: Config, k: nat)
    requires k < |cfg.chain|
    ensures |Plan(cfg, k + 1)| == |Plan(cfg, k)| + |PlanFor(cfg, k)| <= |FullPlan(cfg)|
    ensures forall i :: |Plan(cfg, k)| <= i < |Plan(cfg, k + 1)| ==>
              FullPlan(cfg)[i] == PlanFor(cfg, k)[i - |Plan(cfg, k)|]
  {
    PlanGrows(cfg, k + 1, |cfg.chain|);
    assert Plan(cfg, k + 1) == Plan(cfg, k) + PlanFor(cfg, k);
  }

  // ---- acknowledgements over time ------------------------------------------

  predicate AckedBy(tape: Tape, early: Option<string>, n: nat) {
    FirstAck(tape, early, n).Some?
  }

  lemma {:induction false} AckStays(tape: Tape, early: Option<string>, n: nat, m: nat)
    requires n <= m && AckedBy(tape, early, n)
    ensures FirstAck(tape, early, m) == FirstAck(tape, early, n)
    decreases m
  {
    if n < m {
      AckStays(tape, early, n, m - 1);
    }
  }

  // ---- the shape of the record ---------------------------------------------

  /** Attempts record the sends begun, in order, with the outcome the provider gave; only
      the last one may still be missing.  The bus holds the first acknowledgement. */
  predicate Good(tape: Tape, early: Option<string>, w: World) {
    && w.acked == FirstAck(tape, early, w.clock)
    && |w.run.attempts| <= |w.run.begun| <= |w.run.attempts| + 1
    && (forall i :: 0 <= i < |w.run.attempts| ==>
          w.run.attempts[i] == Attempt(w.run.begun[i].step, tape(w.run.begun[i].at).outcome))
    && (forall i :: 0 <= i < |w.run.begun| ==> w.run.begun[i].at < w.clock)
  }

  predicate Settled(w: World) {
    |w.run.attempts| == |w.run.begun|
  }

  predicate Follows(begun: seq<Begin>, plan: seq<Step>) {
    |begun| <= |plan| && forall i :: 0 <= i < |begun| ==> begun[i].step == plan[i]
  }

  /** A piece of the run that started at `w` only added to the record, with at most three
      awaits for each send. */
  predicate Extends(tape: Tape, early: Option<string>, w: World, f: Flow) {
    && Good(tape, early, f.world)
    && w.run.begun <= f.world.run.begun
    && w.clock <= f.world.clock <= w.clock + 3 * (|f.world.run.begun| - |w.run.begun|)
    && (f.Goes? ==> Settled(f.world))
    && (f.Stops? ==> Blamed(tape, f))
    && (f.Stops? && f.cause.Exception? ==> SendRaised(f.world))
  }

  /** The last await was that of the last send. */
  predicate SendRaised(w: World) {
    w.run.begun != [] && w.run.begun[|w.run.begun| - 1].at + 1 == w.clock
  }

  /** A piece that stops does so at its last await, for the reason that one gives. */
  predicate Blamed(tape: Tape, f: Flow)
    requires f.Stops?
  {
    && f.world.clock > 0
    && match f.cause
       case Exception => tape(f.world.clock - 1).fate.Raises?
       case Cancellation => tape(f.world.clock - 1).fate.Cancelled?
  }

  lemma AwaitLaws(tape: Tape, early: Option<string>, w: World)
    requires Good(tape, early, w)
    ensures var n := Await(tape, w);
            && Good(tape, early, n) && n.clock == w.clock + 1
            && n.run.begun == w.run.begun && n.run.attempts == w.run.attempts
  {}

  lemma SendLaws(tape: Tape, early: Option<string>, cfg: Config, w: World, step: Step)
    requires Good(tape, early, w) && Settled(w)
    ensures var s := Send(tape, cfg, w, step);
            && Extends(tape, early, w, s)
            && s.world.run.begun == w.run.begun + [Begin(step, w.clock)]
            && w.clock < s.world.clock
  {
    var n := Await(tape, Started(w, step));
    assert Good(tape, early, n) && n.run.attempts == w.run.attempts;
    if tape(w.clock).fate.Returns? {
      var r := Recorded(n, step, tape(w.clock).outcome);
      assert Good(tape, early, r);
      AwaitLaws(tape, early, r);
    }
  }

  lemma RingLaws(tape: Tape, early: Option<string>, cfg: Config, w: World, step: Step)
    requires Good(tape, early, w) && Settled(w)
    ensures var s := Ring(tape, cfg, w, step);
            && Extends(tape, early, w, s)
            && s.world.run.begun == w.run.begun + [Begin(step, w.clock)]
            && (s.Goes? && s.answer ==> s.world.acked.Some?)
            && (s.Goes? && !s.answer && AckedBy(tape, early, w.clock) ==> tape(w.clock).outcome == Failed)
  {
    var sent := Send(tape, cfg, w, step);
    SendLaws(tape, early, cfg, w, step);
    AwaitLaws(tape, early, sent.world);
    if AckedBy(tape, early, w.clock) {
      AckStays(tape, early, w.clock, sent.world.clock);
    }
  }

  lemma {:induction false} CallsLaws(tape: Tape, early: Option<string>, cfg: Config, w: World, step: Step, left: nat)
    requires Good(tape, early, w) && Settled(w)
    ensures var f := Calls(tape, cfg, w, step, left);
            && Extends(tape, early, w, f)
            && |f.world.run.begun| <= |w.run.begun| + left
            && (forall i :: |w.run.begun| <= i < |f.world.run.begun| ==> f.world.run.begun[i].step == step)
            && (f.Goes? && !f.answer ==> |f.world.run.begun| == |w.run.begun| + left)
            && (f.Goes? ==> f.answer == f.world.acked.Some?)
    decreases left
  {
    if left > 0 {
      var rung := Ring(tape, cfg, w, step);
      RingLaws(tape, early, cfg, w, step);
      if rung.Goes? && !rung.answer {
        CallsLaws(tape, early, cfg, rung.world, step, left - 1);
      }
    }
  }

  /** A call that is followed by another had failed, or nobody had acknowledged when it began. */
  lemma {:induction false} CallsWinding(tape: Tape, early: Option<string>, cfg: Config, w: World, step: Step, left: nat,
                                        i: nat, j: nat)
    requires Good(tape, early, w) && Settled(w)
    requires var b := Calls(tape, cfg, w, step, left).world.run.begun;
             |w.run.begun| <= i < j < |b| && AckedBy(tape, early, b[i].at)
    ensures tape(Calls(tape, cfg, w, step, left).world.run.begun[i].at).outcome == Failed
    decreases left
  {
    if left > 0 {
      var rung := Ring(tape, cfg, w, step);
      RingLaws(tape, early, cfg, w, step);
      if rung.Goes? && !rung.answer {
        CallsLaws(tape, early, cfg, rung.world, step, left - 1);
        if i > |w.run.begun| {
          CallsWinding(tape, early, cfg, rung.world, step, left - 1, i, j);
        }
      }
    }
  }

  /** Every contact that is to be called can be: the guard under which the answer of a try
      is the state of the bus. */
  predicate Reachable(cfg: Config) {
    cfg.voice || forall c :: c in cfg.chain ==> !c.call
  }

  /** The walk is about to try contact `k`: everything planned for those before has been done. */
  predicate Placed(tape: Tape, early: Option<string>, cfg: Config, w: World, k: nat)
    requires k <= |cfg.chain|
  {
    && Good(tape, early, w) && Settled(w)
    && Follows(w.run.begun, FullPlan(cfg)) && |w.run.begun| == |Plan(cfg, k)|
  }

  /** Contact `k` gets a text. */
  predicate Texted(cfg: Config, k: nat)
    requires k < |cfg.chain|
  {
    cfg.chain[k].sms && cfg.text
  }

  lemma TextLaws(tape: Tape, early: Option<string>, cfg: Config, w: World, k: nat)
    requires k < |cfg.chain| && Placed(tape, early, cfg, w, k)
    ensures var c := cfg.chain[k];
            var f := Text(tape, cfg, w, k);
            && Extends(tape, early, w, f)
            && Follows(f.world.run.begun, FullPlan(cfg))
            && f.world.run.begun == w.run.begun + (if Texted(cfg, k) then [Begin(Step(Sms, k, c.id), w.clock)] else [])
            && (!Texted(cfg, k) ==> f == Goes(false, w))
  {
    var c := cfg.chain[k];
    PlanAt(cfg, k);
    if Texted(cfg, k) {
      SendLaws(tape, early, cfg, w, Step(Sms, k, c.id));
      assert PlanFor(cfg, k)[0] == Step(Sms, k, c.id);
    }
  }

  /** The calls of contact `k` come after its text in the plan. */
  lemma CallsPlanned(cfg: Config, k: nat, i: nat)
    requires k < |cfg.chain|
    requires var c := cfg.chain[k];
             c.call && cfg.voice
             && |Plan(cfg, k)| + Texts(cfg, k) <= i < |Plan(cfg, k)| + Texts(cfg, k) + c.retries + 1
    ensures i < |FullPlan(cfg)| && FullPlan(cfg)[i] == Step(Call, k, cfg.chain[k].id)
  {
    PlanAt(cfg, k);
    assert FullPlan(cfg)[i] == PlanFor(cfg, k)[i - |Plan(cfg, k)|];
  }

  function Texts(cfg: Config, k: nat): nat
    requires k < |cfg.chain|
  {
    if Texted(cfg, k) then 1 else 0
  }

  function CallsOf(tape: Tape, cfg: Config, w: World, k: nat): Flow
    requires k < |cfg.chain|
  {
    Calls(tape, cfg, w, Step(Call, k, cfg.chain[k].id), cfg.chain[k].retries + 1)
  }

  lemma FollowsOn(begun: seq<Begin>, more: seq<Begin>, plan: seq<Step>)
    requires Follows(begun, plan) && begun <= more
    requires forall i :: |begun| <= i < |more| ==> i < |plan| && plan[i] == more[i].step
    ensures Follows(more, plan)
  {
    if |begun| < |more| {
      assert more[|more| - 1].step == plan[|more| - 1];
    }
  }

  lemma CallsOfLaws(tape: Tape, early: Option<string>, cfg: Config, w: World, k: nat)
    requires k < |cfg.chain| && Good(tape, early, w) && Settled(w)
    requires Follows(w.run.begun, FullPlan(cfg)) && |w.run.begun| == |Plan(cfg, k)| + Texts(cfg, k)
    requires cfg.chain[k].call && cfg.voice
    ensures var f := CallsOf(tape, cfg, w, k);
            && Extends(tape, early, w, f)
            && Follows(f.world.run.begun, FullPlan(cfg))
            && (forall i :: |w.run.begun| <= i < |f.world.run.begun| ==>
                  f.world.run.begun[i].step == Step(Call, k, cfg.chain[k].id))
            && (f.Goes? && !f.answer ==> |f.world.run.begun| == |Plan(cfg, k + 1)|)
            && (f.Goes? ==> f.answer == f.world.acked.Some?)
  {
    var c := cfg.chain[k];
    PlanAt(cfg, k);
    var call := Step(Call, k, c.id);
    CallsLaws(tape, early, cfg, w, call, c.retries + 1);
    var b := CallsOf(tape, cfg, w, k).world.run.begun;
    forall i | |w.run.begun| <= i < |b|
      ensures i < |FullPlan(cfg)| && FullPlan(cfg)[i] == b[i].step
    {
      CallsPlanned(cfg, k, i);
    }
    FollowsOn(w.run.begun, b, FullPlan(cfg));
  }

  lemma CallsOfWinding(tape: Tape, early: Option<string>, cfg: Config, w: World, k: nat, i: nat, j: nat)
    requires k < |cfg.chain| && Good(tape, early, w) && Settled(w)
    requires var b := CallsOf(tape, cfg, w, k).world.run.begun;
             |w.run.begun| <= i < j < |b| && AckedBy(tape, early, b[i].at)
    ensures tape(CallsOf(tape, cfg, w, k).world.run.begun[i].at).outcome == Failed
  {
    CallsWinding(tape, early, cfg, w, Step(Call, k, cfg.chain[k].id), cfg.chain[k].retries + 1, i, j);
  }

  /** The first call to a contact begins at once. */
  lemma CallsOfExtends(tape: Tape, early: Option<string>, cfg: Config, w: World, k: nat)
    requires k < |cfg.chain| && Good(tape, early, w) && Settled(w)
    ensures var b := CallsOf(tape, cfg, w, k).world.run.begun;
            w.run.begun <= b && |b| > |w.run.begun| && b[|w.run.begun|].at == w.clock
  {
    var step := Step(Call, k, cfg.chain[k].id);
    RingLaws(tape, early, cfg, w, step);
    var rung := Ring(tape, cfg, w, step);
    if rung.Goes? && !rung.answer {
      CallsLaws(tape, early, cfg, rung.world, step, cfg.chain[k].retries);
    }
  }

  lemma TryLaws(tape: Tape, early: Option<string>, cfg: Config, w: World, k: nat)
    requires k < |cfg.chain| && Placed(tape, early, cfg, w, k)
    ensures var f := TryContact(tape, cfg, w, k);
            && Extends(tape, early, w, f)
            && Follows(f.world.run.begun, FullPlan(cfg))
            && (forall i :: |w.run.begun| <= i < |f.world.run.begun| ==> f.world.run.begun[i].step.position == k)
            && (f.Goes? && !f.answer ==> |f.world.run.begun| == |Plan(cfg, k + 1)|)
            && (f.Goes? && f.answer ==> f.world.acked.Some?)
            && (f.Goes? && (cfg.voice || !cfg.chain[k].call) ==> f.answer == f.world.acked.Some?)
  {
    TextLaws(tape, early, cfg, w, k);
    PlanAt(cfg, k);
    var texted := Text(tape, cfg, w, k);
    if texted.Goes? && cfg.chain[k].call && cfg.voice {
      CallsOfLaws(tape, early, cfg, texted.world, k);
    }
  }

  /** Two calls to contact `k`: if somebody had acknowledged before the earlier one began,
      that one failed. */
  lemma TryWinding(tape: Tape, early: Option<string>, cfg: Config, w: World, k: nat, i: nat, j: nat)
    requires k < |cfg.chain| && Placed(tape, early, cfg, w, k)
    requires var b := TryContact(tape, cfg, w, k).world.run.begun;
             |w.run.begun| <= i < j < |b| && b[i].step.channel == Call && AckedBy(tape, early, b[i].at)
    ensures tape(TryContact(tape, cfg, w, k).world.run.begun[i].at).outcome == Failed
  {
    TextLaws(tape, early, cfg, w, k);
    var texted := Text(tape, cfg, w, k);
    var c := cfg.chain[k];
    if texted.Goes? && c.call && cfg.voice {
      assert TryContact(tape, cfg, w, k) == CallsOf(tape, cfg, texted.world, k);
      CallsOfExtends(tape, early, cfg, texted.world, k);
      CallsOfWinding(tape, early, cfg, texted.world, k, i, j);
    }
  }
}
