/** When things happen in an escalation run: a call that got through is waited for, and every
    send and the end of the chain have their time (firemex/notify/dispatcher.py). */
module EscalationWaits {
  import opened Geometry
  import opened Escalation
  import opened EscalationLaws
  import opened EscalationWalks
  import opened EscalationRuns
  import opened EscalationCalm

  /** The reply after a send has returned and been published: the one that a call waits for. */
  function WaitAt(cfg: Config, b: Begin): nat {
    b.at + 1 + Publishing(cfg)
  }

  /** The reply that is next when the send is over and nobody has answered: a call that was not
      refused has been waited for. */
  function Over(tape: Tape, cfg: Config, b: Begin): nat {
    WaitAt(cfg, b) + if b.step.channel == Call && tape(b.at).outcome != Failed then 1 else 0
  }

  /** A text, a call that failed, or one whose wait began with no acknowledgement and ended, not by
      a cancel, without one in time. */
  predicate Unanswered(tape: Tape, cfg: Config, early: Option<string>, b: Begin) {
    var t := WaitAt(cfg, b);
    || b.step.channel == Sms || tape(b.at).outcome == Failed
    || (!AckedBy(tape, early, t) && !tape(t).fate.Cancelled? && !(AckedBy(tape, early, t + 1) && tape(t).yes))
  }

  /** A call that got through, for which an acknowledgement came during the wait. */
  predicate AnsweredInTime(tape: Tape, cfg: Config, early: Option<string>, b: Begin) {
    var t := WaitAt(cfg, b);
    && b.step.channel == Call && tape(b.at).fate.Returns? && tape(b.at).outcome != Failed
    && (cfg.publishes ==> !tape(b.at + 1).fate.Cancelled?)
    && !AckedBy(tape, early, t) && !tape(t).fate.Cancelled? && AckedBy(tape, early, t + 1) && tape(t).yes
  }

  // ---- pieces of a run -----------------------------------------------------

  function LastOf(w: World): Begin
    requires w.run.begun != []
  {
    w.run.begun[|w.run.begun| - 1]
  }

  /** Send `y` begins when `x` is over and unanswered. */
  predicate FollowsOnTime(tape: Tape, cfg: Config, early: Option<string>, x: Begin, y: Begin) {
    Unanswered(tape, cfg, early, x) && y.at == Over(tape, cfg, x)
  }

  /** The sends from `n` on follow each other without a gap. */
  predicate Gapless(tape: Tape, cfg: Config, early: Option<string>, b: seq<Begin>, n: nat) {
    forall j :: n < j < |b| ==> FollowsOnTime(tape, cfg, early, b[j - 1], b[j])
  }

  /** So do those of a piece of the run that started at `w`, from its start. */
  predicate InTime(tape: Tape, cfg: Config, early: Option<string>, w: World, f: Flow) {
    var b, n := f.world.run.begun, |w.run.begun|;
    && w.run.begun <= b
    && (|b| > n ==> b[n].at == w.clock)
    && Gapless(tape, cfg, early, b, n)
  }

  /** How a piece ends: unanswered when its last send is over, or answered in time. */
  predicate EndsInTime(tape: Tape, cfg: Config, early: Option<string>, w: World, f: Flow) {
    var sent := |f.world.run.begun| > |w.run.begun|;
    && (f.Goes? && !sent ==> f.world.clock == w.clock)
    && (GoesOn(f) && sent ==>
          Unanswered(tape, cfg, early, LastOf(f.world)) && f.world.clock == Over(tape, cfg, LastOf(f.world)))
    && (sent && AnsweredInTime(tape, cfg, early, LastOf(f.world)) ==>
          f.Goes? && f.answer && f.world.clock == WaitAt(cfg, LastOf(f.world)) + 1)
  }

  predicate Piece(tape: Tape, cfg: Config, early: Option<string>, w: World, f: Flow) {
    InTime(tape, cfg, early, w, f) && EndsInTime(tape, cfg, early, w, f)
  }

  lemma NotBoth(tape: Tape, cfg: Config, early: Option<string>, b: Begin)
    ensures !(Unanswered(tape, cfg, early, b) && AnsweredInTime(tape, cfg, early, b))
  {}

  lemma GaplessOn(tape: Tape, cfg: Config, early: Option<string>, a: seq<Begin>, b: seq<Begin>, n: nat)
    requires a <= b && n <= |a| && Gapless(tape, cfg, early, a, n) && Gapless(tape, cfg, early, b, |a|)
    requires n < |a| < |b| ==> FollowsOnTime(tape, cfg, early, a[|a| - 1], b[|a|])
    ensures Gapless(tape, cfg, early, b, n)
  {
    forall j | n < j < |b|
      ensures FollowsOnTime(tape, cfg, early, b[j - 1], b[j])
    {
      assert b[j - 1] == if j <= |a| then a[j - 1] else b[j - 1];
      if j < |a| {
        assert b[j] == a[j] && FollowsOnTime(tape, cfg, early, a[j - 1], a[j]);
      }
    }
  }

  lemma ComposeTimes(tape: Tape, cfg: Config, early: Option<string>, w: World, f: Flow, g: Flow)
    requires Piece(tape, cfg, early, w, f) && GoesOn(f) && Piece(tape, cfg, early, f.world, g)
    ensures InTime(tape, cfg, early, w, g)
  {
    var a, b, n := f.world.run.begun, g.world.run.begun, |w.run.begun|;
    GaplessOn(tape, cfg, early, a, b, n);
    assert |a| > n ==> b[n] == a[n];
  }

  lemma ComposeEnds(tape: Tape, cfg: Config, early: Option<string>, w: World, f: Flow, g: Flow)
    requires Piece(tape, cfg, early, w, f) && GoesOn(f) && Piece(tape, cfg, early, f.world, g)
    ensures EndsInTime(tape, cfg, early, w, g)
  {
    if |g.world.run.begun| == |f.world.run.begun| {
      assert g.world.run.begun == f.world.run.begun;
      if g.world.run.begun != [] {
        NotBoth(tape, cfg, early, LastOf(g.world));
      }
    }
  }

  /** Pieces follow each other. */
  lemma Compose(tape: Tape, cfg: Config, early: Option<string>, w: World, f: Flow, g: Flow)
    requires Piece(tape, cfg, early, w, f) && GoesOn(f) && Piece(tape, cfg, early, f.world, g)
    ensures Piece(tape, cfg, early, w, g)
  {
    ComposeTimes(tape, cfg, early, w, f, g);
    ComposeEnds(tape, cfg, early, w, f, g);
  }

  lemma NoSends(tape: Tape, cfg: Config, early: Option<string>, w: World, answer: bool)
    ensures Piece(tape, cfg, early, w, Goes(answer, w))
  {}

  lemma SendTimes(tape: Tape, early: Option<string>, cfg: Config, w: World, step: Step)
    requires Good(tape, early, w) && Settled(w)
    ensures var s := Send(tape, cfg, w, step);
            && s.world.run.begun == w.run.begun + [Begin(step, w.clock)]
            && (s.Goes? <==> tape(w.clock).fate.Returns? && (cfg.publishes ==> !tape(w.clock + 1).fate.Cancelled?))
            && (s.Goes? ==> GoesOn(s) && s.world.clock == w.clock + 1 + Publishing(cfg) && Good(tape, early, s.world))
  {
    SendLaws(tape, early, cfg, w, step);
  }

  lemma TextPiece(tape: Tape, early: Option<string>, cfg: Config, w: World, step: Step)
    requires Good(tape, early, w) && Settled(w) && step.channel == Sms
    ensures Piece(tape, cfg, early, w, Send(tape, cfg, w, step))
  {
    SendTimes(tape, early, cfg, w, step);
  }

  lemma WaitTimes(tape: Tape, early: Option<string>, w: World)
    requires Good(tape, early, w)
    ensures var f := WaitForAck(tape, w);
            && f.world.run.begun == w.run.begun
            && (AckedBy(tape, early, w.clock) ==> f == Goes(true, w))
            && (!AckedBy(tape, early, w.clock) ==>
                  && f.world.clock == w.clock + 1 && (f.Goes? <==> !tape(w.clock).fate.Cancelled?)
                  && (f.Goes? ==> (f.answer <==> AckedBy(tape, early, w.clock + 1) && tape(w.clock).yes)))
  {
    AwaitLaws(tape, early, w);
  }

  lemma OneSendInTime(tape: Tape, cfg: Config, early: Option<string>, w: World, f: Flow, step: Step)
    requires f.world.run.begun == w.run.begun + [Begin(step, w.clock)]
    ensures InTime(tape, cfg, early, w, f) && LastOf(f.world) == Begin(step, w.clock)
  {}

  lemma RingEnds(tape: Tape, early: Option<string>, cfg: Config, w: World, step: Step)
    requires Good(tape, early, w) && Settled(w) && step.channel == Call
    ensures Ring(tape, cfg, w, step).world.run.begun == w.run.begun + [Begin(step, w.clock)]
    ensures EndsInTime(tape, cfg, early, w, Ring(tape, cfg, w, step))
  {
    var sent := Send(tape, cfg, w, step);
    SendTimes(tape, early, cfg, w, step);
    if sent.Goes? {
      WaitTimes(tape, early, sent.world);
    }
  }

  lemma RingPiece(tape: Tape, early: Option<string>, cfg: Config, w: World, step: Step)
    requires Good(tape, early, w) && Settled(w) && step.channel == Call
    ensures Piece(tape, cfg, early, w, Ring(tape, cfg, w, step))
  {
    RingEnds(tape, early, cfg, w, step);
    OneSendInTime(tape, cfg, early, w, Ring(tape, cfg, w, step), step);
  }

  lemma {:induction false} CallsPiece(tape: Tape, early: Option<string>, cfg: Config, w: World, step: Step, left: nat)
    requires Good(tape, early, w) && Settled(w) && step.channel == Call
    ensures Piece(tape, cfg, early, w, Calls(tape, cfg, w, step, left))
    decreases left
  {
    if left == 0 {
      NoSends(tape, cfg, early, w, w.acked.Some?);
    } else {
      var rung := Ring(tape, cfg, w, step);
      RingPiece(tape, early, cfg, w, step);
      RingLaws(tape, early, cfg, w, step);
      if GoesOn(rung) {
        CallsPiece(tape, early, cfg, rung.world, step, left - 1);
        Compose(tape, cfg, early, w, rung, Calls(tape, cfg, rung.world, step, left - 1));
      }
    }
  }

  lemma TextedPiece(tape: Tape, early: Option<string>, cfg: Config, w: World, k: nat)
    requires k < |cfg.chain| && Placed(tape, early, cfg, w, k)
    ensures Piece(tape, cfg, early, w, Text(tape, cfg, w, k))
  {
    if Texted(cfg, k) {
      TextPiece(tape, early, cfg, w, Step(Sms, k, cfg.chain[k].id));
    } else {
      NoSends(tape, cfg, early, w, false);
    }
  }

  /** The answer of a piece that ends with a text may be the state of the bus. */
  lemma Reanswered(tape: Tape, cfg: Config, early: Option<string>, w: World, f: Flow, answer: bool)
    requires Piece(tape, cfg, early, w, f) && GoesOn(f)
    ensures Piece(tape, cfg, early, w, Goes(answer, f.world))
  {
    if f.world.run.begun != [] {
      NotBoth(tape, cfg, early, LastOf(f.world));
    }
  }

  lemma TryPiece(tape: Tape, early: Option<string>, cfg: Config, w: World, k: nat)
    requires k < |cfg.chain| && Placed(tape, early, cfg, w, k)
    ensures Piece(tape, cfg, early, w, TryContact(tape, cfg, w, k))
  {
    var c, texted := cfg.chain[k], Text(tape, cfg, w, k);
    TextedPiece(tape, early, cfg, w, k);
    TextLaws(tape, early, cfg, w, k);
    if texted.Goes? {
      TextGoesOn(tape, cfg, w, k);
      if !c.call {
        Reanswered(tape, cfg, early, w, texted, texted.world.acked.Some?);
      } else if cfg.voice {
        CallsPiece(tape, early, cfg, texted.world, Step(Call, k, c.id), c.retries + 1);
        Compose(tape, cfg, early, w, texted, CallsOf(tape, cfg, texted.world, k));
      }
    }
  }

  lemma TextGoesOn(tape: Tape, cfg: Config, w: World, k: nat)
    requires k < |cfg.chain| && Text(tape, cfg, w, k).Goes?
    ensures GoesOn(Text(tape, cfg, w, k))
  {}

  lemma {:induction false} WalkPiece(tape: Tape, early: Option<string>, cfg: Config, w: World, k: nat)
    requires k <= |cfg.chain| && Placed(tape, early, cfg, w, k)
    ensures Piece(tape, cfg, early, w, Walk(tape, cfg, w, k))
    decreases |cfg.chain| - k
  {
    if k == |cfg.chain| {
      NoSends(tape, cfg, early, w, false);
    } else {
      var tried := TryContact(tape, cfg, w, k);
      TryPiece(tape, early, cfg, w, k);
      WalkStep(tape, early, cfg, w, k);
      if GoesOn(tried) {
        WalkPiece(tape, early, cfg, tried.world, k + 1);
        Compose(tape, cfg, early, w, tried, Walk(tape, cfg, tried.world, k + 1));
      }
    }
  }

  // ---- whole runs ----------------------------------------------------------

  lemma GraceTimes(tape: Tape, early: Option<string>, cfg: Config, w: World)
    requires Idle(tape, early, w) && w.clock == Gate(cfg) + 1
    ensures var f := Grace(tape, cfg, w);
            f.Goes? ==> Placed(tape, early, cfg, f.world, 0) && f.world.clock == Lead(cfg)
  {
    GraceLaws(tape, early, cfg, w);
  }

  /** The verdict on a walk that came to its end. */
  function Judgement(tape: Tape, cfg: Config, walked: Flow): Status {
    if cfg.publishes && tape(walked.world.clock).fate.Cancelled? then CANCELLED
    else if walked.Goes? && walked.answer then ACKNOWLEDGED else EXHAUSTED
  }

  lemma FinishEnds(tape: Tape, cfg: Config, w: World, status: Status)
    ensures var n := Handle(tape, cfg, Finish(tape, cfg, w, status));
            && n.run.begun == w.run.begun
            && n.run.status == (if cfg.publishes && tape(w.clock).fate.Cancelled? then CANCELLED else status)
            && (n.run.status != CANCELLED ==> n.run.finished == Some(w.clock))
  {}

  lemma EscalateEnds(tape: Tape, cfg: Config, w: World)
    requires Grace(tape, cfg, w).Goes?
    ensures var walked := Walk(tape, cfg, Grace(tape, cfg, w).world, 0);
            var n := Handle(tape, cfg, Escalate(tape, cfg, w));
            && n.run.begun == walked.world.run.begun
            && (walked.Goes? ==> n.run.status == Judgement(tape, cfg, walked))
            && (walked.Goes? && n.run.status != CANCELLED ==> n.run.finished == Some(walked.world.clock))
            && (n.run.status == EXHAUSTED ==> GoesOn(walked))
  {
    var walked := Walk(tape, cfg, Grace(tape, cfg, w).world, 0);
    if walked.Goes? {
      if walked.answer {
        FinishEnds(tape, cfg, walked.world.(run := walked.world.run.(acknowledgedBy := walked.world.acked)),
                   ACKNOWLEDGED);
      } else {
        FinishEnds(tape, cfg, walked.world, EXHAUSTED);
      }
    }
  }

  lemma StoppedEnds(tape: Tape, cfg: Config, f: Flow)
    requires f.Stops?
    ensures var n := Handle(tape, cfg, f);
            n.run.status != EXHAUSTED && n.run.begun == f.world.run.begun
  {}

  /** The run gets as far as the walk. */
  predicate GetsThrough(tape: Tape, cfg: Config, early: Option<string>) {
    var announced := Announce(tape, cfg, Initial(early));
    var asked := Ask(tape, announced.world);
    && announced.Goes? && !cfg.shadow && asked.Goes? && asked.answer && cfg.chain != []
    && Grace(tape, cfg, asked.world).Goes?
  }

  lemma GetsThroughRuns(tape: Tape, cfg: Config, early: Option<string>)
    requires GetsThrough(tape, cfg, early)
    ensures Execute(tape, cfg, Initial(early))
            == Escalate(tape, cfg, Ask(tape, Announce(tape, cfg, Initial(early)).world).world)
  {}

  /** Otherwise it sends nothing, and the chain is not exhausted. */
  lemma EarlyEnds(tape: Tape, cfg: Config, early: Option<string>)
    requires !GetsThrough(tape, cfg, early)
    ensures var run := Complete(tape, cfg, early).run;
            run.begun == [] && run.status != EXHAUSTED
  {
    var w := Initial(early);
    assert Idle(tape, early, w);
    AnnounceLaws(tape, early, cfg, w);
    var announced := Announce(tape, cfg, w);
    AskLaws(tape, early, announced.world);
    var asked := Ask(tape, announced.world);
    if announced.Stops? {
      StoppedEnds(tape, cfg, announced);
    } else if cfg.shadow {
      FinishEnds(tape, cfg, announced.world, SHADOW);
    } else if asked.Stops? {
      StoppedEnds(tape, cfg, asked);
    } else if !asked.answer {
      FinishEnds(tape, cfg, asked.world, SUPPRESSED);
    } else if cfg.chain == [] {
      FinishEnds(tape, cfg, asked.world, NO_CONTACTS);
    } else {
      GraceLaws(tape, early, cfg, asked.world);
      StoppedEnds(tape, cfg, Grace(tape, cfg, asked.world));
    }
  }

  /** A run that sends anything, or exhausts its chain, walks the chain from the end of the grace
      period on, and ends as the walk does. */
  lemma RunWalks(tape: Tape, cfg: Config, early: Option<string>) returns (start: World)
    ensures var run := Complete(tape, cfg, early).run;
            var walked := Walk(tape, cfg, start, 0);
            run.begun != [] || run.status == EXHAUSTED ==>
              && Placed(tape, early, cfg, start, 0) && start.clock == Lead(cfg) && start.run.begun == []
              && run.begun == walked.world.run.begun
              && (walked.Goes? ==> run.status == Judgement(tape, cfg, walked))
              && (walked.Goes? && run.status != CANCELLED ==> run.finished == Some(walked.world.clock))
              && (run.status == EXHAUSTED ==> GoesOn(walked))
  {
    var w := Initial(early);
    assert Idle(tape, early, w);
    AnnounceLaws(tape, early, cfg, w);
    var asked := Ask(tape, Announce(tape, cfg, w).world).world;
    AskLaws(tape, early, Announce(tape, cfg, w).world);
    GraceTimes(tape, early, cfg, asked);
    start := Grace(tape, cfg, asked).world;
    if GetsThrough(tape, cfg, early) {
      GetsThroughRuns(tape, cfg, early);
      EscalateEnds(tape, cfg, asked);
    } else {
      EarlyEnds(tape, cfg, early);
    }
  }

  /** What becomes of a run whose webhook, cooldown question and publishing return: in shadow mode it
      has its verdict when the webhook has returned, otherwise it asks for the cooldown, and has its
      verdict then if it is refused or there is nobody to call. */
  lemma EarlyVerdicts(tape: Tape, cfg: Config, early: Option<string>)
    requires forall t: nat :: t <= Gate(cfg) + 1 ==> tape(t).fate.Returns?
    ensures var run := Complete(tape, cfg, early).run;
            && (cfg.shadow ==> run.status == SHADOW && run.finished == Some(Gate(cfg)))
            && (!cfg.shadow && !tape(Gate(cfg)).yes ==> run.status == SUPPRESSED && run.finished == Some(Gate(cfg) + 1))
            && (!cfg.shadow && tape(Gate(cfg)).yes && cfg.chain == [] ==>
                  run.status == NO_CONTACTS && run.finished == Some(Gate(cfg) + 1))
  {
    var w := Initial(early);
    assert Idle(tape, early, w);
    AnnounceLaws(tape, early, cfg, w);
    var announced := Announce(tape, cfg, w);
    assert announced.Goes?;
    AskLaws(tape, early, announced.world);
    var asked := Ask(tape, announced.world);
    if cfg.shadow {
      FinishEnds(tape, cfg, announced.world, SHADOW);
    } else if !asked.answer {
      FinishEnds(tape, cfg, asked.world, SUPPRESSED);
    } else if cfg.chain == [] {
      FinishEnds(tape, cfg, asked.world, NO_CONTACTS);
    }
  }

  /** In every run: the first send begins when the grace period is over, and every other one when
      the one before is over and unanswered.  A call that got through is thus waited for, and what
      follows it had no acknowledgement in time. */
  lemma EverySendOnTime(tape: Tape, cfg: Config, early: Option<string>, j: nat)
    requires j < |Complete(tape, cfg, early).run.begun|
    ensures var begun := Complete(tape, cfg, early).run.begun;
            if j == 0 then begun[j].at == Lead(cfg) else FollowsOnTime(tape, cfg, early, begun[j - 1], begun[j])
  {
    var start := RunWalks(tape, cfg, early);
    WalkPiece(tape, early, cfg, start, 0);
  }

  /** In every run the chain is given up when its last send is over and unanswered. */
  lemma ExhaustedOnTime(tape: Tape, cfg: Config, early: Option<string>)
    requires Complete(tape, cfg, early).run.status == EXHAUSTED
    ensures var run := Complete(tape, cfg, early).run;
            if run.begun == [] then run.finished == Some(Lead(cfg))
            else
              var last := run.begun[|run.begun| - 1];
              Unanswered(tape, cfg, early, last) && run.finished == Some(Over(tape, cfg, last))
  {
    var start := RunWalks(tape, cfg, early);
    WalkPiece(tape, early, cfg, start, 0);
  }

  lemma AnswerIsLast(tape: Tape, cfg: Config, early: Option<string>, i: nat)
    requires var begun := Complete(tape, cfg, early).run.begun;
             i < |begun| && AnsweredInTime(tape, cfg, early, begun[i])
    ensures i == |Complete(tape, cfg, early).run.begun| - 1
  {
    var begun := Complete(tape, cfg, early).run.begun;
    NotBoth(tape, cfg, early, begun[i]);
    if i + 1 < |begun| {
      EverySendOnTime(tape, cfg, early, i + 1);
    }
  }

  /** In every run a call that is answered during its wait is the last send, and the verdict is
      ACKNOWLEDGED, unless publishing it is cancelled. */
  lemma AnswerEnds(tape: Tape, cfg: Config, early: Option<string>, i: nat)
    requires var begun := Complete(tape, cfg, early).run.begun;
             i < |begun| && AnsweredInTime(tape, cfg, early, begun[i])
    ensures var run := Complete(tape, cfg, early).run;
            var t := WaitAt(cfg, run.begun[i]) + 1;
            && i == |run.begun| - 1
            && run.status == if cfg.publishes && tape(t).fate.Cancelled? then CANCELLED else ACKNOWLEDGED
  {
    AnswerIsLast(tape, cfg, early, i);
    var start := RunWalks(tape, cfg, early);
    WalkPiece(tape, early, cfg, start, 0);
    assert Complete(tape, cfg, early).run.begun[i] == LastOf(Walk(tape, cfg, start, 0).world);
  }
}
