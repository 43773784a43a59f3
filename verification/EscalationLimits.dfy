/** Where escalation does less than its documentation says, and exactly when
    (firemex/notify/dispatcher.py). */
module EscalationLimits {
  import opened Geometry
  import opened Escalation
  import opened EscalationLaws
  import opened EscalationWalks
  import opened EscalationRuns
  import opened EscalationCalm

  /** The answer of a try is the state of the bus when it returns. */
  predicate Hears(cfg: Config, k: nat, tape: Tape, early: Option<string>, w: World)
    requires k < |cfg.chain|
  {
    Good(tape, early, w) && Settled(w) ==>
      var f := TryContact(tape, cfg, w, k);
      f.Goes? ==> f.answer == f.world.acked.Some?
  }

  /** A try hears every acknowledgement exactly if the contact is not to be called or the
      site can call. */
  lemma HearsExactlyWhen(cfg: Config, k: nat)
    requires k < |cfg.chain|
    ensures (forall tape: Tape, early: Option<string>, w: World :: Hears(cfg, k, tape, early, w))
            <==> (cfg.voice || !cfg.chain[k].call)
  {
    var c := cfg.chain[k];
    if cfg.voice || !c.call {
      forall tape: Tape, early: Option<string>, w: World
        ensures Hears(cfg, k, tape, early, w)
      {
        if Good(tape, early, w) && Settled(w) {
          if Texted(cfg, k) {
            SendLaws(tape, early, cfg, w, Step(Sms, k, c.id));
          }
          var texted := Text(tape, cfg, w, k);
          if texted.Goes? && c.call {
            CallsLaws(tape, early, cfg, texted.world, Step(Call, k, c.id), c.retries + 1);
          }
        }
      }
    } else {
      var tape, early := Smooth(0, c.id, Queued), Some(c.id);
      assert !Hears(cfg, k, tape, early, Initial(early));
    }
  }

  /** With no voice channel an acknowledged incident can still end EXHAUSTED: the one contact
      answers the text, which is not looked at because the contact is also to be called. */
  lemma UnheardAcknowledgement()
    ensures var contact := Contact("c", true, true, 0);
            var cfg := Config(false, 0.0, [contact], false, true, false, false);
            var w := Complete(Smooth(1, "c", Queued), cfg, None);
            && w.run.status == EXHAUSTED && w.acked == Some("c")
            && AckedBy(Smooth(1, "c", Queued), None, w.run.finished.value)
  {
    var contact := Contact("c", true, true, 0);
    var cfg := Config(false, 0.0, [contact], false, true, false, false);
    var tape := Smooth(1, "c", Queued);
    var asked := Ask(tape, Initial(None));
    assert asked.Goes? && asked.world.clock == 1;
    var texted := Text(tape, cfg, asked.world, 0);
    assert texted.Goes? && texted.world.acked == Some("c") && texted.world.clock == 2;
    assert TryContact(tape, cfg, asked.world, 0) == Goes(false, texted.world);
    assert Walk(tape, cfg, texted.world, 1) == Goes(false, texted.world);
    assert Walk(tape, cfg, asked.world, 0) == Goes(false, texted.world);
    AckAt(tape, 1);
  }

  lemma AckAt(tape: Tape, n: nat)
    requires tape(0).acks == [] && n == 1
    ensures FirstAck(tape, None, 2) == if tape(1).acks != [] then Some(tape(1).acks[0]) else None
  {}

  /** An acknowledgement does not stop the first call: here it comes during the grace
      period, and the phone rings all the same. */
  lemma RingsAfterAcknowledgement()
    ensures var contact := Contact("c", false, true, 0);
            var cfg := Config(false, 20.0, [contact], true, true, false, false);
            var run := Complete(Smooth(1, "d", Queued), cfg, None).run;
            && |run.begun| == 1 && run.begun[0].step.channel == Call
            && AckedBy(Smooth(1, "d", Queued), None, run.begun[0].at)
            && run.status == ACKNOWLEDGED && run.acknowledgedBy == Some("d")
  {}

  // ---- acknowledgements nobody looks at ------------------------------------

  /** The acknowledgement of a text is not looked at if the contact is also to be called. */
  lemma OverlookedText(cfg: Config, tape: Tape, w: World, k: nat)
    requires k < |cfg.chain| && !cfg.voice && Texted(cfg, k) && cfg.chain[k].call
    requires Calm(tape, w.clock) && Placed(tape, None, cfg, w, k) && w.acked == None
    ensures var f := TryContact(tape, cfg, w, k);
            && GoesOn(f) && f.world.acked.Some?
            && Placed(tape, None, cfg, f.world, k + 1)
            && |f.world.run.begun| == |w.run.begun| + 1
            && f.world.run.begun[|w.run.begun|].step.position == k
  {
    TryLaws(tape, None, cfg, w, k);
    TextLaws(tape, None, cfg, w, k);
  }

  lemma DeafTry(cfg: Config, tape: Tape, at: nat, w: World, k: nat)
    requires Calm(tape, at) && k < |cfg.chain| && !cfg.voice && cfg.chain[k].call && w.acked.Some?
    ensures var f := TryContact(tape, cfg, w, k);
            GoesOn(f) && f.world.acked.Some?
  {}

  lemma DeafStep(cfg: Config, tape: Tape, at: nat, early: Option<string>, w: World, k: nat) returns (v: World)
    requires Calm(tape, at) && k < |cfg.chain| && !cfg.voice && cfg.chain[k].call && w.acked.Some?
    requires Placed(tape, early, cfg, w, k)
    ensures Placed(tape, early, cfg, v, k + 1) && v.acked.Some?
    ensures Walk(tape, cfg, w, k) == Walk(tape, cfg, v, k + 1)
  {
    DeafTry(cfg, tape, at, w, k);
    WalkStep(tape, early, cfg, w, k);
    v := TryContact(tape, cfg, w, k).world;
  }

  predicate AllToBeCalled(cfg: Config, k: nat) {
    forall l :: k <= l < |cfg.chain| ==> cfg.chain[l].call
  }

  /** Nobody is heard although somebody has acknowledged. */
  predicate Overheard(tape: Tape, early: Option<string>, f: Flow) {
    GoesOn(f) && Good(tape, early, f.world) && f.world.acked.Some?
  }

  lemma WalkEnds(tape: Tape, early: Option<string>, cfg: Config, w: World)
    requires Placed(tape, early, cfg, w, |cfg.chain|) && w.acked.Some?
    ensures Overheard(tape, early, Walk(tape, cfg, w, |cfg.chain|))
  {}

  /** From contacts who are all to be called, with no voice channel, nobody is ever heard. */
  lemma {:induction false} DeafWalk(cfg: Config, tape: Tape, at: nat, early: Option<string>, w: World, k: nat)
    requires Calm(tape, at) && k <= |cfg.chain| && !cfg.voice && Placed(tape, early, cfg, w, k)
    requires w.acked.Some? && AllToBeCalled(cfg, k)
    ensures Overheard(tape, early, Walk(tape, cfg, w, k))
    decreases |cfg.chain| - k
  {
    if k == |cfg.chain| {
      WalkEnds(tape, early, cfg, w);
    } else {
      var v := DeafStep(cfg, tape, at, early, w, k);
      DeafWalk(cfg, tape, at, early, v, k + 1);
    }
  }

  // ---- the exact conditions ------------------------------------------------

  /** The run ends EXHAUSTED although somebody has acknowledged before its verdict. */
  predicate Unheard(tape: Tape, cfg: Config, early: Option<string>) {
    var run := Complete(tape, cfg, early).run;
    run.status == EXHAUSTED && run.finished.Some? && AckedBy(tape, early, run.finished.value)
  }

  /** All contacts are to be called, or the last that is not has a text after it. */
  lemma LastListener(cfg: Config) returns (j: nat)
    requires !Heard(cfg)
    ensures j <= |cfg.chain| && AllToBeCalled(cfg, j)
    ensures j == 0 || (j < |cfg.chain| && Texted(cfg, j))
  {
    j := |cfg.chain|;
    while j > 0 && cfg.chain[j - 1].call
      invariant j <= |cfg.chain| && forall l :: j <= l < |cfg.chain| ==> cfg.chain[l].call
    {
      j := j - 1;
    }
    if j > 0 {
      var m := j - 1;
      assert !Listens(cfg, m);
      j :| m < j < |cfg.chain| && Texted(cfg, j);
    }
  }

  /** The text of `j` is acknowledged, and everybody from `j` on is to be called. */
  lemma DeafFrom(cfg: Config, tape: Tape, w: World, j: nat)
    requires j < |cfg.chain| && !cfg.voice && Texted(cfg, j) && w.acked == None
    requires Calm(tape, w.clock) && Placed(tape, None, cfg, w, j) && AllToBeCalled(cfg, j)
    ensures Overheard(tape, None, Walk(tape, cfg, w, j))
  {
    OverlookedText(cfg, tape, w, j);
    DeafWalk(cfg, tape, w.clock, None, TryContact(tape, cfg, w, j).world, j + 1);
  }

  /** From contact `j`, whose text is acknowledged, or from the start, where somebody already
      has, everybody is to be called and nobody can be. */
  lemma UnheardRun(cfg: Config) returns (tape: Tape, early: Option<string>)
    requires !cfg.shadow && cfg.chain != [] && !Heard(cfg)
    ensures Unheard(tape, cfg, early)
  {
    var j := LastListener(cfg);
    var at := Lead(cfg) + Offset(cfg, j);
    tape, early := Smooth(at, "x", Queued), if j == 0 then Some("x") else None;
    CalmStart(cfg, tape, at, early);
    var start := StartOf(tape, cfg, early);
    if j == 0 {
      DeafWalk(cfg, tape, at, early, start, 0);
    } else {
      var w := CalmWalk(cfg, tape, at, start, 0, j);
      DeafFrom(cfg, tape, w, j);
    }
    CalmEnd(cfg, tape, at, early);
  }

  /** Some run ends EXHAUSTED after an acknowledgement exactly if the site has no voice channel
      and every contact that is not to be called is followed by one that gets a text. */
  lemma UnheardExactlyWhen(cfg: Config)
    ensures (exists tape: Tape, early: Option<string> :: Unheard(tape, cfg, early))
            <==> !cfg.shadow && cfg.chain != [] && !Heard(cfg)
  {
    if !cfg.shadow && cfg.chain != [] && !Heard(cfg) {
      var tape, early := UnheardRun(cfg);
    }
    forall tape: Tape, early: Option<string> | Unheard(tape, cfg, early)
      ensures !cfg.shadow && cfg.chain != [] && !Heard(cfg)
    {
      EveryRun(tape, cfg, early);
    }
  }

  /** Send `j` begins after an acknowledgement, and goes to another contact than the one before. */
  predicate CarriesOn(tape: Tape, cfg: Config, early: Option<string>, j: nat) {
    var begun := Complete(tape, cfg, early).run.begun;
    && 0 < j < |begun| && begun[j - 1].step.position != begun[j].step.position
    && AckedBy(tape, early, begun[j].at)
  }

  /** Contacts who are to be called but get no text leave the world alone. */
  lemma {:induction false} SkipWalk(tape: Tape, early: Option<string>, cfg: Config, w: World, k: nat, q: nat)
    requires k <= q <= |cfg.chain| && Placed(tape, early, cfg, w, k) && !cfg.voice
    requires forall l :: k <= l < q ==> cfg.chain[l].call && !Texted(cfg, l)
    ensures Placed(tape, early, cfg, w, q) && Walk(tape, cfg, w, k) == Walk(tape, cfg, w, q)
    decreases q - k
  {
    if k < q {
      TrySends(tape, early, cfg, w, k);
      WalkStep(tape, early, cfg, w, k);
      assert Walk(tape, cfg, w, k) == Walk(tape, cfg, w, k + 1);
      SkipWalk(tape, early, cfg, w, k + 1, q);
    }
  }

  lemma CarriedText(tape: Tape, cfg: Config, v: World, q: nat)
    requires q < |cfg.chain| && Placed(tape, None, cfg, v, q) && v.run.begun != []
    requires Texted(cfg, q) && v.acked.Some?
    ensures var b := Walk(tape, cfg, v, q).world.run.begun;
            && |b| > |v.run.begun| && v.run.begun <= b
            && b[|v.run.begun|].step.position == q
            && AckedBy(tape, None, b[|v.run.begun|].at)
  {
    TrySends(tape, None, cfg, v, q);
    WalkStep(tape, None, cfg, v, q);
  }

  /** The text of `p` is acknowledged, and `q` gets one all the same. */
  lemma CarriedFrom(cfg: Config, tape: Tape, w: World, p: nat, q: nat)
    requires Overlooks(cfg, p, q) && w.acked == None && Calm(tape, w.clock) && Placed(tape, None, cfg, w, p)
    ensures var b, n := Walk(tape, cfg, w, p).world.run.begun, |w.run.begun|;
            && |b| > n + 1 && b[n].step.position == p && b[n + 1].step.position == q
            && AckedBy(tape, None, b[n + 1].at)
  {
    OverlookedText(cfg, tape, w, p);
    var v := TryContact(tape, cfg, w, p).world;
    assert Walk(tape, cfg, w, p) == Walk(tape, cfg, v, p + 1);
    CarriedOver(tape, cfg, v, p, q);
  }

  lemma CarriedOver(tape: Tape, cfg: Config, v: World, p: nat, q: nat)
    requires Overlooks(cfg, p, q) && Placed(tape, None, cfg, v, p + 1) && v.run.begun != [] && v.acked.Some?
    ensures var b, n := Walk(tape, cfg, v, p + 1).world.run.begun, |v.run.begun|;
            && |b| > n && v.run.begun <= b && b[n].step.position == q && AckedBy(tape, None, b[n].at)
  {
    SkipWalk(tape, None, cfg, v, p + 1, q);
    CarriedText(tape, cfg, v, q);
  }

  lemma CarryingRun(cfg: Config, p: nat, q: nat) returns (tape: Tape, j: nat)
    requires !cfg.shadow && Overlooks(cfg, p, q)
    ensures CarriesOn(tape, cfg, None, j)
  {
    var at := Lead(cfg) + Offset(cfg, p);
    tape := Smooth(at, "x", Queued);
    CalmStart(cfg, tape, at, None);
    var w := CalmWalk(cfg, tape, at, StartOf(tape, cfg, None), 0, p);
    CarriedFrom(cfg, tape, w, p, q);
    CalmEnd(cfg, tape, at, None);
    j := |w.run.begun| + 1;
  }

  /** A later contact is attempted after an acknowledgement in some run exactly if the site
      has no voice channel and two contacts get texts one after the other while the first and
      all between are to be called. */
  lemma CarriesOnExactlyWhen(cfg: Config)
    ensures (exists tape: Tape, early: Option<string>, j: nat :: CarriesOn(tape, cfg, early, j))
            <==> !cfg.shadow && exists p: nat, q: nat :: Overlooks(cfg, p, q)
  {
    if !cfg.shadow && exists p: nat, q: nat :: Overlooks(cfg, p, q) {
      var p: nat, q: nat :| Overlooks(cfg, p, q);
      var tape, j := CarryingRun(cfg, p, q);
    }
    forall tape: Tape, early: Option<string>, j: nat | CarriesOn(tape, cfg, early, j)
      ensures !cfg.shadow && exists p: nat, q: nat :: Overlooks(cfg, p, q)
    {
      NextContact(tape, cfg, early, j);
      var start := OneWalk(tape, cfg, early);
    }
  }

  // ---- any send after an acknowledgement -----------------------------------

  /** Send `j` begins after an acknowledgement. */
  predicate SendsLate(tape: Tape, cfg: Config, early: Option<string>, j: nat) {
    var begun := Complete(tape, cfg, early).run.begun;
    j < |begun| && AckedBy(tape, early, begun[j].at)
  }

  /** Contact `k` is the first to get anything, and those passed over are all to be called:
      nothing looks for an acknowledgement before the first send. */
  predicate StartsBlindly(cfg: Config, k: nat) {
    k < |cfg.chain| && Sends(cfg, k) && forall l :: 0 <= l < k ==> !Sends(cfg, l) && cfg.chain[l].call
  }

  /** Contact `k` is called after a text, or again after a call that failed, without a look at
      the bus in between. */
  predicate CallsBlindly(cfg: Config, k: nat) {
    k < |cfg.chain| && cfg.voice && cfg.chain[k].call && (Texted(cfg, k) || cfg.chain[k].retries >= 1)
  }

  lemma FirstLateSend(tape: Tape, cfg: Config, early: Option<string>)
    requires SendsLate(tape, cfg, early, 0)
    ensures exists k: nat :: StartsBlindly(cfg, k)
  {
    var start := OneWalk(tape, cfg, early);
    FirstSend(tape, early, cfg, start, 0);
    var first := Complete(tape, cfg, early).run.begun[0];
    assert Leads(cfg, start, 0, first);
    assert StartsBlindly(cfg, first.step.position);
  }

  lemma PairFor(cfg: Config, k: nat, i: nat)
    requires k < |cfg.chain| && i < |PlanFor(cfg, k)|
    ensures PlanFor(cfg, k)[i].position == k
    ensures i > 0 ==> CallsBlindly(cfg, k)
  {}

  /** Two planned steps for one contact: the second is a call. */
  lemma {:induction false} PlannedPair(cfg: Config, k: nat, j: nat)
    requires k <= |cfg.chain| && 0 < j < |Plan(cfg, k)|
    requires Plan(cfg, k)[j - 1].position == Plan(cfg, k)[j].position
    ensures CallsBlindly(cfg, Plan(cfg, k)[j].position)
    decreases k
  {
    var m := |Plan(cfg, k - 1)|;
    if j < m {
      PlannedPair(cfg, k - 1, j);
    } else {
      PairFor(cfg, k - 1, j - m);
      if j == m {
        PlanPositions(cfg, k - 1, j - 1);
      }
    }
  }

  lemma LateSend(tape: Tape, cfg: Config, early: Option<string>, j: nat)
    requires SendsLate(tape, cfg, early, j)
    ensures !cfg.shadow
    ensures (exists k: nat :: StartsBlindly(cfg, k)) || (exists k: nat :: CallsBlindly(cfg, k))
            || (exists p: nat, q: nat :: Overlooks(cfg, p, q))
  {
    var start := OneWalk(tape, cfg, early);
    var begun := Complete(tape, cfg, early).run.begun;
    if j == 0 {
      FirstLateSend(tape, cfg, early);
    } else if begun[j - 1].step.position == begun[j].step.position {
      EveryRun(tape, cfg, early);
      PlannedPair(cfg, |cfg.chain|, j);
    } else {
      NextContact(tape, cfg, early, j);
    }
  }

  lemma BlindFirst(tape: Tape, early: Option<string>, cfg: Config, w: World, k: nat)
    requires StartsBlindly(cfg, k) && Placed(tape, early, cfg, w, 0)
    ensures var b := Walk(tape, cfg, w, 0).world.run.begun;
            |b| > |w.run.begun| && b[|w.run.begun|].at == w.clock
  {
    if k > 0 {
      assert !Sends(cfg, 0) && cfg.chain[0].call;
      SkipWalk(tape, early, cfg, w, 0, k);
    }
    TrySends(tape, early, cfg, w, k);
    WalkStep(tape, early, cfg, w, k);
  }

  /** Somebody acknowledges before the run starts. */
  lemma BlindStart(cfg: Config, k: nat) returns (tape: Tape, early: Option<string>)
    requires !cfg.shadow && StartsBlindly(cfg, k)
    ensures SendsLate(tape, cfg, early, 0)
  {
    tape, early := Smooth(0, "x", Queued), Some("x");
    CalmStart(cfg, tape, 0, early);
    CalmEnd(cfg, tape, 0, early);
    BlindFirst(tape, early, cfg, StartOf(tape, cfg, early), k);
  }

  /** The first send to `k` is acknowledged and, if it is a call, fails: another call begins. */
  lemma BlindTry(cfg: Config, tape: Tape, w: World, k: nat)
    requires CallsBlindly(cfg, k) && Calm(tape, w.clock) && Failing(tape)
    requires Placed(tape, None, cfg, w, k) && w.acked == None
    ensures var b, n := TryContact(tape, cfg, w, k).world.run.begun, |w.run.begun|;
            |b| > n + 1 && b[n + 1].at > w.clock
  {
    TextLaws(tape, None, cfg, w, k);
    var texted := Text(tape, cfg, w, k);
    assert texted.Goes?;
    assert TryContact(tape, cfg, w, k) == CallsOf(tape, cfg, texted.world, k);
    CallsOfExtends(tape, None, cfg, texted.world, k);
    if !Texted(cfg, k) {
      CalledAgain(cfg, tape, w, Step(Call, k, cfg.chain[k].id), cfg.chain[k].retries);
    }
  }

  lemma CalledAgain(cfg: Config, tape: Tape, w: World, step: Step, left: nat)
    requires Calm(tape, w.clock) && Failing(tape) && Good(tape, None, w) && Settled(w) && left >= 1
    ensures var b, n := Calls(tape, cfg, w, step, left + 1).world.run.begun, |w.run.begun|;
            |b| > n + 1 && b[n + 1].at > w.clock
  {
    SendLaws(tape, None, cfg, w, step);
    var sent := Send(tape, cfg, w, step).world;
    RingLaws(tape, None, cfg, sent, step);
    var rung := Ring(tape, cfg, sent, step);
    CallsLaws(tape, None, cfg, rung.world, step, left - 1);
  }

  lemma AckedAfter(tape: Tape, at: nat, n: nat)
    requires Calm(tape, at) && n > at
    ensures AckedBy(tape, None, n)
  {
    assert AckedBy(tape, None, at + 1);
    AckStays(tape, None, at + 1, n);
  }

  lemma BlindCall(cfg: Config, k: nat) returns (tape: Tape, j: nat)
    requires !cfg.shadow && CallsBlindly(cfg, k)
    ensures SendsLate(tape, cfg, None, j)
  {
    var at := Lead(cfg) + Offset(cfg, k);
    tape := Smooth(at, "x", Failed);
    CalmStart(cfg, tape, at, None);
    var w := CalmWalk(cfg, tape, at, StartOf(tape, cfg, None), 0, k);
    BlindTry(cfg, tape, w, k);
    WalkStep(tape, None, cfg, w, k);
    CalmEnd(cfg, tape, at, None);
    j := |w.run.begun| + 1;
    AckedAfter(tape, at, TryContact(tape, cfg, w, k).world.run.begun[j].at);
  }

  /** Some run begins a send after an acknowledgement exactly if the site is not in shadow mode
      and nothing looks for one before the first send, between a text and the call to the
      same contact or between two calls of which the first failed, or between the texts of two
      contacts. */
  lemma SendsLateExactlyWhen(cfg: Config)
    ensures (exists tape: Tape, early: Option<string>, j: nat :: SendsLate(tape, cfg, early, j))
            <==> !cfg.shadow && ((exists k: nat :: StartsBlindly(cfg, k)) || (exists k: nat :: CallsBlindly(cfg, k))
                                 || (exists p: nat, q: nat :: Overlooks(cfg, p, q)))
  {
    forall tape: Tape, early: Option<string>, j: nat | SendsLate(tape, cfg, early, j)
      ensures !cfg.shadow && ((exists k: nat :: StartsBlindly(cfg, k)) || (exists k: nat :: CallsBlindly(cfg, k))
                              || (exists p: nat, q: nat :: Overlooks(cfg, p, q)))
    {
      LateSend(tape, cfg, early, j);
    }
    if !cfg.shadow {
      if k: nat :| StartsBlindly(cfg, k) {
        var tape, early := BlindStart(cfg, k);
      }
      if k: nat :| CallsBlindly(cfg, k) {
        var tape, j := BlindCall(cfg, k);
      }
      if p: nat, q: nat :| Overlooks(cfg, p, q) {
        var tape, j := CarryingRun(cfg, p, q);
        assert SendsLate(tape, cfg, None, j);
      }
    }
  }
}
