/** The walk over the chain (firemex/notify/dispatcher.py, the loop of _execute): what it
    sends, to whom it goes on, and what its answer says. */
module EscalationWalks {
  import opened Geometry
  import opened Escalation
  import opened EscalationLaws

  lemma {:induction false} WalkLaws(tape: Tape, early: Option<string>, cfg: Config, w: World, k: nat)
    requires k <= |cfg.chain| && Placed(tape, early, cfg, w, k)
    ensures var f := Walk(tape, cfg, w, k);
            && Extends(tape, early, w, f)
            && Follows(f.world.run.begun, FullPlan(cfg))
            && (GoesOn(f) ==> |f.world.run.begun| == |FullPlan(cfg)|)
            && (f.Goes? && f.answer ==> f.world.acked.Some?)
    decreases |cfg.chain| - k
  {
    if k < |cfg.chain| {
      TryLaws(tape, early, cfg, w, k);
      var tried := TryContact(tape, cfg, w, k);
      if GoesOn(tried) {
        WalkLaws(tape, early, cfg, tried.world, k + 1);
      }
    }
  }

  predicate GoesOn(f: Flow) {
    f.Goes? && !f.answer
  }

  /** One contact further: the walk ends here or goes on from where the try left the world. */
  lemma WalkStep(tape: Tape, early: Option<string>, cfg: Config, w: World, k: nat)
    requires k < |cfg.chain| && Placed(tape, early, cfg, w, k)
    ensures var tried, walked := TryContact(tape, cfg, w, k), Walk(tape, cfg, w, k);
            && Good(tape, early, tried.world)
            && w.run.begun <= tried.world.run.begun <= walked.world.run.begun
            && (forall i :: |w.run.begun| <= i < |tried.world.run.begun| ==>
                  walked.world.run.begun[i].step.position == k)
            && (GoesOn(tried) ==>
                  && Placed(tape, early, cfg, tried.world, k + 1)
                  && walked == Walk(tape, cfg, tried.world, k + 1)
                  && (cfg.voice ==> tried.world.acked.None?))
            && (!GoesOn(tried) ==> walked == tried)
  {
    TryLaws(tape, early, cfg, w, k);
    var tried := TryContact(tape, cfg, w, k);
    if GoesOn(tried) {
      WalkLaws(tape, early, cfg, tried.world, k + 1);
    }
  }

  // ---- going on to the next contact ----------------------------------------

  /** Contact `k` gets a text or a call. */
  predicate Sends(cfg: Config, k: nat)
    requires k < |cfg.chain|
  {
    Texted(cfg, k) || (cfg.chain[k].call && cfg.voice)
  }

  /** A try sends at once or not at all, and without sending it leaves the world alone. */
  lemma TrySends(tape: Tape, early: Option<string>, cfg: Config, w: World, k: nat)
    requires k < |cfg.chain| && Placed(tape, early, cfg, w, k)
    ensures var f := TryContact(tape, cfg, w, k);
            && (Sends(cfg, k) ==> |f.world.run.begun| > |w.run.begun| && f.world.run.begun[|w.run.begun|].at == w.clock)
            && (!Sends(cfg, k) ==> f == Goes(!cfg.chain[k].call && w.acked.Some?, w))
  {
    TextLaws(tape, early, cfg, w, k);
    var texted := Text(tape, cfg, w, k);
    if texted.Goes? && cfg.chain[k].call && cfg.voice {
      CallsOfExtends(tape, early, cfg, texted.world, k);
      assert TryContact(tape, cfg, w, k) == CallsOf(tape, cfg, texted.world, k);
    }
  }

  /** Contacts `p` and `q` send one after the other, and an acknowledgement after the text of
      `p` would not be looked at before the text of `q`. */
  predicate Overlooks(cfg: Config, p: nat, q: nat) {
    && p < q < |cfg.chain| && !cfg.voice && Texted(cfg, p) && Texted(cfg, q)
    && (forall l :: p <= l < q ==> cfg.chain[l].call)
    && (forall l :: p < l < q ==> !Texted(cfg, l))
  }

  /** The first send of a walk begins when the walk does; the contacts passed over send
      nothing, and each is to be called or nobody has acknowledged. */
  predicate Leads(cfg: Config, w: World, k: nat, first: Begin) {
    var q := first.step.position;
    && k <= q < |cfg.chain| && first.at == w.clock && Sends(cfg, q)
    && forall l :: k <= l < q ==> !Sends(cfg, l) && (cfg.chain[l].call || w.acked.None?)
  }

  lemma FirstOfTry(tape: Tape, early: Option<string>, cfg: Config, w: World, k: nat)
    requires k < |cfg.chain| && Placed(tape, early, cfg, w, k) && Sends(cfg, k)
    ensures |Walk(tape, cfg, w, k).world.run.begun| > |w.run.begun|
    ensures Leads(cfg, w, k, Walk(tape, cfg, w, k).world.run.begun[|w.run.begun|])
  {
    WalkStep(tape, early, cfg, w, k);
    TrySends(tape, early, cfg, w, k);
  }

  lemma {:induction false} FirstSend(tape: Tape, early: Option<string>, cfg: Config, w: World, k: nat)
    requires k <= |cfg.chain| && Placed(tape, early, cfg, w, k)
    requires |Walk(tape, cfg, w, k).world.run.begun| > |w.run.begun|
    ensures Leads(cfg, w, k, Walk(tape, cfg, w, k).world.run.begun[|w.run.begun|])
    decreases |cfg.chain| - k
  {
    if Sends(cfg, k) {
      FirstOfTry(tape, early, cfg, w, k);
    } else {
      TrySends(tape, early, cfg, w, k);
      FirstSend(tape, early, cfg, w, k + 1);
    }
  }

  lemma SwitchHere(tape: Tape, early: Option<string>, cfg: Config, w: World, k: nat)
    requires k < |cfg.chain| && Placed(tape, early, cfg, w, k)
    requires var tried := TryContact(tape, cfg, w, k);
             && GoesOn(tried)
             && |w.run.begun| < |tried.world.run.begun| < |Walk(tape, cfg, tried.world, k + 1).world.run.begun|
    ensures var tried := TryContact(tape, cfg, w, k).world;
            var next := Walk(tape, cfg, tried, k + 1).world.run.begun[|tried.run.begun|];
            AckedBy(tape, early, next.at) ==> Overlooks(cfg, k, next.step.position)
  {
    TryLaws(tape, early, cfg, w, k);
    TrySends(tape, early, cfg, w, k);
    FirstSend(tape, early, cfg, TryContact(tape, cfg, w, k).world, k + 1);
  }

  /** When the walk goes on from one contact to another, nobody has acknowledged yet, unless
      the configuration overlooks it. */
  lemma {:induction false} WalkSwitch(tape: Tape, early: Option<string>, cfg: Config, w: World, k: nat, j: nat)
    requires k <= |cfg.chain| && Placed(tape, early, cfg, w, k)
    requires var b := Walk(tape, cfg, w, k).world.run.begun;
             |w.run.begun| < j < |b| && b[j - 1].step.position != b[j].step.position
    ensures var b := Walk(tape, cfg, w, k).world.run.begun;
            AckedBy(tape, early, b[j].at) ==> Overlooks(cfg, b[j - 1].step.position, b[j].step.position)
    decreases |cfg.chain| - k
  {
    WalkStep(tape, early, cfg, w, k);
    var tried := TryContact(tape, cfg, w, k);
    if GoesOn(tried) {
      if j > |tried.world.run.begun| {
        WalkSwitch(tape, early, cfg, tried.world, k + 1, j);
      } else if j == |tried.world.run.begun| {
        SwitchHere(tape, early, cfg, w, k);
      }
    }
  }

  /** A call that is begun after an acknowledgement is the last send, unless it fails and the
      same contact is called again. */
  lemma {:induction false} WalkWinding(tape: Tape, early: Option<string>, cfg: Config, w: World, k: nat, i: nat, j: nat)
    requires cfg.voice && k <= |cfg.chain| && Placed(tape, early, cfg, w, k)
    requires var b := Walk(tape, cfg, w, k).world.run.begun;
             |w.run.begun| <= i < j < |b| && b[i].step.channel == Call && AckedBy(tape, early, b[i].at)
    ensures var b := Walk(tape, cfg, w, k).world.run.begun;
            b[i].step.position == b[j].step.position && tape(b[i].at).outcome == Failed
    decreases |cfg.chain| - k
  {
    WalkStep(tape, early, cfg, w, k);
    var tried := TryContact(tape, cfg, w, k);
    var b := Walk(tape, cfg, w, k).world.run.begun;
    assert i < |tried.world.run.begun| ==> b[i] == tried.world.run.begun[i] && b[i].step.position == k;
    if !GoesOn(tried) {
      TryWinding(tape, early, cfg, w, k, i, j);
    } else if i < |tried.world.run.begun| {
      AckStays(tape, early, tried.world.run.begun[i].at, tried.world.clock);
    } else {
      WalkWinding(tape, early, cfg, tried.world, k + 1, i, j);
    }
  }

  // ---- the answer ----------------------------------------------------------

  /** Contact `m` answers for the whole chain: its try reports the state of the bus, and no
      later contact gives an acknowledgement time to arrive. */
  predicate AnswersFor(cfg: Config, m: nat) {
    && m < |cfg.chain| && (cfg.voice || !cfg.chain[m].call)
    && forall j :: m < j < |cfg.chain| ==> !Sends(cfg, j)
  }

  lemma {:induction false} SilentWalk(tape: Tape, early: Option<string>, cfg: Config, w: World, k: nat)
    requires k <= |cfg.chain| && Placed(tape, early, cfg, w, k)
    requires forall j :: k <= j < |cfg.chain| ==> !Sends(cfg, j)
    ensures var f := Walk(tape, cfg, w, k);
            f.Goes? && f.world == w
    decreases |cfg.chain| - k
  {
    if k < |cfg.chain| {
      TrySends(tape, early, cfg, w, k);
      TryLaws(tape, early, cfg, w, k);
      if !TryContact(tape, cfg, w, k).answer {
        SilentWalk(tape, early, cfg, w, k + 1);
      }
    }
  }

  lemma {:induction false} WalkAnswers(tape: Tape, early: Option<string>, cfg: Config, w: World, k: nat, m: nat)
    requires k <= m && AnswersFor(cfg, m) && Placed(tape, early, cfg, w, k)
    ensures var f := Walk(tape, cfg, w, k);
            f.Goes? ==> f.answer == f.world.acked.Some?
    decreases |cfg.chain| - k
  {
    TryLaws(tape, early, cfg, w, k);
    var tried := TryContact(tape, cfg, w, k);
    if GoesOn(tried) {
      if k < m {
        WalkAnswers(tape, early, cfg, tried.world, k + 1, m);
      } else {
        SilentWalk(tape, early, cfg, tried.world, k + 1);
        WalkLaws(tape, early, cfg, tried.world, k + 1);
      }
    }
  }

  /** Contact `m` is not to be called, and no contact after it gets a text. */
  predicate Listens(cfg: Config, m: nat) {
    && m < |cfg.chain| && !cfg.chain[m].call
    && forall j :: m < j < |cfg.chain| ==> !Texted(cfg, j)
  }

  /** An acknowledgement before the end of the walk is always heard. */
  predicate Heard(cfg: Config) {
    cfg.voice || exists m: nat :: m < |cfg.chain| && Listens(cfg, m)
  }

  lemma SomebodyAnswers(cfg: Config) returns (m: nat)
    requires cfg.chain != [] && Heard(cfg)
    ensures AnswersFor(cfg, m)
  {
    if cfg.voice {
      m := |cfg.chain| - 1;
    } else {
      m :| m < |cfg.chain| && Listens(cfg, m);
    }
  }
}
