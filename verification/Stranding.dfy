/** Callers of the inference service who are never answered: exactly those whom a batch has left
    out (firemex/detect/service.py, the pairing loop of _run). */
module Stranding {
  import opened Geometry
  import opened Inference

  /** The caller waits, and the loop has died or has the job neither queued nor in its batch. */
  predicate Stranded(s: Service, j: nat) {
    j < |s.futures| && s.futures[j] == Pending && (s.phase.Ended? || (j !in s.queue && j !in s.phase.jobs))
  }

  /** The act abandons the caller of job `j`, who waits: the batch ends well, but with no result
      for the job, or the loop dies before it gets to it, or had died when the job came. */
  predicate LeavesOut(s: Service, act: Act, limits: Limits, j: nat)
    requires Numbered(s)
  {
    match act
    case Predicted(results) =>
      && s.phase.Predicting?
      && exists i :: |results| <= i < |s.phase.jobs| && s.phase.jobs[i] == j && s.futures[j] == Pending
    case Derailed(results) =>
      && s.phase.Predicting? && j < |s.futures| && s.futures[j] == Pending
      && j !in s.phase.jobs[..|Shorter(results, |s.phase.jobs|)|]
    case Submit(_) => s.phase.Ended? && |s.queue| < limits.queueSize && j == |s.futures|
    case _ => false
  }

  /** The batch and the queue hold jobs in the order they came, whatever the detector returns. */
  predicate Lined(s: Service) {
    Numbered(s) && InOrder(s.phase.jobs + s.queue)
  }

  lemma InOrderParts(a: seq<nat>, b: seq<nat>)
    requires InOrder(a + b)
    ensures InOrder(a) && InOrder(b) && forall i, j :: 0 <= i < |a| && 0 <= j < |b| ==> a[i] < b[j]
  {
    var all := a + b;
    assert forall i :: 0 <= i < |a| ==> all[i] == a[i];
    assert forall j :: 0 <= j < |b| ==> all[|a| + j] == b[j];
  }

  lemma WantedLined(jobs: seq<nat>, queue: seq<nat>, futures: seq<Future>)
    requires Below(jobs, |futures|) && InOrder(jobs + queue)
    ensures InOrder(Wanted(jobs, futures) + queue)
    ensures InOrder([] + queue)
  {
    var wanted := Wanted(jobs, futures);
    InOrderParts(jobs, queue);
    WantedInOrder(jobs, futures);
    forall i | 0 <= i < |wanted|
      ensures exists k :: 0 <= k < |jobs| && jobs[k] == wanted[i]
    {
      assert wanted[i] in jobs;
    }
  }

  lemma InOrderSnoc(a: seq<nat>, b: seq<nat>, n: nat)
    requires InOrder(a + b) && Below(a, n) && Below(b, n)
    ensures InOrder(a + (b + [n]))
  {
    assert a + (b + [n]) == a + b + [n];
  }

  lemma Shift(a: seq<nat>, b: seq<nat>)
    requires b != []
    ensures a + [b[0]] + b[1..] == a + b
  {}

  lemma StepLined(s: Service, act: Act, limits: Limits)
    requires Lined(s)
    ensures Lined(Step(s, act, limits))
  {
    match act
    case Submit(_) => InOrderSnoc(s.phase.jobs, s.queue, |s.futures|);
    case Abandon(_) =>
    case Grab =>
      if s.queue != [] {
        Shift(s.phase.jobs, s.queue);
      }
    case CloseBatch => WantedLined(s.phase.jobs, s.queue, s.futures);
    case Predicted(_) => NoneInFront(s.phase.jobs, s.queue);
    case Crashed => NoneInFront(s.phase.jobs, s.queue);
    case Derailed(_) =>
  }

  lemma NoneInFront(a: seq<nat>, b: seq<nat>)
    requires InOrder(a + b)
    ensures InOrder([] + b)
  {
    InOrderParts(a, b);
  }

  lemma {:induction false} EveryRunLined(acts: seq<Act>, limits: Limits)
    ensures Lined(Run(acts, limits))
  {
    if acts != [] {
      EveryRunLined(acts[..|acts| - 1], limits);
      StepLined(Run(acts[..|acts| - 1], limits), acts[|acts| - 1], limits);
    }
  }

  lemma PredictedStrands(s: Service, act: Act, limits: Limits, j: nat)
    requires Lined(s) && act.Predicted? && s.phase.Predicting?
    ensures Stranded(Step(s, act, limits), j) <==> Stranded(s, j) || LeavesOut(s, act, limits, j)
  {
    var jobs, given := s.phase.jobs, Shorter(act.results, |s.phase.jobs|);
    InOrderParts(jobs, s.queue);
    if j < |s.futures| {
      SucceedLaws(s.tickets, s.futures, jobs, given, j);
      if j in jobs {
        var i :| 0 <= i < |jobs| && jobs[i] == j;
      }
    }
  }

  lemma DerailedStrands(s: Service, act: Act, limits: Limits, j: nat)
    requires Lined(s) && act.Derailed? && s.phase.Predicting?
    ensures Stranded(Step(s, act, limits), j) <==> Stranded(s, j) || LeavesOut(s, act, limits, j)
  {
    var jobs, given := s.phase.jobs, Shorter(act.results, |s.phase.jobs|);
    InOrderParts(jobs, s.queue);
    if j < |s.futures| {
      SucceedLaws(s.tickets, s.futures, jobs, given, j);
      if j in jobs[..|given|] {
        var i :| 0 <= i < |given| && jobs[..|given|][i] == j;
        assert jobs[i] == j;
      } else {
        assert forall i :: 0 <= i < |given| ==> jobs[..|given|][i] == jobs[i];
      }
    }
  }

  lemma CrashedStrands(s: Service, limits: Limits, j: nat)
    requires Lined(s) && s.phase.Predicting?
    ensures Stranded(Step(s, Crashed, limits), j) <==> Stranded(s, j)
  {
    if j < |s.futures| {
      FailLaws(s.futures, s.phase.jobs, j);
    }
  }

  lemma StepStrands(s: Service, act: Act, limits: Limits, j: nat)
    requires Lined(s)
    ensures Stranded(Step(s, act, limits), j) <==> (Stranded(s, j) && act != Abandon(j)) || LeavesOut(s, act, limits, j)
  {
    match act
    case Submit(_) =>
      assert |s.futures| in s.queue + [|s.futures|];
    case Abandon(_) =>
    case Grab =>
      if s.queue != [] {
        assert s.queue == [s.queue[0]] + s.queue[1..];
      }
    case CloseBatch =>
    case Predicted(_) =>
      if s.phase.Predicting? {
        PredictedStrands(s, act, limits, j);
      }
    case Crashed =>
      if s.phase.Predicting? {
        CrashedStrands(s, limits, j);
      }
    case Derailed(_) =>
      if s.phase.Predicting? {
        DerailedStrands(s, act, limits, j);
      }
  }

  /** Act `n` leaves job `j` out, and its caller does not give up later. */
  predicate LeftOutAt(acts: seq<Act>, limits: Limits, j: nat, n: nat) {
    && n < |acts| && LeavesOut(Run(acts[..n], limits), acts[n], limits, j)
    && forall m :: n < m < |acts| ==> acts[m] != Abandon(j)
  }

  lemma LeftOutLater(acts: seq<Act>, limits: Limits, j: nat, n: nat)
    requires acts != []
    ensures var k := |acts| - 1;
            LeftOutAt(acts, limits, j, n) <==>
            || (n == k && LeavesOut(Run(acts[..k], limits), acts[k], limits, j))
            || (LeftOutAt(acts[..k], limits, j, n) && acts[k] != Abandon(j))
  {
    var k := |acts| - 1;
    if n < k {
      assert acts[..k][..n] == acts[..n];
      assert forall m :: n < m < k ==> acts[..k][m] == acts[m];
    }
  }

  /** In every run, whatever the detector returns, a caller is stranded exactly if some batch
      ended well with too few results to reach the job, or the loop died before it got to it or
      had died when the job came, and the caller has not given up since. */
  lemma {:induction false} StrandedExactlyWhen(acts: seq<Act>, limits: Limits, j: nat)
    ensures Stranded(Run(acts, limits), j) <==> exists n: nat :: LeftOutAt(acts, limits, j, n)
  {
    if acts != [] {
      var k := |acts| - 1;
      StrandedExactlyWhen(acts[..k], limits, j);
      EveryRunLined(acts[..k], limits);
      StepStrands(Run(acts[..k], limits), acts[k], limits, j);
      forall n: nat
        ensures LeftOutAt(acts, limits, j, n) <==>
                || (n == k && LeavesOut(Run(acts[..k], limits), acts[k], limits, j))
                || (LeftOutAt(acts[..k], limits, j, n) && acts[k] != Abandon(j))
      {
        LeftOutLater(acts, limits, j, n);
      }
      assert LeavesOut(Run(acts[..k], limits), acts[k], limits, j) ==> LeftOutAt(acts, limits, j, k);
    }
  }

  /** A stranded caller waits for ever: nothing but giving up ends it. */
  lemma {:induction false} StrandedForever(s: Service, acts: seq<Act>, limits: Limits, j: nat)
    requires Lined(s) && Stranded(s, j) && Abandon(j) !in acts
    ensures Lined(Resume(s, acts, limits)) && Stranded(Resume(s, acts, limits), j)
  {
    if acts != [] {
      var front, last := acts[..|acts| - 1], acts[|acts| - 1];
      assert last in acts;
      StrandedForever(s, front, limits, j);
      StepLined(Resume(s, front, limits), last, limits);
      StepStrands(Resume(s, front, limits), last, limits, j);
    }
  }

  /** After the loop has died nobody is answered any more, whether he waits or comes later. */
  lemma {:induction false} DeadForever(s: Service, acts: seq<Act>, limits: Limits, j: nat)
    requires Numbered(s) && s.phase.Ended?
    ensures var n := Resume(s, acts, limits);
            && n.phase.Ended?
            && (j < |n.futures| ==>
                  n.futures[j] == Pending || n.futures[j] == Abandoned
                  || (j < |s.futures| && n.futures[j] == s.futures[j]))
  {
    if acts != [] {
      DeadForever(s, acts[..|acts| - 1], limits, j);
    }
  }

  const TICKET := Ticket("", 0, 0.0, 0.0, false)

  lemma RunSnoc(acts: seq<Act>, act: Act, limits: Limits)
    ensures Run(acts + [act], limits) == Step(Run(acts, limits), act, limits)
  {
    assert (acts + [act])[..|acts + [act]| - 1] == acts;
  }

  /** Two callers whose jobs are in one batch. */
  function Pair(): seq<Act> {
    [Submit(TICKET)] + [Submit(TICKET)] + [Grab] + [Grab] + [CloseBatch]
  }

  lemma BothWanted(jobs: seq<nat>, futures: seq<Future>)
    requires jobs == [0, 1] && futures == [Pending, Pending]
    ensures Wanted(jobs, futures) == jobs
  {
    assert jobs[..1] == [0] && jobs[..1][..0] == [];
  }

  lemma PairQueued(limits: Limits)
    requires limits == Limits(2, 2)
    ensures Run([Submit(TICKET)] + [Submit(TICKET)], limits)
            == Service([TICKET, TICKET], [Pending, Pending], [0, 1], Collecting([]), 0)
  {
    RunSnoc([], Submit(TICKET), limits);
    assert [] + [Submit(TICKET)] == [Submit(TICKET)];
    RunSnoc([Submit(TICKET)], Submit(TICKET), limits);
  }

  lemma PairTaken(acts: seq<Act>, limits: Limits)
    requires limits == Limits(2, 2)
    requires Run(acts, limits) == Service([TICKET, TICKET], [Pending, Pending], [0, 1], Collecting([]), 0)
    ensures Run(acts + [Grab] + [Grab] + [CloseBatch], limits)
            == Service([TICKET, TICKET], [Pending, Pending], [], Predicting([0, 1]), 0)
  {
    RunSnoc(acts, Grab, limits);
    RunSnoc(acts + [Grab], Grab, limits);
    RunSnoc(acts + [Grab] + [Grab], CloseBatch, limits);
    BothWanted([0, 1], [Pending, Pending]);
  }

  lemma LeftWaiting(s: Service, limits: Limits, j: nat, i: nat, results: seq<seq<Detection>>)
    requires Lined(s) && s.phase.Predicting? && |results| <= i < |s.phase.jobs| && s.phase.jobs[i] == j
    requires j < |s.futures| && s.futures[j] == Pending
    ensures Stranded(Step(s, Predicted(results), limits), j)
  {
    assert LeavesOut(s, Predicted(results), limits, j);
    StepStrands(s, Predicted(results), limits, j);
  }

  /** Two jobs in one batch and one result: the second caller waits for ever. */
  lemma OneResultForTwo(more: seq<Act>)
    requires Abandon(1) !in more
    ensures Stranded(Resume(Run(Pair() + [Predicted([[]])], Limits(2, 2)), more, Limits(2, 2)), 1)
  {
    var limits := Limits(2, 2);
    PairQueued(limits);
    PairTaken([Submit(TICKET)] + [Submit(TICKET)], limits);
    EveryRunLined(Pair(), limits);
    LeftWaiting(Run(Pair(), limits), limits, 1, 1, [[]]);
    RunSnoc(Pair(), Predicted([[]]), limits);
    EveryRunLined(Pair() + [Predicted([[]])], limits);
    StrandedForever(Run(Pair() + [Predicted([[]])], limits), more, limits, 1);
  }

  lemma PairDies(limits: Limits)
    requires limits == Limits(2, 2)
    ensures var s := Run(Pair() + [Derailed([])], limits);
            s.phase.Ended? && s.futures == [Pending, Pending]
  {
    PairQueued(limits);
    PairTaken([Submit(TICKET)] + [Submit(TICKET)], limits);
    RunSnoc(Pair(), Derailed([]), limits);
  }

  /** Two jobs in one batch and a result that cannot be paired at all: nobody is answered, now or
      later. */
  lemma NoResultForAnybody(more: seq<Act>, j: nat)
    ensures var n := Resume(Run(Pair() + [Derailed([])], Limits(2, 2)), more, Limits(2, 2));
            j < |n.futures| ==> n.futures[j] == Pending || n.futures[j] == Abandoned
  {
    var limits := Limits(2, 2);
    PairDies(limits);
    DeadForever(Run(Pair() + [Derailed([])], limits), more, limits, j);
  }
}
