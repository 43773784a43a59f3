/** The shared inference service (firemex/detect/service.py): a bounded queue of jobs, one
    loop that collects and runs batches, and a future for each job. */
module Inference {
  import opened Geometry

  /** What identifies a frame in its result. */
  datatype Ticket = Ticket(cameraId: string, sequence: nat, ts: real, wallTs: real, isNight: bool)

  datatype Future =
    | Pending
    | Completed(ticket: Ticket, detections: seq<Detection>)
    | Failed
    | Abandoned

  /** The loop is collecting a batch, with these jobs so far, or running one, or has died on one. */
  datatype Phase = Collecting(jobs: seq<nat>) | Predicting(jobs: seq<nat>) | Ended(jobs: seq<nat>)

  /** Jobs are numbered in the order they were accepted; `tickets` and `futures` are theirs. */
  datatype Service = Service(
    tickets: seq<Ticket>,
    futures: seq<Future>,
    queue: seq<nat>,
    phase: Phase,
    dropped: nat)

  /** One atomic step of a caller or of the loop.  Derailed: what the detector returned cannot be
      paired to its end; the loop raises after it has handed out these results, and nothing
      catches that. */
  datatype Act =
    | Submit(ticket: Ticket)
    | Abandon(job: nat)
    | Grab
    | CloseBatch
    | Predicted(results: seq<seq<Detection>>)
    | Crashed
    | Derailed(results: seq<seq<Detection>>)

  datatype Limits = Limits(batchSize: nat, queueSize: nat) {
    predicate Valid() { batchSize > 0 && queueSize > 0 }
  }

  const STARTED: Service := Service([], [], [], Collecting([]), 0)

  predicate Below(jobs: seq<nat>, n: nat) {
    forall i :: 0 <= i < |jobs| ==> jobs[i] < n
  }

  /** The jobs whose callers still wait. */
  function Wanted(jobs: seq<nat>, futures: seq<Future>): (r: seq<nat>)
    requires Below(jobs, |futures|)
    ensures |r| <= |jobs| && Below(r, |futures|)
    ensures forall j :: j in r <==> j in jobs && futures[j] != Abandoned
  {
    if jobs == [] then []
    else
      var n := |jobs| - 1;
      var front := Wanted(jobs[..n], futures);
      assert jobs == jobs[..n] + [jobs[n]];
      if futures[jobs[n]] == Abandoned then front else front + [jobs[n]]
  }

  /** A future takes its first result and no other. */
  function Resolve(futures: seq<Future>, job: nat, result: Future): seq<Future>
    requires job < |futures|
  {
    if futures[job] == Pending then futures[job := result] else futures
  }

  /** Results are handed out in step with the jobs, as far as both go. */
  function Succeed(tickets: seq<Ticket>, futures: seq<Future>, jobs: seq<nat>,
                   results: seq<seq<Detection>>): (r: seq<Future>)
    requires |tickets| == |futures| && |results| <= |jobs|
    requires Below(jobs, |futures|)
    ensures |r| == |futures|
  {
    if results == [] then futures
    else
      var n := |results| - 1;
      Resolve(Succeed(tickets, futures, jobs, results[..n]), jobs[n], Completed(tickets[jobs[n]], results[n]))
  }

  function Fail(futures: seq<Future>, jobs: seq<nat>): (r: seq<Future>)
    requires Below(jobs, |futures|)
    ensures |r| == |futures|
  {
    if jobs == [] then futures
    else Resolve(Fail(futures, jobs[..|jobs| - 1]), jobs[|jobs| - 1], Failed)
  }

  /** Every job number in the state is one that was given. */
  predicate Numbered(s: Service) {
    && |s.tickets| == |s.futures|
    && Below(s.queue, |s.futures|)
    && Below(s.phase.jobs, |s.futures|)
  }

  function Shorter(results: seq<seq<Detection>>, n: nat): seq<seq<Detection>> {
    if |results| <= n then results else results[..n]
  }

  function Step(s: Service, act: Act, limits: Limits): (n: Service)
    requires Numbered(s)
    ensures Numbered(n)
  {
    match act
    case Submit(ticket) =>
      if |s.queue| >= limits.queueSize then s.(dropped := s.dropped + 1)
      else s.(tickets := s.tickets + [ticket], futures := s.futures + [Pending], queue := s.queue + [|s.futures|])
    case Abandon(job) =>
      if job < |s.futures| then s.(futures := Resolve(s.futures, job, Abandoned)) else s
    case Grab =>
      if s.phase.Collecting? && s.queue != [] && (s.phase.jobs == [] || |s.phase.jobs| < limits.batchSize)
      then s.(queue := s.queue[1..], phase := Collecting(s.phase.jobs + [s.queue[0]]))
      else s
    case CloseBatch =>
      if s.phase.Collecting? && s.phase.jobs != [] then
        var jobs := Wanted(s.phase.jobs, s.futures);
        s.(phase := if jobs == [] then Collecting([]) else Predicting(jobs))
      else s
    case Predicted(results) =>
      if s.phase.Predicting? then
        var given := Shorter(results, |s.phase.jobs|);
        s.(futures := Succeed(s.tickets, s.futures, s.phase.jobs, given), phase := Collecting([]))
      else s
    case Crashed =>
      if s.phase.Predicting? then s.(futures := Fail(s.futures, s.phase.jobs), phase := Collecting([])) else s
    case Derailed(results) =>
      if s.phase.Predicting? then
        var given := Shorter(results, |s.phase.jobs|);
        s.(futures := Succeed(s.tickets, s.futures, s.phase.jobs, given), phase := Ended(s.phase.jobs))
      else s
  }

  /** The run from a given state on. */
  function Resume(s: Service, acts: seq<Act>, limits: Limits): (n: Service)
    requires Numbered(s)
    ensures Numbered(n)
  {
    if acts == [] then s else Step(Resume(s, acts[..|acts| - 1], limits), acts[|acts| - 1], limits)
  }

  function Run(acts: seq<Act>, limits: Limits): Service {
    Resume(STARTED, acts, limits)
  }

  // ---- futures -------------------------------------------------------------

  lemma {:induction false} FailLaws(futures: seq<Future>, jobs: seq<nat>, k: nat)
    requires Below(jobs, |futures|) && k < |futures|
    ensures Fail(futures, jobs)[k] == if k in jobs && futures[k] == Pending then Failed else futures[k]
  {
    if jobs != [] {
      var n := |jobs| - 1;
      FailLaws(futures, jobs[..n], k);
      assert jobs == jobs[..n] + [jobs[n]];
    }
  }

  predicate InOrder(jobs: seq<nat>) {
    forall i, j :: 0 <= i < j < |jobs| ==> jobs[i] < jobs[j]
  }

  /** Each job gets the result of its own place; no other future changes. */
  lemma {:induction false} SucceedLaws(tickets: seq<Ticket>, futures: seq<Future>, jobs: seq<nat>,
                                       results: seq<seq<Detection>>, k: nat)
    requires |tickets| == |futures| && |results| <= |jobs| && InOrder(jobs)
    requires Below(jobs, |futures|) && k < |futures|
    ensures var r := Succeed(tickets, futures, jobs, results);
            && (forall i :: 0 <= i < |results| && jobs[i] == k && futures[k] == Pending ==>
                  r[k] == Completed(tickets[k], results[i]))
            && (futures[k] != Pending ==> r[k] == futures[k])
            && ((forall i :: 0 <= i < |results| ==> jobs[i] != k) ==> r[k] == futures[k])
  {
    if results != [] {
      var n := |results| - 1;
      SucceedLaws(tickets, futures, jobs, results[..n], k);
    }
  }

  lemma {:induction false} WantedInOrder(jobs: seq<nat>, futures: seq<Future>)
    requires Below(jobs, |futures|) && InOrder(jobs)
    ensures InOrder(Wanted(jobs, futures))
  {
    if jobs != [] {
      var n := |jobs| - 1;
      var front := Wanted(jobs[..n], futures);
      WantedInOrder(jobs[..n], futures);
      forall i | 0 <= i < |front|
        ensures front[i] < jobs[n]
      {
        assert front[i] in jobs[..n];
      }
    }
  }

  // ---- what every run keeps ------------------------------------------------

  /** The numbers from `from` to `to`. */
  function Range(from: nat, to: nat): (r: seq<nat>)
    requires from <= to
    ensures |r| == to - from && forall i :: 0 <= i < |r| ==> r[i] == from + i
  {
    if from == to then [] else Range(from, to - 1) + [to - 1]
  }

  /** Where the current batch starts and the queue starts: jobs below `done` are finished, jobs
      from `done` to `head` belong to the current batch, the others are queued. */
  predicate Ordered(s: Service, done: nat, head: nat, limits: Limits) {
    && Numbered(s)
    && done <= head <= |s.futures|
    && s.queue == Range(head, |s.futures|)
    && |s.queue| <= limits.queueSize
    && (forall j :: 0 <= j < done ==> s.futures[j] != Pending)
    && (forall j :: done <= j < |s.futures| ==> s.futures[j] == Pending || s.futures[j] == Abandoned)
    && match s.phase
       case Collecting(jobs) => jobs == Range(done, head) && |jobs| <= limits.batchSize
       case Predicting(jobs) =>
         && InOrder(jobs) && jobs != [] && |jobs| <= limits.batchSize
         && (forall j :: j in jobs ==> done <= j < head)
         && (forall j :: done <= j < head && j !in jobs ==> s.futures[j] == Abandoned)
       case Ended(_) => false
  }

  /** A future that has its result keeps it, and a result carries the identity of its job's
      own frame. */
  predicate Truthful(s: Service)
    requires Numbered(s)
  {
    forall j :: 0 <= j < |s.futures| && s.futures[j].Completed? ==> s.futures[j].ticket == s.tickets[j]
  }

  lemma RangeTail(from: nat, to: nat)
    requires from < to
    ensures Range(from, to)[1..] == Range(from + 1, to)
  {}

  lemma RangeMembers(from: nat, to: nat, j: nat)
    requires from <= to
    ensures j in Range(from, to) <==> from <= j < to
  {}

  lemma SubmitKeeps(s: Service, ticket: Ticket, done: nat, head: nat, limits: Limits)
    requires Ordered(s, done, head, limits)
    ensures Ordered(Step(s, Submit(ticket), limits), done, head, limits)
  {}

  lemma AbandonKeeps(s: Service, job: nat, done: nat, head: nat, limits: Limits)
    requires Ordered(s, done, head, limits)
    ensures Ordered(Step(s, Abandon(job), limits), done, head, limits)
  {}

  lemma GrabKeeps(s: Service, done: nat, head: nat, limits: Limits) returns (head': nat)
    requires limits.Valid() && Ordered(s, done, head, limits)
    ensures Ordered(Step(s, Grab, limits), done, head', limits)
    ensures head' >= head
  {
    head' := head;
    var n := Step(s, Grab, limits);
    if n != s {
      RangeTail(head, |s.futures|);
      head' := head + 1;
      assert n.phase.jobs == Range(done, head + 1);
    }
  }

  lemma CloseKeeps(s: Service, done: nat, head: nat, limits: Limits) returns (done': nat)
    requires Ordered(s, done, head, limits)
    ensures Ordered(Step(s, CloseBatch, limits), done', head, limits)
    ensures done' >= done
  {
    done' := done;
    if s.phase.Collecting? && s.phase.jobs != [] {
      var jobs := Wanted(s.phase.jobs, s.futures);
      WantedInOrder(s.phase.jobs, s.futures);
      forall j: nat
        ensures j in s.phase.jobs <==> done <= j < head
      {
        RangeMembers(done, head, j);
      }
      if jobs == [] {
        done' := head;
      }
    }
  }

  lemma PredictedKeeps(s: Service, results: seq<seq<Detection>>, done: nat, head: nat, limits: Limits)
    requires Ordered(s, done, head, limits) && s.phase.Predicting? && |results| == |s.phase.jobs|
    ensures Ordered(Step(s, Predicted(results), limits), head, head, limits)
  {
    var n := Step(s, Predicted(results), limits);
    forall j | 0 <= j < |s.futures|
      ensures j < head ==> n.futures[j] != Pending
      ensures j >= head ==> n.futures[j] == s.futures[j]
    {
      SucceedLaws(s.tickets, s.futures, s.phase.jobs, results, j);
      if j in s.phase.jobs {
        var i :| 0 <= i < |s.phase.jobs| && s.phase.jobs[i] == j;
      }
    }
  }

  lemma CrashedKeeps(s: Service, done: nat, head: nat, limits: Limits)
    requires Ordered(s, done, head, limits) && s.phase.Predicting?
    ensures Ordered(Step(s, Crashed, limits), head, head, limits)
  {
    var n := Step(s, Crashed, limits);
    forall j | 0 <= j < |s.futures|
      ensures j < head ==> n.futures[j] != Pending
      ensures j >= head ==> n.futures[j] == s.futures[j]
    {
      FailLaws(s.futures, s.phase.jobs, j);
    }
  }

  /** What the detector returns is one list for each image of the batch. */
  predicate Fair(s: Service, act: Act) {
    s.phase.Predicting? ==> !act.Derailed? && (act.Predicted? ==> |act.results| == |s.phase.jobs|)
  }

  predicate OneListPerImage(acts: seq<Act>, limits: Limits) {
    forall i :: 0 <= i < |acts| ==> Fair(Run(acts[..i], limits), acts[i])
  }

  lemma StepOrdered(s: Service, act: Act, done: nat, head: nat, limits: Limits) returns (done': nat, head': nat)
    requires limits.Valid() && Ordered(s, done, head, limits)
    requires Fair(s, act)
    ensures Ordered(Step(s, act, limits), done', head', limits) && done <= done' && head <= head'
  {
    done', head' := done, head;
    match act
    case Submit(ticket) => SubmitKeeps(s, ticket, done, head, limits);
    case Abandon(job) => AbandonKeeps(s, job, done, head, limits);
    case Grab => head' := GrabKeeps(s, done, head, limits);
    case CloseBatch => done' := CloseKeeps(s, done, head, limits);
    case Predicted(results) =>
      if s.phase.Predicting? {
        PredictedKeeps(s, results, done, head, limits);
        done' := head;
      }
    case Crashed =>
      if s.phase.Predicting? {
        CrashedKeeps(s, done, head, limits);
        done' := head;
      }
    case Derailed(_) =>
  }

  /** In every run each accepted job is in exactly one place: finished, in the current batch,
      or queued; jobs leave the queue in the order they came; batches and queue keep their
      bounds. */
  lemma {:induction false} EveryJobInOnePlace(acts: seq<Act>, limits: Limits) returns (done: nat, head: nat)
    requires limits.Valid() && OneListPerImage(acts, limits)
    ensures Ordered(Run(acts, limits), done, head, limits)
  {
    done, head := 0, 0;
    if acts != [] {
      var n := |acts| - 1;
      forall i | 0 <= i < n
        ensures Fair(Run(acts[..n][..i], limits), acts[..n][i])
      {
        assert acts[..n][..i] == acts[..i];
      }
      done, head := EveryJobInOnePlace(acts[..n], limits);
      done, head := StepOrdered(Run(acts[..n], limits), acts[n], done, head, limits);
    }
  }

  /** When the loop waits for work with an empty queue, no caller is waiting. */
  lemma NobodyLeftWaiting(acts: seq<Act>, limits: Limits)
    requires limits.Valid() && OneListPerImage(acts, limits)
    requires Run(acts, limits).phase == Collecting([]) && Run(acts, limits).queue == []
    ensures Pending !in Run(acts, limits).futures
  {
    var done, head := EveryJobInOnePlace(acts, limits);
    assert done == |Run(acts, limits).futures|;
  }

  lemma {:induction false} SucceedKeeps(tickets: seq<Ticket>, futures: seq<Future>, jobs: seq<nat>,
                                        results: seq<seq<Detection>>, k: nat)
    requires |tickets| == |futures| && |results| <= |jobs| && Below(jobs, |futures|)
    requires k < |futures| && futures[k] != Pending
    ensures Succeed(tickets, futures, jobs, results)[k] == futures[k]
  {
    if results != [] {
      SucceedKeeps(tickets, futures, jobs, results[..|results| - 1], k);
    }
  }

  lemma SettledStays(s: Service, act: Act, limits: Limits, j: nat)
    requires Numbered(s) && j < |s.futures| && s.futures[j] != Pending
    ensures j < |Step(s, act, limits).futures| && Step(s, act, limits).futures[j] == s.futures[j]
  {
    if s.phase.Predicting? {
      FailLaws(s.futures, s.phase.jobs, j);
      if act.Predicted? || act.Derailed? {
        SucceedKeeps(s.tickets, s.futures, s.phase.jobs, Shorter(act.results, |s.phase.jobs|), j);
      }
    }
  }

  /** A future never changes once it has its result, however the run goes on. */
  lemma {:induction false} SettledForGood(s: Service, acts: seq<Act>, limits: Limits, j: nat)
    requires Numbered(s) && j < |s.futures| && s.futures[j] != Pending
    ensures j < |Resume(s, acts, limits).futures| && Resume(s, acts, limits).futures[j] == s.futures[j]
  {
    if acts != [] {
      SettledForGood(s, acts[..|acts| - 1], limits, j);
      SettledStays(Resume(s, acts[..|acts| - 1], limits), acts[|acts| - 1], limits, j);
    }
  }

  lemma {:induction false} SucceedTruthful(tickets: seq<Ticket>, futures: seq<Future>, jobs: seq<nat>,
                                           results: seq<seq<Detection>>, k: nat)
    requires |tickets| == |futures| && |results| <= |jobs| && Below(jobs, |futures|) && k < |futures|
    ensures var r := Succeed(tickets, futures, jobs, results);
            r[k].Completed? ==> r[k] == futures[k] || r[k].ticket == tickets[k]
  {
    if results != [] {
      SucceedTruthful(tickets, futures, jobs, results[..|results| - 1], k);
    }
  }

  lemma StepTruthful(s: Service, act: Act, limits: Limits)
    requires Numbered(s) && Truthful(s)
    ensures Truthful(Step(s, act, limits))
  {
    if s.phase.Predicting? {
      forall j | 0 <= j < |s.futures|
        ensures var f := Step(s, act, limits).futures[j];
                f.Completed? ==> f.ticket == s.tickets[j]
      {
        FailLaws(s.futures, s.phase.jobs, j);
        if act.Predicted? || act.Derailed? {
          SucceedTruthful(s.tickets, s.futures, s.phase.jobs, Shorter(act.results, |s.phase.jobs|), j);
        }
      }
    }
  }

  /** Every result carries the identity of its own frame, whatever the detector returns. */
  lemma {:induction false} EveryRunTruthful(acts: seq<Act>, limits: Limits)
    ensures Truthful(Run(acts, limits))
  {
    if acts != [] {
      EveryRunTruthful(acts[..|acts| - 1], limits);
      StepTruthful(Run(acts[..|acts| - 1], limits), acts[|acts| - 1], limits);
    }
  }

  /** A success gives each waiting job the detections of its own image, a failure fails the
      waiting jobs of its own batch, and neither touches any other future. */
  lemma BatchEndsItsOwn(s: Service, results: seq<seq<Detection>>, limits: Limits, j: nat)
    requires Numbered(s) && s.phase.Predicting? && InOrder(s.phase.jobs) && j < |s.futures|
    requires |results| == |s.phase.jobs|
    ensures var good, bad := Step(s, Predicted(results), limits), Step(s, Crashed, limits);
            && (j !in s.phase.jobs || s.futures[j] != Pending ==>
                  good.futures[j] == s.futures[j] && bad.futures[j] == s.futures[j])
            && (forall i :: 0 <= i < |results| && s.phase.jobs[i] == j && s.futures[j] == Pending ==>
                  good.futures[j] == Completed(s.tickets[j], results[i]) && bad.futures[j] == Failed)
  {
    FailLaws(s.futures, s.phase.jobs, j);
    SucceedLaws(s.tickets, s.futures, s.phase.jobs, results, j);
  }

  /** What the contract is for: a batch that ends well answers all its jobs exactly if no job
      beyond the end of the results is still waiting. */
  lemma AnswersAllExactlyWhen(s: Service, results: seq<seq<Detection>>, limits: Limits)
    requires Numbered(s) && s.phase.Predicting? && InOrder(s.phase.jobs) && |results| <= |s.phase.jobs|
    ensures var jobs := s.phase.jobs;
            var n := Step(s, Predicted(results), limits);
            (forall i :: 0 <= i < |jobs| ==> n.futures[jobs[i]] != Pending)
            <==> (forall i :: |results| <= i < |jobs| ==> s.futures[jobs[i]] != Pending)
  {
    var jobs := s.phase.jobs;
    var n := Step(s, Predicted(results), limits);
    forall i | 0 <= i < |jobs|
      ensures n.futures[jobs[i]] != Pending <==> i < |results| || s.futures[jobs[i]] != Pending
    {
      SucceedLaws(s.tickets, s.futures, jobs, results, jobs[i]);
    }
  }

  // ---- nothing is held back ------------------------------------------------

  /** The service when the loop has grabbed `n` times. */
  function Grabbed(s: Service, n: nat, limits: Limits): (r: Service)
    requires Numbered(s)
    ensures Numbered(r)
  {
    if n == 0 then s else Step(Grabbed(s, n - 1, limits), Grab, limits)
  }

  /** Starting from an empty batch, grabbing takes one queued job after the other until the batch is
      full or the queue is empty, and no more. */
  lemma {:induction false} GrabsFill(s: Service, n: nat, limits: Limits)
    requires Numbered(s) && s.phase == Collecting([]) && limits.Valid()
    ensures var r := Grabbed(s, n, limits);
            var m := Least(n, Least(limits.batchSize, |s.queue|));
            r == s.(queue := s.queue[m..], phase := Collecting(s.queue[..m]))
  {
    if n > 0 {
      GrabsFill(s, n - 1, limits);
    }
  }

  function Least(a: nat, b: nat): nat { if a <= b then a else b }

  /** The service when `n` more frames have been submitted. */
  function Submitted(s: Service, ticket: Ticket, n: nat, limits: Limits): (r: Service)
    requires Numbered(s)
    ensures Numbered(r)
  {
    if n == 0 then s else Step(Submitted(s, ticket, n - 1, limits), Submit(ticket), limits)
  }

  /** Frames are accepted until the queue is full, and from then on all are refused and counted. */
  lemma {:induction false} SubmitsFill(s: Service, ticket: Ticket, n: nat, limits: Limits)
    requires Numbered(s) && |s.queue| <= limits.queueSize
    ensures var r, room := Submitted(s, ticket, n, limits), limits.queueSize - |s.queue|;
            && |r.queue| == |s.queue| + Least(n, room) && s.queue <= r.queue
            && |r.futures| == |s.futures| + Least(n, room) && s.futures <= r.futures
            && r.dropped == s.dropped + (n - Least(n, room))
  {
    if n > 0 {
      SubmitsFill(s, ticket, n - 1, limits);
    }
  }

  // ---- the service ---------------------------------------------------------

  class InferenceService {
    const limits: Limits
    var tickets: seq<Ticket>
    var futures: seq<Future>
    var queue: seq<nat>
    var phase: Phase
    var dropped: nat

    ghost function View(): Service
      reads this
    {
      Service(tickets, futures, queue, phase, dropped)
    }

    ghost predicate Valid()
      reads this
    {
      Numbered(View())
    }

    constructor (batchSize: nat, queueSize: nat)
      requires batchSize > 0
      ensures Valid() && View() == STARTED
      ensures limits.Valid() && limits.batchSize == batchSize
      ensures limits.queueSize == if queueSize == 0 then batchSize * 2 else queueSize
    {
      limits := Limits(batchSize, if queueSize == 0 then batchSize * 2 else queueSize);
      tickets, futures, queue, phase, dropped := [], [], [], Collecting([]), 0;
    }

    /** Accepts a frame, or raises because the queue is full. */
    method SubmitFrame(ticket: Ticket) returns (job: Option<nat>)
      requires Valid()
      modifies this
      ensures Valid() && View() == Step(old(View()), Submit(ticket), limits)
      ensures job == if |old(queue)| >= limits.queueSize then None else Some(|old(futures)|)
    {
      if |queue| >= limits.queueSize {
        dropped := dropped + 1;
        return None;
      }
      job := Some(|futures|);
      queue := queue + [|futures|];
      tickets, futures := tickets + [ticket], futures + [Pending];
    }

    /** Takes one more job into the batch that is being collected. */
    method GrabJob()
      requires Valid()
      modifies this
      ensures Valid() && View() == Step(old(View()), Grab, limits)
    {
      if phase.Collecting? && queue != [] && (phase.jobs == [] || |phase.jobs| < limits.batchSize) {
        phase := Collecting(phase.jobs + [queue[0]]);
        queue := queue[1..];
      }
    }

    /** The batch is complete or its time is up: jobs nobody waits for are left out. */
    method StartBatch()
      requires Valid()
      modifies this
      ensures Valid() && View() == Step(old(View()), CloseBatch, limits)
    {
      if !phase.Collecting? || phase.jobs == [] {
        return;
      }
      var jobs := phase.jobs;
      var wanted: seq<nat> := [];
      for i := 0 to |jobs|
        invariant wanted == Wanted(jobs[..i], futures)
      {
        assert jobs[..i + 1][..i] == jobs[..i];
        if futures[jobs[i]] != Abandoned {
          wanted := wanted + [jobs[i]];
        }
      }
      assert jobs[..|jobs|] == jobs;
      phase := if wanted == [] then Collecting([]) else Predicting(wanted);
    }

    /** The pairing loop, as far as it gets. */
    method HandOut(given: seq<seq<Detection>>)
      requires Valid() && |given| <= |phase.jobs|
      modifies this`futures
      ensures Valid() && futures == Succeed(tickets, old(futures), phase.jobs, given)
    {
      var jobs := phase.jobs;
      ghost var before := futures;
      for i := 0 to |given|
        invariant futures == Succeed(tickets, before, jobs, given[..i])
      {
        assert given[..i + 1][..i] == given[..i];
        var job := jobs[i];
        if futures[job] != Pending {
          continue;
        }
        futures := futures[job := Completed(tickets[job], given[i])];
      }
      assert given[..|given|] == given;
    }

    /** The batch ended well. */
    method Deliver(results: seq<seq<Detection>>)
      requires Valid()
      modifies this
      ensures Valid() && View() == Step(old(View()), Predicted(results), limits)
    {
      if phase.Predicting? {
        HandOut(Shorter(results, |phase.jobs|));
        phase := Collecting([]);
      }
    }

    /** The pairing loop raises and takes the service's loop with it. */
    method Derail(results: seq<seq<Detection>>)
      requires Valid()
      modifies this
      ensures Valid() && View() == Step(old(View()), Derailed(results), limits)
    {
      if phase.Predicting? {
        HandOut(Shorter(results, |phase.jobs|));
        phase := Ended(phase.jobs);
      }
    }

    /** The batch failed: every job of it that still waits gets the exception. */
    method FailBatch()
      requires Valid()
      modifies this
      ensures Valid() && View() == Step(old(View()), Crashed, limits)
    {
      if !phase.Predicting? {
        return;
      }
      var jobs := phase.jobs;
      ghost var before := futures;
      for i := 0 to |jobs|
        invariant tickets == old(tickets) && queue == old(queue) && phase == old(phase) && dropped == old(dropped)
        invariant futures == Fail(before, jobs[..i])
      {
        assert jobs[..i + 1][..i] == jobs[..i];
        if futures[jobs[i]] == Pending {
          futures := futures[jobs[i] := Failed];
        }
      }
      assert jobs[..|jobs|] == jobs;
      phase := Collecting([]);
    }
  }
}
