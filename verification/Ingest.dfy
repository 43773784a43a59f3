/** The hand-off of one camera's frames to the detector (firemex/ingest/worker.py): sampling
    on the decode thread, callbacks on the event loop that drop the oldest frame of a full
    queue, and a consumer with one frame in flight. */
module Ingest {
  import opened Geometry
  import Confirmation
  import Histories

  /** A sampled frame; `connection` counts the times the stream was opened. */
  datatype Sampled = Sampled(sequence: nat, ts: real, connection: nat)

  datatype Answer = Answered | Refused | Broken

  /** One step of one of the three processes, in any interleaving. */
  datatype Act =
    | Connect
    | Decode(now: real)
    | Enqueue
    | Take
    | Settle(answer: Answer)

  const CAPACITY: nat := 2

  /** `handed` are the callbacks the decode thread has scheduled and the loop has yet to run.
      The last line is history: all frames sampled, dropped because of a full queue, and taken
      by the consumer, with the answers to those. */
  datatype Worker = Worker(
    connection: nat, nextSample: real, sequence: nat, decoded: nat, sampled: nat, dropped: nat,
    handed: seq<Sampled>, queue: seq<Sampled>, flight: Option<Sampled>,
    offered: seq<Sampled>, evicted: seq<Sampled>, taken: seq<Sampled>, answers: seq<Answer>)

  const IDLE: Worker := Worker(0, 0.0, 0, 0, 0, 0, [], [], None, [], [], [], [])

  function Step(w: Worker, act: Act, interval: real): Worker {
    match act
    case Connect => w.(connection := w.connection + 1, nextSample := 0.0)
    case Decode(now) =>
      var seen := w.(decoded := w.decoded + 1);
      if now < w.nextSample then seen
      else
        var frame := Sampled(w.sequence + 1, now, w.connection);
        seen.(nextSample := now + interval, sampled := w.sampled + 1, sequence := w.sequence + 1,
              handed := w.handed + [frame], offered := w.offered + [frame])
    case Enqueue =>
      if w.handed == [] then w
      else
        var rest := w.(handed := w.handed[1..]);
        if |w.queue| >= CAPACITY then
          rest.(queue := w.queue[1..] + [w.handed[0]], dropped := w.dropped + 1, evicted := w.evicted + [w.queue[0]])
        else rest.(queue := w.queue + [w.handed[0]])
    case Take =>
      if w.flight.Some? || w.queue == [] then w
      else w.(flight := Some(w.queue[0]), queue := w.queue[1..], taken := w.taken + [w.queue[0]])
    case Settle(answer) =>
      if w.flight.None? then w
      else w.(flight := None, answers := w.answers + [answer],
              dropped := if answer == Refused then w.dropped + 1 else w.dropped)
  }

  function Run(acts: seq<Act>, interval: real): Worker {
    if acts == [] then IDLE else Step(Run(acts[..|acts| - 1], interval), acts[|acts| - 1], interval)
  }

  /** The frames whose results reached the incident engine. */
  function Delivered(taken: seq<Sampled>, answers: seq<Answer>): seq<Sampled>
    requires |answers| <= |taken|
  {
    if answers == [] then []
    else
      var n := |answers| - 1;
      Delivered(taken, answers[..n]) + (if answers[n] == Answered then [taken[n]] else [])
  }

  function Refusals(answers: seq<Answer>): nat {
    if answers == [] then 0
    else Refusals(answers[..|answers| - 1]) + (if answers[|answers| - 1] == Refused then 1 else 0)
  }

  // ---- what every run keeps ------------------------------------------------

  /** Later frames have higher numbers and no earlier times. */
  predicate Chain(s: seq<Sampled>) {
    forall i, j :: 0 <= i < j < |s| ==> s[i].sequence < s[j].sequence && s[i].ts <= s[j].ts
  }

  /** Nothing is lost or doubled: every frame sampled is taken, dropped, queued or on its way. */
  predicate Conserved(w: Worker) {
    Contents(w) && Counted(w)
  }

  predicate Contents(w: Worker) {
    multiset(w.offered) == multiset(w.taken) + multiset(w.evicted) + multiset(w.queue) + multiset(w.handed)
  }

  predicate Counted(w: Worker) {
    && w.sampled == |w.offered|
    && w.dropped == |w.evicted| + Refusals(w.answers)
    && |w.queue| <= CAPACITY
    && |w.answers| + (if w.flight.Some? then 1 else 0) == |w.taken|
    && (w.flight.Some? ==> w.flight.value == w.taken[|w.taken| - 1])
  }

  function Line(w: Worker): seq<Sampled> {
    w.taken + w.queue + w.handed
  }

  /** Frames move down the line in order. */
  predicate InLine(w: Worker) {
    Chain(Line(w)) && forall f :: f in Line(w) ==> f.sequence <= w.sequence
  }

  predicate Spaced(s: seq<Sampled>, interval: real) {
    forall i, j :: 0 <= i < j < |s| && s[i].connection == s[j].connection ==> s[j].ts - s[i].ts >= interval
  }

  predicate Sampling(w: Worker, interval: real) {
    && Spaced(w.offered, interval)
    && forall f :: f in w.offered ==>
         f.connection <= w.connection && (f.connection == w.connection ==> f.ts + interval <= w.nextSample)
  }

  /** The next sample is due at once on a new connection, and an interval after the last. */
  predicate Due(w: Worker, interval: real) {
    && w.nextSample >= 0.0
    && (w.nextSample == 0.0 ||
        exists f :: f in w.offered && f.connection == w.connection && f.ts + interval == w.nextSample)
  }

  /** The clock the decode thread reads never runs back. */
  predicate ForwardClock(acts: seq<Act>) {
    forall i, j :: 0 <= i < j < |acts| && acts[i].Decode? && acts[j].Decode? ==> acts[i].now <= acts[j].now
  }

  lemma Unpack<T>(s: seq<T>)
    requires s != []
    ensures multiset(s) == multiset{s[0]} + multiset(s[1..])
  {
    assert s == [s[0]] + s[1..];
  }

  lemma Append<T>(s: seq<T>, x: T)
    ensures multiset(s + [x]) == multiset(s) + multiset{x}
  {}

  lemma ContentsEnqueue(w: Worker, interval: real)
    requires Contents(w) && w.handed != []
    ensures Contents(Step(w, Enqueue, interval))
  {
    Unpack(w.handed);
    if |w.queue| >= CAPACITY {
      Unpack(w.queue);
      Append(w.queue[1..], w.handed[0]);
      Append(w.evicted, w.queue[0]);
    } else {
      Append(w.queue, w.handed[0]);
    }
  }

  lemma ConservedDecode(w: Worker, now: real, interval: real)
    requires Conserved(w)
    ensures Conserved(Step(w, Decode(now), interval))
  {}

  lemma ConservedConsumer(w: Worker, act: Act, interval: real)
    requires Conserved(w) && (act.Take? || act.Settle?)
    ensures Conserved(Step(w, act, interval))
  {
    if act.Take? && w.flight.None? && w.queue != [] {
      Unpack(w.queue);
      Append(w.taken, w.queue[0]);
    } else if act.Settle? && w.flight.Some? {
      assert (w.answers + [act.answer])[..|w.answers|] == w.answers;
    }
  }

  lemma ConservedStep(w: Worker, act: Act, interval: real)
    requires Conserved(w)
    ensures Conserved(Step(w, act, interval))
  {
    match act
    case Connect =>
    case Decode(now) => ConservedDecode(w, now, interval);
    case Enqueue =>
      if w.handed != [] {
        ContentsEnqueue(w, interval);
      }
    case Take => ConservedConsumer(w, act, interval);
    case Settle(_) => ConservedConsumer(w, act, interval);
  }

  /** In every interleaving frames are conserved. */
  lemma {:induction false} EveryRunConserves(acts: seq<Act>, interval: real)
    ensures Conserved(Run(acts, interval))
  {
    if acts != [] {
      EveryRunConserves(acts[..|acts| - 1], interval);
      ConservedStep(Run(acts[..|acts| - 1], interval), acts[|acts| - 1], interval);
    }
  }

  lemma SamplingStep(w: Worker, act: Act, interval: real)
    requires interval > 0.0 && Sampling(w, interval)
    ensures Sampling(Step(w, act, interval), interval)
  {}

  /** Frames sampled on one connection are at least one interval apart, whatever the clock
      does. */
  lemma {:induction false} EveryRunSpaces(acts: seq<Act>, interval: real)
    requires interval > 0.0
    ensures Sampling(Run(acts, interval), interval)
  {
    if acts != [] {
      EveryRunSpaces(acts[..|acts| - 1], interval);
      SamplingStep(Run(acts[..|acts| - 1], interval), acts[|acts| - 1], interval);
    }
  }

  lemma DueStep(w: Worker, act: Act, interval: real)
    requires interval > 0.0 && Due(w, interval)
    ensures Due(Step(w, act, interval), interval)
  {
    var n := Step(w, act, interval);
    if act.Decode? && act.now >= w.nextSample {
      assert n.offered[|w.offered|] in n.offered;
    } else if act.Decode? || !act.Connect? {
      assert n.offered == w.offered;
    }
  }

  lemma {:induction false} EveryRunDue(acts: seq<Act>, interval: real)
    requires interval > 0.0
    ensures Due(Run(acts, interval), interval)
  {
    if acts != [] {
      EveryRunDue(acts[..|acts| - 1], interval);
      DueStep(Run(acts[..|acts| - 1], interval), acts[|acts| - 1], interval);
    }
  }

  // ---- nothing is held back ------------------------------------------------

  /** The last frames, as many as the queue holds. */
  function Newest(frames: seq<Sampled>): seq<Sampled> {
    if |frames| <= CAPACITY then frames else frames[|frames| - CAPACITY..]
  }

  /** The worker when the loop has run `n` more callbacks. */
  function Enqueued(w: Worker, n: nat, interval: real): Worker {
    if n == 0 then w else Step(Enqueued(w, n - 1, interval), Enqueue, interval)
  }

  /** Once the callbacks have run, the queue holds the newest of the frames that waited. */
  lemma {:induction false} QueueHoldsNewest(w: Worker, n: nat, interval: real)
    requires |w.queue| <= CAPACITY && n <= |w.handed|
    ensures var r := Enqueued(w, n, interval);
            && r.handed == w.handed[n..] && r.queue == Newest(w.queue + w.handed[..n])
            && r.taken == w.taken && r.flight == w.flight
  {
    if n == 0 {
      assert w.queue + w.handed[..0] == w.queue;
    } else {
      QueueHoldsNewest(w, n - 1, interval);
      NewestNext(w.queue, w.handed, n);
    }
  }

  lemma NewestNext(queue: seq<Sampled>, handed: seq<Sampled>, n: nat)
    requires 0 < n <= |handed|
    ensures var before := Newest(queue + handed[..n - 1]);
            Newest(queue + handed[..n])
            == (if |before| >= CAPACITY then before[1..] else before) + [handed[n - 1]]
  {
    OneMoreHanded(queue, handed, n);
    NewestSnoc(queue + handed[..n - 1], handed[n - 1]);
  }

  lemma OneMoreHanded(queue: seq<Sampled>, handed: seq<Sampled>, n: nat)
    requires 0 < n <= |handed|
    ensures queue + handed[..n] == queue + handed[..n - 1] + [handed[n - 1]]
  {}

  lemma NewestSnoc(frames: seq<Sampled>, x: Sampled)
    ensures var before := Newest(frames);
            Newest(frames + [x]) == (if |before| >= CAPACITY then before[1..] else before) + [x]
  {}

  /** The worker when the consumer has taken and settled `n` more frames. */
  function Consumed(w: Worker, n: nat, interval: real): Worker {
    if n == 0 then w
    else Step(Step(Consumed(w, n - 1, interval), Take, interval), Settle(Answered), interval)
  }

  lemma TakeAndSettle(w: Worker, interval: real)
    requires w.flight == None && w.queue != []
    ensures Step(Step(w, Take, interval), Settle(Answered), interval)
            == w.(queue := w.queue[1..], taken := w.taken + [w.queue[0]], answers := w.answers + [Answered])
  {}

  lemma OneMoreTaken(queue: seq<Sampled>, taken: seq<Sampled>, n: nat)
    requires 0 < n <= |queue|
    ensures taken + queue[..n] == taken + queue[..n - 1] + [queue[n - 1]]
    ensures queue[n - 1..][1..] == queue[n..] && queue[n - 1..][0] == queue[n - 1]
  {}

  /** A consumer that is free takes the queued frames one after the other, until there are none. */
  lemma {:induction false} ConsumerDrains(w: Worker, n: nat, interval: real)
    requires w.flight == None && n <= |w.queue|
    ensures var r := Consumed(w, n, interval);
            && r.queue == w.queue[n..] && r.taken == w.taken + w.queue[..n] && r.flight == None
            && |r.answers| == |w.answers| + n
  {
    if n > 0 {
      ConsumerDrains(w, n - 1, interval);
      TakeAndSettle(Consumed(w, n - 1, interval), interval);
      OneMoreTaken(w.queue, w.taken, n);
    }
  }

  function Connects(acts: seq<Act>): nat {
    if acts == [] then 0
    else Connects(acts[..|acts| - 1]) + if acts[|acts| - 1] == Connect then 1 else 0
  }

  /** Frames are numbered from 1 without gaps, connections counted as they are made. */
  lemma {:induction false} EveryRunNumbers(acts: seq<Act>, interval: real)
    ensures var w := Run(acts, interval);
            && w.sequence == |w.offered| && w.connection == Connects(acts)
            && forall i :: 0 <= i < |w.offered| ==> w.offered[i].sequence == i + 1
  {
    if acts != [] {
      EveryRunNumbers(acts[..|acts| - 1], interval);
    }
  }

  /** In every run a decoded frame is sampled exactly if every frame sampled on its connection is
      at least one interval old (and its time is not negative): never too often, and never too
      rarely. */
  lemma SampledExactlyWhen(acts: seq<Act>, interval: real, now: real)
    requires interval > 0.0
    ensures var w, n := Run(acts, interval), Run(acts + [Decode(now)], interval);
            var due := now >= 0.0 &&
                       forall f :: f in w.offered && f.connection == w.connection ==> now - f.ts >= interval;
            n.offered == w.offered + (if due then [Sampled(w.sequence + 1, now, w.connection)] else [])
  {
    assert (acts + [Decode(now)])[..|acts|] == acts;
    EveryRunSpaces(acts, interval);
    EveryRunDue(acts, interval);
  }

  lemma ChainWithout(a: seq<Sampled>, x: Sampled, b: seq<Sampled>)
    requires Chain(a + [x] + b)
    ensures Chain(a + b)
    ensures forall f :: f in a + b ==> f in a + [x] + b
  {
    var s, t := a + [x] + b, a + b;
    forall i, j | 0 <= i < j < |t|
      ensures t[i].sequence < t[j].sequence && t[i].ts <= t[j].ts
    {
      var i', j' := if i < |a| then i else i + 1, if j < |a| then j else j + 1;
      assert t[i] == s[i'] && t[j] == s[j'];
    }
    forall f | f in t
      ensures f in s
    {
      var i :| 0 <= i < |t| && t[i] == f;
      assert s[if i < |a| then i else i + 1] == f;
    }
  }

  lemma ChainSnoc(s: seq<Sampled>, f: Sampled)
    requires Chain(s) && forall g :: g in s ==> g.sequence < f.sequence && g.ts <= f.ts
    ensures Chain(s + [f])
  {}

  lemma InLineStep(w: Worker, act: Act, interval: real)
    requires InLine(w)
    requires act.Decode? ==> forall f :: f in Line(w) ==> f.ts <= act.now
    ensures InLine(Step(w, act, interval))
    ensures forall f :: f in Line(Step(w, act, interval)) ==> f in Line(w) || (act.Decode? && f.ts == act.now)
  {
    var n := Step(w, act, interval);
    match act
    case Decode(now) =>
      if now >= w.nextSample {
        var f := Sampled(w.sequence + 1, now, w.connection);
        ChainSnoc(Line(w), f);
        assert Line(n) == Line(w) + [f];
      }
    case Enqueue =>
      if w.handed != [] {
        if |w.queue| >= CAPACITY {
          var a, b := w.taken, w.queue[1..] + w.handed;
          assert Line(w) == a + [w.queue[0]] + b;
          ChainWithout(a, w.queue[0], b);
          assert Line(n) == a + b;
        } else {
          assert Line(n) == Line(w);
        }
      }
    case Take =>
      assert Line(n) == Line(w);
    case Connect =>
    case Settle(_) =>
  }

  /** With a clock that never runs back, frames stay in line in every interleaving, and each
      carries the time of a decode. */
  lemma {:induction false} EveryRunInLine(acts: seq<Act>, interval: real)
    requires ForwardClock(acts)
    ensures InLine(Run(acts, interval))
    ensures forall f :: f in Line(Run(acts, interval)) ==> exists i :: 0 <= i < |acts| && acts[i] == Decode(f.ts)
  {
    if acts != [] {
      var n := |acts| - 1;
      var w := Run(acts[..n], interval);
      EveryRunInLine(acts[..n], interval);
      forall f | f in Line(w)
        ensures exists i :: 0 <= i < n && acts[i] == Decode(f.ts)
      {
        var i :| 0 <= i < n && acts[..n][i] == Decode(f.ts);
        assert acts[i] == Decode(f.ts);
      }
      InLineStep(w, acts[n], interval);
    }
  }

  lemma {:induction false} DeliveredChain(taken: seq<Sampled>, answers: seq<Answer>)
    requires |answers| <= |taken| && Chain(taken)
    ensures Chain(Delivered(taken, answers))
    ensures forall f :: f in Delivered(taken, answers) ==> f in taken[..|answers|]
  {
    if answers != [] {
      var n := |answers| - 1;
      DeliveredChain(taken, answers[..n]);
      assert taken[..n + 1] == taken[..n] + [taken[n]];
      forall f | f in taken[..n]
        ensures f.sequence < taken[n].sequence && f.ts <= taken[n].ts
      {
      }
      ChainSnoc(Delivered(taken, answers[..n]), taken[n]);
    }
  }

  /** The incident engine sees strictly increasing sequence numbers and times that never run
      back. */
  lemma DeliveredInOrder(acts: seq<Act>, interval: real)
    requires ForwardClock(acts)
    ensures var w := Run(acts, interval);
            |w.answers| <= |w.taken| && Chain(Delivered(w.taken, w.answers))
  {
    EveryRunConserves(acts, interval);
    EveryRunInLine(acts, interval);
    var w := Run(acts, interval);
    forall i, j | 0 <= i < j < |w.taken|
      ensures w.taken[i].sequence < w.taken[j].sequence && w.taken[i].ts <= w.taken[j].ts
    {
      assert Line(w)[i] == w.taken[i] && Line(w)[j] == w.taken[j];
    }
    DeliveredChain(w.taken, w.answers);
  }

  /** A frame is dropped for the queue only when the two frames then queued are newer; one of
      them has just been enqueued. */
  lemma EvictedForNewer(acts: seq<Act>, interval: real)
    requires ForwardClock(acts)
    ensures var w := Run(acts, interval);
            var n := Step(w, Enqueue, interval);
            n.evicted != w.evicted ==>
              && |n.queue| == CAPACITY && n.evicted == w.evicted + [w.queue[0]]
              && (forall f :: f in n.queue ==> f.sequence > w.queue[0].sequence && f.ts >= w.queue[0].ts)
  {
    EveryRunConserves(acts, interval);
    EveryRunInLine(acts, interval);
    var w := Run(acts, interval);
    var n := Step(w, Enqueue, interval);
    if w.handed != [] && |w.queue| >= CAPACITY {
      var k := |w.taken|;
      assert Line(w)[k] == w.queue[0] && Line(w)[k + 1] == w.queue[1] && Line(w)[k + 2] == w.handed[0];
      assert n.queue == [w.queue[1], w.handed[0]];
    }
  }

  // ---- and what the incident engine makes of it ----------------------------

  /** The times of the frames among the inputs of a camera engine. */
  function Stamps(inputs: seq<Histories.Input>): seq<real> {
    if inputs == [] then []
    else
      match inputs[|inputs| - 1]
      case Frame(result, _) => Stamps(inputs[..|inputs| - 1]) + [result.ts]
      case OperatorCancel => Stamps(inputs[..|inputs| - 1])
  }

  lemma {:induction false} FramesKeepStamps(rig: Confirmation.Rig, inputs: seq<Histories.Input>)
    requires rig.Valid()
    ensures |Histories.Frames(rig, inputs)| == |Stamps(inputs)|
    ensures forall i :: 0 <= i < |Stamps(inputs)| ==> Histories.Frames(rig, inputs)[i].ts == Stamps(inputs)[i]
  {
    if inputs != [] {
      FramesKeepStamps(rig, inputs[..|inputs| - 1]);
    }
  }

  function TimesOf(s: seq<Sampled>): (r: seq<real>)
    ensures |r| == |s| && forall i :: 0 <= i < |s| ==> r[i] == s[i].ts
  {
    seq(|s|, i requires 0 <= i < |s| => s[i].ts)
  }

  /** The engine's assumption on time is met: its frames are those delivered, under any
      operator cancels in between. */
  lemma EngineFramesAreTimely(acts: seq<Act>, interval: real, rig: Confirmation.Rig, inputs: seq<Histories.Input>)
    requires ForwardClock(acts) && rig.Valid()
    requires var w := Run(acts, interval);
             |w.answers| <= |w.taken| && Stamps(inputs) == TimesOf(Delivered(w.taken, w.answers))
    ensures Histories.Timely(Histories.Frames(rig, inputs))
  {
    DeliveredInOrder(acts, interval);
    FramesKeepStamps(rig, inputs);
  }

  // ---- the worker ----------------------------------------------------------

  class CameraWorker {
    const interval: real
    var connection: nat
    var nextSample: real
    var sequence: nat
    var framesDecoded: nat
    var framesSampled: nat
    var framesDropped: nat
    var handed: seq<Sampled>
    var queue: seq<Sampled>
    var flight: Option<Sampled>
    ghost var offered: seq<Sampled>
    ghost var evicted: seq<Sampled>
    ghost var taken: seq<Sampled>
    ghost var answers: seq<Answer>

    ghost function View(): Worker
      reads this
    {
      Worker(connection, nextSample, sequence, framesDecoded, framesSampled, framesDropped,
             handed, queue, flight, offered, evicted, taken, answers)
    }

    constructor (sampleFps: real)
      requires sampleFps > 0.0
      ensures View() == IDLE && interval == 1.0 / sampleFps
    {
      interval := 1.0 / sampleFps;
      nextSample, sequence, framesDecoded, framesSampled, framesDropped := 0.0, 0, 0, 0, 0;
      handed, queue, flight := [], [], None;
      connection, offered, evicted, taken, answers := 0, [], [], [], [];
    }

    /** A stream has been opened and reading starts. */
    method StartReading()
      modifies this
      ensures View() == Step(old(View()), Connect, interval)
    {
      nextSample := 0.0;
      connection := connection + 1;
    }

    /** One decoded frame: sampled if its time has come, and then handed to the loop. */
    method ReadOne(now: real)
      modifies this
      ensures View() == Step(old(View()), Decode(now), interval)
    {
      framesDecoded := framesDecoded + 1;
      if now < nextSample {
        return;
      }
      nextSample := now + interval;
      framesSampled := framesSampled + 1;
      sequence := sequence + 1;
      var frame := Sampled(sequence, now, connection);
      handed := handed + [frame];
      offered := offered + [frame];
    }

    /** The next scheduled callback: the frame is queued, in place of the oldest if need be. */
    method EnqueueNext()
      modifies this
      ensures View() == Step(old(View()), Enqueue, interval)
    {
      if handed == [] {
        return;
      }
      var frame := handed[0];
      handed := handed[1..];
      if |queue| >= CAPACITY {
        evicted := evicted + [queue[0]];
        queue := queue[1..];
        framesDropped := framesDropped + 1;
      }
      queue := queue + [frame];
    }

    /** The consumer takes the next frame, if it has none in flight. */
    method TakeNext()
      modifies this
      ensures View() == Step(old(View()), Take, interval)
    {
      if flight.Some? || queue == [] {
        return;
      }
      flight := Some(queue[0]);
      taken := taken + [queue[0]];
      queue := queue[1..];
    }

    /** The submitted frame comes back: a result, a saturated service, or an error. */
    method Conclude(answer: Answer)
      modifies this
      ensures View() == Step(old(View()), Settle(answer), interval)
    {
      if flight.None? {
        return;
      }
      flight := None;
      answers := answers + [answer];
      if answer == Refused {
        framesDropped := framesDropped + 1;
      }
    }
  }
}
