/** The escalation run as the program it is (firemex/notify/dispatcher.py and the
    acknowledgement bus of firemex/notify/base.py): loops that update a record and a bus in
    place, proved to do what module Escalation says. */
module Dispatcher {
  import opened Geometry
  import opened Escalation

  /** The first acknowledgement of an incident wins; one that comes before anybody waits is
      kept. */
  class AckBus {
    var ackedBy: map<string, string>

    function Who(id: string): Option<string>
      reads this
    {
      if id in ackedBy then Some(ackedBy[id]) else None
    }

    constructor ()
      ensures ackedBy == map[]
    {
      ackedBy := map[];
    }

    method Acknowledge(id: string, contact: string) returns (accepted: bool)
      modifies this
      ensures accepted == (id !in old(ackedBy))
      ensures ackedBy == if accepted then old(ackedBy)[id := contact] else old(ackedBy)
    {
      if id in ackedBy {
        return false;
      }
      ackedBy := ackedBy[id := contact];
      return true;
    }
  }

  class DispatchRun {
    var status: Status
    var attempts: seq<Attempt>
    var acknowledgedBy: Option<string>
    var finished: Option<nat>
    ghost var begun: seq<Begin>

    ghost function View(): Run
      reads this
    {
      Run(status, attempts, acknowledgedBy, finished, begun)
    }

    constructor ()
      ensures View() == Run(SHADOW, [], None, None, [])
    {
      status, attempts, acknowledgedBy, finished, begun := SHADOW, [], None, None, [];
    }
  }

  function FlowOf(answer: bool, stop: Option<Cause>, w: World): Flow {
    if stop.Some? then Stops(stop.value, w) else Goes(answer, w)
  }

  /** One incident's run on the dispatcher, and the world it is run in. */
  class Escalator {
    const cfg: Config
    const tape: Tape
    const incidentId: string
    const bus: AckBus
    const run: DispatchRun
    var clock: nat

    ghost function View(): World
      reads this, bus, run
    {
      World(clock, bus.Who(incidentId), run.View())
    }

    constructor (cfg: Config, tape: Tape, incidentId: string, bus: AckBus)
      ensures this.cfg == cfg && this.tape == tape && this.incidentId == incidentId && this.bus == bus
      ensures fresh(run) && View() == Initial(bus.Who(incidentId))
    {
      this.cfg, this.tape, this.incidentId, this.bus := cfg, tape, incidentId, bus;
      run := new DispatchRun();
      clock := 0;
    }

    /** Gives control away until the awaited operation ends. */
    method Suspend() returns (reply: Reply)
      modifies this, bus, run
      ensures View() == Await(tape, old(View())) && reply == tape(old(clock))
    {
      reply := tape(clock);
      clock := clock + 1;
      for i := 0 to |reply.acks|
        invariant clock == old(clock) + 1
        invariant run.status == old(run.status) && run.attempts == old(run.attempts)
        invariant run.finished == old(run.finished) && run.begun == old(run.begun)
        invariant bus.Who(incidentId) ==
                  if old(bus.Who(incidentId)).Some? || i == 0 then old(bus.Who(incidentId)) else Some(reply.acks[0])
        invariant run.acknowledgedBy ==
                  if old(bus.Who(incidentId)).Some? || i == 0 then old(run.acknowledgedBy) else Some(reply.acks[0])
      {
        var accepted := bus.Acknowledge(incidentId, reply.acks[i]);
        if accepted {
          run.acknowledgedBy := Some(reply.acks[i]);
        }
      }
      if reply.fate == Cancelled(true) {
        run.status, run.finished := CANCELLED, Some(clock);
      }
    }

    /** Awaits something whose exceptions reach the run. */
    method AskFor() returns (reply: Reply, stop: Option<Cause>)
      modifies this, bus, run
      ensures FlowOf(reply.yes, stop, View()) == Ask(tape, old(View())) && reply == tape(old(clock))
    {
      reply := Suspend();
      stop := match reply.fate
              case Returns => None
              case Raises => Some(Exception)
              case Cancelled(_) => Some(Cancellation);
    }

    method PublishRun() returns (stop: Option<Cause>)
      modifies this, bus, run
      ensures FlowOf(false, stop, View()) == Publish(tape, cfg, old(View()))
    {
      stop := None;
      if cfg.publishes {
        var reply := Suspend();
        if reply.fate.Cancelled? {
          stop := Some(Cancellation);
        }
      }
    }

    method SendOne(step: Step) returns (outcome: Outcome, stop: Option<Cause>)
      modifies this, bus, run
      ensures FlowOf(false, stop, View()) == Send(tape, cfg, old(View()), step)
      ensures outcome == tape(old(clock)).outcome
    {
      run.begun := run.begun + [Begin(step, clock)];
      var reply;
      reply, stop := AskFor();
      outcome := reply.outcome;
      if stop.Some? {
        return;
      }
      run.attempts := run.attempts + [Attempt(step, outcome)];
      stop := PublishRun();
    }

    method Wait() returns (acked: bool, stop: Option<Cause>)
      modifies this, bus, run
      ensures FlowOf(acked, stop, View()) == WaitForAck(tape, old(View()))
    {
      if incidentId in bus.ackedBy {
        return true, None;
      }
      var reply := Suspend();
      if reply.fate.Cancelled? {
        return false, Some(Cancellation);
      }
      return incidentId in bus.ackedBy && reply.yes, None;
    }

    /** The calls to one contact: a call that could not be placed is not waited for. */
    method CallContact(step: Step, retries: nat) returns (acked: bool, stop: Option<Cause>)
      modifies this, bus, run
      ensures FlowOf(acked, stop, View()) == Calls(tape, cfg, old(View()), step, retries + 1)
    {
      ghost var start := View();
      for attempt := 0 to retries + 1
        invariant Calls(tape, cfg, View(), step, retries + 1 - attempt) == Calls(tape, cfg, start, step, retries + 1)
      {
        var outcome;
        outcome, stop := SendOne(step);
        if stop.Some? {
          return false, stop;
        }
        if outcome == Failed {
          continue;
        }
        acked, stop := Wait();
        if stop.Some? || acked {
          return acked, stop;
        }
      }
      return incidentId in bus.ackedBy, None;
    }

    method TryOne(k: nat) returns (acked: bool, stop: Option<Cause>)
      requires k < |cfg.chain|
      modifies this, bus, run
      ensures FlowOf(acked, stop, View()) == TryContact(tape, cfg, old(View()), k)
    {
      var contact := cfg.chain[k];
      if contact.sms && cfg.text {
        var _, halt := SendOne(Step(Sms, k, contact.id));
        if halt.Some? {
          return false, halt;
        }
      }
      if !contact.call {
        return incidentId in bus.ackedBy, None;
      }
      if !cfg.voice {
        return false, None;
      }
      acked, stop := CallContact(Step(Call, k, contact.id), contact.retries);
    }

    method FinishRun(status: Status) returns (stop: Option<Cause>)
      modifies this, bus, run
      ensures FlowOf(false, stop, View()) == Finish(tape, cfg, old(View()), status)
    {
      run.status, run.finished := status, Some(clock);
      stop := PublishRun();
    }

    method GracePeriod() returns (stop: Option<Cause>)
      modifies this, bus, run
      ensures stop == None <==> Grace(tape, cfg, old(View())).Goes?
      ensures stop.Some? ==> Stops(stop.value, View()) == Grace(tape, cfg, old(View()))
      ensures View() == Grace(tape, cfg, old(View())).world
    {
      stop := None;
      if cfg.delay > 0.0 {
        stop := PublishRun();
        if stop.None? {
          var slept;
          slept, stop := AskFor();
        }
      }
    }

    /** The chain, contact by contact, until somebody acknowledges. */
    method EscalateChain() returns (stop: Option<Cause>)
      modifies this, bus, run
      ensures FlowOf(false, stop, View()) == Escalate(tape, cfg, old(View()))
    {
      stop := GracePeriod();
      if stop.Some? {
        return;
      }
      ghost var start := View();
      for k := 0 to |cfg.chain|
        invariant Walk(tape, cfg, View(), k) == Walk(tape, cfg, start, 0)
      {
        var acked, halt := TryOne(k);
        if halt.Some? {
          return halt;
        }
        if acked {
          run.acknowledgedBy := bus.Who(incidentId);
          stop := FinishRun(ACKNOWLEDGED);
          return;
        }
      }
      stop := FinishRun(EXHAUSTED);
    }

    method ExecuteRun() returns (stop: Option<Cause>)
      modifies this, bus, run
      ensures FlowOf(false, stop, View()) == Execute(tape, cfg, old(View()))
    {
      stop := None;
      var reply;
      if cfg.webhook {
        reply, stop := AskFor();
        if stop.Some? {
          return;
        }
      }
      if cfg.shadow {
        stop := FinishRun(SHADOW);
        return;
      }
      reply, stop := AskFor();
      if stop.Some? {
        return;
      }
      if !reply.yes {
        stop := FinishRun(SUPPRESSED);
      } else if cfg.chain == [] {
        stop := FinishRun(NO_CONTACTS);
      } else {
        stop := EscalateChain();
      }
    }

    /** The run with its handlers: no run ends without a verdict. */
    method RunToEnd()
      requires View() == Initial(bus.Who(incidentId))
      modifies this, bus, run
      ensures View() == Complete(tape, cfg, old(bus.Who(incidentId)))
    {
      var stop := ExecuteRun();
      if stop == Some(Cancellation) {
        stop := FinishRun(CANCELLED);
      } else if stop == Some(Exception) {
        stop := FinishRun(FAILED);
      }
    }
  }
}
