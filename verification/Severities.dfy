/** What the severity of an open incident says about its past
    (firemex/incident/engine.py, _open, _observe_confirmed and _severity). */
module Severities {
  import opened Geometry
  import opened Confirmation
  import opened Histories
  import opened Lifecycle

  /** The growth ratio reached 1.6 when the incident opened or on a hit since. */
  predicate Surged(rig: Rig, e: Engine, after: seq<Input>)
    requires rig.Valid() && e.Valid()
  {
    if after == [] then e.incident.Some? && e.incident.value.growthRatio >= 1.6
    else
      var last := after[|after| - 1];
      || Surged(rig, e, after[..|after| - 1])
      || (last.Frame? && Filter(rig, last.result).Hit() && GrowthRatio(Resume(rig, e, after).history) >= 1.6)
  }

  predicate Judged(i: Incident, surged: bool) {
    i.severity == Critical <==> Fire in i.labels || surged
  }

  lemma OpeningJudged(rig: Rig, e: Engine, input: Input)
    requires rig.Valid() && e.Valid() && Emits(Step(rig, e, input).1, Opened)
    ensures var i := Step(rig, e, input).0.incident;
            i.Some? && Judged(i.value, i.value.growthRatio >= 1.6)
  {}

  lemma FrameJudged(rig: Rig, e: Engine, result: FrameResult, id: string, surged: bool)
    requires rig.Valid() && e.Valid() && e.incident.Some? && Judged(e.incident.value, surged)
    requires Step(rig, e, Frame(result, id)).0.incident.Some?
    ensures var n := Step(rig, e, Frame(result, id)).0;
            Judged(n.incident.value, surged || (Filter(rig, result).Hit() && GrowthRatio(n.history) >= 1.6))
  {}

  lemma {:induction false} StaysJudged(rig: Rig, e: Engine, after: seq<Input>)
    requires rig.Valid() && e.Valid() && e.incident.Some? && StaysOpen(rig, e, after)
    requires Judged(e.incident.value, e.incident.value.growthRatio >= 1.6)
    ensures Judged(Resume(rig, e, after).incident.value, Surged(rig, e, after))
  {
    if after != [] {
      var front, last := after[..|after| - 1], after[|after| - 1];
      StaysJudged(rig, e, front);
      if last.Frame? {
        FrameJudged(rig, Resume(rig, e, front), last.result, last.id, Surged(rig, e, front));
      }
    }
  }

  /** For as long as it is open, an incident is CRITICAL exactly if fire is among its labels
      or its growth ratio reached 1.6 when it opened or on some hit since. */
  lemma SeverityMeaning(rig: Rig, before: seq<Input>, opening: Input, after: seq<Input>)
    requires rig.Valid() && Emits(NewEvents(rig, before, opening), Opened)
    requires StaysOpen(rig, Run(rig, before + [opening]).engine, after)
    ensures var e := Run(rig, before + [opening]).engine;
            Judged(Resume(rig, e, after).incident.value, Surged(rig, e, after))
  {
    RunSnoc(rig, before, opening);
    OpeningJudged(rig, Run(rig, before).engine, opening);
    StaysJudged(rig, Run(rig, before + [opening]).engine, after);
  }
}
