/** The per-camera cooldown (firemex/notify/base.py, CooldownStore). */
module Cooldown {

  /** When each camera last alerted. */
  type Seen = map<string, real>

  /** Each question brings its own cooldown: the configuration may have changed since the last. */
  datatype Query = Query(camera: string, now: real, cooldown: real)

  predicate ShouldAlert(seen: Seen, q: Query) {
    q.camera in seen ==> q.now - seen[q.camera] >= q.cooldown
  }

  function SeenAfter(seen: Seen, q: Query): Seen {
    if ShouldAlert(seen, q) then seen[q.camera := q.now] else seen
  }

  function SeenAll(qs: seq<Query>): Seen {
    if qs == [] then map[] else SeenAfter(SeenAll(qs[..|qs| - 1]), qs[|qs| - 1])
  }

  /** Whether query `k` of a history was let through. */
  predicate Accepted(qs: seq<Query>, k: nat)
    requires k < |qs|
  {
    ShouldAlert(SeenAll(qs[..k]), qs[k])
  }

  predicate Sensible(qs: seq<Query>) {
    forall i :: 0 <= i < |qs| ==> qs[i].cooldown >= 0.0
  }

  predicate AcceptedFor(qs: seq<Query>, i: nat, camera: string) {
    i < |qs| && qs[i].camera == camera && Accepted(qs, i)
  }

  /** The store remembers the latest alert of a camera, in time as well as in order. */
  lemma {:induction false} SeenIsLatest(qs: seq<Query>, n: nat, camera: string)
    requires Sensible(qs) && n <= |qs|
    ensures var seen := SeenAll(qs[..n]);
            && (camera in seen <==> exists i: nat :: i < n && AcceptedFor(qs, i, camera))
            && (camera in seen ==> exists i: nat :: i < n && AcceptedFor(qs, i, camera) && qs[i].now == seen[camera])
            && (camera in seen ==>
                  forall i: nat :: i < n && AcceptedFor(qs, i, camera) ==> qs[i].now <= seen[camera])
  {
    if n > 0 {
      SeenIsLatest(qs, n - 1, camera);
      assert qs[..n][..n - 1] == qs[..n - 1];
      var before, after := SeenAll(qs[..n - 1]), SeenAll(qs[..n]);
      assert after == SeenAfter(before, qs[n - 1]);
      if AcceptedFor(qs, n - 1, camera) {
        assert after[camera] == qs[n - 1].now;
      }
    }
  }

  /** One fire, one call sequence: an alert goes through exactly if every alert of its camera
      that went through before it is at least its cooldown away.  No clock is assumed to run
      forward, and the cooldown may change between questions. */
  lemma AcceptedExactlyWhen(qs: seq<Query>, k: nat)
    requires Sensible(qs) && k < |qs|
    ensures Accepted(qs, k) <==>
            forall i: nat :: i < k && AcceptedFor(qs, i, qs[k].camera) ==> qs[k].now - qs[i].now >= qs[k].cooldown
  {
    SeenIsLatest(qs, k, qs[k].camera);
  }

  class CooldownStore {
    var seen: map<string, real>
    ghost var asked: seq<Query>

    /** The store is what its history says. */
    ghost predicate Valid()
      reads this
    {
      seen == SeenAll(asked)
    }

    constructor ()
      ensures Valid() && asked == []
    {
      seen, asked := map[], [];
    }

    method Ask(camera: string, now: real, cooldown: real) returns (alert: bool)
      requires Valid()
      modifies this
      ensures Valid() && asked == old(asked) + [Query(camera, now, cooldown)]
      ensures alert == Accepted(asked, |old(asked)|)
    {
      asked := asked + [Query(camera, now, cooldown)];
      assert asked[..|asked| - 1] == old(asked);
      if camera in seen && now - seen[camera] < cooldown {
        return false;
      }
      seen := seen[camera := now];
      return true;
    }
  }
}
