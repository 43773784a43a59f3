/** The login throttle (firemex/store.py, _authenticate): how many guesses reach the check of
    the password.  Times are in seconds; whether the password is right is a parameter. */
module Login {
  import opened Geometry

  const MAX_FAILURES: nat := 5
  const LOCK_SECONDS: real := 300.0

  datatype User = User(failedLogins: nat, lockedUntil: Option<real>, disabled: bool, lastLogin: Option<real>)

  datatype Reason = Ok | InvalidCredentials | Disabled | Locked

  datatype Attempt = Attempt(now: real, right: bool)

  predicate LockedAt(u: User, now: real) {
    u.lockedUntil.Some? && u.lockedUntil.value > now
  }

  function Authenticate(u: User, a: Attempt): (r: (User, Reason)) {
    if u.disabled then (u, Disabled)
    else if LockedAt(u, a.now) then (u, Locked)
    else if a.right then (u.(failedLogins := 0, lockedUntil := None, lastLogin := Some(a.now)), Ok)
    else if u.failedLogins + 1 >= MAX_FAILURES then
      (u.(failedLogins := 0, lockedUntil := Some(a.now + LOCK_SECONDS)), InvalidCredentials)
    else (u.(failedLogins := u.failedLogins + 1), InvalidCredentials)
  }

  /** A successful login, an unlock and a password reset clear the counter and the lock. */
  function Cleared(u: User): User {
    u.(failedLogins := 0, lockedUntil := None)
  }

  function After(u: User, attempts: seq<Attempt>): User {
    if attempts == [] then u
    else Authenticate(After(u, attempts[..|attempts| - 1]), attempts[|attempts| - 1]).0
  }

  /** The answer to attempt `k`. */
  function Answer(u: User, attempts: seq<Attempt>, k: nat): Reason
    requires k < |attempts|
  {
    Authenticate(After(u, attempts[..k]), attempts[k]).1
  }

  /** How many wrong guesses were compared with the password. */
  function Guesses(u: User, attempts: seq<Attempt>): nat {
    if attempts == [] then 0
    else
      var n := |attempts| - 1;
      Guesses(u, attempts[..n])
      + if Authenticate(After(u, attempts[..n]), attempts[n]).1 == InvalidCredentials then 1 else 0
  }

  predicate Forward(attempts: seq<Attempt>) {
    forall i, j :: 0 <= i < j < |attempts| ==> attempts[i].now <= attempts[j].now
  }

  predicate NoSuccess(u: User, attempts: seq<Attempt>) {
    forall k :: 0 <= k < |attempts| ==> Answer(u, attempts, k) != Ok
  }

  // ---- the rate bound ------------------------------------------------------

  /** After `locks` locks: the guesses are five for each lock and those counted since, and the
      last lock came no earlier than 300 seconds after the one before. */
  predicate Throttled(u: User, start: User, guesses: nat, locks: nat, from: real, now: real) {
    && u.failedLogins < MAX_FAILURES
    && guesses + start.failedLogins == MAX_FAILURES * locks + u.failedLogins
    && (locks > 0 ==>
          && u.lockedUntil.Some?
          && from + LOCK_SECONDS * locks as real <= u.lockedUntil.value <= now + LOCK_SECONDS
          && (u.failedLogins > 0 ==> u.lockedUntil.value <= now))
  }

  lemma {:induction false} RunThrottled(u: User, attempts: seq<Attempt>, from: real) returns (locks: nat)
    requires u.failedLogins < MAX_FAILURES && Forward(attempts) && NoSuccess(u, attempts)
    requires forall i :: 0 <= i < |attempts| ==> from <= attempts[i].now
    ensures Throttled(After(u, attempts), u, Guesses(u, attempts), locks,
                      from, if attempts == [] then from else attempts[|attempts| - 1].now)
  {
    locks := 0;
    if attempts != [] {
      var n := |attempts| - 1;
      var front := attempts[..n];
      forall k | 0 <= k < n
        ensures Answer(u, front, k) != Ok
      {
        assert front[..k] == attempts[..k];
        assert Answer(u, attempts, k) != Ok;
      }
      locks := RunThrottled(u, front, from);
      var before := After(u, front);
      assert Answer(u, attempts, n) == Authenticate(before, attempts[n]).1;
      if Answer(u, attempts, n) == InvalidCredentials && before.failedLogins + 1 >= MAX_FAILURES {
        locks := locks + 1;
      }
    }
  }

  lemma LocksFit(locks: nat, length: real)
    requires LOCK_SECONDS * locks as real <= length
    ensures locks <= (length / LOCK_SECONDS).Floor
  {}

  /** In any period of `length` seconds without a successful login, an unlock or a reset, at
      most five wrong guesses for each 300 seconds begun are compared with the password. */
  lemma GuessesAreBounded(u: User, attempts: seq<Attempt>, from: real, length: real)
    requires u.failedLogins < MAX_FAILURES && length >= 0.0
    requires Forward(attempts) && NoSuccess(u, attempts)
    requires forall i :: 0 <= i < |attempts| ==> from <= attempts[i].now <= from + length
    ensures Guesses(u, attempts) <= MAX_FAILURES * ((length / LOCK_SECONDS).Floor + 1)
  {
    var locks := RunThrottled(u, attempts, from);
    LocksFit(0, length);
    if locks > 0 {
      LocksFit(locks - 1, length);
      if After(u, attempts).failedLogins > 0 {
        LocksFit(locks, length);
      }
    }
  }

  /** The counter stays below the limit, whatever happens to the account. */
  lemma CounterStaysLow(u: User, a: Attempt)
    requires u.failedLogins < MAX_FAILURES
    ensures Authenticate(u, a).0.failedLogins < MAX_FAILURES && Cleared(u).failedLogins < MAX_FAILURES
  {}

  // ---- every answer, from the answers before -------------------------------

  /** Wrong guesses compared with the password since the last success. */
  function Misses(u: User, attempts: seq<Attempt>): nat {
    if attempts == [] then 0
    else
      var front := attempts[..|attempts| - 1];
      match Authenticate(After(u, front), attempts[|attempts| - 1]).1
      case Ok => 0
      case InvalidCredentials => Misses(u, front) + 1
      case _ => Misses(u, front)
  }

  /** When the last of them that completed five was made. */
  function FifthMiss(u: User, attempts: seq<Attempt>): Option<real> {
    if attempts == [] then None
    else
      var front, last := attempts[..|attempts| - 1], attempts[|attempts| - 1];
      match Authenticate(After(u, front), last).1
      case Ok => None
      case InvalidCredentials => if (Misses(u, front) + 1) % 5 == 0 then Some(last.now) else FifthMiss(u, front)
      case _ => FifthMiss(u, front)
  }

  /** An account with no failures and no lock. */
  predicate Clean(u: User) {
    !u.disabled && u.failedLogins == 0 && u.lockedUntil == None
  }

  lemma {:induction false} RecordFromAnswers(u: User, attempts: seq<Attempt>)
    requires Clean(u)
    ensures var v, fifth := After(u, attempts), FifthMiss(u, attempts);
            && !v.disabled && v.failedLogins == Misses(u, attempts) % 5
            && v.lockedUntil == if fifth.Some? then Some(fifth.value + 300.0) else None
  {
    if attempts != [] {
      RecordFromAnswers(u, attempts[..|attempts| - 1]);
    }
  }

  /** An attempt on an account that is not disabled is refused as locked exactly if the last five
      compared wrong guesses, with no success between or after them, ended less than 300 seconds
      before; otherwise it succeeds exactly if the password is right. */
  lemma AnswerFromAnswers(u: User, attempts: seq<Attempt>, a: Attempt)
    requires Clean(u)
    ensures var fifth := FifthMiss(u, attempts);
            var answer := Authenticate(After(u, attempts), a).1;
            answer == if fifth.Some? && a.now < fifth.value + 300.0 then Locked
                      else if a.right then Ok else InvalidCredentials
  {
    RecordFromAnswers(u, attempts);
  }

  // ---- and it is reached ---------------------------------------------------

  const NEW_USER: User := User(0, None, false, None)

  /** Five guesses as soon as each lock ends, for so many lock periods and once more. */
  function Relentless(periods: nat): seq<Attempt> {
    (if periods == 0 then [] else Relentless(periods - 1))
    + Repeat(Attempt(LOCK_SECONDS * periods as real, false), MAX_FAILURES)
  }

  lemma GuessOnce(u: User, s: seq<Attempt>, a: Attempt)
    requires NoSuccess(u, s) && Authenticate(After(u, s), a).1 == InvalidCredentials
    ensures After(u, s + [a]) == Authenticate(After(u, s), a).0
    ensures Guesses(u, s + [a]) == Guesses(u, s) + 1
    ensures NoSuccess(u, s + [a])
  {
    var t := s + [a];
    assert t[..|s|] == s;
    forall k | 0 <= k < |t|
      ensures Answer(u, t, k) != Ok
    {
      if k < |s| {
        assert t[..k] == s[..k];
        assert Answer(u, s, k) != Ok;
      }
    }
  }

  /** Up to five wrong guesses in a row at one moment all get through. */
  lemma {:induction false} Burst(u: User, s: seq<Attempt>, a: Attempt, n: nat)
    requires n <= MAX_FAILURES && !a.right && NoSuccess(u, s)
    requires var v := After(u, s); !v.disabled && v.failedLogins == 0 && !LockedAt(v, a.now)
    ensures var t := s + Repeat(a, n);
            var v := After(u, t);
            && NoSuccess(u, t) && Guesses(u, t) == Guesses(u, s) + n && !v.disabled
            && (n < MAX_FAILURES ==> v.failedLogins == n && !LockedAt(v, a.now))
            && (n == MAX_FAILURES ==> v.failedLogins == 0 && v.lockedUntil == Some(a.now + LOCK_SECONDS))
  {
    if n == 0 {
      assert s + Repeat(a, 0) == s;
    } else {
      Burst(u, s, a, n - 1);
      GuessOnce(u, s + Repeat(a, n - 1), a);
      assert s + Repeat(a, n) == s + Repeat(a, n - 1) + [a];
    }
  }

  lemma {:induction false} RelentlessGuesses(periods: nat)
    ensures var t := Relentless(periods);
            var v := After(NEW_USER, t);
            && NoSuccess(NEW_USER, t) && Guesses(NEW_USER, t) == MAX_FAILURES * (periods + 1)
            && !v.disabled && v.failedLogins == 0
            && v.lockedUntil == Some(LOCK_SECONDS * (periods + 1) as real)
  {
    var a := Attempt(LOCK_SECONDS * periods as real, false);
    if periods > 0 {
      RelentlessGuesses(periods - 1);
    }
    Burst(NEW_USER, if periods == 0 then [] else Relentless(periods - 1), a, MAX_FAILURES);
  }

  lemma {:induction false} RelentlessTimes(periods: nat)
    ensures Forward(Relentless(periods))
    ensures forall i :: 0 <= i < |Relentless(periods)| ==>
              0.0 <= Relentless(periods)[i].now <= LOCK_SECONDS * periods as real
  {
    if periods > 0 {
      RelentlessTimes(periods - 1);
    }
  }

  /** For every number of lock periods there is a run that reaches the bound. */
  lemma BoundIsReached(periods: nat)
    ensures var attempts := Relentless(periods);
            var length := LOCK_SECONDS * periods as real;
            && Forward(attempts) && NoSuccess(NEW_USER, attempts)
            && (forall i :: 0 <= i < |attempts| ==> 0.0 <= attempts[i].now <= length)
            && Guesses(NEW_USER, attempts) == MAX_FAILURES * ((length / LOCK_SECONDS).Floor + 1)
  {
    RelentlessGuesses(periods);
    RelentlessTimes(periods);
    assert LOCK_SECONDS * periods as real / LOCK_SECONDS == periods as real;
  }

  // ---- the store -----------------------------------------------------------

  class AccountStore {
    var users: map<string, User>

    constructor ()
      ensures users == map[]
    {
      users := map[];
    }

    /** `right` is what comparing the password with the stored one would say. */
    method TryLogin(name: string, right: bool, now: real) returns (reason: Reason)
      modifies this
      ensures name !in old(users) ==> reason == InvalidCredentials && users == old(users)
      ensures name in old(users) ==>
                var r := Authenticate(old(users)[name], Attempt(now, right));
                reason == r.1 && users == old(users)[name := r.0]
    {
      if name !in users {
        return InvalidCredentials;
      }
      var user := users[name];
      if user.disabled {
        assert users == users[name := user];
        return Disabled;
      }
      if user.lockedUntil.Some? && user.lockedUntil.value > now {
        assert users == users[name := user];
        return Locked;
      }
      if !right {
        user := user.(failedLogins := user.failedLogins + 1);
        if user.failedLogins >= MAX_FAILURES {
          user := user.(lockedUntil := Some(now + LOCK_SECONDS), failedLogins := 0);
        }
        users := users[name := user];
        return InvalidCredentials;
      }
      user := user.(failedLogins := 0, lockedUntil := None, lastLogin := Some(now));
      users := users[name := user];
      return Ok;
    }

    method Unlock(name: string)
      modifies this
      ensures users == if name in old(users) then old(users)[name := Cleared(old(users)[name])] else old(users)
    {
      if name in users {
        users := users[name := users[name].(failedLogins := 0, lockedUntil := None)];
      }
    }
  }
}
