/**
  AuthService.validateUser: the failed-login counter and the timed lock, over whole runs of many users. One call is
  one step here; calls that overlap are in LockoutOverlap.dfy.
 */
module Lockout {
  import opened Common

  const MAX_ATTEMPTS := 5

  const LOCK := 15 * 60 * 1000

  datatype Account = Account(
    email: string,
    tenantId: Id,
    loginAttempts: nat,
    lockedUntil: Option<int>,
    lastLoginAt: Option<int>)

  type Users = map<Id, Account>

  /** One call for the row it found: the clock (ms) and whether the password comparison succeeds are inputs. */
  datatype Attempt = Attempt(user: Id, now: int, isMatch: bool)

  datatype Outcome = NoUser | Locked(minutesLeft: int) | LockedNow | WrongPassword | Success

  /** The rows the query may return: emails repeat across tenants, and the tenant filter is optional. */
  predicate Named(a: Account, email: string, tenantId: Option<Id>) {
    a.email == email && (tenantId.Some? ==> a.tenantId == tenantId.value)
  }

  predicate IsLocked(a: Account, now: int) {
    a.lockedUntil.Some? && a.lockedUntil.value > now
  }

  function LoggedIn(a: Account, now: int): Account {
    a.(loginAttempts := 0, lockedUntil := None, lastLoginAt := Some(now))
  }

  /** The row after a wrong password, when the call had read this many earlier attempts. */
  function Failed(a: Account, read: nat, now: int): Account {
    if read + 1 >= MAX_ATTEMPTS
    then a.(loginAttempts := read + 1, lockedUntil := Some(now + LOCK))
    else a.(loginAttempts := read + 1)
  }

  function ValidateAccount(a: Account, now: int, isMatch: bool): (Account, Outcome) {
    if IsLocked(a, now) then (a, Locked(CeilDiv(a.lockedUntil.value - now, 60000)))
    else if isMatch then (LoggedIn(a, now), Success)
    else (Failed(a, a.loginAttempts, now), if a.loginAttempts + 1 >= MAX_ATTEMPTS then LockedNow else WrongPassword)
  }

  function Validate(users: Users, e: Attempt): (Users, Outcome) {
    if e.user !in users then (users, NoUser)
    else
      var (a, o) := ValidateAccount(users[e.user], e.now, e.isMatch);
      (users[e.user := a], o)
  }

  class AuthService {
    var users: map<Id, Account>

    constructor (users: map<Id, Account>)
      ensures this.users == users
    {
      this.users := users;
    }

    /** getOne: some row with the email, and with the tenant when one is given. */
    method FindUser(email: string, tenantId: Option<Id>) returns (found: Option<Id>)
      ensures found.Some? ==> found.value in users && Named(users[found.value], email, tenantId)
                              && users[found.value].email == email
                              && (tenantId == None || tenantId == Some(users[found.value].tenantId))
      ensures found.None? ==> forall id :: id in users && users[id].email == email ==>
                                tenantId.Some? && tenantId.value != users[id].tenantId
    {
      if id :| id in users && Named(users[id], email, tenantId) {
        found := Some(id);
      } else {
        found := None;
      }
    }

    /** The row found is the only one touched. */
    method ValidateUser(email: string, tenantId: Option<Id>, now: int, isMatch: bool)
      returns (found: Option<Id>, o: Outcome)
      modifies this
      ensures found.Some? ==> found.value in old(users) && Named(old(users)[found.value], email, tenantId)
                              && (users, o) == Validate(old(users), Attempt(found.value, now, isMatch))
      ensures found.None? ==> users == old(users) && o == NoUser
                              && forall id :: id in users ==> !Named(users[id], email, tenantId)
    {
      found := FindUser(email, tenantId);
      if found.None? {
        return found, NoUser;
      }
      var id := found.value;
      var user := users[id];
      if user.lockedUntil.Some? && user.lockedUntil.value > now {
        var minutesLeft := CeilDiv(user.lockedUntil.value - now, 60000);
        assert users == users[id := user];
        return found, Locked(minutesLeft);
      }
      if !isMatch {
        var attempts := user.loginAttempts + 1;
        if attempts >= 5 {
          var lockUntil := now + 15 * 60 * 1000;
          users := users[id := user.(loginAttempts := attempts, lockedUntil := Some(lockUntil))];
          return found, LockedNow;
        }
        users := users[id := user.(loginAttempts := attempts)];
        return found, WrongPassword;
      }
      users := users[id := user.(loginAttempts := 0, lockedUntil := None, lastLoginAt := Some(now))];
      o := Success;
    }
  }

  // ----- runs -----

  function After(users: Users, es: seq<Attempt>): Users {
    if es == [] then users else Validate(After(users, es[..|es| - 1]), es[|es| - 1]).0
  }

  /** The outcome of the last call of a run. */
  function LastOutcome(users: Users, es: seq<Attempt>): Outcome
    requires es != []
  {
    Validate(After(users, es[..|es| - 1]), es[|es| - 1]).1
  }

  predicate IsFailure(o: Outcome) {
    o.WrongPassword? || o.LockedNow?
  }

  /** How many wrong passwords for this user were actually checked (not refused by the lock). */
  function Failures(users: Users, es: seq<Attempt>, user: Id): nat {
    if es == [] then 0
    else Failures(users, es[..|es| - 1], user)
         + if es[|es| - 1].user == user && IsFailure(LastOutcome(users, es)) then 1 else 0
  }

  ghost predicate NoSuccess(users: Users, es: seq<Attempt>, user: Id) {
    es == [] ||
    (NoSuccess(users, es[..|es| - 1], user) && !(es[|es| - 1].user == user && LastOutcome(users, es).Success?))
  }

  /** Calls happen in time order, none before start. */
  ghost predicate TimeOrdered(es: seq<Attempt>, start: int) {
    (forall i :: 0 <= i < |es| ==> start <= es[i].now) && (forall i, j :: 0 <= i < j < |es| ==> es[i].now <= es[j].now)
  }

  /** The time of the user's latest counted failure since the last success, if any. */
  function LastFailure(users: Users, es: seq<Attempt>, user: Id): Option<int> {
    if es == [] then None
    else if es[|es| - 1].user == user && IsFailure(LastOutcome(users, es)) then Some(es[|es| - 1].now)
    else if es[|es| - 1].user == user && LastOutcome(users, es).Success? then None
    else LastFailure(users, es[..|es| - 1], user)
  }

  ghost predicate Fresh(users: Users, user: Id) {
    user in users && users[user].loginAttempts == 0 && users[user].lockedUntil == None
  }

  ghost predicate LockMatches(a: Account) {
    a.loginAttempts >= MAX_ATTEMPTS <==> a.lockedUntil.Some?
  }

  lemma OthersUnaffected(users: Users, e: Attempt, user: Id)
    requires user in users && e.user != user
    ensures user in Validate(users, e).0 && Validate(users, e).0[user] == users[user]
  {
  }

  /** Run invariant: five or more attempts exactly when a lock is stored, set by the latest failure. */
  lemma {:induction false} LockFollowsLastFailure(users: Users, es: seq<Attempt>, user: Id)
    requires Fresh(users, user)
    ensures user in After(users, es)
    ensures After(users, es)[user].loginAttempts >= 5 <==> After(users, es)[user].lockedUntil.Some?
    ensures After(users, es)[user].loginAttempts > 0 <==> LastFailure(users, es, user).Some?
    ensures After(users, es)[user].lockedUntil.Some? ==>
              LastFailure(users, es, user).Some?
              && After(users, es)[user].lockedUntil.value == LastFailure(users, es, user).value + 900000
  {
    if es != [] {
      LockFollowsLastFailure(users, es[..|es| - 1], user);
    }
  }

  /** Failures still free before each further one costs a full lock period. */
  function Budget(a: Account): nat {
    if a.loginAttempts < MAX_ATTEMPTS then MAX_ATTEMPTS - a.loginAttempts else 1
  }

  /** What k failures since start have left behind, for an account that started with a0. */
  ghost predicate Paced(a0: Account, a: Account, k: nat, start: int, last: int) {
    && LockMatches(a)
    && a.loginAttempts == a0.loginAttempts + k
    && (k > 0 && a.lockedUntil.Some? ==>
          start + (k - Budget(a0) + 1) * LOCK <= a.lockedUntil.value <= last + LOCK)
  }

  lemma {:induction false} StepKeepsPaced(a0: Account, a: Account, k: nat, start: int, last: int, now: int,
                                          isMatch: bool)
    requires LockMatches(a0) && Paced(a0, a, k, start, last) && start <= last <= now
    requires k == 0 ==> a == a0
    requires !ValidateAccount(a, now, isMatch).1.Success?
    ensures Paced(a0, ValidateAccount(a, now, isMatch).0,
                  k + if IsFailure(ValidateAccount(a, now, isMatch).1) then 1 else 0, start, now)
  {
    if !IsLocked(a, now) && a.loginAttempts >= MAX_ATTEMPTS && k > 0 {
      assert (k - Budget(a0) + 2) * LOCK == (k - Budget(a0) + 1) * LOCK + LOCK;
    }
  }

  ghost function LastTime(es: seq<Attempt>, start: int): int {
    if es == [] then start else es[|es| - 1].now
  }

  lemma {:induction false} RunIsPaced(users: Users, es: seq<Attempt>, user: Id, start: int)
    requires user in users && LockMatches(users[user]) && TimeOrdered(es, start) && NoSuccess(users, es, user)
    ensures user in After(users, es)
    ensures Paced(users[user], After(users, es)[user], Failures(users, es, user), start, LastTime(es, start))
    ensures Failures(users, es, user) == 0 ==> After(users, es)[user] == users[user]
    ensures start <= LastTime(es, start)
  {
    if es != [] {
      var front, e := es[..|es| - 1], es[|es| - 1];
      RunIsPaced(users, front, user, start);
      if e.user == user {
        StepKeepsPaced(users[user], After(users, front)[user], Failures(users, front, user), start,
                       LastTime(front, start), e.now, e.isMatch);
      }
    }
  }

  /**
    The rate bound. Without a success in between, the wrong passwords checked for a user in [start, end]
    number at most the budget left at the start plus one for every full 15 minutes.
   */
  lemma {:induction false} FailureRate(users: Users, es: seq<Attempt>, user: Id, start: int, end: int)
    requires user in users && LockMatches(users[user]) && TimeOrdered(es, start) && NoSuccess(users, es, user)
    requires LastTime(es, start) <= end
    ensures Failures(users, es, user)
            <= (if users[user].loginAttempts < 5 then 5 - users[user].loginAttempts else 1) + (end - start) / 900000
  {
    RunIsPaced(users, es, user, start);
    PacedIsBounded(users[user], After(users, es)[user], Failures(users, es, user), start, LastTime(es, start));
    RateArithmetic(Failures(users, es, user), Budget(users[user]), start, end);
  }

  lemma {:induction false} PacedIsBounded(a0: Account, a: Account, k: nat, start: int, last: int)
    requires LockMatches(a0) && Paced(a0, a, k, start, last)
    ensures k > Budget(a0) ==> start + (k - Budget(a0)) * LOCK <= last
  {
    assert (k - Budget(a0) + 1) * LOCK == (k - Budget(a0)) * LOCK + LOCK;
  }

  lemma RateArithmetic(k: nat, b: nat, start: int, end: int)
    requires start <= end && (k > b ==> start + (k - b) * LOCK <= end)
    ensures k <= b + (end - start) / LOCK
  {
  }

  /** In particular, between two successes spanning a time T: at most 5 + floor(T / 15 min). */
  lemma {:induction false} FailuresBetweenSuccesses(users: Users, es: seq<Attempt>, user: Id, start: int, end: int)
    requires user in users && users[user] == LoggedIn(users[user], start)
    requires TimeOrdered(es, start) && NoSuccess(users, es, user) && LastTime(es, start) <= end
    ensures Failures(users, es, user) <= 5 + (end - start) / 900000
  {
    FailureRate(users, es, user, start, end);
  }

  // ----- the bound is attained -----

  function Repeat(e: Attempt, n: nat): (es: seq<Attempt>)
    ensures |es| == n && forall i :: 0 <= i < n ==> es[i] == e
  {
    if n == 0 then [] else Repeat(e, n - 1) + [e]
  }

  /** Five failures at time 0, then one as soon as each lock expires. */
  function Persistent(user: Id, n: nat): seq<Attempt> {
    if n == 0 then Repeat(Attempt(user, 0, false), 5)
    else Persistent(user, n - 1) + [Attempt(user, n * LOCK, false)]
  }

  lemma {:induction false} FailuresInARow(users: Users, user: Id, n: nat)
    requires Fresh(users, user) && n < 5
    ensures var es := Repeat(Attempt(user, 0, false), n + 1);
            && Failures(users, es, user) == n + 1 && NoSuccess(users, es, user) && user in After(users, es)
            && After(users, es)[user]
               == users[user].(loginAttempts := n + 1, lockedUntil := if n == 4 then Some(LOCK) else None)
  {
    var e := Attempt(user, 0, false);
    var es := Repeat(e, n + 1);
    assert es[..|es| - 1] == Repeat(e, n);
    if n > 0 {
      FailuresInARow(users, user, n - 1);
    }
  }

  /** For every n a run of n * 15 minutes has exactly 5 + n failures. */
  lemma {:induction false} BoundIsAttained(users: Users, user: Id, n: nat)
    requires Fresh(users, user)
    ensures var es := Persistent(user, n);
            && NoSuccess(users, es, user) && Failures(users, es, user) == 5 + n && LastTime(es, 0) == n * 900000
            && user in After(users, es) && After(users, es)[user].lockedUntil == Some((n + 1) * 900000)
            && After(users, es)[user].loginAttempts == 5 + n
  {
    if n == 0 {
      FailuresInARow(users, user, 4);
    } else {
      BoundIsAttained(users, user, n - 1);
      var es := Persistent(user, n);
      assert es[..|es| - 1] == Persistent(user, n - 1);
    }
  }

  lemma {:induction false} PersistentIsOrdered(user: Id, n: nat)
    ensures TimeOrdered(Persistent(user, n), 0)
    ensures forall i :: 0 <= i < |Persistent(user, n)| ==> Persistent(user, n)[i].now <= n * 900000
  {
    if n > 0 {
      PersistentIsOrdered(user, n - 1);
    }
  }

  // ----- the lock itself -----

  /**
    From the failure that sets it, a lock refuses every call for exactly 15 minutes (900000 ms), right password or
    not, and changes nothing; the minutes it reports are the time left, rounded up.
   */
  lemma LockLastsFifteenMinutes(a: Account, at: int, now: int, isMatch: bool)
    requires ValidateAccount(a, at, false).1.LockedNow? && at <= now
    ensures var b := ValidateAccount(a, at, false).0; var (c, o) := ValidateAccount(b, now, isMatch);
            && b.lockedUntil == Some(at + 900000)
            && (o.Locked? <==> now < at + 900000)
            && (o.Locked? ==>
                  c == b && (o.minutesLeft - 1) * 60000 < at + 900000 - now <= o.minutesLeft * 60000)
            && (!o.Locked? && isMatch ==> o.Success?)
            && (!o.Locked? && !isMatch ==> o.LockedNow?)
  {
  }

  /** The fifth wrong password in a row locks, and before it only the counter moves. */
  lemma WrongPasswordMeans(a: Account, now: int)
    requires a.lockedUntil.Some? ==> a.lockedUntil.value <= now
    ensures var (b, o) := ValidateAccount(a, now, false);
            && b.loginAttempts == a.loginAttempts + 1
            && b.email == a.email && b.tenantId == a.tenantId && b.lastLoginAt == a.lastLoginAt
            && (o == LockedNow <==> a.loginAttempts + 1 >= 5) && (o == WrongPassword <==> a.loginAttempts + 1 < 5)
            && b.lockedUntil == if a.loginAttempts + 1 >= 5 then Some(now + 900000) else a.lockedUntil
  {
  }

  /** A right password outside a lock forgets the failures and the lock. */
  lemma SuccessMeans(a: Account, now: int, isMatch: bool)
    ensures var (b, o) := ValidateAccount(a, now, isMatch);
            && (o.Success? <==> isMatch && (a.lockedUntil.None? || a.lockedUntil.value <= now))
            && (o.Success? ==>
                  && b.loginAttempts == 0 && b.lockedUntil == None && b.lastLoginAt == Some(now)
                  && b.email == a.email && b.tenantId == a.tenantId)
  {
  }
}
