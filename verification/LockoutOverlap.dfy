/**
  validateUser awaits the password comparison between reading the row and writing it back, so calls for one account
  can overlap: a call writes the number it read plus one, whatever was stored in the meantime, and looks at the lock
  only when it starts. With at most k calls in flight, the four failures that only count become C(k + 4, 4) - 1, and
  the one failure per 15 minutes that locks becomes k.
 */
module LockoutOverlap {
  import opened Common
  import opened Lockout

  /** The stored account, and the attempt counts that calls in flight have read. */
  datatype World = World(account: Account, inFlight: multiset<nat>)

  /** A call reads the row and either is refused or goes on to compare; later it writes the result. */
  datatype Step = Begin(now: int) | Finish(read: nat, now: int, isMatch: bool)

  ghost predicate Enabled(w: World, st: Step, k: nat) {
    match st
    case Begin(now) => IsLocked(w.account, now) || |w.inFlight| < k
    case Finish(read, _, _) => read in w.inFlight
  }

  ghost function Next(w: World, st: Step): World {
    match st
    case Begin(now) =>
      if IsLocked(w.account, now) then w else w.(inFlight := w.inFlight + multiset{w.account.loginAttempts})
    case Finish(read, now, isMatch) =>
      World(if isMatch then LoggedIn(w.account, now) else Failed(w.account, read, now), w.inFlight - multiset{read})
  }

  ghost predicate Legal(w: World, ss: seq<Step>, k: nat)
    decreases |ss|
  {
    ss == [] || (Enabled(w, ss[0], k) && Legal(Next(w, ss[0]), ss[1..], k))
  }

  ghost function After(w: World, ss: seq<Step>): World
    decreases |ss|
  {
    if ss == [] then w else After(Next(w, ss[0]), ss[1..])
  }

  /** The steps happen in time order within [start, end]. */
  ghost predicate Timed(ss: seq<Step>, start: int, end: int) {
    start <= end && (ss == [] || (start <= ss[0].now && Timed(ss[1..], ss[0].now, end)))
  }

  ghost predicate NoSuccess(ss: seq<Step>) {
    forall i :: 0 <= i < |ss| && ss[i].Finish? ==> !ss[i].isMatch
  }

  predicate Locks(st: Step) {
    st.Finish? && st.read + 1 >= MAX_ATTEMPTS
  }

  predicate Counts(st: Step) {
    st.Finish? && st.read + 1 < MAX_ATTEMPTS
  }

  /** In a run without success: wrong passwords checked that set the lock. */
  ghost function LockingFailures(ss: seq<Step>): nat {
    if ss == [] then 0 else (if Locks(ss[0]) then 1 else 0) + LockingFailures(ss[1..])
  }

  /** In a run without success: wrong passwords checked that only count. */
  ghost function CountedFailures(ss: seq<Step>): nat {
    if ss == [] then 0 else (if Counts(ss[0]) then 1 else 0) + CountedFailures(ss[1..])
  }

  ghost function Failures(ss: seq<Step>): nat {
    LockingFailures(ss) + CountedFailures(ss)
  }

  /** A call with nothing in between is the one step of Lockout. */
  lemma UndisturbedCall(w: World, now: int, isMatch: bool)
    ensures var begun := Next(w, Begin(now));
            Validated(w.account, now, isMatch)
            == if IsLocked(w.account, now) then begun.account
               else Next(begun, Finish(w.account.loginAttempts, now, isMatch)).account
  {
  }

  function Validated(a: Account, now: int, isMatch: bool): Account {
    ValidateAccount(a, now, isMatch).0
  }

  // ----- failures that lock: at most k in 15 minutes -----

  /** After a failure at time f has set the lock, only calls already in flight fail until f + 15 minutes. */
  lemma {:induction false} LockingAfterLock(w: World, ss: seq<Step>, k: nat, f: int, start: int, end: int)
    requires |w.inFlight| <= k && Legal(w, ss, k) && NoSuccess(ss) && Timed(ss, start, end) && f <= start
    requires w.account.lockedUntil.Some? && w.account.lockedUntil.value >= f + LOCK
    ensures LockingFailures(ss) <= |w.inFlight| + k * ((end - f) / LOCK)
    decreases |ss|, 1
  {
    var periods := (end - f) / LOCK;
    assert k * periods >= 0;
    if ss != [] {
      if ss[0].now >= f + LOCK {
        Locking(w, ss, k, f + LOCK, end);
        assert (end - (f + LOCK)) / LOCK == periods - 1;
        assert k * (1 + (periods - 1)) == k * periods;
      } else {
        LockingAfterLock(Next(w, ss[0]), ss[1..], k, f, ss[0].now, end);
      }
    }
  }

  lemma {:induction false} Locking(w: World, ss: seq<Step>, k: nat, start: int, end: int)
    requires |w.inFlight| <= k && Legal(w, ss, k) && NoSuccess(ss) && Timed(ss, start, end)
    ensures LockingFailures(ss) <= k * (1 + (end - start) / LOCK)
    decreases |ss|, 0
  {
    assert k * (1 + (end - start) / LOCK) >= 0;
    if ss != [] {
      var t, w' := ss[0].now, Next(w, ss[0]);
      if Locks(ss[0]) {
        LockingAfterLock(w', ss[1..], k, t, t, end);
        MorePeriods(k, start, t, end);
      } else {
        Locking(w', ss[1..], k, t, end);
        MorePeriods(k, start, t, end);
      }
    }
  }

  lemma {:induction false} MorePeriods(k: nat, start: int, t: int, end: int)
    requires start <= t <= end
    ensures k * (1 + (end - t) / LOCK) <= k * (1 + (end - start) / LOCK)
    ensures k * (1 + (end - t) / LOCK) == k + k * ((end - t) / LOCK)
  {
    assert (end - t) / LOCK <= (end - start) / LOCK;
  }

  // ----- failures that only count: a falling rank -----

  /** The number of vectors of m naturals that add up to at most k. */
  function Count(m: nat, k: nat): (n: nat)
    ensures n >= 1
    decreases m + k
  {
    if m == 0 || k == 0 then 1 else Count(m, k - 1) + Count(m - 1, k)
  }

  lemma {:induction false} CountGrows(m: nat, k: nat, j: nat)
    requires j <= k
    ensures Count(m, j) <= Count(m, k)
    decreases k - j
  {
    if j < k {
      CountGrows(m, k - 1, j);
    }
  }

  lemma {:induction false} CountOfTwo(k: nat)
    ensures Count(1, k) == k + 1
    ensures 2 * Count(2, k) == (k + 1) * (k + 2)
  {
    if k > 0 {
      CountOfTwo(k - 1);
    }
  }

  lemma Product(k: nat, a: nat, b: nat, m: nat)
    ensures k * a * b + m * (a * b) == a * b * (k + m)
  {
  }

  lemma {:induction false} CountOfThree(k: nat)
    ensures 6 * Count(3, k) == (k + 1) * (k + 2) * (k + 3)
  {
    CountOfTwo(k);
    if k > 0 {
      CountOfThree(k - 1);
      assert 6 * Count(3, k) == k * (k + 1) * (k + 2) + 3 * ((k + 1) * (k + 2));
      Product(k, k + 1, k + 2, 3);
    }
  }

  /** Count(4, k) is the binomial coefficient C(k + 4, 4); for k = 1 that is 5. */
  lemma {:induction false} CountIsBinomial(k: nat)
    ensures 24 * Count(4, k) == (k + 1) * (k + 2) * (k + 3) * (k + 4)
    ensures Count(4, 1) == 5
  {
    CountOfThree(k);
    CountOfFourAtOne();
    if k > 0 {
      CountIsBinomial(k - 1);
      var c := (k + 1) * (k + 2) * (k + 3);
      assert k * (k + 1) * (k + 2) * (k + 3) + 4 * c == c * (k + 4);
    }
  }

  lemma {:induction false} CountOfFourAtOne()
    ensures Count(4, 1) == 5
  {
    CountOfThree(1);
    assert Count(4, 1) == Count(4, 0) + Count(3, 1);
  }

  function Total(u: seq<nat>): nat {
    if u == [] then 0 else u[0] + Total(u[1..])
  }

  /** The place of a vector in lexicographic order among those that add up to at most k. */
  function Rank(u: seq<nat>, k: nat): int
    requires Total(u) <= k
  {
    if u == [] then 0 else Count(|u|, k) - Count(|u|, k - u[0]) + Rank(u[1..], k - u[0])
  }

  lemma {:induction false} RankInRange(u: seq<nat>, k: nat)
    requires Total(u) <= k
    ensures 0 <= Rank(u, k) < Count(|u|, k)
  {
    if u != [] {
      RankInRange(u[1..], k - u[0]);
      CountGrows(|u|, k, k - u[0]);
      CountOneLess(|u|, k - u[0]);
    }
  }

  lemma CountOneLess(m: nat, k: nat)
    requires m > 0
    ensures Count(m - 1, k) <= Count(m, k)
  {
  }

  /** Less in lexicographic order, first at i. */
  ghost predicate LessAt(u: seq<nat>, v: seq<nat>, i: nat) {
    i < |u| == |v| && u[i] < v[i] && forall j :: 0 <= j < i ==> u[j] == v[j]
  }

  lemma {:induction false} RankFalls(u: seq<nat>, v: seq<nat>, k: nat, i: nat)
    requires Total(u) <= k && Total(v) <= k && LessAt(u, v, i)
    ensures Rank(u, k) < Rank(v, k)
  {
    if i == 0 {
      RankInRange(u[1..], k - u[0]);
      RankInRange(v[1..], k - v[0]);
      CountGrows(|u|, k - u[0] - 1, k - v[0]);
    } else {
      RankFalls(u[1..], v[1..], k - u[0], i - 1);
    }
  }

  /** Calls that have read v, and the ones that could still start and read v. */
  ghost function Slot(w: World, k: nat, v: nat): nat
    requires |w.inFlight| <= k
  {
    w.inFlight[v] + if w.account.loginAttempts == v then k - |w.inFlight| else 0
  }

  ghost function Slots(w: World, k: nat): (u: seq<nat>)
    requires |w.inFlight| <= k
    ensures |u| == 4 && forall v :: 0 <= v < 4 ==> u[v] == Slot(w, k, v)
  {
    [Slot(w, k, 0), Slot(w, k, 1), Slot(w, k, 2), Slot(w, k, 3)]
  }

  lemma {:induction false} FourReads(m: multiset<nat>)
    ensures m[0] + m[1] + m[2] + m[3] <= |m|
  {
    var rest := m[0 := 0][1 := 0][2 := 0][3 := 0];
    assert |rest| == |m| - m[0] - m[1] - m[2] - m[3];
  }

  lemma {:induction false} TotalOfFour(u: seq<nat>)
    requires |u| == 4
    ensures Total(u) == u[0] + u[1] + u[2] + u[3]
  {
    assert Total(u[1..]) == u[1] + Total(u[2..]) by { assert u[1..][1..] == u[2..]; }
    assert Total(u[2..]) == u[2] + Total(u[3..]) by { assert u[2..][1..] == u[3..]; }
    assert Total(u[3..]) == u[3] + Total(u[4..]) by { assert u[3..][1..] == u[4..]; }
    assert u[4..] == [];
  }

  lemma {:induction false} SlotsFit(w: World, k: nat)
    requires |w.inFlight| <= k
    ensures Total(Slots(w, k)) <= k
  {
    FourReads(w.inFlight);
    TotalOfFour(Slots(w, k));
  }

  ghost function Standing(w: World, k: nat): int
    requires |w.inFlight| <= k
  {
    SlotsFit(w, k);
    Rank(Slots(w, k), k)
  }

  lemma {:induction false} StandingInRange(w: World, k: nat)
    requires |w.inFlight| <= k
    ensures 0 <= Standing(w, k) <= Count(4, k) - 1
  {
    SlotsFit(w, k);
    RankInRange(Slots(w, k), k);
  }

  lemma {:induction false} StandingFalls(w': World, w: World, k: nat, i: nat)
    requires |w.inFlight| <= k && |w'.inFlight| <= k && LessAt(Slots(w', k), Slots(w, k), i)
    ensures Standing(w', k) < Standing(w, k)
  {
    SlotsFit(w, k);
    SlotsFit(w', k);
    RankFalls(Slots(w', k), Slots(w, k), k, i);
  }

  lemma BeginKeepsSlots(w: World, now: int, k: nat)
    requires |w.inFlight| <= k && Enabled(w, Begin(now), k)
    ensures |Next(w, Begin(now)).inFlight| <= k
    ensures Slots(Next(w, Begin(now)), k) == Slots(w, k)
  {
  }

  lemma {:induction false} StepLowersStanding(w: World, st: Step, k: nat)
    requires |w.inFlight| <= k && Enabled(w, st, k) && (st.Finish? ==> !st.isMatch)
    ensures |Next(w, st).inFlight| <= k
    ensures Standing(Next(w, st), k) + (if Counts(st) then 1 else 0) <= Standing(w, k)
  {
    if st.Begin? {
      BeginKeepsSlots(w, st.now, k);
    } else {
      var w', a := Next(w, st), w.account.loginAttempts;
      FinishLowersSlots(w, st, k);
      if a < 4 && |w.inFlight| < k && a <= st.read {
        StandingFalls(w', w, k, a);
      } else if st.read < 4 {
        StandingFalls(w', w, k, st.read);
      }
    }
  }

  lemma {:induction false} FinishLowersSlots(w: World, st: Step, k: nat)
    requires |w.inFlight| <= k && st.Finish? && st.read in w.inFlight && !st.isMatch
    ensures var u, v, a := Slots(Next(w, st), k), Slots(w, k), w.account.loginAttempts;
            if a < 4 && |w.inFlight| < k && a <= st.read then LessAt(u, v, a)
            else if st.read < 4 then LessAt(u, v, st.read)
            else u == v
  {
    assert forall v: nat :: (w.inFlight - multiset{st.read})[v] == w.inFlight[v] - if v == st.read then 1 else 0;
  }

  lemma {:induction false} CountedIsBounded(w: World, ss: seq<Step>, k: nat)
    requires |w.inFlight| <= k && Legal(w, ss, k) && NoSuccess(ss)
    ensures CountedFailures(ss) <= Standing(w, k)
    decreases |ss|
  {
    StandingInRange(w, k);
    if ss != [] {
      StepLowersStanding(w, ss[0], k);
      CountedIsBounded(Next(w, ss[0]), ss[1..], k);
    }
  }

  // ----- the rate bound -----

  /** From any state: what the calls in flight and the stored count still allow, plus k for every 15 minutes begun. */
  lemma {:induction false} OverlappingFailureRate(w: World, ss: seq<Step>, k: nat, start: int, end: int)
    requires |w.inFlight| <= k && Legal(w, ss, k) && NoSuccess(ss) && Timed(ss, start, end)
    ensures Failures(ss) <= Standing(w, k) + k * (1 + (end - start) / 900000)
    ensures Failures(ss) <= Count(4, k) - 1 + k * (1 + (end - start) / 900000)
  {
    CountedIsBounded(w, ss, k);
    Locking(w, ss, k, start, end);
    StandingInRange(w, k);
  }

  // ----- the bound is attained -----

  lemma {:induction false} Append(w: World, a: seq<Step>, b: seq<Step>, k: nat)
    ensures Legal(w, a + b, k) <==> Legal(w, a, k) && Legal(After(w, a), b, k)
    ensures After(w, a + b) == After(After(w, a), b)
    ensures Failures(a + b) == Failures(a) + Failures(b)
    ensures NoSuccess(a + b) <==> NoSuccess(a) && NoSuccess(b)
    decreases |a|
  {
    if a == [] {
      assert a + b == b;
    } else {
      assert (a + b)[1..] == a[1..] + b;
      Append(Next(w, a[0]), a[1..], b, k);
      NoSuccessTail(a);
      NoSuccessTail(a + b);
    }
  }

  lemma {:induction false} NoSuccessTail(ss: seq<Step>)
    requires ss != []
    ensures NoSuccess(ss) <==> (ss[0].Finish? ==> !ss[0].isMatch) && NoSuccess(ss[1..])
  {
    assert forall i :: 1 <= i < |ss| ==> ss[i] == ss[1..][i - 1];
  }

  /** One call held from start to end around other steps. */
  function Around(read: nat, inner: seq<Step>, now: int): seq<Step> {
    [Begin(now)] + inner + [Finish(read, now, false)]
  }

  lemma {:induction false} AroundEffect(w: World, inner: seq<Step>, now: int, k: nat)
    requires |w.inFlight| < k && !IsLocked(w.account, now)
    requires var w1 := Next(w, Begin(now));
             Legal(w1, inner, k) && NoSuccess(inner) && After(w1, inner).inFlight == w1.inFlight
    ensures var ss := Around(w.account.loginAttempts, inner, now); var w1 := Next(w, Begin(now));
            && Legal(w, ss, k) && NoSuccess(ss) && Failures(ss) == Failures(inner) + 1
            && After(w, ss)
               == World(Failed(After(w1, inner).account, w.account.loginAttempts, now), w.inFlight)
  {
    var read := w.account.loginAttempts;
    var w1, finish := Next(w, Begin(now)), [Finish(read, now, false)];
    Append(w, [Begin(now)], inner + finish, k);
    Append(w1, inner, finish, k);
    assert Around(read, inner, now) == [Begin(now)] + (inner + finish);
    assert [Begin(now)][1..] == [] && finish[1..] == [];
    assert Legal(w1, [], k) && After(w1, []) == w1;
    assert w1.inFlight - multiset{read} == w.inFlight;
    var w2 := Next(After(w1, inner), finish[0]);
    assert Legal(w2, [], k) && After(w2, []) == w2;
  }

  /**
    As many failures as possible before the first lock, from count v with k calls to spare: hold one call, spend the
    other k - 1, let the held one set the count back to v + 1, and go on from there with all k.
   */
  function Burn(k: nat, v: nat): seq<Step>
    requires v <= 4
    decreases k + 4 - v
  {
    if k == 0 || v == 4 then [] else Around(v, Burn(k - 1, v), 0) + Burn(k, v + 1)
  }

  ghost function AtCount(w: World, v: nat): World {
    w.(account := w.account.(loginAttempts := v))
  }

  lemma {:induction false} BurnEffect(w: World, k: nat, v: nat, limit: nat)
    requires v <= 4 && w.account.loginAttempts == v && w.account.lockedUntil.None? && |w.inFlight| + k <= limit
    ensures Legal(w, Burn(k, v), limit) && NoSuccess(Burn(k, v))
    ensures Failures(Burn(k, v)) == Count(4 - v, k) - 1
    ensures After(w, Burn(k, v)) == AtCount(w, if k == 0 then v else 4)
    decreases k + 4 - v
  {
    if k > 0 && v < 4 {
      var first := Around(v, Burn(k - 1, v), 0);
      BurnFirst(w, k, v, limit);
      BurnEffect(AtCount(w, v + 1), k, v + 1, limit);
      Append(w, first, Burn(k, v + 1), limit);
      assert Count(4 - v, k) == Count(4 - v, k - 1) + Count(3 - v, k);
    }
  }

  lemma {:induction false} BurnFirst(w: World, k: nat, v: nat, limit: nat)
    requires v < 4 && k > 0
    requires w.account.loginAttempts == v && w.account.lockedUntil.None? && |w.inFlight| + k <= limit
    ensures var first := Around(v, Burn(k - 1, v), 0);
            && Legal(w, first, limit) && NoSuccess(first) && Failures(first) == Count(4 - v, k - 1)
            && After(w, first) == AtCount(w, v + 1)
    decreases k + 4 - v, 0
  {
    var w1 := Next(w, Begin(0));
    assert |w1.inFlight| == |w.inFlight| + 1 && w1.account == w.account;
    BurnEffect(w1, k - 1, v, limit);
    AroundEffect(w, Burn(k - 1, v), 0, limit);
  }

  /** k calls that all read the count before any of them fails. */
  function Wave(k: nat, read: nat, now: int): seq<Step> {
    if k == 0 then [] else Around(read, Wave(k - 1, read, now), now)
  }

  lemma {:induction false} WaveEffect(w: World, k: nat, now: int, limit: nat)
    requires w.account.loginAttempts >= 4 && !IsLocked(w.account, now) && |w.inFlight| + k <= limit
    ensures var ss := Wave(k, w.account.loginAttempts, now);
            && Legal(w, ss, limit) && NoSuccess(ss) && Failures(ss) == k
            && After(w, ss) == if k == 0 then w else w.(account := Failed(w.account, w.account.loginAttempts, now))
    decreases k
  {
    if k > 0 {
      var w1 := Next(w, Begin(now));
      WaveEffect(w1, k - 1, now, limit);
      AroundEffect(w, Wave(k - 1, w.account.loginAttempts, now), now, limit);
    }
  }

  /** The first lock as late as possible, and then k failures whenever the lock expires. */
  function Storm(k: nat, n: nat): seq<Step> {
    if n == 0 then Burn(k, 0) + Wave(k, 4, 0) else Storm(k, n - 1) + Wave(k, 4 + n, n * LOCK)
  }

  /** After the wave at n * 15 minutes. */
  ghost function LockedAt(w: World, n: nat): World {
    w.(account := w.account.(loginAttempts := 5 + n, lockedUntil := Some((n + 1) * LOCK)))
  }

  lemma {:induction false} FirstWave(w: World, k: nat)
    requires w.account.lockedUntil.None? && w.inFlight == multiset{} && k >= 1
    ensures var ss := Wave(k, 4, 0);
            && Legal(AtCount(w, 4), ss, k) && NoSuccess(ss) && Failures(ss) == k
            && After(AtCount(w, 4), ss) == LockedAt(w, 0)
  {
    WaveEffect(AtCount(w, 4), k, 0, k);
  }

  lemma {:induction false} NextWave(w: World, k: nat, n: nat)
    requires w.inFlight == multiset{} && k >= 1 && n >= 1
    ensures var ss := Wave(k, 4 + n, n * LOCK);
            && Legal(LockedAt(w, n - 1), ss, k) && NoSuccess(ss) && Failures(ss) == k
            && After(LockedAt(w, n - 1), ss) == LockedAt(w, n)
  {
    WaveEffect(LockedAt(w, n - 1), k, n * LOCK, k);
    assert n * LOCK + LOCK == (n + 1) * LOCK;
  }

  lemma {:induction false} StormReachesLock(w: World, k: nat, n: nat)
    requires w.account.loginAttempts == 0 && w.account.lockedUntil.None? && w.inFlight == multiset{} && k >= 1
    ensures Legal(w, Storm(k, n), k) && NoSuccess(Storm(k, n))
    ensures After(w, Storm(k, n)) == LockedAt(w, n)
    ensures Failures(Storm(k, n)) == if n == 0 then Count(4, k) - 1 + k else Failures(Storm(k, n - 1)) + k
  {
    if n == 0 {
      BurnEffect(w, k, 0, k);
      FirstWave(w, k);
      Append(w, Burn(k, 0), Wave(k, 4, 0), k);
    } else {
      StormReachesLock(w, k, n - 1);
      NextWave(w, k, n);
      Append(w, Storm(k, n - 1), Wave(k, 4 + n, n * LOCK), k);
    }
  }

  /** The rate bound over [0, n * 15 minutes] is attained for every k and n. */
  lemma {:induction false} OverlapBoundIsAttained(w: World, k: nat, n: nat)
    requires w.account.loginAttempts == 0 && w.account.lockedUntil.None? && w.inFlight == multiset{} && k >= 1
    ensures Legal(w, Storm(k, n), k) && NoSuccess(Storm(k, n)) && Timed(Storm(k, n), 0, n * 900000)
    ensures Failures(Storm(k, n)) == Count(4, k) - 1 + k * (1 + n)
  {
    StormReachesLock(w, k, n);
    StormIsTimed(k, n);
    if n > 0 {
      OverlapBoundIsAttained(w, k, n - 1);
      assert k * (1 + n) == k * (1 + (n - 1)) + k;
    }
  }

  // ----- that run is in time order -----

  lemma {:induction false} TimedAppend(a: seq<Step>, b: seq<Step>, start: int, mid: int, end: int)
    requires Timed(a, start, mid) && Timed(b, mid, end)
    ensures Timed(a + b, start, end)
  {
    if a == [] {
      assert a + b == b;
    } else {
      assert (a + b)[1..] == a[1..] + b;
      TimedAppend(a[1..], b, a[0].now, mid, end);
    }
  }

  lemma {:induction false} AroundIsTimed(read: nat, inner: seq<Step>, now: int)
    requires Timed(inner, now, now)
    ensures Timed(Around(read, inner, now), now, now)
  {
    assert [Begin(now)][1..] == [] && [Finish(read, now, false)][1..] == [];
    assert Timed([], now, now);
    TimedAppend([Begin(now)], inner, now, now, now);
    TimedAppend([Begin(now)] + inner, [Finish(read, now, false)], now, now, now);
  }

  lemma {:induction false} BurnIsTimed(k: nat, v: nat)
    requires v <= 4
    ensures Timed(Burn(k, v), 0, 0)
    decreases k + 4 - v
  {
    if k > 0 && v < 4 {
      BurnIsTimed(k - 1, v);
      AroundIsTimed(v, Burn(k - 1, v), 0);
      BurnIsTimed(k, v + 1);
      TimedAppend(Around(v, Burn(k - 1, v), 0), Burn(k, v + 1), 0, 0, 0);
    }
  }

  lemma {:induction false} WaveIsTimed(k: nat, read: nat, now: int)
    ensures Timed(Wave(k, read, now), now, now)
  {
    if k > 0 {
      WaveIsTimed(k - 1, read, now);
      AroundIsTimed(read, Wave(k - 1, read, now), now);
    }
  }

  lemma {:induction false} StormIsTimed(k: nat, n: nat)
    ensures Timed(Storm(k, n), 0, n * LOCK)
  {
    if n == 0 {
      BurnIsTimed(k, 0);
      WaveIsTimed(k, 4, 0);
      TimedAppend(Burn(k, 0), Wave(k, 4, 0), 0, 0, 0);
    } else {
      StormIsTimed(k, n - 1);
      WaveIsTimed(k, 4 + n, n * LOCK);
      TimedLater(Storm(k, n - 1), 0, (n - 1) * LOCK, n * LOCK);
      TimedAppend(Storm(k, n - 1), Wave(k, 4 + n, n * LOCK), 0, n * LOCK, n * LOCK);
    }
  }

  lemma {:induction false} TimedLater(ss: seq<Step>, start: int, end: int, later: int)
    requires Timed(ss, start, end) && end <= later
    ensures Timed(ss, start, later)
  {
    if ss != [] {
      TimedLater(ss[1..], ss[0].now, end, later);
    }
  }
}
