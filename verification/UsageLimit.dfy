/**
  Check-then-increment limits. applyDiscount reads usedCount, later increments it; startAttempt counts a
  student's attempts, later inserts one. Between the two, other requests may run.
 */
module UsageLimit {
  import opened Common

  /** count is the stored counter; inFlight the requests that passed the check and have not incremented yet. */
  datatype Counter = Counter(count: nat, inFlight: set<Id>)

  datatype Step =
    | Check(request: Id)      // succeeds: count < limit
    | Increment(request: Id)
    | Abandon(request: Id)    // e.g. the payment turns out not to exist

  /** At most width requests are between check and increment at any time. */
  predicate Enabled(c: Counter, st: Step, limit: nat, width: nat) {
    match st
    case Check(r) => c.count < limit && r !in c.inFlight && |c.inFlight| < width
    case Increment(r) => r in c.inFlight
    case Abandon(r) => r in c.inFlight
  }

  function Next(c: Counter, st: Step): Counter {
    match st
    case Check(r) => c.(inFlight := c.inFlight + {r})
    case Increment(r) => Counter(c.count + 1, c.inFlight - {r})
    case Abandon(r) => c.(inFlight := c.inFlight - {r})
  }

  const START := Counter(0, {})

  function After(steps: seq<Step>): Counter {
    if steps == [] then START else Next(After(steps[..|steps| - 1]), steps[|steps| - 1])
  }

  ghost predicate Legal(steps: seq<Step>, limit: nat, width: nat) {
    steps == [] || (
      && Legal(steps[..|steps| - 1], limit, width)
      && Enabled(After(steps[..|steps| - 1]), steps[|steps| - 1], limit, width))
  }

  /** What every step keeps: uses made plus uses granted stay below limit + width. */
  ghost predicate Bounded(c: Counter, limit: nat, width: nat) {
    && |c.inFlight| <= width
    && (limit == 0 ==> c.count == 0 && c.inFlight == {})
    && (limit > 0 && c.inFlight != {} ==> c.count + |c.inFlight| <= limit + width - 1)
    && (limit > 0 && width > 0 ==> c.count <= limit + width - 1)
    && (width == 0 ==> c.count == 0)
  }

  lemma {:induction false} StepKeepsBounded(c: Counter, st: Step, limit: nat, width: nat)
    requires Bounded(c, limit, width) && Enabled(c, st, limit, width)
    ensures Bounded(Next(c, st), limit, width)
  {
    match st
    case Check(r) =>
    case Increment(r) => assert |c.inFlight - {r}| == |c.inFlight| - 1;
    case Abandon(r) => assert |c.inFlight - {r}| == |c.inFlight| - 1;
  }

  lemma {:induction false} RunIsBounded(steps: seq<Step>, limit: nat, width: nat)
    requires Legal(steps, limit, width)
    ensures Bounded(After(steps), limit, width)
  {
    if steps != [] {
      RunIsBounded(steps[..|steps| - 1], limit, width);
      StepKeepsBounded(After(steps[..|steps| - 1]), steps[|steps| - 1], limit, width);
    }
  }

  // ----- the bound is reached -----

  function Uses(k: nat): (steps: seq<Step>)
  {
    if k == 0 then [] else Uses(k - 1) + [Check(k), Increment(k)]
  }

  function Checks(base: seq<Step>, k: nat): seq<Step> {
    if k == 0 then base else Checks(base, k - 1) + [Check(k)]
  }

  function Increments(base: seq<Step>, k: nat): seq<Step> {
    if k == 0 then base else Increments(base, k - 1) + [Increment(k)]
  }

  lemma {:induction false} Extend(steps: seq<Step>, st: Step, limit: nat, width: nat)
    requires Legal(steps, limit, width) && Enabled(After(steps), st, limit, width)
    ensures Legal(steps + [st], limit, width) && After(steps + [st]) == Next(After(steps), st)
  {
    assert (steps + [st])[..|steps + [st]| - 1] == steps;
  }

  /** Serial requests can use a code up to its limit. */
  lemma {:induction false} SerialUses(k: nat, limit: nat, width: nat)
    requires k <= limit && width >= 1
    ensures Legal(Uses(k), limit, width) && After(Uses(k)) == Counter(k, {})
  {
    if k > 0 {
      SerialUses(k - 1, limit, width);
      Extend(Uses(k - 1), Check(k), limit, width);
      Extend(Uses(k - 1) + [Check(k)], Increment(k), limit, width);
      assert Uses(k) == Uses(k - 1) + [Check(k)] + [Increment(k)];
      assert {} + {k} - {k} == {};
    }
  }

  ghost predicate Holds(c: Counter, count: nat, k: nat) {
    c.count == count && |c.inFlight| == k && forall r: Id :: r in c.inFlight <==> 1 <= r <= k
  }

  lemma CheckNext(c: Counter, count: nat, k: nat)
    requires k > 0 && Holds(c, count, k - 1)
    ensures k !in c.inFlight && Holds(Next(c, Check(k)), count, k)
  {
  }

  lemma {:induction false} ParallelChecks(base: seq<Step>, k: nat, limit: nat, width: nat)
    requires Legal(base, limit, width) && After(base).inFlight == {} && After(base).count < limit && k <= width
    ensures Legal(Checks(base, k), limit, width)
    ensures Holds(After(Checks(base, k)), After(base).count, k)
  {
    if k > 0 {
      ParallelChecks(base, k - 1, limit, width);
      CheckNext(After(Checks(base, k - 1)), After(base).count, k);
      Extend(Checks(base, k - 1), Check(k), limit, width);
    }
  }

  lemma {:induction false} ParallelIncrements(base: seq<Step>, k: nat, n: nat, limit: nat, width: nat)
    requires Legal(base, limit, width) && k <= n
    requires forall r: Id :: 1 <= r <= n ==> r in After(base).inFlight
    ensures Legal(Increments(base, k), limit, width)
    ensures After(Increments(base, k)).count == After(base).count + k
    ensures forall r: Id :: k < r <= n ==> r in After(Increments(base, k)).inFlight
  {
    if k > 0 {
      ParallelIncrements(base, k - 1, n, limit, width);
      Extend(Increments(base, k - 1), Increment(k), limit, width);
    }
  }

  lemma {:induction false} Overshoot(k: nat, limit: nat, width: nat) returns (steps: seq<Step>)
    requires 1 <= k <= width && limit >= 1
    ensures Legal(steps, limit, width) && After(steps).count == limit - 1 + k
  {
    var base := Uses(limit - 1);
    SerialUses(limit - 1, limit, width);
    ParallelChecks(base, k, limit, width);
    steps := Increments(Checks(base, k), k);
    ParallelIncrements(Checks(base, k), k, k, limit, width);
  }

  ghost predicate Reachable(count: nat, limit: nat, width: nat) {
    exists steps :: Legal(steps, limit, width) && After(steps).count == count
  }

  /**
    With at most width >= 1 requests in between, exactly the counts 0..limit + width - 1 are reachable:
    exactly the limit when checks and increments do not overlap, and never a use of a code with limit 0.
   */
  lemma {:induction false} ReachableIff(count: nat, limit: nat, width: nat)
    requires width >= 1
    ensures Reachable(count, limit, width) <==> (if limit == 0 then count == 0 else count <= limit + width - 1)
  {
    if Reachable(count, limit, width) {
      var steps :| Legal(steps, limit, width) && After(steps).count == count;
      RunIsBounded(steps, limit, width);
    }
    if count <= limit {
      SerialUses(count, limit, width);
    } else if limit >= 1 && count <= limit + width - 1 {
      var steps := Overshoot(count - limit + 1, limit, width);
    }
  }
}
