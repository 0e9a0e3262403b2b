/** Several discount codes on one payment: which bursts are accepted, what they leave, and that order is irrelevant. */
module LedgerDiscountOrder {
  import opened Common
  import opened SeqSums
  import opened LedgerModel
  import opened LedgerInvariants
  import opened LedgerHistory

  /** Requests to apply codes to payment pid. */
  ghost predicate Burst(xs: seq<Event>, pid: Id) {
    forall i :: 0 <= i < |xs| ==> xs[i].EvApplyDiscount? && xs[i].request.paymentId == pid
  }

  ghost function ApplyOne(s: State, e: Event): State {
    if e.EvApplyDiscount? then ApplyDiscount(s, e.request, e.now).0 else s
  }

  ghost function ApplyAll(s: State, xs: seq<Event>): State
    decreases xs
  {
    if xs == [] then s else ApplyAll(ApplyOne(s, xs[0]), xs[1..])
  }

  ghost predicate AllSucceed(s: State, xs: seq<Event>)
    decreases xs
  {
    xs == [] || (Discounts(s, xs[0]) && AllSucceed(ApplyOne(s, xs[0]), xs[1..]))
  }

  ghost function CountCode(xs: seq<Event>, code: string): nat {
    if xs == [] then 0
    else CountCode(xs[1..], code) + if xs[0].EvApplyDiscount? && xs[0].request.code == code then 1 else 0
  }

  /** Every check of applyDiscount except the usage limit. */
  ghost predicate Usable(s: State, e: Event)
    requires e.EvApplyDiscount?
  {
    && e.request.code in s.discounts
    && e.request.paymentId in s.payments
    && var d := s.discounts[e.request.code];
       && d.isActive
       && (d.validUntil.Some? ==> e.now <= d.validUntil.value)
       && (d.applicableCourseIds.Some? && e.request.courseId.Some?
           ==> e.request.courseId.value in d.applicableCourseIds.value)
  }

  ghost predicate HasRoom(s: State, code: string, uses: nat) {
    code in s.discounts && s.discounts[code].maxUses.Some? ==>
      s.discounts[code].usedCount + uses <= s.discounts[code].maxUses.value
  }

  ghost predicate Acceptable(s: State, xs: seq<Event>, pid: Id)
    requires Burst(xs, pid)
  {
    && (forall i :: 0 <= i < |xs| ==> Usable(s, xs[i]))
    && (forall i :: 0 <= i < |xs| ==> HasRoom(s, xs[i].request.code, CountCode(xs, xs[i].request.code)))
  }

  lemma DiscountsIff(s: State, e: Event)
    requires e.EvApplyDiscount?
    ensures Discounts(s, e) <==> Usable(s, e) && HasRoom(s, e.request.code, 1)
  {
  }

  /** What one accepted request changes for the next one. */
  lemma AfterOne(s: State, e: Event)
    requires Discounts(s, e)
    ensures var t := ApplyOne(s, e); var code := e.request.code;
            && t.discounts == s.discounts[code := s.discounts[code].(usedCount := s.discounts[code].usedCount + 1)]
            && t.payments.Keys == s.payments.Keys
            && t.payments[e.request.paymentId].amount == s.payments[e.request.paymentId].amount
            && t.payments[e.request.paymentId].totalAmount
               == Max(0.0, s.payments[e.request.paymentId].totalAmount - AmountOff(s, e))
  {
  }

  /** A burst is accepted in full exactly when each code is usable and has room for all its uses. */
  lemma {:induction false} AllSucceedIff(s: State, xs: seq<Event>, pid: Id)
    requires Burst(xs, pid)
    ensures AllSucceed(s, xs) <==> Acceptable(s, xs, pid)
    decreases xs
  {
    if xs != [] {
      var rest, code := xs[1..], xs[0].request.code;
      assert Burst(rest, pid);
      DiscountsIff(s, xs[0]);
      if Discounts(s, xs[0]) {
        var t := ApplyOne(s, xs[0]);
        AfterOne(s, xs[0]);
        AllSucceedIff(t, rest, pid);
        forall i | 0 <= i < |rest| ensures Usable(t, rest[i]) <==> Usable(s, xs[i + 1]) {
          assert rest[i] == xs[i + 1];
        }
        forall i | 0 <= i < |rest|
          ensures HasRoom(t, rest[i].request.code, CountCode(rest, rest[i].request.code))
                  <==> HasRoom(s, xs[i + 1].request.code, CountCode(xs, xs[i + 1].request.code))
        {
          assert rest[i] == xs[i + 1];
        }
        RoomForFirst(s, xs, pid);
        assert AllSucceed(s, xs) ==> Acceptable(s, xs, pid);
        assert Acceptable(s, xs, pid) ==> Acceptable(t, rest, pid);
      }
    }
  }

  lemma {:induction false} RoomForFirst(s: State, xs: seq<Event>, pid: Id)
    requires Burst(xs, pid) && xs != [] && Discounts(s, xs[0])
    requires AllSucceed(ApplyOne(s, xs[0]), xs[1..]) ==>
               Burst(xs[1..], pid) && Acceptable(ApplyOne(s, xs[0]), xs[1..], pid)
    ensures AllSucceed(s, xs) ==> HasRoom(s, xs[0].request.code, CountCode(xs, xs[0].request.code))
  {
    if AllSucceed(s, xs) {
      var rest, code, t := xs[1..], xs[0].request.code, ApplyOne(s, xs[0]);
      AfterOne(s, xs[0]);
      DiscountsIff(s, xs[0]);
      if i :| 0 <= i < |rest| && rest[i].request.code == code {
        assert HasRoom(t, code, CountCode(rest, code));
      } else {
        CountOfAbsent(rest, pid, code);
      }
    }
  }

  lemma {:induction false} CountOfAbsent(xs: seq<Event>, pid: Id, code: string)
    requires Burst(xs, pid) && forall i :: 0 <= i < |xs| ==> xs[i].request.code != code
    ensures CountCode(xs, code) == 0
  {
    if xs != [] {
      assert Burst(xs[1..], pid);
      CountOfAbsent(xs[1..], pid, code);
    }
  }

  // ----- what an accepted burst leaves -----

  ghost function OffWeight(s: State, pid: Id): Event -> real {
    (e: Event) =>
      if e.EvApplyDiscount? && e.request.code in s.discounts && pid in s.payments
      then DiscountOn(s.discounts[e.request.code], s.payments[pid]) else 0.0
  }

  ghost function UseWeight(code: string): Event -> real {
    (e: Event) => if e.EvApplyDiscount? && e.request.code == code then 1.0 else 0.0
  }

  lemma {:induction false} CountIsSum(xs: seq<Event>, pid: Id, code: string)
    requires Burst(xs, pid)
    ensures CountCode(xs, code) as real == SumOf(xs, UseWeight(code))
  {
    if xs != [] {
      assert Burst(xs[1..], pid);
      CountIsSum(xs[1..], pid, code);
    }
  }

  lemma {:induction false} TotalAfterBurst(s: State, xs: seq<Event>, pid: Id)
    requires PaymentsOk(s) && DiscountsOk(s) && pid in s.payments && Burst(xs, pid) && AllSucceed(s, xs)
    ensures pid in ApplyAll(s, xs).payments
    ensures ApplyAll(s, xs).payments[pid].totalAmount
            == Max(0.0, s.payments[pid].totalAmount - SumOf(xs, OffWeight(s, pid)))
    ensures SumOf(xs, OffWeight(s, pid)) >= 0.0
    decreases xs
  {
    if xs != [] {
      var t, rest := ApplyOne(s, xs[0]), xs[1..];
      assert Burst(rest, pid);
      AmountsOffArePositive(s, xs[0]);
      StepKeepsPayments(s, xs[0]);
      StepKeepsDiscounts(s, xs[0]);
      SameOffWeights(s, xs[0], pid, rest);
      TotalAfterBurst(t, rest, pid);
    }
  }

  lemma {:induction false} SameOffWeights(s: State, e: Event, pid: Id, rest: seq<Event>)
    requires Discounts(s, e) && e.request.paymentId == pid
    ensures var t := ApplyOne(s, e);
            && pid in t.payments
            && t.payments[pid].totalAmount == Max(0.0, s.payments[pid].totalAmount - OffWeight(s, pid)(e))
            && SumOf(rest, OffWeight(t, pid)) == SumOf(rest, OffWeight(s, pid))
  {
    AfterOne(s, e);
    SumSame(rest, rest, OffWeight(ApplyOne(s, e), pid), OffWeight(s, pid));
  }

  lemma {:induction false} CounterAfterBurst(s: State, xs: seq<Event>, pid: Id, code: string)
    requires Burst(xs, pid) && AllSucceed(s, xs)
    ensures ApplyAll(s, xs).discounts.Keys == s.discounts.Keys
    ensures code in s.discounts ==>
              ApplyAll(s, xs).discounts[code]
              == s.discounts[code].(usedCount := s.discounts[code].usedCount + CountCode(xs, code))
    decreases xs
  {
    if xs != [] {
      assert Burst(xs[1..], pid);
      AfterOne(s, xs[0]);
      CounterAfterBurst(ApplyOne(s, xs[0]), xs[1..], pid, code);
    }
  }

  /**
    Codes accepted in one order are accepted in every order, and leave the same total and the same counters.
    (The payment's discountAmount column keeps only the last code's amount.)
   */
  lemma {:induction false} DiscountOrderIsIrrelevant(s: State, xs: seq<Event>, ys: seq<Event>, pid: Id)
    requires PaymentsOk(s) && DiscountsOk(s) && pid in s.payments
    requires Burst(xs, pid) && AllSucceed(s, xs) && multiset(xs) == multiset(ys)
    ensures AllSucceed(s, ys)
    ensures pid in ApplyAll(s, xs).payments && pid in ApplyAll(s, ys).payments
    ensures ApplyAll(s, xs).payments[pid].totalAmount == ApplyAll(s, ys).payments[pid].totalAmount
    ensures ApplyAll(s, xs).discounts == ApplyAll(s, ys).discounts
  {
    AcceptedInEveryOrder(s, xs, ys, pid);
    var off := SumOf(xs, OffWeight(s, pid));
    SumPermuted(xs, ys, OffWeight(s, pid));
    BurstLeaves(s, xs, pid, off);
    BurstLeaves(s, ys, pid, off);
    SameCounters(s, xs, ys, pid);
  }

  lemma {:induction false} AcceptedInEveryOrder(s: State, xs: seq<Event>, ys: seq<Event>, pid: Id)
    requires Burst(xs, pid) && AllSucceed(s, xs) && multiset(xs) == multiset(ys)
    ensures Burst(ys, pid) && AllSucceed(s, ys)
  {
    PermutedBurst(xs, ys, pid);
    AllSucceedIff(s, xs, pid);
    AllSucceedIff(s, ys, pid);
    PermutedAcceptable(s, xs, ys, pid);
  }

  ghost predicate LeavesTotal(s: State, xs: seq<Event>, pid: Id, total: real) {
    pid in ApplyAll(s, xs).payments && ApplyAll(s, xs).payments[pid].totalAmount == total
  }

  lemma {:induction false} BurstLeaves(s: State, xs: seq<Event>, pid: Id, off: real)
    requires PaymentsOk(s) && DiscountsOk(s) && pid in s.payments && Burst(xs, pid) && AllSucceed(s, xs)
    requires off == SumOf(xs, OffWeight(s, pid))
    ensures LeavesTotal(s, xs, pid, Max(0.0, s.payments[pid].totalAmount - off))
  {
    TotalAfterBurst(s, xs, pid);
  }

  lemma {:induction false} SameCounters(s: State, xs: seq<Event>, ys: seq<Event>, pid: Id)
    requires Burst(xs, pid) && AllSucceed(s, xs) && Burst(ys, pid) && AllSucceed(s, ys) && multiset(xs) == multiset(ys)
    ensures ApplyAll(s, xs).discounts == ApplyAll(s, ys).discounts
  {
    CounterAfterBurst(s, xs, pid, "");
    CounterAfterBurst(s, ys, pid, "");
    forall code | code in s.discounts ensures ApplyAll(s, xs).discounts[code] == ApplyAll(s, ys).discounts[code] {
      CounterAfterBurst(s, xs, pid, code);
      CounterAfterBurst(s, ys, pid, code);
      PermutedCount(xs, ys, pid, code);
    }
  }

  lemma {:induction false} PermutedBurst(xs: seq<Event>, ys: seq<Event>, pid: Id)
    requires Burst(xs, pid) && multiset(xs) == multiset(ys)
    ensures Burst(ys, pid)
    ensures forall y :: y in ys ==> y in xs
  {
    forall i | 0 <= i < |ys| ensures ys[i] in xs {
      assert ys[i] in multiset(xs);
    }
  }

  lemma {:induction false} PermutedCount(xs: seq<Event>, ys: seq<Event>, pid: Id, code: string)
    requires Burst(xs, pid) && Burst(ys, pid) && multiset(xs) == multiset(ys)
    ensures CountCode(xs, code) == CountCode(ys, code)
  {
    CountIsSum(xs, pid, code);
    CountIsSum(ys, pid, code);
    SumPermuted(xs, ys, UseWeight(code));
  }

  lemma {:induction false} PermutedAcceptable(s: State, xs: seq<Event>, ys: seq<Event>, pid: Id)
    requires Burst(xs, pid) && Burst(ys, pid) && multiset(xs) == multiset(ys) && Acceptable(s, xs, pid)
    ensures Acceptable(s, ys, pid)
  {
    PermutedBurst(xs, ys, pid);
    forall j | 0 <= j < |ys|
      ensures Usable(s, ys[j]) && HasRoom(s, ys[j].request.code, CountCode(ys, ys[j].request.code))
    {
      assert ys[j] in xs;
      var i :| 0 <= i < |xs| && xs[i] == ys[j];
      PermutedCount(xs, ys, pid, ys[j].request.code);
    }
  }
}
