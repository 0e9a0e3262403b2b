/**
  The stored per-student totals, the payment totals and the usage counters of a reachable state,
  expressed by what happened in the run that reached it.
 */
module LedgerHistory {
  import opened Common
  import opened MapSums
  import opened LedgerModel
  import opened LedgerInvariants

  // ----- which steps succeed -----

  ghost predicate Pays(s: State, e: Event, pid: Id) {
    e.EvPay? && e.pid == pid && pid in s.payments && !s.payments[pid].status.Paid?
  }

  ghost predicate Discounts(s: State, e: Event) {
    e.EvApplyDiscount? && DiscountError(s, e.request, e.now).None?
  }

  ghost function DiscountedPayment(s: State, e: Event): Payment
    requires Discounts(s, e)
  {
    s.payments[e.request.paymentId]
  }

  ghost function AmountOff(s: State, e: Event): real
    requires Discounts(s, e)
  {
    DiscountOn(s.discounts[e.request.code], DiscountedPayment(s, e))
  }

  /** By how much the discount really lowered the payment's total. */
  ghost function Reduction(s: State, e: Event): real
    requires Discounts(s, e)
  {
    var p := DiscountedPayment(s, e);
    p.totalAmount - Max(0.0, p.totalAmount - AmountOff(s, e))
  }

  lemma {:induction false} AmountsOffArePositive(s: State, e: Event)
    requires PaymentsOk(s) && DiscountsOk(s) && Discounts(s, e)
    ensures 0.0 <= AmountOff(s, e)
    ensures 0.0 <= Reduction(s, e) <= DiscountedPayment(s, e).totalAmount
  {
    PercentWithin(DiscountedPayment(s, e).amount, s.discounts[e.request.code].value);
  }

  // ----- how each step moves the sums over payment rows -----

  /** The one payment row an endpoint writes, if it writes one (the overdue job writes several). */
  ghost function RowWritten(s: State, e: Event): Option<Id> {
    match e
    case EvCreate(pid, _, dto, _, _) => if dto.studentId in s.students then Some(pid) else None
    case EvPay(pid, _) => if Pays(s, e, pid) then Some(pid) else None
    case EvRefund(pid, _, _) => if pid in s.payments && s.payments[pid].status.Paid? then Some(pid) else None
    case EvApplyDiscount(request, _) => if Discounts(s, e) then Some(request.paymentId) else None
    case _ => None
  }

  lemma OneRowWritten(s: State, e: Event)
    requires !e.EvOverdueJob?
    ensures match RowWritten(s, e)
            case None => Apply(s, e).payments == s.payments
            case Some(pid) =>
              (pid in Apply(s, e).payments && Apply(s, e).payments == s.payments[pid := Apply(s, e).payments[pid]])
  {
  }

  ghost function RowChange(s: State, e: Event, w: Payment -> real): real {
    match RowWritten(s, e)
    case None => 0.0
    case Some(pid) =>
      (if pid in Apply(s, e).payments then w(Apply(s, e).payments[pid]) else 0.0)
      - (if pid in s.payments then w(s.payments[pid]) else 0.0)
  }

  lemma {:induction false} SumAfterStep(s: State, e: Event, w: Payment -> real)
    requires forall p: Payment :: p.status.Pending? ==> w(p.(status := Overdue)) == w(p)
    ensures Sum(Apply(s, e).payments, w) == Sum(s.payments, w) + RowChange(s, e, w)
  {
    if e.EvOverdueJob? {
      SumCongruent(s.payments, Apply(s, e).payments, w, w);
    } else {
      OneRowWritten(s, e);
      if RowWritten(s, e).Some? {
        var pid := RowWritten(s, e).value;
        SumUpdate(s.payments, pid, Apply(s, e).payments[pid], w);
      }
    }
  }

  ghost predicate OwedBy(s: State, e: Event, sid: Id)
    requires Discounts(s, e)
  {
    DiscountedPayment(s, e).studentId == sid && Outstanding(DiscountedPayment(s, e))
  }

  ghost predicate SettledBy(s: State, e: Event, sid: Id)
    requires Discounts(s, e)
  {
    DiscountedPayment(s, e).studentId == sid && Settled(DiscountedPayment(s, e))
  }

  lemma {:induction false} SumsArePositive(s: State, sid: Id)
    requires PaymentsOk(s)
    ensures Owed(s, sid) >= 0.0 && SettledSum(s, sid) >= 0.0
  {
    SumNonNegative(s.payments, OwedWeight(sid));
    SumNonNegative(s.payments, SettledWeight(sid));
  }

  // ----- the student's debt -----

  /** What applyDiscount took off outstanding payments since the student's debt was last recomputed. */
  ghost function Slack(es: seq<Event>, sid: Id): real {
    if es == [] then 0.0
    else SlackAfter(Run(Before(es)), Last(es), sid, Slack(Before(es), sid))
  }

  ghost function SlackAfter(s: State, e: Event, sid: Id, slack: real): real {
    if Discounts(s, e) && OwedBy(s, e, sid) then slack + Reduction(s, e)
    else if e.EvRecomputeDebt? && e.sid == sid then 0.0
    else if e.EvOverdueJob? && Touched(s, DueIds(s, e.now), sid) then 0.0
    else slack
  }

  ghost predicate DebtWithin(s: State, sid: Id, slack: real) {
    0.0 <= slack && (sid in s.students ==> 0.0 <= s.students[sid].debtAmount <= Owed(s, sid) + slack)
  }

  lemma {:induction false} StepKeepsDebtWithin(s: State, e: Event, sid: Id, slack: real)
    requires PaymentsOk(s) && DiscountsOk(s) && Allowed(s, e) && DebtWithin(s, sid, slack)
    ensures DebtWithin(Apply(s, e), sid, SlackAfter(s, e, sid, slack))
  {
    if e.EvPay? {
      PayKeepsDebtWithin(s, e, sid, slack);
    } else if e.EvApplyDiscount? {
      DiscountKeepsDebtWithin(s, e, sid, slack);
    } else {
      OtherStepKeepsDebtWithin(s, e, sid, slack);
    }
  }

  lemma {:induction false} PayKeepsDebtWithin(s: State, e: Event, sid: Id, slack: real)
    requires PaymentsOk(s) && e.EvPay? && DebtWithin(s, sid, slack)
    ensures DebtWithin(Apply(s, e), sid, slack)
  {
    SumAfterStep(s, e, OwedWeight(sid));
    PayKeepsPayments(s, e.pid, e.now);
    SumsArePositive(Apply(s, e), sid);
  }

  lemma {:induction false} DiscountKeepsDebtWithin(s: State, e: Event, sid: Id, slack: real)
    requires PaymentsOk(s) && DiscountsOk(s) && e.EvApplyDiscount? && DebtWithin(s, sid, slack)
    ensures DebtWithin(Apply(s, e), sid, SlackAfter(s, e, sid, slack))
  {
    SumAfterStep(s, e, OwedWeight(sid));
    if Discounts(s, e) {
      AmountsOffArePositive(s, e);
    }
  }

  lemma {:induction false} OtherStepKeepsDebtWithin(s: State, e: Event, sid: Id, slack: real)
    requires PaymentsOk(s) && DiscountsOk(s) && Allowed(s, e) && DebtWithin(s, sid, slack)
    requires !e.EvPay? && !e.EvApplyDiscount?
    ensures DebtWithin(Apply(s, e), sid, SlackAfter(s, e, sid, slack))
  {
    SumAfterStep(s, e, OwedWeight(sid));
    SumsArePositive(s, sid);
    OtherStepOwesNoLess(s, e, sid);
    if sid in Apply(s, e).students {
      OtherStepStoresDebt(s, e, sid);
    }
  }

  lemma {:induction false} OtherStepOwesNoLess(s: State, e: Event, sid: Id)
    requires PaymentsOk(s) && DiscountsOk(s) && Allowed(s, e) && !e.EvPay? && !e.EvApplyDiscount?
    ensures RowChange(s, e, OwedWeight(sid)) >= 0.0
    ensures e.EvOverdueJob? || e.EvRecomputeDebt? ==> RowChange(s, e, OwedWeight(sid)) == 0.0
  {
    StepKeepsPayments(s, e);
  }

  /** Steps other than pay write the debt only to store the outstanding sum, or 0 for a new student. */
  lemma OtherStepStoresDebt(s: State, e: Event, sid: Id)
    requires !e.EvPay? && sid in Apply(s, e).students
    ensures Apply(s, e).students[sid].debtAmount
            == if sid !in s.students then 0.0
               else if (e.EvRecomputeDebt? && e.sid == sid) || (e.EvOverdueJob? && Touched(s, DueIds(s, e.now), sid))
               then Owed(s, sid)
               else s.students[sid].debtAmount
  {
  }

  /** In every run: 0 <= debt <= outstanding total + discounts given since the last recompute. */
  lemma {:induction false} DebtIsBounded(es: seq<Event>, sid: Id)
    requires Legal(es)
    ensures DebtWithin(Run(es), sid, Slack(es, sid))
  {
    if es != [] {
      DebtIsBounded(Before(es), sid);
      RunKeepsRows(Before(es));
      StepKeepsDebtWithin(Run(Before(es)), Last(es), sid, Slack(Before(es), sid));
    }
  }

  /**
    Paying an outstanding payment leaves the stored debt exact if it was exact; the clamp at zero
    also repairs an understated debt, but only when nothing else is outstanding.
   */
  lemma {:induction false} PayKeepsDebtExact(s: State, pid: Id, now: int)
    requires PaymentsOk(s) && pid in s.payments && Outstanding(s.payments[pid])
    ensures var sid := s.payments[pid].studentId; var t := Pay(s, pid, now).0;
            t.students[sid].debtAmount == Owed(t, sid)
            <==> s.students[sid].debtAmount == Owed(s, sid)
                 || (s.students[sid].debtAmount <= Owed(s, sid) == s.payments[pid].totalAmount)
  {
    var sid := s.payments[pid].studentId;
    SumUpdate(s.payments, pid, Pay(s, pid, now).0.payments[pid], OwedWeight(sid));
    PayKeepsPayments(s, pid, now);
    SumsArePositive(Pay(s, pid, now).0, sid);
  }

  lemma PayKeepsPayments(s: State, pid: Id, now: int)
    requires PaymentsOk(s)
    ensures PaymentsOk(Pay(s, pid, now).0)
  {
  }

  /** Without the slack the upper bound fails: a discount lowers what is owed but not the stored debt. */
  lemma {:induction false} DiscountLeavesDebtBehind(s: State, e: Event, sid: Id)
    requires PaymentsOk(s) && Allowed(s, e) && Discounts(s, e) && OwedBy(s, e, sid)
    requires s.students[sid].debtAmount == Owed(s, sid)
    ensures Apply(s, e).students[sid].debtAmount == Owed(Apply(s, e), sid) + Reduction(s, e)
  {
    DiscountLowersOwed(s, e, sid);
  }

  // ----- when the plain bound holds -----

  /** The stored debt is within what is owed (nothing is stored for an unknown student). */
  ghost predicate Covered(s: State, sid: Id) {
    sid in s.students ==> 0.0 <= s.students[sid].debtAmount <= Owed(s, sid)
  }

  /**
    An accepted discount on an outstanding payment of the student takes off more than the gap between what is
    owed and the stored debt.
   */
  ghost predicate Undercuts(s: State, e: Event, sid: Id) {
    && Discounts(s, e) && OwedBy(s, e, sid)
    && sid in s.students && s.students[sid].debtAmount + Reduction(s, e) > Owed(s, sid)
  }

  /** From a state within the bound a step leaves it exactly when it undercuts. */
  lemma {:induction false} StepStaysCoveredIff(s: State, e: Event, sid: Id)
    requires PaymentsOk(s) && DiscountsOk(s) && Allowed(s, e) && Covered(s, sid)
    ensures Covered(Apply(s, e), sid) <==> !Undercuts(s, e, sid)
  {
    SumsArePositive(s, sid);
    StepKeepsDebtWithin(s, e, sid, 0.0);
    if Discounts(s, e) && OwedBy(s, e, sid) {
      DiscountLowersOwed(s, e, sid);
    }
  }

  lemma {:induction false} DiscountLowersOwed(s: State, e: Event, sid: Id)
    requires Discounts(s, e) && OwedBy(s, e, sid)
    ensures Owed(Apply(s, e), sid) == Owed(s, sid) - Reduction(s, e) && Apply(s, e).students == s.students
  {
    SumAfterStep(s, e, OwedWeight(sid));
    assert RowWritten(s, e) == Some(e.request.paymentId);
  }

  ghost predicate CoveredThroughout(es: seq<Event>, sid: Id) {
    Covered(Run(es), sid) && (es == [] || CoveredThroughout(Before(es), sid))
  }

  ghost predicate NeverUndercuts(es: seq<Event>, sid: Id) {
    es == [] || (NeverUndercuts(Before(es), sid) && !Undercuts(Run(Before(es)), Last(es), sid))
  }

  /** 0 <= debt <= outstanding total in every state of a run exactly when no discount of the run undercuts. */
  lemma {:induction false} DebtCoveredIff(es: seq<Event>, sid: Id)
    requires Legal(es)
    ensures CoveredThroughout(es, sid) <==> NeverUndercuts(es, sid)
  {
    if es != [] {
      DebtCoveredIff(Before(es), sid);
      RunKeepsRows(Before(es));
      if CoveredThroughout(Before(es), sid) {
        StepStaysCoveredIff(Run(Before(es)), Last(es), sid);
      }
    }
  }

  // ----- total_paid -----

  /** The total of the payment this step pays, if it pays one of the student's. */
  ghost function PaidBy(s: State, e: Event, sid: Id): real {
    if e.EvPay? && Pays(s, e, e.pid) && s.payments[e.pid].studentId == sid then s.payments[e.pid].totalAmount else 0.0
  }

  ghost function PaidIn(es: seq<Event>, sid: Id): real {
    if es == [] then 0.0 else PaidIn(Before(es), sid) + PaidBy(Run(Before(es)), Last(es), sid)
  }

  /** total_paid is the sum of totalAmount at each successful pay step; refunds are not taken off. */
  lemma {:induction false} TotalPaidIsPaidIn(es: seq<Event>, sid: Id)
    requires Legal(es)
    ensures if sid in Run(es).students then Run(es).students[sid].totalPaid == PaidIn(es, sid)
            else PaidIn(es, sid) == 0.0
  {
    if es != [] {
      TotalPaidIsPaidIn(Before(es), sid);
      RunKeepsRows(Before(es));
      StepMovesTotalPaid(Run(Before(es)), Last(es), sid);
    }
  }

  lemma StepMovesTotalPaid(s: State, e: Event, sid: Id)
    requires PaymentsOk(s)
    ensures sid in s.students ==> sid in Apply(s, e).students
    ensures sid in s.students ==> Apply(s, e).students[sid].totalPaid == s.students[sid].totalPaid + PaidBy(s, e, sid)
    ensures sid !in s.students ==> PaidBy(s, e, sid) == 0.0
    ensures sid !in s.students && sid in Apply(s, e).students ==> Apply(s, e).students[sid].totalPaid == 0.0
  {
  }

  /** Money counted in total_paid but not (or no longer) in the total of a settled payment. */
  ghost function Overcount(s: State, e: Event, sid: Id): real {
    if e.EvPay? && Pays(s, e, e.pid) then SettledWeight(sid)(s.payments[e.pid])
    else if Discounts(s, e) && SettledBy(s, e, sid) then Reduction(s, e)
    else 0.0
  }

  /** Re-paying a refunded payment with a total, or a discount of some amount on a settled payment with a total. */
  ghost predicate Overcounts(s: State, e: Event, sid: Id) {
    || (e.EvPay? && e.pid in s.payments && s.payments[e.pid].status.Refunded?
        && s.payments[e.pid].studentId == sid && s.payments[e.pid].totalAmount > 0.0)
    || (Discounts(s, e) && SettledBy(s, e, sid) && AmountOff(s, e) > 0.0 && DiscountedPayment(s, e).totalAmount > 0.0)
  }

  ghost predicate NeverOvercounts(es: seq<Event>, sid: Id) {
    es == [] || (NeverOvercounts(Before(es), sid) && !Overcounts(Run(Before(es)), Last(es), sid))
  }

  ghost function OvercountIn(es: seq<Event>, sid: Id): real {
    if es == [] then 0.0 else OvercountIn(Before(es), sid) + Overcount(Run(Before(es)), Last(es), sid)
  }

  lemma {:induction false} OvercountStep(s: State, e: Event, sid: Id)
    requires PaymentsOk(s) && DiscountsOk(s) && Allowed(s, e)
    ensures PaidBy(s, e, sid) == RowChange(s, e, SettledWeight(sid)) + Overcount(s, e, sid)
    ensures Overcount(s, e, sid) >= 0.0
    ensures Overcount(s, e, sid) > 0.0 <==> Overcounts(s, e, sid)
  {
    if e.EvPay? && Pays(s, e, e.pid) {
      assert RowWritten(s, e) == Some(e.pid);
    } else if Discounts(s, e) {
      AmountsOffArePositive(s, e);
      assert RowWritten(s, e) == Some(e.request.paymentId);
    } else {
      QuietStep(s, e, sid);
    }
  }

  lemma QuietStep(s: State, e: Event, sid: Id)
    requires Allowed(s, e) && !Discounts(s, e) && (e.EvPay? ==> !Pays(s, e, e.pid))
    ensures RowChange(s, e, SettledWeight(sid)) == 0.0
    ensures !Overcounts(s, e, sid)
  {
  }

  lemma {:induction false} OvercountExplainsGap(es: seq<Event>, sid: Id)
    requires Legal(es)
    ensures PaidIn(es, sid) == SettledSum(Run(es), sid) + OvercountIn(es, sid)
    ensures OvercountIn(es, sid) >= 0.0
    ensures OvercountIn(es, sid) == 0.0 <==> NeverOvercounts(es, sid)
  {
    if es != [] {
      var s, e := Run(Before(es)), Last(es);
      OvercountExplainsGap(Before(es), sid);
      RunKeepsRows(Before(es));
      OvercountStep(s, e, sid);
      SumAfterStep(s, e, SettledWeight(sid));
    }
  }

  /** total_paid is never less than the settled payments' totals, and equal exactly in runs that never overcount. */
  lemma {:induction false} TotalPaidVersusSettled(es: seq<Event>, sid: Id)
    requires Legal(es) && sid in Run(es).students
    ensures Run(es).students[sid].totalPaid >= SettledSum(Run(es), sid)
    ensures Run(es).students[sid].totalPaid == SettledSum(Run(es), sid) <==> NeverOvercounts(es, sid)
  {
    TotalPaidIsPaidIn(es, sid);
    OvercountExplainsGap(es, sid);
  }

  /** Paid revenue is total_paid minus the refunded payments' totals, exactly in such runs. */
  lemma {:induction false} PaidRevenue(es: seq<Event>, sid: Id)
    requires Legal(es) && sid in Run(es).students
    ensures Sum(Run(es).payments, PaidWeight(sid))
              == Run(es).students[sid].totalPaid - Sum(Run(es).payments, RefundedWeight(sid))
            <==> NeverOvercounts(es, sid)
  {
    TotalPaidVersusSettled(es, sid);
    SumSplit(Run(es).payments, SettledWeight(sid), PaidWeight(sid), RefundedWeight(sid));
  }

  // ----- totals of single payments -----

  ghost function TakenOff(s: State, e: Event, pid: Id): real {
    if Discounts(s, e) && e.request.paymentId == pid then AmountOff(s, e) else 0.0
  }

  ghost function DiscountedBy(es: seq<Event>, pid: Id): real {
    if es == [] then 0.0 else DiscountedBy(Before(es), pid) + TakenOff(Run(Before(es)), Last(es), pid)
  }

  /** Discounts are only ever counted against payments that exist. */
  lemma {:induction false} NoRowNoDiscounts(es: seq<Event>, pid: Id)
    requires Legal(es)
    ensures DiscountedBy(es, pid) >= 0.0
    ensures pid !in Run(es).payments ==> DiscountedBy(es, pid) == 0.0
  {
    if es != [] {
      var s, e := Run(Before(es)), Last(es);
      NoRowNoDiscounts(Before(es), pid);
      RunKeepsRows(Before(es));
      StepTakesOff(s, e, pid);
    }
  }

  lemma {:induction false} StepTakesOff(s: State, e: Event, pid: Id)
    requires PaymentsOk(s) && DiscountsOk(s)
    ensures TakenOff(s, e, pid) >= 0.0
    ensures pid in s.payments ==> pid in Apply(s, e).payments
    ensures pid !in s.payments ==> TakenOff(s, e, pid) == 0.0
  {
    if Discounts(s, e) {
      AmountsOffArePositive(s, e);
    }
  }

  /** The total create billed, from the columns no endpoint rewrites. */
  ghost function Billed(p: Payment): real {
    BilledTotal(p.amount, p.discountPercent, p.taxPercent)
  }

  ghost predicate Explained(s: State, pid: Id, off: real) {
    pid in s.payments ==> s.payments[pid].totalAmount == Max(0.0, Billed(s.payments[pid]) - off)
  }

  lemma {:induction false} StepMovesTotal(s: State, e: Event, pid: Id, off: real)
    requires PaymentsOk(s) && DiscountsOk(s) && Allowed(s, e)
    requires pid in s.payments && Explained(s, pid, off) && off >= 0.0
    ensures Explained(Apply(s, e), pid, off + TakenOff(s, e, pid))
  {
    StepWritesDiscountColumn(s, e, pid);
    StepWritesTotal(s, e, pid);
    if Discounts(s, e) {
      AmountsOffArePositive(s, e);
    }
  }

  lemma StepWritesTotal(s: State, e: Event, pid: Id)
    requires Allowed(s, e) && pid in s.payments
    ensures pid in Apply(s, e).payments
    ensures Apply(s, e).payments[pid].totalAmount
            == if Discounts(s, e) && e.request.paymentId == pid
               then Max(0.0, s.payments[pid].totalAmount - AmountOff(s, e))
               else s.payments[pid].totalAmount
  {
  }

  lemma {:induction false} FirstTotal(s: State, e: Event, pid: Id)
    requires Allowed(s, e) && pid !in s.payments
    ensures Explained(Apply(s, e), pid, 0.0)
  {
    if e.EvCreate? {
      BilledTotalSign(OrZero(e.dto.amount), OrZero(e.dto.discountPercent), OrZero(e.dto.taxPercent));
    } else {
      StepKeepsBills(s, e);
    }
  }

  /** A payment's total is what was billed, less every discount applied since, and never negative. */
  lemma {:induction false} TotalIsBilledMinusDiscounts(es: seq<Event>, pid: Id)
    requires Legal(es)
    ensures Explained(Run(es), pid, DiscountedBy(es, pid))
  {
    if es != [] {
      var s, e := Run(Before(es)), Last(es);
      RunKeepsRows(Before(es));
      TotalIsBilledMinusDiscounts(Before(es), pid);
      NoRowNoDiscounts(Before(es), pid);
      if pid in s.payments {
        StepMovesTotal(s, e, pid, DiscountedBy(Before(es), pid));
      } else {
        StepTakesOff(s, e, pid);
        FirstTotal(s, e, pid);
      }
    }
  }

  /** The payment of this invoice has the invoice's total less off, but never less than 0. */
  ghost predicate BilledLess(s: State, iid: Id, off: real)
    requires iid in s.invoices
  {
    var inv := s.invoices[iid];
    inv.paymentId in s.payments && s.payments[inv.paymentId].totalAmount == Max(0.0, inv.totalAmount - off)
  }

  lemma {:induction false} MirrorIsBilledLess(s: State, iid: Id, off: real)
    requires InvoicesMirror(s) && iid in s.invoices && Explained(s, s.invoices[iid].paymentId, off)
    ensures BilledLess(s, iid, off)
  {
    assert Mirrors(s.invoices[iid], s.payments[s.invoices[iid].paymentId]);
  }

  /** If it has an invoice, that is the invoice's total less those discounts: the invoice keeps what was billed. */
  lemma {:induction false} TotalIsInvoiceMinusDiscounts(es: seq<Event>, iid: Id)
    requires Legal(es) && iid in Run(es).invoices
    ensures BilledLess(Run(es), iid, DiscountedBy(es, Run(es).invoices[iid].paymentId))
  {
    RunIsConsistent(es);
    var s := Run(es);
    var pid := s.invoices[iid].paymentId;
    TotalIsBilledMinusDiscounts(es, pid);
    MirrorIsBilledLess(s, iid, DiscountedBy(es, pid));
  }

  /** The amount of the latest discount applied to a payment, if any was. */
  ghost function LatestOff(es: seq<Event>, pid: Id): Option<real> {
    if es == [] then None
    else if Discounts(Run(Before(es)), Last(es)) && Last(es).request.paymentId == pid
    then Some(AmountOff(Run(Before(es)), Last(es)))
    else LatestOff(Before(es), pid)
  }

  lemma StepWritesDiscountColumn(s: State, e: Event, pid: Id)
    requires Allowed(s, e) && pid in s.payments
    ensures pid in Apply(s, e).payments
    ensures Apply(s, e).payments[pid].discountAmount
            == if Discounts(s, e) && e.request.paymentId == pid then AmountOff(s, e) else s.payments[pid].discountAmount
    ensures SameBill(s.payments[pid], Apply(s, e).payments[pid])
  {
  }

  /** The discountAmount column holds the latest code's amount only, or the discount billed at creation. */
  lemma {:induction false} DiscountColumnIsLatest(es: seq<Event>, pid: Id)
    requires Legal(es)
    ensures pid in Run(es).payments ==>
              var p := Run(es).payments[pid];
              p.discountAmount == (match LatestOff(es, pid)
                                   case Some(off) => off
                                   case None => PercentOf(p.amount, p.discountPercent))
    ensures pid !in Run(es).payments ==> LatestOff(es, pid).None?
  {
    if es != [] {
      var s, e := Run(Before(es)), Last(es);
      DiscountColumnIsLatest(Before(es), pid);
      if pid in s.payments {
        StepWritesDiscountColumn(s, e, pid);
      }
    }
  }

  // ----- usage counters -----

  ghost function Uses(es: seq<Event>, code: string): nat {
    if es == [] then 0
    else Uses(Before(es), code) + if Discounts(Run(Before(es)), Last(es)) && Last(es).request.code == code then 1 else 0
  }

  /** usedCount is the number of successful applications of the code, and never passes its limit. */
  lemma {:induction false} UsedCountIsUses(es: seq<Event>, code: string)
    requires Legal(es)
    ensures code !in Run(es).discounts ==> Uses(es, code) == 0
    ensures code in Run(es).discounts ==>
              var d := Run(es).discounts[code];
              && d.usedCount == Uses(es, code)
              && (d.maxUses.Some? && d.maxUses.value >= 0 ==> Uses(es, code) <= d.maxUses.value)
  {
    if es != [] {
      UsedCountIsUses(Before(es), code);
      StepCountsUses(Run(Before(es)), Last(es), code);
    }
    RunKeepsRows(es);
  }

  lemma StepCountsUses(s: State, e: Event, code: string)
    ensures code in s.discounts ==> code in Apply(s, e).discounts
    ensures code in s.discounts ==>
              Apply(s, e).discounts[code].usedCount
              == s.discounts[code].usedCount + if Discounts(s, e) && e.request.code == code then 1 else 0
    ensures code !in s.discounts ==> !(Discounts(s, e) && e.request.code == code)
    ensures code !in s.discounts && code in Apply(s, e).discounts ==> Apply(s, e).discounts[code].usedCount == 0
  {
  }
}
