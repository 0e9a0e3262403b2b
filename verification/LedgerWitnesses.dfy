/**
  Runs that break what one might expect of the ledger. Each is legal, so the conditions under which the theorems of
  LedgerHistory, LedgerInvariants and OverdueInterleaving hold are not conditions that every run meets.
 */
module LedgerWitnesses {
  import opened Common
  import opened MapSums
  import opened LedgerModel
  import opened LedgerInvariants
  import opened LedgerHistory
  import opened OverdueInterleaving
  import SequenceCodes

  const SID: Id := 1
  const PID: Id := 2
  const IID: Id := 3
  const YEAR: nat := 2024

  // ----- one step more -----

  lemma {:induction false} Extend(es: seq<Event>, e: Event)
    ensures Run(es + [e]) == Apply(Run(es), e)
    ensures Legal(es + [e]) <==> Legal(es) && Allowed(Run(es), e)
    ensures forall sid :: NeverOvercounts(es + [e], sid) <==> NeverOvercounts(es, sid) && !Overcounts(Run(es), e, sid)
    ensures forall sid :: NeverUndercuts(es + [e], sid) <==> NeverUndercuts(es, sid) && !Undercuts(Run(es), e, sid)
    ensures NeverClashes(es + [e]) <==> NeverClashes(es) && !Clashes(Run(es), e)
  {
    assert Before(es + [e]) == es;
  }

  lemma {:induction false} ExtendSteps(ss: seq<Step>, st: Step)
    ensures LegalSteps(ss + [st]) <==> LegalSteps(ss) && Enabled(After(ss), st)
    ensures LegalSteps(ss + [st]) ==> After(ss + [st]) == Next(After(ss), st)
    ensures LegalSteps(ss + [st]) && NeverContradicts(ss + [st]) ==> NeverContradicts(ss) && !Contradicts(After(ss), st)
    ensures LegalSteps(ss + [st]) ==>
              forall sid :: NeverWidensGap(ss + [st], sid) ==> NeverWidensGap(ss, sid) && !WidensGap(After(ss), st, sid)
  {
    assert Before(ss + [st]) == ss;
  }

  lemma {:induction false} SumOfOne(m: map<Id, Payment>, w: Payment -> real)
    requires m.Keys == {PID}
    ensures Sum(m, w) == w(m[PID])
  {
    SumPick(m, PID, w);
    assert m - {PID} == map[];
  }

  // ----- one student with one payment -----

  function Request(amount: real, due: Option<int>): CreateDto {
    CreateDto(SID, None, Some(amount), None, None, due)
  }

  function Creation(amount: real, due: Option<int>): Event {
    EvCreate(PID, IID, Request(amount, due), 0, YEAR)
  }

  function Billing(amount: real, due: Option<int>): seq<Event> {
    [EvEnrol(SID)] + [Creation(amount, due)]
  }

  /** One student, and one payment of this total and due date in this status, with these stored totals. */
  ghost predicate Holds(s: State, status: PaymentStatus, total: real, due: Option<int>, debt: real, paid: real) {
    && s.students.Keys == {SID} && s.payments.Keys == {PID}
    && s.students[SID].debtAmount == debt && s.students[SID].totalPaid == paid
    && var p := s.payments[PID];
       p.studentId == SID && p.status == status && p.totalAmount == total && p.dueDate == due
  }

  lemma {:induction false} FirstSteps(before: seq<Event>, amount: real, due: Option<int>)
    requires Legal(before) && Run(before) == NO_ROWS.(elsewhere := Run(before).elsewhere) && amount >= 0.0
    ensures Legal(before + [EvEnrol(SID)]) && Legal(before + [EvEnrol(SID)] + [Creation(amount, due)])
    ensures var s := Run(before + [EvEnrol(SID)] + [Creation(amount, due)]);
            Holds(s, Pending, amount, due, 0.0, 0.0) && s.discounts == map[]
  {
    Extend(before, EvEnrol(SID));
    Extend(before + [EvEnrol(SID)], Creation(amount, due));
  }

  lemma {:induction false} BillingRun(amount: real, due: Option<int>)
    requires amount >= 0.0
    ensures Legal(Billing(amount, due))
    ensures Holds(Run(Billing(amount, due)), Pending, amount, due, 0.0, 0.0)
    ensures Run(Billing(amount, due)).discounts == map[]
  {
    FirstSteps([], amount, due);
    assert [] + [EvEnrol(SID)] == [EvEnrol(SID)];
  }

  lemma PayHeld(s: State, status: PaymentStatus, total: real, due: Option<int>, debt: real, paid: real, now: int)
    requires Holds(s, status, total, due, debt, paid) && !status.Paid?
    ensures Holds(Apply(s, EvPay(PID, now)), Paid, total, due, Max(0.0, debt - total), paid + total)
  {
  }

  lemma RefundHeld(s: State, total: real, due: Option<int>, debt: real, paid: real, now: int)
    requires Holds(s, Paid, total, due, debt, paid)
    ensures Holds(Apply(s, EvRefund(PID, None, now)), Refunded, total, due, debt, paid)
  {
  }

  // ----- a refunded payment paid again -----

  function PaidTwice(amount: real): seq<Event> {
    Billing(amount, None) + [EvPay(PID, 1)] + [EvRefund(PID, None, 2)] + [EvPay(PID, 3)]
  }

  /** total_paid counts the payment twice; the settled payments' totals count it once. */
  lemma {:induction false} PaidTwiceOvercounts(amount: real)
    requires amount > 0.0
    ensures Legal(PaidTwice(amount)) && SID in Run(PaidTwice(amount)).students
    ensures !NeverOvercounts(PaidTwice(amount), SID)
    ensures Run(PaidTwice(amount)).students[SID].totalPaid == 2.0 * amount
    ensures SettledSum(Run(PaidTwice(amount)), SID) == amount
  {
    var es := Billing(amount, None);
    BillingRun(amount, None);
    Extend(es, EvPay(PID, 1));
    PayHeld(Run(es), Pending, amount, None, 0.0, 0.0, 1);
    Extend(es + [EvPay(PID, 1)], EvRefund(PID, None, 2));
    RefundHeld(Run(es + [EvPay(PID, 1)]), amount, None, 0.0, amount, 2);
    var refunded := es + [EvPay(PID, 1)] + [EvRefund(PID, None, 2)];
    Extend(refunded, EvPay(PID, 3));
    PayHeld(Run(refunded), Refunded, amount, None, 0.0, amount, 3);
    assert PaidTwice(amount) == refunded + [EvPay(PID, 3)];
    SumOfOne(Run(PaidTwice(amount)).payments, SettledWeight(SID));
  }

  // ----- a discount after the debt was stored -----

  const CODE := "CODE"

  function Coupon(value: real): Discount {
    Discount(Fixed, value, None, None, 0, true, None)
  }

  const UseCoupon := EvApplyDiscount(DiscountDto(CODE, PID, None), 0)

  function DiscountedLate(amount: real, value: real): seq<Event> {
    Offered(amount, value) + [UseCoupon]
  }

  lemma {:induction false} RecomputeHeld(s: State, total: real)
    requires Holds(s, Pending, total, None, 0.0, 0.0)
    ensures Holds(Apply(s, EvRecomputeDebt(SID)), Pending, total, None, total, 0.0)
    ensures Apply(s, EvRecomputeDebt(SID)).discounts == s.discounts
  {
    SumOfOne(s.payments, OwedWeight(SID));
  }

  lemma CouponHeld(s: State, total: real, value: real)
    requires Holds(s, Pending, total, None, total, 0.0) && s.discounts == map[]
    ensures Holds(Apply(s, EvCreateDiscount(CODE, Coupon(value))), Pending, total, None, total, 0.0)
    ensures Apply(s, EvCreateDiscount(CODE, Coupon(value))).discounts == map[CODE := Coupon(value)]
  {
  }

  lemma {:induction false} UseHeld(s: State, total: real, value: real)
    requires Holds(s, Pending, total, None, total, 0.0) && s.discounts == map[CODE := Coupon(value)]
    requires 0.0 < value <= total
    ensures Holds(Apply(s, UseCoupon), Pending, total - value, None, total, 0.0)
    ensures Undercuts(s, UseCoupon, SID)
  {
    SumOfOne(s.payments, OwedWeight(SID));
    assert DiscountError(s, UseCoupon.request, 0).None?;
  }

  function Offered(amount: real, value: real): seq<Event> {
    Billing(amount, None) + [EvRecomputeDebt(SID)] + [EvCreateDiscount(CODE, Coupon(value))]
  }

  lemma {:induction false} OfferedRun(amount: real, value: real)
    requires 0.0 < value <= amount
    ensures Legal(Offered(amount, value))
    ensures Holds(Run(Offered(amount, value)), Pending, amount, None, amount, 0.0)
    ensures Run(Offered(amount, value)).discounts == map[CODE := Coupon(value)]
  {
    var es := Billing(amount, None);
    BillingRun(amount, None);
    Extend(es, EvRecomputeDebt(SID));
    RecomputeHeld(Run(es), amount);
    var stored := es + [EvRecomputeDebt(SID)];
    Extend(stored, EvCreateDiscount(CODE, Coupon(value)));
    CouponHeld(Run(stored), amount, value);
  }

  /** The stored debt stays at the full amount; less is owed. */
  lemma {:induction false} DiscountedLateUndercuts(amount: real, value: real)
    requires 0.0 < value <= amount
    ensures Legal(DiscountedLate(amount, value)) && SID in Run(DiscountedLate(amount, value)).students
    ensures !NeverUndercuts(DiscountedLate(amount, value), SID)
    ensures Run(DiscountedLate(amount, value)).students[SID].debtAmount == amount
    ensures Owed(Run(DiscountedLate(amount, value)), SID) == amount - value
  {
    OfferedRun(amount, value);
    Extend(Offered(amount, value), UseCoupon);
    UseHeld(Run(Offered(amount, value)), amount, value);
    SumOfOne(Run(DiscountedLate(amount, value)).payments, OwedWeight(SID));
  }

  // ----- two tenants' first payments of a year -----

  function SecondTenant(amount: real): seq<Event> {
    [EvInvoiceElsewhere(YEAR, 1)] + [EvEnrol(SID)] + [Creation(amount, None)]
  }

  lemma {:induction false} ElsewhereFirst()
    ensures Legal([EvInvoiceElsewhere(YEAR, 1)])
    ensures Run([EvInvoiceElsewhere(YEAR, 1)]) == NO_ROWS.(elsewhere := {(YEAR, 1)})
  {
    Extend([], EvInvoiceElsewhere(YEAR, 1));
    assert [] + [EvInvoiceElsewhere(YEAR, 1)] == [EvInvoiceElsewhere(YEAR, 1)];
    assert InvoiceElsewhere(NO_ROWS, YEAR, 1).elsewhere == {(YEAR, 1)};
  }

  lemma {:induction false} CreateClashes(s: State, amount: real)
    requires SID in s.students && s.payments == map[] && s.invoices == map[] && (YEAR, 1) in s.elsewhere
    ensures Clashes(s, Creation(amount, None))
    ensures PID in Apply(s, Creation(amount, None)).payments && !HasInvoice(Apply(s, Creation(amount, None)), PID)
  {
    HeldElsewhereIff(s, YEAR, 1);
  }

  /** Another tenant has invoiced its first payment of the year: this tenant's first payment gets no invoice. */
  lemma {:induction false} SecondTenantLacksInvoice(amount: real)
    requires amount >= 0.0
    ensures Legal(SecondTenant(amount)) && !NeverClashes(SecondTenant(amount))
    ensures PID in Run(SecondTenant(amount)).payments && !HasInvoice(Run(SecondTenant(amount)), PID)
  {
    var first := [EvInvoiceElsewhere(YEAR, 1)];
    ElsewhereFirst();
    FirstSteps(first, amount, None);
    Extend(first, EvEnrol(SID));
    var enrolled := first + [EvEnrol(SID)];
    assert Run(enrolled) == Enrol(Run(first), SID);
    CreateClashes(Run(enrolled), amount);
    Extend(enrolled, Creation(amount, None));
  }

  // ----- the overdue job between requests -----

  function Fetched(amount: real): seq<Step> {
    [Endpoint(EvEnrol(SID))] + [Endpoint(Creation(amount, Some(0)))] + [Fetch(1)]
  }

  lemma {:induction false} FetchedRun(amount: real)
    requires amount >= 0.0
    ensures LegalSteps(Fetched(amount))
    ensures var w := After(Fetched(amount));
            && w.job.Idle? && w.waiting == {PID} && HasInvoice(w.tables, PID)
            && Holds(w.tables, Pending, amount, Some(0), 0.0, 0.0)
  {
    var enrol, create := Endpoint(EvEnrol(SID)), Endpoint(Creation(amount, Some(0)));
    ExtendSteps([], enrol);
    assert [] + [enrol] == [enrol];
    assert After([enrol]).tables == Enrol(NO_ROWS, SID);
    ExtendSteps([enrol], create);
    FirstInvoice(Enrol(NO_ROWS, SID), amount);
    ExtendSteps([enrol] + [create], Fetch(1));
  }

  lemma {:induction false} FirstInvoice(s: State, amount: real)
    requires s == Enrol(NO_ROWS, SID) && amount >= 0.0
    ensures Allowed(s, Creation(amount, Some(0)))
    ensures Holds(Apply(s, Creation(amount, Some(0))), Pending, amount, Some(0), 0.0, 0.0)
    ensures HasInvoice(Apply(s, Creation(amount, Some(0))), PID)
    ensures DueIds(Apply(s, Creation(amount, Some(0))), 1) == {PID}
  {
    var t := Apply(s, Creation(amount, Some(0)));
    assert IID in t.invoices && t.invoices[IID].paymentId == PID;
  }

  /** The payment is paid between fetch and flip. */
  function PaidWhileHeld(amount: real): seq<Step> {
    Fetched(amount) + [Endpoint(EvPay(PID, 1))] + [Flip(PID)] + [ReadSum] + [Store]
  }

  lemma {:induction false} PayHeldKeepsInvoice(s: State)
    requires HasInvoice(s, PID)
    ensures HasInvoice(Apply(s, EvPay(PID, 1)), PID)
  {
    var iid :| iid in s.invoices && s.invoices[iid].paymentId == PID;
    assert iid in Apply(s, EvPay(PID, 1)).invoices;
  }

  lemma FlipHeld(s: State, status: PaymentStatus, total: real, due: Option<int>, debt: real, paid: real)
    requires Holds(s, status, total, due, debt, paid)
    ensures Holds(FlipStatus(s, PID), Overdue, total, due, debt, paid)
  {
  }

  lemma {:induction false} SumHeld(
    w: World, status: PaymentStatus, total: real, due: Option<int>, debt: real, paid: real)
    requires Holds(w.tables, status, total, due, debt, paid) && w.job == Flipped(SID)
    ensures var owed := if status.Pending? || status.Overdue? then total else 0.0;
            Next(w, ReadSum) == w.(job := Summed(SID, owed))
  {
    SumOfOne(w.tables.payments, OwedWeight(SID));
  }

  lemma StoreHeld(w: World, status: PaymentStatus, total: real, due: Option<int>, debt: real, paid: real, sum: real)
    requires Holds(w.tables, status, total, due, debt, paid) && w.job == Summed(SID, sum)
    ensures Holds(Next(w, Store).tables, status, total, due, sum, paid)
  {
  }

  lemma {:induction false} LateFlipRun(amount: real)
    requires amount > 0.0
    ensures var ss := Fetched(amount) + [Endpoint(EvPay(PID, 1))] + [Flip(PID)];
            && LegalSteps(ss) && !NeverContradicts(ss) && !NeverWidensGap(ss, SID)
            && After(ss).job == Flipped(SID) && Holds(After(ss).tables, Overdue, amount, Some(0), 0.0, amount)
  {
    var held, pay := Fetched(amount), Endpoint(EvPay(PID, 1));
    FetchedRun(amount);
    ExtendSteps(held, pay);
    PayHeld(After(held).tables, Pending, amount, Some(0), 0.0, 0.0, 1);
    PayHeldKeepsInvoice(After(held).tables);
    ExtendSteps(held + [pay], Flip(PID));
    FlipHeld(After(held + [pay]).tables, Paid, amount, Some(0), 0.0, amount);
  }

  /** The student has paid everything, and the full amount is stored as debt and owed again. */
  lemma {:induction false} PaidWhileHeldFlipsLate(amount: real)
    requires amount > 0.0
    ensures LegalSteps(PaidWhileHeld(amount))
    ensures !NeverContradicts(PaidWhileHeld(amount)) && !NeverWidensGap(PaidWhileHeld(amount), SID)
    ensures Holds(After(PaidWhileHeld(amount)).tables, Overdue, amount, Some(0), amount, amount)
  {
    var flipped := Fetched(amount) + [Endpoint(EvPay(PID, 1))] + [Flip(PID)];
    LateFlipRun(amount);
    ExtendSteps(flipped, ReadSum);
    SumHeld(After(flipped), Overdue, amount, Some(0), 0.0, amount);
    ExtendSteps(flipped + [ReadSum], Store);
    StoreHeld(After(flipped + [ReadSum]), Overdue, amount, Some(0), 0.0, amount, amount);
    assert PaidWhileHeld(amount) == flipped + [ReadSum] + [Store];
  }

  /** The payment is paid between reading the sum and storing it. */
  function PaidBeforeStore(amount: real): seq<Step> {
    Fetched(amount) + [Flip(PID)] + [ReadSum] + [Endpoint(EvPay(PID, 1))] + [Store]
  }

  lemma {:induction false} SumReadRun(amount: real)
    requires amount >= 0.0
    ensures LegalSteps(Fetched(amount) + [Flip(PID)] + [ReadSum])
    ensures var w := After(Fetched(amount) + [Flip(PID)] + [ReadSum]);
            w.job == Summed(SID, amount) && Holds(w.tables, Overdue, amount, Some(0), 0.0, 0.0)
  {
    var held := Fetched(amount);
    FetchedRun(amount);
    ExtendSteps(held, Flip(PID));
    FlipHeld(After(held).tables, Pending, amount, Some(0), 0.0, 0.0);
    SumHeld(After(held + [Flip(PID)]), Overdue, amount, Some(0), 0.0, 0.0);
    ExtendSteps(held + [Flip(PID)], ReadSum);
  }

  /** Nothing is owed, and the full amount is stored as debt. */
  lemma {:induction false} PaidBeforeStoreLeavesDebt(amount: real)
    requires amount >= 0.0
    ensures LegalSteps(PaidBeforeStore(amount))
    ensures Holds(After(PaidBeforeStore(amount)).tables, Paid, amount, Some(0), amount, amount)
    ensures Owed(After(PaidBeforeStore(amount)).tables, SID) == 0.0
  {
    var read, pay := Fetched(amount) + [Flip(PID)] + [ReadSum], Endpoint(EvPay(PID, 1));
    SumReadRun(amount);
    ExtendSteps(read, pay);
    PayHeld(After(read).tables, Overdue, amount, Some(0), 0.0, 0.0, 1);
    ExtendSteps(read + [pay], Store);
    StoreHeld(After(read + [pay]), Paid, amount, Some(0), 0.0, amount, amount);
    assert PaidBeforeStore(amount) == read + [pay] + [Store];
    SumOfOne(After(PaidBeforeStore(amount)).tables.payments, OwedWeight(SID));
  }
}
