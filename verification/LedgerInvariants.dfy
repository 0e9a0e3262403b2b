/** What every endpoint keeps of the ledger tables, and hence every run. */
module LedgerInvariants {
  import opened Common
  import opened MapSums
  import opened SequenceCodes
  import opened LedgerModel

  // ----- amounts -----

  lemma {:induction false} PercentWithin(amount: real, percent: real)
    requires 0.0 <= amount && 0.0 <= percent
    ensures 0.0 <= PercentOf(amount, percent)
    ensures percent <= 100.0 ==> PercentOf(amount, percent) <= amount
  {
    assert amount * percent >= 0.0;
    if percent <= 100.0 {
      assert amount * (100.0 - percent) >= 0.0;
      assert amount * percent <= amount * 100.0;
    }
  }

  /** create stores a non-negative total exactly when the net percentage does not exceed 100. */
  lemma {:induction false} BilledTotalSign(amount: real, discountPercent: real, taxPercent: real)
    requires amount >= 0.0
    ensures BilledTotal(amount, discountPercent, taxPercent) >= 0.0
            <==> amount == 0.0 || discountPercent - taxPercent <= 100.0
  {
    var net := 100.0 - discountPercent + taxPercent;
    calc {
      100.0 * BilledTotal(amount, discountPercent, taxPercent);
      100.0 * amount - amount * discountPercent + amount * taxPercent;
      amount * net;
    }
    if net >= 0.0 {
      assert amount * net >= 0.0;
    } else if amount > 0.0 {
      assert amount * net < 0.0;
    }
  }

  // ----- the invariant -----

  ghost predicate PaymentOk(s: State, p: Payment) {
    && p.studentId in s.students
    && (Outstanding(p) || Settled(p))
    && 0.0 <= p.amount
    && 0.0 <= p.totalAmount
  }

  ghost predicate PaymentsOk(s: State) {
    forall pid :: pid in s.payments ==> PaymentOk(s, s.payments[pid])
  }

  /** The invoice carries the amounts of the payment as created, and its status follows the payment's. */
  ghost predicate Mirrors(inv: Invoice, p: Payment) {
    && inv.studentId == p.studentId
    && inv.invoiceNumber == NumberOnInvoice(p.invoiceNumber)
    && inv.subtotal == p.amount
    && inv.discountAmount == PercentOf(p.amount, p.discountPercent)
    && inv.taxAmount == PercentOf(p.amount, p.taxPercent)
    && inv.totalAmount == inv.subtotal - inv.discountAmount + inv.taxAmount
    && inv.status == (if Settled(p) then InvoicePaid else Sent)
  }

  ghost predicate HasInvoice(s: State, pid: Id) {
    exists iid :: iid in s.invoices && s.invoices[iid].paymentId == pid
  }

  ghost predicate AtMostOneInvoice(s: State) {
    && (forall i, j :: i in s.invoices && j in s.invoices && s.invoices[i].paymentId == s.invoices[j].paymentId
                       ==> i == j)
    && (forall iid :: iid in s.invoices ==> s.invoices[iid].paymentId in s.payments)
  }

  ghost predicate InvoicesMirror(s: State) {
    forall iid :: iid in s.invoices ==>
      s.invoices[iid].paymentId in s.payments && Mirrors(s.invoices[iid], s.payments[s.invoices[iid].paymentId])
  }

  ghost predicate InvoicesOk(s: State) {
    AtMostOneInvoice(s) && InvoicesMirror(s)
  }

  ghost predicate InvoiceTotalsOk(s: State) {
    forall iid :: iid in s.invoices ==> s.invoices[iid].totalAmount >= 0.0
  }

  ghost predicate DiscountsOk(s: State) {
    forall code :: code in s.discounts ==>
      var d := s.discounts[code];
      d.value >= 0.0 && (d.maxUses.Some? ==> d.usedCount as int <= if d.maxUses.value < 0 then 0 else d.maxUses.value)
  }

  /** Every number was drawn at a row count that is at most the present one, each count once. */
  ghost predicate InvoiceNumbersOk(payments: map<Id, Payment>) {
    && (forall pid :: pid in payments ==> TrailingNumber(payments[pid].invoiceNumber) <= |payments|)
    && (forall p, q :: p in payments && q in payments && p != q ==>
          TrailingNumber(payments[p].invoiceNumber) != TrailingNumber(payments[q].invoiceNumber))
  }

  ghost predicate StudentCodesOk(students: map<Id, Student>) {
    && (forall sid :: sid in students ==> TrailingNumber(students[sid].studentCode) <= |students|)
    && (forall i, j :: i in students && j in students && i != j ==>
          TrailingNumber(students[i].studentCode) != TrailingNumber(students[j].studentCode))
  }

  ghost predicate Consistent(s: State) {
    PaymentsOk(s) && InvoicesOk(s) && InvoiceTotalsOk(s) && DiscountsOk(s)
    && InvoiceNumbersOk(s.payments) && StudentCodesOk(s.students)
  }

  // ----- each part is kept by every step -----

  lemma {:induction false} StepKeepsPayments(s: State, e: Event)
    requires PaymentsOk(s) && DiscountsOk(s) && Allowed(s, e)
    ensures PaymentsOk(Apply(s, e))
  {
    match e
    case EvCreate(pid, iid, dto, now, year) =>
      BilledTotalSign(OrZero(dto.amount), OrZero(dto.discountPercent), OrZero(dto.taxPercent));
    case EvApplyDiscount(dto, now) =>
      if DiscountError(s, dto, now).None? {
        PercentWithin(s.payments[dto.paymentId].amount, s.discounts[dto.code].value);
      }
    case _ =>
  }

  /** The columns of a payment that no endpoint rewrites. */
  ghost predicate SameBill(p: Payment, q: Payment) {
    && p.studentId == q.studentId && p.invoiceNumber == q.invoiceNumber && p.amount == q.amount
    && p.discountPercent == q.discountPercent && p.taxPercent == q.taxPercent
  }

  ghost predicate SameBills(s: State, t: State) {
    && t.payments.Keys == s.payments.Keys
    && forall pid :: pid in s.payments ==> SameBill(s.payments[pid], t.payments[pid])
  }

  ghost predicate SameOwners(s: State, t: State) {
    && t.invoices.Keys == s.invoices.Keys
    && forall iid :: iid in s.invoices ==> t.invoices[iid].paymentId == s.invoices[iid].paymentId
  }

  lemma OwnersUnchanged(s: State, t: State)
    requires AtMostOneInvoice(s) && SameBills(s, t) && SameOwners(s, t)
    ensures AtMostOneInvoice(t)
  {
  }

  lemma {:induction false} SameOwnersSameInvoiced(s: State, t: State, pid: Id)
    requires SameOwners(s, t)
    ensures HasInvoice(t, pid) <==> HasInvoice(s, pid)
  {
    if HasInvoice(s, pid) {
      var iid :| iid in s.invoices && s.invoices[iid].paymentId == pid;
      assert iid in t.invoices && t.invoices[iid].paymentId == pid;
    }
    if HasInvoice(t, pid) {
      var iid :| iid in t.invoices && t.invoices[iid].paymentId == pid;
      assert iid in s.invoices && s.invoices[iid].paymentId == pid;
    }
  }

  /** No step other than create adds a payment or rewrites the bill of one, or moves an invoice. */
  lemma {:induction false} StepKeepsBills(s: State, e: Event)
    requires Allowed(s, e) && !e.EvCreate?
    ensures SameBills(s, Apply(s, e)) && SameOwners(s, Apply(s, e))
  {
    if e.EvApplyDiscount? {
      var _ := DiscountError(s, e.request, e.now);
    }
  }

  /** Only pay writes invoices, and only create and pay change whether a payment is settled. */
  lemma {:induction false} StepKeepsSettlement(s: State, e: Event)
    requires Allowed(s, e) && !e.EvCreate? && !e.EvPay?
    ensures Apply(s, e).invoices == s.invoices
    ensures SameBills(s, Apply(s, e))
    ensures forall pid :: pid in s.payments ==> Settled(s.payments[pid]) == Settled(Apply(s, e).payments[pid])
  {
    StepKeepsBills(s, e);
  }

  lemma {:induction false} StepKeepsInvoices(s: State, e: Event)
    requires InvoicesOk(s) && Allowed(s, e)
    ensures InvoicesOk(Apply(s, e))
  {
    if e.EvCreate? {
      CreateKeepsInvoices(s, e.pid, e.iid, e.dto, e.now, e.year);
    } else {
      StepKeepsBills(s, e);
      OwnersUnchanged(s, Apply(s, e));
      if e.EvPay? {
        PayKeepsMirrors(s, e.pid, e.now);
      } else {
        StepKeepsSettlement(s, e);
      }
    }
  }

  lemma PayKeepsMirrors(s: State, pid: Id, now: int)
    requires InvoicesMirror(s)
    ensures InvoicesMirror(Pay(s, pid, now).0)
  {
  }

  lemma CreateKeepsInvoices(s: State, pid: Id, iid: Id, dto: CreateDto, now: int, year: nat)
    requires InvoicesOk(s) && pid !in s.payments && iid !in s.invoices
    ensures InvoicesOk(Create(s, pid, iid, dto, now, year).0)
  {
  }

  lemma CreateKeepsOwners(s: State, pid: Id, iid: Id, dto: CreateDto, now: int, year: nat)
    requires AtMostOneInvoice(s) && pid !in s.payments && iid !in s.invoices
    ensures AtMostOneInvoice(Create(s, pid, iid, dto, now, year).0)
  {
  }

  lemma {:induction false} StepKeepsInvoiceTotals(s: State, e: Event)
    requires InvoiceTotalsOk(s) && Allowed(s, e)
    ensures InvoiceTotalsOk(Apply(s, e))
  {
    if e.EvCreate? {
      BilledTotalSign(OrZero(e.dto.amount), OrZero(e.dto.discountPercent), OrZero(e.dto.taxPercent));
    }
  }

  lemma StepKeepsDiscounts(s: State, e: Event)
    requires DiscountsOk(s) && Allowed(s, e)
    ensures DiscountsOk(Apply(s, e))
  {
  }

  /** A number drawn at the row count plus one is new. */
  lemma FreshInvoiceNumber(payments: map<Id, Payment>, pid: Id, p: Payment)
    requires InvoiceNumbersOk(payments) && pid !in payments && TrailingNumber(p.invoiceNumber) == |payments| + 1
    ensures InvoiceNumbersOk(payments[pid := p])
  {
  }

  lemma FreshStudentCode(students: map<Id, Student>, sid: Id, st: Student)
    requires StudentCodesOk(students) && sid !in students && TrailingNumber(st.studentCode) == |students| + 1
    ensures StudentCodesOk(students[sid := st])
  {
  }

  lemma {:induction false} SameInvoiceNumbers(m: map<Id, Payment>, n: map<Id, Payment>)
    requires InvoiceNumbersOk(m) && m.Keys == n.Keys
    requires forall pid :: pid in m ==> n[pid].invoiceNumber == m[pid].invoiceNumber
    ensures InvoiceNumbersOk(n)
  {
    SameKeysSameSize(m, n);
  }

  lemma {:induction false} SameStudentCodes(m: map<Id, Student>, n: map<Id, Student>)
    requires StudentCodesOk(m) && m.Keys == n.Keys
    requires forall sid :: sid in m ==> n[sid].studentCode == m[sid].studentCode
    ensures StudentCodesOk(n)
  {
    SameKeysSameSize(m, n);
  }

  lemma {:induction false} StepKeepsInvoiceNumbers(s: State, e: Event)
    requires InvoiceNumbersOk(s.payments) && Allowed(s, e)
    ensures InvoiceNumbersOk(Apply(s, e).payments)
  {
    if e.EvCreate? {
      CreateKeepsInvoiceNumbers(s, e);
    } else {
      StepKeepsBills(s, e);
      SameInvoiceNumbers(s.payments, Apply(s, e).payments);
    }
  }

  lemma {:induction false} CreateKeepsInvoiceNumbers(s: State, e: Event)
    requires InvoiceNumbersOk(s.payments) && Allowed(s, e) && e.EvCreate?
    ensures InvoiceNumbersOk(Apply(s, e).payments)
  {
    if e.dto.studentId in s.students {
      InvoiceNumberRoundTrip(e.year, |s.payments| + 1);
      FreshInvoiceNumber(s.payments, e.pid, Apply(s, e).payments[e.pid]);
    }
  }

  lemma {:induction false} StepKeepsStudentCodes(s: State, e: Event)
    requires StudentCodesOk(s.students)
    ensures StudentCodesOk(Apply(s, e).students)
  {
    if e.EvEnrol? {
      EnrolKeepsStudentCodes(s, e.sid);
    } else {
      StepKeepsCodes(s, e);
      SameStudentCodes(s.students, Apply(s, e).students);
    }
  }

  lemma {:induction false} EnrolKeepsStudentCodes(s: State, sid: Id)
    requires StudentCodesOk(s.students)
    ensures StudentCodesOk(Enrol(s, sid).students)
  {
    if sid !in s.students {
      StudentCodeRoundTrip(|s.students| + 1);
      FreshStudentCode(s.students, sid, Enrol(s, sid).students[sid]);
    }
  }

  lemma StepKeepsCodes(s: State, e: Event)
    requires !e.EvEnrol?
    ensures Apply(s, e).students.Keys == s.students.Keys
    ensures forall sid :: sid in s.students ==> Apply(s, e).students[sid].studentCode == s.students[sid].studentCode
  {
  }

  lemma {:induction false} SameKeysSameSize<K, V, W>(m: map<K, V>, n: map<K, W>)
    requires m.Keys == n.Keys
    ensures |m| == |n|
  {
    assert |m| == |m.Keys| && |n| == |n.Keys|;
  }

  /**
    In every reachable state: at most one invoice per payment, mirroring it; amounts and totals not negative; limits
    kept; the tenant's codes all different.
   */
  lemma {:induction false} RunIsConsistent(es: seq<Event>)
    requires Legal(es)
    ensures Consistent(Run(es))
  {
    if es != [] {
      var s, e := Run(Before(es)), Last(es);
      RunIsConsistent(Before(es));
      StepKeepsPayments(s, e);
      StepKeepsInvoices(s, e);
      StepKeepsInvoiceTotals(s, e);
      StepKeepsDiscounts(s, e);
      StepKeepsInvoiceNumbers(s, e);
      StepKeepsStudentCodes(s, e);
    }
  }

  lemma {:induction false} RunKeepsRows(es: seq<Event>)
    requires Legal(es)
    ensures PaymentsOk(Run(es)) && DiscountsOk(Run(es))
  {
    RunIsConsistent(es);
  }

  /** Codes are unique in every reachable state, whatever the years and however many digits they have. */
  lemma {:induction false} CodesAreUnique(es: seq<Event>)
    requires Legal(es)
    ensures forall p, q :: p in Run(es).payments && q in Run(es).payments && p != q ==>
              Run(es).payments[p].invoiceNumber != Run(es).payments[q].invoiceNumber
    ensures forall i, j :: i in Run(es).students && j in Run(es).students && i != j ==>
              Run(es).students[i].studentCode != Run(es).students[j].studentCode
  {
    RunIsConsistent(es);
  }

  // ----- invoice numbers across tenants -----

  /** The column is unique: the tenant's invoices have different numbers, none of them held by another tenant. */
  ghost predicate NumbersUnique(s: State) {
    && (forall i, j :: i in s.invoices && j in s.invoices && i != j ==>
          s.invoices[i].invoiceNumber != s.invoices[j].invoiceNumber)
    && (forall i :: i in s.invoices ==> !HeldElsewhere(s, s.invoices[i].invoiceNumber))
  }

  lemma {:induction false} StepKeepsNumbersUnique(s: State, e: Event)
    requires NumbersUnique(s) && InvoicesMirror(s)
    ensures NumbersUnique(Apply(s, e))
  {
    if e.EvCreate? {
      CreateKeepsNumbersUnique(s, e);
    } else if e.EvInvoiceElsewhere? {
      ElsewhereKeepsNumbersUnique(s, e.year, e.count);
    } else {
      StepKeepsNumbersOnInvoices(s, e);
    }
  }

  lemma StepKeepsNumbersOnInvoices(s: State, e: Event)
    requires !e.EvCreate? && !e.EvInvoiceElsewhere?
    ensures Apply(s, e).elsewhere == s.elsewhere && Apply(s, e).invoices.Keys == s.invoices.Keys
    ensures forall i :: i in s.invoices ==> Apply(s, e).invoices[i].invoiceNumber == s.invoices[i].invoiceNumber
  {
  }

  lemma CreateKeepsNumbersUnique(s: State, e: Event)
    requires NumbersUnique(s) && e.EvCreate?
    ensures NumbersUnique(Apply(s, e))
  {
  }

  lemma ElsewhereKeepsNumbersUnique(s: State, year: nat, count: nat)
    requires NumbersUnique(s)
    ensures NumbersUnique(InvoiceElsewhere(s, year, count))
  {
  }

  lemma {:induction false} RunKeepsNumbersUnique(es: seq<Event>)
    requires Legal(es)
    ensures NumbersUnique(Run(es))
  {
    if es != [] {
      RunKeepsNumbersUnique(Before(es));
      RunIsConsistent(Before(es));
      StepKeepsNumbersUnique(Run(Before(es)), Last(es));
    }
  }

  lemma {:induction false} HeldElsewhereIff(s: State, year: nat, count: nat)
    ensures HeldElsewhere(s, NumberOnInvoice(InvoiceNumber(year, count))) <==> (year, count) in s.elsewhere
  {
    forall d | d in s.elsewhere
      ensures NumberOnInvoice(InvoiceNumber(d.0, d.1)) == NumberOnInvoice(InvoiceNumber(year, count))
              <==> d == (year, count)
    {
      var n, m := InvoiceNumber(d.0, d.1), InvoiceNumber(year, count);
      assert n == NumberOnInvoice(n)[4..] && m == NumberOnInvoice(m)[4..];
      InvoiceNumberInjective(d.0, d.1, year, count);
    }
  }

  /** The tenant's own invoices never hold the next number: only another tenant's can. */
  lemma {:induction false} NextNumberIsNew(s: State, year: nat)
    requires InvoicesMirror(s) && InvoiceNumbersOk(s.payments)
    ensures !HeldHere(s, NumberOnInvoice(InvoiceNumber(year, |s.payments| + 1)))
  {
    var next := InvoiceNumber(year, |s.payments| + 1);
    InvoiceNumberRoundTrip(year, |s.payments| + 1);
    forall iid | iid in s.invoices ensures s.invoices[iid].invoiceNumber != NumberOnInvoice(next) {
      var number := s.payments[s.invoices[iid].paymentId].invoiceNumber;
      assert number == NumberOnInvoice(number)[4..] && next == NumberOnInvoice(next)[4..];
    }
  }

  /** create loses the invoice exactly when another tenant holds an invoice drawn in the same year at the same count. */
  ghost predicate Clashes(s: State, e: Event) {
    e.EvCreate? && e.dto.studentId in s.students && (e.year, |s.payments| + 1) in s.elsewhere
  }

  ghost predicate NeverClashes(es: seq<Event>) {
    es == [] || (NeverClashes(Before(es)) && !Clashes(Run(Before(es)), Last(es)))
  }

  ghost predicate AllInvoiced(s: State) {
    forall pid :: pid in s.payments ==> HasInvoice(s, pid)
  }

  lemma {:induction false} StepInvoicesIff(s: State, e: Event)
    requires InvoicesOk(s) && InvoiceNumbersOk(s.payments) && Allowed(s, e)
    ensures AllInvoiced(Apply(s, e)) <==> AllInvoiced(s) && !Clashes(s, e)
  {
    var t := Apply(s, e);
    if e.EvCreate? {
      if e.dto.studentId in s.students {
        NextNumberIsNew(s, e.year);
        HeldElsewhereIff(s, e.year, |s.payments| + 1);
        CreateInvoicesIff(s, e);
      }
    } else {
      StepKeepsBills(s, e);
      forall pid | pid in s.payments ensures HasInvoice(t, pid) <==> HasInvoice(s, pid) {
        SameOwnersSameInvoiced(s, t, pid);
      }
    }
  }

  lemma {:induction false} CreateInvoicesIff(s: State, e: Event)
    requires AtMostOneInvoice(s) && Allowed(s, e) && e.EvCreate? && e.dto.studentId in s.students
    ensures AllInvoiced(Apply(s, e))
            <==> AllInvoiced(s) && !NumberHeld(s, NumberOnInvoice(InvoiceNumber(e.year, |s.payments| + 1)))
  {
    var t := Apply(s, e);
    forall pid | pid in s.payments ensures HasInvoice(t, pid) <==> HasInvoice(s, pid) {
      if HasInvoice(s, pid) {
        var iid :| iid in s.invoices && s.invoices[iid].paymentId == pid;
        assert iid in t.invoices && t.invoices[iid].paymentId == pid;
      }
      if HasInvoice(t, pid) {
        var iid :| iid in t.invoices && t.invoices[iid].paymentId == pid;
        assert iid in s.invoices;
      }
    }
    if !NumberHeld(s, NumberOnInvoice(InvoiceNumber(e.year, |s.payments| + 1))) {
      assert e.iid in t.invoices && t.invoices[e.iid].paymentId == e.pid;
    } else {
      assert t.invoices == s.invoices && !HasInvoice(t, e.pid);
    }
  }

  /**
    Every payment of the tenant has its one invoice exactly in runs where no create drew a year and count that an
    invoice of another tenant was drawn from.
   */
  lemma {:induction false} EveryPaymentInvoicedIff(es: seq<Event>)
    requires Legal(es)
    ensures AllInvoiced(Run(es)) <==> NeverClashes(es)
  {
    if es != [] {
      EveryPaymentInvoicedIff(Before(es));
      RunIsConsistent(Before(es));
      StepInvoicesIff(Run(Before(es)), Last(es));
    }
  }
}
