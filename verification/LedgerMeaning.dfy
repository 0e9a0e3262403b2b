/**
  What each endpoint reads and writes, column by column and with the numbers written out. The other ledger modules
  speak through the functions of LedgerModel; these lemmas say what those functions amount to.
 */
module LedgerMeaning {
  import opened Common
  import opened MapSums
  import opened LedgerModel
  import opened LedgerInvariants
  import opened LedgerOverdue
  import opened SequenceCodes

  // ----- enrol -----

  /** A new student gets the code of the next count and no debt; an enrolled one stays as it is. */
  lemma {:induction false} EnrolMeans(s: State, sid: Id)
    ensures var t := Enrol(s, sid);
            if sid in s.students then t == s
            else
              && sid in t.students && t == s.(students := s.students[sid := t.students[sid]])
              && TrailingNumber(t.students[sid].studentCode) == |s.students| + 1
              && t.students[sid].debtAmount == 0.0 && t.students[sid].totalPaid == 0.0
  {
    StudentCodeRoundTrip(|s.students| + 1);
  }

  // ----- create -----

  /** The payment billed by create: percentages are of the amount, and nothing is paid or refunded yet. */
  ghost predicate BilledAs(p: Payment, dto: CreateDto) {
    && p.studentId == dto.studentId && p.courseId == dto.courseId && p.dueDate == dto.dueDate
    && p.amount == (match dto.amount case Some(x) => x case None => 0.0)
    && p.discountPercent == (match dto.discountPercent case Some(x) => x case None => 0.0)
    && p.taxPercent == (match dto.taxPercent case Some(x) => x case None => 0.0)
    && 100.0 * p.discountAmount == p.amount * p.discountPercent
    && 100.0 * p.taxAmount == p.amount * p.taxPercent
    && p.totalAmount == p.amount - p.discountAmount + p.taxAmount
    && p.status == Pending && p.paidAt == None && p.refundedAmount == 0.0 && p.refundedAt == None
  }

  /** The invoice copies the payment's figures and is due on its date, or 30 days (2592000000 ms) from now. */
  ghost predicate InvoicedAs(inv: Invoice, pid: Id, p: Payment, now: int) {
    && inv.paymentId == pid && inv.studentId == p.studentId && inv.invoiceNumber == "INV-" + p.invoiceNumber
    && inv.issuedAt == now && inv.status == Sent
    && inv.dueDate == (match p.dueDate case Some(due) => due case None => now + 2592000000)
    && inv.subtotal == p.amount && inv.discountAmount == p.discountAmount
    && inv.taxAmount == p.taxAmount && inv.totalAmount == p.totalAmount
  }

  lemma {:induction false} CreateMeans(s: State, pid: Id, iid: Id, dto: CreateDto, now: int, year: nat)
    ensures var (t, r) := Create(s, pid, iid, dto, now, year);
            if dto.studentId !in s.students then t == s && r == Err(UnknownStudent)
            else
              && pid in t.payments && t.payments == s.payments[pid := t.payments[pid]]
              && BilledAs(t.payments[pid], dto)
              && TrailingNumber(t.payments[pid].invoiceNumber) == |s.payments| + 1
              && t.students == s.students && t.discounts == s.discounts && t.elsewhere == s.elsewhere
              && (r == Ok(t.payments[pid]) || (r == Err(InvoiceNumberTaken) && t.invoices == s.invoices))
              && (r.Ok? ==>
                    && iid in t.invoices && t.invoices == s.invoices[iid := t.invoices[iid]]
                    && InvoicedAs(t.invoices[iid], pid, t.payments[pid], now))
  {
    InvoiceNumberRoundTrip(year, |s.payments| + 1);
    BillMeans(dto, InvoiceNumber(year, |s.payments| + 1));
  }

  lemma BillMeans(dto: CreateDto, invoiceNumber: string)
    ensures BilledAs(Bill(dto, invoiceNumber), dto) && Bill(dto, invoiceNumber).invoiceNumber == invoiceNumber
  {
  }

  /** The create succeeds exactly when the student is known and no stored invoice, here or elsewhere, has the number. */
  lemma {:induction false} CreateSucceedsIff(s: State, pid: Id, iid: Id, dto: CreateDto, now: int, year: nat)
    ensures Create(s, pid, iid, dto, now, year).1.Ok? <==>
              && dto.studentId in s.students
              && (year, |s.payments| + 1) !in s.elsewhere
              && forall i :: i in s.invoices ==>
                   s.invoices[i].invoiceNumber != "INV-" + InvoiceNumber(year, |s.payments| + 1)
  {
    HeldElsewhereIff(s, year, |s.payments| + 1);
  }

  // ----- pay and refund -----

  /** Everything but PAID can be paid; one student is credited, with the debt cut at 0, and the invoices are closed. */
  lemma {:induction false} PayMeans(s: State, pid: Id, now: int)
    ensures var (t, r) := Pay(s, pid, now);
            if pid !in s.payments then t == s && r == Err(PaymentNotFound)
            else if s.payments[pid].status == Paid then t == s && r == Err(AlreadyPaid)
            else
              var p := s.payments[pid];
              && r == Ok(p.invoiceNumber)
              && t.payments == s.payments[pid := p.(status := Paid, paidAt := Some(now))]
              && t.students.Keys == s.students.Keys && t.invoices.Keys == s.invoices.Keys
              && t.discounts == s.discounts && t.elsewhere == s.elsewhere
  {
  }

  lemma {:induction false} PayCreditsStudent(s: State, pid: Id, now: int, sid: Id)
    requires pid in s.payments && s.payments[pid].status != Paid && sid in s.students
    ensures var t := Pay(s, pid, now).0; var p := s.payments[pid]; var before := s.students[sid];
            && sid in t.students
            && var after := t.students[sid];
               && after.studentCode == before.studentCode
               && (sid != p.studentId ==> after == before)
               && (sid == p.studentId ==>
                     && after.totalPaid == before.totalPaid + p.totalAmount
                     && after.debtAmount >= 0.0 && after.debtAmount >= before.debtAmount - p.totalAmount
                     && (after.debtAmount == 0.0 || after.debtAmount == before.debtAmount - p.totalAmount))
  {
  }

  lemma {:induction false} PayClosesInvoices(s: State, pid: Id, now: int, iid: Id)
    requires pid in s.payments && s.payments[pid].status != Paid && iid in s.invoices
    ensures var t := Pay(s, pid, now).0; var before := s.invoices[iid];
            && iid in t.invoices
            && t.invoices[iid] == if before.paymentId == pid then before.(status := InvoicePaid) else before
  {
  }

  /** Only PAID can be refunded, by default in full; the amount is recorded and returned, totals and invoices stay. */
  lemma {:induction false} RefundMeans(s: State, pid: Id, amount: Option<real>, now: int)
    ensures var (t, r) := Refund(s, pid, amount, now);
            if pid !in s.payments then t == s && r == Err(PaymentNotFound)
            else if s.payments[pid].status != Paid then t == s && r == Err(NotPaid)
            else
              var back := match amount case Some(x) => x case None => s.payments[pid].totalAmount;
              && r == Ok(back)
              && pid in t.payments && t == s.(payments := s.payments[pid := t.payments[pid]])
              && t.payments[pid].status == Refunded
              && t.payments[pid].refundedAmount == back && t.payments[pid].refundedAt == Some(now)
              && t.payments[pid] == s.payments[pid].(status := Refunded, refundedAmount := back,
                                                     refundedAt := Some(now))
  {
  }

  // ----- discounts -----

  lemma {:induction false} CreateDiscountMeans(s: State, code: string, d: Discount)
    ensures var (t, r) := CreateDiscount(s, code, d);
            if code in s.discounts then t == s && r == Err(DuplicateCode)
            else
              && code in t.discounts && t == s.(discounts := s.discounts[code := t.discounts[code]])
              && r == Ok(t.discounts[code])
              && t.discounts[code].isActive && t.discounts[code].usedCount == 0
              && t.discounts[code].kind == d.kind && t.discounts[code].value == d.value
              && t.discounts[code].validUntil == d.validUntil && t.discounts[code].maxUses == d.maxUses
              && t.discounts[code].applicableCourseIds == d.applicableCourseIds
  {
  }

  /** A code is usable at its last moment, below its limit, and for a request that names no course. */
  lemma {:induction false} DiscountAcceptedIff(s: State, dto: DiscountDto, now: int)
    ensures ApplyDiscount(s, dto, now).1.Ok? <==>
              && dto.code in s.discounts && dto.paymentId in s.payments
              && var d := s.discounts[dto.code];
                 && d.isActive
                 && (d.validUntil.Some? ==> now <= d.validUntil.value)
                 && (d.maxUses.Some? ==> d.usedCount < d.maxUses.value)
                 && (d.applicableCourseIds.Some? && dto.courseId.Some? ==>
                       dto.courseId.value in d.applicableCourseIds.value)
    ensures ApplyDiscount(s, dto, now).1.Err? ==> ApplyDiscount(s, dto, now).0 == s
  {
  }

  /** Each error means that its check fails and the ones before it pass. */
  lemma {:induction false} DiscountErrorsInOrder(s: State, dto: DiscountDto, now: int)
    ensures var r := ApplyDiscount(s, dto, now).1;
            && (r == Err(InvalidCode) <==> (dto.code in s.discounts ==> !s.discounts[dto.code].isActive))
            && (r.Ok? || r == Err(InvalidCode) || r == Err(CodeExpired) || r == Err(UsageLimitReached)
                || r == Err(NotApplicable) || r == Err(PaymentNotFound))
            && (r != Err(InvalidCode) ==>
                  var d := s.discounts[dto.code];
                  var expired := d.validUntil.Some? && d.validUntil.value < now;
                  var usedUp := d.maxUses.Some? && d.maxUses.value <= d.usedCount;
                  var otherCourse := d.applicableCourseIds.Some? && dto.courseId.Some?
                                     && dto.courseId.value !in d.applicableCourseIds.value;
                  && (r == Err(CodeExpired) <==> expired)
                  && (r == Err(UsageLimitReached) <==> !expired && usedUp)
                  && (r == Err(NotApplicable) <==> !expired && !usedUp && otherCourse)
                  && (r == Err(PaymentNotFound) <==>
                        !expired && !usedUp && !otherCourse && dto.paymentId !in s.payments))
  {
  }

  /** A percentage is of the payment's amount, a fixed value is taken as it is, and the total is cut at 0. */
  lemma {:induction false} DiscountMeans(s: State, dto: DiscountDto, now: int)
    requires ApplyDiscount(s, dto, now).1.Ok?
    ensures dto.code in s.discounts && dto.paymentId in s.payments
    ensures var (t, r) := ApplyDiscount(s, dto, now); var d := s.discounts[dto.code];
            var p := s.payments[dto.paymentId]; var off := r.value.discountAmount; var total := r.value.newTotal;
            && (d.kind == Percentage ==> 100.0 * off == p.amount * d.value)
            && (d.kind == Fixed ==> off == d.value)
            && (if off <= p.totalAmount then total == p.totalAmount - off else total == 0.0)
            && t == s.(payments := s.payments[dto.paymentId := p.(discountAmount := off, totalAmount := total)],
                       discounts := s.discounts[dto.code := d.(usedCount := d.usedCount + 1)])
  {
  }

  // ----- debt and the overdue job -----

  /** What a student owes: the totals of the PENDING and OVERDUE payments. */
  lemma {:induction false} OwedIs(s: State, sid: Id)
    ensures Owed(s, sid)
            == Sum(s.payments, (p: Payment) =>
                     if p.studentId == sid && (p.status == Pending || p.status == Overdue) then p.totalAmount else 0.0)
  {
    var w := (p: Payment) =>
      if p.studentId == sid && (p.status == Pending || p.status == Overdue) then p.totalAmount else 0.0;
    SumCongruent(s.payments, s.payments, OwedWeight(sid), w);
  }

  /** The job marks exactly the pending payments whose due date is set and past; every other row stays as it is. */
  lemma {:induction false} OverdueMarksExactly(s: State, now: int, pid: Id)
    requires pid in s.payments
    ensures pid in OverdueJob(s, now).payments
    ensures var p := s.payments[pid]; var q := OverdueJob(s, now).payments[pid];
            && (q.status == Overdue && p.status != Overdue <==>
                  p.status == Pending && exists d :: p.dueDate == Some(d) && d < now)
            && (q == p || q == p.(status := Overdue))
            && (p.dueDate == None ==> q == p)
            && (p.status != Pending ==> q == p)
  {
    var p := s.payments[pid];
    if p.status == Pending && p.dueDate.Some? && p.dueDate.value < now {
      assert p.dueDate == Some(p.dueDate.value);
    }
  }

  /** So no student's debt is rewritten unless one of their payments is marked. */
  lemma {:induction false} OverdueStoresDebtIff(s: State, now: int, sid: Id)
    requires sid in s.students
    ensures sid in OverdueJob(s, now).students
    ensures var marked := exists pid :: pid in s.payments && s.payments[pid].studentId == sid
                                        && s.payments[pid].status == Pending && s.payments[pid].dueDate.Some?
                                        && s.payments[pid].dueDate.value < now;
            OverdueJob(s, now).students[sid]
            == if marked then s.students[sid].(debtAmount := Owed(s, sid)) else s.students[sid]
  {
    var ids := DueIds(s, now);
    if pid :| pid in s.payments && s.payments[pid].studentId == sid && s.payments[pid].status == Pending
              && s.payments[pid].dueDate.Some? && s.payments[pid].dueDate.value < now {
      assert pid in ids;
      assert Touched(s, ids, sid);
    }
  }
}
