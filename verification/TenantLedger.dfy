/**
  The endpoints of PaymentsService, the debt recomputation of StudentsRepository and the overdue job of
  SchedulerService as methods over the tables of one tenant, statement by statement as the source writes them.
  Each is proved to leave the state its function in LedgerModel describes.
 */
module TenantLedger {
  import opened Common
  import opened MapSums
  import opened LedgerModel
  import opened LedgerOverdue
  import opened LedgerInvariants
  import SequenceCodes

  class Tables {
    var students: map<Id, Student>
    var payments: map<Id, Payment>
    var invoices: map<Id, Invoice>
    var discounts: map<string, Discount>
    var elsewhere: set<(nat, nat)>   // drawn numbers of the invoices of other tenants

    function View(): State
      reads this
    {
      State(students, payments, invoices, discounts, elsewhere)
    }

    constructor ()
      ensures View() == NO_ROWS
    {
      students, payments, invoices, discounts, elsewhere := map[], map[], map[], map[], {};
    }

    method EnrolStudent(sid: Id)
      requires sid !in students
      modifies this
      ensures View() == Enrol(old(View()), sid)
    {
      var count := |students| + 1;
      students := students[sid := Student(SequenceCodes.StudentCode(count), 0.0, 0.0)];
    }

    /** The number tells the count it was drawn at, and no payment of the tenant has it yet. */
    method GetNextInvoiceNumber(year: nat) returns (number: string)
      ensures SequenceCodes.TrailingNumber(number) == |payments| + 1
      ensures number == SequenceCodes.InvoiceNumber(year, |payments| + 1)
      ensures InvoiceNumbersOk(payments) ==> forall pid :: pid in payments ==> payments[pid].invoiceNumber != number
    {
      var count := |payments| + 1;
      number := "INV-" + SequenceCodes.Decimal(year) + "-" + SequenceCodes.PadStart(SequenceCodes.Decimal(count), 6);
      SequenceCodes.InvoiceNumberRoundTrip(year, count);
    }

    method CreatePayment(pid: Id, iid: Id, dto: CreateDto, now: int, year: nat) returns (r: Result<Payment, Error>)
      requires pid !in payments && iid !in invoices
      modifies this
      ensures (View(), r) == Create(old(View()), pid, iid, dto, now, year)
    {
      var invoiceNumber := GetNextInvoiceNumber(year);
      var amount := OrZero(dto.amount);
      var taxPercent := OrZero(dto.taxPercent);
      var discountPercent := OrZero(dto.discountPercent);
      var discountAmount := if discountPercent != 0.0 then amount * discountPercent / 100.0 else 0.0;
      var taxAmount := if taxPercent != 0.0 then amount * taxPercent / 100.0 else 0.0;
      assert discountAmount == PercentOf(amount, discountPercent) && taxAmount == PercentOf(amount, taxPercent);
      var totalAmount := amount - discountAmount + taxAmount;
      if dto.studentId !in students {
        return Err(UnknownStudent);
      }
      var saved := Payment(dto.studentId, dto.courseId, invoiceNumber, amount, discountPercent, discountAmount,
                           taxPercent, taxAmount, totalAmount, Pending, dto.dueDate, None, 0.0, None);
      assert saved == Bill(dto, invoiceNumber);
      payments := payments[pid := saved];
      var stored := CreateInvoice(pid, iid, saved, now);
      r := if stored then Ok(saved) else Err(InvoiceNumberTaken);
    }

    /** The insert fails when the number is taken, by this or another tenant. */
    method CreateInvoice(pid: Id, iid: Id, payment: Payment, now: int) returns (stored: bool)
      modifies this`invoices
      ensures stored <==> !NumberHeld(old(View()), NumberOnInvoice(payment.invoiceNumber))
      ensures invoices == if stored then old(invoices)[iid := IssueInvoice(pid, payment, now)] else old(invoices)
    {
      var dueDate := now + THIRTY_DAYS;
      if payment.dueDate.Some? {
        dueDate := payment.dueDate.value;
      }
      var invoice := Invoice(pid, payment.studentId, "INV-" + payment.invoiceNumber, now, dueDate,
                             payment.amount, payment.discountAmount, payment.taxAmount, payment.totalAmount, Sent);
      stored := !NumberHeld(View(), invoice.invoiceNumber);
      if stored {
        invoices := invoices[iid := invoice];
      }
    }

    method PayPayment(pid: Id, now: int) returns (r: Result<string, Error>)
      modifies this
      ensures (View(), r) == Pay(old(View()), pid, now)
    {
      if pid !in payments {
        return Err(PaymentNotFound);
      }
      var payment := payments[pid];
      if payment.status == Paid {
        return Err(AlreadyPaid);
      }
      payments := payments[pid := payment.(status := Paid, paidAt := Some(now))];
      if payment.studentId in students {
        var st := students[payment.studentId];
        var debt := if st.debtAmount - payment.totalAmount > 0.0 then st.debtAmount - payment.totalAmount else 0.0;
        var paid := st.totalPaid + payment.totalAmount;
        students := students[payment.studentId := st.(totalPaid := paid, debtAmount := debt)];
      }
      invoices := map i | i in invoices ::
        if invoices[i].paymentId == pid then invoices[i].(status := InvoicePaid) else invoices[i];
      r := Ok(payment.invoiceNumber);
    }

    method RefundPayment(pid: Id, amount: Option<real>, now: int) returns (r: Result<real, Error>)
      modifies this`payments
      ensures (View(), r) == Refund(old(View()), pid, amount, now)
    {
      if pid !in payments {
        return Err(PaymentNotFound);
      }
      var payment := payments[pid];
      if payment.status != Paid {
        return Err(NotPaid);
      }
      var refundAmount := payment.totalAmount;
      if amount.Some? {
        refundAmount := amount.value;
      }
      var refunded := payment.(status := Refunded, refundedAmount := refundAmount, refundedAt := Some(now));
      payments := payments[pid := refunded];
      r := Ok(refundAmount);
    }

    method CreateDiscountCode(code: string, dto: Discount) returns (r: Result<Discount, Error>)
      modifies this`discounts
      ensures (View(), r) == CreateDiscount(old(View()), code, dto)
    {
      if code in discounts {
        return Err(DuplicateCode);
      }
      var discount := dto.(usedCount := 0, isActive := true);
      discounts := discounts[code := discount];
      r := Ok(discount);
    }

    method ApplyDiscountCode(dto: DiscountDto, now: int) returns (r: Result<Applied, Error>)
      modifies this
      ensures (View(), r) == ApplyDiscount(old(View()), dto, now)
    {
      if dto.code !in discounts || !discounts[dto.code].isActive {
        return Err(InvalidCode);
      }
      var discount := discounts[dto.code];
      if discount.validUntil.Some? && discount.validUntil.value < now {
        return Err(CodeExpired);
      }
      if discount.maxUses.Some? && discount.usedCount >= discount.maxUses.value {
        return Err(UsageLimitReached);
      }
      if discount.applicableCourseIds.Some? && dto.courseId.Some? {
        if dto.courseId.value !in discount.applicableCourseIds.value {
          return Err(NotApplicable);
        }
      }
      if dto.paymentId !in payments {
        return Err(PaymentNotFound);
      }
      var payment := payments[dto.paymentId];
      var discountAmount := discount.value;
      if discount.kind == Percentage {
        discountAmount := payment.amount * discount.value / 100.0;
      }
      assert discountAmount == DiscountOn(discount, payment);
      var newTotal := Max(0.0, payment.totalAmount - discountAmount);
      payments := payments[dto.paymentId := payment.(discountAmount := discountAmount, totalAmount := newTotal)];
      discounts := discounts[dto.code := discount.(usedCount := discount.usedCount + 1)];
      r := Ok(Applied(discountAmount, newTotal));
    }

    /** SELECT SUM(total_amount) over the student's pending and overdue payments. */
    method QueryOwed(sid: Id) returns (debt: real)
      ensures debt == Owed(View(), sid)
    {
      debt := 0.0;
      var rest := payments;
      while rest != map[]
        invariant debt + Sum(rest, OwedWeight(sid)) == Sum(payments, OwedWeight(sid))
        decreases |rest|
      {
        var pid :| pid in rest;
        SumPick(rest, pid, OwedWeight(sid));
        var p := rest[pid];
        if p.studentId == sid && (p.status == Pending || p.status == Overdue) {
          debt := debt + p.totalAmount;
        }
        rest := rest - {pid};
      }
    }

    method UpdateDebtAmount(sid: Id)
      modifies this`students
      ensures View() == RecomputeDebt(old(View()), sid)
    {
      var debt := QueryOwed(sid);
      if sid in students {
        students := students[sid := students[sid].(debtAmount := debt)];
      }
    }

    /** The pending payments whose due date has passed, in an order the database chooses. */
    method FindDue(now: int) returns (rows: seq<Id>)
      ensures Enumerates(rows, DueIds(View(), now))
      ensures forall i, j :: 0 <= i < j < |rows| ==> rows[i] != rows[j]
      ensures forall pid :: pid in rows <==>
                && pid in payments && payments[pid].status == Pending
                && payments[pid].dueDate.Some? && payments[pid].dueDate.value < now
    {
      rows := [];
      var rest := set pid | pid in payments && Due(payments[pid], now);
      ghost var all := rest;
      while rest != {}
        invariant rest <= all && Distinct(rows) && ToSet(rows) == all - rest
        decreases |rest|
      {
        var pid :| pid in rest;
        OneMoreRow(rows, pid);
        rows := rows + [pid];
        rest := rest - {pid};
      }
      assert forall pid :: pid in rows <==> pid in ToSet(rows);
    }

    /** The body of the job's loop. */
    method MarkOverdue(pid: Id)
      requires pid in payments
      modifies this
      ensures View() == FlipOne(old(View()), pid)
    {
      var payment := payments[pid];
      payments := payments[pid := payment.(status := Overdue)];
      var debt := QueryOwed(payment.studentId);
      if payment.studentId in students {
        students := students[payment.studentId := students[payment.studentId].(debtAmount := debt)];
      }
    }

    method ProcessOverduePayments(now: int)
      modifies this
      ensures View() == OverdueJob(old(View()), now)
    {
      var overduePayments := FindDue(now);
      ghost var start := View();
      FlipNothing(start);
      for k := 0 to |overduePayments|
        invariant View() == FlipSet(start, ToSet(overduePayments[..k]))
      {
        NextIteration(start, overduePayments, k);
        MarkOverdue(overduePayments[k]);
      }
      assert overduePayments[..|overduePayments|] == overduePayments;
    }
  }
}
