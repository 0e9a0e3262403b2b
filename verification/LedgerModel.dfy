/**
  The payments ledger of one tenant: its tables and, for every endpoint, the state it leaves.
  The classes in TenantLedger.dfy are proved against these functions; what they keep over
  whole runs is proved in LedgerInvariants.dfy and LedgerHistory.dfy.
 */
module LedgerModel {
  import opened Common
  import opened MapSums
  import SequenceCodes

  datatype PaymentStatus = Pending | Paid | Failed | Refunded | Cancelled | Overdue

  datatype InvoiceStatus = Draft | Sent | InvoicePaid | InvoiceCancelled

  datatype DiscountType = Percentage | Fixed

  datatype Student = Student(studentCode: string, debtAmount: real, totalPaid: real)

  datatype Payment = Payment(
    studentId: Id,
    courseId: Option<Id>,
    invoiceNumber: string,
    amount: real,
    discountPercent: real,
    discountAmount: real,
    taxPercent: real,
    taxAmount: real,
    totalAmount: real,
    status: PaymentStatus,
    dueDate: Option<int>,
    paidAt: Option<int>,
    refundedAmount: real,
    refundedAt: Option<int>)

  datatype Invoice = Invoice(
    paymentId: Id,
    studentId: Id,
    invoiceNumber: string,
    issuedAt: int,
    dueDate: int,
    subtotal: real,
    discountAmount: real,
    taxAmount: real,
    totalAmount: real,
    status: InvoiceStatus)

  datatype Discount = Discount(
    kind: DiscountType,
    value: real,
    validUntil: Option<int>,
    maxUses: Option<int>,
    usedCount: nat,
    isActive: bool,
    applicableCourseIds: Option<seq<Id>>)

  /**
    The tenant's own rows, and what matters here of the others': the year and count from which the numbers of
    their invoices were drawn. The invoice number column is unique over all tenants; the counts are per tenant.
   */
  datatype State = State(
    students: map<Id, Student>,
    payments: map<Id, Payment>,
    invoices: map<Id, Invoice>,
    discounts: map<string, Discount>,
    elsewhere: set<(nat, nat)>)

  datatype Error =
    | UnknownStudent | InvoiceNumberTaken | PaymentNotFound | AlreadyPaid | NotPaid
    | InvalidCode | CodeExpired | UsageLimitReached | NotApplicable | DuplicateCode

  datatype CreateDto = CreateDto(
    studentId: Id,
    courseId: Option<Id>,
    amount: Option<real>,
    discountPercent: Option<real>,
    taxPercent: Option<real>,
    dueDate: Option<int>)

  datatype DiscountDto = DiscountDto(code: string, paymentId: Id, courseId: Option<Id>)

  datatype Applied = Applied(discountAmount: real, newTotal: real)

  const THIRTY_DAYS := 30 * 24 * 60 * 60 * 1000

  const NO_ROWS := State(map[], map[], map[], map[], {})

  // ----- amounts -----

  function PercentOf(amount: real, percent: real): real {
    amount * percent / 100.0
  }

  function OrZero(x: Option<real>): real {
    if x.Some? then x.value else 0.0
  }

  /** amount - discount + tax, as create computes it. */
  function BilledTotal(amount: real, discountPercent: real, taxPercent: real): real {
    amount - PercentOf(amount, discountPercent) + PercentOf(amount, taxPercent)
  }

  function DiscountOn(d: Discount, p: Payment): real {
    if d.kind.Percentage? then PercentOf(p.amount, d.value) else d.value
  }

  // ----- what a payment row contributes to the per-student figures -----

  predicate Outstanding(p: Payment) {
    p.status.Pending? || p.status.Overdue?
  }

  predicate Settled(p: Payment) {
    p.status.Paid? || p.status.Refunded?
  }

  ghost function OwedWeight(sid: Id): Payment -> real {
    (p: Payment) => if p.studentId == sid && Outstanding(p) then p.totalAmount else 0.0
  }

  ghost function SettledWeight(sid: Id): Payment -> real {
    (p: Payment) => if p.studentId == sid && Settled(p) then p.totalAmount else 0.0
  }

  ghost function PaidWeight(sid: Id): Payment -> real {
    (p: Payment) => if p.studentId == sid && p.status.Paid? then p.totalAmount else 0.0
  }

  ghost function RefundedWeight(sid: Id): Payment -> real {
    (p: Payment) => if p.studentId == sid && p.status.Refunded? then p.totalAmount else 0.0
  }

  /** The sum that the overdue job and updateDebtAmount read. */
  ghost function Owed(s: State, sid: Id): real {
    Sum(s.payments, OwedWeight(sid))
  }

  ghost function SettledSum(s: State, sid: Id): real {
    Sum(s.payments, SettledWeight(sid))
  }

  // ----- endpoints -----

  /** StudentsService.create, as far as the ledger is concerned. */
  function Enrol(s: State, sid: Id): State {
    if sid in s.students then s
    else s.(students := s.students[sid := Student(SequenceCodes.StudentCode(|s.students| + 1), 0.0, 0.0)])
  }

  function Bill(dto: CreateDto, invoiceNumber: string): Payment {
    var amount, tax, off := OrZero(dto.amount), OrZero(dto.taxPercent), OrZero(dto.discountPercent);
    Payment(dto.studentId, dto.courseId, invoiceNumber, amount,
            off, PercentOf(amount, off), tax, PercentOf(amount, tax), BilledTotal(amount, off, tax),
            Pending, dto.dueDate, None, 0.0, None)
  }

  /** INV-<number of the payment> */
  function NumberOnInvoice(paymentNumber: string): string {
    "INV-" + paymentNumber
  }

  function IssueInvoice(pid: Id, p: Payment, now: int): Invoice {
    Invoice(pid, p.studentId, NumberOnInvoice(p.invoiceNumber), now,
            if p.dueDate.Some? then p.dueDate.value else now + THIRTY_DAYS,
            p.amount, p.discountAmount, p.taxAmount, p.totalAmount, Sent)
  }

  predicate HeldHere(s: State, number: string) {
    exists iid :: iid in s.invoices && s.invoices[iid].invoiceNumber == number
  }

  predicate HeldElsewhere(s: State, number: string) {
    exists d :: d in s.elsewhere && NumberOnInvoice(SequenceCodes.InvoiceNumber(d.0, d.1)) == number
  }

  /** The unique index over the invoices of all tenants. */
  predicate NumberHeld(s: State, number: string) {
    HeldHere(s, number) || HeldElsewhere(s, number)
  }

  /**
    The row ids pid and iid are generated by the database; the foreign key refuses unknown students. The two
    inserts are not one transaction: when the invoice's number is taken, the payment stays without an invoice.
   */
  function Create(s: State, pid: Id, iid: Id, dto: CreateDto, now: int, year: nat): (State, Result<Payment, Error>) {
    if dto.studentId !in s.students then (s, Err(UnknownStudent))
    else
      var p := Bill(dto, SequenceCodes.InvoiceNumber(year, |s.payments| + 1));
      var saved := s.(payments := s.payments[pid := p]);
      if NumberHeld(s, NumberOnInvoice(p.invoiceNumber)) then (saved, Err(InvoiceNumberTaken))
      else (saved.(invoices := s.invoices[iid := IssueInvoice(pid, p, now)]), Ok(p))
  }

  /** Another tenant stores an invoice whose number was drawn in this year at this count; the index may refuse it. */
  function InvoiceElsewhere(s: State, year: nat, count: nat): State {
    if NumberHeld(s, NumberOnInvoice(SequenceCodes.InvoiceNumber(year, count))) then s
    else s.(elsewhere := s.elsewhere + {(year, count)})
  }

  function Credit(st: Student, amount: real): Student {
    st.(totalPaid := st.totalPaid + amount, debtAmount := Max(0.0, st.debtAmount - amount))
  }

  function CreditStudent(students: map<Id, Student>, sid: Id, amount: real): map<Id, Student> {
    if sid in students then students[sid := Credit(students[sid], amount)] else students
  }

  function MarkInvoicesPaid(invoices: map<Id, Invoice>, pid: Id): map<Id, Invoice> {
    map i | i in invoices ::
      if invoices[i].paymentId == pid then invoices[i].(status := InvoicePaid) else invoices[i]
  }

  /** Only PAID is refused: a refunded payment can be paid again. */
  function Pay(s: State, pid: Id, now: int): (State, Result<string, Error>) {
    if pid !in s.payments then (s, Err(PaymentNotFound))
    else if s.payments[pid].status.Paid? then (s, Err(AlreadyPaid))
    else
      var p := s.payments[pid];
      (s.(payments := s.payments[pid := p.(status := Paid, paidAt := Some(now))],
          students := CreditStudent(s.students, p.studentId, p.totalAmount),
          invoices := MarkInvoicesPaid(s.invoices, pid)),
       Ok(p.invoiceNumber))
  }

  function Refund(s: State, pid: Id, amount: Option<real>, now: int): (State, Result<real, Error>) {
    if pid !in s.payments then (s, Err(PaymentNotFound))
    else if !s.payments[pid].status.Paid? then (s, Err(NotPaid))
    else
      var p := s.payments[pid];
      var back := if amount.Some? then amount.value else p.totalAmount;
      (s.(payments := s.payments[pid := p.(status := Refunded, refundedAmount := back, refundedAt := Some(now))]),
       Ok(back))
  }

  function CreateDiscount(s: State, code: string, d: Discount): (State, Result<Discount, Error>) {
    if code in s.discounts then (s, Err(DuplicateCode))
    else
      var row := d.(usedCount := 0, isActive := true);
      (s.(discounts := s.discounts[code := row]), Ok(row))
  }

  /** The checks of applyDiscount in the order the code makes them. */
  function DiscountError(s: State, dto: DiscountDto, now: int): Option<Error> {
    if dto.code !in s.discounts || !s.discounts[dto.code].isActive then Some(InvalidCode)
    else
      var d := s.discounts[dto.code];
      if d.validUntil.Some? && d.validUntil.value < now then Some(CodeExpired)
      else if d.maxUses.Some? && d.usedCount >= d.maxUses.value then Some(UsageLimitReached)
      else if d.applicableCourseIds.Some? && dto.courseId.Some? && dto.courseId.value !in d.applicableCourseIds.value
        then Some(NotApplicable)
      else if dto.paymentId !in s.payments then Some(PaymentNotFound)
      else None
  }

  function ApplyDiscount(s: State, dto: DiscountDto, now: int): (State, Result<Applied, Error>) {
    match DiscountError(s, dto, now)
    case Some(e) => (s, Err(e))
    case None =>
      var d, p := s.discounts[dto.code], s.payments[dto.paymentId];
      var off := DiscountOn(d, p);
      var total := Max(0.0, p.totalAmount - off);
      (s.(payments := s.payments[dto.paymentId := p.(discountAmount := off, totalAmount := total)],
          discounts := s.discounts[dto.code := d.(usedCount := d.usedCount + 1)]),
       Ok(Applied(off, total)))
  }

  // ----- debt recomputation -----

  /** StudentsRepository.updateDebtAmount */
  ghost function RecomputeDebt(s: State, sid: Id): State {
    if sid !in s.students then s
    else s.(students := s.students[sid := s.students[sid].(debtAmount := Owed(s, sid))])
  }

  predicate Due(p: Payment, now: int) {
    p.status.Pending? && p.dueDate.Some? && p.dueDate.value < now
  }

  function DueIds(s: State, now: int): set<Id> {
    set pid | pid in s.payments && Due(s.payments[pid], now)
  }

  function FlipStatus(s: State, pid: Id): State
    requires pid in s.payments
  {
    s.(payments := s.payments[pid := s.payments[pid].(status := Overdue)])
  }

  /** One iteration of the overdue job: flip one payment, then store its student's recomputed debt. */
  ghost function FlipOne(s: State, pid: Id): State
    requires pid in s.payments
  {
    RecomputeDebt(FlipStatus(s, pid), s.payments[pid].studentId)
  }

  ghost predicate Touched(s: State, ids: set<Id>, sid: Id) {
    exists pid :: pid in ids && pid in s.payments && s.payments[pid].studentId == sid
  }

  /** The overdue job on a set of payments, with no processing order in it. */
  ghost function FlipSet(s: State, ids: set<Id>): State {
    s.(payments := map pid | pid in s.payments ::
                     if pid in ids then s.payments[pid].(status := Overdue) else s.payments[pid],
       students := map sid | sid in s.students ::
                     if Touched(s, ids, sid) then s.students[sid].(debtAmount := Owed(s, sid)) else s.students[sid])
  }

  /** SchedulerService.processOverduePayments */
  ghost function OverdueJob(s: State, now: int): State {
    FlipSet(s, DueIds(s, now))
  }

  // ----- events and runs -----

  datatype Event =
    | EvEnrol(sid: Id)
    | EvCreate(pid: Id, iid: Id, dto: CreateDto, now: int, year: nat)
    | EvPay(pid: Id, now: int)
    | EvRefund(pid: Id, amount: Option<real>, now: int)
    | EvCreateDiscount(code: string, discount: Discount)
    | EvApplyDiscount(request: DiscountDto, now: int)
    | EvOverdueJob(now: int)
    | EvRecomputeDebt(sid: Id)
    | EvInvoiceElsewhere(year: nat, count: nat)

  ghost function Apply(s: State, e: Event): State {
    match e
    case EvEnrol(sid) => Enrol(s, sid)
    case EvCreate(pid, iid, dto, now, year) => Create(s, pid, iid, dto, now, year).0
    case EvPay(pid, now) => Pay(s, pid, now).0
    case EvRefund(pid, amount, now) => Refund(s, pid, amount, now).0
    case EvCreateDiscount(code, discount) => CreateDiscount(s, code, discount).0
    case EvApplyDiscount(dto, now) => ApplyDiscount(s, dto, now).0
    case EvOverdueJob(now) => OverdueJob(s, now)
    case EvRecomputeDebt(sid) => RecomputeDebt(s, sid)
    case EvInvoiceElsewhere(year, count) => InvoiceElsewhere(s, year, count)
  }

  /** The documented input ranges (discountPercent <= 100 and value >= 0 are documented, not validated). */
  ghost predicate InRange(dto: CreateDto) {
    && OrZero(dto.amount) >= 0.0
    && 0.0 <= OrZero(dto.discountPercent) <= 100.0
    && OrZero(dto.taxPercent) >= 0.0
  }

  /** Fresh row ids, as the database generates them, and inputs in their documented ranges. */
  ghost predicate Allowed(s: State, e: Event) {
    match e
    case EvCreate(pid, iid, dto, _, _) => pid !in s.payments && iid !in s.invoices && InRange(dto)
    case EvCreateDiscount(_, discount) => discount.value >= 0.0
    case _ => true
  }

  function Before<T>(es: seq<T>): seq<T>
    requires es != []
  {
    es[..|es| - 1]
  }

  function Last<T>(es: seq<T>): T
    requires es != []
  {
    es[|es| - 1]
  }

  /** The state after a run that starts from empty tables. */
  ghost function Run(es: seq<Event>): State {
    if es == [] then NO_ROWS else Apply(Run(Before(es)), Last(es))
  }

  ghost predicate Legal(es: seq<Event>) {
    es == [] || (Legal(Before(es)) && Allowed(Run(Before(es)), Last(es)))
  }
}
