/**
  The overdue job is not a transaction. It fetches the due payments once; then, payment by payment and without
  looking at the status again, it flips the payment, reads the student's outstanding sum and stores that sum as the
  debt. Endpoints keep being served between any two of these statements.
 */
module OverdueInterleaving {
  import opened Common
  import opened MapSums
  import opened LedgerModel
  import opened LedgerInvariants
  import opened LedgerHistory

  /** Where the job stands inside an iteration. */
  datatype Job = Idle | Flipped(sid: Id) | Summed(sid: Id, debt: real)

  /** The tables, the fetched payments the job has not flipped yet, and the iteration under way. */
  datatype World = World(tables: State, waiting: set<Id>, job: Job)

  datatype Step = Endpoint(e: Event) | Fetch(now: int) | Flip(pid: Id) | ReadSum | Store

  const AT_REST := World(NO_ROWS, {}, Idle)

  ghost predicate Enabled(w: World, st: Step) {
    match st
    case Endpoint(e) => Allowed(w.tables, e) && !e.EvOverdueJob?
    case Fetch(now) => w.waiting == {} && w.job.Idle?
    case Flip(pid) => w.job.Idle? && pid in w.waiting && pid in w.tables.payments
    case ReadSum => w.job.Flipped?
    case Store => w.job.Summed?
  }

  function StoreDebt(s: State, sid: Id, debt: real): State {
    if sid in s.students then s.(students := s.students[sid := s.students[sid].(debtAmount := debt)]) else s
  }

  ghost function Next(w: World, st: Step): World
    requires Enabled(w, st)
  {
    match st
    case Endpoint(e) => w.(tables := Apply(w.tables, e))
    case Fetch(now) => w.(waiting := DueIds(w.tables, now))
    case Flip(pid) => World(FlipStatus(w.tables, pid), w.waiting - {pid}, Flipped(w.tables.payments[pid].studentId))
    case ReadSum => w.(job := Summed(w.job.sid, Owed(w.tables, w.job.sid)))
    case Store => w.(tables := StoreDebt(w.tables, w.job.sid, w.job.debt), job := Idle)
  }

  ghost predicate LegalSteps(ss: seq<Step>)
    decreases |ss|, 0
  {
    ss == [] || (LegalSteps(Before(ss)) && Enabled(After(Before(ss)), Last(ss)))
  }

  ghost function After(ss: seq<Step>): World
    requires LegalSteps(ss)
    decreases |ss|, 1
  {
    if ss == [] then AT_REST else Next(After(Before(ss)), Last(ss))
  }

  // ----- single flips -----

  /** The job overwrites the status of a payment that was paid (or refunded) after it was fetched. */
  ghost predicate LateFlip(w: World, st: Step) {
    st.Flip? && st.pid in w.tables.payments && Settled(w.tables.payments[st.pid])
  }

  /** A late flip of a payment that has an invoice: the invoice stays PAID. */
  ghost predicate Contradicts(w: World, st: Step) {
    LateFlip(w, st) && HasInvoice(w.tables, st.pid)
  }

  lemma FlipKeepsOwners(s: State, pid: Id)
    requires pid in s.payments
    ensures SameBills(s, FlipStatus(s, pid)) && SameOwners(s, FlipStatus(s, pid))
    ensures PaymentsOk(s) ==> PaymentsOk(FlipStatus(s, pid))
  {
  }

  lemma {:induction false} FlipKeepsMirrorsIff(s: State, pid: Id)
    requires InvoicesOk(s) && pid in s.payments
    ensures InvoicesMirror(FlipStatus(s, pid)) <==> !(Settled(s.payments[pid]) && HasInvoice(s, pid))
  {
    var t := FlipStatus(s, pid);
    if Settled(s.payments[pid]) && HasInvoice(s, pid) {
      var iid :| iid in s.invoices && s.invoices[iid].paymentId == pid;
      assert Mirrors(s.invoices[iid], s.payments[pid]);
      assert !Mirrors(t.invoices[iid], t.payments[pid]);
    }
  }

  /** A late flip bills the student again: a payment already counted in total_paid is owed once more. */
  lemma {:induction false} LateFlipChargesTwice(s: State, pid: Id)
    requires PaymentsOk(s) && pid in s.payments && Settled(s.payments[pid])
    ensures var p := s.payments[pid]; var t := FlipOne(s, pid);
            && Owed(t, p.studentId) == Owed(s, p.studentId) + p.totalAmount
            && t.students[p.studentId].debtAmount == Owed(t, p.studentId)
            && t.students[p.studentId].totalPaid == s.students[p.studentId].totalPaid
  {
    var p := s.payments[pid];
    SumUpdate(s.payments, pid, p.(status := Overdue), OwedWeight(p.studentId));
  }

  /** The three statements of an iteration with nothing in between are the job's iteration as one step. */
  lemma {:induction false} UndisturbedIteration(w: World, pid: Id)
    requires Enabled(w, Flip(pid))
    ensures var flipped := Next(w, Flip(pid));
            && Enabled(flipped, ReadSum) && Enabled(Next(flipped, ReadSum), Store)
            && Next(Next(flipped, ReadSum), Store) == World(FlipOne(w.tables, pid), w.waiting - {pid}, Idle)
  {
  }

  // ----- whole runs: invoices -----

  /** What every interleaving keeps. */
  ghost predicate Sound(w: World) {
    && PaymentsOk(w.tables) && DiscountsOk(w.tables) && AtMostOneInvoice(w.tables)
    && w.waiting <= w.tables.payments.Keys
  }

  lemma {:induction false} StepKeepsSound(w: World, st: Step)
    requires Sound(w) && Enabled(w, st)
    ensures Sound(Next(w, st))
  {
    match st
    case Endpoint(e) =>
      StepKeepsPayments(w.tables, e);
      StepKeepsDiscounts(w.tables, e);
      EndpointKeepsOwners(w.tables, e);
    case Flip(pid) =>
      FlipKeepsOwners(w.tables, pid);
      OwnersUnchanged(w.tables, FlipStatus(w.tables, pid));
    case _ =>
  }

  lemma {:induction false} EndpointKeepsOwners(s: State, e: Event)
    requires AtMostOneInvoice(s) && Allowed(s, e)
    ensures AtMostOneInvoice(Apply(s, e)) && s.payments.Keys <= Apply(s, e).payments.Keys
  {
    if e.EvCreate? {
      CreateKeepsOwners(s, e.pid, e.iid, e.dto, e.now, e.year);
    } else {
      StepKeepsBills(s, e);
      OwnersUnchanged(s, Apply(s, e));
    }
  }

  lemma {:induction false} RunIsSound(ss: seq<Step>)
    requires LegalSteps(ss)
    ensures Sound(After(ss))
  {
    if ss != [] {
      RunIsSound(Before(ss));
      StepKeepsSound(After(Before(ss)), Last(ss));
    }
  }

  ghost predicate NeverContradicts(ss: seq<Step>)
    requires LegalSteps(ss)
  {
    ss == [] || (NeverContradicts(Before(ss)) && !Contradicts(After(Before(ss)), Last(ss)))
  }

  /** In every state of the run an invoice is PAID exactly when its payment is PAID or REFUNDED. */
  ghost predicate MirroredThroughout(ss: seq<Step>)
    requires LegalSteps(ss)
  {
    InvoicesMirror(After(ss).tables) && (ss == [] || MirroredThroughout(Before(ss)))
  }

  /**
    Whatever the interleaving, invoices and payments agree throughout exactly when no settled payment with an invoice
    is flipped.
   */
  lemma {:induction false} MirroredIff(ss: seq<Step>)
    requires LegalSteps(ss)
    ensures MirroredThroughout(ss) <==> NeverContradicts(ss)
  {
    if ss != [] {
      MirroredIff(Before(ss));
      RunIsSound(Before(ss));
      if MirroredThroughout(Before(ss)) {
        StepMirrorsIff(After(Before(ss)), Last(ss));
      }
    }
  }

  lemma {:induction false} StepMirrorsIff(w: World, st: Step)
    requires Enabled(w, st) && InvoicesOk(w.tables)
    ensures InvoicesMirror(Next(w, st).tables) <==> !Contradicts(w, st)
  {
    match st
    case Endpoint(e) => StepKeepsInvoices(w.tables, e);
    case Flip(pid) => FlipKeepsMirrorsIff(w.tables, pid);
    case _ =>
  }

  // ----- how late flips come about -----

  /** A request pays a payment that the running job has fetched but not flipped. */
  ghost predicate PaysWaiting(w: World, st: Step) {
    st.Endpoint? && st.e.EvPay? && st.e.pid in w.waiting
  }

  ghost predicate NeverPaysWaiting(ss: seq<Step>)
    requires LegalSteps(ss)
  {
    ss == [] || (NeverPaysWaiting(Before(ss)) && !PaysWaiting(After(Before(ss)), Last(ss)))
  }

  ghost predicate WaitingUnsettled(w: World) {
    forall pid :: pid in w.waiting && pid in w.tables.payments ==> !Settled(w.tables.payments[pid])
  }

  lemma {:induction false} StepKeepsWaiting(w: World, st: Step)
    requires Enabled(w, st) && w.waiting <= w.tables.payments.Keys && WaitingUnsettled(w) && !PaysWaiting(w, st)
    ensures WaitingUnsettled(Next(w, st)) && !LateFlip(w, st)
  {
    if st.Endpoint? && !st.e.EvCreate? && !st.e.EvPay? {
      StepKeepsSettlement(w.tables, st.e);
    }
  }

  /** Runs in which nobody pays a payment the job is holding keep invoices and payments in agreement throughout. */
  lemma {:induction false} AgreementWithoutPayingWaiting(ss: seq<Step>)
    requires LegalSteps(ss) && NeverPaysWaiting(ss)
    ensures MirroredThroughout(ss)
    ensures WaitingUnsettled(After(ss))
  {
    NoPayNoContradiction(ss);
    MirroredIff(ss);
  }

  lemma {:induction false} NoPayNoContradiction(ss: seq<Step>)
    requires LegalSteps(ss) && NeverPaysWaiting(ss)
    ensures NeverContradicts(ss) && WaitingUnsettled(After(ss))
  {
    if ss != [] {
      NoPayNoContradiction(Before(ss));
      RunIsSound(Before(ss));
      StepKeepsWaiting(After(Before(ss)), Last(ss));
    }
  }

  /** Paying a waiting payment that is not yet paid makes its flip, if the job gets to it next, a late one. */
  lemma PayingWaitingLeadsToLateFlip(w: World, pid: Id, now: int)
    requires w.job.Idle? && pid in w.waiting && pid in w.tables.payments && !w.tables.payments[pid].status.Paid?
    ensures Enabled(w, Endpoint(EvPay(pid, now)))
    ensures var v := Next(w, Endpoint(EvPay(pid, now))); Enabled(v, Flip(pid)) && LateFlip(v, Flip(pid))
  {
  }

  // ----- whole runs: total_paid -----

  ghost function TotalPaid(s: State, sid: Id): real {
    if sid in s.students then s.students[sid].totalPaid else 0.0
  }

  /** How much total_paid gains over the settled payments' totals in one step. */
  ghost function GapOf(w: World, st: Step, sid: Id): real {
    match st
    case Endpoint(e) => Overcount(w.tables, e, sid)
    case Flip(pid) => if LateFlip(w, st) then SettledWeight(sid)(w.tables.payments[pid]) else 0.0
    case _ => 0.0
  }

  /** An endpoint that overcounts, or a late flip of a payment with a total. */
  ghost predicate WidensGap(w: World, st: Step, sid: Id) {
    || (st.Endpoint? && Overcounts(w.tables, st.e, sid))
    || (LateFlip(w, st) && w.tables.payments[st.pid].studentId == sid && w.tables.payments[st.pid].totalAmount > 0.0)
  }

  ghost function GapIn(ss: seq<Step>, sid: Id): real
    requires LegalSteps(ss)
  {
    if ss == [] then 0.0 else GapIn(Before(ss), sid) + GapOf(After(Before(ss)), Last(ss), sid)
  }

  ghost predicate NeverWidensGap(ss: seq<Step>, sid: Id)
    requires LegalSteps(ss)
  {
    ss == [] || (NeverWidensGap(Before(ss), sid) && !WidensGap(After(Before(ss)), Last(ss), sid))
  }

  lemma {:induction false} EndpointMovesGap(s: State, e: Event, sid: Id)
    requires PaymentsOk(s) && DiscountsOk(s) && Allowed(s, e)
    ensures TotalPaid(Apply(s, e), sid) - SettledSum(Apply(s, e), sid)
            == TotalPaid(s, sid) - SettledSum(s, sid) + Overcount(s, e, sid)
  {
    OvercountStep(s, e, sid);
    SumAfterStep(s, e, SettledWeight(sid));
    StepMovesTotalPaid(s, e, sid);
  }

  lemma {:induction false} StepMovesGap(w: World, st: Step, sid: Id)
    requires Sound(w) && Enabled(w, st)
    ensures TotalPaid(Next(w, st).tables, sid) - SettledSum(Next(w, st).tables, sid)
            == TotalPaid(w.tables, sid) - SettledSum(w.tables, sid) + GapOf(w, st, sid)
    ensures GapOf(w, st, sid) >= 0.0
    ensures GapOf(w, st, sid) > 0.0 <==> WidensGap(w, st, sid)
  {
    match st
    case Endpoint(e) =>
      EndpointMovesGap(w.tables, e, sid);
      OvercountStep(w.tables, e, sid);
    case Flip(pid) =>
      SumUpdate(w.tables.payments, pid, w.tables.payments[pid].(status := Overdue), SettledWeight(sid));
    case _ =>
  }

  lemma {:induction false} GapAfterRun(ss: seq<Step>, sid: Id)
    requires LegalSteps(ss)
    ensures TotalPaid(After(ss).tables, sid) == SettledSum(After(ss).tables, sid) + GapIn(ss, sid)
    ensures GapIn(ss, sid) >= 0.0
    ensures GapIn(ss, sid) == 0.0 <==> NeverWidensGap(ss, sid)
  {
    if ss != [] {
      GapAfterRun(Before(ss), sid);
      RunIsSound(Before(ss));
      StepMovesGap(After(Before(ss)), Last(ss), sid);
    }
  }

  /**
    In every interleaving total_paid is at least the settled payments' totals, and equals them exactly when no
    endpoint overcounts and no late flip takes a payment with a total out of the settled ones.
   */
  lemma {:induction false} TotalPaidInterleaved(ss: seq<Step>, sid: Id)
    requires LegalSteps(ss) && sid in After(ss).tables.students
    ensures After(ss).tables.students[sid].totalPaid >= SettledSum(After(ss).tables, sid)
    ensures After(ss).tables.students[sid].totalPaid == SettledSum(After(ss).tables, sid) <==> NeverWidensGap(ss, sid)
  {
    GapAfterRun(ss, sid);
  }

  // ----- requests between reading the sum and storing it -----

  ghost function ApplyAll(s: State, es: seq<Event>): State {
    if es == [] then s else Apply(ApplyAll(s, Before(es)), Last(es))
  }

  /** By how much requests move what the student owes. */
  ghost function Drift(s: State, es: seq<Event>, sid: Id): real {
    if es == [] then 0.0 else Drift(s, Before(es), sid) + RowChange(ApplyAll(s, Before(es)), Last(es), OwedWeight(sid))
  }

  lemma {:induction false} DriftMovesOwed(s: State, es: seq<Event>, sid: Id)
    ensures Owed(ApplyAll(s, es), sid) == Owed(s, sid) + Drift(s, es, sid)
    ensures sid in s.students ==> sid in ApplyAll(s, es).students
  {
    if es != [] {
      DriftMovesOwed(s, Before(es), sid);
      SumAfterStep(ApplyAll(s, Before(es)), Last(es), OwedWeight(sid));
      if sid in s.students {
        StudentsStay(ApplyAll(s, Before(es)), Last(es), sid);
      }
    }
  }

  lemma StudentsStay(s: State, e: Event, sid: Id)
    requires sid in s.students
    ensures sid in Apply(s, e).students
  {
  }

  /**
    Requests served after the sum is read and before it is stored are missing from the stored debt, by exactly what
    they moved; the debt is exact if and only if they cancel out.
   */
  lemma {:induction false} StoredDebtMissesDrift(w: World, es: seq<Event>)
    requires w.job.Flipped? && w.job.sid in w.tables.students
    ensures var sid := w.job.sid; var summed := Next(w, ReadSum);
            var t := Next(summed.(tables := ApplyAll(w.tables, es)), Store).tables;
            && sid in t.students
            && t.students[sid].debtAmount == Owed(t, sid) - Drift(w.tables, es, sid)
            && (t.students[sid].debtAmount == Owed(t, sid) <==> Drift(w.tables, es, sid) == 0.0)
  {
    DriftMovesOwed(w.tables, es, w.job.sid);
  }

  /** A payment made in that window is charged again in the stored debt. */
  lemma {:induction false} PayBeforeStore(w: World, pid: Id, now: int)
    requires w.job.Flipped? && PaymentsOk(w.tables) && pid in w.tables.payments
    requires Outstanding(w.tables.payments[pid]) && w.tables.payments[pid].studentId == w.job.sid
    ensures var summed := Next(w, ReadSum);
            && Enabled(summed, Endpoint(EvPay(pid, now)))
            && var paid := Next(summed, Endpoint(EvPay(pid, now)));
               && Enabled(paid, Store)
               && var t := Next(paid, Store).tables;
                  t.students[w.job.sid].debtAmount == Owed(t, w.job.sid) + w.tables.payments[pid].totalAmount
  {
    var s, sid := w.tables, w.job.sid;
    SumUpdate(s.payments, pid, Pay(s, pid, now).0.payments[pid], OwedWeight(sid));
  }
}
