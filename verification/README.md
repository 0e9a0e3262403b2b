# Verified model of the EduCRM backend

EduCRM is a multi-tenant backend for education centres. This project models the parts of it where stored figures
must stay in agreement with the rows they summarise, or where a loop, a counter or a printer has an exact meaning,
and proves those meanings in Dafny. `dafny verify dfyconfig.toml` checks everything.

Each group below follows one part of the system. An operation the source writes as statements that change stored
rows is a method over the same tables, proved to leave the state a specification function describes; the theorems
are about those functions, over every run. What the functions amount to is stated once more without them, in columns,
indices and numbers: `LedgerMeaning` for the ledger, and the lemmas ending in `Means`, `Is` or `Iff` elsewhere.

**Payments ledger** (`LedgerModel`, `LedgerMeaning`, `TenantLedger`, `LedgerInvariants`, `LedgerHistory`, `LedgerWitnesses`,
`LedgerDiscountOrder`, `LedgerOverdue`). Payments, invoices, discount codes and the per-student figures `debt_amount`
and `total_paid` are written by separate endpoints and by a nightly job. A run is any sequence of endpoint calls and
job runs of one tenant from empty tables, with other tenants' invoices stored in between. Results: a payment has at
most one invoice, which mirrors it, and every payment has one exactly in runs where no other tenant holds an invoice
of the same year and count; numbers and codes never repeat; debt lies between 0 and what is owed plus the discounts
given since the last recomputation, and within what is owed exactly in runs where no discount undercuts it;
`total_paid` is what pay steps added, and equals the settled payments' totals exactly in runs without a re-paid refund
or a discount on a settled payment; a payment's total is what was billed less all discounts, never below 0; the order
of discount codes is irrelevant, for acceptance too; the overdue job has one outcome for every processing order and is
idempotent. `LedgerWitnesses` holds a legal run for each way these agreements fail.

**The job between requests** (`OverdueInterleaving`). The job fetches due payments once; then it flips a payment, reads
its student's sum and stores it, as three statements with requests in between any of them, and never looks at the
status again. Invoices and payments agree throughout exactly when no settled payment with an invoice is flipped;
`total_paid` equals the settled totals exactly when moreover nothing else overcounts; a stored debt misses exactly
what requests moved between reading and storing.

**Numbers drawn from a count** (`SequenceCodes`, `NumberDrawing`). The printed numbers determine year and count. When
requests overlap, counts stay distinct exactly if no row is inserted between a request's count and its insert, and
with at most k requests in between at most k rows share a number, which is reached.

**Usage limits** (`UsageLimit`). Check and increment are separate statements in `applyDiscount` and in `startAttempt`.
With at most k requests in between, exactly the counts up to limit + k - 1 are reachable.

**Login lockout** (`Lockout`, `LockoutOverlap`). Five failures, fifteen minutes: for calls one after the other, the
number of wrong passwords checked in a span without a success is at most 5 plus one per full 15 minutes, and that bound
is attained for every span. Calls that overlap lose counter updates: with at most k in flight the bound is
C(k + 4, 4) - 1 plus k for every 15 minutes begun, and it is attained for every k and span.

**Exams** (`ExamGrading`, `ExamAttempts`). Submission grades by answer, `autoGrade` by question, for any lower-casing
that keeps white space apart from other characters. The answer-driven sum is re-indexed by question; the two scores
differ by exactly the marks of the questions right for one grader only; attempts are numbered 1, 2, ..., n within the
limit.

**Printers, searches and windows** (`CsvExport`, `Slug`, `Pagination`, `Attendance`, `RecurringSchedule`). The CSV
file reads back exactly if and only if the rows meet a stated condition; slugs are the fixed points of `generateSlug`;
the unique-slug search stops within |existing| + 1 by a pigeonhole argument; pages tile the result; marking attendance
and reading the sheet compose, for tables with duplicate marks too; lesson counts per number of days.

**Owner figures** (`BranchFinance`). Branch breakdowns conserve the totals for every branch list; rounded method
percentages add up to 100 within half a point per method.

## Where the code differs from what one would expect

- Invoice numbers are counted per tenant, but the invoice table's number column is unique over all tenants
  (`src/modules/payments/entities/invoice.entity.ts:33`; `src/config/database.config.ts:15` creates that index), while
  the payment's number column is not (`src/modules/payments/entities/payment.entity.ts:26`). `create` saves the payment
  and then the invoice without a transaction (`src/modules/payments/payments.service.ts:78-80`). The second tenant to
  create its first payment of a year therefore keeps a payment without an invoice and gets an error
  (`LedgerWitnesses.SecondTenantLacksInvoice`; `LedgerInvariants.EveryPaymentInvoicedIff` says exactly when).
- `pay` refuses only PAID, so a refunded payment can be paid again and counts twice in `total_paid`
  (`LedgerHistory.TotalPaidVersusSettled` says exactly when the figures agree; `LedgerWitnesses.PaidTwiceOvercounts`).
- `applyDiscount` looks at neither the payment's status nor the stored debt (`LedgerHistory.DebtCoveredIff`,
  `LedgerWitnesses.DiscountedLateUndercuts`).
- The overdue job flips payments that were paid after it fetched them, and stores sums that are out of date
  (`LedgerWitnesses.PaidWhileHeldFlipsLate`, `LedgerWitnesses.PaidBeforeStoreLeavesDebt`).
- Overlapping calls of `validateUser` overwrite each other's counter, so more than five failures fit before the lock
  (`LockoutOverlap.OverlappingFailureRate` and `LockoutOverlap.OverlapBoundIsAttained` say how many).
- `discountPercent <= 100` and a discount's `value >= 0` are documented but not validated. Runs are taken over inputs in
  these ranges; `LedgerInvariants.BilledTotalSign` says exactly when a created total is non-negative without them.
- A multiple-choice question is graded from its options by both graders, a true/false question from its options by
  `submitAttempt` but from `correct_answer` by `autoGrade`; `submitAttempt` trims texts and grades essay and fill-in
  questions, `autoGrade` does neither (`ExamGrading.GradersDifferIff`, `ExamGrading.GradersBalance`).
- `submitAttempt` does not look for repeated question ids (`ExamGrading.NeverExceedsIff`).
- `exportToCsv` quotes a field only when it contains a comma (`CsvExport.ExportRoundTripsIff`).
- `getPaginationParams` accepts fractions and an infinite page (`Pagination.ParamsWholeIff`).
- A numbered slug contains two hyphens in a row when the base ends with one (`Slug.CandidateIsSlugIff`).
- The question entity stores `marks`, while `autoGrade` selects a column `points`; the model has one number for both.

## Model

| member | source | states |
|---|---|---|
| TenantLedger.Tables.EnrolStudent | src/modules/students/students.service.ts:180-204 | a new student gets the next code and zero totals |
| TenantLedger.Tables.GetNextInvoiceNumber | src/modules/payments/payments.repository.ts:41-47 | the count it was drawn at can be read back as the row count plus one, and no payment of the tenant has the number yet |
| TenantLedger.Tables.CreatePayment | src/modules/payments/payments.service.ts:49-83 | one pending payment and its invoice are added; when the number is taken the payment stays without an invoice and the call fails; an unknown student changes nothing |
| TenantLedger.Tables.CreateInvoice | src/modules/payments/payments.service.ts:85-102 | the invoice is stored iff no tenant holds its number, due on the payment's date or 30 days on |
| TenantLedger.Tables.PayPayment | src/modules/payments/payments.service.ts:113-128 | status, both student totals with the clamp at 0, and the invoice status, or the error and no change |
| TenantLedger.Tables.RefundPayment | src/modules/payments/payments.service.ts:130-142 | only a PAID payment becomes REFUNDED; totals and invoice stay |
| TenantLedger.Tables.CreateDiscountCode | src/modules/payments/payments.service.ts:187-196 | a new code starts active and unused; a taken code is refused |
| TenantLedger.Tables.ApplyDiscountCode | src/modules/payments/payments.service.ts:144-185 | the checks in order, the new total, one more use; debt and invoice stay |
| TenantLedger.Tables.QueryOwed | src/modules/students/students.repository.ts:81-86 | the query's figure is the student's pending plus overdue total |
| TenantLedger.Tables.UpdateDebtAmount | src/modules/students/students.repository.ts:80-88 | stored debt becomes the outstanding total |
| TenantLedger.Tables.FindDue | src/modules/scheduler/scheduler.service.ts:27-29 | the rows are, once each and in some order, exactly the PENDING payments whose due date is set and past |
| TenantLedger.Tables.MarkOverdue | src/modules/scheduler/scheduler.service.ts:32-44 | one iteration flips the payment and stores its student's new outstanding total |
| TenantLedger.Tables.ProcessOverduePayments | src/modules/scheduler/scheduler.service.ts:25-48 | the loop, in whatever order rows come, leaves the order-free outcome of the job |
| LedgerMeaning.EnrolMeans | src/modules/students/students.service.ts:180-204 | a new student's code carries the row count plus one, both totals are 0, and nothing else changes |
| LedgerMeaning.CreateMeans | src/modules/payments/payments.service.ts:49-102 | the billed row satisfies 100 * discount == amount * percent, the same for tax, total == amount - discount + tax; the invoice copies it, due on its date or 2592000000 ms on; nothing else changes |
| LedgerMeaning.CreateSucceedsIff | src/modules/payments/payments.service.ts:49-102 | create succeeds iff the student is known and no invoice of any tenant has the number |
| LedgerMeaning.PayMeans | src/modules/payments/payments.service.ts:113-128 | everything but PAID can be paid: status and date of that row alone, and its number returned |
| LedgerMeaning.PayCreditsStudent | src/modules/payments/payments.service.ts:120-123 | the payer alone: total_paid up by the total, debt down by it and never below 0 |
| LedgerMeaning.PayClosesInvoices | src/modules/payments/payments.service.ts:124 | exactly the invoices of that payment become PAID |
| LedgerMeaning.RefundMeans | src/modules/payments/payments.service.ts:130-142 | the amount asked for, or the whole total, is recorded and returned, for PAID payments only |
| LedgerMeaning.CreateDiscountMeans | src/modules/payments/payments.service.ts:187-196 | the new row is active and unused and otherwise as given |
| LedgerMeaning.DiscountAcceptedIff | src/modules/payments/payments.service.ts:144-168 | a code is accepted iff it is active, not past its end, below its limit, valid for the course if both name courses, and the payment exists; refusals change nothing |
| LedgerMeaning.DiscountErrorsInOrder | src/modules/payments/payments.service.ts:148-168 | each error is given iff its check fails and the earlier ones pass |
| LedgerMeaning.DiscountMeans | src/modules/payments/payments.service.ts:170-185 | 100 * discount == amount * value for a percentage code, discount == value for a fixed one, and the new total is the old less the discount, cut at 0 |
| LedgerMeaning.OwedIs | src/modules/students/students.repository.ts:81-86 | what is owed is the sum of the PENDING and OVERDUE totals |
| LedgerMeaning.OverdueMarksExactly | src/modules/scheduler/scheduler.service.ts:27-32 | a row becomes OVERDUE iff it was PENDING with a due date set and past; every other row, also one without a due date, is unchanged |
| LedgerMeaning.OverdueStoresDebtIff | src/modules/scheduler/scheduler.service.ts:31-44 | a student's debt is rewritten, to what is owed, iff one of their payments is marked |
| LedgerInvariants.BilledTotalSign | src/modules/payments/payments.service.ts:51-56 | a created total is non-negative iff the amount is 0 or the net percentage is at most 100 |
| LedgerInvariants.RunIsConsistent | src/modules/payments/payments.service.ts:49-185 | in every reachable state a payment has at most one invoice, with its creation-time figures and PAID iff the payment is PAID or REFUNDED; totals are non-negative, limits respected, statuses only the four in use |
| LedgerInvariants.EveryPaymentInvoicedIff | src/modules/payments/payments.service.ts:77-83 | every payment has its one invoice iff no create of the run drew a year and count that another tenant's invoice was drawn from |
| LedgerInvariants.NextNumberIsNew | src/modules/payments/payments.service.ts:85-91 | the next invoice number is never held by an invoice of the same tenant, whatever the year |
| LedgerInvariants.RunKeepsNumbersUnique | src/modules/payments/entities/invoice.entity.ts:33 | over every run the tenant's invoice numbers are pairwise distinct and none is held by another tenant |
| LedgerInvariants.StepKeepsInvoices | src/modules/payments/payments.service.ts:85-139 | every endpoint, also a create whose invoice is refused, keeps at most one mirroring invoice per payment |
| LedgerInvariants.StepKeepsPayments | src/modules/payments/payments.service.ts:49-185 | every endpoint keeps amounts and totals non-negative and students known |
| LedgerInvariants.StepKeepsDiscounts | src/modules/payments/payments.service.ts:154-182 | no sequential step takes a code past its limit |
| LedgerInvariants.CodesAreUnique | src/modules/payments/payments.repository.ts:41-47 | invoice numbers and student codes are pairwise distinct in every reachable state, across years and past the pad width |
| LedgerHistory.DebtIsBounded | src/modules/payments/payments.service.ts:120-123 | over every run 0 <= debt <= outstanding total plus discounts taken off outstanding payments since the last recomputation |
| LedgerHistory.DiscountLeavesDebtBehind | src/modules/payments/payments.service.ts:175-180 | why the slack is needed: an exact debt overshoots by exactly the reduction after a discount |
| LedgerHistory.StepStaysCoveredIff | src/modules/payments/payments.service.ts:113-185 | from 0 <= debt <= owed, a step stays there iff it is not an accepted discount on an outstanding payment of the student that takes off more than owed - debt |
| LedgerHistory.DebtCoveredIff | src/modules/payments/payments.service.ts:113-185 | 0 <= debt <= owed in every state of a run iff no discount of the run undercuts the debt |
| LedgerHistory.PayKeepsDebtExact | src/modules/payments/payments.service.ts:120-123 | after paying an outstanding payment debt is exact iff it was exact, or was understated and nothing else is owed |
| LedgerHistory.TotalPaidIsPaidIn | src/modules/payments/payments.service.ts:120-123 | total_paid is the sum of totalAmount at each successful pay step |
| LedgerHistory.TotalPaidVersusSettled | src/modules/payments/payments.service.ts:113-142 | total_paid is at least the PAID and REFUNDED totals, and equal iff no refunded payment with a total was re-paid and no discount of some amount fell on a settled one with a total |
| LedgerHistory.PaidRevenue | src/modules/payments/payments.service.ts:113-142 | paid revenue is total_paid minus the refunded totals, in exactly those runs |
| LedgerHistory.TotalIsBilledMinusDiscounts | src/modules/payments/payments.service.ts:170-180 | a payment's total is max(0, billed total - all discounts applied to it), over every run, invoice or not |
| LedgerHistory.TotalIsInvoiceMinusDiscounts | src/modules/payments/payments.service.ts:85-102 | the same from the invoice: it keeps the billed total while the payment's own falls |
| LedgerHistory.DiscountColumnIsLatest | src/modules/payments/payments.service.ts:177-180 | the payment's discountAmount is the latest code's amount, or the one billed at creation when no code was applied |
| LedgerHistory.NoRowNoDiscounts | src/modules/payments/payments.service.ts:168-180 | the discounts applied to a payment sum to a non-negative amount, 0 before it exists |
| LedgerHistory.UsedCountIsUses | src/modules/payments/payments.service.ts:158-182 | usedCount is the number of successful applications and stays within maxUses |
| LedgerWitnesses.PaidTwiceOvercounts | src/modules/payments/payments.service.ts:113-142 | a legal run - enrol, create, pay, refund, pay - ends with total_paid twice the settled total |
| LedgerWitnesses.DiscountedLateUndercuts | src/modules/payments/payments.service.ts:170-180 | a legal run - create, recompute, discount - stores more debt than is owed, by any part of the total |
| LedgerWitnesses.SecondTenantLacksInvoice | src/modules/payments/payments.service.ts:77-83 | a legal run whose first payment has no invoice because another tenant drew the same year and count |
| LedgerWitnesses.PaidWhileHeldFlipsLate | src/modules/scheduler/scheduler.service.ts:27-44 | a legal interleaving - fetch, pay, flip, sum, store - ends with the paid payment OVERDUE and its full total stored as debt again |
| LedgerWitnesses.PaidBeforeStoreLeavesDebt | src/modules/scheduler/scheduler.service.ts:32-44 | a legal interleaving - fetch, flip, sum, pay, store - ends with nothing owed and the full total stored as debt |
| LedgerDiscountOrder.AllSucceedIff | src/modules/payments/payments.service.ts:148-166 | a burst of codes is accepted in full iff every code is usable and has room for all its uses |
| LedgerDiscountOrder.TotalAfterBurst | src/modules/payments/payments.service.ts:170-180 | an accepted burst leaves max(0, total - sum of the codes' amounts) |
| LedgerDiscountOrder.DiscountOrderIsIrrelevant | src/modules/payments/payments.service.ts:148-182 | codes accepted in one order are accepted in every order, with the same total and counters |
| LedgerOverdue.FlipOneMore | src/modules/scheduler/scheduler.service.ts:31-44 | one loop iteration adds exactly one payment to the flipped set |
| LedgerOverdue.ProcessingOrderIsIrrelevant | src/modules/scheduler/scheduler.service.ts:27-46 | every processing order ends in the same state |
| LedgerOverdue.OverdueJobEffect | src/modules/scheduler/scheduler.service.ts:27-46 | nothing pending is due afterwards, outstanding totals are unchanged, touched students' debts equal them, other students are untouched |
| LedgerOverdue.OverdueJobIsIdempotent | src/modules/scheduler/scheduler.service.ts:27-46 | a second run at the same time changes nothing |
| LedgerOverdue.OverdueJobCatchesUp | src/modules/scheduler/scheduler.service.ts:27-32 | an earlier run does not change which payments a later run leaves overdue |
| OverdueInterleaving.UndisturbedIteration | src/modules/scheduler/scheduler.service.ts:31-44 | flip, sum and store with nothing in between are one iteration of the job |
| OverdueInterleaving.MirroredIff | src/modules/scheduler/scheduler.service.ts:27-46 | with requests between any two statements, invoices and payments agree throughout iff the job never flips a settled payment that has an invoice |
| OverdueInterleaving.FlipKeepsMirrorsIff | src/modules/scheduler/scheduler.service.ts:32 | a flip keeps the agreement iff its payment is not settled or has no invoice |
| OverdueInterleaving.LateFlipChargesTwice | src/modules/scheduler/scheduler.service.ts:32-44 | a late flip makes a payment already in total_paid owed again and stores that debt |
| OverdueInterleaving.AgreementWithoutPayingWaiting | src/modules/scheduler/scheduler.service.ts:27-46 | runs in which no held payment is paid keep the agreement |
| OverdueInterleaving.PayingWaitingLeadsToLateFlip | src/modules/payments/payments.service.ts:113-119 | paying a held payment enables a late flip |
| OverdueInterleaving.TotalPaidInterleaved | src/modules/scheduler/scheduler.service.ts:27-46 | in every interleaving total_paid is at least the settled totals, and equal iff no endpoint overcounts and no late flip takes out a payment with a total |
| OverdueInterleaving.StoredDebtMissesDrift | src/modules/scheduler/scheduler.service.ts:33-44 | the debt stored is off by exactly what requests moved since the sum was read, so exact iff they cancel out |
| OverdueInterleaving.PayBeforeStore | src/modules/scheduler/scheduler.service.ts:33-44 | a payment made in that window is charged again in the stored debt |
| UsageLimit.RunIsBounded | src/modules/payments/payments.service.ts:158-182 | uses made plus uses granted stay below limit + width in every interleaving |
| UsageLimit.Overshoot | src/modules/payments/payments.service.ts:158-182 | the overshoot is reached |
| UsageLimit.ReachableIff | src/modules/exams/exams.service.ts:84-92 | with at most k overlapping requests exactly the counts 0..limit + k - 1 are reachable, so exactly the limit when k = 1 |
| SequenceCodes.DecimalMeans | src/modules/payments/payments.repository.ts:46 | digits only, no leading zero but for 0 itself |
| SequenceCodes.PadStartMeans | src/modules/payments/payments.repository.ts:46 | padding puts zeros in front up to the width and keeps the text |
| SequenceCodes.FirstCodes | src/modules/students/students.repository.ts:43-44 | the first number of 2024 is INV-2024-000001 and the first student code STU-00001 |
| SequenceCodes.InvoiceNumberRoundTrip | src/modules/payments/payments.repository.ts:45-46 | the count can be read back from an invoice number |
| SequenceCodes.InvoiceNumberInjective | src/modules/payments/payments.repository.ts:41-47 | numbers are equal iff year and count are |
| SequenceCodes.StudentCodeInjective | src/modules/students/students.repository.ts:38-45 | student codes are equal iff the counts are |
| SequenceCodes.PadRoundTrip | src/modules/students/students.repository.ts:43-44 | zero padding loses nothing, also beyond the width |
| NumberDrawing.CountsDistinctIff | src/modules/payments/payments.repository.ts:41-47 | in every run of overlapping requests the counts drawn are pairwise distinct iff no insert came after another row was added since its count, and then they are 1, 2, ..., n |
| NumberDrawing.PrintedNumbersDistinctIff | src/modules/students/students.repository.ts:38-45 | so printed student codes, and invoice numbers within a year, are distinct in exactly those runs |
| NumberDrawing.GivenAtMostWidth | src/modules/payments/payments.service.ts:49-78 | with at most k requests between count and insert at most k rows get the same number |
| NumberDrawing.GivenWidthTimes | src/modules/payments/payments.service.ts:49-78 | and k rows with one number are reached |
| Lockout.AuthService.FindUser | src/modules/auth/auth.service.ts:59-66 | some row with that email, and that tenant when one is given, or there is none |
| Lockout.AuthService.ValidateUser | src/modules/auth/auth.service.ts:58-98 | the row found gets the counter and lock of the outcome, all others stay; without a row nothing changes |
| Lockout.LockFollowsLastFailure | src/modules/auth/auth.service.ts:74-95 | in every run attempts >= 5 iff a lock is stored, and then it is the last counted failure plus 900000 ms |
| Lockout.FailureRate | src/modules/auth/auth.service.ts:69-95 | checked failures in a span without success are at most the ones left before the fifth plus one per full 900000 ms, from any state |
| Lockout.FailuresBetweenSuccesses | src/modules/auth/auth.service.ts:69-95 | between two successes spanning T at most 5 + floor(T / 15 min) |
| Lockout.BoundIsAttained | src/modules/auth/auth.service.ts:69-88 | for every n some run of n times 15 minutes has exactly 5 + n failures |
| Lockout.PersistentIsOrdered | src/modules/auth/auth.service.ts:69-88 | that run is in time order and within its span |
| Lockout.LockLastsFifteenMinutes | src/modules/auth/auth.service.ts:69-85 | from the failure at which it is set a lock refuses every call exactly while now < at + 900000, changes nothing, and reports the time left in minutes rounded up |
| Lockout.WrongPasswordMeans | src/modules/auth/auth.service.ts:74-88 | outside a lock a wrong password adds one attempt, and locks for 900000 ms iff that is the fifth or a later one |
| Lockout.SuccessMeans | src/modules/auth/auth.service.ts:69-97 | the right password succeeds iff no lock runs, and then attempts are 0, the lock is gone and the login time is now |
| Lockout.OthersUnaffected | src/modules/auth/auth.service.ts:80-95 | attempts for one user leave every other account as it was |
| LockoutOverlap.OverlappingFailureRate | src/modules/auth/auth.service.ts:69-95 | with at most k calls in flight, wrong passwords checked in a span without success are at most C(k + 4, 4) - 1 plus k per 15 minutes begun, from any state |
| LockoutOverlap.CountedIsBounded | src/modules/auth/auth.service.ts:74-88 | the failures that set no lock are at most a rank of the counts read and still readable, which every such failure lowers |
| LockoutOverlap.Locking | src/modules/auth/auth.service.ts:69-85 | the failures that set the lock are at most k per 15 minutes begun |
| LockoutOverlap.CountIsBinomial | src/modules/auth/auth.service.ts:76-79 | the number of ranks is the binomial coefficient, 5 for one call at a time |
| LockoutOverlap.OverlapBoundIsAttained | src/modules/auth/auth.service.ts:69-95 | for every k and n a timed run of n * 15 minutes has exactly that many failures |
| LockoutOverlap.UndisturbedCall | src/modules/auth/auth.service.ts:69-95 | reading and writing with nothing in between is the one-step call |
| ExamGrading.GradeMeans | src/modules/exams/exams.service.ts:110-125 | an answer is right iff the exam has its question and it is right for that question; then it earns its marks, otherwise 0 |
| ExamGrading.CorrectOptionMeans | src/modules/exams/exams.service.ts:116 | the option taken is marked correct and no earlier one is; none is taken iff none is marked |
| ExamGrading.ChoiceIsRightIff | src/modules/exams/exams.service.ts:115-117 | a choice answer is right on submission iff it is the id of the first option marked correct; in autoGrade, for multiple choice, iff moreover it is not empty |
| ExamGrading.TextIsRightIff | src/modules/exams/exams.service.ts:118-120 | any other answer is right on submission iff the question has a text and both are equal, lower-cased and trimmed |
| ExamGrading.AutoTextIsRightIff | src/modules/exams/exams.repository.ts:35-37 | autoGrade accepts true/false and short answers iff not empty and equal to the text, lower-cased only, and no essay or blank |
| ExamGrading.GradeAnswers | src/modules/exams/exams.service.ts:109-125 | the total is the sum over answers and over the stored marks |
| ExamGrading.AutoGrade | src/modules/exams/exams.repository.ts:23-40 | the loop computes the sum over questions |
| ExamGrading.ScoreIsSumOverWon | src/modules/exams/exams.service.ts:109-125 | without repeats the answer-driven score counts each question won once |
| ExamGrading.ScoreByQuestion | src/modules/exams/exams.service.ts:109-125 | with one answer per question it is a sum over questions |
| Text.TrimMeans | src/modules/exams/exams.service.ts:119 | trim cuts white space off both ends, nothing else, and leaves none there |
| Text.LowerMeans | src/common/utils/slug.util.ts:3 | but for two characters, lower-casing maps A..Z to a..z in order and leaves the rest |
| Text.WhiteSpaceIs | src/common/utils/slug.util.ts:5 | the white space characters by code point |
| Text.LowerIsLowerCasing | src/modules/exams/exams.service.ts:119 | the hypotheses on toLowerCase hold of the lower-casing written out for slugs |
| ExamGrading.NeverExceedsIff | src/modules/exams/exams.service.ts:109-125 | an answer list stays within every exam's total marks iff no question gets two entries equal up to case and outer spaces |
| ExamGrading.GradersDifferIff | src/modules/exams/exams.repository.ts:31-37 | for every kind of question and every answer, exactly when only submission and when only autoGrade accepts it |
| ExamGrading.GradersBalance | src/modules/exams/exams.repository.ts:27-39 | for every exam, submitted score + marks right only for autoGrade == autoGrade's score + marks right only on submission |
| ExamGrading.GradersCompared | src/modules/exams/exams.repository.ts:27-39 | where no true/false text earns marks from autoGrade alone, autoGrade never gives more, and the same iff no answered question with marks is right only on submission |
| ExamGrading.GradersAgree | src/modules/exams/exams.repository.ts:27-39 | on multiple-choice and short-answer exams with trimmed texts and non-empty answers the scores are equal |
| ExamGrading.AnswerOrderIsIrrelevant | src/modules/exams/exams.service.ts:109-125 | the score does not depend on the order of answers |
| ExamAttempts.ExamsService.CountAttempts | src/modules/exams/exams.service.ts:84 | the count is the number of the student's attempts at the exam |
| ExamAttempts.ExamsService.StartAttempt | src/modules/exams/exams.service.ts:80-96 | the new attempt and its number, or the error and no change |
| ExamAttempts.ExamsService.FindAttempt | src/modules/exams/exams.service.ts:103 | the row found has the id and student, and -1 means there is none |
| ExamAttempts.ExamsService.SubmitAttempt | src/modules/exams/exams.service.ts:98-138 | exactly the found attempt's submission columns are rewritten, with graded answers, score, pass mark and minutes |
| ExamAttempts.StartSucceedsIff | src/modules/exams/exams.service.ts:80-96 | an attempt starts iff the exam is published and the student's attempts at it are fewer than maxAttempts, with their number plus one; otherwise nothing changes |
| ExamAttempts.SubmissionMeans | src/modules/exams/exams.service.ts:108-133 | one stored answer per answer, the score their marks added up, passed iff at least the pass mark, minutes within half a minute of the time taken |
| ExamAttempts.AttemptsAreNumbered | src/modules/exams/exams.service.ts:84-92 | over every run a student's attempts at an exam are numbered 1, 2, ..., n in order and n <= maxAttempts |
| ExamAttempts.SubmissionsAreConsistent | src/modules/exams/exams.service.ts:122-133 | every stored score is the sum of the stored marks and decides isPassed |
| CsvExport.ExportRoundTripsIff | src/modules/analytics/analytics.service.ts:417-426 | reading the file recovers exactly header and rows iff names are plain, values have a comma or no quote and no line break, and the last row is not one empty value |
| CsvExport.TableMeans | src/modules/analytics/analytics.service.ts:417-423 | the table compared with holds the first row's names and each value's text, nothing for null and undefined |
| CsvExport.NoRowsNoFile | src/modules/analytics/analytics.service.ts:417 | no rows give an empty file |
| CsvExport.SmallExport | src/modules/analytics/analytics.service.ts:417-426 | one whole file, with a quoted field, a doubled quote and a null |
| CsvExport.LinesReadBackIff | src/modules/analytics/analytics.service.ts:419-426 | the same for printed lines of cells |
| CsvExport.GoodLineRun | src/modules/analytics/analytics.service.ts:420-425 | a line of good cells is read back cell by cell |
| CsvExport.BadLineRun | src/modules/analytics/analytics.service.ts:420-425 | a line with a bad cell never is |
| CsvExport.BadCellRun | src/modules/analytics/analytics.service.ts:421-424 | an unquoted field with a special character is read as something else or refused, whatever follows |
| Slug.SlugIsOnePass | src/common/utils/slug.util.ts:1-8 | the chain of replacements equals one pass: word characters stay, each separator run becomes one hyphen, the rest goes |
| Slug.SlugIsSlug | src/common/utils/slug.util.ts:1-8 | only [a-z0-9_-] and no two hyphens side by side |
| Slug.FixedPointsAreSlugs | src/common/utils/slug.util.ts:1-8 | generateSlug leaves exactly the slugs unchanged |
| Slug.SlugIsIdempotent | src/common/utils/slug.util.ts:1-8 | generateSlug is idempotent |
| Slug.CounterIsBounded | src/common/utils/slug.util.ts:13-16 | pigeonhole: with all candidates so far taken the counter is at most the list length plus one |
| Slug.GenerateUniqueSlug | src/common/utils/slug.util.ts:10-18 | the result is free; the base if that is free, else the candidate with the least free counter, at most the list length plus one |
| Slug.CandidateIsSlugIff | src/common/utils/slug.util.ts:14-17 | a numbered slug has the slug form iff the base does not end with a hyphen |
| Pagination.PagesTile | src/common/utils/pagination.util.ts:74-86 | pages 1..totalPages concatenate to the result |
| Pagination.PageBounds | src/common/utils/pagination.util.ts:112-124 | a page is empty iff it lies beyond totalPages; hasNext iff rows remain; no page exceeds the limit |
| Pagination.ParamsInRange | src/common/utils/pagination.util.ts:142-150 | the limit is within 1..100 and the page at least 1, infinite only if asked |
| Pagination.ParamsMean | src/common/utils/pagination.util.ts:147-149 | missing, unreadable and zero parameters give 1 and 10, others are cut to 1.. and 1..100 |
| Pagination.MetaMeans | src/common/utils/pagination.util.ts:80-100 | totalPages is the least number of pages holding all rows, 0 for a limit that is not positive; hasNext iff rows remain |
| Pagination.ParamsWholeIff | src/common/utils/pagination.util.ts:147-149 | page and limit are whole iff the query holds no fraction inside the accepted range and no infinite page |
| Attendance.AttendanceTable.FindExisting | src/modules/teachers/teachers.service.ts:628-632 | some row with the key, or none exists |
| Attendance.AttendanceTable.MarkAttendance | src/modules/teachers/teachers.service.ts:618-651 | the entries upserted in order, or the error and no change |
| Attendance.MarkingKeepsUniqueIff | src/modules/teachers/teachers.service.ts:627-647 | keys are unique after marking iff they were before |
| Attendance.MarkingEffect | src/modules/teachers/teachers.service.ts:627-647 | for every table: a key not marked keeps its rows; a marked one that had n has max(1, n), among them the last entry's |
| Attendance.MarkingWrites | src/modules/teachers/teachers.service.ts:627-647 | each student's last entry is in the table with its status, note and the marking teacher |
| Attendance.MarkingLeavesOthers | src/modules/teachers/teachers.service.ts:627-647 | rows of other groups, dates and students stay, each as often as it was there |
| Attendance.UnmarkedIsPresent | src/modules/teachers/teachers.service.ts:609-615 | a member without a row for the group and date has one line, PRESENT without a note |
| Attendance.MarkedIsShown | src/modules/teachers/teachers.service.ts:609-615 | every row of a member shows among the member's lines with its status and note, an empty note as none |
| Attendance.SheetHasOneLineEachIff | src/modules/teachers/teachers.service.ts:592-615 | one line per member iff no member has two rows for the group and date |
| Attendance.SheetAfterMarking | src/modules/teachers/teachers.service.ts:592-648 | for every table the sheet keeps its length and every member their place; listed members show the last entry, alone if they had at most one row, others what they showed before |
| Attendance.SheetLines | src/modules/teachers/teachers.service.ts:609-615 | each member's lines stand at a known offset: the marked rows, or one PRESENT line |
| RecurringSchedule.BulkCreate | src/modules/schedules/schedules.service.ts:42-63 | the loop ends and emits, in increasing order, exactly the dates of the span whose weekday is requested, with 1 January 1970 a Thursday |
| RecurringSchedule.WeekdayMeans | src/modules/schedules/schedules.service.ts:49 | weekdays run 1 to 7 from Monday, counted from a Thursday, and each day is one further than the day before |
| RecurringSchedule.RequestedIsExact | src/modules/schedules/schedules.service.ts:48-60 | exactly the dates whose weekday (Sunday as 7) is requested, strictly increasing |
| RecurringSchedule.OneWeek | src/modules/schedules/schedules.service.ts:49-50 | any seven days in a row hold each requested weekday once |
| RecurringSchedule.LessonCount | src/modules/schedules/schedules.service.ts:48-60 | n days give between d * floor(n/7) and d * ceil(n/7) lessons |
| BranchFinance.BranchBreakdown | src/modules/owner/owner.service.ts:647-674 | one line per name in order of first appearance, each with the rows naming it, and the fallback's with those naming none |
| BranchFinance.FallbackIs | src/modules/owner/owner.service.ts:178-182 | rows without a branch go to the first branch marked main, else the first one, and to "Unassigned" if that has no string name or none is listed |
| BranchFinance.BreakdownIsByFallback | src/modules/owner/owner.service.ts:655-674 | each line's sums are those of the rows naming it, and for the fallback's line also of every row naming no branch |
| BranchFinance.BreakdownIsInOrder | src/modules/owner/owner.service.ts:650-667 | each name met has one line, in the order listed branches, income rows, expense rows first name it |
| BranchFinance.ParseMeans | src/modules/owner/owner.service.ts:159-171 | an array counts, stored as JSON or as text; anything else is no branches |
| BranchFinance.ListBranches | src/modules/owner/owner.service.ts:650-654 | every listed branch starts at zero, duplicates once |
| BranchFinance.AddIncome | src/modules/owner/owner.service.ts:655-660 | after the income rows every entry holds the income resolved to it |
| BranchFinance.AddExpenses | src/modules/owner/owner.service.ts:661-666 | after the expense rows every entry holds both sums |
| BranchFinance.BreakdownConserves | src/modules/owner/owner.service.ts:650-674 | names are distinct, and revenue, expenses and profit add up to those of all rows, for any branch list and row names |
| BranchFinance.NetProfitsAddUp | src/modules/owner/owner.service.ts:635-674 | branch profits sum to the top-level net profit when the rows partition the totals |
| BranchFinance.UnnamedRowsLandOnFallback | src/modules/owner/owner.service.ts:178-182 | a branch has the rows naming it, and the fallback alone also every row naming none |
| BranchFinance.FallbackIsListed | src/modules/owner/owner.service.ts:178-182 | the fallback is a listed branch whenever one is listed |
| BranchFinance.MainIndex | src/modules/owner/owner.service.ts:179 | the main branch is the first one marked main |
| BranchFinance.MethodShareMeans | src/modules/owner/owner.service.ts:720-727 | each method keeps name and amount, its percentage is the nearest to its share, 0 without a total |
| BranchFinance.MethodTotalIs | src/modules/owner/owner.service.ts:719 | the total adds every method, unreadable amounts as 0 |
| BranchFinance.PercentagesNearHundred | src/modules/owner/owner.service.ts:719-727 | each percentage is within 0..100 and their sum is more than 100 - n/2 and at most 100 + n/2 |

## Left out

- SQL execution, TypeORM, transactions and event emission: tables are maps or sequences and a query is its set-level meaning; the rows of a query without ORDER BY come in an arbitrary order.
- Row ids, the clock, the outcome of the password comparison and the result of JSON.parse are inputs; ids of new rows are fresh.
- Money is `real`: decimal columns rounding to cents and JavaScript floating point are not modelled.
- Time zones and daylight saving: times are milliseconds and dates are day numbers.
- `PaymentsService.update`, receipts, webhook, subscriptions and the debt summary: free field overwrites, I/O and plain reads; columns that no modelled step reads (currency, notes, method) are omitted.
- Deleting rows: no modelled endpoint deletes payments, invoices, students or attempts, so row counts only grow.
- Editing an exam between attempts: the exam's questions and limit are fixed during a run.
- Lower-casing outside ASCII in slugs, except the two characters whose lower case contains an ASCII letter: slugs drop other scripts anyway. Exams are graded under any lower-casing.
- Object.keys order of integer-like column names: a row is its list of columns in the order printed.
- Null elements inside the tenant's branch list, on which the source throws.
- LedgerHistory.DebtIsBounded: runs take discountPercent <= 100 and discount value >= 0 as documented, because a negative total or a negative discount breaks the figures; `LedgerInvariants.BilledTotalSign` gives the exact condition for created totals.
- LedgerInvariants.CodesAreUnique: requests one after the other; `NumberDrawing.CountsDistinctIff` has overlapping ones.
- LedgerInvariants.EveryPaymentInvoicedIff: other tenants appear only through the numbers of their invoices.
- OverdueInterleaving.MirroredIff: the job's statements are separate steps, each request is one.
- The rest of the analytics, owner and teacher services, controllers, validation, guards, mail, storage and migrations.
