/** The nightly overdue job: its loop in any processing order, and what a run of it establishes. */
module LedgerOverdue {
  import opened Common
  import opened MapSums
  import opened LedgerModel
  import opened LedgerInvariants

  ghost predicate AllPending(s: State, ids: set<Id>) {
    forall pid :: pid in ids ==> pid in s.payments && s.payments[pid].status.Pending?
  }

  lemma {:induction false} FlippingKeepsOwed(s: State, ids: set<Id>, sid: Id)
    requires AllPending(s, ids)
    ensures Owed(FlipSet(s, ids), sid) == Owed(s, sid)
  {
    SumCongruent(s.payments, FlipSet(s, ids).payments, OwedWeight(sid), OwedWeight(sid));
  }

  /** One more iteration on top of a flipped set is the set with one more payment in it. */
  lemma {:induction false} FlipOneMore(s: State, ids: set<Id>, pid: Id)
    requires AllPending(s, ids + {pid}) && pid !in ids
    ensures pid in FlipSet(s, ids).payments && FlipOne(FlipSet(s, ids), pid) == FlipSet(s, ids + {pid})
  {
    var before, after := FlipSet(s, ids), FlipSet(s, ids + {pid});
    var p := s.payments[pid];
    var flipped := before.(payments := before.payments[pid := p.(status := Overdue)]);
    assert flipped.payments == after.payments;
    FlippingKeepsOwed(s, ids + {pid}, p.studentId);
    assert Owed(flipped, p.studentId) == Owed(s, p.studentId);
    TouchedByOneMore(s, ids, pid);
    assert FlipOne(before, pid).students == after.students;
  }

  lemma {:induction false} TouchedByOneMore(s: State, ids: set<Id>, pid: Id)
    requires pid in s.payments
    ensures forall sid :: Touched(s, ids + {pid}, sid) <==> Touched(s, ids, sid) || sid == s.payments[pid].studentId
  {
    forall sid ensures Touched(s, ids + {pid}, sid) <==> Touched(s, ids, sid) || sid == s.payments[pid].studentId {
      if Touched(s, ids, sid) {
        var q :| q in ids && q in s.payments && s.payments[q].studentId == sid;
        assert q in ids + {pid};
      }
      if sid == s.payments[pid].studentId {
        assert pid in ids + {pid};
      }
    }
  }

  ghost function ToSet(rows: seq<Id>): set<Id> {
    set i | 0 <= i < |rows| :: rows[i]
  }

  ghost predicate Distinct(rows: seq<Id>) {
    forall i, j :: 0 <= i < j < |rows| ==> rows[i] != rows[j]
  }

  /** The rows the query returns, in whatever order the database chose. */
  ghost predicate Enumerates(rows: seq<Id>, ids: set<Id>) {
    Distinct(rows) && ToSet(rows) == ids
  }

  lemma {:induction false} OneMoreRow(rows: seq<Id>, pid: Id)
    requires Distinct(rows) && pid !in ToSet(rows)
    ensures Distinct(rows + [pid]) && ToSet(rows + [pid]) == ToSet(rows) + {pid}
  {
    var more := rows + [pid];
    assert forall i :: 0 <= i < |rows| ==> more[i] == rows[i] && rows[i] in ToSet(rows);
    assert more[|rows|] == pid;
    forall id | id in ToSet(rows) ensures id in ToSet(more) {
      var i :| 0 <= i < |rows| && rows[i] == id;
      assert more[i] == id;
    }
  }

  /** The loop: rows processed one after the other. */
  ghost function FlipAll(s: State, rows: seq<Id>): State {
    if rows == [] then s
    else
      var t := FlipAll(s, rows[..|rows| - 1]);
      if rows[|rows| - 1] in t.payments then FlipOne(t, rows[|rows| - 1]) else t
  }

  lemma {:induction false} FlipNothing(s: State)
    ensures FlipSet(s, {}) == s
  {
    assert FlipSet(s, {}).payments == s.payments && FlipSet(s, {}).students == s.students;
  }

  lemma {:induction false} FlipAllIsFlipSet(s: State, rows: seq<Id>)
    requires Distinct(rows) && AllPending(s, ToSet(rows))
    ensures FlipAll(s, rows) == FlipSet(s, ToSet(rows))
  {
    if rows == [] {
      FlipNothing(s);
    } else {
      var front, last := rows[..|rows| - 1], rows[|rows| - 1];
      LastOfSet(rows);
      FlipAllIsFlipSet(s, front);
      FlipOneMore(s, ToSet(front), last);
    }
  }

  lemma {:induction false} LastOfSet(rows: seq<Id>)
    requires rows != [] && Distinct(rows)
    ensures var front, last := rows[..|rows| - 1], rows[|rows| - 1];
            ToSet(rows) == ToSet(front) + {last} && last !in ToSet(front)
  {
    assert rows == rows[..|rows| - 1] + [rows[|rows| - 1]];
  }

  /** The loop invariant: after k iterations the first k rows are flipped. */
  lemma {:induction false} NextIteration(s: State, rows: seq<Id>, k: nat)
    requires Distinct(rows) && AllPending(s, ToSet(rows)) && k < |rows|
    ensures var done := FlipSet(s, ToSet(rows[..k]));
            rows[k] in done.payments && FlipOne(done, rows[k]) == FlipSet(s, ToSet(rows[..k + 1]))
  {
    LastOfSet(rows[..k + 1]);
    assert rows[..k + 1][..k] == rows[..k];
    assert rows[k] in ToSet(rows);
    FlipOneMore(s, ToSet(rows[..k]), rows[k]);
  }

  /** The final state does not depend on the order in which the due payments are processed. */
  lemma {:induction false} ProcessingOrderIsIrrelevant(s: State, now: int, rows: seq<Id>, other: seq<Id>)
    requires Enumerates(rows, DueIds(s, now)) && Enumerates(other, DueIds(s, now))
    ensures FlipAll(s, rows) == FlipAll(s, other) == OverdueJob(s, now)
  {
    FlipAllIsFlipSet(s, rows);
    FlipAllIsFlipSet(s, other);
  }

  /**
    After the job at time now nothing pending is due, touched students owe exactly what is stored, and others are
    as before.
   */
  lemma {:induction false} OverdueJobEffect(s: State, now: int)
    requires PaymentsOk(s)
    ensures var t := OverdueJob(s, now);
            && DueIds(t, now) == {}
            && t.invoices == s.invoices && t.discounts == s.discounts && t.students.Keys == s.students.Keys
    ensures forall sid :: Owed(OverdueJob(s, now), sid) == Owed(s, sid)
    ensures forall sid :: Touched(s, DueIds(s, now), sid) ==>
              sid in s.students && OverdueJob(s, now).students[sid].debtAmount == Owed(OverdueJob(s, now), sid)
    ensures forall sid :: sid in s.students && !Touched(s, DueIds(s, now), sid) ==>
              OverdueJob(s, now).students[sid] == s.students[sid]
  {
    forall sid ensures Owed(OverdueJob(s, now), sid) == Owed(s, sid) {
      FlippingKeepsOwed(s, DueIds(s, now), sid);
    }
  }

  /** A second run at the same time changes nothing. */
  lemma {:induction false} OverdueJobIsIdempotent(s: State, now: int)
    ensures OverdueJob(OverdueJob(s, now), now) == OverdueJob(s, now)
  {
    var t := OverdueJob(s, now);
    assert DueIds(t, now) == {};
    FlipNothing(t);
  }

  /** Runs at t1 and later at t2 mark exactly the payments one run at t2 would have marked. */
  lemma OverdueJobCatchesUp(s: State, t1: int, t2: int)
    requires t1 <= t2
    ensures OverdueJob(OverdueJob(s, t1), t2).payments == OverdueJob(s, t2).payments
  {
  }
}
