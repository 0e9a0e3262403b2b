/** Exam attempts: how they are numbered, and what a submitted attempt stores. */
module ExamAttempts {
  import opened Common
  import opened SeqSums
  import opened Text
  import opened ExamGrading

  const MINUTE := 60000

  datatype Exam = Exam(isPublished: bool, maxAttempts: int, passingMarks: real, questions: seq<Question>)

  datatype Submission = Submission(
    answers: seq<Graded>,
    score: real,
    isPassed: bool,
    submittedAt: int,
    timeTakenMinutes: int)

  datatype Attempt = Attempt(
    id: Id,
    examId: Id,
    studentId: Id,
    attemptNumber: nat,
    startedAt: int,
    submission: Option<Submission>)

  datatype Error = ExamNotFound | NotPublished | AttemptsExhausted | AttemptNotFound

  datatype State = State(exams: map<Id, Exam>, attempts: seq<Attempt>)

  /** The numbers given to a student's attempts at an exam, in the order the attempts were made. */
  function Numbers(attempts: seq<Attempt>, examId: Id, studentId: Id): seq<nat> {
    if attempts == [] then []
    else
      var front, last := attempts[..|attempts| - 1], attempts[|attempts| - 1];
      Numbers(front, examId, studentId)
      + if last.examId == examId && last.studentId == studentId then [last.attemptNumber] else []
  }

  function Start(s: State, id: Id, examId: Id, studentId: Id, now: int): (State, Result<Attempt, Error>) {
    if examId !in s.exams then (s, Err(ExamNotFound))
    else if !s.exams[examId].isPublished then (s, Err(NotPublished))
    else
      var existing := |Numbers(s.attempts, examId, studentId)|;
      if existing >= s.exams[examId].maxAttempts then (s, Err(AttemptsExhausted))
      else
        var a := Attempt(id, examId, studentId, existing + 1, now, None);
        (s.(attempts := s.attempts + [a]), Ok(a))
  }

  function GradeAll(lower: Casing, qs: seq<Question>, answers: seq<Answer>): (r: seq<Graded>)
    ensures |r| == |answers| && forall i :: 0 <= i < |answers| ==> r[i] == Grade(lower, qs, answers[i])
  {
    seq(|answers|, i requires 0 <= i < |answers| => Grade(lower, qs, answers[i]))
  }

  ghost function SubmissionOf(lower: Casing, exam: Exam, a: Attempt, answers: seq<Answer>, now: int): Submission {
    var score := SubmitScore(lower, exam.questions, answers);
    Submission(GradeAll(lower, exam.questions, answers), score, score >= exam.passingMarks, now,
               Round((now - a.startedAt) as real / MINUTE as real))
  }

  ghost function WithSubmission(lower: Casing, s: State, a: Attempt, answers: seq<Answer>, now: int): Attempt
    requires a.examId in s.exams
  {
    a.(submission := Some(SubmissionOf(lower, s.exams[a.examId], a, answers, now)))
  }

  predicate IsAt(s: State, i: int, id: Id, studentId: Id) {
    0 <= i < |s.attempts| && s.attempts[i].id == id && s.attempts[i].studentId == studentId
  }

  ghost predicate Missing(s: State, id: Id, studentId: Id) {
    forall i :: 0 <= i < |s.attempts| ==> !IsAt(s, i, id, studentId)
  }

  /** A submitted attempt may be submitted again: only its submission columns are rewritten. */
  ghost predicate Submitted(lower: Casing, s: State, t: State, i: nat, answers: seq<Answer>, now: int) {
    && i < |s.attempts| && s.attempts[i].examId in s.exams
    && t == s.(attempts := s.attempts[i := WithSubmission(lower, s, s.attempts[i], answers, now)])
  }

  class ExamsService {
    const lower: Casing
    var exams: map<Id, Exam>
    var attempts: seq<Attempt>

    function View(): State
      reads this
    {
      State(exams, attempts)
    }

    constructor (lower: Casing, exams: map<Id, Exam>)
      ensures View() == State(exams, []) && this.lower == lower
    {
      this.lower, this.exams, attempts := lower, exams, [];
    }

    /** SELECT COUNT(*) over the student's attempts at the exam. */
    method CountAttempts(examId: Id, studentId: Id) returns (count: nat)
      ensures count == |Numbers(attempts, examId, studentId)|
    {
      count := 0;
      for k := 0 to |attempts|
        invariant count == |Numbers(attempts[..k], examId, studentId)|
      {
        assert attempts[..k + 1][..k] == attempts[..k];
        if attempts[k].examId == examId && attempts[k].studentId == studentId {
          count := count + 1;
        }
      }
      assert attempts[..|attempts|] == attempts;
    }

    method StartAttempt(id: Id, examId: Id, studentId: Id, now: int) returns (r: Result<Attempt, Error>)
      modifies this`attempts
      ensures (View(), r) == Start(old(View()), id, examId, studentId, now)
    {
      if examId !in exams {
        return Err(ExamNotFound);
      }
      var exam := exams[examId];
      if !exam.isPublished {
        return Err(NotPublished);
      }
      var existingCount := CountAttempts(examId, studentId);
      if existingCount >= exam.maxAttempts {
        return Err(AttemptsExhausted);
      }
      var attempt := Attempt(id, examId, studentId, existingCount + 1, now, None);
      attempts := attempts + [attempt];
      r := Ok(attempt);
    }

    method FindAttempt(id: Id, studentId: Id) returns (i: int)
      ensures i >= 0 ==> IsAt(View(), i, id, studentId)
      ensures i < 0 ==> Missing(View(), id, studentId)
    {
      i := 0;
      while i < |attempts|
        invariant 0 <= i <= |attempts|
        invariant forall k :: 0 <= k < i ==> !IsAt(View(), k, id, studentId)
      {
        if attempts[i].id == id && attempts[i].studentId == studentId {
          return;
        }
        i := i + 1;
      }
      i := -1;
    }

    method SubmitAttempt(id: Id, studentId: Id, answers: seq<Answer>, now: int) returns (r: Result<Attempt, Error>)
      modifies this`attempts
      ensures r.Err? ==> View() == old(View())
      ensures r == Err(AttemptNotFound) <==> Missing(old(View()), id, studentId)
      ensures r.Ok? ==> exists i: nat :: IsAt(old(View()), i, id, studentId)
                                         && Submitted(lower, old(View()), View(), i, answers, now)
                                         && r.value == attempts[i]
    {
      var i := FindAttempt(id, studentId);
      if i < 0 {
        return Err(AttemptNotFound);
      }
      var attempt := attempts[i];
      assert IsAt(View(), i, id, studentId);
      if attempt.examId !in exams {
        return Err(ExamNotFound);
      }
      var exam := exams[attempt.examId];
      var totalScore, gradedAnswers := GradeAnswers(lower, exam.questions, answers);
      assert gradedAnswers == GradeAll(lower, exam.questions, answers);
      var timeTaken := Round((now - attempt.startedAt) as real / 60000.0);
      var isPassed := totalScore >= exam.passingMarks;
      attempt := attempt.(submission := Some(Submission(gradedAnswers, totalScore, isPassed, now, timeTaken)));
      attempts := attempts[i := attempt];
      assert Submitted(lower, old(View()), View(), i, answers, now);
      r := Ok(attempt);
    }
  }

  // ----- runs -----

  datatype Event =
    | EvStart(id: Id, examId: Id, studentId: Id, now: int)
    | EvSubmit(i: nat, answers: seq<Answer>, now: int)   // the attempt found is the i-th row

  ghost function Apply(lower: Casing, s: State, e: Event): State {
    match e
    case EvStart(id, examId, studentId, now) => Start(s, id, examId, studentId, now).0
    case EvSubmit(i, answers, now) =>
      if i < |s.attempts| && s.attempts[i].examId in s.exams then
        s.(attempts := s.attempts[i := WithSubmission(lower, s, s.attempts[i], answers, now)])
      else s
  }

  ghost function Run(lower: Casing, exams: map<Id, Exam>, es: seq<Event>): State {
    if es == [] then State(exams, []) else Apply(lower, Run(lower, exams, es[..|es| - 1]), es[|es| - 1])
  }

  function OneTo(n: nat): seq<nat> {
    seq(n, i => i + 1)
  }

  lemma {:induction false} SubmissionKeepsNumbers(attempts: seq<Attempt>, i: nat, a: Attempt, examId: Id, studentId: Id)
    requires i < |attempts| && a == attempts[i].(submission := a.submission)
    ensures Numbers(attempts[i := a], examId, studentId) == Numbers(attempts, examId, studentId)
  {
    var changed, n := attempts[i := a], |attempts| - 1;
    if i < n {
      assert changed[..n] == attempts[..n][i := a];
      SubmissionKeepsNumbers(attempts[..n], i, a, examId, studentId);
    } else {
      assert changed[..n] == attempts[..n];
    }
  }

  /**
    In every run a student's attempts at an exam are numbered exactly 1, 2, ..., n in the order they were
    started, and n never passes the exam's limit.
   */
  lemma {:induction false} AttemptsAreNumbered(
    lower: Casing, exams: map<Id, Exam>, es: seq<Event>, examId: Id, studentId: Id)
    ensures var numbers := Numbers(Run(lower, exams, es).attempts, examId, studentId);
            && numbers == OneTo(|numbers|)
            && (numbers != [] ==>
                  examId in exams && exams[examId].isPublished && |numbers| <= exams[examId].maxAttempts)
    ensures Run(lower, exams, es).exams == exams
  {
    if es != [] {
      var s, e := Run(lower, exams, es[..|es| - 1]), es[|es| - 1];
      AttemptsAreNumbered(lower, exams, es[..|es| - 1], examId, studentId);
      match e
      case EvStart(id, exam, student, now) =>
        var t := Start(s, id, exam, student, now).0;
        if t != s {
          assert t.attempts[..|t.attempts| - 1] == s.attempts;
          StartNumbers(s, id, exam, student, now, examId, studentId);
        }
      case EvSubmit(i, answers, now) =>
        if i < |s.attempts| && s.attempts[i].examId in s.exams {
          SubmissionKeepsNumbers(s.attempts, i, Apply(lower, s, e).attempts[i], examId, studentId);
        }
    }
  }

  lemma {:induction false} StartNumbers(s: State, id: Id, exam: Id, student: Id, now: int, examId: Id, studentId: Id)
    requires Start(s, id, exam, student, now).1.Ok?
    ensures var before := Numbers(s.attempts, examId, studentId);
            var t := Start(s, id, exam, student, now).0;
            if exam == examId && student == studentId
            then before == OneTo(|before|) ==> Numbers(t.attempts, examId, studentId) == OneTo(|before| + 1)
            else Numbers(t.attempts, examId, studentId) == before
  {
    var t := Start(s, id, exam, student, now).0;
    assert t.attempts[..|t.attempts| - 1] == s.attempts;
  }

  /** What is stored with a submission: the score is the sum of the stored marks, and passing is decided by it. */
  ghost predicate SubmissionOk(exam: Exam, a: Attempt) {
    a.submission.Some? ==>
      var sub := a.submission.value;
      && sub.score == SumOf(sub.answers, StoredMarks())
      && (sub.isPassed <==> sub.score >= exam.passingMarks)
      && (forall i :: 0 <= i < |sub.answers| ==> (!sub.answers[i].isCorrect ==> sub.answers[i].marks == 0.0))
  }

  lemma {:induction false} SubmissionsAreConsistent(lower: Casing, exams: map<Id, Exam>, es: seq<Event>, k: nat)
    requires k < |Run(lower, exams, es).attempts|
    ensures Run(lower, exams, es).attempts[k].examId in exams
    ensures SubmissionOk(exams[Run(lower, exams, es).attempts[k].examId], Run(lower, exams, es).attempts[k])
  {
    var s, e := Run(lower, exams, es[..|es| - 1]), es[|es| - 1];
    AttemptsAreNumbered(lower, exams, es[..|es| - 1], 0, 0);
    if k < |s.attempts| {
      SubmissionsAreConsistent(lower, exams, es[..|es| - 1], k);
      if e.EvSubmit? && e.i == k {
        var qs := exams[s.attempts[k].examId].questions;
        SumSame(e.answers, GradeAll(lower, qs, e.answers), GradeWeight(lower, qs), StoredMarks());
      }
    }
  }

  // ----- what starting and submitting mean -----

  /** The rows of the student's attempts at the exam. */
  ghost function AttemptRows(attempts: seq<Attempt>, examId: Id, studentId: Id): set<int> {
    set i | 0 <= i < |attempts| && attempts[i].examId == examId && attempts[i].studentId == studentId
  }

  lemma {:induction false} NumbersAreCounted(attempts: seq<Attempt>, examId: Id, studentId: Id)
    ensures |Numbers(attempts, examId, studentId)| == |AttemptRows(attempts, examId, studentId)|
  {
    if attempts == [] {
      assert AttemptRows(attempts, examId, studentId) == {};
    } else {
      var n := |attempts| - 1;
      NumbersAreCounted(attempts[..n], examId, studentId);
      var mine := attempts[n].examId == examId && attempts[n].studentId == studentId;
      assert AttemptRows(attempts, examId, studentId)
          == AttemptRows(attempts[..n], examId, studentId) + if mine then {n} else {};
    }
  }

  /** An attempt starts exactly when the exam is published and the student has made fewer than allowed. */
  lemma {:induction false} StartSucceedsIff(s: State, id: Id, examId: Id, studentId: Id, now: int)
    ensures var (t, r) := Start(s, id, examId, studentId, now);
            var made := |AttemptRows(s.attempts, examId, studentId)|;
            && (r.Ok? <==> examId in s.exams && s.exams[examId].isPublished && made < s.exams[examId].maxAttempts)
            && (r.Ok? ==>
                  && r.value == Attempt(id, examId, studentId, made + 1, now, None)
                  && t == s.(attempts := s.attempts + [r.value]))
            && (r.Err? ==> t == s)
            && (r == Err(ExamNotFound) <==> examId !in s.exams)
            && (r == Err(NotPublished) <==> examId in s.exams && !s.exams[examId].isPublished)
  {
    NumbersAreCounted(s.attempts, examId, studentId);
  }

  /** What is stored: one graded answer per answer, their marks added up, and the minutes taken, halves up. */
  lemma {:induction false} SubmissionMeans(lower: Casing, exam: Exam, a: Attempt, answers: seq<Answer>, now: int)
    ensures var sub := SubmissionOf(lower, exam, a, answers, now);
            && |sub.answers| == |answers|
            && (forall i :: 0 <= i < |answers| ==>
                  && sub.answers[i].questionId == answers[i].questionId && sub.answers[i].answer == answers[i].answer)
            && sub.score == SumOf(sub.answers, (g: Graded) => g.marks)
            && (sub.isPassed <==> exam.passingMarks <= sub.score)
            && sub.submittedAt == now
            && sub.timeTakenMinutes * 60000 - 30000 <= now - a.startedAt < sub.timeTakenMinutes * 60000 + 30000
  {
    var sub := SubmissionOf(lower, exam, a, answers, now);
    SumSame(answers, sub.answers, GradeWeight(lower, exam.questions), (g: Graded) => g.marks);
    MinutesAreRounded(now - a.startedAt);
  }

  lemma {:induction false} MinutesAreRounded(elapsed: int)
    ensures var m := Round(elapsed as real / MINUTE as real); m * 60000 - 30000 <= elapsed < m * 60000 + 30000
  {
    var x := elapsed as real / 60000.0;
    var m := Round(x);
    assert x * 60000.0 == elapsed as real;
    assert m as real <= x + 0.5 < m as real + 1.0;
    assert (m * 60000 - 30000) as real <= elapsed as real < (m * 60000 + 30000) as real;
  }
}
