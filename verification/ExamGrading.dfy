/**
  The two graders: submitAttempt walks the answers and looks questions up, autoGrade walks the questions and
  looks answers up. Everything here is for an arbitrary lower-casing, so for texts in any script.
 */
module ExamGrading {
  import opened Common
  import opened SeqSums
  import opened Text

  datatype QuestionType = MultipleChoice | TrueFalse | ShortAnswer | Essay | FillBlank

  datatype Choice = Choice(id: string, isCorrect: bool)

  datatype Question = Question(
    id: Id,
    kind: QuestionType,
    options: seq<Choice>,
    correctAnswer: Option<string>,
    marks: real)

  datatype Answer = Answer(questionId: Id, answer: string)

  datatype Graded = Graded(questionId: Id, answer: string, isCorrect: bool, marks: real)

  /** options.find((o) => o.isCorrect) */
  function CorrectOption(options: seq<Choice>): Option<Choice> {
    if options == [] then None
    else if options[0].isCorrect then Some(options[0])
    else CorrectOption(options[1..])
  }

  function FindQuestion(qs: seq<Question>, id: Id): Option<Question> {
    if qs == [] then None else if qs[0].id == id then Some(qs[0]) else FindQuestion(qs[1..], id)
  }

  function Norm(lower: Casing, s: string): string {
    Trim(lower(s))
  }

  // ----- submitAttempt: by answer -----

  predicate IsCorrect(lower: Casing, q: Question, answer: string) {
    if q.kind.MultipleChoice? || q.kind.TrueFalse? then
      CorrectOption(q.options).Some? && CorrectOption(q.options).value.id == answer
    else
      q.correctAnswer.Some? && q.correctAnswer.value != "" && Norm(lower, q.correctAnswer.value) == Norm(lower, answer)
  }

  function Grade(lower: Casing, qs: seq<Question>, a: Answer): Graded {
    match FindQuestion(qs, a.questionId)
    case None => Graded(a.questionId, a.answer, false, 0.0)
    case Some(q) =>
      var right := IsCorrect(lower, q, a.answer);
      Graded(a.questionId, a.answer, right, if right then q.marks else 0.0)
  }

  ghost function GradeWeight(lower: Casing, qs: seq<Question>): Answer -> real {
    (a: Answer) => Grade(lower, qs, a).marks
  }

  ghost function StoredMarks(): Graded -> real {
    (g: Graded) => g.marks
  }

  ghost function SubmitScore(lower: Casing, qs: seq<Question>, answers: seq<Answer>): real {
    SumOf(answers, GradeWeight(lower, qs))
  }

  /** The callback submitAttempt maps over the answers. */
  method GradeAnswer(lower: Casing, qs: seq<Question>, a: Answer) returns (g: Graded)
    ensures g == Grade(lower, qs, a)
  {
    var question := FindQuestion(qs, a.questionId);
    if question.None? {
      return Graded(a.questionId, a.answer, false, 0.0);
    }
    var q := question.value;
    var isCorrect := false;
    if q.kind == MultipleChoice || q.kind == TrueFalse {
      var correctOption := CorrectOption(q.options);
      isCorrect := correctOption.Some? && correctOption.value.id == a.answer;
    } else if q.correctAnswer.Some? && q.correctAnswer.value != "" {
      isCorrect := Trim(lower(q.correctAnswer.value)) == Trim(lower(a.answer));
    }
    var marks := if isCorrect then q.marks else 0.0;
    g := Graded(a.questionId, a.answer, isCorrect, marks);
  }

  /** submitAttempt's walk: graded answers and total are built side by side. */
  method GradeAnswers(lower: Casing, qs: seq<Question>, answers: seq<Answer>)
    returns (totalScore: real, graded: seq<Graded>)
    ensures totalScore == SubmitScore(lower, qs, answers) == SumOf(graded, StoredMarks())
    ensures |graded| == |answers| && forall i :: 0 <= i < |answers| ==> graded[i] == Grade(lower, qs, answers[i])
  {
    totalScore, graded := 0.0, [];
    for k := 0 to |answers|
      invariant |graded| == k && forall i :: 0 <= i < k ==> graded[i] == Grade(lower, qs, answers[i])
      invariant totalScore == SumOf(answers[..k], GradeWeight(lower, qs)) == SumOf(graded, StoredMarks())
    {
      var g := GradeAnswer(lower, qs, answers[k]);
      SumSnoc(answers[..k], answers[k], GradeWeight(lower, qs));
      SumSnoc(graded, g, StoredMarks());
      assert answers[..k + 1] == answers[..k] + [answers[k]];
      totalScore := totalScore + g.marks;
      graded := graded + [g];
    }
    assert answers[..|answers|] == answers;
  }

  // ----- autoGrade: by question -----

  /** q.correct_answer || '' */
  function ExpectedText(q: Question): string {
    if q.correctAnswer.Some? then q.correctAnswer.value else ""
  }

  predicate AutoCorrect(lower: Casing, q: Question, answer: string) {
    match q.kind
    case MultipleChoice =>
      answer != "" && CorrectOption(q.options).Some? && answer == CorrectOption(q.options).value.id
    case TrueFalse => answer != "" && lower(answer) == lower(ExpectedText(q))
    case ShortAnswer => answer != "" && lower(answer) == lower(ExpectedText(q))
    case _ => false
  }

  ghost function AutoWeight(lower: Casing, answers: map<Id, string>): Question -> real {
    (q: Question) => if q.id in answers && AutoCorrect(lower, q, answers[q.id]) then q.marks else 0.0
  }

  ghost function AutoScore(lower: Casing, qs: seq<Question>, answers: map<Id, string>): real {
    SumOf(qs, AutoWeight(lower, answers))
  }

  method AutoGrade(lower: Casing, qs: seq<Question>, answers: map<Id, string>) returns (score: real)
    ensures score == AutoScore(lower, qs, answers)
  {
    score := 0.0;
    for k := 0 to |qs|
      invariant score == SumOf(qs[..k], AutoWeight(lower, answers))
    {
      var q := qs[k];
      SumSnoc(qs[..k], q, AutoWeight(lower, answers));
      assert qs[..k + 1] == qs[..k] + [q];
      if q.id !in answers || answers[q.id] == "" {
        continue;
      }
      var studentAnswer := answers[q.id];
      if q.kind == MultipleChoice {
        var correct := CorrectOption(q.options);
        if correct.Some? && studentAnswer == correct.value.id {
          score := score + q.marks;
        }
      } else if q.kind == TrueFalse || q.kind == ShortAnswer {
        if lower(studentAnswer) == lower(ExpectedText(q)) {
          score := score + q.marks;
        }
      }
    }
    assert qs[..|qs|] == qs;
  }

  // ----- hypotheses -----

  ghost predicate UniqueIds(qs: seq<Question>) {
    forall i, j :: 0 <= i < j < |qs| ==> qs[i].id != qs[j].id
  }

  ghost predicate MarksOk(qs: seq<Question>) {
    forall i :: 0 <= i < |qs| ==> qs[i].marks >= 0.0
  }

  ghost predicate DistinctQuestions(answers: seq<Answer>) {
    forall i, j :: 0 <= i < j < |answers| ==> answers[i].questionId != answers[j].questionId
  }

  /** The same answers as autoGrade receives them. */
  function AsRecord(answers: seq<Answer>): map<Id, string> {
    if answers == [] then map[] else AsRecord(answers[1..])[answers[0].questionId := answers[0].answer]
  }

  // ----- re-indexing the answer-driven sum by question -----

  lemma {:induction false} FindQuestionFinds(qs: seq<Question>, id: Id)
    ensures var r := FindQuestion(qs, id);
            if r.Some? then r.value in qs && r.value.id == id
            else forall i :: 0 <= i < |qs| ==> qs[i].id != id
  {
    if qs != [] {
      FindQuestionFinds(qs[1..], id);
    }
  }

  lemma {:induction false} FindsTheOne(qs: seq<Question>, i: nat)
    requires UniqueIds(qs) && i < |qs|
    ensures FindQuestion(qs, qs[i].id) == Some(qs[i])
  {
    if i > 0 {
      FindsTheOne(qs[1..], i - 1);
    }
  }

  /**
    An answer is graded right exactly when the exam has its question and the answer is right for it. It then earns
    that question's marks, otherwise none.
   */
  lemma {:induction false} GradeMeans(lower: Casing, qs: seq<Question>, a: Answer)
    requires UniqueIds(qs)
    ensures var g := Grade(lower, qs, a);
            && g.questionId == a.questionId && g.answer == a.answer
            && (g.isCorrect <==> exists k :: 0 <= k < |qs| && qs[k].id == a.questionId
                                             && IsCorrect(lower, qs[k], a.answer))
            && (forall k :: 0 <= k < |qs| && qs[k].id == a.questionId && g.isCorrect ==> g.marks == qs[k].marks)
            && (!g.isCorrect ==> g.marks == 0.0)
  {
    FindQuestionFinds(qs, a.questionId);
    forall k | 0 <= k < |qs| && qs[k].id == a.questionId
      ensures FindQuestion(qs, a.questionId) == Some(qs[k])
    {
      FindsTheOne(qs, k);
    }
  }

  // ----- which answers are right -----

  /** options.find: the option picked is marked correct and no earlier one is. */
  lemma {:induction false} CorrectOptionMeans(options: seq<Choice>)
    ensures CorrectOption(options).None? <==> forall i :: 0 <= i < |options| ==> !options[i].isCorrect
    ensures forall i :: 0 <= i < |options| && options[i].isCorrect
                        && (forall j :: 0 <= j < i ==> !options[j].isCorrect) ==>
              CorrectOption(options) == Some(options[i])
    ensures CorrectOption(options).Some? ==>
              exists i :: 0 <= i < |options| && options[i].isCorrect && CorrectOption(options) == Some(options[i])
                          && forall j :: 0 <= j < i ==> !options[j].isCorrect
  {
    if options != [] && !options[0].isCorrect {
      var rest := options[1..];
      CorrectOptionMeans(rest);
      assert forall i :: 0 <= i < |rest| ==> rest[i] == options[i + 1];
      assert forall i :: 1 <= i < |options| ==> options[i] == rest[i - 1];
      if CorrectOption(rest).Some? {
        var i :| 0 <= i < |rest| && rest[i].isCorrect && CorrectOption(rest) == Some(rest[i])
                 && forall j :: 0 <= j < i ==> !rest[j].isCorrect;
        assert options[i + 1].isCorrect && forall j :: 1 <= j < i + 1 ==> options[j] == rest[j - 1];
      }
    }
  }

  /**
    A multiple-choice or true/false answer earns the question's marks on submission exactly when it is the id of the
    first option marked correct; a multiple-choice one in autoGrade too, unless it is empty.
   */
  lemma {:induction false} ChoiceIsRightIff(lower: Casing, qs: seq<Question>, a: Answer, k: nat)
    requires UniqueIds(qs) && k < |qs| && qs[k].id == a.questionId
    requires qs[k].kind == MultipleChoice || qs[k].kind == TrueFalse
    ensures Grade(lower, qs, a).isCorrect <==>
              exists i :: 0 <= i < |qs[k].options| && qs[k].options[i].isCorrect && qs[k].options[i].id == a.answer
                          && forall j :: 0 <= j < i ==> !qs[k].options[j].isCorrect
    ensures Grade(lower, qs, a).marks == if Grade(lower, qs, a).isCorrect then qs[k].marks else 0.0
    ensures qs[k].kind == MultipleChoice ==>
              (AutoCorrect(lower, qs[k], a.answer) <==>
                 a.answer != ""
                 && exists i :: 0 <= i < |qs[k].options| && qs[k].options[i].isCorrect
                                && qs[k].options[i].id == a.answer
                                && forall j :: 0 <= j < i ==> !qs[k].options[j].isCorrect)
  {
    FindsTheOne(qs, k);
    CorrectOptionMeans(qs[k].options);
  }

  /** Any other answer does when the question has a text and the two are equal, lower-cased and trimmed. */
  lemma {:induction false} TextIsRightIff(lower: Casing, qs: seq<Question>, a: Answer, k: nat)
    requires UniqueIds(qs) && k < |qs| && qs[k].id == a.questionId
    requires qs[k].kind != MultipleChoice && qs[k].kind != TrueFalse
    ensures Grade(lower, qs, a).isCorrect <==>
              && qs[k].correctAnswer.Some? && qs[k].correctAnswer.value != ""
              && Trim(lower(qs[k].correctAnswer.value)) == Trim(lower(a.answer))
    ensures Grade(lower, qs, a).marks == if Grade(lower, qs, a).isCorrect then qs[k].marks else 0.0
  {
    FindsTheOne(qs, k);
  }

  /** autoGrade compares true/false and short answers with the stored text, untrimmed; no essay or blank is right. */
  lemma AutoTextIsRightIff(lower: Casing, q: Question, answer: string)
    requires q.kind != MultipleChoice
    ensures AutoCorrect(lower, q, answer) <==>
              && (q.kind == TrueFalse || q.kind == ShortAnswer)
              && answer != ""
              && lower(answer) == lower(match q.correctAnswer case Some(text) => text case None => "")
  {
  }

  /** Changing the weight of one question by d changes the sum by d. */
  lemma {:induction false} SumPointChange(qs: seq<Question>, id: Id, w: Question -> real, u: Question -> real, d: real)
    requires UniqueIds(qs)
    requires forall i :: 0 <= i < |qs| && qs[i].id != id ==> w(qs[i]) == u(qs[i])
    requires forall i :: 0 <= i < |qs| && qs[i].id == id ==> w(qs[i]) == u(qs[i]) + d
    ensures SumOf(qs, w) == SumOf(qs, u) + if FindQuestion(qs, id).Some? then d else 0.0
  {
    if qs != [] {
      if qs[0].id == id {
        SumSame(qs[1..], qs[1..], w, u);
      } else {
        SumPointChange(qs[1..], id, w, u, d);
      }
    }
  }

  /** The questions that some answer in the list answers correctly. */
  ghost function Won(lower: Casing, qs: seq<Question>, answers: seq<Answer>): set<Id> {
    set i | 0 <= i < |answers| && Grade(lower, qs, answers[i]).isCorrect :: answers[i].questionId
  }

  ghost function WonWeight(won: set<Id>): Question -> real {
    (q: Question) => if q.id in won then q.marks else 0.0
  }

  /** No question gets two entries whose texts are equal up to case and surrounding white space. */
  ghost predicate NoRepeats(lower: Casing, answers: seq<Answer>) {
    forall i, j :: 0 <= i < j < |answers| && answers[i].questionId == answers[j].questionId ==>
      Norm(lower, answers[i].answer) != Norm(lower, answers[j].answer)
  }

  lemma {:induction false} WonOfHead(lower: Casing, qs: seq<Question>, answers: seq<Answer>)
    requires answers != []
    ensures Won(lower, qs, answers)
            == Won(lower, qs, answers[1..])
               + if Grade(lower, qs, answers[0]).isCorrect then {answers[0].questionId} else {}
  {
    var rest := answers[1..];
    forall id | id in Won(lower, qs, answers)
      ensures id in Won(lower, qs, rest) || (Grade(lower, qs, answers[0]).isCorrect && id == answers[0].questionId)
    {
      var i :| 0 <= i < |answers| && Grade(lower, qs, answers[i]).isCorrect && answers[i].questionId == id;
      if i > 0 { assert rest[i - 1] == answers[i]; }
    }
    forall i | 0 <= i < |rest| && Grade(lower, qs, rest[i]).isCorrect
      ensures rest[i].questionId in Won(lower, qs, answers)
    {
      assert answers[i + 1] == rest[i];
    }
  }

  /** The answer-driven score is the sum of the marks of the questions won, each counted once. */
  lemma {:induction false} ScoreIsSumOverWon(lower: Casing, qs: seq<Question>, answers: seq<Answer>)
    requires UniqueIds(qs) && NoRepeats(lower, answers)
    ensures SubmitScore(lower, qs, answers) == SumOf(qs, WonWeight(Won(lower, qs, answers)))
  {
    if answers == [] {
      assert Won(lower, qs, []) == {};
      NothingWon(qs);
    } else {
      var a, rest := answers[0], answers[1..];
      ScoreIsSumOverWon(lower, qs, rest);
      WonOfHead(lower, qs, answers);
      if Grade(lower, qs, a).isCorrect {
        NotWonBefore(lower, qs, answers);
        FindQuestionFinds(qs, a.questionId);
        var q := FindQuestion(qs, a.questionId).value;
        forall i | 0 <= i < |qs| && qs[i].id == a.questionId ensures qs[i] == q {
          FindsTheOne(qs, i);
        }
        SumPointChange(qs, a.questionId, WonWeight(Won(lower, qs, answers)), WonWeight(Won(lower, qs, rest)), q.marks);
      } else {
        assert Won(lower, qs, answers) == Won(lower, qs, rest);
      }
    }
  }

  lemma {:induction false} NothingWon(qs: seq<Question>)
    ensures SumOf(qs, WonWeight({})) == 0.0
  {
    if qs != [] {
      NothingWon(qs[1..]);
    }
  }

  lemma {:induction false} NotWonBefore(lower: Casing, qs: seq<Question>, answers: seq<Answer>)
    requires answers != [] && NoRepeats(lower, answers) && Grade(lower, qs, answers[0]).isCorrect
    ensures answers[0].questionId !in Won(lower, qs, answers[1..])
  {
    assert forall i :: 0 <= i < |answers[1..]| ==> answers[1..][i] == answers[i + 1];
  }

  // ----- never more than the exam's marks -----

  ghost function TotalMarks(qs: seq<Question>): real {
    SumOf(qs, (q: Question) => q.marks)
  }

  lemma {:induction false} SumBelow(qs: seq<Question>, w: Question -> real, u: Question -> real)
    requires forall i :: 0 <= i < |qs| ==> w(qs[i]) <= u(qs[i])
    ensures SumOf(qs, w) <= SumOf(qs, u)
    ensures SumOf(qs, w) == SumOf(qs, u) <==> forall i :: 0 <= i < |qs| ==> w(qs[i]) == u(qs[i])
  {
    if qs != [] {
      SumBelow(qs[1..], w, u);
      assert forall i :: 0 <= i < |qs[1..]| ==> qs[1..][i] == qs[i + 1];
      assert forall i :: 1 <= i < |qs| ==> qs[i] == qs[1..][i - 1];
    }
  }

  ghost predicate NeverExceeds(lower: Casing, answers: seq<Answer>) {
    forall qs: seq<Question> :: UniqueIds(qs) && MarksOk(qs) ==> SubmitScore(lower, qs, answers) <= TotalMarks(qs)
  }

  /**
    An answer list can be scored above an exam's total only by repeating an answer: submitAttempt does not
    look for repeated question ids. For lists without such repeats no exam is overshot; for every other list one is.
   */
  lemma {:induction false} NeverExceedsIff(lower: Casing, answers: seq<Answer>)
    requires IsLowerCasing(lower)
    ensures NeverExceeds(lower, answers) <==> NoRepeats(lower, answers)
  {
    if NoRepeats(lower, answers) {
      forall qs: seq<Question> | UniqueIds(qs) && MarksOk(qs)
        ensures SubmitScore(lower, qs, answers) <= TotalMarks(qs)
      {
        ScoreIsSumOverWon(lower, qs, answers);
        SumBelow(qs, WonWeight(Won(lower, qs, answers)), (q: Question) => q.marks);
      }
    } else {
      var i, j :| 0 <= i < j < |answers| && answers[i].questionId == answers[j].questionId
                  && Norm(lower, answers[i].answer) == Norm(lower, answers[j].answer);
      RepeatOvershoots(lower, answers, i, j);
    }
  }

  /** An exam of one question, worth one mark, that both repeated answers get right. */
  lemma {:induction false} RepeatOvershoots(lower: Casing, answers: seq<Answer>, i: nat, j: nat)
    requires IsLowerCasing(lower)
    requires i < j < |answers| && answers[i].questionId == answers[j].questionId
    requires Norm(lower, answers[i].answer) == Norm(lower, answers[j].answer)
    ensures !NeverExceeds(lower, answers)
  {
    var text := if answers[i].answer == "" then " " else answers[i].answer;
    assert Norm(lower, text) == Norm(lower, answers[i].answer) by {
      if answers[i].answer == "" {
        assert TrimStart(" ") == TrimStart("") == "";
      }
    }
    var q := Question(answers[i].questionId, ShortAnswer, [], Some(text), 1.0);
    var w := GradeWeight(lower, [q]);
    assert FindQuestion([q], q.id) == Some(q);
    forall k | 0 <= k < |answers| ensures w(answers[k]) >= 0.0 {
      FindQuestionFinds([q], answers[k].questionId);
    }
    SumOfTwo(answers, i, j, w);
    assert TotalMarks([q]) == 1.0 + SumOf([q][1..], (p: Question) => p.marks) == 1.0;
    assert UniqueIds([q]) && MarksOk([q]) && SubmitScore(lower, [q], answers) > TotalMarks([q]);
  }

  lemma {:induction false} SumOfTwo(xs: seq<Answer>, i: nat, j: nat, w: Answer -> real)
    requires i < j < |xs| && forall k :: 0 <= k < |xs| ==> w(xs[k]) >= 0.0
    ensures SumOf(xs, w) >= w(xs[i]) + w(xs[j])
  {
    var rest := xs[..j] + xs[j + 1..];
    SumWithout(xs, j, w);
    SumWithout(rest, i, w);
    assert rest[i] == xs[i];
    SumNonNegative(rest[..i] + rest[i + 1..], w);
  }

  // ----- the graders compared -----

  /** The answer names the first option marked correct. */
  predicate PicksCorrect(q: Question, answer: string) {
    CorrectOption(q.options).Some? && CorrectOption(q.options).value.id == answer
  }

  predicate HasText(q: Question) {
    q.correctAnswer.Some? && q.correctAnswer.value != ""
  }

  /** Right for submitAttempt but not for autoGrade. */
  predicate OnlyOnSubmit(lower: Casing, q: Question, answer: string) {
    match q.kind
    case MultipleChoice => answer == "" && PicksCorrect(q, "")
    case TrueFalse => PicksCorrect(q, answer) && (answer == "" || lower(answer) != lower(ExpectedText(q)))
    case ShortAnswer =>
      && HasText(q) && Norm(lower, q.correctAnswer.value) == Norm(lower, answer)
      && (answer == "" || lower(q.correctAnswer.value) != lower(answer))
    case _ => HasText(q) && Norm(lower, q.correctAnswer.value) == Norm(lower, answer)
  }

  /** Right for autoGrade but not for submitAttempt: a true/false text that is not the correct option's id. */
  predicate OnlyOnAuto(lower: Casing, q: Question, answer: string) {
    q.kind.TrueFalse? && HasText(q) && lower(answer) == lower(q.correctAnswer.value) && !PicksCorrect(q, answer)
  }

  /** Where the graders differ, for every kind of question and every answer. */
  lemma GradersDifferIff(lower: Casing, q: Question, answer: string)
    requires IsLowerCasing(lower)
    ensures IsCorrect(lower, q, answer) && !AutoCorrect(lower, q, answer) <==> OnlyOnSubmit(lower, q, answer)
    ensures AutoCorrect(lower, q, answer) && !IsCorrect(lower, q, answer) <==> OnlyOnAuto(lower, q, answer)
  {
  }

  lemma {:induction false} RecordOfDistinct(answers: seq<Answer>)
    requires DistinctQuestions(answers)
    ensures forall id :: id in AsRecord(answers) <==>
              exists i :: 0 <= i < |answers| && answers[i].questionId == id
    ensures forall i :: 0 <= i < |answers| ==>
              (answers[i].questionId in AsRecord(answers)
               && AsRecord(answers)[answers[i].questionId] == answers[i].answer)
  {
    if answers != [] {
      var rest := answers[1..];
      RecordOfDistinct(rest);
      forall i | 0 <= i < |answers|
        ensures answers[i].questionId in AsRecord(answers)
                && AsRecord(answers)[answers[i].questionId] == answers[i].answer
      {
        if i > 0 { assert rest[i - 1] == answers[i]; }
      }
      forall id | id in AsRecord(answers) ensures exists i :: 0 <= i < |answers| && answers[i].questionId == id {
        if id == answers[0].questionId {
        } else {
          var i :| 0 <= i < |rest| && rest[i].questionId == id;
          assert answers[i + 1].questionId == id;
        }
      }
    }
  }

  ghost function SubmitWeight(lower: Casing, answers: map<Id, string>): Question -> real {
    (q: Question) => if q.id in answers && IsCorrect(lower, q, answers[q.id]) then q.marks else 0.0
  }

  /** With one answer per question the answer-driven score is a sum over questions, like autoGrade's. */
  lemma {:induction false} ScoreByQuestion(lower: Casing, qs: seq<Question>, answers: seq<Answer>)
    requires UniqueIds(qs) && DistinctQuestions(answers)
    ensures SubmitScore(lower, qs, answers) == SumOf(qs, SubmitWeight(lower, AsRecord(answers)))
  {
    ScoreIsSumOverWon(lower, qs, answers);
    RecordOfDistinct(answers);
    var m := AsRecord(answers);
    forall k | 0 <= k < |qs| ensures WonWeight(Won(lower, qs, answers))(qs[k]) == SubmitWeight(lower, m)(qs[k]) {
      WonIffAnsweredRight(lower, qs, answers, k);
    }
    SumSame(qs, qs, WonWeight(Won(lower, qs, answers)), SubmitWeight(lower, m));
  }

  lemma {:induction false} WonIffAnsweredRight(lower: Casing, qs: seq<Question>, answers: seq<Answer>, k: nat)
    requires UniqueIds(qs) && DistinctQuestions(answers) && k < |qs|
    ensures qs[k].id in Won(lower, qs, answers) <==>
              qs[k].id in AsRecord(answers) && IsCorrect(lower, qs[k], AsRecord(answers)[qs[k].id])
  {
    RecordOfDistinct(answers);
    FindsTheOne(qs, k);
    if qs[k].id in AsRecord(answers) {
      var i :| 0 <= i < |answers| && answers[i].questionId == qs[k].id;
      assert Grade(lower, qs, answers[i]).isCorrect <==> IsCorrect(lower, qs[k], answers[i].answer);
    }
  }

  ghost function OnlySubmitWeight(lower: Casing, answers: map<Id, string>): Question -> real {
    (q: Question) => if q.id in answers && OnlyOnSubmit(lower, q, answers[q.id]) then q.marks else 0.0
  }

  ghost function OnlyAutoWeight(lower: Casing, answers: map<Id, string>): Question -> real {
    (q: Question) => if q.id in answers && OnlyOnAuto(lower, q, answers[q.id]) then q.marks else 0.0
  }

  /**
    For every exam the two scores differ by exactly the marks of the questions right for one grader only:
    submitted score + right only for autoGrade == autoGrade's score + right only on submission.
   */
  lemma {:induction false} GradersBalance(lower: Casing, qs: seq<Question>, answers: seq<Answer>)
    requires IsLowerCasing(lower) && UniqueIds(qs) && DistinctQuestions(answers)
    ensures var m := AsRecord(answers);
            SubmitScore(lower, qs, answers) + SumOf(qs, OnlyAutoWeight(lower, m))
            == AutoScore(lower, qs, m) + SumOf(qs, OnlySubmitWeight(lower, m))
  {
    ScoreByQuestion(lower, qs, answers);
    var m := AsRecord(answers);
    var submit, auto := SubmitWeight(lower, m), AutoWeight(lower, m);
    var onlySubmit, onlyAuto := OnlySubmitWeight(lower, m), OnlyAutoWeight(lower, m);
    forall i | 0 <= i < |qs| ensures submit(qs[i]) + onlyAuto(qs[i]) == auto(qs[i]) + onlySubmit(qs[i]) {
      if qs[i].id in m {
        GradersDifferIff(lower, qs[i], m[qs[i].id]);
      }
    }
    SumBalances(qs, submit, onlyAuto, auto, onlySubmit);
  }

  ghost predicate GainsOnSubmit(lower: Casing, q: Question, answers: map<Id, string>) {
    q.id in answers && q.marks > 0.0 && OnlyOnSubmit(lower, q, answers[q.id])
  }

  ghost predicate GainsOnAuto(lower: Casing, q: Question, answers: map<Id, string>) {
    q.id in answers && q.marks > 0.0 && OnlyOnAuto(lower, q, answers[q.id])
  }

  /**
    If no true/false text earns marks from autoGrade alone, autoGrade never gives more than submitAttempt, and gives
    the same exactly when no answered question with marks is right only on submission.
   */
  lemma {:induction false} GradersCompared(lower: Casing, qs: seq<Question>, answers: seq<Answer>)
    requires IsLowerCasing(lower) && UniqueIds(qs) && MarksOk(qs) && DistinctQuestions(answers)
    requires forall i :: 0 <= i < |qs| ==> !GainsOnAuto(lower, qs[i], AsRecord(answers))
    ensures AutoScore(lower, qs, AsRecord(answers)) <= SubmitScore(lower, qs, answers)
    ensures AutoScore(lower, qs, AsRecord(answers)) == SubmitScore(lower, qs, answers)
            <==> forall i :: 0 <= i < |qs| ==> !GainsOnSubmit(lower, qs[i], AsRecord(answers))
  {
    ScoreByQuestion(lower, qs, answers);
    var m := AsRecord(answers);
    forall i | 0 <= i < |qs|
      ensures AutoWeight(lower, m)(qs[i]) <= SubmitWeight(lower, m)(qs[i])
      ensures AutoWeight(lower, m)(qs[i]) == SubmitWeight(lower, m)(qs[i]) <==> !GainsOnSubmit(lower, qs[i], m)
    {
      if qs[i].id in m {
        GradersDifferIff(lower, qs[i], m[qs[i].id]);
      }
    }
    SumBelow(qs, AutoWeight(lower, m), SubmitWeight(lower, m));
  }

  /** On multiple-choice and short-answer exams with trimmed texts and non-empty answers the graders agree. */
  lemma {:induction false} GradersAgree(lower: Casing, qs: seq<Question>, answers: seq<Answer>)
    requires IsLowerCasing(lower) && UniqueIds(qs) && DistinctQuestions(answers)
    requires forall i :: 0 <= i < |qs| ==> qs[i].kind.MultipleChoice? || qs[i].kind.ShortAnswer?
    requires forall i :: 0 <= i < |qs| && qs[i].correctAnswer.Some? ==> IsTrimmed(qs[i].correctAnswer.value)
    requires forall i :: 0 <= i < |answers| ==> answers[i].answer != "" && IsTrimmed(answers[i].answer)
    ensures AutoScore(lower, qs, AsRecord(answers)) == SubmitScore(lower, qs, answers)
  {
    ScoreByQuestion(lower, qs, answers);
    RecordOfDistinct(answers);
    var m := AsRecord(answers);
    forall k | 0 <= k < |qs| ensures AutoWeight(lower, m)(qs[k]) == SubmitWeight(lower, m)(qs[k]) {
      if qs[k].id in m {
        assert exists i :: 0 <= i < |answers| && answers[i].questionId == qs[k].id;
        TrimmedTextsAgree(lower, qs[k], m[qs[k].id]);
        GradersDifferIff(lower, qs[k], m[qs[k].id]);
      }
    }
    SumSame(qs, qs, AutoWeight(lower, m), SubmitWeight(lower, m));
  }

  lemma {:induction false} TrimmedTextsAgree(lower: Casing, q: Question, answer: string)
    requires IsLowerCasing(lower) && (q.kind.MultipleChoice? || q.kind.ShortAnswer?)
    requires q.correctAnswer.Some? ==> IsTrimmed(q.correctAnswer.value)
    requires answer != "" && IsTrimmed(answer)
    ensures !OnlyOnSubmit(lower, q, answer)
  {
    TrimLowerFixes(lower, answer);
    if q.correctAnswer.Some? {
      TrimLowerFixes(lower, q.correctAnswer.value);
    }
  }

  /** The score does not depend on the order of the answers, repeated or not. */
  lemma {:induction false} AnswerOrderIsIrrelevant(
    lower: Casing, qs: seq<Question>, xs: seq<Answer>, ys: seq<Answer>)
    requires multiset(xs) == multiset(ys)
    ensures SubmitScore(lower, qs, xs) == SubmitScore(lower, qs, ys)
  {
    SumPermuted(xs, ys, GradeWeight(lower, qs));
  }
}
