/** Quizzes (src/actions/quiz.ts): authoring behind the instructor-or-admin guard,
    scoring a submission into an appended attempt, and the owner-only detailed results. */
module QuizActions {
  import opened Common
  import opened Models
  import opened Db
  import opened Scoring
  import Text

  /** The `result` of `submitQuizAttempt`, with the key of the stored attempt. */
  datatype Submission = Submission(attempt: Id, score: nat, passed: bool, correctCount: nat, totalQuestions: nat)

  /** One entry of `detailedResults`. */
  datatype QuestionResult = QuestionResult(
    question: string,
    kind: QuestionType,
    userAnswer: Option<string>,
    correctAnswer: string,
    isCorrect: bool,
    explanation: Option<string>)

  /** The `results` of `getQuizResults`; the detailed results are keyed by question. */
  datatype QuizResults = QuizResults(score: int, passed: bool, completedAt: Time, details: map<Id, QuestionResult>)

  /** The course a stored quiz belongs to, through its chapter. */
  ghost function CourseOfQuiz(s: Store, quizId: Id): Id
    reads s`quizzes, s`chapters
    requires quizId in s.quizzes && s.quizzes[quizId].chapterId in s.chapters
  {
    s.chapters[s.quizzes[quizId].chapterId].courseId
  }

  /** `createQuiz`: only the instructor of the chapter's course or an admin may add a quiz;
      an omitted passing score takes the column default 70. */
  method CreateQuiz(s: Store, caller: Option<Session>, chapterId: Id, title: string,
                    description: Option<string>, passingScore: Option<int>, id: Id) returns (r: Result<Id>)
    requires s.Valid()
    modifies s`quizzes
    ensures s.Valid()
    ensures caller.None? ==> r == Err(Unauthorized)
    ensures caller.Some? && chapterId !in s.chapters ==> r == Err(NotFound)
    ensures (caller.Some? && chapterId in s.chapters
             && !OwnerOrAdmin(caller.value, s.courses[s.chapters[chapterId].courseId].instructorId))
            ==> r == Err(Forbidden)
    ensures r.Ok? <==> (caller.Some? && chapterId in s.chapters
                        && OwnerOrAdmin(caller.value, s.courses[s.chapters[chapterId].courseId].instructorId)
                        && id !in old(s.quizzes)
                        && QuizOk(Quiz(chapterId, title, description, passingScore.GetOr(DefaultPassingScore))))
    ensures r.Err? ==> s.quizzes == old(s.quizzes)
    ensures r.Ok? ==> r.value == id
                      && s.quizzes == old(s.quizzes)[id := Quiz(chapterId, title, description,
                                                                passingScore.GetOr(DefaultPassingScore))]
  {
    if caller.None? {
      return Err(Unauthorized);
    }
    if chapterId !in s.chapters {
      return Err(NotFound);
    }
    var course := s.courses[s.chapters[chapterId].courseId];
    if course.instructorId != caller.value.userId && caller.value.role != Admin {
      return Err(Forbidden);
    }
    var ok := s.InsertQuiz(id, Quiz(chapterId, title, description, passingScore.GetOr(DefaultPassingScore)));
    r := if ok then Ok(id) else Err(Failed);
  }

  /** `addQuizQuestion`: the same guard, through the quiz's chapter. */
  method AddQuizQuestion(s: Store, caller: Option<Session>, quizId: Id, question: QuizQuestion, id: Id)
    returns (r: Result<Id>)
    requires s.Valid()
    requires question.quizId == quizId
    modifies s`questions
    ensures s.Valid()
    ensures caller.None? ==> r == Err(Unauthorized)
    ensures caller.Some? && quizId !in s.quizzes ==> r == Err(NotFound)
    ensures (caller.Some? && quizId in s.quizzes
             && !OwnerOrAdmin(caller.value, s.courses[CourseOfQuiz(s, quizId)].instructorId))
            ==> r == Err(Forbidden)
    ensures r.Ok? <==> (caller.Some? && quizId in s.quizzes
                        && OwnerOrAdmin(caller.value, s.courses[CourseOfQuiz(s, quizId)].instructorId)
                        && id !in old(s.questions) && QuestionOk(question))
    ensures r.Err? ==> s.questions == old(s.questions)
    ensures r.Ok? ==> r.value == id && s.questions == old(s.questions)[id := question]
  {
    if caller.None? {
      return Err(Unauthorized);
    }
    if quizId !in s.quizzes {
      return Err(NotFound);
    }
    var course := s.courses[s.chapters[s.quizzes[quizId].chapterId].courseId];
    if course.instructorId != caller.value.userId && caller.value.role != Admin {
      return Err(Forbidden);
    }
    var ok := s.InsertQuestion(id, question);
    r := if ok then Ok(id) else Err(Failed);
  }

  /** The counting loop of `submitQuizAttempt`: one pass over the quiz's questions, counting
      those whose answer is given and matches the correct answer; `key` is the quiz's answer
      key. */
  method GradeAnswers(s: Store, answers: map<Id, string>, ghost key: map<Id, string>, questions: set<Id>)
    returns (correctCount: nat)
    requires questions == key.Keys
    requires forall q :: q in key ==> q in s.questions && key[q] == s.questions[q].correctAnswer
    ensures correctCount == |CorrectSet(key, answers)|
  {
    var remaining := questions;
    ghost var done: set<Id> := {};
    correctCount := 0;
    while remaining != {}
      invariant remaining <= questions && done == questions - remaining
      invariant correctCount == |CorrectAmong(key, answers, done)|
      decreases |remaining|
    {
      var q :| q in remaining;
      // `userAnswer && userAnswer.toLowerCase().trim() === correctAnswer.toLowerCase().trim()`
      var hit := CountsAsCorrect(answers, q, s.questions[q].correctAnswer);
      CorrectAmongStep(key, answers, done, q);
      if hit {
        correctCount := correctCount + 1;
      }
      remaining := remaining - {q};
      done := done + {q};
    }
    assert done == questions;
  }

  /** The quiz's questions, and how many of them the answers get right. */
  method CountCorrect(s: Store, quizId: Id, answers: map<Id, string>) returns (correctCount: nat, total: nat)
    ensures total == |s.AnswerKey(quizId)|
    ensures correctCount == |CorrectSet(s.AnswerKey(quizId), answers)|
  {
    ghost var key := s.AnswerKey(quizId);
    var questions := set q | q in s.questions && s.questions[q].quizId == quizId;
    assert questions == key.Keys;
    correctCount := GradeAnswers(s, answers, key, questions);
    total := |questions|;
  }

  /** `submitQuizAttempt`: scores the answers against every question of the quiz and
      appends one attempt; earlier attempts are kept. A quiz without questions yields a
      NaN score, which the INTEGER column rejects. */
  method SubmitQuizAttempt(s: Store, caller: Option<Session>, quizId: Id, answers: map<Id, string>,
                           now: Time, id: Id) returns (r: Result<Submission>)
    requires s.Valid()
    modifies s`attempts
    ensures s.Valid()
    ensures caller.None? ==> r == Err(Unauthorized)
    ensures caller.Some? && quizId !in s.quizzes ==> r == Err(NotFound)
    ensures caller.Some? && quizId in s.quizzes && s.AnswerKey(quizId) == map[] ==> r == Err(Failed)
    ensures (caller.Some? && quizId in s.quizzes && s.AnswerKey(quizId) != map[] && id !in old(s.attempts))
            ==> r.Ok?
    ensures r.Ok? ==> id !in old(s.attempts)
    ensures r.Err? ==> s.attempts == old(s.attempts)
    ensures r.Ok? ==>
              && caller.Some? && quizId in s.quizzes && r.value.attempt == id
              && r.value.totalQuestions == |s.AnswerKey(quizId)| > 0
              && r.value.correctCount == |CorrectSet(s.AnswerKey(quizId), answers)|
              && r.value.correctCount <= r.value.totalQuestions
              && r.value.score == Score(r.value.correctCount, r.value.totalQuestions)
              && r.value.passed == Passed(r.value.score, s.quizzes[quizId].passingScore)
              && s.attempts == old(s.attempts)[id := QuizAttempt(caller.value.userId, quizId, answers,
                                                                 r.value.score, r.value.passed, now)]
  {
    if caller.None? {
      return Err(Unauthorized);
    }
    if quizId !in s.quizzes {
      return Err(NotFound);
    }
    var correctCount, total := CountCorrect(s, quizId, answers);
    if total == 0 {
      assert s.AnswerKey(quizId) == map[];
      return Err(Failed);
    }
    CorrectCountAtMostTotal(s.AnswerKey(quizId), answers);
    var score := Score(correctCount, total);
    var passed := Passed(score, s.quizzes[quizId].passingScore);
    var ok := s.InsertAttempt(id, QuizAttempt(caller.value.userId, quizId, answers, score, passed, now));
    if !ok {
      return Err(Failed);
    }
    r := Ok(Submission(id, score, passed, correctCount, total));
  }

  /** `getQuizResults`: only the user who made the attempt may read it (admins included in
      the refusal); each question shows the stored answer, when truthy, and whether it
      matches. */
  method GetQuizResults(s: Store, caller: Option<Session>, attemptId: Id) returns (r: Result<QuizResults>)
    requires s.Valid()
    ensures caller.None? ==> r == Err(Unauthorized)
    ensures caller.Some? && attemptId !in s.attempts ==> r == Err(NotFound)
    ensures (caller.Some? && attemptId in s.attempts && s.attempts[attemptId].userId != caller.value.userId)
            ==> r == Err(Forbidden)
    ensures r.Ok? <==> (caller.Some? && attemptId in s.attempts
                        && s.attempts[attemptId].userId == caller.value.userId)
    ensures r.Ok? ==>
              var a := s.attempts[attemptId];
              && r.value.score == a.score && r.value.passed == a.passed && r.value.completedAt == a.completedAt
              && r.value.details.Keys == s.AnswerKey(a.quizId).Keys
              && forall q :: q in r.value.details ==>
                   && r.value.details[q].question == s.questions[q].question
                   && r.value.details[q].kind == s.questions[q].kind
                   && r.value.details[q].explanation == s.questions[q].explanation
                   && r.value.details[q].correctAnswer == s.questions[q].correctAnswer
                   && r.value.details[q].userAnswer == (if Answered(a.answers, q) then Some(a.answers[q]) else None)
                   && (r.value.details[q].isCorrect <==> CountsAsCorrect(a.answers, q, s.questions[q].correctAnswer))
  {
    if caller.None? {
      return Err(Unauthorized);
    }
    if attemptId !in s.attempts {
      return Err(NotFound);
    }
    var a := s.attempts[attemptId];
    if a.userId != caller.value.userId {
      return Err(Forbidden);
    }
    var details := map q | q in s.questions && s.questions[q].quizId == a.quizId ::
      QuestionResult(
        s.questions[q].question,
        s.questions[q].kind,
        if q in a.answers && a.answers[q] != "" then Some(a.answers[q]) else None,
        s.questions[q].correctAnswer,
        q in a.answers && Text.Normalize(a.answers[q]) == Text.Normalize(s.questions[q].correctAnswer),
        s.questions[q].explanation);
    forall q | q in details
      ensures details[q].isCorrect <==> CountsAsCorrect(a.answers, q, s.questions[q].correctAnswer)
    {
      assert QuestionOk(s.questions[q]);
      ShownAgreesWithCounted(a.answers, q, s.questions[q].correctAnswer);
    }
    r := Ok(QuizResults(a.score, a.passed, a.completedAt, details));
  }
}
