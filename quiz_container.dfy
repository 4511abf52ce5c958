/** The quiz screen (src/components/quiz/QuizContainer.tsx) once its quiz has loaded: one
    question at a time, an answer per question kept across navigation, submission from the
    last question, the results, and a retry that starts over. */
module QuizScreen {
  import opened Common
  import QuizActions

  /** `questions.every((q) => answers[q.id])`: every question has an answer, and not the
      empty string (which is falsy). */
  function AllAnswered(questions: seq<Id>, answers: map<Id, string>): (r: bool)
    ensures r <==> forall i :: 0 <= i < |questions| ==> questions[i] in answers && answers[questions[i]] != ""
  {
    if questions == [] then true
    else questions[0] in answers && answers[questions[0]] != "" && AllAnswered(questions[1..], answers)
  }

  /** A non-empty answer never makes an answered quiz unanswered again. */
  lemma AnsweringKeepsAllAnswered(questions: seq<Id>, answers: map<Id, string>, question: Id, answer: string)
    requires AllAnswered(questions, answers) && answer != ""
    ensures AllAnswered(questions, answers[question := answer])
  {
  }

  /** Clearing an answer to a question of the quiz disables submission. */
  lemma ClearingAnswerBlocksSubmit(questions: seq<Id>, answers: map<Id, string>, i: nat)
    requires i < |questions|
    ensures !AllAnswered(questions, answers[questions[i] := ""])
  {
  }

  /** The component's state, from the moment the quiz is loaded. */
  class QuizContainer {
    /** `quiz.id`, and its questions' ids in display order. */
    const quizId: Id
    const questions: seq<Id>
    /** `currentQuestionIndex`. */
    var index: int
    var answers: map<Id, string>
    var showResults: bool
    var results: Option<QuizActions.Submission>

    /** The index always names a question (or is 0 for a quiz without questions). */
    ghost predicate Valid()
      reads this
    {
      0 <= index && (index < |questions| || index == 0)
    }

    /** The initial state: the first question, no answers, no results. */
    constructor (quizId: Id, questions: seq<Id>)
      ensures Valid()
      ensures this.quizId == quizId && this.questions == questions
      ensures index == 0 && answers == map[] && !showResults && results.None?
    {
      this.quizId := quizId;
      this.questions := questions;
      index := 0;
      answers := map[];
      showResults := false;
      results := None;
    }

    /** `handleAnswer`: records the answer to one question and leaves every other answer as
        it was. */
    method HandleAnswer(question: Id, answer: string)
      requires Valid()
      modifies this`answers
      ensures Valid()
      ensures answers == old(answers)[question := answer]
    {
      answers := answers[question := answer];
    }

    /** `handleNext`: moves on unless this is the last question. */
    method HandleNext()
      requires Valid()
      modifies this`index
      ensures Valid()
      ensures old(index) < |questions| - 1 ==> index == old(index) + 1
      ensures old(index) >= |questions| - 1 ==> index == old(index)
    {
      if index < |questions| - 1 {
        index := index + 1;
      }
    }

    /** `handlePrevious`: moves back unless this is the first question. */
    method HandlePrevious()
      requires Valid()
      modifies this`index
      ensures Valid()
      ensures old(index) > 0 ==> index == old(index) - 1
      ensures old(index) == 0 ==> index == 0
    {
      if index > 0 {
        index := index - 1;
      }
    }

    /** The Submit button takes the place of Next on the last question. */
    predicate SubmitShown()
      reads this
    {
      index == |questions| - 1
    }

    /** Submit is enabled once every question has a non-empty answer. */
    predicate SubmitEnabled()
      reads this
    {
      SubmitShown() && AllAnswered(questions, answers)
    }

    /** The results screen replaces the questions. */
    predicate ShowingResults()
      reads this
    {
      showResults && results.Some?
    }

    /** `handleSubmit`: sends the answers (`sent`); `outcome` is the server's reply. Only a
        successful reply shows results; a failure leaves the screen as it was. */
    method HandleSubmit(outcome: Result<QuizActions.Submission>) returns (sent: map<Id, string>)
      requires Valid()
      modifies this`showResults, this`results
      ensures Valid()
      ensures sent == answers
      ensures outcome.Ok? ==> results == Some(outcome.value) && showResults && ShowingResults()
      ensures outcome.Err? ==> results == old(results) && showResults == old(showResults)
    {
      sent := answers;
      if outcome.Ok? {
        results := Some(outcome.value);
        showResults := true;
      }
    }

    /** `onRetry`: back to the first question with no answers and no results. */
    method Retry()
      requires Valid()
      modifies this`answers, this`index, this`showResults, this`results
      ensures Valid()
      ensures answers == map[] && index == 0 && !showResults && results.None?
      ensures !ShowingResults()
      ensures AllAnswered(questions, answers) <==> questions == []
    {
      answers := map[];
      index := 0;
      showResults := false;
      results := None;
    }
  }
}
