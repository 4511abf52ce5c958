/** The scoring rule of `submitQuizAttempt` and the per-question verdict of `getQuizResults`
    (src/actions/quiz.ts), as pure functions over the stored answers. */
module Scoring {
  import opened Common
  import Text
  import Rounding
  import SetLemmas

  /** `userAnswer && ...`: an answer is given and is not the empty string. */
  predicate Answered(answers: map<Id, string>, qid: Id) {
    qid in answers && answers[qid] != ""
  }

  /** Case-insensitive, white-space-trimmed equality of two answers. */
  predicate Matches(given: string, expected: string) {
    Text.Normalize(given) == Text.Normalize(expected)
  }

  /** Whether the scorer counts question `qid` as correctly answered. */
  predicate CountsAsCorrect(answers: map<Id, string>, qid: Id, correctAnswer: string) {
    Answered(answers, qid) && Matches(answers[qid], correctAnswer)
  }

  /** The `isCorrect` flag of the detailed results: optional chaining on a missing answer
      yields `undefined`, which equals no string; an empty answer is compared as it is. */
  predicate ShownAsCorrect(answers: map<Id, string>, qid: Id, correctAnswer: string) {
    qid in answers && Matches(answers[qid], correctAnswer)
  }

  /** The questions of a quiz, by id, that count as correct; `key` gives each question's
      correct answer. */
  function CorrectSet(key: map<Id, string>, answers: map<Id, string>): (r: set<Id>)
    ensures r <= key.Keys
  {
    CorrectAmong(key, answers, key.Keys)
  }

  /** The questions among `qs` that count as correct. */
  function CorrectAmong(key: map<Id, string>, answers: map<Id, string>, qs: set<Id>): (r: set<Id>)
    ensures r <= qs && r <= key.Keys
  {
    set q | q in qs && q in key && CountsAsCorrect(answers, q, key[q])
  }

  /** Scoring one more question adds it to the correct ones exactly when it counts. */
  lemma CorrectAmongStep(key: map<Id, string>, answers: map<Id, string>, qs: set<Id>, q: Id)
    requires q in key && q !in qs
    ensures CountsAsCorrect(answers, q, key[q]) ==>
              CorrectAmong(key, answers, qs + {q}) == CorrectAmong(key, answers, qs) + {q}
    ensures !CountsAsCorrect(answers, q, key[q]) ==>
              CorrectAmong(key, answers, qs + {q}) == CorrectAmong(key, answers, qs)
    ensures q !in CorrectAmong(key, answers, qs)
  {
  }

  /** The number of correct answers never exceeds the number of questions. */
  lemma CorrectCountAtMostTotal(key: map<Id, string>, answers: map<Id, string>)
    ensures |CorrectSet(key, answers)| <= |key|
  {
    SetLemmas.SubsetCard(CorrectSet(key, answers), key.Keys);
  }

  /** `Math.round((correctCount / questions.length) * 100)`. */
  function Score(correct: nat, total: nat): (r: nat)
    requires 0 < total && correct <= total
    ensures r <= 100
    ensures correct == total ==> r == 100
  {
    Rounding.PercentAtMostHundred(correct, total);
    Rounding.PercentOfWhole(total);
    Rounding.RoundedPercent(correct, total)
  }

  /** `score >= quiz.passingScore`. */
  predicate Passed(score: int, passingScore: int) {
    score >= passingScore
  }

  /** For a question whose correct answer passes `notEmpty`, the detailed results agree with
      the scorer on every answer, including the empty one. */
  lemma ShownAgreesWithCounted(answers: map<Id, string>, qid: Id, correctAnswer: string)
    requires Text.NotBlank(correctAnswer)
    ensures ShownAsCorrect(answers, qid, correctAnswer) <==> CountsAsCorrect(answers, qid, correctAnswer)
  {
    if qid in answers && answers[qid] == "" {
      Text.NotBlankKeepsKey(correctAnswer);
      assert Text.Normalize("") == "";
    }
  }

  /** Matching is an equivalence: re-submitting the key of an answer matches it. */
  lemma KeyMatchesItself(s: string)
    ensures Matches(Text.Normalize(s), s)
  {
    Text.NormalizeIdempotent(s);
  }

  /** The seeded five-question quiz with passing score 70: four correct answers pass with 80,
      three fail with 60; eight videos with three watched show 38 percent. */
  lemma ScoreExamples()
    ensures Score(4, 5) == 80 && Passed(Score(4, 5), 70)
    ensures Score(3, 5) == 60 && !Passed(Score(3, 5), 70)
    ensures Rounding.RoundedPercent(3, 8) == 38
  {
  }

  /** Answers are compared without regard to ASCII case or surrounding white space. */
  lemma MatchIgnoresCaseAndPadding()
    ensures Matches(" <H1> ", "<h1>")
  {
    PaddedKey();
    PlainKey();
  }

  lemma PaddedKey()
    ensures Text.Normalize(" <H1> ") == "<h1>"
  {
    assert Text.Lower(" <H1> ") == " <h1> " by { LowerPadded(); }
    assert Text.Trim(" <h1> ") == "<h1>" by { TrimPadded(); }
  }

  lemma LowerPadded()
    ensures Text.Lower(" <H1> ") == " <h1> "
  {
    var padded := Text.Lower(" <H1> ");
    assert padded[2] == 'h';
  }

  lemma TrimPadded()
    ensures Text.Trim(" <h1> ") == "<h1>"
  {
    var padded := " <h1> ";
    assert Text.LeadingSpaces(padded) == 1 by {
      assert padded[1..] == "<h1> ";
    }
    assert Text.TrailingSpaces("<h1> ") == 1 by {
      assert "<h1> "[..4] == "<h1>";
    }
  }

  lemma PlainKey()
    ensures Text.Normalize("<h1>") == "<h1>"
  {
    assert Text.Lower("<h1>") == "<h1>";
    assert Text.LeadingSpaces("<h1>") == 0 && Text.TrailingSpaces("<h1>") == 0;
  }

  /** White space inside an answer still counts. */
  lemma MatchKeepsInnerSpace()
    ensures !Matches("h 1", "h1")
  {
    assert Text.Lower("h 1") == "h 1";
    assert Text.LeadingSpaces("h 1") == 0 && Text.TrailingSpaces("h 1") == 0;
    assert Text.Lower("h1") == "h1";
    assert Text.LeadingSpaces("h1") == 0 && Text.TrailingSpaces("h1") == 0;
  }
}
