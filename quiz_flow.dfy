/**
 * The two places where QuizApp records a verdict in its QuizResult: the
 * Next button's processAnswer and the countdown's time-out branch.  The
 * Swing widgets are reduced to the selection state of the option buttons,
 * in the order the button group lists them.
 */
module QuizFlow {
  import opened Decimal
  import opened Questions
  import opened Scoring

  /**
   * processAnswer: the first selected button gives the answer index (-1 when
   * none is selected), graded correct exactly when it equals the question's
   * correct index; the verdict is recorded as not timed out.
   */
  method ProcessAnswer(result: QuizResult, currentQuestionIndex: int, question: Question, buttons: seq<bool>)
    requires result.Valid()
    modifies result
    ensures result.Valid()
    ensures result.totalQuestions == old(result.totalQuestions) + 1
    ensures result.timedOutQuestions == old(result.timedOutQuestions)
    ensures |result.userAnswers| == |old(result.userAnswers)| + 1
    ensures result.userAnswers[..|result.userAnswers| - 1] == old(result.userAnswers)
    ensures var answer := result.userAnswers[|result.userAnswers| - 1];
      && (answer == -1 <==> forall j :: 0 <= j < |buttons| ==> !buttons[j])
      && (answer >= 0 ==> answer < |buttons| && buttons[answer] && forall j :: 0 <= j < answer ==> !buttons[j])
      && result.answerResults == old(result.answerResults) + [answer == question.correctAnswerIndex]
      && result.correctAnswers == old(result.correctAnswers) + if answer == question.correctAnswerIndex then 1 else 0
    ensures question.correctAnswerIndex >= 0 && (forall j :: 0 <= j < |buttons| ==> !buttons[j]) ==>
      result.answerResults == old(result.answerResults) + [false]
  {
    var selectedAnswerIndex := SelectedAnswerIndex(buttons);
    var correctAnswerIndex := question.correctAnswerIndex;
    var isCorrect := IsCorrect(selectedAnswerIndex, correctAnswerIndex);
    result.AddResult(currentQuestionIndex, selectedAnswerIndex, isCorrect, false);
    assert result.userAnswers[..|result.userAnswers| - 1] == old(result.userAnswers);
  }

  /** The time-out branch: answer -1, graded incorrect, and the question listed as timed out. */
  method RecordTimeout(result: QuizResult, currentQuestionIndex: int)
    requires result.Valid()
    modifies result
    ensures result.Valid()
    ensures result.totalQuestions == old(result.totalQuestions) + 1
    ensures result.correctAnswers == old(result.correctAnswers)
    ensures result.userAnswers == old(result.userAnswers) + [-1]
    ensures result.answerResults == old(result.answerResults) + [false]
    ensures result.timedOutQuestions ==
      old(result.timedOutQuestions) + ["Question " + IntToString(currentQuestionIndex + 1)]
  {
    result.AddResult(currentQuestionIndex, -1, false, true);
  }
}
