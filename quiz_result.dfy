/**
 * QuizResult: the running tally of a quiz (counters and the per-question
 * lists that addResult appends to) and the integer percentage getScore
 * derives from it.
 */
module Scoring {
  import opened Decimal

  /** The number of true entries. */
  function CountTrue(s: seq<bool>): nat
  {
    if s == [] then 0 else (if s[0] then 1 else 0) + CountTrue(s[1..])
  }

  lemma {:induction false} CountTrueAppend(s: seq<bool>, b: bool)
    ensures CountTrue(s + [b]) == CountTrue(s) + if b then 1 else 0
  {
    if s != [] {
      assert (s + [b])[1..] == s[1..] + [b];
      CountTrueAppend(s[1..], b);
    }
  }

  lemma {:induction false} CountTrueBound(s: seq<bool>)
    ensures CountTrue(s) <= |s|
  {
    if s != [] {
      CountTrueBound(s[1..]);
    }
  }

  /** Java's (int) cast of a double: truncation toward zero. */
  function Truncate(x: real): (n: int)
    ensures x >= 0.0 ==> 0 <= n && n as real <= x < n as real + 1.0
    ensures x < 0.0 ==> n <= 0 && n as real - 1.0 < x <= n as real
  {
    if x >= 0.0 then x.Floor else -((-x).Floor)
  }

  /**
   * getScore: 0 without questions, otherwise (int)((correct / total) * 100),
   * computed exactly (double rounding is not modelled).
   */
  function Score(correctAnswers: int, totalQuestions: int): (score: int)
    ensures totalQuestions == 0 ==> score == 0
    ensures 0 <= correctAnswers <= totalQuestions ==> 0 <= score <= 100
  {
    if totalQuestions == 0 then 0
    else
      var percentage := (correctAnswers as real / totalQuestions as real) * 100.0;
      ScoreRange(correctAnswers, totalQuestions);
      Truncate(percentage)
  }

  lemma ScoreRange(correctAnswers: int, totalQuestions: int)
    requires totalQuestions != 0
    ensures var percentage := (correctAnswers as real / totalQuestions as real) * 100.0;
      0 <= correctAnswers <= totalQuestions ==> 0.0 <= percentage <= 100.0
  {
    if 0 <= correctAnswers <= totalQuestions {
      var ratio := correctAnswers as real / totalQuestions as real;
      assert ratio * totalQuestions as real == correctAnswers as real;
      assert 0.0 <= ratio <= 1.0;
    }
  }

  /** The score is the percentage of correct answers rounded down: 100 * correct / total in integers. */
  lemma ScoreIsWholePercent(correctAnswers: nat, totalQuestions: nat)
    requires 0 < totalQuestions && correctAnswers <= totalQuestions
    ensures Score(correctAnswers, totalQuestions) == (100 * correctAnswers) / totalQuestions
  {
    var t := totalQuestions as real;
    var n := 100 * correctAnswers;
    var q, r := n / totalQuestions, n % totalQuestions;
    ScaledRatio(correctAnswers as real, t);
    QuotientAndFraction(n, totalQuestions);
    FloorOfWholePlusFraction(q, r as real / t);
  }

  lemma ScaledRatio(c: real, t: real)
    requires t > 0.0
    ensures (c / t) * 100.0 == (100.0 * c) / t
  {
  }

  /** n / t as reals is the integer quotient plus the remainder's fraction. */
  lemma QuotientAndFraction(n: nat, t: nat)
    requires t > 0
    ensures n as real / t as real == (n / t) as real + (n % t) as real / t as real
    ensures 0.0 <= (n % t) as real / t as real < 1.0
  {
    var q, r := n / t, n % t;
    assert n == q * t + r;
    assert n as real == q as real * t as real + r as real;
  }

  lemma FloorOfWholePlusFraction(q: int, f: real)
    requires q >= 0 && 0.0 <= f < 1.0
    ensures Truncate(q as real + f) == q
  {
  }

  class QuizResult {
    var totalQuestions: int
    var correctAnswers: int
    var userAnswers: seq<int>
    var answerResults: seq<bool>
    var timedOutQuestions: seq<string>

    /**
     * One answer and one verdict per question asked, and correctAnswers
     * counts the true verdicts (so it never exceeds totalQuestions).
     */
    ghost predicate Valid()
      reads this
    {
      && |answerResults| == |userAnswers| == totalQuestions
      && correctAnswers == CountTrue(answerResults)
      && correctAnswers <= totalQuestions
    }

    constructor ()
      ensures Valid()
      ensures totalQuestions == 0 && correctAnswers == 0
      ensures userAnswers == [] && answerResults == [] && timedOutQuestions == []
    {
      totalQuestions := 0;
      correctAnswers := 0;
      userAnswers := [];
      answerResults := [];
      timedOutQuestions := [];
    }

    /**
     * addResult: one more question, one more correct answer iff isCorrect,
     * the answer and verdict appended, and "Question n+1" appended to the
     * timed-out list iff isTimedOut.
     */
    method AddResult(questionNumber: int, userAnswer: int, isCorrect: bool, isTimedOut: bool)
      requires Valid()
      modifies this
      ensures Valid()
      ensures totalQuestions == old(totalQuestions) + 1
      ensures correctAnswers == old(correctAnswers) + if isCorrect then 1 else 0
      ensures userAnswers == old(userAnswers) + [userAnswer]
      ensures answerResults == old(answerResults) + [isCorrect]
      ensures timedOutQuestions ==
        if isTimedOut then old(timedOutQuestions) + ["Question " + IntToString(questionNumber + 1)]
        else old(timedOutQuestions)
    {
      CountTrueAppend(answerResults, isCorrect);
      CountTrueBound(answerResults + [isCorrect]);
      totalQuestions := totalQuestions + 1;
      if isCorrect {
        correctAnswers := correctAnswers + 1;
      }
      userAnswers := userAnswers + [userAnswer];
      answerResults := answerResults + [isCorrect];
      if isTimedOut {
        timedOutQuestions := timedOutQuestions + ["Question " + IntToString(questionNumber + 1)];
      }
    }

    method GetTotalQuestions() returns (total: int)
      ensures total == totalQuestions
    {
      total := totalQuestions;
    }

    method GetCorrectAnswers() returns (correct: int)
      ensures correct == correctAnswers
    {
      correct := correctAnswers;
    }

    /** getScore on a tally the constructor and addResult built. */
    function GetScore(): (score: int)
      reads this
      requires Valid()
      ensures 0 <= score <= 100
      ensures totalQuestions == 0 ==> score == 0
      ensures totalQuestions > 0 ==> score == (100 * CountTrue(answerResults)) / |answerResults|
    {
      var score := Score(correctAnswers, totalQuestions);
      if totalQuestions == 0 then score
      else ScoreIsWholePercent(correctAnswers, totalQuestions); score
    }

    method GetTimedOutQuestions() returns (labels: seq<string>)
      ensures labels == timedOutQuestions
    {
      labels := timedOutQuestions;
    }

    method GetAnswerResults() returns (results: seq<bool>)
      ensures results == answerResults
    {
      results := answerResults;
    }
  }
}
