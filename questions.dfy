/**
 * Question values and how ApiClient.parseQuestions shapes them: the answers
 * are decoded, the incorrect ones come first, the correct one last, and each
 * option is labelled "A. ", "B. ", ... in order.
 */
module Questions {
  import opened Entities

  /**
   * Labels are the characters 'A' + i; a Dafny char is a Unicode scalar
   * value, so the model stops below the surrogate range.
   */
  const LabelLimit := 0xD800 - 'A' as int

  datatype Question = Question(questionText: string, options: seq<string>, correctAnswerIndex: int, timeLimit: int)

  /** The raw fields of one entry of the trivia service's "results" array. */
  datatype RawQuestion = RawQuestion(question: string, correctAnswer: string, incorrectAnswers: seq<string>)

  /** (char)('A' + i) + ". " + text */
  function Label(i: nat, text: string): (option: string)
    requires i < LabelLimit
    ensures |option| == |text| + 3 && option[3..] == text
    ensures option[0] as int == 'A' as int + i && option[1..3] == ". "
  {
    [('A' as int + i) as char, '.', ' '] + text
  }

  /** Question.getCorrectAnswer: the correct option without its three-character label. */
  function GetCorrectAnswer(q: Question): (answer: string)
    requires 0 <= q.correctAnswerIndex < |q.options|
    requires |q.options[q.correctAnswerIndex]| >= 3
    ensures q.options[q.correctAnswerIndex] == q.options[q.correctAnswerIndex][..3] + answer
  {
    q.options[q.correctAnswerIndex][3..]
  }

  /** The option list parseQuestions builds for k incorrect answers: k + 1 labelled entries. */
  ghost predicate ShapedFrom(options: seq<string>, incorrect: seq<string>, correct: string)
    requires |incorrect| < LabelLimit
  {
    && |options| == |incorrect| + 1
    && (forall i :: 0 <= i < |incorrect| ==> options[i] == Label(i, DecodeHtmlEntities(incorrect[i])))
    && options[|incorrect|] == Label(|incorrect|, DecodeHtmlEntities(correct))
  }

  /**
   * The body of the loop in parseQuestions for one entry; the random time
   * limit 20 + (int)(Math.random() * 11) is given by its draw.
   */
  method ParseQuestion(raw: RawQuestion, timeDraw: int) returns (q: Question)
    requires |raw.incorrectAnswers| < LabelLimit
    requires 0 <= timeDraw <= 10
    ensures q.questionText == DecodeHtmlEntities(raw.question)
    ensures q.correctAnswerIndex == |raw.incorrectAnswers|
    ensures ShapedFrom(q.options, raw.incorrectAnswers, raw.correctAnswer)
    ensures 20 <= q.timeLimit <= 30
    ensures GetCorrectAnswer(q) == DecodeHtmlEntities(raw.correctAnswer)
  {
    var questionText := DecodeHtmlEntities(raw.question);
    var correctAnswer := DecodeHtmlEntities(raw.correctAnswer);
    var incorrectAnswers := raw.incorrectAnswers;
    var options := new string[|incorrectAnswers| + 1];
    var correctAnswerIndex := |incorrectAnswers|;
    ghost var decoded := seq(|incorrectAnswers|, j requires 0 <= j < |incorrectAnswers| =>
      DecodeHtmlEntities(incorrectAnswers[j]));
    for i := 0 to |incorrectAnswers|
      invariant forall j :: 0 <= j < i ==> options[j] == Label(j, decoded[j])
    {
      var incorrectAnswer := DecodeHtmlEntities(incorrectAnswers[i]);
      assert incorrectAnswer == decoded[i];
      options[i] := Label(i, incorrectAnswer);
    }
    options[correctAnswerIndex] := Label(correctAnswerIndex, correctAnswer);
    var timeLimit := 20 + timeDraw;
    q := Question(questionText, options[..], correctAnswerIndex, timeLimit);
    assert q.options[correctAnswerIndex] == Label(correctAnswerIndex, correctAnswer);
  }

  /** q is what ParseQuestion builds from raw, whatever its time limit. */
  ghost predicate ParsedFrom(q: Question, raw: RawQuestion)
  {
    && |raw.incorrectAnswers| < LabelLimit
    && q.questionText == DecodeHtmlEntities(raw.question)
    && q.correctAnswerIndex == |raw.incorrectAnswers|
    && ShapedFrom(q.options, raw.incorrectAnswers, raw.correctAnswer)
    && 20 <= q.timeLimit <= 30
  }

  /** The loop of parseQuestions over the "results" array (response code 0). */
  method ParseQuestions(results: seq<RawQuestion>, timeDraws: seq<int>) returns (questions: seq<Question>)
    requires forall k :: 0 <= k < |results| ==> |results[k].incorrectAnswers| < LabelLimit
    requires |timeDraws| == |results| && forall k :: 0 <= k < |timeDraws| ==> 0 <= timeDraws[k] <= 10
    ensures |questions| == |results|
    ensures forall k :: 0 <= k < |results| ==> ParsedFrom(questions[k], results[k])
  {
    questions := [];
    for k := 0 to |results|
      invariant |questions| == k
      invariant forall j :: 0 <= j < k ==> ParsedFrom(questions[j], results[..k][j])
    {
      var q := ParseQuestion(results[k], timeDraws[k]);
      ParsedPrefix(questions, q, results[..k + 1]);
      assert results[..k + 1][..k] == results[..k];
      questions := questions + [q];
    }
  }

  /** Appending the question parsed from the next entry keeps the list entry-by-entry parsed. */
  lemma ParsedPrefix(questions: seq<Question>, q: Question, results: seq<RawQuestion>)
    requires |questions| + 1 == |results|
    requires forall j :: 0 <= j < |questions| ==> ParsedFrom(questions[j], results[j])
    requires ParsedFrom(q, results[|questions|])
    ensures forall j :: 0 <= j < |results| ==> ParsedFrom((questions + [q])[j], results[j])
  {
    forall j | 0 <= j < |results|
      ensures ParsedFrom((questions + [q])[j], results[j])
    {
      if j < |questions| {
        assert (questions + [q])[j] == questions[j];
      }
    }
  }

  /** For a parsed question, getCorrectAnswer returns exactly the decoded correct answer. */
  lemma CorrectAnswerOfParsed(q: Question, raw: RawQuestion)
    requires ParsedFrom(q, raw)
    ensures |q.options[q.correctAnswerIndex]| >= 3
    ensures GetCorrectAnswer(q) == DecodeHtmlEntities(raw.correctAnswer)
  {
  }

  /**
   * The grading comparison of processAnswer: an answer counts only when it
   * is the correct option, so an unanswered question (-1) never does.
   */
  function IsCorrect(selectedAnswerIndex: int, correctAnswerIndex: int): (correct: bool)
    ensures correctAnswerIndex >= 0 && selectedAnswerIndex == -1 ==> !correct
    ensures correct ==> selectedAnswerIndex == correctAnswerIndex
  {
    selectedAnswerIndex == correctAnswerIndex
  }

  /**
   * The scan over the option buttons in processAnswer: the position of the
   * first selected button, or -1 when none is selected.
   */
  method SelectedAnswerIndex(selected: seq<bool>) returns (index: int)
    ensures -1 <= index < |selected|
    ensures index == -1 <==> forall j :: 0 <= j < |selected| ==> !selected[j]
    ensures index >= 0 ==> selected[index] && forall j :: 0 <= j < index ==> !selected[j]
  {
    index := -1;
    var option := 0;
    while option < |selected|
      invariant 0 <= option <= |selected|
      invariant forall j :: 0 <= j < option ==> !selected[j]
    {
      if selected[option] {
        index := option;
        break;
      }
      option := option + 1;
    }
  }
}
