/** The single-question card (src/components/assessment/AssessmentQuestion.tsx):
    the question and answer-option records, and the values the card derives
    from its props: the header, the radio group's value, and the enable state
    and label of the Previous and Next/Submit buttons. */
module AssessmentQuestion {
  import opened Optional
  import opened Numbers

  datatype Answer = Answer(id: string, text: string)

  datatype Question = Question(
    id: string,
    number: int,
    text: string,
    image: Option<string>,
    answers: seq<Answer>,
    correctAnswerId: Option<string>,
    explanation: Option<string>)

  /** JavaScript truthiness of `selectedAnswer`: null and "" are falsy. */
  predicate IsSelected(selectedAnswer: Option<string>) {
    selectedAnswer.Some? && selectedAnswer.value != ""
  }

  /** The ids the radio group offers, in option order; choosing an option
      reports its id. */
  function AnswerIds(question: Question): (ids: seq<string>)
    ensures |ids| == |question.answers|
    ensures forall k :: 0 <= k < |ids| ==> ids[k] == question.answers[k].id
  {
    seq(|question.answers|, k requires 0 <= k < |question.answers| => question.answers[k].id)
  }

  /** `value={selectedAnswer || ""}`: the selected id, or "" when none is selected. */
  function RadioGroupValue(selectedAnswer: Option<string>): (value: string)
    ensures value == "" <==> !IsSelected(selectedAnswer)
    ensures IsSelected(selectedAnswer) ==> value == selectedAnswer.value
  {
    if IsSelected(selectedAnswer) then selectedAnswer.value else ""
  }

  /** `disabled={!showPrevious}`. */
  function PreviousDisabled(showPrevious: bool): (disabled: bool)
    ensures disabled <==> !showPrevious
  {
    !showPrevious
  }

  /** `disabled={!selectedAnswer || !showNext}`: the forward button can only be
      pressed with an answer selected. */
  function ForwardDisabled(selectedAnswer: Option<string>, showNext: bool): (disabled: bool)
    ensures !disabled <==> IsSelected(selectedAnswer) && showNext
  {
    !IsSelected(selectedAnswer) || !showNext
  }

  /** The forward button reads "Submit" on the last question, "Next" elsewhere. */
  function ForwardLabel(currentQuestionIndex: int, totalQuestions: int): (caption: string)
    ensures caption == "Submit" <==> currentQuestionIndex == totalQuestions - 1
    ensures caption == "Submit" || caption == "Next"
  {
    if currentQuestionIndex == totalQuestions - 1 then "Submit" else "Next"
  }

  /** The arrow after the label is drawn only before the last question, so it
      never accompanies "Submit". */
  function ShowsForwardArrow(currentQuestionIndex: int, totalQuestions: int): (shown: bool)
    ensures shown ==> ForwardLabel(currentQuestionIndex, totalQuestions) == "Next"
    ensures shown <==> currentQuestionIndex < totalQuestions - 1
  {
    currentQuestionIndex < totalQuestions - 1
  }

  /** The forward button as a whole: when it can be pressed, an answer is
      selected; on the last question it reads "Submit" without an arrow, before
      it "Next" with one. */
  lemma ForwardButtonStates(selectedAnswer: Option<string>, currentQuestionIndex: int, totalQuestions: int)
    requires !ForwardDisabled(selectedAnswer, true)
    ensures IsSelected(selectedAnswer) && selectedAnswer.value != ""
    ensures currentQuestionIndex == totalQuestions - 1 ==>
      ForwardLabel(currentQuestionIndex, totalQuestions) == "Submit" && !ShowsForwardArrow(currentQuestionIndex, totalQuestions)
    ensures currentQuestionIndex < totalQuestions - 1 ==>
      ForwardLabel(currentQuestionIndex, totalQuestions) == "Next" && ShowsForwardArrow(currentQuestionIndex, totalQuestions)
  {
  }

  /** "Question {currentQuestionIndex + 1} of {totalQuestions}". */
  function HeaderText(currentQuestionIndex: int, totalQuestions: int): (header: string)
    ensures |header| > 9 && header[..9] == "Question "
  {
    "Question " + IntToString(currentQuestionIndex + 1) + " of " + IntToString(totalQuestions)
  }

  /** The header shows the one-based position: the digits after "Question "
      read back as currentQuestionIndex + 1, followed by " of " and the total. */
  lemma HeaderShowsOneBasedPosition(currentQuestionIndex: nat, totalQuestions: int)
    ensures var header := HeaderText(currentQuestionIndex, totalQuestions);
      var digits := DecimalString(currentQuestionIndex + 1);
      && header[..9] == "Question "
      && AllDigits(header[9..9 + |digits|])
      && ParseDecimal(header[9..9 + |digits|]) == currentQuestionIndex + 1
      && header[9 + |digits|..] == " of " + IntToString(totalQuestions)
  {
    var digits := DecimalString(currentQuestionIndex + 1);
    var header := HeaderText(currentQuestionIndex, totalQuestions);
    assert header == "Question " + digits + (" of " + IntToString(totalQuestions));
    assert header[9..9 + |digits|] == digits;
    ParseDecimalString(currentQuestionIndex + 1);
  }
}
