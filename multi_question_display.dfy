/** The Likert questionnaire (src/components/assessment/MultiQuestionDisplay.tsx):
    the 1-5 answer keys, the rule that decides which question a key press
    answers, and the option values, labels and highlight of each question.
    The page's `onAnswerSelected` callback is modelled by the selection a
    handler returns, and `currentAnswers` by a map from question id to value. */
module MultiQuestionDisplay {
  import opened Optional
  import opened Numbers

  datatype LikertQuestion = LikertQuestion(id: string, text: string)

  /** One `onAnswerSelected(questionId, value)` call. */
  datatype Selection = Selection(questionId: string, value: int)

  const AnswerKeys: seq<string> := ["1", "2", "3", "4", "5"]

  /** `['1', '2', '3', '4', '5'].includes(key)`. */
  predicate IsAnswerKey(key: string) {
    key in AnswerKeys
  }

  /** `parseInt(key)` of an answer key: the digit pressed, in 1..5. */
  function KeyValue(key: string): (value: int)
    requires IsAnswerKey(key)
    ensures 1 <= value <= 5
    ensures key == [DigitChar(value)]
  {
    key[0] as int - '0' as int
  }

  /** `currentAnswers[id]` is truthy: present and not 0. */
  predicate Answered(currentAnswers: map<string, int>, questionId: string) {
    questionId in currentAnswers && currentAnswers[questionId] != 0
  }

  /** The focused element carries a truthy `data-question-id`. */
  predicate HasFocus(focusedQuestionId: Option<string>) {
    focusedQuestionId.Some? && focusedQuestionId.value != ""
  }

  /** Position of the first question, at or after `from`, with no truthy answer. */
  function FirstUnansweredFrom(questions: seq<LikertQuestion>, currentAnswers: map<string, int>, from: nat): (r: Option<nat>)
    requires from <= |questions|
    ensures r.Some? ==> from <= r.value < |questions| && !Answered(currentAnswers, questions[r.value].id)
    ensures r.Some? ==> forall j :: from <= j < r.value ==> Answered(currentAnswers, questions[j].id)
    ensures r.None? <==> forall j :: from <= j < |questions| ==> Answered(currentAnswers, questions[j].id)
    decreases |questions| - from
  {
    if from == |questions| then None
    else if !Answered(currentAnswers, questions[from].id) then Some(from)
    else FirstUnansweredFrom(questions, currentAnswers, from + 1)
  }

  /** Position of the first question in list order with no truthy answer. */
  function FirstUnanswered(questions: seq<LikertQuestion>, currentAnswers: map<string, int>): (r: Option<nat>)
    ensures r.Some? ==> r.value < |questions| && !Answered(currentAnswers, questions[r.value].id)
    ensures r.Some? ==> forall j :: 0 <= j < r.value ==> Answered(currentAnswers, questions[j].id)
    ensures r.None? <==> forall j :: 0 <= j < |questions| ==> Answered(currentAnswers, questions[j].id)
  {
    FirstUnansweredFrom(questions, currentAnswers, 0)
  }

  /** Which question a key press answers, and with what: nothing for a key
      other than 1-5; the focused question, answered or not, when one is
      focused; otherwise the first unanswered question, and nothing when every
      question is answered. */
  function KeySelection(key: string, focusedQuestionId: Option<string>,
                        questions: seq<LikertQuestion>, currentAnswers: map<string, int>): (selected: Option<Selection>)
    ensures !IsAnswerKey(key) ==> selected.None?
    ensures selected.Some? ==> IsAnswerKey(key) && selected.value.value == KeyValue(key)
    ensures IsAnswerKey(key) && HasFocus(focusedQuestionId) ==>
      selected == Some(Selection(focusedQuestionId.value, KeyValue(key)))
    ensures IsAnswerKey(key) && !HasFocus(focusedQuestionId) ==>
      (selected.None? <==> forall j :: 0 <= j < |questions| ==> Answered(currentAnswers, questions[j].id))
    ensures selected.Some? && !HasFocus(focusedQuestionId) ==>
      exists i :: 0 <= i < |questions| && selected.value.questionId == questions[i].id
        && !Answered(currentAnswers, questions[i].id)
        && forall j :: 0 <= j < i ==> Answered(currentAnswers, questions[j].id)
  {
    if !IsAnswerKey(key) then None
    else if HasFocus(focusedQuestionId) then Some(Selection(focusedQuestionId.value, KeyValue(key)))
    else match FirstUnanswered(questions, currentAnswers)
      case None => None
      case Some(i) => Some(Selection(questions[i].id, KeyValue(key)))
  }

  /** `handleKeyDown`: the focused question first, else a search through the
      questions that stops at the first unanswered one. It reports at most one
      selection, and exactly the one the rule above decides. */
  method HandleKeyDown(key: string, focusedQuestionId: Option<string>,
                       questions: seq<LikertQuestion>, currentAnswers: map<string, int>)
    returns (selected: Option<Selection>)
    ensures selected == KeySelection(key, focusedQuestionId, questions, currentAnswers)
    ensures selected.Some? ==> 1 <= selected.value.value <= 5
  {
    selected := None;
    if key in AnswerKeys {
      var answerValue := KeyValue(key);
      if focusedQuestionId.Some? && focusedQuestionId.value != "" {
        selected := Some(Selection(focusedQuestionId.value, answerValue));
        return;
      }
      var k := 0;
      while k < |questions|
        invariant 0 <= k <= |questions|
        invariant selected.None?
        invariant forall j :: 0 <= j < k ==> Answered(currentAnswers, questions[j].id)
      {
        if !(questions[k].id in currentAnswers && currentAnswers[questions[k].id] != 0) {
          selected := Some(Selection(questions[k].id, answerValue));
          break;
        }
        k := k + 1;
      }
    }
  }

  /** A parent that records a selection by overwriting that question's entry
      of `currentAnswers`. */
  function Record(currentAnswers: map<string, int>, selection: Selection): (updated: map<string, int>)
    ensures updated.Keys == currentAnswers.Keys + {selection.questionId}
    ensures updated[selection.questionId] == selection.value
    ensures forall id :: id in currentAnswers && id != selection.questionId ==> updated[id] == currentAnswers[id]
  {
    currentAnswers[selection.questionId := selection.value]
  }

  /** Recording a key press never takes an answer away, and the pressed
      question is answered afterwards. */
  lemma KeyPressKeepsAnswers(key: string, focusedQuestionId: Option<string>,
                             questions: seq<LikertQuestion>, currentAnswers: map<string, int>)
    requires KeySelection(key, focusedQuestionId, questions, currentAnswers).Some?
    ensures var selection := KeySelection(key, focusedQuestionId, questions, currentAnswers).value;
      var updated := Record(currentAnswers, selection);
      && Answered(updated, selection.questionId)
      && forall id :: Answered(currentAnswers, id) ==> Answered(updated, id)
  {
  }

  /** Without a focused question, successive key presses fill the questionnaire
      in list order: after one is recorded, the first unanswered question lies
      strictly further down the list (or none is left). */
  lemma {:induction false} UnfocusedPressesAdvance(key: string, focusedQuestionId: Option<string>,
                                                   questions: seq<LikertQuestion>, currentAnswers: map<string, int>)
    requires !HasFocus(focusedQuestionId)
    requires KeySelection(key, focusedQuestionId, questions, currentAnswers).Some?
    ensures FirstUnanswered(questions, currentAnswers).Some?
    ensures var before := FirstUnanswered(questions, currentAnswers).value;
      var after := FirstUnanswered(questions, Record(currentAnswers, KeySelection(key, focusedQuestionId, questions, currentAnswers).value));
      after.None? || after.value > before
  {
    var selection := KeySelection(key, focusedQuestionId, questions, currentAnswers).value;
    var before := FirstUnanswered(questions, currentAnswers);
    assert before.Some?;
    var i := before.value;
    assert selection.questionId == questions[i].id;
    var updated := Record(currentAnswers, selection);
    KeyPressKeepsAnswers(key, focusedQuestionId, questions, currentAnswers);
    forall j | 0 <= j <= i
      ensures Answered(updated, questions[j].id)
    {
      if j < i {
        assert Answered(currentAnswers, questions[j].id);
      }
    }
  }

  /** `[1, 2, 3, 4, 5]`: the values a question offers. */
  const OptionValues: seq<int> := [1, 2, 3, 4, 5]

  /** The label shown beside each option value. */
  function OptionLabel(value: int): (caption: string)
    ensures value in OptionValues <==> caption != ""
  {
    if value == 1 then "Strongly Disagree"
    else if value == 2 then "Disagree"
    else if value == 3 then "Neutral"
    else if value == 4 then "Agree"
    else if value == 5 then "Strongly Agree"
    else ""
  }

  /** A click on option `value` of a question reports that question and value. */
  function ClickSelection(questionId: string, value: int): (selection: Selection)
    requires value in OptionValues
    ensures selection.questionId == questionId && 1 <= selection.value <= 5
  {
    Selection(questionId, value)
  }

  /** After a click on option `value` is recorded, that option, and only that
      one, is highlighted for the question. */
  lemma ClickHighlights(currentAnswers: map<string, int>, questionId: string, value: int)
    requires value in OptionValues
    ensures HighlightedOptions(Record(currentAnswers, ClickSelection(questionId, value)), questionId) == [value]
  {
    HighlightFollowsAnswer(Record(currentAnswers, ClickSelection(questionId, value)), questionId);
  }

  /** `onValueChange` with an option's `value.toString()`: `parseInt` reads the
      option's value back. */
  lemma ValueChangeReadsOptionBack(value: int)
    requires value in OptionValues
    ensures IsAnswerKey(IntToString(value)) && KeyValue(IntToString(value)) == value
  {
    assert IntToString(value) == [DigitChar(value)];
  }

  /** `currentAnswers[question.id] === value`. */
  predicate IsHighlighted(currentAnswers: map<string, int>, questionId: string, value: int) {
    questionId in currentAnswers && currentAnswers[questionId] == value
  }

  /** How many times x occurs in values. */
  function Occurrences(values: seq<int>, x: int): nat {
    if |values| == 0 then 0 else (if values[0] == x then 1 else 0) + Occurrences(values[1..], x)
  }

  /** Each of the five option values occurs once. */
  lemma OptionValuesOccurOnce(x: int)
    ensures Occurrences(OptionValues, x) == if x in OptionValues then 1 else 0
  {
    assert [5][1..] == [];
    assert Occurrences([5], x) == if x == 5 then 1 else 0;
    assert [4, 5][1..] == [5];
    assert Occurrences([4, 5], x) == if x == 4 || x == 5 then 1 else 0;
    assert [3, 4, 5][1..] == [4, 5];
    assert Occurrences([3, 4, 5], x) == if 3 <= x <= 5 then 1 else 0;
    assert [2, 3, 4, 5][1..] == [3, 4, 5];
    assert Occurrences([2, 3, 4, 5], x) == if 2 <= x <= 5 then 1 else 0;
    assert OptionValues[1..] == [2, 3, 4, 5];
  }

  /** The values among `values` whose option is highlighted: one per
      occurrence of the question's current answer. */
  function HighlightedAmong(values: seq<int>, currentAnswers: map<string, int>, questionId: string): (highlighted: seq<int>)
    ensures forall v :: v in highlighted <==> v in values && IsHighlighted(currentAnswers, questionId, v)
    ensures |highlighted| == if questionId in currentAnswers then Occurrences(values, currentAnswers[questionId]) else 0
  {
    if |values| == 0 then []
    else
      var rest := HighlightedAmong(values[1..], currentAnswers, questionId);
      if IsHighlighted(currentAnswers, questionId, values[0]) then [values[0]] + rest else rest
  }

  /** The highlighted options of one question: at most one. */
  function HighlightedOptions(currentAnswers: map<string, int>, questionId: string): (highlighted: seq<int>)
    ensures forall v :: v in highlighted <==> v in OptionValues && IsHighlighted(currentAnswers, questionId, v)
    ensures |highlighted| <= 1
  {
    OptionValuesOccurOnce(if questionId in currentAnswers then currentAnswers[questionId] else 0);
    HighlightedAmong(OptionValues, currentAnswers, questionId)
  }

  /** Exactly the option equal to the current answer is highlighted, and none
      when the question has no answer in 1..5. */
  lemma HighlightFollowsAnswer(currentAnswers: map<string, int>, questionId: string)
    ensures HighlightedOptions(currentAnswers, questionId) ==
      if questionId in currentAnswers && currentAnswers[questionId] in OptionValues
      then [currentAnswers[questionId]] else []
  {
    var highlighted := HighlightedOptions(currentAnswers, questionId);
    if questionId in currentAnswers {
      var answer := currentAnswers[questionId];
      OptionValuesOccurOnce(answer);
      assert |highlighted| == Occurrences(OptionValues, answer);
      if answer in OptionValues {
        assert highlighted[0] in highlighted;
      }
    }
  }

  /** `value={currentAnswers[question.id]?.toString()}`: the radio group's value
      is the answer's text, or undefined when there is no entry. */
  function RadioGroupValue(currentAnswers: map<string, int>, questionId: string): (value: Option<string>)
    ensures value.None? <==> questionId !in currentAnswers
    ensures questionId in currentAnswers && currentAnswers[questionId] in OptionValues ==>
      value == Some(IntToString(currentAnswers[questionId]))
      && IsAnswerKey(value.value) && KeyValue(value.value) == currentAnswers[questionId]
  {
    if questionId in currentAnswers then
      var answer := currentAnswers[questionId];
      assert answer in OptionValues ==>
        IsAnswerKey(IntToString(answer)) && KeyValue(IntToString(answer)) == answer by {
        if answer in OptionValues { ValueChangeReadsOptionBack(answer); }
      }
      Some(IntToString(answer))
    else None
  }
}
