/** The single-question assessment page (src/pages/TakeAssessment.tsx): the
    static question bank, and a session whose state (current question index,
    answer map, completion flag) the select / next / previous handlers update.
    The Previous and Next/Submit buttons of the question card guard the
    handlers (PressNext, PressPrevious). */
module TakeAssessment {
  import opened Optional
  import opened AssessmentQuestion

  /** `assessmentQuestions["role-based"]` and so on: the fixed lists. */
  const RoleBasedQuestions: seq<Question> := [
    Question("1", 1,
      "Which of the following best describes the primary role of product strategy?",
      None,
      [
        Answer("a", "Determining the technical architecture of the product"),
        Answer("b", "Defining how the product will achieve business goals while meeting user needs"),
        Answer("c", "Designing the user interface and experience"),
        Answer("d", "Managing the development team's workflow"),
        Answer("e", "Creating marketing materials for the product")
      ],
      Some("b"),
      Some("Product strategy defines how a product will meet both business objectives and user needs, providing a roadmap for product decisions.")),
    Question("2", 2,
      "When prioritizing features for a product roadmap, which of the following approaches is most effective?",
      None,
      [
        Answer("a", "Implementing all requested features from the sales team"),
        Answer("b", "Focusing exclusively on what competitors are doing"),
        Answer("c", "Building whatever the development team finds most interesting"),
        Answer("d", "Balancing user value, business value, and implementation effort/risk"),
        Answer("e", "Adding as many features as possible in each release")
      ],
      Some("d"),
      Some("Effective prioritization balances the value to users, value to the business, and the effort/risk of implementation.")),
    Question("3", 3,
      "What is the most appropriate way to handle stakeholder disagreement about product direction?",
      None,
      [
        Answer("a", "Always defer to the highest-ranking stakeholder"),
        Answer("b", "Avoid the conflict by implementing all requested features"),
        Answer("c", "Facilitate data-informed discussion focused on user needs and business goals"),
        Answer("d", "Let the development team decide what to build"),
        Answer("e", "Postpone all decisions until everyone agrees")
      ],
      Some("c"),
      Some("Productive stakeholder management involves facilitating discussions based on data and evidence, focusing on how decisions serve user needs and business goals."))
  ]

  const TechnicalQuestions: seq<Question> := [
    Question("1", 1,
      "Which approach to state management in React is most appropriate for sharing data between deeply nested components?",
      None,
      [
        Answer("a", "Passing props down through each component level"),
        Answer("b", "Using a global state management library like Redux or Context API"),
        Answer("c", "Storing all data in local component state"),
        Answer("d", "Using URL parameters"),
        Answer("e", "Relying on browser localStorage")
      ],
      Some("b"),
      Some("Context API or state management libraries like Redux are designed to solve the \"prop drilling\" problem when sharing data across deeply nested components.")),
    Question("2", 2,
      "What is the primary benefit of code splitting in a frontend application?",
      None,
      [
        Answer("a", "Reducing the number of HTTP requests"),
        Answer("b", "Improving initial load time by only loading necessary code"),
        Answer("c", "Making the codebase easier to understand"),
        Answer("d", "Allowing multiple developers to work on the same feature"),
        Answer("e", "Preventing CSS conflicts")
      ],
      Some("b"),
      Some("Code splitting improves application performance by only loading the code necessary for the current view, reducing initial bundle size and load time."))
  ]

  const DesignQuestions: seq<Question> := [
    Question("1", 1,
      "In the UI shown below, rank the design issues from most critical to least critical:",
      Some("/placeholder.svg"),
      [
        Answer("a", "Visual Hierarchy - Users cannot easily identify the most important elements"),
        Answer("b", "Information Architecture - Related items are not properly grouped"),
        Answer("c", "Progressive Disclosure - Too much information is shown at once"),
        Answer("d", "Cognitive Load - The interface requires too much mental effort"),
        Answer("e", "Learnability - New users would struggle to understand how to use this interface")
      ],
      Some("a"),
      Some("Visual hierarchy is the most critical issue here as it impacts the user's ability to navigate and use the interface effectively.")),
    Question("2", 2,
      "Which principle best describes the concept of making important elements more visually prominent?",
      None,
      [
        Answer("a", "Consistency"),
        Answer("b", "Visual Hierarchy"),
        Answer("c", "Proximity"),
        Answer("d", "Alignment"),
        Answer("e", "Contrast")
      ],
      Some("b"),
      Some("Visual hierarchy refers to the arrangement of elements to show their order of importance, making key elements stand out through size, color, placement, etc."))
  ]

  const LeadershipQuestions: seq<Question> := [
    Question("1", 1,
      "Which approach is most effective when a team member consistently misses deadlines?",
      None,
      [
        Answer("a", "Publicly call out the issue during team meetings to create accountability"),
        Answer("b", "Reassign all their tasks to more reliable team members"),
        Answer("c", "Have a private conversation to understand underlying causes and offer support"),
        Answer("d", "Immediately escalate the issue to upper management"),
        Answer("e", "Set even tighter deadlines to motivate them to work faster")
      ],
      Some("c"),
      Some("Effective leadership involves understanding root causes behind performance issues and providing appropriate support and coaching."))
  ]

  const CompetencyQuestions: seq<Question> := [
    Question("1", 1,
      "When faced with conflicting priorities from different stakeholders, what is the most effective first step?",
      None,
      [
        Answer("a", "Immediately escalate to upper management for a decision"),
        Answer("b", "Try to satisfy everyone by working longer hours"),
        Answer("c", "Identify the underlying needs and business objectives driving each request"),
        Answer("d", "Avoid the conflict by delaying less urgent requests indefinitely"),
        Answer("e", "Choose the stakeholder with the highest position in the organization")
      ],
      Some("c"),
      Some("Understanding the underlying needs and business objectives allows you to find potential compromises or alternative solutions that address the core requirements."))
  ]

  /** `assessmentQuestions`: each assessment type's fixed question list. */
  const AssessmentQuestions: map<string, seq<Question>> := map[
    "role-based" := RoleBasedQuestions,
    "technical" := TechnicalQuestions,
    "design" := DesignQuestions,
    "leadership" := LeadershipQuestions,
    "competency" := CompetencyQuestions
  ]

  /** The option ids of a question are non-empty, so choosing one is truthy. */
  predicate OptionIdsNonEmpty(question: Question) {
    forall k :: 0 <= k < |question.answers| ==> question.answers[k].id != ""
  }

  /** The question's correct answer is one of its own options. */
  predicate CorrectAnswerOffered(question: Question) {
    question.correctAnswerId.Some? && question.correctAnswerId.value in AnswerIds(question)
  }

  /** What the bank guarantees of one assessment's list: distinct question ids,
      `number` running 1..n in list order, each correct answer among the
      question's options, and non-empty option ids. */
  predicate WellFormedQuestions(questions: seq<Question>) {
    && (forall i, j :: 0 <= i < j < |questions| ==> questions[i].id != questions[j].id)
    && (forall i :: 0 <= i < |questions| ==> questions[i].number == i + 1)
    && (forall i :: 0 <= i < |questions| ==> CorrectAnswerOffered(questions[i]))
    && (forall i :: 0 <= i < |questions| ==> OptionIdsNonEmpty(questions[i]))
  }

  /** A question whose options are "a" to "e" and whose correct answer is one
      of those letters. */
  predicate LetteredOptions(question: Question) {
    && |question.answers| == 5
    && question.answers[0].id == "a" && question.answers[1].id == "b"
    && question.answers[2].id == "c" && question.answers[3].id == "d"
    && question.answers[4].id == "e"
    && question.correctAnswerId.Some?
    && question.correctAnswerId.value in ["a", "b", "c", "d", "e"]
  }

  lemma LetteredOptionsWellFormed(question: Question)
    requires LetteredOptions(question)
    ensures CorrectAnswerOffered(question) && OptionIdsNonEmpty(question)
  {
    assert AnswerIds(question) == ["a", "b", "c", "d", "e"];
  }

  /** A list of lettered questions numbered 1..n with distinct ids is well formed. */
  lemma LetteredListWellFormed(questions: seq<Question>)
    requires forall i, j :: 0 <= i < j < |questions| ==> questions[i].id != questions[j].id
    requires forall i :: 0 <= i < |questions| ==> questions[i].number == i + 1
    requires forall i :: 0 <= i < |questions| ==> LetteredOptions(questions[i])
    ensures WellFormedQuestions(questions)
  {
    forall i | 0 <= i < |questions|
      ensures CorrectAnswerOffered(questions[i]) && OptionIdsNonEmpty(questions[i])
    {
      LetteredOptionsWellFormed(questions[i]);
    }
  }

  lemma RoleBasedQuestionsWellFormed()
    ensures |RoleBasedQuestions| > 0 && WellFormedQuestions(RoleBasedQuestions)
  {
    LetteredListWellFormed(RoleBasedQuestions);
  }

  lemma TechnicalQuestionsWellFormed()
    ensures |TechnicalQuestions| > 0 && WellFormedQuestions(TechnicalQuestions)
  {
    LetteredListWellFormed(TechnicalQuestions);
  }

  lemma DesignQuestionsWellFormed()
    ensures |DesignQuestions| > 0 && WellFormedQuestions(DesignQuestions)
  {
    LetteredListWellFormed(DesignQuestions);
  }

  lemma LeadershipQuestionsWellFormed()
    ensures |LeadershipQuestions| > 0 && WellFormedQuestions(LeadershipQuestions)
  {
    LetteredListWellFormed(LeadershipQuestions);
  }

  lemma CompetencyQuestionsWellFormed()
    ensures |CompetencyQuestions| > 0 && WellFormedQuestions(CompetencyQuestions)
  {
    LetteredListWellFormed(CompetencyQuestions);
  }

  /** Every list of the bank is non-empty and well formed. */
  lemma BankWellFormed()
    ensures forall key :: key in AssessmentQuestions ==>
      |AssessmentQuestions[key]| > 0 && WellFormedQuestions(AssessmentQuestions[key])
  {
    forall key | key in AssessmentQuestions
      ensures |AssessmentQuestions[key]| > 0 && WellFormedQuestions(AssessmentQuestions[key])
    {
      if key == "role-based" {
        RoleBasedQuestionsWellFormed();
      } else if key == "technical" {
        TechnicalQuestionsWellFormed();
      } else if key == "design" {
        DesignQuestionsWellFormed();
      } else if key == "leadership" {
        LeadershipQuestionsWellFormed();
      } else {
        assert key == "competency";
        CompetencyQuestionsWellFormed();
      }
    }
  }

  /** `assessmentId ? assessmentQuestions[assessmentId] || [] : []`. */
  function QuestionsFor(assessmentId: Option<string>): (questions: seq<Question>)
    ensures |questions| == 0 <==> assessmentId.None? || assessmentId.value !in AssessmentQuestions
    ensures assessmentId.Some? && assessmentId.value in AssessmentQuestions ==>
      questions == AssessmentQuestions[assessmentId.value]
    ensures WellFormedQuestions(questions)
  {
    BankWellFormed();
    if assessmentId.None? || assessmentId.value == "" then []
    else if assessmentId.value in AssessmentQuestions then AssessmentQuestions[assessmentId.value]
    else []
  }

  /** A stored answer counts when it is truthy, i.e. present and non-empty. */
  predicate IsAnswered(userAnswers: map<string, string>, questionId: string) {
    questionId in userAnswers && userAnswers[questionId] != ""
  }

  predicate AllAnswered(questions: seq<Question>, userAnswers: map<string, string>) {
    forall i :: 0 <= i < |questions| ==> IsAnswered(userAnswers, questions[i].id)
  }

  /** The page's state for one run through an assessment. */
  class AssessmentSession {
    const questions: seq<Question>
    var currentQuestionIndex: nat
    var userAnswers: map<string, string>
    var isComplete: bool

    /** The index stays on a question; every question before it has been
        answered (forward moves need an answer, and answers are never removed);
        completion means every question has been answered. */
    ghost predicate Valid()
      reads this
    {
      && (if |questions| == 0 then currentQuestionIndex == 0 else currentQuestionIndex < |questions|)
      && (forall i :: 0 <= i < |questions| ==> OptionIdsNonEmpty(questions[i]))
      && (forall i :: 0 <= i < currentQuestionIndex && i < |questions| ==> IsAnswered(userAnswers, questions[i].id))
      && (isComplete ==> AllAnswered(questions, userAnswers))
    }

    /** The page opened for `assessmentId`: a missing or unknown id gives no
        questions (the not-found screen); a known id gives its fixed list. */
    constructor (assessmentId: Option<string>)
      ensures Valid()
      ensures questions == QuestionsFor(assessmentId)
      ensures |questions| == 0 <==> assessmentId.None? || assessmentId.value !in AssessmentQuestions
      ensures currentQuestionIndex == 0 && userAnswers == map[] && !isComplete
    {
      questions := QuestionsFor(assessmentId);
      currentQuestionIndex := 0;
      userAnswers := map[];
      isComplete := false;
    }

    function CurrentQuestion(): Question
      reads this
      requires Valid() && |questions| > 0
    {
      questions[currentQuestionIndex]
    }

    /** `userAnswers[currentQuestion.id] || null`. */
    function SelectedAnswer(): (selected: Option<string>)
      reads this
      requires Valid() && |questions| > 0
      ensures selected.Some? <==> IsAnswered(userAnswers, CurrentQuestion().id)
      ensures selected.Some? ==> selected.value == userAnswers[CurrentQuestion().id]
    {
      var id := CurrentQuestion().id;
      if id in userAnswers && userAnswers[id] != "" then Some(userAnswers[id]) else None
    }

    /** The card's radio group shows the answer stored for the current
        question, or "" when there is none. */
    lemma CardShowsStoredAnswer()
      requires Valid() && |questions| > 0
      ensures var id := CurrentQuestion().id;
        RadioGroupValue(SelectedAnswer()) == if id in userAnswers then userAnswers[id] else ""
    {
    }

    /** `handleSelectAnswer`, reached from the radio group with one of the
        current question's option ids: only that question's entry is set. */
    method SelectAnswer(answerId: string)
      requires Valid() && |questions| > 0
      requires answerId in AnswerIds(CurrentQuestion())
      modifies this
      ensures Valid()
      ensures userAnswers == old(userAnswers)[old(CurrentQuestion()).id := answerId]
      ensures currentQuestionIndex == old(currentQuestionIndex) && isComplete == old(isComplete)
      ensures SelectedAnswer() == Some(answerId)
      ensures RadioGroupValue(SelectedAnswer()) == answerId
    {
      userAnswers := userAnswers[questions[currentQuestionIndex].id := answerId];
    }

    /** `handleNextQuestion`, wired to the forward button, which is enabled
        only with an answer selected: move on, or on the last question mark the
        assessment complete. */
    method HandleNextQuestion()
      requires Valid() && |questions| > 0 && SelectedAnswer().Some?
      modifies this
      ensures Valid() && userAnswers == old(userAnswers)
      ensures old(currentQuestionIndex) < |questions| - 1 ==>
        currentQuestionIndex == old(currentQuestionIndex) + 1 && isComplete == old(isComplete)
      ensures old(currentQuestionIndex) == |questions| - 1 ==>
        currentQuestionIndex == old(currentQuestionIndex) && isComplete
    {
      if currentQuestionIndex < |questions| - 1 {
        currentQuestionIndex := currentQuestionIndex + 1;
      } else {
        isComplete := true;
      }
    }

    /** `handlePreviousQuestion`: step back, except on the first question. */
    method HandlePreviousQuestion()
      requires Valid()
      modifies this
      ensures Valid() && userAnswers == old(userAnswers) && isComplete == old(isComplete)
      ensures currentQuestionIndex ==
        if old(currentQuestionIndex) > 0 then old(currentQuestionIndex) - 1 else old(currentQuestionIndex)
    {
      if currentQuestionIndex > 0 {
        currentQuestionIndex := currentQuestionIndex - 1;
      }
    }

    /** A press on the Next/Submit button (`showNext` is always true here): it
        does nothing while no answer is selected; completion therefore implies
        that every question has a recorded answer. */
    method PressNext()
      requires Valid() && |questions| > 0
      modifies this
      ensures Valid() && userAnswers == old(userAnswers)
      ensures old(ForwardDisabled(SelectedAnswer(), true)) ==>
        currentQuestionIndex == old(currentQuestionIndex) && isComplete == old(isComplete)
      ensures !old(ForwardDisabled(SelectedAnswer(), true)) && old(currentQuestionIndex) < |questions| - 1 ==>
        currentQuestionIndex == old(currentQuestionIndex) + 1 && isComplete == old(isComplete)
      ensures !old(ForwardDisabled(SelectedAnswer(), true)) && old(currentQuestionIndex) == |questions| - 1 ==>
        currentQuestionIndex == old(currentQuestionIndex) && isComplete
      ensures isComplete ==> AllAnswered(questions, userAnswers)
    {
      if !ForwardDisabled(SelectedAnswer(), true) {
        HandleNextQuestion();
      }
    }

    /** A press on the Previous button (`showPrevious` is index > 0). */
    method PressPrevious()
      requires Valid()
      modifies this
      ensures Valid() && userAnswers == old(userAnswers) && isComplete == old(isComplete)
      ensures currentQuestionIndex ==
        if old(currentQuestionIndex) > 0 then old(currentQuestionIndex) - 1 else old(currentQuestionIndex)
    {
      if !PreviousDisabled(currentQuestionIndex > 0) {
        HandlePreviousQuestion();
      }
    }
  }
}
