# Skill-assessment and candidate-tracking core, in Dafny

This project models the logic of a hiring front end: the single-question
assessment session, the Likert questionnaire's keyboard quick-answer rule,
the OCEAN (Big Five) results page's scoring chain, and the candidate list's
filter/sort pipeline. Each source file of that core becomes one module:

- `assessment_results.dfy` (`AssessmentResults`): raw trait sums over the
  answer ids `ocean-1` .. `ocean-50`, trait percentages, the piecewise mapping
  onto each trait's own scale, categories, descriptions, score bands, pair
  combinations and the global score, with the `traitDescriptions`,
  `traitCombinations` and `globalAnalysis` tables. The three loops of the page
  are methods proved against recursive specification functions.
- `take_assessment.dfy` (`TakeAssessment`): the fixed question bank and the
  class `AssessmentSession` whose fields (`currentQuestionIndex`,
  `userAnswers`, `isComplete`) the select / next / previous handlers update.
  Its invariant states that every question before the current one is
  answered, and that completion means every question is answered. This holds
  because the forward button is disabled without a selection.
- `assessment_question.dfy` (`AssessmentQuestion`): the question card's
  derived values. These are the header, the radio group's value, the
  Previous / Next enable guards, and the Next / Submit caption.
- `multi_question_display.dfy` (`MultiQuestionDisplay`): the 1-5 key handler
  (focused question first, otherwise the first unanswered one) as a loop
  method proved against a decision function. It also holds the option values,
  their labels and the highlight rule.
- `candidates.dfy` (`Candidates`): the search / status / sort chain, the
  status tabs, the completion count and the average match score.
- `numbers.dfy`, `text.dfy`, `option.dfy`: `Math.round` of a quotient,
  decimal rendering of integers, the string operations the pages use, and an
  optional value.

Where the code and its own comments disagree, the model follows the code.
`calculateScaledScore` returns the percentage itself below 50, not a value
mapped onto 0-25 as its comment says. As a consequence the scaled score is
not monotone: a 51-75 trait scores 49 at 49% and 26 at 50%
(`ScaledScoreDropsAtFifty`). The two copies of `calculateScaledScore`
(src/pages/AssessmentResults.tsx:111-133 and 253-275) are identical and are
modelled once. The trait percentage divides by the fixed maximum
`5 * (number of ids)`, as the code does, and not by the number of answers.
The session does not show a warning about unanswered questions. Instead, the
forward button stays disabled until the current question has an answer, and
the model states that guarantee.

## Model

| member | source | states |
|---|---|---|
| Numbers.RoundDiv | src/pages/AssessmentResults.tsx:249 | `Math.round(a / b)` for b > 0: the result r satisfies 2br <= 2a + b < 2br + 2b, so it is the nearest integer with halves rounded up |
| Numbers.RoundDivAtLeast | src/pages/AssessmentResults.tsx:249 | a quotient at or above lo rounds to at least lo |
| Numbers.RoundDivAtMost | src/pages/AssessmentResults.tsx:249 | a quotient at or below hi rounds to at most hi |
| Numbers.RoundDivExact | src/pages/AssessmentResults.tsx:249 | an exact integer quotient is left unchanged by rounding |
| Numbers.DecimalString | src/pages/AssessmentResults.tsx:233 | the rendering of a natural number in a template string is a non-empty string of digits |
| Numbers.ParseDecimalString | src/pages/AssessmentResults.tsx:233 | reading the rendered digits back gives the number again |
| Numbers.IntToStringInjective | src/pages/AssessmentResults.tsx:233 | distinct integers render as distinct strings |
| Text.Lower | src/pages/Candidates.tsx:113-114 | `toLowerCase` keeps the length, leaves no upper-case letter, and changes only upper-case letters, to their lower-case forms |
| Text.LowerIdempotent | src/pages/Candidates.tsx:113-114 | lower-casing an already lower-cased string changes nothing |
| Text.ReplaceFirst | src/pages/AssessmentResults.tsx:181 | `replace` with a string pattern returns the string unchanged when the pattern does not occur, and replaces a leading occurrence once |
| Text.StrCmp | src/pages/Candidates.tsx:130 | the string comparison returns -1, 0 or 1, and 0 exactly for equal strings |
| Text.StrCmpAntisymmetric | src/pages/Candidates.tsx:130 | swapping the arguments negates the comparison |
| Text.StrCmpTransitive | src/pages/Candidates.tsx:133 | "sorts no later than" is transitive |
| AssessmentResults.OceanIdInjective | src/pages/AssessmentResults.tsx:233 | distinct question numbers give distinct answer ids `ocean-<i>` |
| AssessmentResults.CalculateRawTraitScore | src/pages/AssessmentResults.tsx:228-241 | the loop returns the sum of the answers present for ids start..end, missing ids adding 0 |
| AssessmentResults.RawTraitSumBounds | src/pages/AssessmentResults.tsx:228-241 | with answers in 1..5 the raw sum lies in [0, 5 * (end - start + 1)] |
| AssessmentResults.RawTraitSumFrame | src/pages/AssessmentResults.tsx:232-238 | the raw sum depends only on the answers of ids inside its block |
| AssessmentResults.RawTraitSumUniform | src/pages/AssessmentResults.tsx:228-241 | a block answered throughout with v sums to v times its length |
| AssessmentResults.RawTraitSumUnanswered | src/pages/AssessmentResults.tsx:240 | a block with no answers sums to 0 |
| AssessmentResults.CalculateTraitScore | src/pages/AssessmentResults.tsx:244-250 | with answers in 1..5 the percentage lies in [0, 100]; an empty block scores 0 |
| AssessmentResults.TraitScoreOfTenIds | src/pages/AssessmentResults.tsx:244-250 | for a ten-id block the percentage is exactly twice the raw sum |
| AssessmentResults.TraitScoreUniform | src/pages/AssessmentResults.tsx:244-250 | a block answered throughout with v scores 20v: 100 for all 5, 20 for all 1 |
| AssessmentResults.TraitScoreUnanswered | src/pages/AssessmentResults.tsx:244-250 | a block with no answers scores 0 |
| AssessmentResults.CalculateScores | src/pages/AssessmentResults.tsx:212-225 | an assessment other than 'ocean-trait' scores 0 on all five traits; with answers in 1..5 every score is in [0, 100] |
| AssessmentResults.TraitScoreIgnoresOtherIds | src/pages/AssessmentResults.tsx:228-250 | changing the answer of an id outside a block leaves that block's percentage unchanged |
| AssessmentResults.ScoresReadDisjointBlocks | src/pages/AssessmentResults.tsx:218-224 | answering `ocean-j` can change only the trait whose block 1-10, 11-20, 21-30, 31-40 or 41-50 holds j |
| AssessmentResults.ScaledScoreHighBand | src/pages/AssessmentResults.tsx:117-118 | percentages 75..100 land in [minScaledScore, maxScaledScore], 75 exactly on the minimum and 100 exactly on the maximum |
| AssessmentResults.CalculateScaledScore | src/pages/AssessmentResults.tsx:111-133 | from 75% on the scaled score is never below the trait's minimum; below 50% it is the percentage itself |
| AssessmentResults.ScaledScoreMediumBand | src/pages/AssessmentResults.tsx:121-127 | percentages 50..74 map into [51, 75] on a 76-100 trait, and to exactly p - 24, in [26, 50], on a 51-75 trait |
| AssessmentResults.ScaledScoreDropsAtFifty | src/pages/AssessmentResults.tsx:121-131 | on Conscientiousness 49% scales to 49 but 50% scales to 26 |
| AssessmentResults.ScaledScoreRange | src/pages/AssessmentResults.tsx:111-133 | on a trait of the table, a percentage in [0, 100] scales into [0, maxScaledScore] |
| AssessmentResults.CategoryOfShippedTrait | src/pages/AssessmentResults.tsx:154-166 | on every trait of the table the category is 'high' exactly when the scaled score reaches the minimum, which is exactly when p >= 75, and 'low' otherwise |
| AssessmentResults.GetScoreCategory | src/pages/AssessmentResults.tsx:154-166 | 'high' exactly when the scaled score reaches the trait's minimum; 'moderate' only on a scale starting neither at 51 nor at 76 |
| AssessmentResults.FindTrait | src/pages/AssessmentResults.tsx:170 | a found row is in the table and has the name looked up; nothing is found exactly when no row has that name |
| AssessmentResults.FindIn | src/pages/AssessmentResults.tsx:170 | for any table: a row with the name that no earlier row shares (the first one), or none exactly when no row has it |
| AssessmentResults.GetTraitDescription | src/pages/AssessmentResults.tsx:169-183 | an unknown trait has the empty description; a known one shows its high text, its low text or the balanced sentence |
| AssessmentResults.TraitDescriptionOfShippedTrait | src/pages/AssessmentResults.tsx:169-183 | an unknown trait has the empty description; a known one shows its high text from 75% on and its low text below |
| AssessmentResults.GetScoreRangeBand | src/pages/AssessmentResults.tsx:186-203 | every band label starts with "Score "; on a scale starting neither at 76 nor at 51 it is "Score " followed by the scaled score |
| AssessmentResults.RangeBandOfHighScaleTrait | src/pages/AssessmentResults.tsx:189-194 | for a 76-100 trait the band reads "Score 76-100" from 75%, "Score 51-75" from 50%, "Score 26-50" for 26..49% and "Score 0-25" below |
| AssessmentResults.RangeBandOfMidScaleTrait | src/pages/AssessmentResults.tsx:195-199 | for a 51-75 trait the band reads "Score 51-75" from 75%, "Score 26-50" for 26..74% and "Score 0-25" below |
| AssessmentResults.CalculateCombinationScore | src/pages/AssessmentResults.tsx:278-291 | the loop returns the sum over the listed traits of the scaled score of each trait found in the table, unknown names adding nothing |
| AssessmentResults.PairCombination | src/pages/AssessmentResults.tsx:278-291 | a pair scores the sum of its two contributions, and 0 when neither name is in the table |
| AssessmentResults.FindShippedTrait | src/pages/AssessmentResults.tsx:282 | looking up a table row's own name finds that row |
| AssessmentResults.ContributionOfShippedTrait | src/pages/AssessmentResults.tsx:282-286 | a trait of the table contributes its own scaled score |
| AssessmentResults.CalculateGlobalScore | src/pages/AssessmentResults.tsx:294-304 | the loop returns the sum of the five traits' scaled scores |
| AssessmentResults.GlobalScoreIsSumOfFive | src/pages/AssessmentResults.tsx:297-301 | the global sum over the table is the sum of the five scaled scores |
| AssessmentResults.ScaledTraitScoresInRange | src/pages/AssessmentResults.tsx:297-300 | on percentages each trait's scaled score lies in [0, 100] or, for the 51-75 traits, in [0, 75] |
| AssessmentResults.GlobalScoreBounds | src/pages/AssessmentResults.tsx:347-348 | on percentages the global score lies in [0, 450], so its range check holds exactly when it is at least 400 |
| AssessmentResults.CombinationScores | src/pages/AssessmentResults.tsx:337-344 | there is one result per row of the combinations table |
| AssessmentResults.ShippedPairScores | src/pages/AssessmentResults.tsx:337-344 | the three shipped pairs score O+E, C+N and A+C of the scaled scores |
| AssessmentResults.CombinationRangeChecks | src/pages/AssessmentResults.tsx:342 | on percentages each pair's range check holds exactly from its minimum (150, 100, 150) on |
| AssessmentQuestion.AnswerIds | src/components/assessment/AssessmentQuestion.tsx:76-78 | the radio group offers each option's id, in option order |
| AssessmentQuestion.RadioGroupValue | src/components/assessment/AssessmentQuestion.tsx:72 | the group shows the selected id, or "" exactly when nothing truthy is selected |
| TakeAssessment.AssessmentSession.CardShowsStoredAnswer | src/pages/TakeAssessment.tsx:198 | the card's group shows the answer stored for the current question, or "" when there is none |
| AssessmentQuestion.PreviousDisabled | src/components/assessment/AssessmentQuestion.tsx:89 | Previous is disabled exactly when it is not to be shown |
| AssessmentQuestion.ForwardDisabled | src/components/assessment/AssessmentQuestion.tsx:96 | the forward button is enabled exactly when an answer is selected and Next is shown |
| AssessmentQuestion.ForwardLabel | src/components/assessment/AssessmentQuestion.tsx:98 | the caption is "Submit" exactly on the last question and "Next" otherwise |
| AssessmentQuestion.ForwardButtonStates | src/components/assessment/AssessmentQuestion.tsx:94-100 | an enabled forward button means an answer is selected; on the last question it reads "Submit" with no arrow, before it "Next" with the arrow |
| AssessmentQuestion.ShowsForwardArrow | src/components/assessment/AssessmentQuestion.tsx:99 | the arrow is drawn exactly before the last question, so never beside "Submit" |
| AssessmentQuestion.HeaderText | src/components/assessment/AssessmentQuestion.tsx:52 | the header starts with "Question " |
| AssessmentQuestion.HeaderShowsOneBasedPosition | src/components/assessment/AssessmentQuestion.tsx:52 | the header's number reads back as index + 1, followed by " of " and the total |
| TakeAssessment.LetteredOptionsWellFormed | src/pages/TakeAssessment.tsx:9-147 | a question with options "a".."e" and a lettered correct answer offers its correct answer and has non-empty option ids |
| TakeAssessment.LetteredListWellFormed | src/pages/TakeAssessment.tsx:9-147 | a list of such questions, numbered 1..n with distinct ids, is well formed |
| TakeAssessment.RoleBasedQuestionsWellFormed | src/pages/TakeAssessment.tsx:10-53 | the role-based list is non-empty and well formed |
| TakeAssessment.TechnicalQuestionsWellFormed | src/pages/TakeAssessment.tsx:54-83 | the technical list is non-empty and well formed |
| TakeAssessment.DesignQuestionsWellFormed | src/pages/TakeAssessment.tsx:84-114 | the design list is non-empty and well formed |
| TakeAssessment.LeadershipQuestionsWellFormed | src/pages/TakeAssessment.tsx:115-130 | the leadership list is non-empty and well formed |
| TakeAssessment.CompetencyQuestionsWellFormed | src/pages/TakeAssessment.tsx:131-146 | the competency list is non-empty and well formed |
| TakeAssessment.BankWellFormed | src/pages/TakeAssessment.tsx:9-147 | every list of the bank is non-empty, with distinct ids, numbers 1..n, the correct answer among the options and non-empty option ids |
| TakeAssessment.QuestionsFor | src/pages/TakeAssessment.tsx:157 | there are no questions exactly when the id is missing or not in the bank; a known id gives its own list from the bank; the list is well formed |
| TakeAssessment.AssessmentSession.constructor | src/pages/TakeAssessment.tsx:150-157 | a new session starts on question 0 with no answers and not complete; it has no questions (the not-found screen) exactly when the id is missing or unknown |
| TakeAssessment.AssessmentSession.SelectedAnswer | src/pages/TakeAssessment.tsx:198 | the selection is present exactly when the current question has a truthy answer, and it is that answer |
| TakeAssessment.AssessmentSession.SelectAnswer | src/pages/TakeAssessment.tsx:159-164 | choosing an option sets only the current question's entry, keeps the invariant, makes that option the selection and the radio group's value |
| TakeAssessment.AssessmentSession.HandleNextQuestion | src/pages/TakeAssessment.tsx:166-173 | with an answer selected: move to the next question, or on the last one mark the assessment complete; answers unchanged |
| TakeAssessment.AssessmentSession.HandlePreviousQuestion | src/pages/TakeAssessment.tsx:175-179 | step back one question, except on the first; answers and completion unchanged |
| TakeAssessment.AssessmentSession.PressNext | src/pages/TakeAssessment.tsx:241-251 | a press with no selection changes nothing; otherwise it runs the next handler; completion implies every question has a truthy answer |
| TakeAssessment.AssessmentSession.PressPrevious | src/pages/TakeAssessment.tsx:247 | a press on Previous steps back exactly when the index is above 0 |
| MultiQuestionDisplay.KeyValue | src/components/assessment/MultiQuestionDisplay.tsx:28 | the value of an answer key is the digit pressed, in 1..5 |
| MultiQuestionDisplay.FirstUnansweredFrom | src/components/assessment/MultiQuestionDisplay.tsx:41-46 | the position found is unanswered and all earlier ones are answered; none is found exactly when all are answered |
| MultiQuestionDisplay.FirstUnanswered | src/components/assessment/MultiQuestionDisplay.tsx:41-46 | the first question in list order with no truthy answer, or none when every question is answered |
| MultiQuestionDisplay.KeySelection | src/components/assessment/MultiQuestionDisplay.tsx:27-46 | other keys select nothing; a focused question is answered even if already answered; otherwise the first unanswered question gets the digit, and nothing happens when all are answered |
| MultiQuestionDisplay.HandleKeyDown | src/components/assessment/MultiQuestionDisplay.tsx:24-48 | the handler's loop with its early return and break reports at most one selection, exactly the one the rule decides, with a value in 1..5 |
| MultiQuestionDisplay.Record | src/components/assessment/MultiQuestionDisplay.tsx:13-14 | recording a selection sets that question's entry to the value and leaves every other entry as it was |
| MultiQuestionDisplay.KeyPressKeepsAnswers | src/components/assessment/MultiQuestionDisplay.tsx:35-43 | recording a key press answers the chosen question and never un-answers another |
| MultiQuestionDisplay.UnfocusedPressesAdvance | src/components/assessment/MultiQuestionDisplay.tsx:41-46 | without focus, after a press the first unanswered question lies strictly further down the list, or none is left |
| MultiQuestionDisplay.OptionLabel | src/components/assessment/MultiQuestionDisplay.tsx:88-92 | exactly the values 1..5 carry a label |
| MultiQuestionDisplay.ClickSelection | src/components/assessment/MultiQuestionDisplay.tsx:76 | a click reports that question with a value in 1..5 |
| MultiQuestionDisplay.ClickHighlights | src/components/assessment/MultiQuestionDisplay.tsx:70-76 | once a click is recorded, exactly the clicked option is highlighted for its question |
| MultiQuestionDisplay.ValueChangeReadsOptionBack | src/components/assessment/MultiQuestionDisplay.tsx:67 | `parseInt` of an option's `toString()` gives the option's value back |
| MultiQuestionDisplay.OptionValuesOccurOnce | src/components/assessment/MultiQuestionDisplay.tsx:70 | each of the offered values 1..5 occurs once |
| MultiQuestionDisplay.HighlightedAmong | src/components/assessment/MultiQuestionDisplay.tsx:73-75 | the highlighted options are the ones equal to the current answer, one per occurrence |
| MultiQuestionDisplay.HighlightedOptions | src/components/assessment/MultiQuestionDisplay.tsx:70-75 | at most one option of a question is highlighted, and only one equal to the current answer |
| MultiQuestionDisplay.HighlightFollowsAnswer | src/components/assessment/MultiQuestionDisplay.tsx:74 | the highlighted options are exactly the current answer when it is in 1..5, and none otherwise |
| MultiQuestionDisplay.RadioGroupValue | src/components/assessment/MultiQuestionDisplay.tsx:66 | the radio group has no value exactly when the question has no entry; an answer in 1..5 shows as text that reads back as that answer |
| Candidates.StatusName | src/components/CandidateCard.tsx:34 | no status is written "All" |
| Candidates.StatusNameInjective | src/pages/Candidates.tsx:121 | comparing status strings compares the statuses |
| Candidates.EmptyCriteriaKeepEveryone | src/pages/Candidates.tsx:110-124 | an empty query and the "All" status pass everyone |
| Candidates.StatusFilterKeepsStatus | src/pages/Candidates.tsx:118-124 | filtering by a status's name keeps exactly the candidates with that status |
| Candidates.SearchIgnoresQueryCase | src/pages/Candidates.tsx:113-114 | lower-casing the query first does not change which candidates the search keeps |
| Candidates.CompareByKey | src/pages/Candidates.tsx:125-136 | by match percentage the higher sorts first; by name or date a tie means equal strings; any other key ties everyone |
| Candidates.Filter | src/pages/Candidates.tsx:109-124 | each candidate that passes is kept as often as it occurs and the others are dropped; nothing is added |
| Candidates.FilterDropsNothing | src/pages/Candidates.tsx:109-124 | the filtered list is as long as the input exactly when every candidate passes |
| Candidates.FilterDropsOne | src/pages/Candidates.tsx:109-124 | a candidate that fails makes the filtered list shorter than the input |
| Candidates.FilterIsSubsequence | src/pages/Candidates.tsx:109-124 | filtering keeps the relative order of the kept candidates |
| Candidates.FilterKeepingAll | src/pages/Candidates.tsx:112-123 | when everyone passes (empty query, "All" statuses) the list is unchanged |
| Candidates.CompareAntisymmetric | src/pages/Candidates.tsx:125-136 | swapping the two candidates negates the comparator for every key |
| Candidates.CompareTransitive | src/pages/Candidates.tsx:125-136 | the comparator's "no later than" is transitive for every key |
| Candidates.Insert | src/pages/Candidates.tsx:125-136 | insertion adds exactly the one candidate |
| Candidates.SortCandidates | src/pages/Candidates.tsx:125-136 | the sort returns a permutation of its input |
| Candidates.InsertKeepsSorted | src/pages/Candidates.tsx:125-136 | inserting into an ordered list keeps it ordered |
| Candidates.SortCandidatesSorted | src/pages/Candidates.tsx:125-136 | the sort's result is ordered by the comparator |
| Candidates.SortByUnknownKeyKeepsOrder | src/pages/Candidates.tsx:135 | with a key the comparator does not know, the stable sort keeps the given order |
| Candidates.SortCandidatesOrder | src/pages/Candidates.tsx:125-136 | 'matchPercentage' gives non-increasing match percentages, 'name' and 'date' ascending strings, any other key the input order |
| Candidates.FilteredCandidates | src/pages/Candidates.tsx:109-136 | the list shown is sorted by the chosen key and takes no candidate more often than the input has it |
| Candidates.FilteredCandidatesSelection | src/pages/Candidates.tsx:109-136 | the list shown is a reordering of exactly the candidates passing both filters, none invented or duplicated; with empty query, "All" and an unknown key it is the input |
| Candidates.TabFilter | src/pages/Candidates.tsx:276-307 | exactly the tabs "assessment", "interview" and "offer" narrow by status |
| Candidates.TabContents | src/pages/Candidates.tsx:268-307 | the "all" tab shows the filtered list; every card of another tab is a filtered candidate with that tab's status |
| Candidates.TabContentsSelection | src/pages/Candidates.tsx:276-307 | each tab lists exactly the filtered candidates with its status, in the filtered order |
| Candidates.CompletedAssessments | src/pages/Candidates.tsx:183-185 | the completion count never exceeds the total, and equals it exactly when every candidate has a score |
| Candidates.SumMatchBounds | src/pages/Candidates.tsx:200 | the sum of n match percentages lies between n times a lower and n times an upper bound of them |
| Candidates.AverageMatchScore | src/pages/Candidates.tsx:200 | there is no average exactly for an empty list; otherwise it lies between the smallest and the largest match percentage |
| Candidates.SampleAverage | src/pages/Candidates.tsx:17-107 | the page's six candidates average a match of 87% |
| Candidates.DateSortIsTextual | src/pages/Candidates.tsx:131-133 | the date key compares dates as text, so "May 8, 2023" sorts after "May 15, 2023" |

## Left out

- Floating point: `Math.round` of a double quotient is modelled as exact rational rounding with halves rounded up (`RoundDiv`); double rounding error is not modelled.
- Text.Lower: lower-cases ASCII letters only; the locale-aware `toLowerCase` of other scripts is not modelled.
- Text.StrCmp: `localeCompare` is modelled as character-code order, a total order; locale collation rules are not modelled.
- Candidates.SortCandidatesOrder: for the three known keys it states the order, not the relative order of tied candidates (stability), which is proved only for an unknown key.
- TakeAssessment.QuestionsFor: a lookup of an inherited JavaScript object key (such as "constructor") is not modelled; only the bank's own keys are.
- TakeAssessment.AssessmentSession.SelectAnswer: requires the answer id to be one of the current question's options, which is all the radio group can report.
- TakeAssessment.AssessmentSession.HandleNextQuestion: requires a selected answer, which holds whenever the forward button that calls it is enabled (PressNext models the press itself).
- Routing and navigation: `useParams`, `useLocation`, `navigate`, the completion screen and the not-found screen's button are not modelled; the assessment id and the answer map are inputs.
- MultiQuestionDisplay.Record: the parent that receives `onAnswerSelected` is not among these files; the model assumes it overwrites that question's entry of `currentAnswers`, and KeyPressKeepsAnswers, UnfocusedPressesAdvance and ClickHighlights rely on that.
- DOM and listeners: `document.activeElement` is an optional focused question id; registering and removing the window keydown listener is not modelled, and `onAnswerSelected` is the returned selection.
- React rendering and state batching: each handler is an atomic update of the session object.
- Results page presentation: the recharts chart, `CustomBarLabel`, `chartData`, `rawScores` shown beside the chart and the `scoreText` strings are not part of this model.
- Static figures on the candidate page ("+3 this week", "83% completion rate", time to hire) are fixed text and are not modelled.
- Candidate fields the core does not read (`currentRole`, `recommendedLevel`, `resumeUrl`, `contacts`) are not part of the candidate record here.
- src/components/CandidateCard.tsx, src/components/Header.tsx, src/components/ui/custom-badge.tsx and src/components/assessment/AssessmentProgress.tsx are rendering only and are not part of this model; nor are the presentational pages (Index, Dashboard, Assessment, HeroSection, FeatureSection).
- Question bank text: the unescaped apostrophe in src/pages/TakeAssessment.tsx:19 is read as the intended text "team's".
- The completion count on the sample list (5 of 6) is not restated as a lemma; the general count and its bound are.
