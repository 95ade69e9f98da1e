/** The OCEAN results page (src/pages/AssessmentResults.tsx): Likert answers are
    summed over fixed blocks of question ids, turned into percentages of the
    block's maximum, mapped onto each trait's own scale, labelled, and added up
    into trait-pair combination scores and one global score. */
module AssessmentResults {
  import opened Optional
  import opened Numbers
  import opened Text

  /** One row of the `traitDescriptions` table. */
  datatype TraitDescription = TraitDescription(
    traitName: string,
    high: string,
    low: string,
    color: string,
    maxScore: int,
    scaledMax: int,
    minScaledScore: int,
    maxScaledScore: int)

  const OpennessInfo := TraitDescription(
    "Openness",
    "High openness indicates creativity, curiosity, and preference for variety and intellectual stimulation.",
    "Low openness suggests preference for routine, traditional values, and practicality.",
    "#4299E1", 50, 100, 76, 100)

  const ConscientiousnessInfo := TraitDescription(
    "Conscientiousness",
    "High conscientiousness indicates organization, reliability, self-discipline, and goal-oriented behavior.",
    "Low conscientiousness suggests spontaneity, flexibility, and a more relaxed attitude toward goals and standards.",
    "#48BB78", 50, 75, 51, 75)

  const ExtraversionInfo := TraitDescription(
    "Extraversion",
    "High extraversion indicates sociability, assertiveness, and a preference for social interaction.",
    "Low extraversion (introversion) suggests preference for solitude, quieter environments, and deeper one-on-one relationships.",
    "#ED8936", 50, 100, 76, 100)

  const AgreeablenessInfo := TraitDescription(
    "Agreeableness",
    "High agreeableness indicates compassion, cooperation, and interest in maintaining harmony with others.",
    "Low agreeableness suggests a focus on self-interest, skepticism about others' motives, and competitiveness.",
    "#9F7AEA", 50, 100, 76, 100)

  const NeuroticismInfo := TraitDescription(
    "Neuroticism",
    "High neuroticism indicates tendency toward negative emotions, sensitivity to stress, and emotional reactivity.",
    "Low neuroticism (emotional stability) suggests calmness, resilience to stress, and emotional balance.",
    "#F56565", 50, 75, 51, 75)

  /** The `traitDescriptions` table, in its order. */
  const TraitDescriptions: seq<TraitDescription> :=
    [OpennessInfo, ConscientiousnessInfo, ExtraversionInfo, AgreeablenessInfo, NeuroticismInfo]

  /** One row of the `traitCombinations` table. */
  datatype TraitCombination = TraitCombination(
    traits: seq<string>,
    minScaledScore: int,
    maxScaledScore: int,
    description: string)

  const TraitCombinations: seq<TraitCombination> := [
    TraitCombination(["Openness", "Extraversion"], 150, 200,
      "Combining high Openness and Extraversion indicates a dynamic personality that thrives on both social interaction and intellectual exploration. You likely enjoy sharing new ideas and experiences with others."),
    TraitCombination(["Conscientiousness", "Neuroticism"], 100, 150,
      "This combination of Conscientiousness and Neuroticism suggests you are detail-oriented and may experience emotional intensity when striving for perfection or when plans don't go as expected."),
    TraitCombination(["Agreeableness", "Conscientiousness"], 150, 200,
      "High scores in both Agreeableness and Conscientiousness indicate you likely excel in team environments, combining reliability with a cooperative nature that makes you valuable in collaborative settings.")
  ]

  datatype GlobalAnalysis = GlobalAnalysis(minScaledScore: int, maxScaledScore: int, description: string)

  const GlobalAnalysisRange := GlobalAnalysis(400, 500,
    "Your overall personality profile shows pronounced traits across multiple dimensions, creating a unique and influential personality that shapes how you navigate life, make decisions, and interact with others.")

  /** The five percentage scores, keyed by trait. */
  datatype OceanScores = OceanScores(
    openness: int,
    conscientiousness: int,
    extraversion: int,
    agreeableness: int,
    neuroticism: int)

  // ---------------------------------------------------------------------------
  // Raw and percentage trait scores

  /** The answer id `ocean-<i>`. */
  function OceanId(i: int): string {
    "ocean-" + IntToString(i)
  }

  /** Distinct question numbers give distinct answer ids. */
  lemma OceanIdInjective(i: int, j: int)
    ensures OceanId(i) == OceanId(j) ==> i == j
  {
    if OceanId(i) == OceanId(j) {
      assert IntToString(i) == OceanId(i)[6..] == OceanId(j)[6..] == IntToString(j);
      IntToStringInjective(i, j);
    }
  }

  /** What question i contributes to a sum: its answer, or 0 when it has none. */
  function AnswerAt(answers: map<string, int>, i: int): int {
    var id := OceanId(i);
    if id in answers then answers[id] else 0
  }

  /** The sum of the answers present for ids `ocean-startId` .. `ocean-endId`. */
  function RawTraitSum(answers: map<string, int>, startId: int, endId: int): int
    decreases endId - startId
  {
    if endId < startId then 0 else RawTraitSum(answers, startId, endId - 1) + AnswerAt(answers, endId)
  }

  /** Every recorded answer is a Likert value 1..5. */
  predicate LikertAnswers(answers: map<string, int>) {
    forall id :: id in answers ==> 1 <= answers[id] <= 5
  }

  /** `calculateRawTraitScore`: the loop over the id block, keeping a sum and a
      count of the answers found. */
  method CalculateRawTraitScore(answers: map<string, int>, startId: int, endId: int) returns (score: int)
    ensures score == RawTraitSum(answers, startId, endId)
  {
    var sum := 0;
    var count := 0;
    var i := startId;
    while i <= endId
      invariant startId <= i && (i <= endId + 1 || i == startId)
      invariant sum == RawTraitSum(answers, startId, i - 1)
      invariant count >= 0 && (count == 0 ==> sum == 0)
      decreases endId - i
    {
      var questionId := OceanId(i);
      if questionId in answers {
        sum := sum + answers[questionId];
        count := count + 1;
      }
      i := i + 1;
    }
    score := if count > 0 then sum else 0;
  }

  /** With Likert answers the raw sum lies in [0, 5 * (number of ids)]. */
  lemma {:induction false} RawTraitSumBounds(answers: map<string, int>, startId: int, endId: int)
    requires LikertAnswers(answers) && startId <= endId + 1
    ensures 0 <= RawTraitSum(answers, startId, endId) <= 5 * (endId - startId + 1)
    decreases endId - startId
  {
    if startId <= endId {
      RawTraitSumBounds(answers, startId, endId - 1);
    }
  }

  /** The raw sum reads only the answers of its own block. */
  lemma {:induction false} RawTraitSumFrame(answers: map<string, int>, other: map<string, int>, startId: int, endId: int)
    requires forall i :: startId <= i <= endId ==> AnswerAt(answers, i) == AnswerAt(other, i)
    ensures RawTraitSum(answers, startId, endId) == RawTraitSum(other, startId, endId)
    decreases endId - startId
  {
    if startId <= endId {
      RawTraitSumFrame(answers, other, startId, endId - 1);
    }
  }

  /** When every id of the block is answered with the same value v, the raw sum
      is v times the number of ids. */
  lemma {:induction false} RawTraitSumUniform(answers: map<string, int>, startId: int, endId: int, v: int)
    requires startId <= endId + 1
    requires forall i :: startId <= i <= endId ==> OceanId(i) in answers && answers[OceanId(i)] == v
    ensures RawTraitSum(answers, startId, endId) == v * (endId - startId + 1)
    decreases endId - startId
  {
    if startId <= endId {
      RawTraitSumUniform(answers, startId, endId - 1, v);
      assert v * (endId - 1 - startId + 1) + v == v * (endId - startId + 1);
    }
  }

  /** A block none of whose ids is answered sums to 0. */
  lemma {:induction false} RawTraitSumUnanswered(answers: map<string, int>, startId: int, endId: int)
    requires forall i :: startId <= i <= endId ==> OceanId(i) !in answers
    ensures RawTraitSum(answers, startId, endId) == 0
    decreases endId - startId
  {
    if startId <= endId {
      RawTraitSumUnanswered(answers, startId, endId - 1);
    }
  }

  /** `calculateTraitScore`: the raw sum as a rounded percentage of the fixed
      maximum 5 * (number of ids), not of the number answered. */
  function CalculateTraitScore(answers: map<string, int>, startId: int, endId: int): (r: int)
    ensures LikertAnswers(answers) ==> 0 <= r <= 100
    ensures endId < startId ==> r == 0
  {
    var maxPossibleScore := (endId - startId + 1) * 5;
    if maxPossibleScore > 0 then
      var raw := RawTraitSum(answers, startId, endId);
      assert LikertAnswers(answers) ==> 0 <= raw * 100 <= maxPossibleScore * 100 by {
        if LikertAnswers(answers) {
          RawTraitSumBounds(answers, startId, endId);
        }
      }
      assert LikertAnswers(answers) ==> 0 <= RoundDiv(raw * 100, maxPossibleScore) <= 100 by {
        if LikertAnswers(answers) {
          RoundDivAtLeast(raw * 100, maxPossibleScore, 0);
          RoundDivAtMost(raw * 100, maxPossibleScore, 100);
        }
      }
      RoundDiv(raw * 100, maxPossibleScore)
    else 0
  }

  /** For a block of ten ids the percentage is exactly twice the raw sum. */
  lemma TraitScoreOfTenIds(answers: map<string, int>, startId: int)
    ensures CalculateTraitScore(answers, startId, startId + 9) == 2 * RawTraitSum(answers, startId, startId + 9)
  {
    var raw := RawTraitSum(answers, startId, startId + 9);
    RoundDivExact(raw * 100, 50, 2 * raw);
  }

  /** A block answered throughout with v scores 20 * v: all "Strongly Agree"
      gives 100, all "Strongly Disagree" gives 20. */
  lemma TraitScoreUniform(answers: map<string, int>, startId: int, endId: int, v: int)
    requires startId <= endId
    requires forall i :: startId <= i <= endId ==> OceanId(i) in answers && answers[OceanId(i)] == v
    ensures CalculateTraitScore(answers, startId, endId) == 20 * v
  {
    var n := endId - startId + 1;
    var raw := RawTraitSum(answers, startId, endId);
    RawTraitSumUniform(answers, startId, endId, v);
    var a, b := raw * 100, n * 5;
    PercentOfUniformBlock(n, v, raw);
    RoundDivExact(a, b, 20 * v);
  }

  /** v * n points out of a maximum of 5 * n make 20 * v percent. */
  lemma PercentOfUniformBlock(n: int, v: int, raw: int)
    requires raw == v * n
    ensures raw * 100 == (n * 5) * (20 * v)
  {
    assert raw * 100 == v * n * 100;
  }

  /** A block with no answers scores 0. */
  lemma TraitScoreUnanswered(answers: map<string, int>, startId: int, endId: int)
    requires forall i :: startId <= i <= endId ==> OceanId(i) !in answers
    ensures CalculateTraitScore(answers, startId, endId) == 0
  {
    RawTraitSumUnanswered(answers, startId, endId);
    var maxPossibleScore := (endId - startId + 1) * 5;
    if maxPossibleScore > 0 {
      assert RawTraitSum(answers, startId, endId) * 100 == maxPossibleScore * 0;
      RoundDivExact(RawTraitSum(answers, startId, endId) * 100, maxPossibleScore, 0);
    }
  }

  /** `calculateScores`: only the 'ocean-trait' assessment is scored; its traits
      read the blocks 1-10, 11-20, 21-30, 31-40 and 41-50. */
  function CalculateScores(assessmentId: Option<string>, answers: map<string, int>): (scores: OceanScores)
    ensures assessmentId != Some("ocean-trait") ==> scores == OceanScores(0, 0, 0, 0, 0)
    ensures LikertAnswers(answers) ==> Percentages(scores)
  {
    if assessmentId != Some("ocean-trait") then OceanScores(0, 0, 0, 0, 0)
    else OceanScores(
      CalculateTraitScore(answers, 1, 10),
      CalculateTraitScore(answers, 11, 20),
      CalculateTraitScore(answers, 21, 30),
      CalculateTraitScore(answers, 31, 40),
      CalculateTraitScore(answers, 41, 50))
  }

  /** Each of the five scores is a percentage. */
  predicate Percentages(s: OceanScores) {
    && 0 <= s.openness <= 100 && 0 <= s.conscientiousness <= 100 && 0 <= s.extraversion <= 100
    && 0 <= s.agreeableness <= 100 && 0 <= s.neuroticism <= 100
  }

  /** Changing the answer for `ocean-j` leaves a block that does not hold j
      untouched. */
  lemma TraitScoreIgnoresOtherIds(answers: map<string, int>, startId: int, endId: int, j: int, v: int)
    requires j < startId || endId < j
    ensures CalculateTraitScore(answers[OceanId(j) := v], startId, endId) == CalculateTraitScore(answers, startId, endId)
  {
    forall i | startId <= i <= endId
      ensures AnswerAt(answers[OceanId(j) := v], i) == AnswerAt(answers, i)
    {
      OceanIdInjective(i, j);
    }
    RawTraitSumFrame(answers[OceanId(j) := v], answers, startId, endId);
  }

  /** The five traits read disjoint blocks: answering `ocean-j` can change only
      the trait whose block holds j. */
  lemma ScoresReadDisjointBlocks(answers: map<string, int>, j: int, v: int)
    ensures var before := CalculateScores(Some("ocean-trait"), answers);
      var after := CalculateScores(Some("ocean-trait"), answers[OceanId(j) := v]);
      && (!(1 <= j <= 10) ==> after.openness == before.openness)
      && (!(11 <= j <= 20) ==> after.conscientiousness == before.conscientiousness)
      && (!(21 <= j <= 30) ==> after.extraversion == before.extraversion)
      && (!(31 <= j <= 40) ==> after.agreeableness == before.agreeableness)
      && (!(41 <= j <= 50) ==> after.neuroticism == before.neuroticism)
  {
    if !(1 <= j <= 10) { TraitScoreIgnoresOtherIds(answers, 1, 10, j, v); }
    if !(11 <= j <= 20) { TraitScoreIgnoresOtherIds(answers, 11, 20, j, v); }
    if !(21 <= j <= 30) { TraitScoreIgnoresOtherIds(answers, 21, 30, j, v); }
    if !(31 <= j <= 40) { TraitScoreIgnoresOtherIds(answers, 31, 40, j, v); }
    if !(41 <= j <= 50) { TraitScoreIgnoresOtherIds(answers, 41, 50, j, v); }
  }

  // ---------------------------------------------------------------------------
  // Scaled scores, categories, descriptions and range bands

  /** `calculateScaledScore`: the percentage mapped piecewise onto the trait's
      own scale (Math.round of each rational expression, exactly). */
  function CalculateScaledScore(percentageScore: int, traitInfo: TraitDescription): (scaled: int)
    ensures 75 <= percentageScore && traitInfo.minScaledScore <= traitInfo.maxScaledScore ==>
      traitInfo.minScaledScore <= scaled
    ensures percentageScore < 50 ==> scaled == percentageScore
  {
    var range := traitInfo.maxScaledScore - traitInfo.minScaledScore;
    var minScore := traitInfo.minScaledScore;
    if percentageScore >= 75 then
      var a := 25 * minScore + range * (percentageScore - 75);
      assert range >= 0 ==> minScore <= RoundDiv(a, 25) by {
        if range >= 0 {
          MulMonotone(range, 0, percentageScore - 75);
          RoundDivAtLeast(a, 25, minScore);
        }
      }
      RoundDiv(a, 25)
    else if percentageScore >= 50 then
      if minScore == 76 then
        RoundDiv(25 * 51 + (75 - 51) * (percentageScore - 50), 25)
      else
        var mediumRange := minScore - 26;
        RoundDiv(25 * 26 + mediumRange * (percentageScore - 50), 25)
    else
      percentageScore
  }

  /** Percentages 75..100 land on the trait's own scale [min, max], with 75 on
      its minimum and 100 on its maximum. */
  lemma ScaledScoreHighBand(p: int, info: TraitDescription)
    requires 75 <= p <= 100 && info.minScaledScore <= info.maxScaledScore
    ensures info.minScaledScore <= CalculateScaledScore(p, info) <= info.maxScaledScore
    ensures p == 75 ==> CalculateScaledScore(p, info) == info.minScaledScore
    ensures p == 100 ==> CalculateScaledScore(p, info) == info.maxScaledScore
  {
    var lo, hi := info.minScaledScore, info.maxScaledScore;
    var range := hi - lo;
    MulMonotone(range, 0, p - 75);
    MulMonotone(range, p - 75, 25);
    var a := 25 * lo + range * (p - 75);
    RoundDivAtLeast(a, 25, lo);
    RoundDivAtMost(a, 25, hi);
  }

  /** Percentages 50..74: a 76-100 trait lands in [51, 75]; a 51-75 trait lands
      exactly on p - 24, inside [26, 50]. */
  lemma ScaledScoreMediumBand(p: int, info: TraitDescription)
    requires 50 <= p < 75
    ensures info.minScaledScore == 76 ==> 51 <= CalculateScaledScore(p, info) <= 75
    ensures info.minScaledScore == 51 ==> CalculateScaledScore(p, info) == p - 24
    ensures info.minScaledScore == 51 ==> 26 <= CalculateScaledScore(p, info) <= 50
  {
    if info.minScaledScore == 76 {
      RoundDivAtLeast(25 * 51 + 24 * (p - 50), 25, 51);
      RoundDivAtMost(25 * 51 + 24 * (p - 50), 25, 75);
    } else if info.minScaledScore == 51 {
      RoundDivExact(25 * 26 + 25 * (p - 50), 25, p - 24);
    }
  }

  /** The scaled score is not monotone in the percentage: a 51-75 trait at 49%
      shows 49, at 50% it shows 26. */
  lemma ScaledScoreDropsAtFifty()
    ensures CalculateScaledScore(49, ConscientiousnessInfo) == 49
    ensures CalculateScaledScore(50, ConscientiousnessInfo) == 26
  {
    RoundDivExact(25 * 26, 25, 26);
  }

  /** On a shipped trait a percentage in [0, 100] scales into [0, max]. */
  lemma ScaledScoreRange(p: int, info: TraitDescription)
    requires info in TraitDescriptions && 0 <= p <= 100
    ensures 0 <= CalculateScaledScore(p, info) <= info.maxScaledScore
  {
    if p >= 75 {
      ScaledScoreHighBand(p, info);
    } else if p >= 50 {
      ScaledScoreMediumBand(p, info);
    }
  }

  /** `getScoreCategory`: 'high' exactly when the scaled score reaches the
      trait's minimum; 'moderate' only on a scale starting neither at 51 nor
      at 76. */
  function GetScoreCategory(score: int, traitInfo: TraitDescription): (category: string)
    ensures category == "high" <==> CalculateScaledScore(score, traitInfo) >= traitInfo.minScaledScore
    ensures category == "moderate" ==> traitInfo.minScaledScore != 51 && traitInfo.minScaledScore != 76
  {
    var scaledScore := CalculateScaledScore(score, traitInfo);
    if scaledScore >= traitInfo.minScaledScore then "high"
    else if traitInfo.minScaledScore == 51 && scaledScore < 51 then "low"
    else if traitInfo.minScaledScore == 76 && scaledScore < 76 then "low"
    else "moderate"
  }

  /** On every shipped trait the category is 'high' exactly when the scaled score
      reaches the trait's minimum, which happens exactly for percentages of 75
      and above, and 'low' otherwise: 'moderate' is never returned. */
  lemma CategoryOfShippedTrait(p: int, info: TraitDescription)
    requires info in TraitDescriptions
    ensures GetScoreCategory(p, info) == (if CalculateScaledScore(p, info) >= info.minScaledScore then "high" else "low")
    ensures GetScoreCategory(p, info) == (if p >= 75 then "high" else "low")
  {
    if 50 <= p < 75 {
      ScaledScoreMediumBand(p, info);
    }
  }

  /** `traitDescriptions.find(t => t.traitName === name)`. */
  function FindTrait(name: string): (r: Option<TraitDescription>)
    ensures r.Some? ==> r.value in TraitDescriptions && r.value.traitName == name
    ensures r.None? <==> forall k :: 0 <= k < |TraitDescriptions| ==> TraitDescriptions[k].traitName != name
  {
    FindIn(TraitDescriptions, name)
  }

  /** The first row of `table` with the name, if any. */
  function FindIn(table: seq<TraitDescription>, name: string): (r: Option<TraitDescription>)
    ensures r.Some? ==> r.value in table && r.value.traitName == name
    ensures r.Some? ==>
      exists k :: 0 <= k < |table| && table[k] == r.value && forall j :: 0 <= j < k ==> table[j].traitName != name
    ensures r.None? <==> forall k :: 0 <= k < |table| ==> table[k].traitName != name
  {
    if |table| == 0 then None
    else if table[0].traitName == name then Some(table[0])
    else FindIn(table[1..], name)
  }

  /** `getTraitDescription`. */
  function GetTraitDescription(traitName: string, score: int): (description: string)
    ensures FindTrait(traitName).None? ==> description == ""
    ensures FindTrait(traitName).Some? ==>
      var info := FindTrait(traitName).value;
      || description == info.high
      || description == info.low
      || (|description| >= 29 && description[..29] == "You have a balanced level of ")
  {
    match FindTrait(traitName)
    case None => ""
    case Some(traitInfo) =>
      var category := GetScoreCategory(score, traitInfo);
      var balanced := "You have a balanced level of " + Lower(traitName) + ". "
        + ReplaceFirst(traitInfo.high, "High", "Higher") + " "
        + ReplaceFirst(traitInfo.low, "Low", "Lower");
      if category == "high" then traitInfo.high
      else if category == "low" then traitInfo.low
      else balanced
  }

  /** An unknown trait name has no description; a shipped trait shows its
      'high' text from 75% on and its 'low' text below, never the balanced one. */
  lemma TraitDescriptionOfShippedTrait(name: string, score: int)
    ensures FindTrait(name).None? ==> GetTraitDescription(name, score) == ""
    ensures FindTrait(name).Some? ==>
      GetTraitDescription(name, score) == (if score >= 75 then FindTrait(name).value.high else FindTrait(name).value.low)
  {
    if FindTrait(name).Some? {
      CategoryOfShippedTrait(score, FindTrait(name).value);
    }
  }

  /** `getScoreRangeBand`. */
  function GetScoreRangeBand(score: int, traitInfo: TraitDescription): (band: string)
    ensures |band| > 6 && band[..6] == "Score "
    ensures traitInfo.minScaledScore != 76 && traitInfo.minScaledScore != 51 ==>
      band == "Score " + IntToString(CalculateScaledScore(score, traitInfo))
  {
    var scaledScore := CalculateScaledScore(score, traitInfo);
    if traitInfo.minScaledScore == 76 then
      if scaledScore >= 76 then "Score " + IntToString(traitInfo.minScaledScore) + "-" + IntToString(traitInfo.maxScaledScore)
      else if scaledScore >= 51 then "Score 51-75"
      else if scaledScore >= 26 then "Score 26-50"
      else "Score 0-25"
    else if traitInfo.minScaledScore == 51 then
      if scaledScore >= 51 then "Score " + IntToString(traitInfo.minScaledScore) + "-" + IntToString(traitInfo.maxScaledScore)
      else if scaledScore >= 26 then "Score 26-50"
      else "Score 0-25"
    else
      "Score " + IntToString(scaledScore)
  }

  /** The band of a 76-100 trait, read off the percentage: 75 and above,
      50-74, 26-49, below 26. */
  lemma RangeBandOfHighScaleTrait(p: int, info: TraitDescription)
    requires info in TraitDescriptions && info.minScaledScore == 76
    ensures GetScoreRangeBand(p, info) ==
      if p >= 75 then "Score 76-100"
      else if p >= 50 then "Score 51-75"
      else if p >= 26 then "Score 26-50"
      else "Score 0-25"
  {
    assert info.maxScaledScore == 100;
    assert IntToString(76) == "76" && IntToString(100) == "100";
    if 50 <= p < 75 {
      ScaledScoreMediumBand(p, info);
    }
  }

  /** The band of a 51-75 trait, read off the percentage: 75 and above, 26-74,
      below 26. */
  lemma RangeBandOfMidScaleTrait(p: int, info: TraitDescription)
    requires info in TraitDescriptions && info.minScaledScore == 51
    ensures GetScoreRangeBand(p, info) ==
      if p >= 75 then "Score 51-75"
      else if p >= 26 then "Score 26-50"
      else "Score 0-25"
  {
    assert info.maxScaledScore == 75;
    assert IntToString(51) == "51" && IntToString(75) == "75";
    if 50 <= p < 75 {
      ScaledScoreMediumBand(p, info);
    }
  }

  // ---------------------------------------------------------------------------
  // Combination and global scores

  predicate IsTraitName(name: string) {
    name == "Openness" || name == "Conscientiousness" || name == "Extraversion"
    || name == "Agreeableness" || name == "Neuroticism"
  }

  /** `scores[trait as keyof OceanScores]`. */
  function ScoreFor(scores: OceanScores, name: string): int
    requires IsTraitName(name)
  {
    if name == "Openness" then scores.openness
    else if name == "Conscientiousness" then scores.conscientiousness
    else if name == "Extraversion" then scores.extraversion
    else if name == "Agreeableness" then scores.agreeableness
    else scores.neuroticism
  }

  /** What one listed trait adds to a combination: its scaled score, or nothing
      when the name is not in the table. */
  function Contribution(name: string, scores: OceanScores): int {
    match FindTrait(name)
    case None => 0
    case Some(traitInfo) => CalculateScaledScore(ScoreFor(scores, name), traitInfo)
  }

  /** The sum the combination loop has built after the listed traits. */
  function CombinationSum(traits: seq<string>, scores: OceanScores): int {
    if |traits| == 0 then 0
    else CombinationSum(traits[..|traits| - 1], scores) + Contribution(traits[|traits| - 1], scores)
  }

  /** `calculateCombinationScore`. */
  method CalculateCombinationScore(traits: seq<string>, scores: OceanScores) returns (sum: int)
    ensures sum == CombinationSum(traits, scores)
  {
    sum := 0;
    for i := 0 to |traits|
      invariant sum == CombinationSum(traits[..i], scores)
    {
      var name := traits[i];
      var traitInfo := FindTrait(name);
      if traitInfo.Some? {
        var percentageScore := ScoreFor(scores, name);
        var scaledScore := CalculateScaledScore(percentageScore, traitInfo.value);
        sum := sum + scaledScore;
      }
      assert traits[..i + 1][..i] == traits[..i];
    }
    assert traits[..|traits|] == traits;
  }

  /** The scaled score of the k-th row of the table. */
  function ScaledTraitScore(scores: OceanScores, k: nat): int
    requires k < |TraitDescriptions|
  {
    CalculateScaledScore(ScoreFor(scores, TraitDescriptions[k].traitName), TraitDescriptions[k])
  }

  /** A combination of two known traits scores the sum of their scaled scores;
      unknown names add nothing. */
  lemma PairCombination(a: string, b: string, scores: OceanScores)
    ensures CombinationSum([a, b], scores) == Contribution(a, scores) + Contribution(b, scores)
    ensures FindTrait(a).None? && FindTrait(b).None? ==> CombinationSum([a, b], scores) == 0
  {
    assert [a, b][..1] == [a];
    assert [a][..0] == [];
    assert CombinationSum([a], scores) == Contribution(a, scores);
    assert CombinationSum([a, b], scores) == CombinationSum([a], scores) + Contribution(b, scores);
  }

  /** Looking up a shipped trait's name finds its own row. */
  lemma FindShippedTrait(k: nat)
    requires k < |TraitDescriptions|
    ensures FindTrait(TraitDescriptions[k].traitName) == Some(TraitDescriptions[k])
  {
    var table := TraitDescriptions;
    assert table[1..][1..][1..][1..] == [NeuroticismInfo];
    assert table[1..][1..][1..] == [AgreeablenessInfo, NeuroticismInfo];
    assert table[1..][1..] == [ExtraversionInfo, AgreeablenessInfo, NeuroticismInfo];
    assert table[1..] == [ConscientiousnessInfo, ExtraversionInfo, AgreeablenessInfo, NeuroticismInfo];
  }

  /** A shipped trait contributes its scaled score to a combination. */
  lemma ContributionOfShippedTrait(k: nat, scores: OceanScores)
    requires k < |TraitDescriptions|
    ensures Contribution(TraitDescriptions[k].traitName, scores) == ScaledTraitScore(scores, k)
  {
    FindShippedTrait(k);
  }

  /** The scaled sum over the first n rows of the table. */
  function TableSum(scores: OceanScores, n: nat): int
    requires n <= |TraitDescriptions|
  {
    if n == 0 then 0 else TableSum(scores, n - 1) + ScaledTraitScore(scores, n - 1)
  }

  /** `calculateGlobalScore`: the sum of all five scaled trait scores. */
  method CalculateGlobalScore(scores: OceanScores) returns (sum: int)
    ensures sum == ScaledTraitScore(scores, 0) + ScaledTraitScore(scores, 1) + ScaledTraitScore(scores, 2)
      + ScaledTraitScore(scores, 3) + ScaledTraitScore(scores, 4)
  {
    sum := 0;
    for i := 0 to |TraitDescriptions|
      invariant sum == TableSum(scores, i)
    {
      var traitInfo := TraitDescriptions[i];
      var percentageScore := ScoreFor(scores, traitInfo.traitName);
      var scaledScore := CalculateScaledScore(percentageScore, traitInfo);
      sum := sum + scaledScore;
    }
    GlobalScoreIsSumOfFive(scores);
  }

  /** The global score, as the sum the global loop computes. */
  function GlobalScore(scores: OceanScores): int {
    TableSum(scores, 5)
  }

  lemma GlobalScoreIsSumOfFive(scores: OceanScores)
    ensures GlobalScore(scores) == ScaledTraitScore(scores, 0) + ScaledTraitScore(scores, 1)
      + ScaledTraitScore(scores, 2) + ScaledTraitScore(scores, 3) + ScaledTraitScore(scores, 4)
  {
    assert TableSum(scores, 1) == ScaledTraitScore(scores, 0);
    assert TableSum(scores, 2) == TableSum(scores, 1) + ScaledTraitScore(scores, 1);
    assert TableSum(scores, 3) == TableSum(scores, 2) + ScaledTraitScore(scores, 2);
    assert TableSum(scores, 4) == TableSum(scores, 3) + ScaledTraitScore(scores, 3);
    assert TableSum(scores, 5) == TableSum(scores, 4) + ScaledTraitScore(scores, 4);
  }

  /** On percentages, each shipped trait's scaled score lies in [0, its max]. */
  lemma ScaledTraitScoresInRange(scores: OceanScores)
    requires Percentages(scores)
    ensures 0 <= ScaledTraitScore(scores, 0) <= 100 && 0 <= ScaledTraitScore(scores, 1) <= 75
    ensures 0 <= ScaledTraitScore(scores, 2) <= 100 && 0 <= ScaledTraitScore(scores, 3) <= 100
    ensures 0 <= ScaledTraitScore(scores, 4) <= 75
  {
    ScaledScoreRange(scores.openness, OpennessInfo);
    ScaledScoreRange(scores.conscientiousness, ConscientiousnessInfo);
    ScaledScoreRange(scores.extraversion, ExtraversionInfo);
    ScaledScoreRange(scores.agreeableness, AgreeablenessInfo);
    ScaledScoreRange(scores.neuroticism, NeuroticismInfo);
  }

  /** With percentages in [0, 100] the global score lies in [0, 450]
      (100 + 75 + 100 + 100 + 75): the top of the 400-500 range is unreachable,
      so the global range check holds exactly from 400 on. */
  lemma GlobalScoreBounds(scores: OceanScores)
    requires Percentages(scores)
    ensures 0 <= GlobalScore(scores) <= 450
    ensures InRange(GlobalScore(scores), GlobalAnalysisRange.minScaledScore, GlobalAnalysisRange.maxScaledScore)
      <==> GlobalScore(scores) >= 400
  {
    GlobalScoreIsSumOfFive(scores);
    ScaledTraitScoresInRange(scores);
  }

  /** The `inRange` test: min <= score <= max. */
  function InRange(score: int, min: int, max: int): bool {
    min <= score && score <= max
  }

  datatype CombinationResult = CombinationResult(combination: TraitCombination, score: int, inRange: bool)

  /** `combinationScores`: every row of `traitCombinations` with its score and
      range check. */
  function CombinationScores(scores: OceanScores): (r: seq<CombinationResult>)
    ensures |r| == |TraitCombinations|
  {
    seq(|TraitCombinations|, k requires 0 <= k < |TraitCombinations| =>
      var combo := TraitCombinations[k];
      var combinedScore := CombinationSum(combo.traits, scores);
      CombinationResult(combo, combinedScore, InRange(combinedScore, combo.minScaledScore, combo.maxScaledScore)))
  }

  /** Each shipped combination scores the sum of its two traits' scaled scores. */
  lemma ShippedPairScores(scores: OceanScores)
    ensures var r := CombinationScores(scores);
      && r[0].score == ScaledTraitScore(scores, 0) + ScaledTraitScore(scores, 2)
      && r[1].score == ScaledTraitScore(scores, 1) + ScaledTraitScore(scores, 4)
      && r[2].score == ScaledTraitScore(scores, 3) + ScaledTraitScore(scores, 1)
  {
    var r := CombinationScores(scores);
    ContributionOfShippedTrait(0, scores);
    ContributionOfShippedTrait(1, scores);
    ContributionOfShippedTrait(2, scores);
    ContributionOfShippedTrait(3, scores);
    ContributionOfShippedTrait(4, scores);
    PairCombination("Openness", "Extraversion", scores);
    PairCombination("Conscientiousness", "Neuroticism", scores);
    PairCombination("Agreeableness", "Conscientiousness", scores);
    assert r[0].score == CombinationSum(["Openness", "Extraversion"], scores);
    assert r[1].score == CombinationSum(["Conscientiousness", "Neuroticism"], scores);
    assert r[2].score == CombinationSum(["Agreeableness", "Conscientiousness"], scores);
  }

  /** With percentages in [0, 100] no shipped pair exceeds its range's maximum,
      so each range check holds exactly from the range's minimum on. */
  lemma CombinationRangeChecks(scores: OceanScores)
    requires Percentages(scores)
    ensures var r := CombinationScores(scores);
      && (r[0].inRange <==> r[0].score >= 150)
      && (r[1].inRange <==> r[1].score >= 100)
      && (r[2].inRange <==> r[2].score >= 150)
  {
    ShippedPairScores(scores);
    ScaledTraitScoresInRange(scores);
  }
}
