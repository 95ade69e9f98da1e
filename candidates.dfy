/** The candidate tracking page (src/pages/Candidates.tsx): the candidate list
    is narrowed by a search query and a status filter, then ordered by the
    chosen sort key; the status tabs narrow the result further, and two summary
    cards count completed assessments and average the match percentages. */
module Candidates {
  import opened Optional
  import opened Numbers
  import opened Text

  /** The `status` union of a candidate record. */
  datatype Status = Applied | AssessmentCompleted | InReview | Interview | Offer

  /** The string each status is written as. */
  function StatusName(status: Status): (name: string)
    ensures name != "All"
  {
    match status
    case Applied => "Applied"
    case AssessmentCompleted => "Assessment Completed"
    case InReview => "In Review"
    case Interview => "Interview"
    case Offer => "Offer"
  }

  /** Distinct statuses are written differently, so comparing the strings
      compares the statuses. */
  lemma StatusNameInjective(s: Status, t: Status)
    ensures StatusName(s) == StatusName(t) ==> s == t
  {
  }

  datatype Skill = Skill(name: string, level: int)

  /** The candidate record fields the page reads. */
  datatype Candidate = Candidate(
    id: string,
    name: string,
    role: string,
    matchPercentage: int,
    appliedDate: string,
    status: Status,
    skills: seq<Skill>,
    assessmentScore: Option<int>)

  /** The tests the page's `filter` calls apply, one constructor per call site. */
  datatype Criterion =
    | Search(searchQuery: string)
    | StatusFilter(filterStatus: string)
    | TabStatus(status: Status)
    | HasAssessmentScore

  /** Whether a candidate passes a criterion: an empty query passes everyone,
      otherwise the lower-cased name or role must contain the lower-cased
      query; the status filter "All" passes everyone, otherwise the status must
      be the one chosen; a tab keeps its own status; the completion count keeps
      candidates with a score. */
  predicate Keeps(criterion: Criterion, candidate: Candidate) {
    match criterion
    case Search(searchQuery) =>
      searchQuery == ""
      || Contains(Lower(candidate.name), Lower(searchQuery))
      || Contains(Lower(candidate.role), Lower(searchQuery))
    case StatusFilter(filterStatus) =>
      filterStatus == "All" || StatusName(candidate.status) == filterStatus
    case TabStatus(status) => candidate.status == status
    case HasAssessmentScore => candidate.assessmentScore.Some?
  }

  /** `candidates.filter(...)`: the candidates that pass, in their order; each
      one kept as often as it occurs, the others dropped. */
  function Filter(criterion: Criterion, candidates: seq<Candidate>): (kept: seq<Candidate>)
    ensures forall c :: multiset(kept)[c] == if Keeps(criterion, c) then multiset(candidates)[c] else 0
    ensures |kept| <= |candidates|
  {
    if |candidates| == 0 then []
    else
      var head, tail := candidates[0], candidates[1..];
      var rest := Filter(criterion, tail);
      assert candidates == [head] + tail;
      assert multiset(candidates) == multiset{head} + multiset(tail);
      if Keeps(criterion, head) then
        assert multiset([head] + rest) == multiset{head} + multiset(rest);
        [head] + rest
      else rest
  }

  /** Filtering drops nothing exactly when every candidate passes. */
  lemma FilterDropsNothing(criterion: Criterion, candidates: seq<Candidate>)
    ensures |Filter(criterion, candidates)| == |candidates|
      <==> forall i :: 0 <= i < |candidates| ==> Keeps(criterion, candidates[i])
  {
    if forall i :: 0 <= i < |candidates| ==> Keeps(criterion, candidates[i]) {
      FilterKeepingAll(criterion, candidates);
    } else {
      var i :| 0 <= i < |candidates| && !Keeps(criterion, candidates[i]);
      FilterDropsOne(criterion, candidates, i);
    }
  }

  /** A candidate that fails makes the filtered list shorter. */
  lemma {:induction false} FilterDropsOne(criterion: Criterion, candidates: seq<Candidate>, i: nat)
    requires i < |candidates| && !Keeps(criterion, candidates[i])
    ensures |Filter(criterion, candidates)| < |candidates|
  {
    var rest := Filter(criterion, candidates[1..]);
    if i == 0 {
      assert Filter(criterion, candidates) == rest;
    } else {
      assert candidates[1..][i - 1] == candidates[i];
      FilterDropsOne(criterion, candidates[1..], i - 1);
      if Keeps(criterion, candidates[0]) {
        assert Filter(criterion, candidates) == [candidates[0]] + rest;
      } else {
        assert Filter(criterion, candidates) == rest;
      }
    }
  }

  /** An empty query and the "All" status pass every candidate. */
  lemma EmptyCriteriaKeepEveryone(candidate: Candidate)
    ensures Keeps(Search(""), candidate) && Keeps(StatusFilter("All"), candidate)
  {
  }

  /** Filtering by a status's name keeps exactly the candidates with that status. */
  lemma StatusFilterKeepsStatus(status: Status, candidate: Candidate)
    ensures Keeps(StatusFilter(StatusName(status)), candidate) <==> candidate.status == status
  {
    StatusNameInjective(status, candidate.status);
  }

  /** The search lower-cases the query, so its case does not matter. */
  lemma SearchIgnoresQueryCase(searchQuery: string, candidate: Candidate)
    ensures Keeps(Search(Lower(searchQuery)), candidate) == Keeps(Search(searchQuery), candidate)
  {
    LowerIdempotent(searchQuery);
    assert |Lower(searchQuery)| == |searchQuery|;
  }

  /** `sub` is `s` with some elements left out, the rest in their order. */
  predicate IsSubsequence(sub: seq<Candidate>, s: seq<Candidate>)
    decreases |s|
  {
    if |sub| == 0 then true
    else if |s| == 0 then false
    else if sub[0] == s[0] then IsSubsequence(sub[1..], s[1..])
    else IsSubsequence(sub, s[1..])
  }

  /** Filtering keeps the relative order of the candidates it keeps. */
  lemma {:induction false} FilterIsSubsequence(criterion: Criterion, candidates: seq<Candidate>)
    ensures IsSubsequence(Filter(criterion, candidates), candidates)
  {
    if |candidates| > 0 {
      FilterIsSubsequence(criterion, candidates[1..]);
      var rest := Filter(criterion, candidates[1..]);
      if Keeps(criterion, candidates[0]) {
        assert ([candidates[0]] + rest)[1..] == rest;
      } else {
        SubsequenceOfTail(rest, candidates);
      }
    }
  }

  /** A subsequence of the tail is a subsequence of the whole. */
  lemma {:induction false} SubsequenceOfTail(sub: seq<Candidate>, s: seq<Candidate>)
    requires |s| > 0 && IsSubsequence(sub, s[1..])
    ensures IsSubsequence(sub, s)
    decreases |s|, 0
  {
    if |sub| > 0 && sub[0] == s[0] {
      SubsequenceDropsHead(sub, s[1..]);
    }
  }

  /** Dropping the head of a subsequence keeps it a subsequence. */
  lemma {:induction false} SubsequenceDropsHead(sub: seq<Candidate>, s: seq<Candidate>)
    requires |sub| > 0 && IsSubsequence(sub, s)
    ensures IsSubsequence(sub[1..], s)
    decreases |s|, 1
  {
    if sub[0] == s[0] {
      SubsequenceOfTail(sub[1..], s);
    } else {
      SubsequenceDropsHead(sub, s[1..]);
      SubsequenceOfTail(sub[1..], s);
    }
  }

  /** When every candidate passes, filtering changes nothing. */
  lemma {:induction false} FilterKeepingAll(criterion: Criterion, candidates: seq<Candidate>)
    requires forall i :: 0 <= i < |candidates| ==> Keeps(criterion, candidates[i])
    ensures Filter(criterion, candidates) == candidates
  {
    if |candidates| > 0 {
      FilterKeepingAll(criterion, candidates[1..]);
      assert candidates == [candidates[0]] + candidates[1..];
    }
  }

  /** The comparator of the `sort` call: by match percentage, highest first;
      by name or by applied date, as strings; any other key ties everyone. */
  function Compare(sortBy: string, a: Candidate, b: Candidate): int {
    if sortBy == "matchPercentage" then b.matchPercentage - a.matchPercentage
    else if sortBy == "name" then StrCmp(a.name, b.name)
    else if sortBy == "date" then StrCmp(a.appliedDate, b.appliedDate)
    else 0
  }

  /** What each key compares: by match percentage the higher one sorts first;
      by name or by date a tie means equal strings; any other key ties. */
  lemma CompareByKey(sortBy: string, a: Candidate, b: Candidate)
    ensures sortBy == "matchPercentage" ==> (Compare(sortBy, a, b) < 0 <==> a.matchPercentage > b.matchPercentage)
    ensures sortBy == "name" ==> (Compare(sortBy, a, b) == 0 <==> a.name == b.name)
    ensures sortBy == "date" ==> (Compare(sortBy, a, b) == 0 <==> a.appliedDate == b.appliedDate)
    ensures sortBy != "matchPercentage" && sortBy != "name" && sortBy != "date" ==> Compare(sortBy, a, b) == 0
  {
  }

  /** Swapping the candidates negates the comparison. */
  lemma CompareAntisymmetric(sortBy: string, a: Candidate, b: Candidate)
    ensures Compare(sortBy, b, a) == -Compare(sortBy, a, b)
  {
    StrCmpAntisymmetric(a.name, b.name);
    StrCmpAntisymmetric(a.appliedDate, b.appliedDate);
  }

  /** "Sorts no later than" is transitive for every key. */
  lemma CompareTransitive(sortBy: string, a: Candidate, b: Candidate, c: Candidate)
    requires Compare(sortBy, a, b) <= 0 && Compare(sortBy, b, c) <= 0
    ensures Compare(sortBy, a, c) <= 0
  {
    if sortBy == "name" {
      StrCmpTransitive(a.name, b.name, c.name);
    } else if sortBy == "date" {
      StrCmpTransitive(a.appliedDate, b.appliedDate, c.appliedDate);
    }
  }

  /** No candidate sorts after a later one. */
  predicate Sorted(sortBy: string, candidates: seq<Candidate>) {
    forall i, j :: 0 <= i < j < |candidates| ==> Compare(sortBy, candidates[i], candidates[j]) <= 0
  }

  /** Place x before the first candidate that sorts strictly after it. */
  function Insert(sortBy: string, x: Candidate, sorted: seq<Candidate>): (r: seq<Candidate>)
    ensures multiset(r) == multiset(sorted) + multiset{x}
  {
    if |sorted| == 0 then [x]
    else if Compare(sortBy, sorted[0], x) > 0 then [x] + sorted
    else
      assert sorted == [sorted[0]] + sorted[1..];
      [sorted[0]] + Insert(sortBy, x, sorted[1..])
  }

  /** `.sort(comparator)`, which is stable: each candidate in turn is placed
      after every earlier one that does not sort after it. */
  function SortCandidates(sortBy: string, candidates: seq<Candidate>): (r: seq<Candidate>)
    ensures multiset(r) == multiset(candidates)
  {
    if |candidates| == 0 then []
    else
      var last := |candidates| - 1;
      assert candidates == candidates[..last] + [candidates[last]];
      Insert(sortBy, candidates[last], SortCandidates(sortBy, candidates[..last]))
  }

  /** Inserting into a sorted list keeps it sorted. */
  lemma {:induction false} InsertKeepsSorted(sortBy: string, x: Candidate, sorted: seq<Candidate>)
    requires Sorted(sortBy, sorted)
    ensures Sorted(sortBy, Insert(sortBy, x, sorted))
  {
    if |sorted| == 0 {
    } else if Compare(sortBy, sorted[0], x) > 0 {
      var r := [x] + sorted;
      CompareAntisymmetric(sortBy, sorted[0], x);
      forall j | 1 <= j < |r|
        ensures Compare(sortBy, x, r[j]) <= 0
      {
        if j > 1 {
          CompareTransitive(sortBy, x, sorted[0], r[j]);
        }
      }
    } else {
      var rest := Insert(sortBy, x, sorted[1..]);
      InsertKeepsSorted(sortBy, x, sorted[1..]);
      var r := [sorted[0]] + rest;
      forall j | 1 <= j < |r|
        ensures Compare(sortBy, sorted[0], r[j]) <= 0
      {
        assert r[j] in multiset(rest);
        assert r[j] == x || r[j] in multiset(sorted[1..]);
        if r[j] != x {
          var k :| 0 <= k < |sorted[1..]| && sorted[1..][k] == r[j];
          assert sorted[k + 1] == r[j];
        }
      }
    }
  }

  /** The sort's result is ordered by the comparator. */
  lemma {:induction false} SortCandidatesSorted(sortBy: string, candidates: seq<Candidate>)
    ensures Sorted(sortBy, SortCandidates(sortBy, candidates))
  {
    if |candidates| > 0 {
      var last := |candidates| - 1;
      SortCandidatesSorted(sortBy, candidates[..last]);
      InsertKeepsSorted(sortBy, candidates[last], SortCandidates(sortBy, candidates[..last]));
    }
  }

  /** With a key the comparator does not know, everyone ties and the stable
      sort keeps the order it was given. */
  lemma {:induction false} SortByUnknownKeyKeepsOrder(sortBy: string, candidates: seq<Candidate>)
    requires sortBy != "matchPercentage" && sortBy != "name" && sortBy != "date"
    ensures SortCandidates(sortBy, candidates) == candidates
  {
    if |candidates| > 0 {
      var last := |candidates| - 1;
      var init, x := candidates[..last], candidates[last];
      assert init + [x] == candidates;
      SortByUnknownKeyKeepsOrder(sortBy, init);
      InsertAtEnd(sortBy, x, init);
      calc {
        SortCandidates(sortBy, candidates);
        Insert(sortBy, x, SortCandidates(sortBy, init));
        Insert(sortBy, x, init);
      }
    }
  }

  /** With everyone tied, insertion appends. */
  lemma {:induction false} InsertAtEnd(sortBy: string, x: Candidate, sorted: seq<Candidate>)
    requires sortBy != "matchPercentage" && sortBy != "name" && sortBy != "date"
    ensures Insert(sortBy, x, sorted) == sorted + [x]
  {
    if |sorted| > 0 {
      InsertAtEnd(sortBy, x, sorted[1..]);
      assert Compare(sortBy, sorted[0], x) == 0;
      assert Insert(sortBy, x, sorted) == [sorted[0]] + Insert(sortBy, x, sorted[1..]);
      assert [sorted[0]] + (sorted[1..] + [x]) == sorted + [x];
    }
  }

  /** What each sort key promises of the order of its result. */
  lemma SortCandidatesOrder(sortBy: string, candidates: seq<Candidate>)
    ensures var r := SortCandidates(sortBy, candidates);
      && (sortBy == "matchPercentage" ==>
            forall i, j :: 0 <= i < j < |r| ==> r[i].matchPercentage >= r[j].matchPercentage)
      && (sortBy == "name" ==>
            forall i, j :: 0 <= i < j < |r| ==> StrCmp(r[i].name, r[j].name) <= 0)
      && (sortBy == "date" ==>
            forall i, j :: 0 <= i < j < |r| ==> StrCmp(r[i].appliedDate, r[j].appliedDate) <= 0)
      && (sortBy != "matchPercentage" && sortBy != "name" && sortBy != "date" ==> r == candidates)
  {
    SortCandidatesSorted(sortBy, candidates);
    if sortBy != "matchPercentage" && sortBy != "name" && sortBy != "date" {
      SortByUnknownKeyKeepsOrder(sortBy, candidates);
    }
  }

  /** `filteredCandidates`: search filter, then status filter, then sort. */
  function FilteredCandidates(searchQuery: string, filterStatus: string, sortBy: string,
                              candidates: seq<Candidate>): (shown: seq<Candidate>)
    ensures Sorted(sortBy, shown)
    ensures multiset(shown) <= multiset(candidates)
  {
    SortCandidatesSorted(sortBy, Filter(StatusFilter(filterStatus), Filter(Search(searchQuery), candidates)));
    SortCandidates(sortBy, Filter(StatusFilter(filterStatus), Filter(Search(searchQuery), candidates)))
  }

  /** The list shown is a reordering of the candidates that pass both filters:
      none invented, none duplicated, none that passes dropped. With an empty
      query, "All" statuses and an unknown key it is the list unchanged. */
  lemma FilteredCandidatesSelection(searchQuery: string, filterStatus: string, sortBy: string,
                                    candidates: seq<Candidate>)
    ensures var r := FilteredCandidates(searchQuery, filterStatus, sortBy, candidates);
      forall c :: multiset(r)[c] ==
        if Keeps(Search(searchQuery), c) && Keeps(StatusFilter(filterStatus), c)
        then multiset(candidates)[c] else 0
    ensures (searchQuery == "" && filterStatus == "All"
             && sortBy != "matchPercentage" && sortBy != "name" && sortBy != "date") ==>
      FilteredCandidates(searchQuery, filterStatus, sortBy, candidates) == candidates
  {
    var searched := Filter(Search(searchQuery), candidates);
    if searchQuery == "" && filterStatus == "All"
      && sortBy != "matchPercentage" && sortBy != "name" && sortBy != "date" {
      FilterKeepingAll(Search(searchQuery), candidates);
      FilterKeepingAll(StatusFilter(filterStatus), searched);
      SortByUnknownKeyKeepsOrder(sortBy, searched);
    }
  }

  /** The status each tab shows; the "all" tab shows every filtered candidate. */
  function TabFilter(tab: string): (status: Option<Status>)
    ensures status.Some? <==> tab in ["assessment", "interview", "offer"]
  {
    if tab == "assessment" then Some(AssessmentCompleted)
    else if tab == "interview" then Some(Interview)
    else if tab == "offer" then Some(Offer)
    else None
  }

  /** The cards of one tab. */
  function TabContents(tab: string, filtered: seq<Candidate>): (cards: seq<Candidate>)
    ensures TabFilter(tab).None? ==> cards == filtered
    ensures forall c :: c in cards ==> c in filtered && (TabFilter(tab).None? || c.status == TabFilter(tab).value)
  {
    match TabFilter(tab)
    case None => filtered
    case Some(status) =>
      var kept := Filter(TabStatus(status), filtered);
      assert forall c :: c in kept ==> c in multiset(kept) && c in multiset(filtered);
      kept
  }

  /** Each status tab lists exactly the filtered candidates with its status, in
      the order of the filtered list. */
  lemma TabContentsSelection(tab: string, filtered: seq<Candidate>)
    ensures IsSubsequence(TabContents(tab, filtered), filtered)
    ensures forall c :: multiset(TabContents(tab, filtered))[c] ==
                        if TabFilter(tab).None? || c.status == TabFilter(tab).value then multiset(filtered)[c] else 0
  {
    match TabFilter(tab)
    case None =>
      SubsequenceOfItself(filtered);
    case Some(status) =>
      FilterIsSubsequence(TabStatus(status), filtered);
  }

  lemma {:induction false} SubsequenceOfItself(s: seq<Candidate>)
    ensures IsSubsequence(s, s)
  {
    if |s| > 0 {
      SubsequenceOfItself(s[1..]);
    }
  }

  /** The "Assessment Completion" figure: the candidates with a score. */
  function CompletedAssessments(candidates: seq<Candidate>): (count: nat)
    ensures count <= |candidates|
    ensures count == |candidates| <==> forall i :: 0 <= i < |candidates| ==> candidates[i].assessmentScore.Some?
  {
    FilterDropsNothing(HasAssessmentScore, candidates);
    |Filter(HasAssessmentScore, candidates)|
  }

  /** Sum of the match percentages (the `reduce`). */
  function SumMatch(candidates: seq<Candidate>): int {
    if |candidates| == 0 then 0 else candidates[0].matchPercentage + SumMatch(candidates[1..])
  }

  function MinMatch(candidates: seq<Candidate>): (m: int)
    requires |candidates| > 0
    ensures forall i :: 0 <= i < |candidates| ==> m <= candidates[i].matchPercentage
    ensures exists i :: 0 <= i < |candidates| && m == candidates[i].matchPercentage
  {
    if |candidates| == 1 then candidates[0].matchPercentage
    else
      var rest := MinMatch(candidates[1..]);
      if candidates[0].matchPercentage <= rest then candidates[0].matchPercentage else rest
  }

  function MaxMatch(candidates: seq<Candidate>): (m: int)
    requires |candidates| > 0
    ensures forall i :: 0 <= i < |candidates| ==> candidates[i].matchPercentage <= m
    ensures exists i :: 0 <= i < |candidates| && m == candidates[i].matchPercentage
  {
    if |candidates| == 1 then candidates[0].matchPercentage
    else
      var rest := MaxMatch(candidates[1..]);
      if candidates[0].matchPercentage >= rest then candidates[0].matchPercentage else rest
  }

  /** The sum lies between n times the smallest and n times the largest value. */
  lemma {:induction false} SumMatchBounds(candidates: seq<Candidate>, lo: int, hi: int)
    requires forall i :: 0 <= i < |candidates| ==> lo <= candidates[i].matchPercentage <= hi
    ensures |candidates| * lo <= SumMatch(candidates) <= |candidates| * hi
  {
    if |candidates| > 0 {
      SumMatchBounds(candidates[1..], lo, hi);
    }
  }

  /** The "Average Match Score" figure, `Math.round(sum / length)`; an empty
      list divides 0 by 0 and the page shows `NaN%`, which None stands for. */
  function AverageMatchScore(candidates: seq<Candidate>): (average: Option<int>)
    ensures average.None? <==> |candidates| == 0
    ensures average.Some? ==> MinMatch(candidates) <= average.value <= MaxMatch(candidates)
  {
    if |candidates| == 0 then None
    else
      var n := |candidates|;
      SumMatchBounds(candidates, MinMatch(candidates), MaxMatch(candidates));
      RoundDivAtLeast(SumMatch(candidates), n, MinMatch(candidates));
      RoundDivAtMost(SumMatch(candidates), n, MaxMatch(candidates));
      Some(RoundDiv(SumMatch(candidates), n))
  }

  /** The six candidates the page lists. */
  const SampleCandidates: seq<Candidate> := [
    Candidate("1", "Alex Morgan", "Senior Product Manager", 94, "May 10, 2023", AssessmentCompleted,
      [Skill("Product Strategy", 92), Skill("User Research", 88), Skill("Technical Fluency", 75), Skill("Analytics", 85)],
      Some(89)),
    Candidate("2", "Jamie Chen", "Product Manager", 87, "May 12, 2023", InReview,
      [Skill("Product Strategy", 84), Skill("User Research", 90), Skill("Technical Fluency", 72), Skill("Analytics", 78)],
      Some(82)),
    Candidate("3", "Taylor Wilson", "Associate Product Manager", 78, "May 15, 2023", Applied,
      [Skill("Product Strategy", 70), Skill("User Research", 85), Skill("Technical Fluency", 68), Skill("Analytics", 75)],
      None),
    Candidate("4", "Jordan Smith", "Product Manager", 91, "May 8, 2023", Interview,
      [Skill("Product Strategy", 88), Skill("User Research", 92), Skill("Technical Fluency", 78), Skill("Analytics", 89)],
      Some(86)),
    Candidate("5", "Casey Johnson", "Senior Product Manager", 83, "May 14, 2023", AssessmentCompleted,
      [Skill("Product Strategy", 85), Skill("User Research", 79), Skill("Technical Fluency", 81), Skill("Analytics", 76)],
      Some(79)),
    Candidate("6", "Riley Thompson", "Technical Product Manager", 89, "May 11, 2023", Offer,
      [Skill("Product Strategy", 82), Skill("User Research", 78), Skill("Technical Fluency", 94), Skill("Analytics", 90)],
      Some(92))
  ]

  /** On the page's own list the cards read 6 candidates and an average
      match of 87%. */
  lemma SampleAverage()
    ensures |SampleCandidates| == 6
    ensures AverageMatchScore(SampleCandidates) == Some(87)
  {
    var s := SampleCandidates;
    assert SumMatch(s[5..]) == 89;
    assert SumMatch(s[4..]) == 83 + 89 by { assert s[4..][1..] == s[5..]; }
    assert SumMatch(s[3..]) == 91 + 83 + 89 by { assert s[3..][1..] == s[4..]; }
    assert SumMatch(s[2..]) == 78 + 91 + 83 + 89 by { assert s[2..][1..] == s[3..]; }
    assert SumMatch(s[1..]) == 87 + 78 + 91 + 83 + 89 by { assert s[1..][1..] == s[2..]; }
    assert SumMatch(s) == 522 by { assert s[0..][1..] == s[1..]; }
    RoundDivExact(522, 6, 87);
  }

  /** The date key compares the written dates as text, so "May 8, 2023" sorts
      after "May 15, 2023". */
  lemma DateSortIsTextual()
    ensures Compare("date", SampleCandidates[3], SampleCandidates[2]) > 0
  {
    assert SampleCandidates[3].appliedDate[..4] == SampleCandidates[2].appliedDate[..4];
  }
}
