/** The job filter panel: the filter groups it derives from the job list
    (`filterData`), and the panel state it keeps — the selected values per
    filter type, the open accordion sections and the active mobile chip. */
module FilterCard {
  import opened Wrappers
  import opened Seqs
  import opened JobData

  /** One group of `filterData`; `items` is the source's `array` field. */
  datatype FilterGroup = FilterGroup(filterType: string, items: seq<string>)

  /** The filter types, in the order the panel lists them. */
  const FilterTypes: seq<string> :=
    ["Job Type", "Location", "Title", "Work Mode", "Job Level", "Duration", "Salary", "Experience Level"]

  /** The most title values the panel offers. */
  const MaxTitles := 10

  // ---------------------------------------------------------------- facet values

  /** `jobs.map(field)`, a missing field read as "". */
  function FieldTexts(jobs: seq<Job>, field: Job -> Option<string>): (r: seq<string>)
    ensures |r| == |jobs|
    decreases |jobs|
  {
    if jobs == [] then [] else [field(jobs[0]).GetOr("")] + FieldTexts(jobs[1..], field)
  }

  /** `jobs.map(field).filter(Boolean)` for a text field: the non-empty
      values, in the jobs' order. */
  function TruthyTexts(jobs: seq<Job>, field: Job -> Option<string>): (r: seq<string>)
    ensures forall x :: x in r <==> x != "" && exists i | 0 <= i < |jobs| :: field(jobs[i]) == Some(x)
    ensures IsSubsequence(r, FieldTexts(jobs, field))
    decreases |jobs|
  {
    if jobs == [] then []
    else
      var rest := TruthyTexts(jobs[1..], field);
      assert forall i | 1 <= i < |jobs| :: jobs[i] == jobs[1..][i - 1];
      var s := FieldTexts(jobs, field);
      assert s[1..] == FieldTexts(jobs[1..], field);
      if TruthyText(field(jobs[0])) then
        var r := [field(jobs[0]).value] + rest;
        assert r[0] == s[0] && r[1..] == rest;
        r
      else rest
  }

  /** `jobs.map(field).filter(Boolean)` for a number field. */
  function TruthyNumbers(jobs: seq<Job>, field: Job -> Option<int>): (r: seq<int>)
    ensures forall x :: x in r <==> x != 0 && exists i | 0 <= i < |jobs| :: field(jobs[i]) == Some(x)
    decreases |jobs|
  {
    if jobs == [] then []
    else
      var rest := TruthyNumbers(jobs[1..], field);
      assert forall i | 1 <= i < |jobs| :: jobs[i] == jobs[1..][i - 1];
      if TruthyNumber(field(jobs[0])) then [field(jobs[0]).value] + rest else rest
  }

  /** The distinct truthy values of a text field, in first-appearance order. */
  function UniqueValues(jobs: seq<Job>, field: Job -> Option<string>): seq<string> {
    Dedup(TruthyTexts(jobs, field))
  }

  /** `Math.min(...s)`. */
  function MinOf(s: seq<int>): (m: int)
    requires |s| > 0
    ensures m in s && forall x | x in s :: m <= x
  {
    if |s| == 1 then s[0]
    else
      var rest := MinOf(s[1..]);
      assert s == [s[0]] + s[1..];
      if s[0] <= rest then s[0] else rest
  }

  /** `Math.max(...s)`. */
  function MaxOf(s: seq<int>): (m: int)
    requires |s| > 0
    ensures m in s && forall x | x in s :: x <= m
  {
    if |s| == 1 then s[0]
    else
      var rest := MaxOf(s[1..]);
      assert s == [s[0]] + s[1..];
      if s[0] >= rest then s[0] else rest
  }

  // ---------------------------------------------------------------- salary buckets

  const WideSalaryLabels: seq<string> :=
    ["0-40k", "40k-1lakh", "1-10lakh", "10-20lakh", "20-30lakh", "30-40lakh", "40-50lakh", "50lakh+"]

  /** The salary labels for the overall minimum and maximum salary. */
  function SalaryTier(overallMin: int, overallMax: int): seq<string> {
    if overallMax <= 40000 then ["0-40k"]
    else if overallMin < 40000 && overallMax <= 100000 then ["0-40k", "40k-1lakh"]
    else if overallMin < 100000 && overallMax <= 500000 then ["0-40k", "40k-1lakh", "1lakh-5lakh"]
    else WideSalaryLabels
  }

  function SalaryMins(jobs: seq<Job>): seq<int> {
    TruthyNumbers(jobs, (j: Job) => j.salaryMin)
  }

  function SalaryMaxs(jobs: seq<Job>): seq<int> {
    TruthyNumbers(jobs, (j: Job) => j.salaryMax)
  }

  function SalaryRanges(jobs: seq<Job>): seq<string> {
    var mins := SalaryMins(jobs);
    var maxs := SalaryMaxs(jobs);
    if |mins| > 0 && |maxs| > 0 then SalaryTier(MinOf(mins), MaxOf(maxs)) else []
  }

  predicate HasTruthyMin(jobs: seq<Job>) {
    exists i | 0 <= i < |jobs| :: TruthyNumber(jobs[i].salaryMin)
  }

  predicate HasTruthyMax(jobs: seq<Job>) {
    exists i | 0 <= i < |jobs| :: TruthyNumber(jobs[i].salaryMax)
  }

  lemma TruthyMinsNonEmpty(jobs: seq<Job>)
    ensures |SalaryMins(jobs)| > 0 <==> HasTruthyMin(jobs)
    ensures |SalaryMaxs(jobs)| > 0 <==> HasTruthyMax(jobs)
  {
    var mins := SalaryMins(jobs);
    var maxs := SalaryMaxs(jobs);
    if HasTruthyMin(jobs) {
      var i :| 0 <= i < |jobs| && TruthyNumber(jobs[i].salaryMin);
      assert jobs[i].salaryMin.value in mins;
    }
    if |mins| > 0 {
      assert mins[0] in mins;
    }
    if HasTruthyMax(jobs) {
      var i :| 0 <= i < |jobs| && TruthyNumber(jobs[i].salaryMax);
      assert jobs[i].salaryMax.value in maxs;
    }
    if |maxs| > 0 {
      assert maxs[0] in maxs;
    }
  }

  /** The salary group: no labels unless some job has a truthy `salaryMin`
      and some job a truthy `salaryMax`; otherwise one, two, three or eight
      labels, always starting with "0-40k". */
  lemma SalaryRangesTiers(jobs: seq<Job>)
    ensures SalaryRanges(jobs) == [] <==> !HasTruthyMin(jobs) || !HasTruthyMax(jobs)
    ensures SalaryRanges(jobs) != [] ==> SalaryRanges(jobs)[0] == "0-40k"
    ensures |SalaryRanges(jobs)| in {0, 1, 2, 3, 8}
  {
    TruthyMinsNonEmpty(jobs);
  }

  /** The two ends of the tiers: when every truthy maximum is at most
      40000 there is the single label, and one truthy maximum above 500000
      gives all eight. */
  lemma SalaryRangesExtremes(jobs: seq<Job>)
    requires HasTruthyMin(jobs) && HasTruthyMax(jobs)
    ensures (forall i | 0 <= i < |jobs| && TruthyNumber(jobs[i].salaryMax) :: jobs[i].salaryMax.value <= 40000)
            ==> SalaryRanges(jobs) == ["0-40k"]
    ensures (exists i | 0 <= i < |jobs| :: TruthyNumber(jobs[i].salaryMax) && jobs[i].salaryMax.value > 500000)
            ==> SalaryRanges(jobs) == WideSalaryLabels
  {
    TruthyMinsNonEmpty(jobs);
    var maxs := SalaryMaxs(jobs);
    var hi := MaxOf(maxs);
    if forall i | 0 <= i < |jobs| && TruthyNumber(jobs[i].salaryMax) :: jobs[i].salaryMax.value <= 40000 {
      assert hi <= 40000;
    }
    if exists i | 0 <= i < |jobs| :: TruthyNumber(jobs[i].salaryMax) && jobs[i].salaryMax.value > 500000 {
      var i :| 0 <= i < |jobs| && TruthyNumber(jobs[i].salaryMax) && jobs[i].salaryMax.value > 500000;
      assert jobs[i].salaryMax.value in maxs;
    }
  }

  // ---------------------------------------------------------------- filterData

  /** Every group, in panel order, before empty ones are dropped. */
  function AllGroups(jobs: seq<Job>): seq<FilterGroup> {
    [ FilterGroup("Job Type", UniqueValues(jobs, (j: Job) => j.jobType)),
      FilterGroup("Location", UniqueValues(jobs, (j: Job) => j.location)),
      FilterGroup("Title", Take(UniqueValues(jobs, (j: Job) => j.title), MaxTitles)),
      FilterGroup("Work Mode", UniqueValues(jobs, (j: Job) => j.workMode)),
      FilterGroup("Job Level", UniqueValues(jobs, (j: Job) => j.jobLevel)),
      FilterGroup("Duration", UniqueValues(jobs, (j: Job) => j.duration)),
      FilterGroup("Salary", SalaryRanges(jobs)),
      FilterGroup("Experience Level", UniqueValues(jobs, (j: Job) => j.experienceLevel)) ]
  }

  predicate NonEmptyGroup(g: FilterGroup) {
    |g.items| > 0
  }

  /** `filterData`. */
  function FilterData(jobs: seq<Job>): seq<FilterGroup> {
    if |jobs| == 0 then [] else Filter(AllGroups(jobs), NonEmptyGroup)
  }

  function GroupTypes(groups: seq<FilterGroup>): seq<string> {
    seq(|groups|, i requires 0 <= i < |groups| => groups[i].filterType)
  }

  lemma {:induction false} TypesOfSubsequence(r: seq<FilterGroup>, s: seq<FilterGroup>)
    requires IsSubsequence(r, s)
    ensures IsSubsequence(GroupTypes(r), GroupTypes(s))
    decreases |s|
  {
    if r != [] && s != [] {
      assert GroupTypes(r)[1..] == GroupTypes(r[1..]);
      assert GroupTypes(s)[1..] == GroupTypes(s[1..]);
      if r[0] == s[0] && IsSubsequence(r[1..], s[1..]) {
        TypesOfSubsequence(r[1..], s[1..]);
      } else {
        TypesOfSubsequence(r, s[1..]);
      }
    }
  }

  /** An empty job list gives no groups; otherwise the groups keep the panel
      order, each group is present exactly when it has values, and no group
      is empty. */
  lemma FilterDataShape(jobs: seq<Job>)
    ensures jobs == [] ==> FilterData(jobs) == []
    ensures IsSubsequence(GroupTypes(FilterData(jobs)), FilterTypes)
    ensures forall g | g in FilterData(jobs) :: |g.items| > 0
    ensures jobs != [] ==> forall g | g in AllGroups(jobs) :: g in FilterData(jobs) <==> |g.items| > 0
  {
    var all := AllGroups(jobs);
    assert GroupTypes(all) == FilterTypes;
    if jobs == [] {
      assert GroupTypes([]) == [];
    } else {
      TypesOfSubsequence(FilterData(jobs), all);
    }
  }

  /** A text group lists each truthy value of its field exactly once, in the
      order of first appearance, and nothing else. */
  lemma UniqueValuesSpec(jobs: seq<Job>, field: Job -> Option<string>)
    ensures Distinct(UniqueValues(jobs, field))
    ensures forall x :: x in UniqueValues(jobs, field) <==>
              x != "" && exists i | 0 <= i < |jobs| :: field(jobs[i]) == Some(x)
    ensures forall a, b | 0 <= a < b < |UniqueValues(jobs, field)| ::
              FirstIndex(TruthyTexts(jobs, field), UniqueValues(jobs, field)[a])
              < FirstIndex(TruthyTexts(jobs, field), UniqueValues(jobs, field)[b])
  {
  }

  /** The Title group offers at most ten titles, all distinct, each the title
      of some job. */
  lemma TitleGroupBound(jobs: seq<Job>)
    ensures var titles := AllGroups(jobs)[2].items;
            |titles| <= MaxTitles && Distinct(titles) &&
            forall x | x in titles :: x != "" && exists i | 0 <= i < |jobs| :: jobs[i].title == Some(x)
  {
    var u := UniqueValues(jobs, (j: Job) => j.title);
    var titles := Take(u, MaxTitles);
    assert AllGroups(jobs)[2].items == titles;
    forall x | x in titles ensures x in u {
      var k :| 0 <= k < |titles| && titles[k] == x;
      assert u[k] == x;
    }
  }

  // ---------------------------------------------------------------- panel state

  function SelectedFor(selected: map<string, seq<string>>, filterType: string): seq<string> {
    if filterType in selected then selected[filterType] else []
  }

  class FilterPanel {
    var selectedFilters: map<string, seq<string>>
    var openAccordions: map<string, bool>
    var activeFilterType: Option<string>

    predicate IsOpen(filterType: string)
      reads this
    {
      filterType in openAccordions && openAccordions[filterType]
    }

    /** At most one accordion section is open. */
    predicate AtMostOneOpen()
      reads this
    {
      forall a, b | a in openAccordions && b in openAccordions && openAccordions[a] && openAccordions[b] :: a == b
    }

    constructor ()
      ensures selectedFilters == map[] && openAccordions == map[] && activeFilterType == None
      ensures AtMostOneOpen()
    {
      selectedFilters := map[];
      openAccordions := map[];
      activeFilterType := None;
    }

    /** `toggleAccordion`: clicking the open section closes it; clicking any
        other section opens it and closes all the rest. */
    method ToggleAccordion(filterType: string)
      modifies this`openAccordions
      ensures old(IsOpen(filterType)) ==> openAccordions == old(openAccordions)[filterType := false]
      ensures !old(IsOpen(filterType)) ==> openAccordions == map[filterType := true]
      ensures IsOpen(filterType) <==> !old(IsOpen(filterType))
      ensures old(AtMostOneOpen()) ==> AtMostOneOpen() && forall t | t != filterType :: !IsOpen(t)
    {
      if filterType in openAccordions && openAccordions[filterType] {
        openAccordions := openAccordions[filterType := false];
      } else {
        openAccordions := map[filterType := true];
      }
    }

    /** `handleCheckboxChange`: checking appends the value to that type's
        list; unchecking removes every occurrence of it; other types keep
        their lists. */
    method HandleCheckboxChange(filterType: string, value: string, checked: bool)
      modifies this`selectedFilters
      ensures var current := SelectedFor(old(selectedFilters), filterType);
              selectedFilters == old(selectedFilters)[filterType :=
                if checked then current + [value] else Filter(current, (x: string) => x != value)]
      ensures checked ==> selectedFilters[filterType] == SelectedFor(old(selectedFilters), filterType) + [value]
      ensures !checked ==> (value !in selectedFilters[filterType] &&
                forall x | x != value :: x in selectedFilters[filterType] <==> x in SelectedFor(old(selectedFilters), filterType))
      ensures forall t | t != filterType :: SelectedFor(selectedFilters, t) == SelectedFor(old(selectedFilters), t)
    {
      var current := SelectedFor(selectedFilters, filterType);
      if checked {
        selectedFilters := selectedFilters[filterType := current + [value]];
      } else {
        selectedFilters := selectedFilters[filterType := Filter(current, (x: string) => x != value)];
      }
    }

    /** `clearFilters`. */
    method ClearFilters()
      modifies this
      ensures selectedFilters == map[] && openAccordions == map[] && activeFilterType == None
      ensures AtMostOneOpen()
    {
      selectedFilters := map[];
      openAccordions := map[];
      activeFilterType := None;
    }

    /** `toggleMobileFilter`, without the dropdown placement: the active chip
        is deselected, any other chip becomes the active one. */
    method ToggleMobileFilter(filterType: string)
      modifies this`activeFilterType
      ensures activeFilterType == if old(activeFilterType) == Some(filterType) then None else Some(filterType)
    {
      if activeFilterType == Some(filterType) {
        activeFilterType := None;
      } else {
        activeFilterType := Some(filterType);
      }
    }
  }
}
