/** The job search page: it applies the filter panel's selection to the job
    list (AND across filter types, OR within one), pages the result ten jobs
    at a time and lays out the page buttons. */
module Jobs {
  import opened Wrappers
  import opened Text
  import opened Seqs
  import opened JobData
  import FilterCard

  /** The selection the filter panel publishes: filter type to the values
      ticked for it. */
  type Query = map<string, seq<string>>

  // ---------------------------------------------------------------- one filter type

  /** The job field a text filter type matches against, or `None` for the
      salary type and every type the filter does not know. */
  function TextField(filterType: string, job: Job): Option<Option<string>> {
    if filterType == "Job Type" then Some(job.jobType)
    else if filterType == "Location" then Some(job.location)
    else if filterType == "Title" then Some(job.title)
    else if filterType == "Work Mode" then Some(job.workMode)
    else if filterType == "Job Level" then Some(job.jobLevel)
    else if filterType == "Duration" then Some(job.duration)
    else if filterType == "Experience Level" then Some(job.experienceLevel)
    else None
  }

  /** Case-insensitive substring test; a missing field matches nothing. */
  predicate TextMatches(field: Option<string>, value: string) {
    field.Some? && Contains(Lower(field.value), Lower(value))
  }

  /** The characters `/[^\d-]/g` keeps. */
  predicate IsSalaryChar(c: char) {
    IsDigit(c) || c == '-'
  }

  /** A salary value with everything but digits and `-` removed, in order. */
  function SalaryDigits(value: string): string {
    if value == [] then []
    else if IsSalaryChar(value[0]) then [value[0]] + SalaryDigits(value[1..])
    else SalaryDigits(value[1..])
  }

  lemma {:induction false} SalaryDigitsConcat(s: string, t: string)
    ensures SalaryDigits(s + t) == SalaryDigits(s) + SalaryDigits(t)
  {
    if s == [] {
      assert s + t == t;
    } else {
      assert (s + t)[1..] == s[1..] + t;
      SalaryDigitsConcat(s[1..], t);
    }
  }

  /** Text made only of digits and `-` is kept whole. */
  lemma {:induction false} SalaryDigitsKeep(s: string)
    requires forall i | 0 <= i < |s| :: IsSalaryChar(s[i])
    ensures SalaryDigits(s) == s
  {
    if s != [] {
      SalaryDigitsKeep(s[1..]);
    }
  }

  /** Text without digits and `-` is dropped entirely. */
  lemma {:induction false} SalaryDigitsDrop(s: string)
    requires forall i | 0 <= i < |s| :: !IsSalaryChar(s[i])
    ensures SalaryDigits(s) == []
  {
    if s != [] {
      SalaryDigitsDrop(s[1..]);
    }
  }

  /** `const [min, max] = value.replace(/[^\d-]/g, "").split("-").map(parseInt)`;
      `None` is NaN or a missing element. */
  datatype SalaryBounds = SalaryBounds(min: Option<nat>, max: Option<nat>)

  function ParseSalaryValue(value: string): SalaryBounds {
    var parts := Split(SalaryDigits(value), '-');
    SalaryBounds(ParseInt(parts[0]), if |parts| > 1 then ParseInt(parts[1]) else None)
  }

  /** `job.salaryMin >= min && job.salaryMax <= max`: a comparison with a
      missing or NaN operand is false. */
  predicate SalaryMatches(job: Job, value: string) {
    var b := ParseSalaryValue(value);
    && job.salaryMin.Some? && b.min.Some? && job.salaryMin.value >= b.min.value
    && job.salaryMax.Some? && b.max.Some? && job.salaryMax.value <= b.max.value
  }

  /** How the filter reads a salary value: `AsWritten` is the page's own
      reading (`SalaryMatches`), `Intended` the rupee ranges the labels name
      (`SalaryMatchesIntended`, the correction of the salary finding). */
  datatype SalaryReading = AsWritten | Intended

  predicate SalaryAccepts(reading: SalaryReading, job: Job, value: string) {
    match reading
    case AsWritten => SalaryMatches(job, value)
    case Intended => SalaryMatchesIntended(job, value)
  }

  /** The `every` callback: an empty selection accepts every job, a known
      type accepts a job matching at least one selected value, and an
      unknown type accepts every job. */
  predicate TypeAccepts(filterType: string, values: seq<string>, job: Job, reading: SalaryReading) {
    if |values| == 0 then true
    else if filterType == "Salary" then exists v | v in values :: SalaryAccepts(reading, job, v)
    else match TextField(filterType, job)
      case None => true
      case Some(field) => exists v | v in values :: TextMatches(field, v)
  }

  predicate KeepJob(query: Query, job: Job, reading: SalaryReading) {
    forall t | t in query :: TypeAccepts(t, query[t], job, reading)
  }

  /** The filtering effect: `filterJobs` for `allJobs` and `searchedQuery`,
      the page itself reading salaries `AsWritten`. */
  function FilterJobs(allJobs: seq<Job>, query: Option<Query>, reading: SalaryReading): seq<Job> {
    if query.Some? && |query.value| > 0 then Filter(allJobs, (j: Job) => KeepJob(query.value, j, reading))
    else allJobs
  }

  // ---------------------------------------------------------------- filter properties

  /** With no query, or one with no filter types, every job is shown. */
  lemma NoQueryKeepsAll(allJobs: seq<Job>, query: Option<Query>, reading: SalaryReading)
    requires query.None? || query.value == map[]
    ensures FilterJobs(allJobs, query, reading) == allJobs
  {
  }

  /** A job is shown exactly when, for every filter type with a non-empty
      selection, it matches one of the selected values; the result keeps the
      order and the multiplicity of `allJobs`. */
  lemma FilterJobsSpec(allJobs: seq<Job>, query: Query, reading: SalaryReading)
    ensures var r := FilterJobs(allJobs, Some(query), reading);
            && IsSubsequence(r, allJobs)
            && (forall j :: j in r <==> j in allJobs && KeepJob(query, j, reading))
            && (forall j :: multiset(r)[j] == if KeepJob(query, j, reading) then multiset(allJobs)[j] else 0)
  {
    if query == map[] {
      SubsequenceRefl(allJobs);
    }
  }

  /** A selection whose lists are all empty (what unticking every box
      leaves) filters nothing out. */
  lemma EmptySelectionsKeepAll(allJobs: seq<Job>, query: Query, reading: SalaryReading)
    requires forall t | t in query :: query[t] == []
    ensures FilterJobs(allJobs, Some(query), reading) == allJobs
  {
    if |query| > 0 {
      FilterAllPass(allJobs, (j: Job) => KeepJob(query, j, reading));
    }
  }

  /** A job without the field a text filter type looks at never passes a
      non-empty selection of that type. */
  lemma MissingFieldFails(filterType: string, values: seq<string>, job: Job, reading: SalaryReading)
    requires TextField(filterType, job) == Some(None) && values != []
    ensures !TypeAccepts(filterType, values, job, reading)
  {
  }

  /** A filter type the filter does not know accepts every job. */
  lemma UnknownTypeAccepts(filterType: string, values: seq<string>, job: Job, reading: SalaryReading)
    requires filterType != "Salary" && filterType !in FilterCard.FilterTypes
    ensures TypeAccepts(filterType, values, job, reading)
  {
  }

  /** Matching ignores ASCII case on both sides. */
  lemma TextMatchIgnoresCase(field: string, value: string, i: nat)
    requires OccursAt(Lower(field), Lower(value), i)
    ensures TextMatches(Some(field), value) && TextMatches(Some(Lower(field)), value)
  {
    var lf := Lower(field);
    assert Lower(lf) == lf by {
      forall k | 0 <= k < |lf| ensures Lower(lf)[k] == lf[k] { }
    }
    ContainsAt(lf, Lower(value), i);
  }

  /** A salary value without a `-` parses to a single bound and therefore
      matches no job at all (as "50lakh+" does). */
  lemma SalaryWithoutDashMatchesNothing(job: Job, value: string)
    requires '-' !in SalaryDigits(value)
    ensures ParseSalaryValue(value).max == None
    ensures !SalaryMatches(job, value)
  {
    SplitSepFree(SalaryDigits(value), '-');
  }

  /** Appending kept characters appends them to the result. */
  lemma SalaryDigitsKeepTail(x: string, d: string)
    requires forall i | 0 <= i < |d| :: IsSalaryChar(d[i])
    ensures SalaryDigits(x + d) == SalaryDigits(x) + d
  {
    SalaryDigitsConcat(x, d);
    SalaryDigitsKeep(d);
  }

  /** Appending dropped characters leaves the result unchanged. */
  lemma SalaryDigitsDropTail(x: string, u: string)
    requires forall i | 0 <= i < |u| :: !IsSalaryChar(u[i])
    ensures SalaryDigits(x + u) == SalaryDigits(x)
  {
    SalaryDigitsConcat(x, u);
    SalaryDigitsDrop(u);
    assert SalaryDigits(x) + [] == SalaryDigits(x);
  }

  lemma SalaryDigitsOfRange(da: string, unitA: string, db: string, unitB: string)
    requires AllDigits(da) && AllDigits(db)
    requires forall i | 0 <= i < |unitA| :: !IsSalaryChar(unitA[i])
    requires forall i | 0 <= i < |unitB| :: !IsSalaryChar(unitB[i])
    ensures SalaryDigits(da + unitA + "-" + db + unitB) == da + ['-'] + db
  {
    SalaryDigitsKeep(da);
    SalaryDigitsDropTail(da, unitA);
    SalaryDigitsKeepTail(da + unitA, "-");
    SalaryDigitsKeepTail(da + unitA + "-", db);
    SalaryDigitsDropTail(da + unitA + "-" + db, unitB);
  }

  /** A label of the form `<a><unit>-<b><unit>` is read as the bounds `a`
      and `b`, whatever its units say. */
  lemma SalaryRangeParse(a: nat, unitA: string, b: nat, unitB: string)
    requires forall i | 0 <= i < |unitA| :: !IsSalaryChar(unitA[i])
    requires forall i | 0 <= i < |unitB| :: !IsSalaryChar(unitB[i])
    ensures ParseSalaryValue(NatToString(a) + unitA + "-" + NatToString(b) + unitB)
         == SalaryBounds(Some(a), Some(b))
  {
    var da, db := NatToString(a), NatToString(b);
    var v := da + unitA + "-" + db + unitB;
    SalaryDigitsOfRange(da, unitA, db, unitB);
    var parts := Split(SalaryDigits(v), '-');
    assert parts == [da, db] by {
      SplitAfterPiece(da, db, '-');
      SplitSepFree(db, '-');
    }
    ParseIntRoundTrip(a);
    ParseIntRoundTrip(b);
  }

  /** A label of the form `<a><unit>` is read as the lower bound `a` alone. */
  lemma SalaryOpenParse(a: nat, unit: string)
    requires forall i | 0 <= i < |unit| :: !IsSalaryChar(unit[i])
    ensures ParseSalaryValue(NatToString(a) + unit) == SalaryBounds(Some(a), None)
  {
    var da := NatToString(a);
    SalaryDigitsConcat(da, unit);
    SalaryDigitsKeep(da);
    SalaryDigitsDrop(unit);
    assert SalaryDigits(da + unit) == da;
    SplitSepFree(da, '-');
    ParseIntRoundTrip(a);
  }

  /** Every salary label the filter panel can offer. */
  const SalaryLabels: seq<string> := FilterCard.WideSalaryLabels + ["1lakh-5lakh"]

  lemma ParsedLabel0_40k()
    ensures ParseSalaryValue("0-40k") == SalaryBounds(Some(0), Some(40))
  {
    assert NatToString(0) == "0";
    assert NatToString(4) == "4";
    assert NatToString(40) == "40";
    assert "0-40k" == NatToString(0) + "" + "-" + NatToString(40) + "k";
    SalaryRangeParse(0, "", 40, "k");
  }

  lemma ParsedLabel40k_1lakh()
    ensures ParseSalaryValue("40k-1lakh") == SalaryBounds(Some(40), Some(1))
  {
    assert NatToString(4) == "4";
    assert NatToString(40) == "40";
    assert NatToString(1) == "1";
    assert "40k-1lakh" == NatToString(40) + "k" + "-" + NatToString(1) + "lakh";
    SalaryRangeParse(40, "k", 1, "lakh");
  }

  lemma ParsedLabel1lakh_5lakh()
    ensures ParseSalaryValue("1lakh-5lakh") == SalaryBounds(Some(1), Some(5))
  {
    assert NatToString(1) == "1";
    assert NatToString(5) == "5";
    assert "1lakh-5lakh" == NatToString(1) + "lakh" + "-" + NatToString(5) + "lakh";
    SalaryRangeParse(1, "lakh", 5, "lakh");
  }

  lemma ParsedLabel1_10lakh()
    ensures ParseSalaryValue("1-10lakh") == SalaryBounds(Some(1), Some(10))
  {
    assert NatToString(1) == "1";
    assert NatToString(1) == "1";
    assert NatToString(10) == "10";
    assert "1-10lakh" == NatToString(1) + "" + "-" + NatToString(10) + "lakh";
    SalaryRangeParse(1, "", 10, "lakh");
  }

  lemma ParsedLabel10_20lakh()
    ensures ParseSalaryValue("10-20lakh") == SalaryBounds(Some(10), Some(20))
  {
    assert NatToString(1) == "1";
    assert NatToString(10) == "10";
    assert NatToString(2) == "2";
    assert NatToString(20) == "20";
    assert "10-20lakh" == NatToString(10) + "" + "-" + NatToString(20) + "lakh";
    SalaryRangeParse(10, "", 20, "lakh");
  }

  lemma ParsedLabel20_30lakh()
    ensures ParseSalaryValue("20-30lakh") == SalaryBounds(Some(20), Some(30))
  {
    assert NatToString(2) == "2";
    assert NatToString(20) == "20";
    assert NatToString(3) == "3";
    assert NatToString(30) == "30";
    assert "20-30lakh" == NatToString(20) + "" + "-" + NatToString(30) + "lakh";
    SalaryRangeParse(20, "", 30, "lakh");
  }

  lemma ParsedLabel30_40lakh()
    ensures ParseSalaryValue("30-40lakh") == SalaryBounds(Some(30), Some(40))
  {
    assert NatToString(3) == "3";
    assert NatToString(30) == "30";
    assert NatToString(4) == "4";
    assert NatToString(40) == "40";
    assert "30-40lakh" == NatToString(30) + "" + "-" + NatToString(40) + "lakh";
    SalaryRangeParse(30, "", 40, "lakh");
  }

  lemma ParsedLabel40_50lakh()
    ensures ParseSalaryValue("40-50lakh") == SalaryBounds(Some(40), Some(50))
  {
    assert NatToString(4) == "4";
    assert NatToString(40) == "40";
    assert NatToString(5) == "5";
    assert NatToString(50) == "50";
    assert "40-50lakh" == NatToString(40) + "" + "-" + NatToString(50) + "lakh";
    SalaryRangeParse(40, "", 50, "lakh");
  }

  lemma ParsedLabel50lakhPlus()
    ensures ParseSalaryValue("50lakh+") == SalaryBounds(Some(50), None)
  {
    assert NatToString(5) == "5";
    assert NatToString(50) == "50";
    assert "50lakh+" == NatToString(50) + "lakh+";
    SalaryOpenParse(50, "lakh+");
  }

  /** How `filterJobs` reads the salary labels: the digits before the first
      `-` are the lower bound and the digits after it the upper bound, with
      the units `k` and `lakh` discarded, so no label has an upper bound
      above 50 and "50lakh+" has none at all. */
  lemma SalaryLabelAsParsed(value: string)
    requires value in SalaryLabels
    ensures var b := ParseSalaryValue(value);
            && b.min.Some? && b.min.value <= 50
            && (b.max.None? <==> value == "50lakh+")
            && (b.max.Some? ==> b.max.value <= 50)
  {
    assert value in FilterCard.WideSalaryLabels || value == "1lakh-5lakh";
    if value == "0-40k" {
      ParsedLabel0_40k();
    } else if value == "40k-1lakh" {
      ParsedLabel40k_1lakh();
    } else if value == "1lakh-5lakh" {
      ParsedLabel1lakh_5lakh();
    } else if value == "1-10lakh" {
      ParsedLabel1_10lakh();
    } else if value == "10-20lakh" {
      ParsedLabel10_20lakh();
    } else if value == "20-30lakh" {
      ParsedLabel20_30lakh();
    } else if value == "30-40lakh" {
      ParsedLabel30_40lakh();
    } else if value == "40-50lakh" {
      ParsedLabel40_50lakh();
    } else {
      ParsedLabel50lakhPlus();
    }
  }

  // ---------------------------------------------------------------- pagination

  const JobsPerPage := 10

  function Min(a: int, b: int): int {
    if a <= b then a else b
  }

  /** `indexOfFirstJob` and `indexOfLastJob` for a page number. */
  function FirstJobIndex(page: int): int {
    page * JobsPerPage - JobsPerPage
  }

  function LastJobIndex(page: int): int {
    page * JobsPerPage
  }

  /** `currentJobs`: the jobs the grid shows for `page`. */
  function CurrentJobs(filtered: seq<Job>, page: int): seq<Job> {
    Slice(filtered, FirstJobIndex(page), LastJobIndex(page))
  }

  /** `Math.ceil(n / jobsPerPage)`: the fewest pages of ten that hold `n`
      jobs. */
  function TotalPages(n: nat): (t: nat)
    ensures t * JobsPerPage >= n
    ensures t > 0 ==> (t - 1) * JobsPerPage < n
    ensures t == 0 <==> n == 0
  {
    (n + JobsPerPage - 1) / JobsPerPage
  }

  /** Page `p` (from 1) holds the `p`-th block of ten jobs, cut short at the
      end of the list: never more than ten, exactly ten before the last
      page, at least one on every page up to the last and none after it. */
  lemma PageContents(filtered: seq<Job>, p: int)
    requires p >= 1
    ensures var n := |filtered|;
            CurrentJobs(filtered, p) == filtered[Min((p - 1) * JobsPerPage, n)..Min(p * JobsPerPage, n)]
    ensures |CurrentJobs(filtered, p)| <= JobsPerPage
    ensures p < TotalPages(|filtered|) ==> |CurrentJobs(filtered, p)| == JobsPerPage
    ensures CurrentJobs(filtered, p) != [] <==> p <= TotalPages(|filtered|)
  {
  }

  /** The jobs of pages `1..k`, in page order. */
  function PagesUpTo(filtered: seq<Job>, k: nat): seq<Job> {
    if k == 0 then [] else PagesUpTo(filtered, k - 1) + CurrentJobs(filtered, k)
  }

  lemma {:induction false} PagesUpToPrefix(filtered: seq<Job>, k: nat)
    ensures PagesUpTo(filtered, k) == filtered[..Min(k * JobsPerPage, |filtered|)]
  {
    if k > 0 {
      PagesUpToPrefix(filtered, k - 1);
      PageContents(filtered, k);
      var n := |filtered|;
      var a, b := Min((k - 1) * JobsPerPage, n), Min(k * JobsPerPage, n);
      assert filtered[..a] + filtered[a..b] == filtered[..b];
    }
  }

  /** Pages `1..totalPages` together show every filtered job exactly once,
      in order. */
  lemma PagesCoverAll(filtered: seq<Job>)
    ensures PagesUpTo(filtered, TotalPages(|filtered|)) == filtered
  {
    PagesUpToPrefix(filtered, TotalPages(|filtered|));
  }

  /** "Showing {from}-{to} of {n} jobs". */
  function ShowingFrom(page: int): int {
    FirstJobIndex(page) + 1
  }

  function ShowingTo(page: int, n: nat): int {
    Min(LastJobIndex(page), n)
  }

  /** On a page that exists, the count line names exactly the positions
      (from 1) of the jobs the grid shows. */
  lemma ShowingMatchesPage(filtered: seq<Job>, p: int)
    requires 1 <= p <= TotalPages(|filtered|)
    ensures 1 <= ShowingFrom(p) <= ShowingTo(p, |filtered|) <= |filtered|
    ensures CurrentJobs(filtered, p) == filtered[ShowingFrom(p) - 1..ShowingTo(p, |filtered|)]
  {
    PageContents(filtered, p);
  }

  // ---------------------------------------------------------------- pagination controls

  /** The controls render only when there is more than one page. */
  predicate ShowsPagination(totalPages: nat) {
    totalPages > 1
  }

  predicate PreviousEnabled(currentPage: int) {
    currentPage != 1
  }

  predicate NextEnabled(currentPage: int, totalPages: nat) {
    currentPage != totalPages
  }

  /** What the button strip renders for one page number. */
  datatype PageItem = PageButton(page: int, highlighted: bool) | Ellipsis | NoItem

  function PageItemAt(pageNumber: int, currentPage: int, totalPages: nat): PageItem {
    if pageNumber == 1 || pageNumber == totalPages
       || (pageNumber >= currentPage - 1 && pageNumber <= currentPage + 1)
    then PageButton(pageNumber, currentPage == pageNumber)
    else if pageNumber == currentPage - 2 || pageNumber == currentPage + 2 then Ellipsis
    else NoItem
  }

  /** `[...Array(totalPages)].map(...)`: one item per page number `1..totalPages`. */
  function PageItems(currentPage: int, totalPages: nat): (r: seq<PageItem>)
    ensures |r| == totalPages
  {
    seq(totalPages, i => PageItemAt(i + 1, currentPage, totalPages))
  }

  /** A page gets a button exactly when it is the first, the last or within
      one of the current page. */
  predicate HasButton(pageNumber: int, currentPage: int, totalPages: nat) {
    pageNumber == 1 || pageNumber == totalPages || currentPage - 1 <= pageNumber <= currentPage + 1
  }

  /** The button strip: exactly the first page, the last page and the pages
      within one of the current page have buttons, each at its own number and
      highlighted exactly when it is the current page; an ellipsis stands
      exactly at the pages two away from the current one that have no
      button; nothing else is drawn. */
  lemma PageItemsShape(currentPage: int, totalPages: nat)
    ensures var r := PageItems(currentPage, totalPages);
            && (totalPages >= 1 ==> r[0].PageButton? && r[totalPages - 1].PageButton?)
            && (forall i | 0 <= i < totalPages :: r[i].PageButton? <==> HasButton(i + 1, currentPage, totalPages))
            && (forall i | 0 <= i < totalPages && r[i].PageButton? :: r[i].page == i + 1)
            && (forall i | 0 <= i < totalPages && r[i].PageButton? :: r[i].highlighted <==> i + 1 == currentPage)
            && (forall i | 0 <= i < totalPages ::
                  r[i] == Ellipsis <==>
                  !HasButton(i + 1, currentPage, totalPages) && (i + 1 == currentPage - 2 || i + 1 == currentPage + 2))
            && (forall i | 0 <= i < totalPages && r[i] != NoItem ::
                  i + 1 == 1 || i + 1 == totalPages || currentPage - 2 <= i + 1 <= currentPage + 2)
  {
  }

  /** Exactly one page button is highlighted when the current page exists,
      none when it does not. */
  lemma OneHighlighted(currentPage: int, totalPages: nat)
    ensures var r := PageItems(currentPage, totalPages);
            (exists i | 0 <= i < totalPages :: r[i] == PageButton(i + 1, true))
            <==> 1 <= currentPage <= totalPages
    ensures var r := PageItems(currentPage, totalPages);
            forall i, j | 0 <= i < totalPages && 0 <= j < totalPages
                        && r[i].PageButton? && r[i].highlighted && r[j].PageButton? && r[j].highlighted :: i == j
  {
    var r := PageItems(currentPage, totalPages);
    if 1 <= currentPage <= totalPages {
      assert r[currentPage - 1] == PageButton(currentPage, true);
    }
  }

  /** A page without an item is always flagged by an ellipsis between it and
      the current page. */
  lemma HiddenPagesFlagged(currentPage: int, totalPages: nat, k: int)
    requires 1 <= currentPage <= totalPages && 1 <= k <= totalPages
    requires PageItems(currentPage, totalPages)[k - 1] == NoItem
    ensures k < currentPage ==> PageItems(currentPage, totalPages)[currentPage - 3] == Ellipsis
    ensures k > currentPage ==> PageItems(currentPage, totalPages)[currentPage + 1] == Ellipsis
  {
  }

  // ---------------------------------------------------------------- the salary labels' meaning

  /** The rupee range a salary value stands for; `hi == None` is unbounded. */
  datatype SalaryRange = SalaryRange(lo: nat, hi: Option<nat>)

  /** The ranges the panel's labels name, with `k` a thousand and `lakh` a
      hundred thousand rupees (the unit of `salaryMin` and `salaryMax`, which
      the panel's own tiers compare with 40000, 100000 and 500000). Any other
      text is read the way the page reads it. */
  function IntendedSalaryRange(value: string): Option<SalaryRange> {
    if value == "0-40k" then Some(SalaryRange(0, Some(40000)))
    else if value == "40k-1lakh" then Some(SalaryRange(40000, Some(100000)))
    else if value == "1lakh-5lakh" then Some(SalaryRange(100000, Some(500000)))
    else if value == "1-10lakh" then Some(SalaryRange(100000, Some(1000000)))
    else if value == "10-20lakh" then Some(SalaryRange(1000000, Some(2000000)))
    else if value == "20-30lakh" then Some(SalaryRange(2000000, Some(3000000)))
    else if value == "30-40lakh" then Some(SalaryRange(3000000, Some(4000000)))
    else if value == "40-50lakh" then Some(SalaryRange(4000000, Some(5000000)))
    else if value == "50lakh+" then Some(SalaryRange(5000000, None))
    else
      var b := ParseSalaryValue(value);
      if b.min.Some? && b.max.Some? then Some(SalaryRange(b.min.value, Some(b.max.value))) else None
  }

  /** A job matches a salary value when its whole posted range lies inside
      the range the value names. */
  predicate SalaryMatchesIntended(job: Job, value: string) {
    match IntendedSalaryRange(value)
    case None => false
    case Some(r) =>
      && job.salaryMin.Some? && job.salaryMin.value >= r.lo
      && job.salaryMax.Some? && (r.hi.None? || job.salaryMax.value <= r.hi.value)
  }

  /** A job posted with one salary `s` (any amount of rupees) is found by at
      least one label of the panel's wide list; the bands meet end to end. */
  lemma IntendedLabelsCoverEverySalary(job: Job, s: nat)
    requires job.salaryMin == Some(s) && job.salaryMax == Some(s)
    ensures exists v | v in FilterCard.WideSalaryLabels :: SalaryMatchesIntended(job, v)
  {
    var w := FilterCard.WideSalaryLabels;
    var v :=
      if s <= 40000 then w[0] else if s <= 100000 then w[1] else if s <= 1000000 then w[2]
      else if s <= 2000000 then w[3] else if s <= 3000000 then w[4] else if s <= 4000000 then w[5]
      else if s <= 5000000 then w[6] else w[7];
    assert v in w;
    assert SalaryMatchesIntended(job, v);
  }

  /** The labels as the page reads them: no label has an upper bound above
      50, so a job whose posted maximum is more than 50 rupees is never found
      through the salary filter (the finding's as-written reading). */
  lemma AsWrittenSalaryFilterMissesRealSalaries(job: Job, value: string)
    requires value in SalaryLabels
    requires job.salaryMax.Some? && job.salaryMax.value > 50
    ensures !SalaryMatches(job, value)
  {
    SalaryLabelAsParsed(value);
  }

  /** The concrete case: a job paying 50000 to 80000 rupees is in the
      "40k-1lakh" band but the page's reading (40 to 1) rejects it. */
  lemma SalaryUnitsCounterexample(job: Job)
    requires job.salaryMin == Some(50000) && job.salaryMax == Some(80000)
    ensures !SalaryMatches(job, "40k-1lakh")
    ensures SalaryMatchesIntended(job, "40k-1lakh")
  {
    ParsedLabel40k_1lakh();
  }

  /** The same case on the page: ticking "40k-1lakh" hides the 50000-80000
      job as written, and shows it under the intended reading. */
  lemma AsWrittenFilterHidesJob(job: Job)
    requires job.salaryMin == Some(50000) && job.salaryMax == Some(80000)
    ensures var query := Some(map["Salary" := ["40k-1lakh"]]);
            FilterJobs([job], query, AsWritten) == [] && FilterJobs([job], query, Intended) == [job]
  {
    var query := map["Salary" := ["40k-1lakh"]];
    SalaryUnitsCounterexample(job);
    KeepOneSalaryLabel(job, AsWritten);
    KeepOneSalaryLabel(job, Intended);
    var r := FilterJobs([job], Some(query), AsWritten);
    assert forall x :: multiset(r)[x] == 0;
    assert multiset(r) == multiset{};
    var s := FilterJobs([job], Some(query), Intended);
    assert s != [] by {
      assert job in s;
    }
    assert s[0] in s;
  }

  /** With one salary label ticked, a job is kept exactly when it matches it. */
  lemma KeepOneSalaryLabel(job: Job, reading: SalaryReading)
    ensures KeepJob(map["Salary" := ["40k-1lakh"]], job, reading) <==> SalaryAccepts(reading, job, "40k-1lakh")
  {
    var query := map["Salary" := ["40k-1lakh"]];
    assert query.Keys == {"Salary"};
    assert query["Salary"] == ["40k-1lakh"];
    assert TypeAccepts("Salary", ["40k-1lakh"], job, reading) <==> SalaryAccepts(reading, job, "40k-1lakh") by {
      assert forall v :: v in ["40k-1lakh"] <==> v == "40k-1lakh";
    }
  }

  // ---------------------------------------------------------------- page state

  /** A page number past the last page of a non-empty list shows an empty
      grid under a count line whose first number exceeds its second, and
      when the list fits on one page there are no controls to leave it. */
  lemma StalePageShowsNothing(filtered: seq<Job>, p: int)
    requires filtered != [] && p > TotalPages(|filtered|)
    ensures CurrentJobs(filtered, p) == []
    ensures ShowingFrom(p) > ShowingTo(p, |filtered|)
    ensures TotalPages(|filtered|) == 1 ==> !ShowsPagination(TotalPages(|filtered|))
  {
    PageContents(filtered, p);
  }

  /** The state of the jobs page: the filtered list and the page number. */
  class JobsView {
    var filterJobs: seq<Job>
    var currentPage: int

    /** The page number is never below 1: it starts at 1 and "Previous" is
        disabled on page 1. */
    predicate Valid()
      reads this
    {
      currentPage >= 1
    }

    function Pages(): nat
      reads this
    {
      TotalPages(|filterJobs|)
    }

    /** The jobs the grid shows. */
    function Shown(): seq<Job>
      reads this
    {
      CurrentJobs(filterJobs, currentPage)
    }

    /** The current page is one that exists. */
    predicate OnExistingPage()
      reads this
    {
      1 <= currentPage <= Pages()
    }

    constructor ()
      ensures Valid() && filterJobs == [] && currentPage == 1
    {
      filterJobs := [];
      currentPage := 1;
    }

    /** The filtering effect as written: it replaces the list with the
        page's own filter and keeps the page number. */
    method ApplyFilters(allJobs: seq<Job>, query: Option<Query>)
      modifies this`filterJobs
      ensures filterJobs == FilterJobs(allJobs, query, AsWritten)
      ensures currentPage == old(currentPage)
    {
      filterJobs := FilterJobs(allJobs, query, AsWritten);
    }

    /** The corrected effect: salaries are read as the rupee ranges the
        labels name, and a new list starts again on page 1, so a non-empty
        result is always on screen. */
    method ApplyFiltersResettingPage(allJobs: seq<Job>, query: Option<Query>)
      modifies this
      ensures Valid()
      ensures filterJobs == FilterJobs(allJobs, query, Intended) && currentPage == 1
      ensures filterJobs != [] ==> OnExistingPage() && Shown() != [] && Shown() <= filterJobs
    {
      filterJobs := FilterJobs(allJobs, query, Intended);
      currentPage := 1;
      PageContents(filterJobs, 1);
    }

    /** `paginate(pageNumber)`. */
    method Paginate(pageNumber: int)
      modifies this`currentPage
      ensures currentPage == pageNumber
    {
      currentPage := pageNumber;
    }

    /** A click on "Previous": it does something only while the controls are
        shown and the button is enabled, and it never leaves the pages that
        exist. */
    method ClickPrevious()
      requires Valid()
      modifies this`currentPage
      ensures Valid()
      ensures currentPage == if ShowsPagination(Pages()) && PreviousEnabled(old(currentPage))
                             then old(currentPage) - 1 else old(currentPage)
      ensures old(OnExistingPage()) ==> OnExistingPage()
    {
      if ShowsPagination(Pages()) && PreviousEnabled(currentPage) {
        Paginate(currentPage - 1);
      }
    }

    /** A click on "Next". */
    method ClickNext()
      requires Valid()
      modifies this`currentPage
      ensures Valid()
      ensures currentPage == if ShowsPagination(Pages()) && NextEnabled(old(currentPage), Pages())
                             then old(currentPage) + 1 else old(currentPage)
      ensures old(OnExistingPage()) ==> OnExistingPage()
    {
      if ShowsPagination(Pages()) && NextEnabled(currentPage, Pages()) {
        Paginate(currentPage + 1);
      }
    }

    /** A click on the item of page `k`: only a drawn page button reacts, and
        it moves to a page that exists. */
    method ClickPage(k: int)
      requires Valid()
      modifies this`currentPage
      ensures Valid()
      ensures var drawn := ShowsPagination(Pages()) && 1 <= k <= Pages()
                           && PageItems(old(currentPage), Pages())[k - 1].PageButton?;
              currentPage == if drawn then k else old(currentPage)
      ensures currentPage != old(currentPage) ==> OnExistingPage()
    {
      if ShowsPagination(Pages()) && 1 <= k <= Pages() && PageItems(currentPage, Pages())[k - 1].PageButton? {
        Paginate(k);
      }
    }
  }

  /** The stale page of the as-written effect: after moving to page 3 of 25
      jobs, a filter that leaves 5 jobs keeps page 3, which is empty and has
      no controls. */
  method StalePageScenario(all25: seq<Job>, query: Option<Query>) returns (view: JobsView)
    requires |all25| == 25 && |FilterJobs(all25, query, AsWritten)| == 5
    ensures view.filterJobs == FilterJobs(all25, query, AsWritten) && view.currentPage == 3
    ensures view.Shown() == [] && !ShowsPagination(view.Pages())
    ensures ShowingFrom(view.currentPage) == 21 && ShowingTo(view.currentPage, |view.filterJobs|) == 5
  {
    view := new JobsView();
    view.ApplyFilters(all25, None);
    view.ClickNext();
    view.ClickNext();
    view.ApplyFilters(all25, query);
    StalePageShowsNothing(view.filterJobs, view.currentPage);
  }
}
