/** The recruiter's table of their own postings: a text search over title
    and company name, and the salary and posted-date cells of each row. */
module AdminJobsTable {
  import opened Wrappers
  import opened Text
  import opened Seqs
  import opened JobData
  import Jobs

  // ---------------------------------------------------------------- search

  /** The search predicate: a blank search keeps every job; otherwise the
      lower-cased title or company name must contain the lower-cased search
      text, which is not trimmed for this comparison. */
  predicate SearchKeeps(search: string, job: Job) {
    Trim(search) == [] || Jobs.TextMatches(job.title, search) || Jobs.TextMatches(job.companyName, search)
  }

  /** The effect's `filtered`, with the store's defaults: missing jobs are
      `[]` and a missing search text is `""`. */
  function SearchJobs(allAdminJobs: Option<seq<Job>>, searchJobByText: Option<string>): (r: seq<Job>)
    ensures IsSubsequence(r, allAdminJobs.GetOr([]))
    ensures forall j :: j in r <==> j in allAdminJobs.GetOr([]) && SearchKeeps(searchJobByText.GetOr(""), j)
    ensures forall j :: multiset(r)[j] ==
              if SearchKeeps(searchJobByText.GetOr(""), j) then multiset(allAdminJobs.GetOr([]))[j] else 0
  {
    var search := searchJobByText.GetOr("");
    Filter(allAdminJobs.GetOr([]), (j: Job) => SearchKeeps(search, j))
  }

  /** A missing job list shows nothing. */
  lemma NoJobsNoRows(searchJobByText: Option<string>)
    ensures SearchJobs(None, searchJobByText) == []
  {
  }

  /** A search of white space only (or none at all) lists every job, in
      order. */
  lemma BlankSearchKeepsAll(jobs: seq<Job>, search: Option<string>)
    requires search.None? || AllSpace(search.value)
    ensures SearchJobs(Some(jobs), search) == jobs
  {
    var s := search.GetOr("");
    assert AllSpace(s);
    TrimEmptyIff(s);
    FilterAllPass(jobs, (j: Job) => SearchKeeps(s, j));
  }

  /** Because the search text is not trimmed before matching, a non-blank
      search longer than both the title and the company name (say "dev "
      against the title "dev") finds nothing. */
  lemma UntrimmedSearchTooLong(search: string, job: Job)
    requires !AllSpace(search)
    requires job.title.None? || |job.title.value| < |search|
    requires job.companyName.None? || |job.companyName.value| < |search|
    ensures !SearchKeeps(search, job)
  {
    TrimEmptyIff(search);
  }

  // ---------------------------------------------------------------- salary cell

  const Rupee: char := '₹'

  /** The salary cell: both bounds when both are truthy, otherwise whichever
      one is, otherwise "N/A". */
  function SalaryCell(job: Job): string {
    if TruthyNumber(job.salaryMin) && TruthyNumber(job.salaryMax) then
      [Rupee] + IntToString(job.salaryMin.value) + " - " + [Rupee] + IntToString(job.salaryMax.value)
    else if TruthyNumber(job.salaryMin) then [Rupee] + IntToString(job.salaryMin.value)
    else if TruthyNumber(job.salaryMax) then [Rupee] + IntToString(job.salaryMax.value)
    else "N/A"
  }

  /** "N/A" exactly when neither bound is truthy; every other cell starts
      with the rupee sign. */
  lemma SalaryCellNA(job: Job)
    ensures SalaryCell(job) == "N/A" <==> !TruthyNumber(job.salaryMin) && !TruthyNumber(job.salaryMax)
    ensures SalaryCell(job) != "N/A" ==> SalaryCell(job)[0] == Rupee
  {
    if SalaryCell(job) != "N/A" {
      assert SalaryCell(job)[0] == Rupee;
    } else {
      assert "N/A"[0] != Rupee;
    }
  }

  /** With two positive bounds the cell reads back as its three words, the
      amounts in them being the bounds. */
  lemma SalaryCellReadsBack(job: Job)
    requires job.salaryMin.Some? && job.salaryMin.value > 0
    requires job.salaryMax.Some? && job.salaryMax.value > 0
    ensures var words := Split(SalaryCell(job), ' ');
            && |words| == 3 && words[1] == "-" && |words[0]| > 0 && |words[2]| > 0
            && words[0][0] == Rupee && words[2][0] == Rupee
            && ParseInt(words[0][1..]) == job.salaryMin
            && ParseInt(words[2][1..]) == job.salaryMax
  {
    var a, b := NatToString(job.salaryMin.value), NatToString(job.salaryMax.value);
    var parts := [[Rupee] + a, "-", [Rupee] + b];
    assert SalaryCell(job) == Join(parts, ' ') by {
      assert Join(parts[2..], ' ') == [Rupee] + b;
      assert Join(parts[1..], ' ') == "-" + [' '] + [Rupee] + b;
    }
    forall p | p in parts ensures ' ' !in p {
      assert forall i | 0 <= i < |a| :: IsDigit(a[i]);
      assert forall i | 0 <= i < |b| :: IsDigit(b[i]);
    }
    SplitJoin(parts, ' ');
    assert parts[0][1..] == a && parts[2][1..] == b;
    ParseIntRoundTrip(job.salaryMin.value);
    ParseIntRoundTrip(job.salaryMax.value);
  }

  /** With exactly one truthy bound the cell is that bound alone. */
  lemma SalaryCellOneBound(job: Job)
    requires TruthyNumber(job.salaryMin) != TruthyNumber(job.salaryMax)
    ensures var v := if TruthyNumber(job.salaryMin) then job.salaryMin.value else job.salaryMax.value;
            SalaryCell(job) == [Rupee] + IntToString(v) && ' ' !in SalaryCell(job)
  {
    var v := if TruthyNumber(job.salaryMin) then job.salaryMin.value else job.salaryMax.value;
    var t := IntToString(v);
    var n := NatToString(if v < 0 then -v else v);
    assert forall i | 0 <= i < |n| :: IsDigit(n[i]);
    assert t == (if v < 0 then "-" else "") + n;
    assert forall i | 0 <= i < |t| :: t[i] != ' ';
  }

  // ---------------------------------------------------------------- posted date

  /** `createdAt?.split("T")[0] || "N/A"`. */
  function PostedDate(createdAt: Option<string>): string {
    if createdAt.None? then "N/A"
    else
      var date := Split(createdAt.value, 'T')[0];
      if date == "" then "N/A" else date
  }

  /** The posted date is the text of `createdAt` before its first "T"; it is
      "N/A" when `createdAt` is missing or that text is empty. */
  lemma PostedDateIsPrefix(createdAt: string)
    ensures createdAt == [] || createdAt[0] == 'T' ==> PostedDate(Some(createdAt)) == "N/A"
    ensures createdAt != [] && createdAt[0] != 'T' ==>
              var d := PostedDate(Some(createdAt));
              d != "" && d <= createdAt && 'T' !in d && (|d| == |createdAt| || createdAt[|d|] == 'T')
  {
    var parts := Split(createdAt, 'T');
    JoinSplitPrefix(createdAt, 'T', 1);
    assert parts[..1] == [parts[0]];
    var d := parts[0];
    JoinSplit(createdAt, 'T');
    if |parts| > 1 {
      JoinAt(parts, 'T', 1);
      assert createdAt == d + ['T'] + Join(parts[1..], 'T');
      assert createdAt[|d|] == 'T';
    } else {
      assert parts == [d];
    }
    if createdAt != [] && createdAt[0] == 'T' {
      assert d == [];
    }
    if createdAt != [] && createdAt[0] != 'T' {
      assert d != [];
    }
  }

  /** An ISO timestamp gives its date part. */
  lemma PostedDateOfTimestamp(date: string, time: string)
    requires date != "" && 'T' !in date
    ensures PostedDate(Some(date + "T" + time)) == date
  {
    SplitAfterPiece(date, time, 'T');
  }
}
