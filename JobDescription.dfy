/** The job detail page: whether the signed-in user has applied, the apply
    action's effect on the page state, the salary text and the applicant
    count. */
module JobDescription {
  import opened Wrappers
  import opened Text
  import opened JobData

  // ---------------------------------------------------------------- applied

  /** `applications?.some(a => a.applicant === userId) || false`. A missing
      applicant and a missing user id are both `undefined`, and equal. */
  predicate IsApplied(applications: Option<seq<Application>>, userId: Option<string>) {
    applications.Some? && exists a | a in applications.value :: a.applicant == userId
  }

  /** Adding the user's own application makes the check hold, and adding
      someone else's leaves it as it was. */
  lemma IsAppliedAfterAppend(apps: seq<Application>, userId: Option<string>, other: Option<string>)
    ensures IsApplied(Some(apps + [Application(userId)]), userId)
    ensures other != userId ==>
              (IsApplied(Some(apps + [Application(other)]), userId) <==> IsApplied(Some(apps), userId))
  {
    assert Application(userId) in apps + [Application(userId)];
    if other != userId {
      var s := apps + [Application(other)];
      if IsApplied(Some(s), userId) {
        var a :| a in s && a.applicant == userId;
        assert a in apps;
      }
      if IsApplied(Some(apps), userId) {
        var a :| a in apps && a.applicant == userId;
        assert a in s;
      }
    }
  }

  /** The applicant count: `applications?.length || 0`. */
  function ApplicantCount(applications: Option<seq<Application>>): (n: nat)
    ensures applications.None? ==> n == 0
    ensures applications.Some? ==> n == |applications.value|
  {
    if applications.Some? then |applications.value| else 0
  }

  /** The page's state for one job. */
  class JobDetail {
    var singleJob: Job
    var isApplied: bool
    var isLoading: bool
    const userId: Option<string>

    /** The button state agrees with the job's list of applications. */
    predicate Agrees()
      reads this
    {
      isApplied == IsApplied(singleJob.applications, userId)
    }

    constructor (job: Job, user: Option<string>)
      ensures singleJob == job && userId == user && !isLoading
      ensures Agrees()
    {
      singleJob := job;
      userId := user;
      isApplied := IsApplied(job.applications, user);
      isLoading := false;
    }

    /** `applyJobHandler`, with `success` the server's answer (`false` for a
        failed request). On success the button turns to "applied" at once;
        the user's application is then appended to the job. When the job has
        no `applications` list that append throws a TypeError; the catch
        block throws again (the error has no `response`), the job is kept and
        `finally` still clears the loading flag. Nothing else about the job
        changes. */
    method ApplyJob(success: bool)
      modifies this`singleJob, this`isApplied, this`isLoading
      ensures !isLoading
      ensures isApplied == (old(isApplied) || success)
      ensures singleJob == if success && old(singleJob).applications.Some?
                           then old(singleJob).(applications := Some(old(singleJob).applications.value + [Application(userId)]))
                           else old(singleJob)
      ensures success && old(singleJob).applications.Some? ==> Agrees()
      ensures success ==> isApplied && ApplicantCount(singleJob.applications) == ApplicantCount(old(singleJob).applications) + (if old(singleJob).applications.Some? then 1 else 0)
      ensures !success ==> isApplied == old(isApplied) && singleJob == old(singleJob)
    {
      isLoading := true;
      if success {
        isApplied := true;
        if singleJob.applications.Some? {
          var apps := singleJob.applications.value;
          singleJob := singleJob.(applications := Some(apps + [Application(userId)]));
          IsAppliedAfterAppend(apps, userId, userId);
        }
      }
      isLoading := false;
    }

    /** The fetch effect: the fetched job replaces the page's job, and the
        applied flag is recomputed from it (a job without an
        `applications` list throws, caught, before the flag is set). */
    method Fetched(job: Job)
      modifies this`singleJob, this`isApplied
      ensures singleJob == job
      ensures isApplied == if job.applications.Some? then IsApplied(job.applications, userId) else old(isApplied)
      ensures job.applications.Some? ==> Agrees()
    {
      singleJob := job;
      if job.applications.Some? {
        isApplied := IsApplied(job.applications, userId);
      }
    }
  }

  // ---------------------------------------------------------------- salary text

  /** `formatNumber`: the amount itself below 1000, whole thousands with a
      "K" below 100000, tenths of a lakh with an "L" from there on. The
      "K" and "L" amounts are rounded to the nearest unit, halves upward. */
  function FormatNumber(n: int): string {
    if n >= 100000 then
      var tenths := (n + 5000) / 10000;
      NatToString(tenths / 10) + "." + [DigitChar(tenths % 10)] + "L"
    else if n >= 1000 then NatToString((n + 500) / 1000) + "K"
    else IntToString(n)
  }

  /** The three tiers of `formatNumber`, each read back: below 1000 the text
      is the amount, in the "K" tier its digits are the amount in thousands
      to the nearest one, and in the "L" tier the digits around the point
      are the amount in lakhs to the nearest tenth. */
  lemma FormatNumberTiers(n: int)
    ensures n < 1000 ==> FormatNumber(n) == IntToString(n)
    ensures 1000 <= n < 100000 ==>
              var t := FormatNumber(n);
              && t[|t| - 1] == 'K'
              && ParseInt(t).Some?
              && var k := ParseInt(t).value; k * 1000 - 500 <= n < k * 1000 + 500
    ensures n >= 100000 ==>
              var t := FormatNumber(n);
              var parts := Split(t[..|t| - 1], '.');
              && t[|t| - 1] == 'L' && |parts| == 2
              && ParseInt(parts[0]).Some? && ParseInt(parts[1]).Some?
              && var tenths := ParseInt(parts[0]).value * 10 + ParseInt(parts[1]).value;
                 tenths * 10000 - 5000 <= n < tenths * 10000 + 5000
  {
    if 1000 <= n < 100000 {
      var k := (n + 500) / 1000;
      var s := NatToString(k);
      assert FormatNumber(n)[..|s|] == s;
      assert LeadingDigits(FormatNumber(n)) == s by {
        LeadingOfDigitsThen(s, "K");
        assert FormatNumber(n) == s + "K";
      }
      DigitsRoundTrip(k);
    } else if n >= 100000 {
      var tenths := (n + 5000) / 10000;
      var a := NatToString(tenths / 10);
      var d := [DigitChar(tenths % 10)];
      var t := FormatNumber(n);
      assert t == a + "." + d + "L";
      assert t[..|t| - 1] == a + ['.'] + d;
      assert '.' !in a by {
        assert forall i | 0 <= i < |a| :: IsDigit(a[i]);
      }
      SplitAfterPiece(a, d, '.');
      SplitSepFree(d, '.');
      ParseIntRoundTrip(tenths / 10);
      assert NatToString(tenths % 10) == d;
      ParseIntRoundTrip(tenths % 10);
    }
  }

  /** `formatSalary(min, max, currency = "INR")`: the parameter default
      applies only to a missing currency. */
  function FormatSalary(min: Option<int>, max: Option<int>, currency: Option<string>): string {
    if TruthyNumber(min) && TruthyNumber(max) then
      FormatNumber(min.value) + " - " + FormatNumber(max.value) + " " + currency.GetOr("INR")
    else "Not disclosed"
  }

  /** "Not disclosed" exactly when a bound is missing or zero; otherwise the
      text is the lower amount, " - ", the upper amount, a space and the
      currency ("INR" when none is given), each at its place; a currency
      without spaces makes the text split on spaces into exactly those four
      words. */
  lemma FormatSalaryShape(min: Option<int>, max: Option<int>, currency: Option<string>)
    ensures FormatSalary(min, max, currency) == "Not disclosed" <==> !TruthyNumber(min) || !TruthyNumber(max)
    ensures TruthyNumber(min) && TruthyNumber(max) ==>
              var c := currency.GetOr("INR");
              var t := FormatSalary(min, max, currency);
              var a := FormatNumber(min.value);
              var b := FormatNumber(max.value);
              && |t| == |a| + 3 + |b| + 1 + |c|
              && t[..|a|] == a
              && t[|a|..|a| + 3] == " - "
              && t[|a| + 3..|a| + 3 + |b|] == b
              && t[|t| - |c| - 1..] == " " + c
    ensures TruthyNumber(min) && TruthyNumber(max) && ' ' !in currency.GetOr("INR") ==>
              Split(FormatSalary(min, max, currency), ' ')
                == [FormatNumber(min.value), "-", FormatNumber(max.value), currency.GetOr("INR")]
  {
    if TruthyNumber(min) && TruthyNumber(max) {
      var c := currency.GetOr("INR");
      SalaryTextShape(FormatNumber(min.value), FormatNumber(max.value), c);
      if ' ' !in c {
        FormatNumberNoSpace(min.value);
        FormatNumberNoSpace(max.value);
        SalaryTextWords(FormatNumber(min.value), FormatNumber(max.value), c);
      }
    }
  }

  /** Where each piece of "a - b c" sits, for any pieces. */
  lemma SalaryTextShape(a: string, b: string, c: string)
    ensures var t := a + " - " + b + " " + c;
            && t != "Not disclosed"
            && |t| == |a| + 3 + |b| + 1 + |c|
            && t[..|a|] == a
            && t[|a|..|a| + 3] == " - "
            && t[|a| + 3..|a| + 3 + |b|] == b
            && t[|t| - |c| - 1..] == " " + c
  {
    var m := a + " - " + b;
    var t := m + " " + c;
    assert t[..|m|] == m;
    assert m[..|a|] == a && m[|a|..|a| + 3] == " - " && m[|a| + 3..] == b;
    assert t[|a| + 1] == '-';
    assert '-' !in "Not disclosed";
  }

  /** "a - b c" splits on spaces into its four words when no piece holds a
      space. */
  lemma SalaryTextWords(a: string, b: string, c: string)
    requires ' ' !in a && ' ' !in b && ' ' !in c
    ensures Split(a + " - " + b + " " + c, ' ') == [a, "-", b, c]
  {
    assert a + " - " + b + " " + c == a + [' '] + ("-" + [' '] + (b + [' '] + c));
    SplitAfterPiece(a, "-" + [' '] + (b + [' '] + c), ' ');
    SplitAfterPiece("-", b + [' '] + c, ' ');
    SplitAfterPiece(b, c, ' ');
    SplitSepFree(c, ' ');
  }

  /** No amount text holds a space. */
  lemma FormatNumberNoSpace(n: int)
    ensures ' ' !in FormatNumber(n)
  {
    var t := FormatNumber(n);
    if n >= 100000 {
      var tenths := (n + 5000) / 10000;
      var a := NatToString(tenths / 10);
      assert t == a + "." + [DigitChar(tenths % 10)] + "L";
      assert forall i | 0 <= i < |a| :: IsDigit(a[i]);
    } else if n >= 1000 {
      var a := NatToString((n + 500) / 1000);
      assert t == a + "K";
      assert forall i | 0 <= i < |a| :: IsDigit(a[i]);
    } else if n < 0 {
      var a := NatToString(-n);
      assert t == "-" + a;
      assert forall i | 0 <= i < |a| :: IsDigit(a[i]);
    } else {
      var a := NatToString(n);
      assert forall i | 0 <= i < |a| :: IsDigit(a[i]);
    }
  }
}
