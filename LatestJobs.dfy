/** The home page's "latest jobs" grid: the first six jobs of the store. */
module LatestJobs {
  import opened Wrappers
  import opened Seqs
  import opened JobData

  const MaxLatest: nat := 6

  /** `selectJobs` (a missing list is `[]`) followed by `slice(0, 6)`: the
      first six jobs, in store order, or all of them when there are fewer. */
  function DisplayedJobs(allJobs: Option<seq<Job>>): (r: seq<Job>)
    ensures r <= allJobs.GetOr([])
    ensures |r| == if |allJobs.GetOr([])| < MaxLatest then |allJobs.GetOr([])| else MaxLatest
  {
    Take(allJobs.GetOr([]), MaxLatest)
  }

  /** "No Jobs Available" is shown exactly when the store has no jobs. */
  predicate ShowsNoJobs(allJobs: Option<seq<Job>>) {
    |DisplayedJobs(allJobs)| == 0
  }

  lemma NoJobsIff(allJobs: Option<seq<Job>>)
    ensures ShowsNoJobs(allJobs) <==> allJobs.None? || allJobs.value == []
  {
  }
}
