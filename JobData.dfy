/** A job posting as the client receives it from the jobs API. Every field
    may be missing from the document (`None`, JavaScript's `undefined`). */
module JobData {
  import opened Wrappers

  /** One entry of a job's `applications` list. */
  datatype Application = Application(applicant: Option<string>)

  datatype Job = Job(
    id: string,
    title: Option<string>,
    description: Option<string>,
    location: Option<string>,
    jobType: Option<string>,
    workMode: Option<string>,
    jobLevel: Option<string>,
    duration: Option<string>,
    experienceLevel: Option<string>,
    salaryMin: Option<int>,
    salaryMax: Option<int>,
    salaryCurrency: Option<string>,
    position: Option<int>,
    companyName: Option<string>,  // `company.name` of the populated company
    createdAt: Option<string>,    // ISO-8601 text, as stored
    applications: Option<seq<Application>>)

  /** JavaScript truthiness of an optional string: present and non-empty. */
  predicate TruthyText(v: Option<string>) {
    v.Some? && v.value != ""
  }

  /** JavaScript truthiness of an optional number: present and non-zero. */
  predicate TruthyNumber(v: Option<int>) {
    v.Some? && v.value != 0
  }
}
