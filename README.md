# Careero job board — a verified Dafny model of its core rules

Careero is a job board with two kinds of users. Job seekers browse and filter
postings, apply to them, chat with an assistant and rehearse in a mock
interview. Recruiters list their own postings. Most of the code is React
screens and calls to hosted language models. This project models the rules
inside that code that can be stated exactly, and proves properties about them:

- **The job search page.** The filter panel builds its facets from the job
  list: unique values, salary tiers, at most ten titles. It keeps the ticked
  values per filter type and a single open accordion. The page keeps a job
  when every filter type with a selection has at least one matching value.
  Text filters match by case-insensitive substring, and salary labels are
  parsed into ranges. The page shows ten jobs at a time, with a
  "Showing a-b of n" line and a strip of page buttons with ellipses.
- **Smaller listings.** The recruiter's table has a text search, a salary
  cell and a posted-date cell. The home page's "latest jobs" grid shows six
  jobs.
- **A job card.** It shows a "posted N days ago" badge and its colour, a
  29-word description preview and a pluralised positions badge.
- **The job detail page.** It computes the applied flag, applies the apply
  action's effect and formats salaries in K and L units.
- **Home page state.** The FAQ toggle and the hover/lock flip-card state.
- **The chat widget.** Sending is trimmed and appended. The visitor's role
  is detected once and is sticky. The greeting arrives once, and an unread
  dot is kept.
- **The mock-interview service.** Interviews sit in a store keyed by id.
  Handlers create an interview, record an evaluated answer, add a question,
  summarise and finish. Answers are refused once an interview is finished.
  For the summary, answers are sorted stably by question index into the
  summary prompt.
- **The interview screen.** A two-minute countdown shown as "m:ss".
  Starting an interview keeps only the first question. Submitting sends the
  current question's index and text. Each next question is appended and
  becomes current. Finishing and starting over complete the screen.
- **The résumé analysis helpers.** Text is extracted according to the file's
  mimetype. The helpers also normalise the model's JSON reply onto a schema
  with defaults.

Language models, the database, HTTP and the browser are not modelled.
Instead, each reply a handler awaits is a parameter of that handler, with
`None` for a failed request. `JSON.parse`, the PDF and DOCX extractors and
the language model are function parameters. Times are integer milliseconds.
JavaScript's `undefined` is `Option.None` throughout. The rules of
truthiness, `parseInt`, `slice`, `trim`, `split`/`join` and default
parameters are written out in `Text.dfy`, `Seqs.dfy` and `JsonValue.dfy`.

The files are `Wrappers.dfy`, `Text.dfy`, `Seqs.dfy`, `JsonValue.dfy` and
`JobData.dfy` (the shared helpers and the job record). Then come one module
per source file: `FilterCard.dfy`, `JobsPage.dfy` (module `Jobs`),
`AdminJobsTable.dfy`, `LatestJobs.dfy`, `JobCard.dfy`, `JobDescription.dfy`,
`Home.dfy`, `Chatbot.dfy`, `InterviewServer.dfy`, `InterviewSession.dfy` and
`ResumeExtract.dfy`.

The salary filter in `Jobs` takes a `SalaryReading`. `AsWritten` is the
page's own test: the label keeps only its digits and `-`, so its units are
lost. The page's filtering effect, `JobsView.ApplyFilters`, uses this one.
`Intended` reads the label as a range in rupees. It is used only by
`JobsView.ApplyFiltersResettingPage`, the corrected effect. Lemmas show
where the two readings differ (see Findings).

## Model

| member | source | states |
|---|---|---|
| FilterCard.TruthyTexts | client/src/components/Jobs/FilterCard.jsx:20-37 | `map(field).filter(Boolean)` on a text field: a value is listed iff some job has it and it is not empty, and the values keep the jobs' order |
| FilterCard.TruthyNumbers | client/src/components/Jobs/FilterCard.jsx:40-41 | the salary lists hold exactly the non-zero values some job has |
| FilterCard.MinOf | client/src/components/Jobs/FilterCard.jsx:44 | `Math.min(...)` of a non-empty list is an element no larger than any other |
| FilterCard.MaxOf | client/src/components/Jobs/FilterCard.jsx:45 | `Math.max(...)` of a non-empty list is an element no smaller than any other |
| FilterCard.TruthyMinsNonEmpty | client/src/components/Jobs/FilterCard.jsx:40-43 | the salary lists are non-empty iff some job has a truthy minimum (resp. maximum) |
| FilterCard.SalaryRangesTiers | client/src/components/Jobs/FilterCard.jsx:39-64 | no salary labels iff no truthy minimum or no truthy maximum; otherwise 1, 2, 3 or 8 labels, starting with "0-40k" |
| FilterCard.SalaryRangesExtremes | client/src/components/Jobs/FilterCard.jsx:43-64 | all truthy maxima at most 40000 give only "0-40k"; a truthy maximum above 500000 gives all eight labels |
| FilterCard.TypesOfSubsequence | client/src/components/Jobs/FilterCard.jsx:104 | dropping groups keeps the remaining filter types in order |
| FilterCard.FilterDataShape | client/src/components/Jobs/FilterCard.jsx:17-104 | no jobs give no groups; the groups come in the fixed filter-type order, every one non-empty, and every non-empty group is kept |
| FilterCard.UniqueValuesSpec | client/src/components/Jobs/FilterCard.jsx:20-69 | `[...new Set(...)]`: no repeats, exactly the truthy field values, in order of first appearance |
| FilterCard.TitleGroupBound | client/src/components/Jobs/FilterCard.jsx:80-83 | the title group holds at most 10 titles, all distinct, each the title of some job |
| FilterCard.FilterPanel.constructor | client/src/components/Jobs/FilterCard.jsx:9-11 | nothing selected, no accordion open, no active type |
| FilterCard.FilterPanel.ToggleAccordion | client/src/components/Jobs/FilterCard.jsx:107-121 | an open accordion closes and the rest is kept; a closed one opens alone; at most one is ever open |
| FilterCard.FilterPanel.HandleCheckboxChange | client/src/components/Jobs/FilterCard.jsx:123-138 | ticking appends the value to that type's list; unticking removes every copy and keeps the others in order; other types are untouched |
| FilterCard.FilterPanel.ClearFilters | client/src/components/Jobs/FilterCard.jsx:140-144 | selection, accordions and active type are all reset |
| FilterCard.FilterPanel.ToggleMobileFilter | client/src/components/Jobs/FilterCard.jsx:146-160 | the active type is cleared if it was this one, else becomes this one |
| Jobs.NoQueryKeepsAll | client/src/components/Jobs/Jobs.jsx:14-68 | a missing query or one without filter types shows `allJobs` unchanged |
| Jobs.FilterJobsSpec | client/src/components/Jobs/Jobs.jsx:14-65 | for either salary reading: the result is an order-preserving subsequence; a job is in it iff every filter type accepts it; multiplicities are kept |
| Jobs.EmptySelectionsKeepAll | client/src/components/Jobs/Jobs.jsx:18-19 | a query whose lists are all empty filters nothing out |
| Jobs.MissingFieldFails | client/src/components/Jobs/Jobs.jsx:22-59 | a job without the field never passes a non-empty text selection |
| Jobs.UnknownTypeAccepts | client/src/components/Jobs/Jobs.jsx:60-61 | a filter type outside the known ones accepts every job |
| Jobs.TextMatchIgnoresCase | client/src/components/Jobs/Jobs.jsx:23-24 | a lower-case occurrence matches whatever the case of either side |
| Jobs.SalaryWithoutDashMatchesNothing | client/src/components/Jobs/Jobs.jsx:46-53 | a value without `-` has no upper bound and matches no job |
| Jobs.SalaryDigitsConcat | client/src/components/Jobs/Jobs.jsx:49 | the `/[^\d-]/g` removal distributes over concatenation |
| Jobs.SalaryDigitsKeep | client/src/components/Jobs/Jobs.jsx:49 | text of digits and `-` only is kept whole |
| Jobs.SalaryDigitsDrop | client/src/components/Jobs/Jobs.jsx:49 | text without digits or `-` is removed entirely |
| Jobs.SalaryRangeParse | client/src/components/Jobs/Jobs.jsx:48-51 | "a⟨unit⟩-b⟨unit⟩" parses to the bounds a and b whatever the units |
| Jobs.SalaryOpenParse | client/src/components/Jobs/Jobs.jsx:48-51 | a value with one number parses to that lower bound and no upper one |
| Jobs.ParsedLabel0_40k | client/src/components/Jobs/Jobs.jsx:48-51 | "0-40k" is read as 0 to 40 |
| Jobs.ParsedLabel40k_1lakh | client/src/components/Jobs/Jobs.jsx:48-51 | "40k-1lakh" is read as 40 to 1 |
| Jobs.ParsedLabel1lakh_5lakh | client/src/components/Jobs/Jobs.jsx:48-51 | "1lakh-5lakh" is read as 1 to 5 |
| Jobs.ParsedLabel1_10lakh | client/src/components/Jobs/Jobs.jsx:48-51 | "1-10lakh" is read as 1 to 10 |
| Jobs.ParsedLabel10_20lakh | client/src/components/Jobs/Jobs.jsx:48-51 | "10-20lakh" is read as 10 to 20 |
| Jobs.ParsedLabel20_30lakh | client/src/components/Jobs/Jobs.jsx:48-51 | "20-30lakh" is read as 20 to 30 |
| Jobs.ParsedLabel30_40lakh | client/src/components/Jobs/Jobs.jsx:48-51 | "30-40lakh" is read as 30 to 40 |
| Jobs.ParsedLabel40_50lakh | client/src/components/Jobs/Jobs.jsx:48-51 | "40-50lakh" is read as 40 to 50 |
| Jobs.ParsedLabel50lakhPlus | client/src/components/Jobs/Jobs.jsx:48-51 | "50lakh+" is read as 50 with no upper bound |
| Jobs.SalaryLabelAsParsed | client/src/components/Jobs/Jobs.jsx:46-53 | every label the panel offers reads as a lower bound of at most 50 and an upper bound of at most 50; only "50lakh+" lacks an upper bound |
| Jobs.AsWrittenSalaryFilterMissesRealSalaries | client/src/components/Jobs/Jobs.jsx:46-53 | as written, no panel label matches a job whose maximum exceeds 50 |
| Jobs.SalaryUnitsCounterexample | client/src/components/Jobs/Jobs.jsx:46-53 | a 50000-80000 job fails "40k-1lakh" as written and matches it as intended |
| Jobs.KeepOneSalaryLabel | client/src/components/Jobs/Jobs.jsx:16-53 | under a query with only the "40k-1lakh" salary label, a job is kept iff that label accepts it |
| Jobs.AsWrittenFilterHidesJob | client/src/components/Jobs/Jobs.jsx:14-65 | the page filter as written drops a 50000-80000 job under "40k-1lakh"; the intended reading keeps it |
| Jobs.IntendedLabelsCoverEverySalary | client/src/components/Jobs/FilterCard.jsx:53-62 | under the intended reading, a job with one salary amount, any number of rupees, is found by some label of the wide list |
| Jobs.TotalPages | client/src/components/Jobs/Jobs.jsx:77 | `Math.ceil(n / 10)`: the fewest pages of ten holding n jobs; 0 iff n is 0 |
| Jobs.PageContents | client/src/components/Jobs/Jobs.jsx:12-73 | page p is the p-th block of ten, cut at the end; at most ten jobs, exactly ten before the last page, non-empty iff p ≤ totalPages |
| Jobs.PagesUpToPrefix | client/src/components/Jobs/Jobs.jsx:71-73 | pages 1..k together are the first 10k jobs |
| Jobs.PagesCoverAll | client/src/components/Jobs/Jobs.jsx:71-77 | pages 1..totalPages show every job exactly once, in order |
| Jobs.ShowingMatchesPage | client/src/components/Jobs/Jobs.jsx:126-128 | on an existing page the count line names exactly the positions shown |
| Jobs.PageItems | client/src/components/Jobs/Jobs.jsx:159-194 | one item per page number |
| Jobs.PageItemsShape | client/src/components/Jobs/Jobs.jsx:159-194 | a page gets a button iff it is the first, the last or within one of the current page, each at its own number; an ellipsis iff it has no button and is exactly two away from the current page; only the current page is highlighted; nothing else is drawn |
| Jobs.OneHighlighted | client/src/components/Jobs/Jobs.jsx:171-178 | exactly one button is highlighted iff the current page exists |
| Jobs.HiddenPagesFlagged | client/src/components/Jobs/Jobs.jsx:180-190 | a page without an item has an ellipsis between it and the current page |
| Jobs.StalePageShowsNothing | client/src/components/Jobs/Jobs.jsx:71-77 | past the last page, the grid is empty, the count line's first number exceeds its second, and a one-page list has no controls |
| Jobs.JobsView.constructor | client/src/components/Jobs/Jobs.jsx:10-11 | no jobs, page 1 |
| Jobs.JobsView.ApplyFilters | client/src/components/Jobs/Jobs.jsx:14-69 | the effect as written: the list becomes the jobs the page's own filter keeps, salaries read as written, and the page number is kept |
| Jobs.JobsView.ApplyFiltersResettingPage | client/src/components/Jobs/Jobs.jsx:14-69 | the corrected effect: salary labels read as rupee ranges, page 1, on which a non-empty result is visible |
| Jobs.JobsView.Paginate | client/src/components/Jobs/Jobs.jsx:75 | the page becomes the given number |
| Jobs.JobsView.ClickPrevious | client/src/components/Jobs/Jobs.jsx:147-157 | goes back one page only when the controls show and the page is not 1; an existing page stays existing |
| Jobs.JobsView.ClickNext | client/src/components/Jobs/Jobs.jsx:194-202 | goes forward one page only when the controls show and the page is not the last; an existing page stays existing |
| Jobs.JobsView.ClickPage | client/src/components/Jobs/Jobs.jsx:159-178 | only a drawn button reacts, and it moves to an existing page |
| Jobs.StalePageScenario | client/src/components/Jobs/Jobs.jsx:14-77 | 25 jobs, page 3, then a filter leaving 5: page 3 is kept, empty, shows "Showing 21-5" and has no controls |
| AdminJobsTable.SearchJobs | client/src/pages/Provider/AdminJobsTable.jsx:37-62 | the rows are an order-preserving subsequence, a job is listed iff the search keeps it, and a kept job appears as many times as in the store |
| AdminJobsTable.NoJobsNoRows | client/src/pages/Provider/AdminJobsTable.jsx:37-39 | a missing job list shows no rows |
| AdminJobsTable.BlankSearchKeepsAll | client/src/pages/Provider/AdminJobsTable.jsx:51 | a missing or all-blank search lists every job, in order |
| AdminJobsTable.UntrimmedSearchTooLong | client/src/pages/Provider/AdminJobsTable.jsx:51-57 | the untrimmed search text must fit inside the title or company name |
| AdminJobsTable.SalaryCellNA | client/src/pages/Provider/AdminJobsTable.jsx:150-156 | "N/A" iff neither bound is truthy; any other cell starts with ₹ |
| AdminJobsTable.SalaryCellReadsBack | client/src/pages/Provider/AdminJobsTable.jsx:150-151 | with two positive bounds the cell reads back as "₹min - ₹max" |
| AdminJobsTable.SalaryCellOneBound | client/src/pages/Provider/AdminJobsTable.jsx:152-155 | with one truthy bound the cell is that bound alone |
| AdminJobsTable.PostedDateIsPrefix | client/src/pages/Provider/AdminJobsTable.jsx:161 | the date is the text of `createdAt` before its first "T", or "N/A" when that is empty |
| AdminJobsTable.PostedDateOfTimestamp | client/src/pages/Provider/AdminJobsTable.jsx:161 | an ISO timestamp gives its date part |
| LatestJobs.DisplayedJobs | client/src/components/LatestJobs/LatestJobs.jsx:6-13 | the first min(n, 6) jobs of the store, in order; a missing list is empty |
| LatestJobs.NoJobsIff | client/src/components/LatestJobs/LatestJobs.jsx:25-28 | "No Jobs Available" iff the store has no jobs |
| JobCard.DaysAgo | client/src/components/job/Job.jsx:11-16 | the whole days elapsed, rounded down; `None` (NaN) iff there is no creation time |
| JobCard.DaysAgoSteps | client/src/components/job/Job.jsx:11-16 | under a day is 0; a day later is one more |
| JobCard.BadgeTodayIff | client/src/components/job/Job.jsx:25-33 | "Today" iff 0 days, iff the green tier; a future date (negative count) gets the blue tier |
| JobCard.ShortDescriptionShownWhole | client/src/components/job/Job.jsx:61-62 | up to 29 words: shown whole, no "..." |
| JobCard.LongDescriptionCut | client/src/components/job/Job.jsx:61-62 | longer: a shorter prefix made of exactly the first 29 words, then "..." |
| JobCard.PositionPlural | client/src/components/job/Job.jsx:72 | the word ends in "s" iff the position count is not 1 |
| JobDescription.IsAppliedAfterAppend | client/src/components/JobDescription.jsx:29-53 | appending the user's application makes the check hold; another applicant's leaves it as it was |
| JobDescription.ApplicantCount | client/src/components/JobDescription.jsx:302 | the list's length, or 0 without a list |
| JobDescription.JobDetail.constructor | client/src/components/JobDescription.jsx:29-34 | the flag agrees with the job's applications |
| JobDescription.JobDetail.ApplyJob | client/src/components/JobDescription.jsx:41-64 | on success, the flag is set and the user's application appended when the list exists (one more applicant); on failure, nothing changes; the loading flag ends false |
| JobDescription.JobDetail.Fetched | client/src/components/JobDescription.jsx:66-85 | the fetched job replaces the page's; the flag is recomputed when it has applications |
| JobDescription.FormatNumberTiers | client/src/components/JobDescription.jsx:88-92 | below 1000 the amount itself; the K text reads back as the nearest thousand; the L text reads back as the nearest tenth of a lakh |
| JobDescription.FormatSalaryShape | client/src/components/JobDescription.jsx:87-97 | "Not disclosed" iff a bound is missing or zero; otherwise the minimum's amount, " - ", the maximum's amount, a space and the currency ("INR" by default), each at its place; with a currency free of spaces the text splits into exactly those four words |
| JobDescription.FormatNumberNoSpace | client/src/components/JobDescription.jsx:87-94 | an amount's text never holds a space |
| Home.Toggled | client/src/components/Home/Home.jsx:122-124 | the clicked entry opens iff it was not open, and nothing else opens |
| Home.ToggleTwice | client/src/components/Home/Home.jsx:122-124 | with that entry open or nothing open, two clicks restore the previous state |
| Home.HomeState.constructor | client/src/components/Home/Home.jsx:67-69 | nothing open, flipped or locked |
| Home.HomeState.Toggle | client/src/components/Home/Home.jsx:122-124 | at most one FAQ entry is open, and the clicked one flips |
| Home.HomeState.Hover | client/src/components/Home/Home.jsx:126-130 | hovering a card other than the locked one makes it the only flipped card (or none); the locked card ignores hover |
| Home.HomeState.LockToggle | client/src/components/Home/Home.jsx:132-140 | clicking the locked card releases and unflips it; another card becomes locked and flipped |
| Home.LockedCardUnflipsScenario | client/src/components/Home/Home.jsx:126-140 | leaving another card unflips the locked one, which stays locked |
| Chatbot.DetectRole | client/src/components/Chatbot.jsx:26-33 | a known role is kept; otherwise "recruiter" wins over "student", case-insensitively |
| Chatbot.RoleIsSticky | client/src/components/Chatbot.jsx:27 | once set, no later message changes the role |
| Chatbot.Chat.constructor | client/src/components/Chatbot.jsx:7-14 | empty, closed, no dot, no role, not initialised |
| Chatbot.Chat.UnreadEffect | client/src/components/Chatbot.jsx:73-75 | closed with messages sets the dot |
| Chatbot.Chat.SendMessage | client/src/components/Chatbot.jsx:17-46 | blank input does nothing; otherwise the trimmed text is appended, then the reply; the input is cleared and the role detected |
| Chatbot.Chat.Greet | client/src/components/Chatbot.jsx:49-62 | only while open and uninitialised: the conversation becomes the single greeting |
| Chatbot.Chat.OpenWindow | client/src/components/Chatbot.jsx:86-91 | opening clears the dot |
| Chatbot.Chat.CloseWindow | client/src/components/Chatbot.jsx:135 | after closing, the dot shows iff it already did or there are messages |
| Chatbot.GreetCloseReopenScenario | client/src/components/Chatbot.jsx:49-91 | greeted, closed and reopened: one greeting, no dot, no second greeting |
| InterviewServer.AnswerDoc | server/controllers/interview.controller.js:163-172 | the answer keeps the request's index and texts and the evaluation's fields, missing lists becoming empty |
| InterviewServer.Blocks | server/controllers/interview.controller.js:230-238 | one block per answer, in order |
| InterviewServer.SummaryPromptLists | server/controllers/interview.controller.js:219-248 | the prompt lists the interview's answers, each once, by ascending index, each block starting "Q{index+1}" |
| InterviewServer.InsertSorts | server/controllers/interview.controller.js:219-221 | inserting into a sorted list keeps it sorted |
| InterviewServer.SortByIndexSorts | server/controllers/interview.controller.js:219-221 | the sort orders by question index and is a permutation |
| InterviewServer.SortByIndexStable | server/controllers/interview.controller.js:219-221 | the answers to any one question keep their relative order |
| InterviewServer.FrozenKeptChains | server/controllers/interview.controller.js:133-137 | `FrozenKept` is transitive: over two steps no interview disappears and a finished one never changes |
| InterviewServer.FrozenKeptAlongRun | server/controllers/interview.controller.js:133-137 | over any run of requests whose every step keeps `FrozenKept`, the first and last states are related: no interview disappears and a finished one never changes |
| InterviewServer.InterviewStore.constructor | server/models/interview.model.js:56-70 | an empty store |
| InterviewServer.InterviewStore.StartInterview | server/controllers/interview.controller.js:96-120 | a new unfinished interview with the model's questions (none if missing) and no answers, under a fresh id; a failed call changes nothing |
| InterviewServer.InterviewStore.SubmitAnswer | server/controllers/interview.controller.js:122-184 | 404 for an unknown interview, 400 for a finished one, 500 on a failed evaluation, each changing nothing; otherwise the one answer is appended and returned |
| InterviewServer.InterviewStore.GetNextQuestion | server/controllers/interview.controller.js:185-210 | the same guards; otherwise the one question is appended and returned |
| InterviewServer.InterviewStore.GetSummary | server/controllers/interview.controller.js:212-260 | 404 for an unknown interview; finishing is not required; the reply is the model's answer to the summary prompt |
| InterviewServer.InterviewStore.FinishInterview | server/controllers/interview.controller.js:262-313 | 404 for an unknown interview; otherwise marked finished even if the summary then fails; idempotent |
| InterviewServer.FinishedRefusesScenario | server/controllers/interview.controller.js:133-137 | after finishing, submitting and asking for a question are refused with 400 |
| InterviewSession.Pad2 | client/src/pages/JobSeeker/Interview/Interview.jsx:104 | `padStart(2, "0")` |
| InterviewSession.FormatTimeReadsBack | client/src/pages/JobSeeker/Interview/Interview.jsx:101-105 | "m:ss" reads back as the minutes and the two-digit seconds |
| InterviewSession.SecondsText | client/src/pages/JobSeeker/Interview/Interview.jsx:103-104 | the seconds are two digits that read back as their value |
| InterviewSession.FormatTimeFull | client/src/pages/JobSeeker/Interview/Interview.jsx:101-105 | the full two minutes read "2:00" |
| InterviewSession.FormatTimePadded | client/src/pages/JobSeeker/Interview/Interview.jsx:101-105 | 65 seconds read "1:05" |
| InterviewSession.CountdownLength | client/src/pages/JobSeeker/Interview/Interview.jsx:79-87 | after k ticks from t, the time is t-k, and 0 from tick t on |
| InterviewSession.BlankNeverSubmitted | client/src/pages/JobSeeker/Interview/Interview.jsx:108-117 | a blank answer is submitted by neither the silence timer nor the text button |
| InterviewSession.Session.constructor | client/src/pages/JobSeeker/Interview/Interview.jsx:18-38 | the initial state |
| InterviewSession.Session.SetInterviewId | client/src/pages/JobSeeker/Interview/Interview.jsx:77-99 | the same id changes nothing; a changed id runs the timer iff it is truthy, and then restarts it at 120 |
| InterviewSession.Session.Tick | client/src/pages/JobSeeker/Interview/Interview.jsx:79-87 | a second less while more than one is left, nothing else changing; otherwise 0 with the timer stopped and the interview finished: with a summary reply it is shown and the id cleared, without one the id and summary stay; one step of `TimeAfterTicks` |
| InterviewSession.Session.HandleStartInterview | client/src/pages/JobSeeker/Interview/Interview.jsx:126-152 | a reply without an id or questions changes nothing; otherwise only the first question is kept, index 0, no summary, listening; a new id restarts the countdown at two minutes, the current id leaves the timer as it was |
| InterviewSession.Session.FinishInterview | client/src/pages/JobSeeker/Interview/Interview.jsx:223-245 | listening stops; with an id and a reply, the summary is shown and the id and timer cleared; without either, the id, summary and timer are kept; the countdown value is untouched |
| InterviewSession.Session.NextStep | client/src/pages/JobSeeker/Interview/Interview.jsx:195-220 | runs after an answer to the current question; a received question is appended, the index moves on by one, the new question is current and the interview keeps running with listening on; a missing question finishes instead, keeping questions and index: with an id and a summary reply the summary is shown and the id and timer cleared, otherwise id, summary and timer stay; the typed answer is cleared, speech mode restored and the countdown value untouched |
| InterviewSession.Session.SubmitAnswer | client/src/pages/JobSeeker/Interview/Interview.jsx:155-181 | with a current question, sends its index and text (nothing otherwise); a saved answer clears the typed text and leaves manual mode, any other path keeps both; when saved and a next question arrives, it is appended and current and the interview keeps running with listening on; with no current question, an unsaved answer or no next question, the interview finishes (summary shown and id and timer cleared when there is an id and a summary reply, otherwise unchanged) and the questions stay; the countdown value is untouched and the submitting flag ends false |
| InterviewSession.Session.Restart | client/src/pages/JobSeeker/Interview/Interview.jsx:932-937 | no id, no summary, no questions, index 0, the timer stopped and the countdown value kept |
| ResumeExtract.ExtractResumeText | server/utils/extract.js:16-37 | a missing file and any type but PDF or DOCX are errors; each type goes to its own extractor |
| ResumeExtract.ExtractorChoice | server/utils/extract.js:19-36 | the other type's extractor is never consulted |
| ResumeExtract.Normalized | server/utils/extract.js:57-61 | one member per schema key |
| ResumeExtract.NormalizeResponse | server/utils/formatGeminiResponse.js:17-23 | the loop builds the schema's keys with the parsed or default values; a parsed `null` throws at the first key |
| ResumeExtract.FormatGeminiResponse | server/utils/formatGeminiResponse.js:1-24 | the result is the text part of the first candidate, parsed and normalised, or the error of the step that failed (identical code at server/utils/extract.js:41-64) |
| ResumeExtract.FormatGeminiErrors | server/utils/extract.js:42-55 | "Empty response" iff the text part is falsy; "invalid JSON" iff it does not parse; success otherwise unless the parse is null |
| JsonValue.Get | server/utils/formatGeminiResponse.js:11-20 | `parsed[key]` on a parsed object: `undefined` iff no member has the key; otherwise the value of the last member with it, which is the one `JSON.parse` keeps when a key repeats |
| ResumeExtract.NormalizedKeys | server/utils/formatGeminiResponse.js:17-21 | exactly the schema's keys, in order; other keys are dropped |
| ResumeExtract.NormalizedValues | server/utils/formatGeminiResponse.js:20 | a present non-null value is kept, falsy ones included; otherwise the default |
| ResumeExtract.NormalizedIdempotent | server/utils/extract.js:57-61 | normalising twice is normalising once |
| ResumeExtract.NoSchemaKeysGiveDefaults | server/utils/formatGeminiResponse.js:17-21 | a parsed object sharing no key with the schema gives exactly the schema's defaults |
| ResumeExtract.EmptyAnalysisIsDefault | server/utils/extract.js:57-61 | a reply with none of the keys becomes `resumeResponseFormat` itself |

## Left out

- Network, database and language-model calls. Their results are parameters.
  The model does not say what the server returns to the chat widget or
  what the language model writes.
- Asynchrony and interleaving. Each handler runs to completion with its
  replies given. Stale closures, overlapping requests, and a greeting
  arriving after the window closed are not modelled.
- `null` is not told apart from `undefined`, except in the JSON values of
  `ResumeExtract`.
- Case folding is ASCII only; JavaScript's `toLowerCase` also folds other
  letters.
- `Date` parsing: `JobCard.DaysAgo` takes both times as milliseconds, and
  an unreadable date is `None`.
- JobDescription.FormatNumber: not modelled are the floating-point ties of
  `toFixed`. At amounts exactly halfway between two tenths of a lakh,
  binary rounding may go either way; the model rounds halves up.
- Scores and salaries are integers; fractional numbers are not modelled.
- InterviewServer.SortByIndex: models `Array.prototype.sort` as a stable
  sort on the sequence, not in place. The sorted array is never saved, so
  the store is unaffected. Answers without a numeric `questionIndex` are
  not modelled: their comparator result would be NaN.
- InterviewServer.InterviewStore.GetNextQuestion: a model reply without a
  `question` member is not modelled; what the document does when
  `undefined` is pushed is not visible in this code.
- Ids that are not valid object ids, which make the database's lookup throw
  (a 500), are not modelled. Ids are natural numbers.
- ResumeExtract.Member: only an object's own members are read. Inherited
  properties are not modelled, nor are a string's or an array's `length`
  and indices.
- Speech recognition, speech synthesis, the camera, the silence timer's
  scheduling, scrolling and the dropdown's screen position in
  `toggleMobileFilter` are not modelled.
- The error toasts and alerts, beyond the fact that nothing changes, are
  not modelled.
- The commented-out interview session class and the old controller at the
  top of the interview files are dead code.
- Styling, routing, forms and the remaining screens are outside the core.

## Findings

| source | as written | input that shows it | evidently intended | confidence | as-written member | corrected member |
|---|---|---|---|---|---|---|
| client/src/components/Jobs/Jobs.jsx:46-53 | the salary label is stripped to digits and `-`, so "40k-1lakh" becomes the range 40 to 1 and units are lost | a job with `salaryMin` 50000 and `salaryMax` 80000 under the label "40k-1lakh" is not shown; no label ever matches a job whose maximum is above 50; "50lakh+" matches nothing | the label names a rupee range (k = 1000, lakh = 100000), as the panel's own tiers at 40000, 100000 and 500000 assume | high; not executed | Jobs.AsWrittenSalaryFilterMissesRealSalaries | Jobs.IntendedLabelsCoverEverySalary |
| client/src/components/Jobs/Jobs.jsx:11-77 | the filtering effect replaces the list but keeps `currentPage` | 25 jobs, page 3, then a filter leaving 5 jobs: an empty grid, "Showing 21-5 of 5", and no page controls to go back | a new filter result is shown from page 1 | high; not executed | Jobs.StalePageScenario | Jobs.JobsView.ApplyFiltersResettingPage |
