/** The mock-interview service: interviews kept in a store keyed by id, and
    the five request handlers that create an interview, record an evaluated
    answer, add a question, summarise, and finish. Each call to the language
    model is a function parameter from the prompt text to the decoded reply,
    `None` when the call or its JSON fails. */
module InterviewServer {
  import opened Wrappers
  import opened Text
  import opened JsonValue

  // ---------------------------------------------------------------- records

  datatype Question = Question(text: Option<string>)

  /** An embedded answer. Its two string lists are array paths, which the
      document gives an empty list when the value is missing. */
  datatype Answer = Answer(
    questionIndex: int,
    questionText: Option<string>,
    answerText: Option<string>,
    score: Option<int>,
    maxScore: Option<int>,
    strengths: seq<string>,
    improvements: seq<string>,
    shortFeedback: Option<string>)

  datatype Interview = Interview(
    role: Option<string>,
    level: Option<string>,
    questions: seq<Question>,
    answers: seq<Answer>,
    finished: bool)

  /** The fields of the model's evaluation of one answer, each possibly
      missing. */
  datatype Evaluation = Evaluation(
    score: Option<int>,
    maxScore: Option<int>,
    strengths: Option<seq<string>>,
    improvements: Option<seq<string>>,
    shortFeedback: Option<string>)

  /** A handler's reply: a success body, or an HTTP status and error text. */
  datatype Reply =
    | Started(interviewId: nat, questions: seq<Question>)
    | AnswerSaved(answer: Answer)
    | QuestionAdded(question: Question)
    | SummaryReply(summary: Json)
    | Error(status: nat, message: string)

  const NotFound := Error(404, "Interview not found")
  const AlreadyFinished := Error(400, "Interview already finished")

  // ---------------------------------------------------------------- prompts

  /** A value interpolated into a template: a missing one reads "undefined". */
  function Shown(v: Option<string>): string {
    v.GetOr("undefined")
  }

  function ShownNumber(v: Option<int>): string {
    if v.Some? then IntToString(v.value) else "undefined"
  }

  function StartPrompt(role: Option<string>, level: Option<string>): string {
    "Generate one interview questions for job role \"" + Shown(role) + "\" at \"" + Shown(level) + "\" level."
  }

  function NextQuestionPrompt(role: Option<string>, level: Option<string>): string {
    "Generate another interview question for job role \"" + Shown(role) + "\" at \"" + Shown(level) + "\" level."
  }

  function EvaluationPrompt(role: Option<string>, level: Option<string>,
                            questionText: Option<string>, answerText: Option<string>): string {
    "\nRole: " + Shown(role) + "\nLevel: " + Shown(level)
    + "\nQuestion: " + Shown(questionText) + "\nCandidate answer: " + Shown(answerText)
    + "\n\nEvaluate the answer on correctness, depth, clarity, and communication.\nReturn JSON with:\n{\n"
    + "  \"score\": number (0-10),\n  \"maxScore\": 10,\n  \"strengths\": string[],\n"
    + "  \"improvements\": string[],\n  \"shortFeedback\": string\n}\n"
  }

  /** One answer's block in the summary prompt; questions are numbered from 1. */
  function AnswerBlock(a: Answer): string {
    "Q" + IntToString(a.questionIndex + 1) + BlockBody(a)
  }

  /** The block after its number: the question, the answer and the score. */
  function BlockBody(a: Answer): string {
    ": " + Shown(a.questionText) + "\nAnswer: " + Shown(a.answerText)
    + "\nScore: " + ShownNumber(a.score) + "/" + ShownNumber(a.maxScore) + "\n"
  }

  /** Each block opens with "Q" and its question's number. */
  lemma AnswerBlockNumbered(a: Answer)
    ensures var q := "Q" + IntToString(a.questionIndex + 1);
            AnswerBlock(a)[..|q|] == q
  {
    var q := "Q" + IntToString(a.questionIndex + 1);
    assert AnswerBlock(a) == q + BlockBody(a);
  }

  function Blocks(answers: seq<Answer>): (r: seq<string>)
    ensures |r| == |answers|
    ensures forall i | 0 <= i < |answers| :: r[i] == AnswerBlock(answers[i])
  {
    if answers == [] then [] else [AnswerBlock(answers[0])] + Blocks(answers[1..])
  }

  function SummaryHead(role: Option<string>, level: Option<string>): string {
    "\nGive an overall summary for this mock interview.\n\nRole: " + Shown(role)
    + "\nLevel: " + Shown(level) + "\n\nQuestions and answers with scores:\n"
  }

  const SummaryTail: string :=
    "\n\nReturn JSON:\n{\n  \"overallScore\": number (0-10),\n  \"overallComment\": string,\n"
    + "  \"strengths\": string[],\n  \"weaknesses\": string[],\n  \"improvementPlan\": string[]\n}\n"

  /** The summary prompt, shared by `getSummary` and `finishInterview`: the
      answers (ordered by question index) as blocks joined by new lines. */
  function SummaryPrompt(interview: Interview): string {
    SummaryHead(interview.role, interview.level)
    + Join(Blocks(SortByIndex(interview.answers)), '\n') + SummaryTail
  }

  /** The summary prompt lists one block per answer, each block starting
      with its question's number, in ascending order of question index, and
      the answers listed are exactly the interview's answers. */
  lemma SummaryPromptLists(interview: Interview)
    ensures var sorted := SortByIndex(interview.answers);
            && SummaryPrompt(interview)
               == SummaryHead(interview.role, interview.level) + Join(Blocks(sorted), '\n') + SummaryTail
            && SortedByIndex(sorted) && multiset(sorted) == multiset(interview.answers)
            && forall i | 0 <= i < |sorted| ::
                 Blocks(sorted)[i][..|IntToString(sorted[i].questionIndex + 1)| + 1]
                 == "Q" + IntToString(sorted[i].questionIndex + 1)
  {
    var sorted := SortByIndex(interview.answers);
    SortByIndexSorts(interview.answers);
    forall i | 0 <= i < |sorted|
      ensures Blocks(sorted)[i][..|IntToString(sorted[i].questionIndex + 1)| + 1]
              == "Q" + IntToString(sorted[i].questionIndex + 1)
    {
      AnswerBlockNumbered(sorted[i]);
    }
  }

  // ---------------------------------------------------------------- ordering answers

  /** `answers.sort((a, b) => a.questionIndex - b.questionIndex)`, a stable
      sort: `x` goes after every answer whose index is not larger. */
  function Insert(x: Answer, s: seq<Answer>): seq<Answer> {
    if s == [] then [x]
    else if x.questionIndex < s[0].questionIndex then [x] + s
    else [s[0]] + Insert(x, s[1..])
  }

  function SortByIndex(s: seq<Answer>): seq<Answer>
    decreases |s|
  {
    if s == [] then [] else Insert(s[|s| - 1], SortByIndex(s[..|s| - 1]))
  }

  predicate SortedByIndex(s: seq<Answer>) {
    forall i, j | 0 <= i < j < |s| :: s[i].questionIndex <= s[j].questionIndex
  }

  /** The answers of `s` for question `k`, in order. */
  function ForQuestion(s: seq<Answer>, k: int): seq<Answer> {
    if s == [] then []
    else (if s[0].questionIndex == k then [s[0]] else []) + ForQuestion(s[1..], k)
  }

  lemma {:induction false} InsertKeeps(x: Answer, s: seq<Answer>)
    ensures multiset(Insert(x, s)) == multiset(s) + multiset{x}
  {
    if s != [] && x.questionIndex >= s[0].questionIndex {
      InsertKeeps(x, s[1..]);
      assert s == [s[0]] + s[1..];
    }
  }

  lemma {:induction false} InsertSorts(x: Answer, s: seq<Answer>)
    requires SortedByIndex(s)
    ensures SortedByIndex(Insert(x, s))
  {
    if s == [] {
    } else if x.questionIndex < s[0].questionIndex {
      assert forall j | 0 <= j < |s| :: s[0].questionIndex <= s[j].questionIndex;
    } else {
      var t := Insert(x, s[1..]);
      InsertSorts(x, s[1..]);
      InsertKeeps(x, s[1..]);
      forall j | 0 <= j < |t| ensures s[0].questionIndex <= t[j].questionIndex {
        assert t[j] in multiset(s[1..]) + multiset{x};
        if t[j] != x {
          assert t[j] in s[1..];
        }
      }
      assert Insert(x, s) == [s[0]] + t;
    }
  }

  /** The sort orders the answers by question index and keeps every answer. */
  lemma {:induction false} SortByIndexSorts(s: seq<Answer>)
    ensures SortedByIndex(SortByIndex(s))
    ensures multiset(SortByIndex(s)) == multiset(s)
    decreases |s|
  {
    if s != [] {
      SortByIndexSorts(s[..|s| - 1]);
      InsertSorts(s[|s| - 1], SortByIndex(s[..|s| - 1]));
      InsertKeeps(s[|s| - 1], SortByIndex(s[..|s| - 1]));
      assert s == s[..|s| - 1] + [s[|s| - 1]];
    }
  }

  lemma {:induction false} ForQuestionAppend(a: seq<Answer>, b: seq<Answer>, k: int)
    ensures ForQuestion(a + b, k) == ForQuestion(a, k) + ForQuestion(b, k)
  {
    if a == [] {
      assert a + b == b;
    } else {
      var c := a + b;
      assert c[0] == a[0] && c[1..] == a[1..] + b;
      ForQuestionAppend(a[1..], b, k);
      var head := if a[0].questionIndex == k then [a[0]] else [];
      assert ForQuestion(c, k) == head + ForQuestion(a[1..] + b, k);
      assert ForQuestion(a, k) == head + ForQuestion(a[1..], k);
    }
  }

  lemma {:induction false} ForQuestionAbove(s: seq<Answer>, k: int)
    requires forall i | 0 <= i < |s| :: s[i].questionIndex > k
    ensures ForQuestion(s, k) == []
  {
    if s != [] {
      ForQuestionAbove(s[1..], k);
    }
  }

  lemma {:induction false} InsertStable(x: Answer, s: seq<Answer>, k: int)
    requires SortedByIndex(s)
    ensures ForQuestion(Insert(x, s), k) == ForQuestion(s, k) + ForQuestion([x], k)
  {
    if s == [] {
    } else if x.questionIndex < s[0].questionIndex {
      ForQuestionAppend([x], s, k);
      if x.questionIndex == k {
        ForQuestionAbove(s, k);
      }
    } else {
      InsertStable(x, s[1..], k);
      ForQuestionAppend([s[0]], Insert(x, s[1..]), k);
      ForQuestionAppend([s[0]], s[1..], k);
      assert s == [s[0]] + s[1..];
    }
  }

  /** The sort is stable: the answers to any one question keep their order. */
  lemma {:induction false} SortByIndexStable(s: seq<Answer>, k: int)
    ensures ForQuestion(SortByIndex(s), k) == ForQuestion(s, k)
    decreases |s|
  {
    if s != [] {
      var init, x := s[..|s| - 1], s[|s| - 1];
      SortByIndexStable(init, k);
      SortByIndexSorts(init);
      InsertStable(x, SortByIndex(init), k);
      ForQuestionAppend(init, [x], k);
      assert s == init + [x];
    }
  }

  // ---------------------------------------------------------------- the store

  /** The answer document built from the request and the evaluation. */
  function AnswerDoc(questionIndex: int, questionText: Option<string>, answerText: Option<string>,
                     e: Evaluation): (a: Answer)
    ensures a.questionIndex == questionIndex && a.questionText == questionText && a.answerText == answerText
    ensures a.score == e.score && a.maxScore == e.maxScore && a.shortFeedback == e.shortFeedback
    ensures a.strengths == e.strengths.GetOr([]) && a.improvements == e.improvements.GetOr([])
  {
    Answer(questionIndex, questionText, answerText, e.score, e.maxScore,
           e.strengths.GetOr([]), e.improvements.GetOr([]), e.shortFeedback)
  }

  /** From one state of the store to a later one: no interview disappears,
      and a finished interview stays exactly as it was. */
  predicate FrozenKept(before: map<nat, Interview>, after: map<nat, Interview>) {
    forall id | id in before :: id in after && (before[id].finished ==> after[id] == before[id])
  }

  /** The relation is transitive: two steps that each keep it keep it from
      the first state to the last, so nothing is ever appended to a
      finished interview. */
  lemma FrozenKeptChains(a: map<nat, Interview>, b: map<nat, Interview>, c: map<nat, Interview>)
    requires FrozenKept(a, b) && FrozenKept(b, c)
    ensures FrozenKept(a, c)
    ensures forall id | id in a && a[id].finished :: c[id].questions == a[id].questions && c[id].answers == a[id].answers
  {
  }

  /** Across any run of requests, each step keeping the relation (as every
      store method ensures), the first and the last state are related. */
  lemma {:induction false} FrozenKeptAlongRun(states: seq<map<nat, Interview>>)
    requires |states| >= 1
    requires forall i | 0 <= i < |states| - 1 :: FrozenKept(states[i], states[i + 1])
    ensures FrozenKept(states[0], states[|states| - 1])
  {
    if |states| > 1 {
      var n := |states| - 1;
      FrozenKeptAlongRun(states[..n]);
      assert states[..n][n - 1] == states[n - 1];
      FrozenKeptChains(states[0], states[n - 1], states[n]);
    }
  }

  class InterviewStore {
    var records: map<nat, Interview>
    var nextId: nat

    /** Every stored id was handed out before. */
    ghost predicate Valid()
      reads this
    {
      forall id | id in records :: id < nextId
    }

    constructor ()
      ensures Valid() && records == map[]
    {
      records := map[];
      nextId := 0;
    }

    /** `startInterview`: a new, unfinished interview with the model's
        questions (none when the reply has no `questions`) and no answers. */
    method StartInterview(role: Option<string>, level: Option<string>,
                          ask: string -> Option<Option<seq<Question>>>)
      returns (reply: Reply)
      requires Valid()
      modifies this
      ensures Valid() && FrozenKept(old(records), records)
      ensures ask(StartPrompt(role, level)).None? ==>
                reply == Error(500, "Failed to start interview") && records == old(records)
      ensures ask(StartPrompt(role, level)).Some? ==>
                var questions := ask(StartPrompt(role, level)).value.GetOr([]);
                && reply == Started(old(nextId), questions)
                && old(nextId) !in old(records)
                && records == old(records)[old(nextId) := Interview(role, level, questions, [], false)]
    {
      var json := ask(StartPrompt(role, level));
      if json.None? {
        return Error(500, "Failed to start interview");
      }
      var questions := json.value.GetOr([]);
      var id := nextId;
      records := records[id := Interview(role, level, questions, [], false)];
      nextId := nextId + 1;
      reply := Started(id, questions);
    }

    /** `submitAnswer`: 404 for an unknown interview, 400 for a finished
        one; otherwise the evaluated answer is appended and returned. The
        prompt uses the role and level of the request, not the record's. */
    method SubmitAnswer(id: nat, questionIndex: int, questionText: Option<string>, answerText: Option<string>,
                        role: Option<string>, level: Option<string>,
                        evaluate: string -> Option<Evaluation>)
      returns (reply: Reply)
      requires Valid()
      modifies this`records
      ensures Valid() && FrozenKept(old(records), records)
      ensures id !in old(records) ==> reply == NotFound && records == old(records)
      ensures id in old(records) && old(records)[id].finished ==>
                reply == AlreadyFinished && records == old(records)
      ensures id in old(records) && !old(records)[id].finished ==>
                var e := evaluate(EvaluationPrompt(role, level, questionText, answerText));
                if e.None? then
                  reply == Error(500, "Failed to evaluate answer") && records == old(records)
                else
                  var a := AnswerDoc(questionIndex, questionText, answerText, e.value);
                  && reply == AnswerSaved(a)
                  && records == old(records)[id := old(records)[id].(answers := old(records)[id].answers + [a])]
                  && records[id].answers[|records[id].answers| - 1] == a
    {
      if id !in records {
        return NotFound;
      }
      var interview := records[id];
      if interview.finished {
        return AlreadyFinished;
      }
      var e := evaluate(EvaluationPrompt(role, level, questionText, answerText));
      if e.None? {
        return Error(500, "Failed to evaluate answer");
      }
      var a := AnswerDoc(questionIndex, questionText, answerText, e.value);
      records := records[id := interview.(answers := interview.answers + [a])];
      reply := AnswerSaved(a);
    }

    /** `getNextQuestion`: the same two guards, then the model's question is
        appended and returned. */
    method GetNextQuestion(id: nat, ask: string -> Option<Question>) returns (reply: Reply)
      requires Valid()
      modifies this`records
      ensures Valid() && FrozenKept(old(records), records)
      ensures id !in old(records) ==> reply == NotFound && records == old(records)
      ensures id in old(records) && old(records)[id].finished ==>
                reply == AlreadyFinished && records == old(records)
      ensures id in old(records) && !old(records)[id].finished ==>
                var q := ask(NextQuestionPrompt(old(records)[id].role, old(records)[id].level));
                if q.None? then
                  reply == Error(500, "Failed to get next question") && records == old(records)
                else
                  && reply == QuestionAdded(q.value)
                  && records == old(records)[id := old(records)[id].(questions := old(records)[id].questions + [q.value])]
    {
      if id !in records {
        return NotFound;
      }
      var interview := records[id];
      if interview.finished {
        return AlreadyFinished;
      }
      var q := ask(NextQuestionPrompt(interview.role, interview.level));
      if q.None? {
        return Error(500, "Failed to get next question");
      }
      records := records[id := interview.(questions := interview.questions + [q.value])];
      reply := QuestionAdded(q.value);
    }

    /** `getSummary`: 404 for an unknown interview; a finished one is not
        required. The answers are sorted on the fetched copy, which is never
        saved, so the store does not change. */
    method GetSummary(id: nat, summarize: string -> Option<Json>) returns (reply: Reply)
      ensures id !in records ==> reply == NotFound
      ensures id in records ==>
                var s := summarize(SummaryPrompt(records[id]));
                reply == if s.None? then Error(500, "Failed to generate summary") else SummaryReply(s.value)
    {
      if id !in records {
        return NotFound;
      }
      var s := summarize(SummaryPrompt(records[id]));
      if s.None? {
        return Error(500, "Failed to generate summary");
      }
      reply := SummaryReply(s.value);
    }

    /** `finishInterview`: 404 for an unknown interview; otherwise the
        record is marked finished and saved before the summary is asked for,
        so it stays finished even when that call fails. Finishing a
        finished interview changes nothing. */
    method FinishInterview(id: nat, summarize: string -> Option<Json>) returns (reply: Reply)
      requires Valid()
      modifies this`records
      ensures Valid() && FrozenKept(old(records), records)
      ensures id !in old(records) ==> reply == NotFound && records == old(records)
      ensures id in old(records) ==>
                && records == old(records)[id := old(records)[id].(finished := true)]
                && var s := summarize(SummaryPrompt(records[id]));
                   reply == if s.None? then Error(500, "Failed to finish interview") else SummaryReply(s.value)
      ensures id in old(records) && old(records)[id].finished ==> records == old(records)
    {
      if id !in records {
        return NotFound;
      }
      records := records[id := records[id].(finished := true)];
      var s := summarize(SummaryPrompt(records[id]));
      if s.None? {
        return Error(500, "Failed to finish interview");
      }
      reply := SummaryReply(s.value);
    }
  }

  /** After finishing, both appending handlers refuse with 400 and leave the
      interview as it is. */
  method FinishedRefusesScenario(store: InterviewStore, id: nat, summarize: string -> Option<Json>,
                                 evaluate: string -> Option<Evaluation>, ask: string -> Option<Question>)
      returns (r1: Reply, r2: Reply)
    requires store.Valid() && id in store.records
    modifies store
    ensures r1 == AlreadyFinished && r2 == AlreadyFinished
    ensures id in store.records && store.records[id] == old(store.records[id]).(finished := true)
  {
    var _ := store.FinishInterview(id, summarize);
    r1 := store.SubmitAnswer(id, 0, Some("q"), Some("a"), None, None, evaluate);
    r2 := store.GetNextQuestion(id, ask);
  }
}
