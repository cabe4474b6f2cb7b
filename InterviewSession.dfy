/** The candidate's side of a mock interview: the two-minute countdown and
    its "m:ss" text, starting an interview, submitting an answer, moving to
    the next question, finishing, and starting over. Each server reply is a
    parameter of the handler that awaits it; `None` is a failed request. */
module InterviewSession {
  import opened Wrappers
  import opened Text
  import opened JsonValue
  import InterviewServer

  type Question = InterviewServer.Question

  const InterviewDuration: nat := 2 * 60

  // ---------------------------------------------------------------- time text

  /** `padStart(2, "0")`. */
  function Pad2(t: string): (r: string)
    ensures |t| < 2 ==> r == seq(2 - |t|, _ => '0') + t
    ensures |t| >= 2 ==> r == t
  {
    if |t| == 0 then "00" else if |t| == 1 then "0" + t else t
  }

  /** `formatTime`: whole minutes, a colon, and the seconds as two digits.
      The time left is never negative. */
  function FormatTime(s: nat): string {
    NatToString(s / 60) + ":" + Pad2(NatToString(s % 60))
  }

  /** The text reads back: two fields around the colon, the second always
      two digits wide, giving the minutes and the seconds. */
  lemma FormatTimeReadsBack(s: nat)
    ensures var parts := Split(FormatTime(s), ':');
            && |parts| == 2 && |parts[1]| == 2
            && ParseInt(parts[0]) == Some(s / 60) && ParseInt(parts[1]) == Some(s % 60)
            && (s >= 60 ==> parts[0][0] != '0')
  {
    var m, sec := NatToString(s / 60), Pad2(NatToString(s % 60));
    assert ':' !in m by { assert forall i | 0 <= i < |m| :: IsDigit(m[i]); }
    SecondsText(s % 60);
    assert ':' !in sec by { assert forall i | 0 <= i < |sec| :: IsDigit(sec[i]); }
    SplitAfterPiece(m, sec, ':');
    SplitSepFree(sec, ':');
    ParseIntRoundTrip(s / 60);
  }

  /** The seconds field: two digits with the value of the seconds. */
  lemma SecondsText(r: nat)
    requires r < 60
    ensures var t := Pad2(NatToString(r));
            |t| == 2 && AllDigits(t) && ParseInt(t) == Some(r)
  {
    var t := Pad2(NatToString(r));
    if r < 10 {
      assert t == ['0', DigitChar(r)];
      assert t[..1] == "0";
    } else {
      assert NatToString(r / 10) == [DigitChar(r / 10)];
      assert t == [DigitChar(r / 10), DigitChar(r % 10)];
      assert t[..1] == [DigitChar(r / 10)];
    }
    LeadingAllDigits(t);
    assert DigitsValue(t[..1]) == t[0] as int - '0' as int by {
      assert t[..1][..0] == [];
    }
    assert DigitsValue(t) == DigitsValue(t[..1]) * 10 + (t[1] as int - '0' as int);
  }

  lemma FormatTimeFull()
    ensures FormatTime(InterviewDuration) == "2:00"
  {
  }

  lemma FormatTimePadded()
    ensures FormatTime(65) == "1:05"
  {
  }

  // ---------------------------------------------------------------- countdown

  /** The time left after `k` ticks: one second less at each tick, and 0
      once a tick finds one second or less. */
  function TimeAfterTicks(t: nat, k: nat): nat
    decreases k
  {
    if k == 0 then t else TimeAfterTicks(if t <= 1 then 0 else t - 1, k - 1)
  }

  /** The countdown from `t` reaches 0 after `t` ticks and stays there. */
  lemma {:induction false} CountdownLength(t: nat, k: nat)
    ensures TimeAfterTicks(t, k) == if k >= t then 0 else t - k
    decreases k
  {
    if k > 0 {
      CountdownLength(if t <= 1 then 0 else t - 1, k - 1);
    }
  }

  // ---------------------------------------------------------------- guards

  /** An id counts only when it is truthy (not null and not empty). */
  predicate HasId(interviewId: Option<string>) {
    interviewId.Some? && interviewId.value != ""
  }

  /** The silence timer's conditions: it is scheduled only while listening
      in speech mode with an interview running, and when it fires it
      submits only with no submission under way and a transcript that is
      not blank. The first three are read when the timeout is scheduled,
      the last two when it fires. */
  predicate AutoSubmits(listening: bool, manualMode: bool, interviewId: Option<string>,
                        isSubmitting: bool, transcript: string) {
    listening && !manualMode && HasId(interviewId) && !isSubmitting && !AllSpace(transcript)
  }

  /** Whether a submission ends in `finishInterview`: there is no current
      question, the answer was not saved, or no next question came back. */
  predicate Finishes(questions: seq<Question>, saved: bool, nextReply: Option<Option<Question>>) {
    questions == [] || !saved || nextReply.None? || nextReply.value.None?
  }

  /** The typed answer is submitted only when it is not blank. */
  predicate TextSubmits(manualText: string) {
    !AllSpace(manualText)
  }

  /** A blank answer is never submitted, by either route. */
  lemma BlankNeverSubmitted(text: string, listening: bool, manualMode: bool,
                            interviewId: Option<string>, isSubmitting: bool)
    requires Trim(text) == []
    ensures !TextSubmits(text) && !AutoSubmits(listening, manualMode, interviewId, isSubmitting, text)
  {
    TrimEmptyIff(text);
  }

  // ---------------------------------------------------------------- the session

  /** The start reply's two fields, each possibly missing. */
  datatype StartReply = StartReply(interviewId: Option<string>, questions: Option<seq<Question>>)

  /** The body sent with an answer. */
  datatype AnswerRequest = AnswerRequest(
    interviewId: Option<string>,
    questionIndex: nat,
    questionText: Option<string>,
    answerText: string,
    role: string,
    level: string)

  class Session {
    var role: string
    var level: string
    var interviewId: Option<string>
    var questions: seq<Question>
    var index: nat
    var timeLeft: nat
    var timerRunning: bool
    var summary: Option<Json>
    var isSubmitting: bool
    var manualText: string
    var manualMode: bool
    var listening: bool

    /** The question shown is the last one received, or there are none; a
        running timer belongs to a running interview. */
    predicate Valid()
      reads this
    {
      && (index + 1 == |questions| || (questions == [] && index == 0))
      && (timerRunning ==> HasId(interviewId))
    }

    constructor ()
      ensures Valid()
      ensures role == "React Developer" && level == "Junior"
      ensures interviewId.None? && questions == [] && index == 0
      ensures timeLeft == InterviewDuration && !timerRunning && summary.None?
      ensures !isSubmitting && manualText == "" && !manualMode && !listening
    {
      role := "React Developer";
      level := "Junior";
      interviewId := None;
      questions := [];
      index := 0;
      timeLeft := InterviewDuration;
      timerRunning := false;
      summary := None;
      isSubmitting := false;
      manualText := "";
      manualMode := false;
      listening := false;
    }

    /** Setting the interview id, with the effect that follows a change of
        it: the old interval is cleared and, for a truthy id, the countdown
        restarts at two minutes. */
    method SetInterviewId(id: Option<string>)
      modifies this`interviewId, this`timerRunning, this`timeLeft
      ensures interviewId == id
      ensures id == old(interviewId) ==> timerRunning == old(timerRunning) && timeLeft == old(timeLeft)
      ensures id != old(interviewId) ==>
                timerRunning == HasId(id) && timeLeft == if HasId(id) then InterviewDuration else old(timeLeft)
    {
      if id != interviewId {
        timerRunning := false;
        interviewId := id;
        if HasId(id) {
          timeLeft := InterviewDuration;
          timerRunning := true;
        }
      }
    }

    /** One tick of the interval: a second less, or 0 with the interval
        cleared and the interview finished (`finishReply` being the reply
        to that request) when at most one second was left. */
    method Tick(finishReply: Option<Json>)
      requires Valid() && timerRunning
      modifies this`listening, this`interviewId, this`summary, this`timerRunning, this`timeLeft
      ensures Valid()
      ensures old(timeLeft) > 1 ==> timeLeft == old(timeLeft) - 1 && timerRunning && interviewId == old(interviewId)
      ensures old(timeLeft) > 1 ==> summary == old(summary) && listening == old(listening)
      ensures old(timeLeft) <= 1 ==> timeLeft == 0 && !timerRunning && !listening
      ensures old(timeLeft) <= 1 && finishReply.Some? ==> interviewId.None? && summary == finishReply
      ensures old(timeLeft) <= 1 && finishReply.None? ==> interviewId == old(interviewId) && summary == old(summary)
      ensures timeLeft == TimeAfterTicks(old(timeLeft), 1)
      ensures questions == old(questions) && index == old(index)
    {
      if timeLeft <= 1 {
        timerRunning := false;
        timeLeft := 0;
        FinishInterview(finishReply);
      } else {
        timeLeft := timeLeft - 1;
      }
    }

    /** `handleStartInterview`, with `reply` the server's answer. A reply
        without an id or without questions changes nothing; otherwise only
        the first question is kept and the countdown starts. */
    method HandleStartInterview(reply: Option<StartReply>)
      requires Valid()
      modifies this`questions, this`index, this`listening, this`interviewId, this`summary, this`timerRunning, this`timeLeft
      ensures Valid()
      ensures reply.None? || !HasId(reply.value.interviewId)
              || reply.value.questions.None? || reply.value.questions.value == [] ==>
                interviewId == old(interviewId) && questions == old(questions) && index == old(index)
                && summary == old(summary) && timerRunning == old(timerRunning) && timeLeft == old(timeLeft)
                && listening == old(listening)
      ensures reply.Some? && HasId(reply.value.interviewId)
              && reply.value.questions.Some? && reply.value.questions.value != [] ==>
                && interviewId == reply.value.interviewId
                && questions == [reply.value.questions.value[0]] && index == 0 && summary.None?
                && listening
                && (reply.value.interviewId != old(interviewId) ==> timerRunning && timeLeft == InterviewDuration)
                && (reply.value.interviewId == old(interviewId) ==>
                      timerRunning == old(timerRunning) && timeLeft == old(timeLeft))
    {
      if reply.None? {
        return;
      }
      var id, qs := reply.value.interviewId, reply.value.questions;
      if !HasId(id) || qs.None? || qs.value == [] {
        return;
      }
      SetInterviewId(id);
      questions := [qs.value[0]];
      index := 0;
      summary := None;
      listening := true;
    }

    /** `finishInterview`, with `reply` the summary from the server: nothing
        is sent without an interview id; a failed request leaves the session
        running; otherwise the summary is shown, the interval cleared and
        the id cleared. */
    method FinishInterview(reply: Option<Json>)
      requires Valid()
      modifies this`listening, this`interviewId, this`summary, this`timerRunning, this`timeLeft
      ensures Valid() && timeLeft == old(timeLeft)
      ensures !listening && questions == old(questions) && index == old(index)
      ensures !HasId(old(interviewId)) || reply.None? ==>
                interviewId == old(interviewId) && summary == old(summary) && timerRunning == old(timerRunning)
      ensures HasId(old(interviewId)) && reply.Some? ==>
                interviewId.None? && summary == reply && !timerRunning
    {
      listening := false;
      if !HasId(interviewId) {
        return;
      }
      if reply.None? {
        return;
      }
      summary := reply;
      timerRunning := false;
      SetInterviewId(None);
    }

    /** `nextStep`, with `reply` the server's answer (`Some(None)` when it
        has no question) and `finishReply` the reply to the finish request
        made when there is no next question. It runs only after an answer
        to the current question, so there is one. A new question is appended
        and the index moves on by one, to it. */
    method NextStep(reply: Option<Option<Question>>, finishReply: Option<Json>)
      requires Valid() && questions != []
      modifies this`manualText, this`manualMode, this`questions, this`index, this`listening, this`interviewId, this`summary, this`timerRunning, this`timeLeft
      ensures Valid() && timeLeft == old(timeLeft)
      ensures manualText == "" && !manualMode
      ensures reply.Some? && reply.value.Some? ==>
                && questions == old(questions) + [reply.value.value]
                && index == old(index) + 1 && questions[index] == reply.value.value
                && interviewId == old(interviewId) && summary == old(summary)
                && timerRunning == old(timerRunning) && listening
      ensures reply.None? || reply.value.None? ==> questions == old(questions) && index == old(index) && !listening
      ensures (reply.None? || reply.value.None?) && HasId(old(interviewId)) && finishReply.Some? ==>
                interviewId.None? && summary == finishReply && !timerRunning
      ensures (reply.None? || reply.value.None?) && (!HasId(old(interviewId)) || finishReply.None?) ==>
                interviewId == old(interviewId) && summary == old(summary) && timerRunning == old(timerRunning)
    {
      manualText := "";
      manualMode := false;
      if reply.None? || reply.value.None? {
        FinishInterview(finishReply);
        return;
      }
      questions := questions + [reply.value.value];
      index := index + 1;
      listening := true;
    }

    /** `submitAnswer`: the answer goes out with the current question's
        index and text; when it is saved (`saved`) the session moves on as
        `nextStep` does, otherwise it finishes. There is no current question
        when none has been received, and then nothing is sent. The
        submission flag is cleared on every path. */
    method SubmitAnswer(answerText: string, saved: bool,
                        nextReply: Option<Option<Question>>, finishReply: Option<Json>)
      returns (request: Option<AnswerRequest>)
      requires Valid()
      modifies this`isSubmitting, this`manualText, this`manualMode, this`questions, this`index, this`listening, this`interviewId, this`summary, this`timerRunning, this`timeLeft
      ensures Valid() && !isSubmitting && timeLeft == old(timeLeft)
      ensures old(questions) != [] && saved ==> manualText == "" && !manualMode
      ensures !(old(questions) != [] && saved) ==> manualText == old(manualText) && manualMode == old(manualMode)
      ensures old(questions) == [] ==> request.None?
      ensures old(questions) != [] ==>
                request == Some(AnswerRequest(old(interviewId), old(index), old(questions)[old(index)].text,
                                              answerText, old(role), old(level)))
      ensures old(questions) != [] && saved && nextReply.Some? && nextReply.value.Some? ==>
                questions == old(questions) + [nextReply.value.value] && index == old(index) + 1
      ensures !saved ==> questions == old(questions) && index == old(index)
      ensures saved && (nextReply.None? || nextReply.value.None?) ==> questions == old(questions) && index == old(index)
      ensures old(questions) != [] && saved && nextReply.Some? && nextReply.value.Some? ==>
                interviewId == old(interviewId) && summary == old(summary) && timerRunning == old(timerRunning)
                && listening
      ensures Finishes(old(questions), saved, nextReply) ==> !listening
      ensures Finishes(old(questions), saved, nextReply) && HasId(old(interviewId)) && finishReply.Some? ==>
                interviewId.None? && summary == finishReply && !timerRunning
      ensures Finishes(old(questions), saved, nextReply) && (!HasId(old(interviewId)) || finishReply.None?) ==>
                interviewId == old(interviewId) && summary == old(summary) && timerRunning == old(timerRunning)
    {
      isSubmitting := true;
      listening := false;
      if index >= |questions| {
        request := None;
        FinishInterview(finishReply);
      } else {
        request := Some(AnswerRequest(interviewId, index, questions[index].text, answerText, role, level));
        if saved {
          NextStep(nextReply, finishReply);
        } else {
          FinishInterview(finishReply);
        }
      }
      isSubmitting := false;
    }

    /** "Start New Interview": no interview, no summary, no questions. */
    method Restart()
      requires Valid()
      modifies this`questions, this`index, this`interviewId, this`summary, this`timerRunning, this`timeLeft
      ensures Valid()
      ensures interviewId.None? && summary.None? && index == 0 && questions == [] && !timerRunning
      ensures timeLeft == old(timeLeft)
    {
      SetInterviewId(None);
      summary := None;
      index := 0;
      questions := [];
    }
  }
}
