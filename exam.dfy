/**
 * The timed exam session: a question set loaded once, an answer map, a
 * thirty-minute countdown ticking once a second, and a submission that scores
 * the answers, decides pass or fail and sends one row to the results table.
 * Timer callbacks, clicks and the result of the database write arrive as
 * explicit, sequential method calls and parameters.
 */
module Exam {
  import opened Wrappers
  import opened Text
  import opened Questions

  const EXAM_DURATION_MINUTES: nat := 30
  const TOTAL_QUESTIONS: nat := 20
  const EXAM_DURATION_SECONDS: nat := EXAM_DURATION_MINUTES * 60

  /** The row inserted into the exams table (`categories` is always empty and left out). */
  datatype ExamRecord = ExamRecord(userId: string, status: string, score: nat, completedAt: nat)

  /** What a call of the submission routine did. */
  datatype SubmitOutcome =
    | AlreadySubmitted               // the guard returned at once
    | Saved(record: ExamRecord)      // row written; the page goes to the dashboard
    | SaveFailed(record: ExamRecord) // row rejected; the page shows an alert

  /** The row a submission writes for these questions and answers at time `now`. */
  function ExamRecordFor(questions: seq<Question>, answers: Answers, userId: string, now: nat): (r: ExamRecord)
    requires 0 < |questions| <= TOTAL_QUESTIONS
    ensures r.userId == userId && r.completedAt == now
    ensures r.score <= 100
    ensures r.status == (if r.score >= PASS_MARK then "passed" else "failed")
    ensures r.score == 100 <==> forall i :: 0 <= i < |questions| ==> IsCorrect(questions[i], answers)
    ensures r.status == "passed" <==> 200 * CorrectCount(questions, answers) >= 139 * |questions|
  {
    var correct := CorrectCount(questions, answers);
    var score := RoundedPercent(correct, |questions|);
    FullMarksIffAllCorrect(correct, |questions|);
    PassIffRatio(correct, |questions|);
    ExamRecord(userId, if score >= PASS_MARK then "passed" else "failed", score, now)
  }

  // ---------------------------------------------------------------- countdown

  /** One tick from `t > 0` seconds: the new time, and whether it fires the auto-submit. */
  function TickFrom(t: int): (r: (int, bool))
    requires t > 0
    ensures r.0 == t - 1 && r.0 >= 0
    ensures r.1 <==> r.0 == 0
  {
    if t <= 1 then (0, true) else (t - 1, false)
  }

  /** The time left after `k` ticks of a running countdown that started at `t`. */
  function AfterTicks(t: nat, k: nat): nat {
    if k == 0 || t == 0 then t else AfterTicks(TickFrom(t).0, k - 1)
  }

  /** Every tick takes one second off until zero, and the time never goes below zero. */
  lemma {:induction false} AfterTicksValue(t: nat, k: nat)
    ensures AfterTicks(t, k) == if k <= t then t - k else 0
  {
    if k > 0 && t > 0 {
      AfterTicksValue(t - 1, k - 1);
    }
  }

  /** From a fresh start, ticks 1 … 1799 do not fire and tick 1800 fires with the time at zero. */
  lemma FullCountdown(k: nat)
    requires k < EXAM_DURATION_SECONDS
    ensures AfterTicks(EXAM_DURATION_SECONDS, k) > 0
    ensures TickFrom(AfterTicks(EXAM_DURATION_SECONDS, k)).1 <==> k == EXAM_DURATION_SECONDS - 1
    ensures AfterTicks(EXAM_DURATION_SECONDS, EXAM_DURATION_SECONDS) == 0
  {
    AfterTicksValue(EXAM_DURATION_SECONDS, k);
    AfterTicksValue(EXAM_DURATION_SECONDS, EXAM_DURATION_SECONDS);
  }

  // ---------------------------------------------------------------- MM:SS

  /** One field of the clock: `n.toString().padStart(2, '0')`. */
  function ClockField(n: nat): string {
    PadStart2(NatToString(n))
  }

  /** `formatTime`: whole minutes and the remaining seconds, each padded to two digits. */
  function FormatTime(seconds: nat): (r: string)
    ensures seconds < 6000 ==> |r| == 5 && r[2] == ':'
  {
    ClockField(seconds / 60) + ":" + ClockField(seconds % 60)
  }

  /** Reads `MM:SS` back into seconds. */
  function ParseClock(r: string): Option<nat> {
    var parts := Split(r, ':');
    if |parts| != 2 then None
    else
      match (ParseNat(parts[0]), ParseNat(parts[1]))
      case (Some(m), Some(s)) => Some(60 * m + s)
      case _ => None
  }

  lemma FormatTimeSplits(seconds: nat)
    ensures Split(FormatTime(seconds), ':') == [ClockField(seconds / 60), ClockField(seconds % 60)]
  {
    var m, s := ClockField(seconds / 60), ClockField(seconds % 60);
    PaddedNumeral(seconds / 60);
    PaddedNumeral(seconds % 60);
    NumeralExcludes(m, ':');
    NumeralExcludes(s, ':');
    assert Join([m, s], ':') == FormatTime(seconds) by {
      assert [m, s][1..] == [s];
    }
    SplitJoin([m, s], ':');
  }

  lemma ParseClockOfFields(r: string, m: nat, s: nat)
    requires |Split(r, ':')| == 2
    requires ParseNat(Split(r, ':')[0]) == Some(m) && ParseNat(Split(r, ':')[1]) == Some(s)
    ensures ParseClock(r) == Some(60 * m + s)
  {
  }

  /** The two fields of `formatTime(s)` are `s div 60` and `s mod 60 < 60`, so it reads back as `s`. */
  lemma FormatTimeRoundTrip(seconds: nat)
    ensures var parts := Split(FormatTime(seconds), ':');
      |parts| == 2 && ParseNat(parts[0]) == Some(seconds / 60)
      && ParseNat(parts[1]) == Some(seconds % 60) && seconds % 60 < 60
    ensures ParseClock(FormatTime(seconds)) == Some(seconds)
  {
    var mins, secs := seconds / 60, seconds % 60;
    FormatTimeSplits(seconds);
    ParsePadded(mins);
    ParsePadded(secs);
    ParseClockOfFields(FormatTime(seconds), mins, secs);
    assert 60 * mins + secs == seconds;
  }

  // ---------------------------------------------------------------- the session

  class ExamSession {
    var questions: seq<Question>
    var answers: Answers
    var currentIndex: int
    var timeRemaining: int
    var examStarted: bool
    var examSubmitted: bool
    var loading: bool
    var loadError: Option<LoadError>
    /** The rows sent to the exams table, in order. */
    var sent: seq<ExamRecord>

    ghost predicate Valid()
      reads this
    {
      && 0 <= timeRemaining <= EXAM_DURATION_SECONDS
      && |questions| <= TOTAL_QUESTIONS
      && 0 <= currentIndex && (currentIndex == 0 || currentIndex < |questions|)
      && answers.Keys <= IdsOf(questions)
      && (!loading && loadError.None? ==> |questions| > 0)
      && (examStarted ==> !loading && loadError.None?)
      && (!examStarted ==> currentIndex == 0 && answers == map[] && timeRemaining == EXAM_DURATION_SECONDS)
      && (examSubmitted ==> examStarted)
      && |sent| == (if examSubmitted then 1 else 0)
    }

    /** The condition of the interval effect: started, not submitted, time left. */
    predicate TimerRunning()
      reads this
    {
      examStarted && !examSubmitted && timeRemaining > 0
    }

    /** The question screen is shown: loaded, started and not yet submitted. */
    predicate OnQuestionScreen()
      reads this
    {
      !loading && loadError.None? && examStarted && !examSubmitted
    }

    constructor ()
      ensures Valid() && loading && !examStarted && !examSubmitted
      ensures questions == [] && answers == map[] && sent == [] && loadError.None?
    {
      questions, answers, currentIndex := [], map[], 0;
      timeRemaining := EXAM_DURATION_SECONDS;
      examStarted, examSubmitted := false, false;
      loading, loadError := true, None;
      sent := [];
    }

    /**
     * `loadQuestions`: up to 20 questions of the page language from `table`
     * (None when the request fails). A failed or empty fetch keeps the old
     * question list and sets the error; a successful one sets the questions
     * and leaves the error as it was, so once the error screen is up, its
     * Retry button never takes it down.
     */
    method LoadQuestions(table: Option<seq<Question>>, language: string)
      requires Valid() && !examStarted
      modifies this
      ensures Valid() && !loading
      ensures table.None? ==> loadError == Some(FetchFailed) && questions == old(questions)
      ensures table.Some? && FetchQuestions(table.value, language, TOTAL_QUESTIONS) == [] ==>
        loadError == Some(NoQuestions) && questions == old(questions)
      ensures table.Some? && FetchQuestions(table.value, language, TOTAL_QUESTIONS) != [] ==>
        loadError == old(loadError) && questions == FetchQuestions(table.value, language, TOTAL_QUESTIONS)
      ensures old(loadError).Some? ==> loadError.Some?
      ensures examStarted == old(examStarted) && examSubmitted == old(examSubmitted)
      ensures answers == old(answers) && sent == old(sent) && timeRemaining == old(timeRemaining)
    {
      loading := true;
      if table.None? {
        loadError := Some(FetchFailed);
      } else {
        var data := FetchQuestions(table.value, language, TOTAL_QUESTIONS);
        if data == [] {
          loadError := Some(NoQuestions);
        } else {
          questions := data;
        }
      }
      loading := false;
    }

    /**
     * The load as intended: the same fetch, but the error reflects this load
     * only, so a successful retry leaves the error screen.
     */
    method LoadQuestionsCorrected(table: Option<seq<Question>>, language: string)
      requires Valid() && !examStarted
      modifies this
      ensures Valid() && !loading
      ensures table.None? ==> loadError == Some(FetchFailed) && questions == old(questions)
      ensures table.Some? && FetchQuestions(table.value, language, TOTAL_QUESTIONS) == [] ==>
        loadError == Some(NoQuestions) && questions == old(questions)
      ensures table.Some? && FetchQuestions(table.value, language, TOTAL_QUESTIONS) != [] ==>
        loadError.None? && questions == FetchQuestions(table.value, language, TOTAL_QUESTIONS)
      ensures examStarted == old(examStarted) && examSubmitted == old(examSubmitted)
      ensures answers == old(answers) && sent == old(sent) && timeRemaining == old(timeRemaining)
    {
      loading := true;
      loadError := None;
      if table.None? {
        loadError := Some(FetchFailed);
      } else {
        var data := FetchQuestions(table.value, language, TOTAL_QUESTIONS);
        if data == [] {
          loadError := Some(NoQuestions);
        } else {
          questions := data;
        }
      }
      loading := false;
    }

    /** `handleStartExam`, offered on the rules screen. */
    method Start()
      requires Valid() && !loading && loadError.None? && !examStarted
      modifies this
      ensures Valid() && examStarted && TimerRunning()
      ensures timeRemaining == EXAM_DURATION_SECONDS
      ensures questions == old(questions) && answers == old(answers) && currentIndex == old(currentIndex)
      ensures examSubmitted == old(examSubmitted) && sent == old(sent)
      ensures loading == old(loading) && loadError == old(loadError)
    {
      examStarted := true;
      timeRemaining := EXAM_DURATION_SECONDS;
    }

    /** `handleAnswerSelect` for an option of a displayed question: the last choice wins. */
    method SelectAnswer(questionId: QuestionId, optionIndex: int)
      requires Valid() && OnQuestionScreen() && questionId in IdsOf(questions)
      modifies this`answers
      ensures Valid()
      ensures answers == old(answers)[questionId := optionIndex]
      ensures forall id :: id in old(answers) && id != questionId ==> id in answers && answers[id] == old(answers)[id]
    {
      answers := answers[questionId := optionIndex];
    }

    /** The "previous" button. */
    method Previous()
      requires Valid() && OnQuestionScreen()
      modifies this`currentIndex
      ensures Valid() && 0 <= currentIndex < |questions|
      ensures currentIndex == PreviousIndex(old(currentIndex))
    {
      currentIndex := PreviousIndex(currentIndex);
    }

    /** The "next" button. */
    method Next()
      requires Valid() && OnQuestionScreen()
      modifies this`currentIndex
      ensures Valid() && 0 <= currentIndex < |questions|
      ensures currentIndex == NextIndex(old(currentIndex), |questions|)
    {
      currentIndex := NextIndex(currentIndex, |questions|);
    }

    /** A question-number button: any index of the list. */
    method JumpTo(idx: int)
      requires Valid() && OnQuestionScreen() && 0 <= idx < |questions|
      modifies this`currentIndex
      ensures Valid() && currentIndex == idx
    {
      currentIndex := idx;
    }

    /**
     * `submitExam`: runs once. The first call marks the exam submitted (which
     * stops the countdown), scores the answers and sends one row; later calls
     * return at once.
     */
    method SubmitExam(userId: string, now: nat, saveOk: bool) returns (outcome: SubmitOutcome)
      requires Valid() && examStarted
      modifies this`examSubmitted, this`sent
      ensures Valid() && examSubmitted && !TimerRunning() && |sent| == 1
      ensures old(examSubmitted) ==> outcome == AlreadySubmitted && sent == old(sent)
      ensures !old(examSubmitted) ==>
        && sent == old(sent) + [ExamRecordFor(questions, answers, userId, now)]
        && outcome == (if saveOk then Saved(sent[0]) else SaveFailed(sent[0]))
    {
      if examSubmitted {
        return AlreadySubmitted;
      }
      examSubmitted := true;
      var correct := CountCorrect(questions, answers);
      var score := RoundedPercent(correct, |questions|);
      var passed := score >= PASS_MARK;
      var record := ExamRecord(userId, if passed then "passed" else "failed", score, now);
      sent := sent + [record];
      outcome := if saveOk then Saved(record) else SaveFailed(record);
    }

    /** `handleAutoSubmit`: the same guard, then the submission routine. */
    method HandleAutoSubmit(userId: string, now: nat, saveOk: bool) returns (outcome: SubmitOutcome)
      requires Valid() && examStarted
      modifies this`examSubmitted, this`sent
      ensures Valid() && examSubmitted && |sent| == 1
      ensures old(examSubmitted) ==> outcome == AlreadySubmitted && sent == old(sent)
      ensures !old(examSubmitted) ==> sent == old(sent) + [ExamRecordFor(questions, answers, userId, now)]
    {
      if examSubmitted {
        return AlreadySubmitted;
      }
      outcome := SubmitExam(userId, now, saveOk);
    }

    /**
     * `handleSubmit`: the submit button, which asks for confirmation first. The
     * button is rendered only on the last question; the model lets it be pressed
     * on any question screen, which adds runs the page cannot produce.
     */
    method HandleSubmit(confirmed: bool, userId: string, now: nat, saveOk: bool) returns (outcome: Option<SubmitOutcome>)
      requires Valid() && OnQuestionScreen()
      modifies this`examSubmitted, this`sent
      ensures Valid()
      ensures !confirmed ==> outcome.None? && examSubmitted == old(examSubmitted) && sent == old(sent)
      ensures confirmed ==> examSubmitted && sent == old(sent) + [ExamRecordFor(questions, answers, userId, now)]
    {
      if confirmed {
        var o := SubmitExam(userId, now, saveOk);
        outcome := Some(o);
      } else {
        outcome := None;
      }
    }

    /**
     * One second of the interval. It runs only while the timer runs; from
     * `t > 1` it leaves `t - 1`, from 1 it auto-submits and leaves 0.
     */
    method Tick(userId: string, now: nat, saveOk: bool) returns (fired: Option<SubmitOutcome>)
      requires Valid()
      modifies this`timeRemaining, this`examSubmitted, this`sent
      ensures Valid()
      ensures !old(TimerRunning()) ==>
        fired.None? && timeRemaining == old(timeRemaining) && examSubmitted == old(examSubmitted) && sent == old(sent)
      ensures old(TimerRunning()) ==> timeRemaining == old(timeRemaining) - 1
      ensures old(TimerRunning()) && old(timeRemaining) > 1 ==> fired.None? && examSubmitted == old(examSubmitted)
      ensures old(TimerRunning()) && old(timeRemaining) == 1 ==>
        && timeRemaining == 0 && examSubmitted && fired.Some?
        && sent == old(sent) + [ExamRecordFor(questions, answers, userId, now)]
      ensures timeRemaining <= old(timeRemaining)
    {
      fired := None;
      if TimerRunning() {
        var (next, fire) := TickFrom(timeRemaining);
        if fire {
          var o := HandleAutoSubmit(userId, now, saveOk);
          fired := Some(o);
        }
        timeRemaining := next;
      }
    }
  }

  /** Once submitted, neither another submission nor a tick writes a second row. */
  method SubmitsOnce(s: ExamSession, userId: string, now: nat)
    requires s.Valid() && s.examStarted
    modifies s
  {
    var first := s.SubmitExam(userId, now, true);
    var second := s.HandleAutoSubmit(userId, now + 1, true);
    var tick := s.Tick(userId, now + 2, true);
    assert second == AlreadySubmitted && tick.None? && |s.sent| == 1;
  }

  /**
   * A failed load, then Retry against a table that now has questions: the
   * questions arrive, but the page stays on the error screen.
   */
  method RetryKeepsErrorScreen(page: ExamSession, table: seq<Question>, language: string)
    requires page.Valid() && !page.examStarted
    requires FetchQuestions(table, language, TOTAL_QUESTIONS) != []
    modifies page
    ensures page.questions == FetchQuestions(table, language, TOTAL_QUESTIONS)
    ensures page.loadError == Some(FetchFailed) && !page.loading && !page.examStarted
  {
    page.LoadQuestions(None, language);
    page.LoadQuestions(Some(table), language);
  }

  /** The same two loads with the intended error handling: Retry leads to the rules screen. */
  method RetryShowsQuestions(page: ExamSession, table: seq<Question>, language: string)
    requires page.Valid() && !page.examStarted
    requires FetchQuestions(table, language, TOTAL_QUESTIONS) != []
    modifies page
    ensures page.questions == FetchQuestions(table, language, TOTAL_QUESTIONS)
    ensures page.loadError.None? && !page.loading && !page.examStarted
  {
    page.LoadQuestionsCorrected(None, language);
    page.LoadQuestionsCorrected(Some(table), language);
  }
}
