/**
 * The untimed practice exam: up to ten questions, the same answer map and
 * navigation as the timed exam, a submit button that is enabled only once
 * every question has an answer, a score screen and a reset.
 */
module PracticeExam {
  import opened Wrappers
  import opened Questions

  const PRACTICE_QUESTIONS: nat := 10

  /** The ids of a non-empty list: those of all but the last question, and the last one's. */
  lemma IdsOfSnoc(qs: seq<Question>)
    requires qs != []
    ensures IdsOf(qs) == IdsOf(qs[..|qs| - 1]) + {qs[|qs| - 1].id}
  {
    var init := qs[..|qs| - 1];
    forall id | id in IdsOf(qs) ensures id in IdsOf(init) + {qs[|qs| - 1].id} {
      var q :| q in qs && q.id == id;
      var k :| 0 <= k < |qs| && qs[k] == q;
      if k < |qs| - 1 {
        assert init[k] == q;
      }
    }
  }

  /** The number of distinct ids among the questions is at most their number. */
  lemma {:induction false} IdsOfSize(qs: seq<Question>)
    ensures |IdsOf(qs)| <= |qs|
  {
    if qs != [] {
      IdsOfSize(qs[..|qs| - 1]);
      IdsOfSnoc(qs);
    }
  }

  /** With distinct ids, there are exactly as many ids as questions. */
  lemma {:induction false} IdsOfSizeDistinct(qs: seq<Question>)
    requires forall i, j :: 0 <= i < j < |qs| ==> qs[i].id != qs[j].id
    ensures |IdsOf(qs)| == |qs|
  {
    if qs != [] {
      var init := qs[..|qs| - 1];
      IdsOfSizeDistinct(init);
      IdsOfSnoc(qs);
      assert qs[|qs| - 1].id !in IdsOf(init) by {
        forall q | q in init ensures q.id != qs[|qs| - 1].id {
          var k :| 0 <= k < |init| && init[k] == q;
          assert qs[k] == q;
        }
      }
    }
  }

  /**
   * The submit gate `Object.keys(answers).length >= questions.length`, with every
   * key a listed question id, holds exactly when every listed question has an
   * answer and no two questions share an id.
   */
  lemma AllAnsweredGate(qs: seq<Question>, answers: Answers)
    requires answers.Keys <= IdsOf(qs)
    ensures |answers.Keys| >= |qs| <==>
      (forall i :: 0 <= i < |qs| ==> qs[i].id in answers) && |IdsOf(qs)| == |qs|
  {
    IdsOfSize(qs);
    var missing := IdsOf(qs) - answers.Keys;
    assert IdsOf(qs) == answers.Keys + missing;
    assert |IdsOf(qs)| == |answers.Keys| + |missing|;
    if |answers.Keys| >= |qs| {
      assert missing == {};
      forall i | 0 <= i < |qs| ensures qs[i].id in answers {
        assert qs[i] in qs;
      }
    }
    if (forall i :: 0 <= i < |qs| ==> qs[i].id in answers) && |IdsOf(qs)| == |qs| {
      forall id | id in IdsOf(qs) ensures id in answers {
        var q :| q in qs && q.id == id;
        var k :| 0 <= k < |qs| && qs[k] == q;
      }
    }
  }

  class PracticeSession {
    var questions: seq<Question>
    var answers: Answers
    var currentIndex: int
    var showResults: bool
    var loading: bool
    var loadError: Option<LoadError>

    /** What every state of the page satisfies, including one after a language reload. */
    ghost predicate Valid()
      reads this
    {
      |questions| <= PRACTICE_QUESTIONS && 0 <= currentIndex
    }

    /**
     * The answers and the index belong to the listed questions. A reload after
     * a language change keeps both while replacing the list, and can break this.
     */
    ghost predicate Consistent()
      reads this
    {
      && answers.Keys <= IdsOf(questions)
      && (currentIndex == 0 || currentIndex < |questions|)
    }

    /** The question screen: loaded without error, some questions, results hidden. */
    predicate OnQuestionScreen()
      reads this
    {
      !loading && loadError.None? && |questions| > 0 && !showResults
    }

    /** The question screen would render `questions[currentIndex]`, which is past the list. */
    predicate ReadsPastList()
      reads this
    {
      OnQuestionScreen() && currentIndex >= |questions|
    }

    /** The submit button exists on the last question and is enabled once there are as many answers as questions. */
    predicate SubmitEnabled()
      reads this
    {
      currentIndex == |questions| - 1 && |answers.Keys| >= |questions|
    }

    constructor ()
      ensures Valid() && Consistent() && loading && questions == [] && answers == map[] && !showResults
      ensures currentIndex == 0 && loadError.None?
    {
      questions, answers, currentIndex := [], map[], 0;
      showResults, loading, loadError := false, true, None;
    }

    /**
     * `loadQuestions`, run on mount, on every language change and on Retry:
     * up to ten questions of the page language (None when the request fails).
     * An empty list is not an error. A failure sets the error; a success
     * replaces the list but neither clears the error nor touches the answers,
     * the index or the results flag.
     */
    method LoadQuestions(table: Option<seq<Question>>, language: string)
      requires Valid()
      modifies this`questions, this`loading, this`loadError
      ensures Valid() && !loading
      ensures table.None? ==> loadError == Some(FetchFailed) && questions == old(questions)
      ensures table.Some? ==>
        loadError == old(loadError) && questions == FetchQuestions(table.value, language, PRACTICE_QUESTIONS)
      ensures old(loadError).Some? ==> loadError.Some?
    {
      loading := true;
      if table.None? {
        loadError := Some(FetchFailed);
      } else {
        questions := FetchQuestions(table.value, language, PRACTICE_QUESTIONS);
      }
      loading := false;
    }

    /**
     * The load as intended: a success clears the error and starts the
     * practice afresh on the new list, so the page stays consistent.
     */
    method LoadQuestionsCorrected(table: Option<seq<Question>>, language: string)
      requires Valid()
      modifies this`questions, this`loading, this`loadError, this`answers, this`currentIndex, this`showResults
      ensures Valid() && !loading
      ensures table.None? ==> loadError == Some(FetchFailed) && questions == old(questions)
      ensures table.None? ==> answers == old(answers) && currentIndex == old(currentIndex) && showResults == old(showResults)
      ensures table.Some? ==> loadError.None? && questions == FetchQuestions(table.value, language, PRACTICE_QUESTIONS)
      ensures table.Some? ==> answers == map[] && currentIndex == 0 && !showResults
      ensures table.Some? || old(Consistent()) ==> Consistent()
    {
      loading := true;
      if table.None? {
        loadError := Some(FetchFailed);
      } else {
        loadError := None;
        questions := FetchQuestions(table.value, language, PRACTICE_QUESTIONS);
        answers, currentIndex, showResults := map[], 0, false;
      }
      loading := false;
    }

    /** `handleAnswerSelect`: upserts the answer of a displayed question. */
    method SelectAnswer(questionId: QuestionId, optionIndex: int)
      requires Valid() && OnQuestionScreen() && questionId in IdsOf(questions)
      modifies this`answers
      ensures Valid() && (old(Consistent()) ==> Consistent())
      ensures answers == old(answers)[questionId := optionIndex]
    {
      answers := answers[questionId := optionIndex];
    }

    method Previous()
      requires Valid() && OnQuestionScreen() && currentIndex < |questions|
      modifies this`currentIndex
      ensures Valid() && Consistent() == old(Consistent()) && 0 <= currentIndex < |questions|
      ensures currentIndex == PreviousIndex(old(currentIndex))
    {
      currentIndex := PreviousIndex(currentIndex);
    }

    method Next()
      requires Valid() && OnQuestionScreen() && currentIndex < |questions|
      modifies this`currentIndex
      ensures Valid() && Consistent() == old(Consistent()) && 0 <= currentIndex < |questions|
      ensures currentIndex == NextIndex(old(currentIndex), |questions|)
    {
      currentIndex := NextIndex(currentIndex, |questions|);
    }

    /**
     * `handleSubmit`, reachable only through the enabled submit button. On a
     * consistent page every question then has an answer.
     */
    method HandleSubmit()
      requires Valid() && OnQuestionScreen() && SubmitEnabled()
      modifies this`showResults
      ensures Valid() && showResults
      ensures Consistent() ==> forall i :: 0 <= i < |questions| ==> questions[i].id in answers
    {
      if Consistent() {
        AllAnsweredGate(questions, answers);
      }
      showResults := true;
    }

    /** `calculateScore`, computed on the results screen, which the page reaches only with a non-empty list. */
    method CalculateScore() returns (correct: nat, total: nat, percentage: nat)
      requires Valid() && showResults && |questions| > 0
      ensures total == |questions| && correct == CorrectCount(questions, answers)
      ensures correct <= total && percentage <= 100
      ensures percentage == RoundedPercent(correct, total)
      ensures percentage == 100 <==> forall i :: 0 <= i < |questions| ==> IsCorrect(questions[i], answers)
    {
      correct := CountCorrect(questions, answers);
      total := |questions|;
      percentage := RoundedPercent(correct, total);
      FullMarksIffAllCorrect(correct, total);
    }

    /** `resetExam`: no answers, the first question, results hidden. */
    method ResetExam()
      requires Valid()
      modifies this`answers, this`currentIndex, this`showResults
      ensures Valid() && Consistent() && answers == map[] && currentIndex == 0 && !showResults
    {
      answers := map[];
      currentIndex := 0;
      showResults := false;
    }
  }

  // Two English and two Nepali questions, with distinct ids.
  const Q1 := Question("1", "en", Some("Q1"), None, [], 0, None)
  const Q2 := Question("2", "en", Some("Q2"), None, [], 0, None)
  const Q3 := Question("3", "ne", Some("Q3"), None, [], 0, None)
  const Q4 := Question("4", "ne", Some("Q4"), None, [], 0, None)

  /** The English rows of the sample table. */
  lemma SampleEnglishRows()
    ensures WithLanguage([Q1, Q2, Q3, Q4], "en") == [Q1, Q2]
  {
    WithLanguageAppend([Q1, Q2], [Q3, Q4], "en");
    assert [Q1, Q2] + [Q3, Q4] == [Q1, Q2, Q3, Q4];
  }

  /** The Nepali rows of the sample table. */
  lemma SampleNepaliRows()
    ensures WithLanguage([Q1, Q2, Q3, Q4], "ne") == [Q3, Q4]
  {
    WithLanguageAppend([Q1, Q2], [Q3, Q4], "ne");
    assert [Q1, Q2] + [Q3, Q4] == [Q1, Q2, Q3, Q4];
  }

  /** The Nepali rows of the sample table without its last row. */
  lemma ShortNepaliRows()
    ensures WithLanguage([Q1, Q2, Q3], "ne") == [Q3]
  {
    WithLanguageAppend([Q1, Q2], [Q3], "ne");
    assert [Q1, Q2] + [Q3] == [Q1, Q2, Q3];
  }

  /** What a practice load returns from the sample tables in each page language. */
  lemma SampleFetches()
    ensures FetchQuestions([Q1, Q2, Q3, Q4], "en", PRACTICE_QUESTIONS) == [Q1, Q2]
    ensures FetchQuestions([Q1, Q2, Q3, Q4], "ne", PRACTICE_QUESTIONS) == [Q3, Q4]
    ensures FetchQuestions([Q1, Q2, Q3], "ne", PRACTICE_QUESTIONS) == [Q3]
  {
    SampleEnglishRows();
    SampleNepaliRows();
    ShortNepaliRows();
  }

  /** The ids of the two English and the two Nepali sample questions. */
  lemma SampleIds()
    ensures IdsOf([Q1, Q2]) == {"1", "2"} && IdsOf([Q3, Q4]) == {"3", "4"}
    ensures |{"1", "2"}| == 2 && {"1", "2"} !! {"3", "4"}
  {
    assert "1"[0] != "2"[0] && "3"[0] != "1"[0] && "3"[0] != "2"[0] && "4"[0] != "1"[0] && "4"[0] != "2"[0];
    assert Q1 in [Q1, Q2] && Q2 in [Q1, Q2];
    assert Q3 in [Q3, Q4] && Q4 in [Q3, Q4];
  }

  /** Answers to the two English sample questions answer neither Nepali one. */
  lemma EnglishAnswersMissNepali(answers: Answers)
    requires answers.Keys == {"1", "2"}
    ensures |answers.Keys| == 2 && !(answers.Keys <= IdsOf([Q3, Q4]))
    ensures forall i :: 0 <= i < |[Q3, Q4]| ==> [Q3, Q4][i].id !in answers
  {
    SampleIds();
  }

  /** Load the English questions, answer both and move to the second. */
  method AnswerBothEnglish() returns (page: PracticeSession)
    ensures fresh(page) && page.Valid() && page.OnQuestionScreen() && page.Consistent()
    ensures page.questions == [Q1, Q2] && page.answers.Keys == {"1", "2"} && page.currentIndex == 1
  {
    page := new PracticeSession();
    page.LoadQuestions(Some([Q1, Q2, Q3, Q4]), "en");
    assert page.questions == [Q1, Q2] by { SampleFetches(); }
    assert IdsOf(page.questions) == {"1", "2"} by { SampleIds(); }
    page.SelectAnswer("1", 0);
    page.SelectAnswer("2", 0);
    page.Next();
  }

  /**
   * From there, switch the page to Nepali: the list is replaced, the two
   * stale answers stay, and the submit button is enabled although no Nepali
   * question has an answer.
   */
  method StaleAnswersEnableSubmit() returns (page: PracticeSession)
    ensures page.Valid() && page.OnQuestionScreen() && page.SubmitEnabled()
    ensures !page.Consistent()
    ensures forall i :: 0 <= i < |page.questions| ==> page.questions[i].id !in page.answers
  {
    page := AnswerBothEnglish();
    page.LoadQuestions(Some([Q1, Q2, Q3, Q4]), "ne");
    assert page.questions == [Q3, Q4] by { SampleFetches(); }
    EnglishAnswersMissNepali(page.answers);
  }

  /**
   * From there, switch to Nepali with only one Nepali question in the table:
   * the index stays at 1 and the question screen reads past the end of the list.
   */
  method ReloadLeavesIndexPastList() returns (page: PracticeSession)
    ensures page.Valid() && page.ReadsPastList()
  {
    page := AnswerBothEnglish();
    page.LoadQuestions(Some([Q1, Q2, Q3]), "ne");
    assert page.questions == [Q3] by { SampleFetches(); }
  }

  /** The same switch to Nepali with the intended load: the page starts afresh on the new list. */
  method ReloadStartsAfresh() returns (page: PracticeSession)
    ensures page.Valid() && page.Consistent() && page.OnQuestionScreen() && !page.SubmitEnabled()
    ensures page.questions == [Q3, Q4] && page.answers == map[] && page.currentIndex == 0
  {
    page := AnswerBothEnglish();
    page.LoadQuestionsCorrected(Some([Q1, Q2, Q3, Q4]), "ne");
    assert page.questions == [Q3, Q4] by { SampleFetches(); }
  }
}
