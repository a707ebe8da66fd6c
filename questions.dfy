/**
 * What the timed exam and the practice exam share: the question record, the
 * answer map, scoring (count of correct answers, rounded percentage, pass
 * mark), the clamped previous/next navigation and the question query.
 */
module Questions {
  import opened Wrappers

  type QuestionId = string

  /** One answer option as stored: a plain string, or an object with a text and an optional image. */
  datatype StoredOption = Plain(text: string) | Rich(text: string, image: Option<string>)

  /** A row of the questions table. */
  datatype Question = Question(
    id: QuestionId,
    language: string,
    questionText: Option<string>,
    questionImageUrl: Option<string>,
    options: seq<StoredOption>,
    correctIndex: int,
    category: Option<string>)

  /** The chosen option index per question id. */
  type Answers = map<QuestionId, int>

  const PASS_MARK: nat := 70

  function IdsOf(qs: seq<Question>): set<QuestionId> {
    set q | q in qs :: q.id
  }

  // ---------------------------------------------------------------- scoring

  /** `answers[q.id] === q.correct_index`: an unanswered question is never correct. */
  predicate IsCorrect(q: Question, answers: Answers) {
    q.id in answers && answers[q.id] == q.correctIndex
  }

  /** The number of questions whose recorded answer is the correct option. */
  function CorrectCount(qs: seq<Question>, answers: Answers): (c: nat)
    ensures c <= |qs|
    ensures c == |qs| <==> forall i :: 0 <= i < |qs| ==> IsCorrect(qs[i], answers)
    ensures c == 0 <==> forall i :: 0 <= i < |qs| ==> !IsCorrect(qs[i], answers)
  {
    if qs == [] then 0
    else CorrectCount(qs[..|qs| - 1], answers) + (if IsCorrect(qs[|qs| - 1], answers) then 1 else 0)
  }

  /** The counting loop of `submitExam` and `calculateScore`. */
  method CountCorrect(qs: seq<Question>, answers: Answers) returns (correct: nat)
    ensures correct == CorrectCount(qs, answers)
  {
    correct := 0;
    for i := 0 to |qs|
      invariant correct == CorrectCount(qs[..i], answers)
    {
      assert qs[..i + 1][..i] == qs[..i];
      if qs[i].id in answers && answers[qs[i].id] == qs[i].correctIndex {
        correct := correct + 1;
      }
    }
    assert qs[..|qs|] == qs;
  }

  /** Only the answers to the listed questions matter: stale keys never change the count. */
  lemma {:induction false} CorrectCountOnlyReadsListedIds(qs: seq<Question>, a: Answers, b: Answers)
    requires forall i :: 0 <= i < |qs| ==> (qs[i].id in a <==> qs[i].id in b)
    requires forall i :: 0 <= i < |qs| && qs[i].id in a ==> a[qs[i].id] == b[qs[i].id]
    ensures CorrectCount(qs, a) == CorrectCount(qs, b)
  {
    if qs != [] {
      CorrectCountOnlyReadsListedIds(qs[..|qs| - 1], a, b);
    }
  }

  /**
   * `Math.round(correct / total * 100)` in integer arithmetic: the nearest whole
   * percentage, halves rounded up.
   */
  function RoundedPercent(correct: nat, total: nat): (score: nat)
    requires 0 < total && correct <= total
    ensures score <= 100
    ensures 2 * total * score <= 200 * correct + total < 2 * total * (score + 1)
  {
    var a, b := 200 * correct + total, 2 * total;
    var q := a / b;
    assert b * q <= a < b * q + b;
    assert q <= 100 by {
      if q > 100 {
        assert b * q >= b * 101 by { MulMonotone(b, 101, q); }
      }
    }
    q
  }

  lemma MulMonotone(b: nat, x: nat, y: nat)
    requires x <= y
    ensures b * x <= b * y
  {
  }

  /** A score of 100 scales linearly. */
  lemma MulHundred(b: nat, s: nat)
    ensures s == 100 ==> b * s == 100 * b
  {
  }

  /** A perfect score needs every answer right (with fewer than 200 questions, as here). */
  lemma {:induction false} FullMarksIffAllCorrect(correct: nat, total: nat)
    requires 0 < total < 200 && correct <= total
    ensures RoundedPercent(correct, total) == 100 <==> correct == total
  {
    var s := RoundedPercent(correct, total);
    if correct < total {
      assert 200 * correct + total <= 200 * total - 200 + total;
      MulHundred(2 * total, s);
    } else if s < 100 {
      MulMonotone(2 * total, s + 1, 100);
    }
  }

  /** Passing (score >= 70) means at least 69.5 % of the answers are right. */
  lemma {:induction false} PassIffRatio(correct: nat, total: nat)
    requires 0 < total && correct <= total
    ensures RoundedPercent(correct, total) >= PASS_MARK <==> 200 * correct >= 139 * total
  {
    var s := RoundedPercent(correct, total);
    if s >= 70 {
      MulMonotone(2 * total, 70, s);
    } else {
      MulMonotone(2 * total, s + 1, 70);
    }
  }

  /** Four of four correct passes with 100; six of ten correct fails with 60. */
  lemma ScoringExamples()
    ensures RoundedPercent(4, 4) == 100 && RoundedPercent(4, 4) >= PASS_MARK
    ensures RoundedPercent(6, 10) == 60 && RoundedPercent(6, 10) < PASS_MARK
  {
  }

  // ---------------------------------------------------------------- navigation

  /** `Math.max(0, prev - 1)`: one question back, staying on the first. */
  function PreviousIndex(i: int): (r: int)
    requires 0 <= i
    ensures 0 <= r <= i && i - r <= 1
    ensures r == i <==> i == 0
  {
    if i - 1 > 0 then i - 1 else 0
  }

  /** `Math.min(questions.length - 1, prev + 1)`: one question on, staying on the last. */
  function NextIndex(i: int, count: int): (r: int)
    requires 0 <= i < count
    ensures i <= r < count && r - i <= 1
    ensures r == i <==> i == count - 1
  {
    if count - 1 < i + 1 then count - 1 else i + 1
  }

  /** Going on and back returns to the same question unless it is the last one. */
  lemma NextThenPrevious(i: int, count: int)
    requires 0 <= i < count - 1
    ensures PreviousIndex(NextIndex(i, count)) == i
  {
  }

  // ---------------------------------------------------------------- loading

  /** The `language` column a page asks for: `'ne'` for Nepali, `'en'` for anything else. */
  function QueryLanguage(language: string): (r: string)
    ensures r == "ne" || r == "en"
    ensures r == "ne" <==> language == "ne"
  {
    if language == "ne" then "ne" else "en"
  }

  /** The rows of `table` in the given language, in table order. */
  function WithLanguage(table: seq<Question>, lang: string): (r: seq<Question>)
    ensures |r| <= |table|
    ensures forall i :: 0 <= i < |r| ==> r[i].language == lang && r[i] in table
    ensures forall q :: q in table && q.language == lang ==> q in r
  {
    if table == [] then []
    else
      var rest := WithLanguage(table[1..], lang);
      assert forall q :: q in table ==> q == table[0] || q in table[1..];
      if table[0].language == lang then [table[0]] + rest else rest
  }

  /** One row in front of a table: kept in front exactly when it has the language. */
  lemma WithLanguageCons(q: Question, t: seq<Question>, lang: string)
    ensures WithLanguage([q] + t, lang) == if q.language == lang then [q] + WithLanguage(t, lang) else WithLanguage(t, lang)
  {
    assert ([q] + t)[1..] == t;
  }

  /** The filter keeps table order: the rows of a concatenation are those of each part, in turn. */
  lemma {:induction false} WithLanguageAppend(a: seq<Question>, b: seq<Question>, lang: string)
    ensures WithLanguage(a + b, lang) == WithLanguage(a, lang) + WithLanguage(b, lang)
  {
    if a == [] {
      assert a + b == b;
    } else {
      var q, t := a[0], a[1..];
      assert a == [q] + t && a + b == [q] + (t + b);
      WithLanguageCons(q, t + b, lang);
      WithLanguageCons(q, t, lang);
      WithLanguageAppend(t, b, lang);
      var x, y := WithLanguage(t, lang), WithLanguage(b, lang);
      assert [q] + (x + y) == ([q] + x) + y;
    }
  }

  /** `.eq('language', …).limit(limit)`: the first `limit` rows in the page's language, in table order. */
  function FetchQuestions(table: seq<Question>, language: string, limit: nat): (r: seq<Question>)
    ensures |r| <= limit
    ensures forall i :: 0 <= i < |r| ==> r[i].language == QueryLanguage(language) && r[i] in table
    ensures |r| == (if |WithLanguage(table, QueryLanguage(language))| < limit
                    then |WithLanguage(table, QueryLanguage(language))| else limit)
    ensures r == WithLanguage(table, QueryLanguage(language))[..|r|]
  {
    var all := WithLanguage(table, QueryLanguage(language));
    if |all| <= limit then all else all[..limit]
  }

  /** Why a load showed the error screen. */
  datatype LoadError = NoQuestions | FetchFailed
}
