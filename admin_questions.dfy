/**
 * The administrator's question editor: a form of one question with four
 * options, checked and turned into the stored shape on save, and turned
 * back into a form when a stored question is edited.
 */
module AdminQuestions {
  import opened Wrappers
  import opened Text
  import opened Notices

  /** A stored option: older rows hold the bare string, newer ones an object with a `text` field. */
  datatype StoredOption = Plain(s: string) | Wrapped(text: string)

  function OptionText(o: StoredOption): (t: string)
    ensures o.Plain? ==> t == o.s
    ensures o.Wrapped? ==> t == o.text
  {
    match o
    case Plain(s) => s
    case Wrapped(text) => text
  }

  datatype QuestionForm = QuestionForm(
    language: string,
    questionText: string,
    questionImageUrl: string,
    options: seq<string>,
    correctIndex: int,
    category: string)

  const EMPTY_FORM := QuestionForm("en", "", "", ["", "", "", ""], 0, "")

  /** What the editor sends to the questions table; the optional columns are null when absent. */
  datatype QuestionPayload = QuestionPayload(
    language: string,
    questionText: Option<string>,
    questionImageUrl: Option<string>,
    options: seq<StoredOption>,
    correctIndex: int,
    category: Option<string>)

  /** A row of the questions table. */
  datatype StoredQuestion = StoredQuestion(id: string, payload: QuestionPayload)

  /** `v || ''`: null reads back as the empty string. */
  function EmptyIfNull(v: Option<string>): (s: string)
    ensures v.Some? ==> s == v.value
    ensures v.None? ==> s == ""
  {
    match v
    case Some(x) => x
    case None => ""
  }

  /** Whether some option is blank after trimming. */
  predicate SomeOptionBlank(options: seq<string>) {
    exists i :: 0 <= i < |options| && IsBlank(options[i])
  }

  /**
   * The two checks of `handleSubmit`, in order: a question needs text or an
   * image, and every option must be filled.
   */
  function SaveError(form: QuestionForm): (e: Option<string>)
    ensures e == Some("Please provide question text or image.") <==> form.questionText == "" && form.questionImageUrl == ""
    ensures e == Some("Please fill all 4 options.") <==>
      (form.questionText != "" || form.questionImageUrl != "") && SomeOptionBlank(form.options)
    ensures e.None? <==> (form.questionText != "" || form.questionImageUrl != "") && !SomeOptionBlank(form.options)
  {
    if form.questionText == "" && form.questionImageUrl == "" then Some("Please provide question text or image.")
    else if SomeOptionBlank(form.options) then Some("Please fill all 4 options.")
    else None
  }

  /** The empty form is refused for its missing question. */
  lemma EmptyFormRefused()
    ensures SaveError(EMPTY_FORM) == Some("Please provide question text or image.")
  {
  }

  /** `form.options.map((opt) => ({ text: opt }))`. */
  function WrapOptions(options: seq<string>): (r: seq<StoredOption>)
    ensures |r| == |options|
    ensures forall i :: 0 <= i < |options| ==> r[i] == Wrapped(options[i])
  {
    seq(|options|, i requires 0 <= i < |options| => Wrapped(options[i]))
  }

  function BuildPayload(form: QuestionForm): (p: QuestionPayload)
    ensures p.language == form.language && p.correctIndex == form.correctIndex
    ensures p.questionText == NoneIfEmpty(form.questionText)
    ensures p.questionImageUrl == NoneIfEmpty(form.questionImageUrl)
    ensures p.category == NoneIfEmpty(form.category)
    ensures p.options == WrapOptions(form.options)
  {
    QuestionPayload(form.language, NoneIfEmpty(form.questionText), NoneIfEmpty(form.questionImageUrl),
      WrapOptions(form.options), form.correctIndex, NoneIfEmpty(form.category))
  }

  /** `startEdit`'s form for a stored question: each option as its text, a null column as `''`. */
  function EditForm(q: StoredQuestion): (form: QuestionForm)
    ensures form.language == q.payload.language && form.correctIndex == q.payload.correctIndex
    ensures |form.options| == |q.payload.options|
    ensures forall i :: 0 <= i < |form.options| ==> form.options[i] == OptionText(q.payload.options[i])
    ensures form.questionText == EmptyIfNull(q.payload.questionText)
    ensures form.questionImageUrl == EmptyIfNull(q.payload.questionImageUrl)
    ensures form.category == EmptyIfNull(q.payload.category)
  {
    var p := q.payload;
    QuestionForm(p.language, EmptyIfNull(p.questionText), EmptyIfNull(p.questionImageUrl),
      seq(|p.options|, i requires 0 <= i < |p.options| => OptionText(p.options[i])),
      p.correctIndex, EmptyIfNull(p.category))
  }

  lemma EmptyIfNullOfNoneIfEmpty(s: string)
    ensures EmptyIfNull(NoneIfEmpty(s)) == s
  {
  }

  /** Editing a saved question gives back exactly the form it was saved from. */
  lemma EditAfterSave(form: QuestionForm, id: string)
    ensures EditForm(StoredQuestion(id, BuildPayload(form))) == form
  {
    var r := EditForm(StoredQuestion(id, BuildPayload(form)));
    EmptyIfNullOfNoneIfEmpty(form.questionText);
    EmptyIfNullOfNoneIfEmpty(form.questionImageUrl);
    EmptyIfNullOfNoneIfEmpty(form.category);
    assert r.options == form.options;
  }

  /** Older rows with bare-string options are edited with the same strings. */
  lemma EditPlainOptions(q: StoredQuestion)
    requires forall i :: 0 <= i < |q.payload.options| ==> q.payload.options[i].Plain?
    ensures forall i :: 0 <= i < |q.payload.options| ==> EditForm(q).options[i] == q.payload.options[i].s
  {
  }

  /** A write to the questions table. */
  datatype QuestionWrite = UpdateQuestion(id: string, payload: QuestionPayload) | InsertQuestion(payload: QuestionPayload) | DeleteQuestion(id: string)

  /** The form fields other than the options and the correct index. */
  datatype TextField = Language | QuestionText | QuestionImageUrl | Category

  class AdminQuestionsPage {
    var questions: seq<StoredQuestion>
    var loading: bool
    var showForm: bool
    var editingQuestion: Option<StoredQuestion>
    var notification: Option<Notice>
    var form: QuestionForm
    /** The writes made to the questions table, oldest first. */
    var writes: seq<QuestionWrite>

    constructor ()
      ensures questions == [] && loading && !showForm && editingQuestion.None?
      ensures notification.None? && form == EMPTY_FORM && writes == []
    {
      questions := [];
      loading := true;
      showForm := false;
      editingQuestion := None;
      notification := None;
      form := EMPTY_FORM;
      writes := [];
    }

    /** `loadQuestions` with the result of the select: the rows, or None on an error. */
    method LoadQuestions(fetched: Option<seq<StoredQuestion>>)
      modifies this`questions, this`loading, this`notification
      ensures !loading
      ensures fetched.Some? ==> questions == fetched.value && notification == old(notification)
      ensures fetched.None? ==> questions == old(questions)
      ensures fetched.None? ==> notification == Some(Notice(ErrorNotice, "Error", "Failed to load questions."))
    {
      loading := true;
      if fetched.Some? {
        questions := fetched.value;
      } else {
        notification := Some(Notice(ErrorNotice, "Error", "Failed to load questions."));
      }
      loading := false;
    }

    method ResetForm()
      modifies this`form, this`editingQuestion, this`showForm
      ensures form == EMPTY_FORM && editingQuestion.None? && !showForm
    {
      form := EMPTY_FORM;
      editingQuestion := None;
      showForm := false;
    }

    method StartEdit(q: StoredQuestion)
      modifies this`form, this`editingQuestion, this`showForm
      ensures editingQuestion == Some(q) && form == EditForm(q) && showForm
    {
      editingQuestion := Some(q);
      form := EditForm(q);
      showForm := true;
    }

    /** The add/cancel button flips the form's visibility and nothing else. */
    method ToggleForm()
      modifies this`showForm
      ensures showForm == !old(showForm)
    {
      showForm := !showForm;
    }

    method SetText(field: TextField, value: string)
      modifies this`form
      ensures field.Language? ==> form == old(form).(language := value)
      ensures field.QuestionText? ==> form == old(form).(questionText := value)
      ensures field.QuestionImageUrl? ==> form == old(form).(questionImageUrl := value)
      ensures field.Category? ==> form == old(form).(category := value)
    {
      match field {
        case Language => form := form.(language := value);
        case QuestionText => form := form.(questionText := value);
        case QuestionImageUrl => form := form.(questionImageUrl := value);
        case Category => form := form.(category := value);
      }
    }

    /** The correct-answer select. */
    method SetCorrectIndex(index: int)
      modifies this`form
      ensures form == old(form).(correctIndex := index)
    {
      form := form.(correctIndex := index);
    }

    /** Typing into option `idx`: a copy of the options with that one entry replaced. */
    method EditOption(idx: nat, value: string)
      requires idx < |form.options|
      modifies this`form
      ensures |form.options| == |old(form).options| && form.options[idx] == value
      ensures forall i :: 0 <= i < |form.options| && i != idx ==> form.options[i] == old(form).options[i]
      ensures form == old(form).(options := form.options)
    {
      var newOptions := new string[|form.options|](i requires 0 <= i < |form.options| reads this => form.options[i]);
      newOptions[idx] := value;
      form := form.(options := newOptions[..]);
    }

    /**
     * `handleSubmit`, with the write's failure (None when it succeeds): a
     * refused form writes nothing; otherwise the edited question is updated
     * by its id, or a new one inserted, and a success resets the form.
     */
    method HandleSubmit(failed: bool)
      modifies this`form, this`editingQuestion, this`showForm, this`notification, this`writes
      ensures SaveError(old(form)).Some? ==>
        && notification == Some(Notice(ErrorNotice, "Error", SaveError(old(form)).value))
        && writes == old(writes) && form == old(form) && editingQuestion == old(editingQuestion) && showForm == old(showForm)
      ensures SaveError(old(form)).None? && old(editingQuestion).Some? ==>
        writes == old(writes) + [UpdateQuestion(old(editingQuestion).value.id, BuildPayload(old(form)))]
      ensures SaveError(old(form)).None? && old(editingQuestion).None? ==>
        writes == old(writes) + [InsertQuestion(BuildPayload(old(form)))]
      ensures SaveError(old(form)).None? && !failed ==>
        && notification == Some(Notice(SuccessNotice, "Success",
             if old(editingQuestion).Some? then "Question updated successfully." else "Question added successfully."))
        && form == EMPTY_FORM && editingQuestion.None? && !showForm
      ensures SaveError(old(form)).None? && failed ==>
        && notification == Some(Notice(ErrorNotice, "Error", "Failed to save question."))
        && form == old(form) && editingQuestion == old(editingQuestion) && showForm == old(showForm)
    {
      var refusal := SaveError(form);
      if refusal.Some? {
        notification := Some(Notice(ErrorNotice, "Error", refusal.value));
        return;
      }
      var payload := BuildPayload(form);
      if editingQuestion.Some? {
        writes := writes + [UpdateQuestion(editingQuestion.value.id, payload)];
      } else {
        writes := writes + [InsertQuestion(payload)];
      }
      if failed {
        notification := Some(Notice(ErrorNotice, "Error", "Failed to save question."));
        return;
      }
      notification := Some(Notice(SuccessNotice, "Success",
        if editingQuestion.Some? then "Question updated successfully." else "Question added successfully."));
      ResetForm();
    }

    /** `handleDelete`: nothing happens unless the administrator confirms. */
    method HandleDelete(id: string, confirmed: bool, failed: bool)
      modifies this`notification, this`writes
      ensures !confirmed ==> writes == old(writes) && notification == old(notification)
      ensures confirmed ==> writes == old(writes) + [DeleteQuestion(id)]
      ensures confirmed && !failed ==> notification == Some(Notice(SuccessNotice, "Success", "Question deleted successfully."))
      ensures confirmed && failed ==> notification == Some(Notice(ErrorNotice, "Error", "Failed to delete question."))
    {
      if !confirmed {
        return;
      }
      writes := writes + [DeleteQuestion(id)];
      if failed {
        notification := Some(Notice(ErrorNotice, "Error", "Failed to delete question."));
      } else {
        notification := Some(Notice(SuccessNotice, "Success", "Question deleted successfully."));
      }
    }
  }
}
