/**
 * The KYC ("know your customer") profile page: a form of personal and
 * address fields, two document photos and a list of vehicle types, loaded
 * from the user's profile and latest KYC record, validated, and written
 * back as an update of the existing record or a new one.
 */
module Profile {
  import opened Wrappers
  import opened Text
  import opened Notices

  const VEHICLE_TYPES: seq<string> := ["motorcycle", "car", "truck", "bus", "tractor"]

  const PERSONAL_FIELDS: seq<string> :=
    ["firstName", "middleName", "lastName", "nepaliName", "dob", "gender", "bloodGroup", "phone", "email", "citizenshipNumber"]
  const ADDRESS_FIELDS: seq<string> := ["province", "district", "municipality", "ward", "tole"]

  /**
   * The form object. The text fields are keyed by their names, so that the
   * stored personal and address objects can be spread over them; a missing
   * name reads as `''`.
   */
  datatype ProfileForm = ProfileForm(
    texts: map<string, string>,
    citizenshipPhoto: Option<string>,
    photo: Option<string>,
    vehicleTypes: seq<string>)
  {
    function Text(field: string): string {
      Lookup(texts, field)
    }
  }

  const EMPTY_FORM := ProfileForm(map f | f in PERSONAL_FIELDS + ADDRESS_FIELDS :: "", None, None, [])

  /** A KYC row as the page reads it back. */
  datatype KycRecord = KycRecord(
    id: string,
    status: Option<string>,
    personal: Option<map<string, string>>,
    address: Option<map<string, string>>,
    vehicleTypes: Option<seq<string>>)
  {
    /** Whether the stored object (personal or address) has the field. */
    predicate Stores(part: Option<map<string, string>>, field: string) {
      part.Some? && field in part.value
    }
  }

  // ---------------------------------------------------------------- vehicle types

  /** `list.filter((x) => x !== id)`. */
  function Remove(list: seq<string>, id: string): (r: seq<string>)
    ensures id !in r
    ensures forall x :: x != id ==> multiset(r)[x] == multiset(list)[x]
    ensures id !in list ==> r == list
  {
    if list == [] then []
    else
      assert list == [list[0]] + list[1..];
      if list[0] == id then Remove(list[1..], id)
      else [list[0]] + Remove(list[1..], id)
  }

  /** `handleVehicleTypeToggle`: a present id is removed, every copy of it; an absent one is appended. */
  function Toggle(list: seq<string>, id: string): (r: seq<string>)
    ensures id in r <==> id !in list
    ensures forall x :: x != id ==> multiset(r)[x] == multiset(list)[x]
    ensures id !in list ==> r == list + [id]
  {
    if id in list then Remove(list, id) else list + [id]
  }

  lemma {:induction false} RemoveAppended(list: seq<string>, id: string)
    requires id !in list
    ensures Remove(list + [id], id) == list
  {
    if list != [] {
      assert (list + [id])[0] == list[0];
      assert (list + [id])[1..] == list[1..] + [id];
      RemoveAppended(list[1..], id);
      assert [list[0]] + list[1..] == list;
    } else {
      assert [id][1..] == [];
    }
  }

  /** `filter` keeps the order: removing from a concatenation removes from each part. */
  lemma {:induction false} RemoveAppend(a: seq<string>, b: seq<string>, id: string)
    ensures Remove(a + b, id) == Remove(a, id) + Remove(b, id)
  {
    if a == [] {
      assert a + b == b;
    } else {
      assert (a + b)[0] == a[0];
      assert (a + b)[1..] == a[1..] + b;
      RemoveAppend(a[1..], b, id);
    }
  }

  /** Unticking a ticked type and ticking it again keeps the other entries in order and moves it to the end. */
  lemma ToggleTwicePresent(list: seq<string>, id: string)
    requires id in list
    ensures Toggle(Toggle(list, id), id) == Remove(list, id) + [id]
  {
  }

  /** Ticking an unticked vehicle type and unticking it again restores the list. */
  lemma ToggleTwiceAbsent(list: seq<string>, id: string)
    requires id !in list
    ensures Toggle(Toggle(list, id), id) == list
  {
    RemoveAppended(list, id);
  }

  /** For a ticked type the round trip moves it to the end: `["car", "bus"]` becomes `["bus", "car"]`. */
  lemma ToggleTwicePresentReorders()
    ensures Toggle(Toggle(["car", "bus"], "car"), "car") == ["bus", "car"]
  {
    assert Remove(["car", "bus"], "car") == ["bus"] by {
      assert ["car", "bus"][1..] == ["bus"];
      assert Remove(["bus"], "car") == ["bus"];
    }
  }

  // ---------------------------------------------------------------- validation

  const TRIMMED_REQUIRED: set<string> :=
    {"firstName", "lastName", "phone", "citizenshipNumber", "province", "district", "municipality", "ward"}
  const UNTRIMMED_REQUIRED: set<string> := {"dob", "gender", "bloodGroup"}

  /** Whether `validate` reports the given field. */
  predicate Fails(form: ProfileForm, field: string) {
    || (field in TRIMMED_REQUIRED && IsBlank(form.Text(field)))
    || (field in UNTRIMMED_REQUIRED && form.Text(field) == "")
    || (field == "vehicleTypes" && |form.vehicleTypes| == 0)
  }

  /**
   * `validate`: one message per failing field — the eight text fields that
   * must not be blank, the three choices that must not be empty, and the
   * vehicle list that must not be empty.
   */
  function Errors(form: ProfileForm): (errors: map<string, string>)
    ensures forall f :: f in errors <==> Fails(form, f)
    ensures forall f :: f in errors ==> errors[f] == if f == "vehicleTypes" then "Select at least one vehicle type" else "Required"
  {
    map f | f in TRIMMED_REQUIRED + UNTRIMMED_REQUIRED + {"vehicleTypes"} && Fails(form, f) ::
      if f == "vehicleTypes" then "Select at least one vehicle type" else "Required"
  }

  /** A form that passes has every required field filled and at least one vehicle type. */
  lemma PassingFormComplete(form: ProfileForm)
    requires Errors(form) == map[]
    ensures forall f :: f in TRIMMED_REQUIRED ==> !IsBlank(form.Text(f))
    ensures forall f :: f in UNTRIMMED_REQUIRED ==> form.Text(f) != ""
    ensures |form.vehicleTypes| > 0
  {
    forall f | f in TRIMMED_REQUIRED ensures !IsBlank(form.Text(f)) {
      assert f !in Errors(form);
    }
    forall f | f in UNTRIMMED_REQUIRED ensures form.Text(f) != "" {
      assert f !in Errors(form);
    }
    assert "vehicleTypes" !in Errors(form);
  }

  /** The empty form fails on every required field. */
  lemma EmptyFormFails()
    ensures forall f :: f in TRIMMED_REQUIRED + UNTRIMMED_REQUIRED + {"vehicleTypes"} ==> f in Errors(EMPTY_FORM)
  {
    forall f | f in TRIMMED_REQUIRED + UNTRIMMED_REQUIRED
      ensures EMPTY_FORM.Text(f) == "" && Fails(EMPTY_FORM, f)
    {
      assert f in PERSONAL_FIELDS + ADDRESS_FIELDS;
      assert f in EMPTY_FORM.texts;
    }
  }

  // ---------------------------------------------------------------- the written record

  /** The object of the named fields of the form. */
  function Pick(form: ProfileForm, fields: seq<string>): (m: map<string, string>)
    ensures m.Keys == set f | f in fields
    ensures forall f :: f in m ==> m[f] == form.Text(f)
  {
    map f | f in fields :: form.Text(f)
  }

  datatype KycPayload = KycPayload(
    userId: string,
    personal: map<string, string>,
    address: map<string, string>,
    citizenshipPhoto: Option<string>,
    photo: Option<string>,
    vehicleTypes: seq<string>,
    status: string)

  /** The status a submission sends: a rejected record goes back to 'pending', anything else becomes 'submitted'. */
  function SubmitStatus(previous: Option<KycRecord>): (s: string)
    ensures s == "pending" <==> previous.Some? && previous.value.status == Some("rejected")
    ensures s == "pending" || s == "submitted"
  {
    if previous.Some? && previous.value.status == Some("rejected") then "pending" else "submitted"
  }

  function Payload(form: ProfileForm, userId: string, previous: Option<KycRecord>): (p: KycPayload)
    ensures p.userId == userId && p.status == SubmitStatus(previous) && p.vehicleTypes == form.vehicleTypes
    ensures p.personal == Pick(form, PERSONAL_FIELDS) && p.address == Pick(form, ADDRESS_FIELDS)
    ensures p.citizenshipPhoto == form.citizenshipPhoto && p.photo == form.photo
  {
    KycPayload(userId, Pick(form, PERSONAL_FIELDS), Pick(form, ADDRESS_FIELDS),
      form.citizenshipPhoto, form.photo, form.vehicleTypes, SubmitStatus(previous))
  }

  /** The write a submission makes: the existing record updated by its id, or a new one inserted. */
  datatype KycWrite = UpdateById(id: string, payload: KycPayload) | Insert(payload: KycPayload)

  function WriteFor(form: ProfileForm, userId: string, previous: Option<KycRecord>): (w: KycWrite)
    ensures w.UpdateById? <==> previous.Some?
    ensures w.UpdateById? ==> w.id == previous.value.id
    ensures w.payload == Payload(form, userId, previous)
  {
    if previous.Some? then UpdateById(previous.value.id, Payload(form, userId, previous))
    else Insert(Payload(form, userId, previous))
  }

  /** The status badge: the record's status, 'pending' when there is no record or it has none. */
  function DisplayedStatus(kyc: Option<KycRecord>): (s: string)
    ensures kyc.None? ==> s == "pending"
    ensures kyc.Some? && kyc.value.status.Some? && kyc.value.status.value != "" ==> s == kyc.value.status.value
    ensures s != ""
  {
    if kyc.Some? && kyc.value.status.Some? && kyc.value.status.value != "" then kyc.value.status.value else "pending"
  }

  // ---------------------------------------------------------------- loading

  /** The profile columns copied into the form, each defaulting to `''`. */
  const PROFILE_COLUMNS: map<string, string> := map[
    "firstName" := "first_name", "middleName" := "middle_name", "lastName" := "last_name",
    "phone" := "phone", "email" := "email", "dob" := "date_of_birth",
    "gender" := "gender", "bloodGroup" := "blood_group"]

  /** The profile row spread over the form: eight fields set, a missing column as `''`, the rest kept. */
  function MergeProfile(form: ProfileForm, profile: map<string, string>): (r: ProfileForm)
    ensures forall f :: f in PROFILE_COLUMNS ==> r.Text(f) == Lookup(profile, PROFILE_COLUMNS[f])
    ensures forall f :: f !in PROFILE_COLUMNS ==> r.Text(f) == form.Text(f)
    ensures r.vehicleTypes == form.vehicleTypes && r.photo == form.photo && r.citizenshipPhoto == form.citizenshipPhoto
  {
    form.(texts := form.texts + map f | f in PROFILE_COLUMNS :: Lookup(profile, PROFILE_COLUMNS[f]))
  }

  /** The stored personal and address objects spread over the form, and the stored vehicle list when there is one. */
  function MergeKyc(form: ProfileForm, kyc: KycRecord): (r: ProfileForm)
    ensures kyc.vehicleTypes.Some? ==> r.vehicleTypes == kyc.vehicleTypes.value
    ensures kyc.vehicleTypes.None? ==> r.vehicleTypes == form.vehicleTypes
    ensures forall f :: kyc.address.Some? && f in kyc.address.value ==> r.Text(f) == kyc.address.value[f]
    ensures forall f :: kyc.Stores(kyc.personal, f) && !kyc.Stores(kyc.address, f) ==> r.Text(f) == kyc.personal.value[f]
    ensures forall f :: !kyc.Stores(kyc.personal, f) && !kyc.Stores(kyc.address, f) ==> r.Text(f) == form.Text(f)
  {
    var withPersonal := if kyc.personal.Some? then form.texts + kyc.personal.value else form.texts;
    var withAddress := if kyc.address.Some? then withPersonal + kyc.address.value else withPersonal;
    form.(texts := withAddress, vehicleTypes := if kyc.vehicleTypes.Some? then kyc.vehicleTypes.value else form.vehicleTypes)
  }

  /** Reading back what a submission wrote gives the submitted form's text fields and vehicle list. */
  lemma {:induction false} ReloadRestoresSubmission(before: ProfileForm, submitted: ProfileForm, userId: string,
                                                    previous: Option<KycRecord>, id: string)
    ensures var p := Payload(submitted, userId, previous);
      var r := MergeKyc(before, KycRecord(id, Some(p.status), Some(p.personal), Some(p.address), Some(p.vehicleTypes)));
      && (forall f :: f in PERSONAL_FIELDS + ADDRESS_FIELDS ==> r.Text(f) == submitted.Text(f))
      && r.vehicleTypes == submitted.vehicleTypes
  {
    var p := Payload(submitted, userId, previous);
    forall f | f in PERSONAL_FIELDS + ADDRESS_FIELDS
      ensures f in p.personal || f in p.address
    {
      assert f in PERSONAL_FIELDS || f in ADDRESS_FIELDS;
    }
  }

  /** What the KYC query returns: an error (a missing row included), or the latest row. */
  datatype KycFetch = FetchError | Latest(record: KycRecord)

  // ---------------------------------------------------------------- the page

  class ProfilePage {
    var form: ProfileForm
    var kycData: Option<KycRecord>
    var loading: bool
    var submitting: bool
    var notification: Option<Notice>
    /** The writes made to the KYC table, oldest first. */
    var writes: seq<KycWrite>

    constructor ()
      ensures form == EMPTY_FORM && kycData.None? && loading && !submitting
      ensures notification.None? && writes == []
    {
      form := EMPTY_FORM;
      kycData := None;
      loading := true;
      submitting := false;
      notification := None;
      writes := [];
    }

    /**
     * `loadProfileData`, with the signed-in user's profile row (None when
     * there is none) and the result of the KYC query: nothing happens without
     * a user; otherwise the profile fields and then the latest KYC are spread
     * over the form, and loading ends.
     */
    method LoadProfileData(signedIn: bool, profile: Option<map<string, string>>, kyc: KycFetch)
      modifies this`form, this`kycData, this`loading
      ensures !signedIn ==> form == old(form) && kycData == old(kycData) && loading == old(loading)
      ensures signedIn ==> !loading
      ensures signedIn ==>
        var afterProfile := if profile.Some? then MergeProfile(old(form), profile.value) else old(form);
        && (kyc.FetchError? ==> form == afterProfile && kycData == old(kycData))
        && (kyc.Latest? ==> form == MergeKyc(afterProfile, kyc.record) && kycData == Some(kyc.record))
    {
      if !signedIn {
        return;
      }
      loading := true;
      if profile.Some? {
        form := MergeProfile(form, profile.value);
      }
      if kyc.Latest? {
        kycData := Some(kyc.record);
        form := MergeKyc(form, kyc.record);
      }
      loading := false;
    }

    /** `update`: exactly that text field changes. */
    method Update(field: string, value: string)
      modifies this`form
      ensures form == old(form).(texts := old(form).texts[field := value])
      ensures form.Text(field) == value && forall f :: f != field ==> form.Text(f) == old(form).Text(f)
    {
      form := form.(texts := form.texts[field := value]);
    }

    method ToggleVehicleType(id: string)
      modifies this`form
      ensures form == old(form).(vehicleTypes := Toggle(old(form).vehicleTypes, id))
    {
      form := form.(vehicleTypes := Toggle(form.vehicleTypes, id));
    }

    /** The file reader's result stored in one of the two photo fields. */
    method PhotoLoaded(citizenship: bool, dataUrl: string)
      modifies this`form
      ensures citizenship ==> form == old(form).(citizenshipPhoto := Some(dataUrl))
      ensures !citizenship ==> form == old(form).(photo := Some(dataUrl))
    {
      if citizenship {
        form := form.(citizenshipPhoto := Some(dataUrl));
      } else {
        form := form.(photo := Some(dataUrl));
      }
    }

    /** The submit button is disabled while submitting and once the KYC is verified. */
    predicate SubmitDisabled()
      reads this
      ensures SubmitDisabled() <==> submitting || (kycData.Some? && kycData.value.status == Some("verified"))
    {
      submitting || DisplayedStatus(kycData) == "verified"
    }

    /**
     * `handleSubmit` for the signed-in user, with the outcome of the write
     * (the row read back, or the error message): a form that fails
     * validation writes nothing and says so; otherwise exactly one write is
     * made, by id when a record exists, and a success stores the row read
     * back.
     */
    method HandleSubmit(userId: string, outcome: Result)
      modifies this`kycData, this`submitting, this`notification, this`writes
      ensures form == old(form) && !submitting
      ensures Errors(form) != map[] ==>
        writes == old(writes) && kycData == old(kycData)
        && notification == Some(Notice(ErrorNotice, "Validation Error", "Please fill all required fields."))
      ensures Errors(form) == map[] ==> writes == old(writes) + [WriteFor(form, userId, old(kycData))]
      ensures Errors(form) == map[] && outcome.Saved? ==>
        kycData == Some(outcome.row) && notification.Some? && notification.value.kind == SuccessNotice
      ensures Errors(form) == map[] && outcome.Failed? ==>
        kycData == old(kycData)
        && notification == Some(Notice(ErrorNotice, "Submission Failed",
             MessageOr(outcome.message, "Failed to submit KYC. Please try again.")))
    {
      if Errors(form) != map[] {
        submitting := false;
        notification := Some(Notice(ErrorNotice, "Validation Error", "Please fill all required fields."));
      } else {
        Submit(userId, outcome);
      }
    }

    /**
     * The `try` block of `handleSubmit` for a form that passed validation:
     * exactly one write, then the saved row and a success notice, or the
     * error's message.
     */
    method Submit(userId: string, outcome: Result)
      modifies this`kycData, this`submitting, this`notification, this`writes
      ensures !submitting && writes == old(writes) + [WriteFor(form, userId, old(kycData))]
      ensures kycData == (if outcome.Saved? then Some(outcome.row) else old(kycData))
      ensures notification == Some(OutcomeNotice(outcome))
    {
      var write := WriteFor(form, userId, kycData);
      var notice := OutcomeNotice(outcome);
      submitting := true;
      writes := writes + [write];
      if outcome.Saved? {
        kycData := Some(outcome.row);
      }
      notification := Some(notice);
      submitting := false;
    }
  }

  /** The outcome of the update or insert. */
  datatype Result = Saved(row: KycRecord) | Failed(message: string)

  /**
   * The notice `handleSubmit` raises once the write settles: a success
   * notice for a saved row, otherwise the error's own message under
   * "Submission Failed", with a fixed text when the message is empty.
   */
  function OutcomeNotice(outcome: Result): (n: Notice)
    ensures n.kind == SuccessNotice <==> outcome.Saved?
    ensures outcome.Failed? ==>
      n == Notice(ErrorNotice, "Submission Failed",
        MessageOr(outcome.message, "Failed to submit KYC. Please try again."))
  {
    match outcome
    case Saved(_) =>
      Notice(SuccessNotice, "KYC Submitted",
        "Your KYC has been submitted successfully. It will be reviewed by an administrator.")
    case Failed(message) =>
      Notice(ErrorNotice, "Submission Failed", MessageOr(message, "Failed to submit KYC. Please try again."))
  }
}
