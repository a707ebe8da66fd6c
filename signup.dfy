/**
 * The sign-up page: a form of text fields and two terms check-boxes, the
 * per-field validation run on submit (including the at-least-18 age rule on
 * the date of birth), the notice it raises, and the request it sends.
 */
module SignUp {
  import opened Wrappers
  import opened Text
  import opened Notices

  datatype Field =
    | FirstName | MiddleName | LastName | NepaliName | Dob | Gender | BloodGroup
    | Phone | Email | Password | ConfirmPassword | TermsExam | TermsSystem
  {
    predicate IsCheckbox() {
      this == TermsExam || this == TermsSystem
    }
  }

  /** What a form control hands to `update`: text, or the state of a check-box. */
  datatype Value = TextValue(s: string) | Checked(on: bool)

  predicate Fits(f: Field, v: Value) {
    f.IsCheckbox() <==> v.Checked?
  }

  /** The form object. */
  datatype Form = Form(
    firstName: string, middleName: string, lastName: string, nepaliName: string,
    dob: string, gender: string, bloodGroup: string, phone: string, email: string,
    password: string, confirmPassword: string, termsExam: bool, termsSystem: bool)
  {
    /** `form[field]`. */
    function Get(f: Field): (v: Value)
      ensures Fits(f, v)
    {
      match f
      case FirstName => TextValue(firstName)
      case MiddleName => TextValue(middleName)
      case LastName => TextValue(lastName)
      case NepaliName => TextValue(nepaliName)
      case Dob => TextValue(dob)
      case Gender => TextValue(gender)
      case BloodGroup => TextValue(bloodGroup)
      case Phone => TextValue(phone)
      case Email => TextValue(email)
      case Password => TextValue(password)
      case ConfirmPassword => TextValue(confirmPassword)
      case TermsExam => Checked(termsExam)
      case TermsSystem => Checked(termsSystem)
    }

    /** `{ ...form, [field]: value }`: the one field replaced, every other field kept. */
    function With(f: Field, v: Value): (r: Form)
      requires Fits(f, v)
      ensures r.Get(f) == v
      ensures forall g: Field :: g != f ==> r.Get(g) == Get(g)
    {
      match f
      case FirstName => this.(firstName := v.s)
      case MiddleName => this.(middleName := v.s)
      case LastName => this.(lastName := v.s)
      case NepaliName => this.(nepaliName := v.s)
      case Dob => this.(dob := v.s)
      case Gender => this.(gender := v.s)
      case BloodGroup => this.(bloodGroup := v.s)
      case Phone => this.(phone := v.s)
      case Email => this.(email := v.s)
      case Password => this.(password := v.s)
      case ConfirmPassword => this.(confirmPassword := v.s)
      case TermsExam => this.(termsExam := v.on)
      case TermsSystem => this.(termsSystem := v.on)
    }
  }

  const EMPTY_FORM := Form("", "", "", "", "", "", "", "", "", "", "", false, false)

  // ---------------------------------------------------------------- age

  /** The parts of `new Date()` the age rule reads: `getFullYear()`, `getMonth()` (0-based), `getDate()`. */
  datatype Today = Today(year: int, month0: int, date: int)

  /** (y1, m1, d1) is not later than (y2, m2, d2) in calendar order. */
  predicate OnOrBefore(y1: int, m1: int, d1: int, y2: int, m2: int, d2: int) {
    y1 < y2 || (y1 == y2 && (m1 < m2 || (m1 == m2 && d1 <= d2)))
  }

  /**
   * The age computed from the parsed year, month (1-based) and day: the number
   * of birthdays that have come by today, so the birthday of that age is on or
   * before today and the next one is after it.
   */
  function AgeOn(year: int, month: int, day: int, today: Today): (age: int)
    ensures OnOrBefore(year + age, month, day, today.year, today.month0 + 1, today.date)
    ensures !OnOrBefore(year + age + 1, month, day, today.year, today.month0 + 1, today.date)
  {
    var age := today.year - year;
    var beforeBirthday := today.month0 < month - 1 || (today.month0 == month - 1 && today.date < day);
    if beforeBirthday then age - 1 else age
  }

  /**
   * The date of birth split on `-` and read with `parseInt`: a value only when
   * there are exactly three parts and none reads as NaN.
   */
  function DobParts(dob: string): (r: Option<(int, int, int)>)
    ensures r.Some? <==>
      (|Split(dob, '-')| == 3
       && ParseIntJs(Split(dob, '-')[0]).Some? && ParseIntJs(Split(dob, '-')[1]).Some?
       && ParseIntJs(Split(dob, '-')[2]).Some?)
    ensures r.Some? ==>
      (Some(r.value.0) == ParseIntJs(Split(dob, '-')[0])
       && Some(r.value.1) == ParseIntJs(Split(dob, '-')[1]) && Some(r.value.2) == ParseIntJs(Split(dob, '-')[2]))
  {
    var parts := Split(dob, '-');
    if |parts| == 3 && ParseIntJs(parts[0]).Some? && ParseIntJs(parts[1]).Some? && ParseIntJs(parts[2]).Some? then
      Some((ParseIntJs(parts[0]).value, ParseIntJs(parts[1]).value, ParseIntJs(parts[2]).value))
    else None
  }

  /** An ISO date `YYYY-MM-DD` of plain numerals is read back part by part. */
  lemma DobPartsOfIso(y: string, m: string, d: string)
    requires IsNumeral(y) && IsNumeral(m) && IsNumeral(d)
    ensures DobParts(y + "-" + m + "-" + d) == Some((NumeralValue(y) as int, NumeralValue(m) as int, NumeralValue(d) as int))
  {
    NumeralExcludes(y, '-');
    NumeralExcludes(m, '-');
    NumeralExcludes(d, '-');
    SplitThree(y, m, d, '-');
    ParseIntOfNumeral(y);
    ParseIntOfNumeral(m);
    ParseIntOfNumeral(d);
  }

  /**
   * The age the rule finds for a non-blank date of birth, when it finds one:
   * three parts that are numbers and a date `new Date(year, month - 1, day)`
   * can represent. Which triples that is depends on the JavaScript time range
   * and is given as `representable`.
   */
  function AgeFromDob(dob: string, today: Today, representable: (int, int, int) -> bool): (r: Option<int>)
    ensures r.Some? <==> DobParts(dob).Some? && representable(DobParts(dob).value.0, DobParts(dob).value.1, DobParts(dob).value.2)
  {
    match DobParts(dob)
    case None => None
    case Some((year, month, day)) =>
      if representable(year, month, day) then Some(AgeOn(year, month, day, today)) else None
  }

  const ADULT_AGE := 18

  // ---------------------------------------------------------------- notices

  /** `Math.max(1, 18 - age)`: below 18 the lower bound never applies. */
  function YearsToWait(age: int): (r: int)
    requires age < ADULT_AGE
    ensures r == ADULT_AGE - age && r >= 1
  {
    if 1 < ADULT_AGE - age then ADULT_AGE - age else 1
  }

  /** The warning raised for an under-age date of birth; singular "year" exactly when one year is missing. */
  function UnderAgeNotice(age: int): (n: Notice)
    requires age < ADULT_AGE
    ensures n.kind == WarningNotice
    ensures n.message == "You need " + IntToString(ADULT_AGE - age) + " more "
      + (if age == ADULT_AGE - 1 then "year" else "years") + " to be eligible to create an account."
  {
    var remaining := YearsToWait(age);
    var yearsText := if remaining == 1 then "year" else "years";
    Notice(WarningNotice, "Age requirement not met",
      "You need " + IntToString(remaining) + " more " + yearsText + " to be eligible to create an account.")
  }

  // ---------------------------------------------------------------- validation

  /**
   * Every rule of the form, as one condition: what has to hold for the form
   * to be submitted.
   */
  predicate Acceptable(form: Form, today: Today, representable: (int, int, int) -> bool)
  {
    && !IsBlank(form.firstName)
    && !IsBlank(form.lastName)
    && !IsBlank(form.dob)
    && (AgeFromDob(form.dob, today, representable).Some? ==>
          AgeFromDob(form.dob, today, representable).value >= ADULT_AGE)
    && form.gender != ""
    && form.bloodGroup != ""
    && !IsBlank(form.phone)
    && MatchesEmailPattern(form.email)
    && Utf16Length(form.password) >= 6
    && form.password == form.confirmPassword
    && form.termsExam && form.termsSystem
  }

  /** The under-age warning `validate` raises, None when it raises none. */
  function AgeWarning(form: Form, today: Today, representable: (int, int, int) -> bool): (w: Option<Notice>)
    ensures w.Some? <==>
      !IsBlank(form.dob) && AgeFromDob(form.dob, today, representable).Some?
      && AgeFromDob(form.dob, today, representable).value < ADULT_AGE
  {
    if IsBlank(form.dob) then None
    else
      var age := AgeFromDob(form.dob, today, representable);
      if age.Some? && age.value < ADULT_AGE then Some(UnderAgeNotice(age.value)) else None
  }

  /** The message `validate` stores for one field, None when that field passes. */
  function FieldError(form: Form, f: Field, today: Today, representable: (int, int, int) -> bool): (e: Option<string>)
    ensures e.Some? ==> e.value != ""
  {
    match f
    case FirstName => if IsBlank(form.firstName) then Some("Required") else None
    case LastName => if IsBlank(form.lastName) then Some("Required") else None
    case Dob =>
      if IsBlank(form.dob) then Some("Required")
      else if AgeWarning(form, today, representable).Some? then Some("You must be at least 18 years old.")
      else None
    case Gender => if form.gender == "" then Some("Required") else None
    case BloodGroup => if form.bloodGroup == "" then Some("Required") else None
    case Phone => if IsBlank(form.phone) then Some("Required") else None
    case Email => EmailError(form.email)
    case Password =>
      if form.password == "" then Some("Required")
      else if Utf16Length(form.password) < 6 then Some("Min 6 characters")
      else None
    case ConfirmPassword => if form.password != form.confirmPassword then Some("Passwords do not match") else None
    case TermsExam => if !form.termsExam then Some("Required") else None
    case TermsSystem => if !form.termsSystem then Some("Required") else None
    case MiddleName => None
    case NepaliName => None
  }

  const ALL_FIELDS: set<Field> := {FirstName, MiddleName, LastName, NepaliName, Dob, Gender, BloodGroup,
    Phone, Email, Password, ConfirmPassword, TermsExam, TermsSystem}

  lemma EveryField(f: Field)
    ensures f in ALL_FIELDS
  {
  }

  /** `validate`: the error object, one entry per failing field. */
  function Errors(form: Form, today: Today, representable: (int, int, int) -> bool): (errors: map<Field, string>)
    ensures forall f: Field :: f in errors <==> FieldError(form, f, today, representable).Some?
    ensures forall f :: f in errors ==> errors[f] == FieldError(form, f, today, representable).value
  {
    assert forall f: Field :: f in ALL_FIELDS by {
      forall f: Field ensures f in ALL_FIELDS { EveryField(f); }
    }
    map f | f in ALL_FIELDS && FieldError(form, f, today, representable).Some? ::
      FieldError(form, f, today, representable).value
  }

  /**
   * The rules `validate` applies to the names, the phone and the two
   * choices: a blank name or phone, or an empty gender or blood group.
   */
  lemma ValidationRules(form: Form, today: Today, representable: (int, int, int) -> bool)
    ensures var errors := Errors(form, today, representable);
      && (FirstName in errors <==> IsBlank(form.firstName))
      && (LastName in errors <==> IsBlank(form.lastName))
      && (Phone in errors <==> IsBlank(form.phone))
      && (Gender in errors <==> form.gender == "")
      && (BloodGroup in errors <==> form.bloodGroup == "")
  {
  }

  /**
   * The rules `validate` applies to the date of birth and the address: a
   * blank or under-age date, an address the pattern rejects.
   */
  lemma DobAndEmailRules(form: Form, today: Today, representable: (int, int, int) -> bool)
    ensures var errors := Errors(form, today, representable);
      && (Dob in errors <==> IsBlank(form.dob) || AgeWarning(form, today, representable).Some?)
      && (Email in errors <==> !MatchesEmailPattern(form.email))
  {
  }

  /**
   * The rules `validate` applies to the password and the terms: fewer than
   * six UTF-16 code units (what `length` counts), a confirmation that
   * differs, an unticked box.
   */
  lemma PasswordAndTermsRules(form: Form, today: Today, representable: (int, int, int) -> bool)
    ensures var errors := Errors(form, today, representable);
      && (Password in errors <==> Utf16Length(form.password) < 6)
      && (ConfirmPassword in errors <==> form.password != form.confirmPassword)
      && (TermsExam in errors <==> !form.termsExam)
      && (TermsSystem in errors <==> !form.termsSystem)
  {
    assert FieldError(form, Password, today, representable).Some? <==> Utf16Length(form.password) < 6;
    assert FieldError(form, ConfirmPassword, today, representable).Some? <==> form.password != form.confirmPassword;
    assert FieldError(form, TermsExam, today, representable).Some? <==> !form.termsExam;
    assert FieldError(form, TermsSystem, today, representable).Some? <==> !form.termsSystem;
  }

  /**
   * The messages `validate` stores: the address's own message, "Required"
   * for an empty password and the length message otherwise; the optional
   * names are never in error, and no stored message is empty.
   */
  lemma ValidationMessages(form: Form, today: Today, representable: (int, int, int) -> bool)
    ensures var errors := Errors(form, today, representable);
      && (Email in errors ==> Some(errors[Email]) == EmailError(form.email))
      && (Password in errors ==> (errors[Password] == "Required" <==> form.password == ""))
      && MiddleName !in errors && NepaliName !in errors
      && (forall f :: f in errors ==> errors[f] != "")
  {
    var errors := Errors(form, today, representable);
    assert MiddleName !in errors && NepaliName !in errors;
  }

  /** `validate()` returns true exactly when every rule of the form holds. */
  lemma {:induction false} ValidIffAcceptable(form: Form, today: Today, representable: (int, int, int) -> bool)
    ensures Errors(form, today, representable) == map[] <==> Acceptable(form, today, representable)
  {
    var errors := Errors(form, today, representable);
    ValidationRules(form, today, representable);
    DobAndEmailRules(form, today, representable);
    PasswordAndTermsRules(form, today, representable);
    if Acceptable(form, today, representable) {
      forall f: Field ensures f !in errors {
        assert FieldError(form, f, today, representable).None?;
      }
    } else {
      assert errors.Keys != {};
    }
  }

  /**
   * What an accepted form guarantees about the account it creates: an adult
   * (when the date of birth can be read), a password of at least six UTF-16
   * code units (so at least three characters) typed twice, and an address
   * with no white space and one `@`.
   */
  lemma AcceptedFormShape(form: Form, today: Today, representable: (int, int, int) -> bool)
    requires Acceptable(form, today, representable)
    ensures Utf16Length(form.confirmPassword) >= 6 && |form.confirmPassword| >= 3
    ensures forall i :: 0 <= i < |form.email| ==> !IsSpace(form.email[i])
    ensures exists at :: 0 < at < |form.email| && form.email[at] == '@' && forall j :: 0 <= j < |form.email| && j != at ==> form.email[j] != '@'
    ensures forall y: string, m: string, d: string ::
      form.dob == y + "-" + m + "-" + d && IsNumeral(y) && IsNumeral(m) && IsNumeral(d)
      && representable(NumeralValue(y), NumeralValue(m), NumeralValue(d))
      ==> AgeOn(NumeralValue(y), NumeralValue(m), NumeralValue(d), today) >= ADULT_AGE
  {
    EmailPatternShape(form.email);
    forall y: string, m: string, d: string |
      form.dob == y + "-" + m + "-" + d && IsNumeral(y) && IsNumeral(m) && IsNumeral(d)
      && representable(NumeralValue(y), NumeralValue(m), NumeralValue(d))
      ensures AgeOn(NumeralValue(y), NumeralValue(m), NumeralValue(d), today) >= ADULT_AGE
    {
      DobPartsOfIso(y, m, d);
    }
  }

  /** Three key emoji are six UTF-16 code units: the length rule lets a three-character password through. */
  lemma ThreeCharacterPasswordPasses(form: Form, today: Today, representable: (int, int, int) -> bool)
    requires form.password == "\U{1F511}\U{1F511}\U{1F511}"
    ensures |form.password| == 3 && Password !in Errors(form, today, representable)
  {
    Utf16LengthOfAstral();
  }

  // ---------------------------------------------------------------- request

  /** The fields handed to `signUp`. */
  datatype SignUpRequest = SignUpRequest(
    email: string, password: string, firstName: string, middleName: Option<string>,
    lastName: string, nepaliName: Option<string>, dateOfBirth: string, gender: string,
    bloodGroup: string, phone: string, role: string)

  /** The request built from an accepted form: the typed values, empty optional names left out, role `'user'`. */
  function RequestFor(form: Form): (r: SignUpRequest)
    ensures r.role == "user"
    ensures r.email == form.email && r.password == form.password
    ensures r.firstName == form.firstName && r.lastName == form.lastName && r.dateOfBirth == form.dob
    ensures r.gender == form.gender && r.bloodGroup == form.bloodGroup && r.phone == form.phone
    ensures r.middleName.None? <==> form.middleName == ""
    ensures r.middleName.Some? ==> r.middleName.value == form.middleName
    ensures r.nepaliName.None? <==> form.nepaliName == ""
    ensures r.nepaliName.Some? ==> r.nepaliName.value == form.nepaliName
  {
    SignUpRequest(form.email, form.password, form.firstName,
      NoneIfEmpty(form.middleName), form.lastName, NoneIfEmpty(form.nepaliName),
      form.dob, form.gender, form.bloodGroup, form.phone, "user")
  }

  /** The eleven fields of the form that the request carries. */
  predicate SameSubmittedFields(a: Form, b: Form) {
    && a.email == b.email && a.password == b.password && a.firstName == b.firstName
    && a.middleName == b.middleName && a.lastName == b.lastName && a.nepaliName == b.nepaliName
    && a.dob == b.dob && a.gender == b.gender && a.bloodGroup == b.bloodGroup && a.phone == b.phone
  }

  /**
   * Nothing typed is lost on the way to `signUp`: two forms give the same
   * request exactly when they agree on every field the request carries
   * (only the confirmation and the two terms boxes are left behind).
   */
  lemma RequestForLosesNothing(a: Form, b: Form)
    ensures RequestFor(a) == RequestFor(b) <==> SameSubmittedFields(a, b)
  {
    if RequestFor(a) == RequestFor(b) {
      assert a.middleName == b.middleName by {
        if a.middleName == "" {} else { assert RequestFor(a).middleName.Some?; }
      }
      assert a.nepaliName == b.nepaliName by {
        if a.nepaliName == "" {} else { assert RequestFor(a).nepaliName.Some?; }
      }
    }
  }

  /** The notice of a successful sign-up. */
  const ACCOUNT_CREATED := Notice(SuccessNotice, "Account created",
    "Your account was created successfully. Redirecting to login…")

  /** The notice of a failed sign-up: the thrown message, or a fallback when it is empty. */
  function SignUpFailedNotice(message: string): (n: Notice)
    ensures n.kind == ErrorNotice && n.title == "Sign up failed"
    ensures message != "" ==> n.message == message
    ensures message == "" ==> n.message == "Something went wrong while creating your account."
  {
    Notice(ErrorNotice, "Sign up failed", MessageOr(message, "Something went wrong while creating your account."))
  }

  // ---------------------------------------------------------------- page

  class SignUpPage {
    var form: Form
    var errors: map<Field, string>
    var submitting: bool
    var notification: Option<Notice>
    /** The requests handed to `signUp`, oldest first. */
    var requests: seq<SignUpRequest>
    /** Set once the redirect to `/login` has been scheduled after a successful sign-up. */
    var redirectScheduled: bool

    ghost predicate Valid()
      reads this
    {
      !submitting
    }

    constructor ()
      ensures Valid() && form == EMPTY_FORM && errors == map[] && notification.None?
      ensures requests == [] && !redirectScheduled
    {
      form := EMPTY_FORM;
      errors := map[];
      submitting := false;
      notification := None;
      requests := [];
      redirectScheduled := false;
    }

    /** `update`: stores the value; a shown error of that field is blanked, other errors stay. */
    method Update(field: Field, value: Value)
      requires Valid() && Fits(field, value)
      modifies this`form, this`errors
      ensures Valid()
      ensures form == old(form).With(field, value)
      ensures field in old(errors) && old(errors)[field] != "" ==> errors == old(errors)[field := ""]
      ensures !(field in old(errors) && old(errors)[field] != "") ==> errors == old(errors)
    {
      form := form.With(field, value);
      if field in errors && errors[field] != "" {
        errors := errors[field := ""];
      }
    }

    /**
     * `handleSubmit`: a form that fails validation is not sent (an under-age
     * warning is still shown); an accepted one is sent once, and the outcome
     * of `signUp` (None for success, the error message otherwise) decides
     * between the redirect and an error on the e-mail field.
     */
    method HandleSubmit(today: Today, representable: (int, int, int) -> bool, failure: Option<string>)
      requires Valid()
      modifies this`errors, this`submitting, this`notification, this`requests, this`redirectScheduled
      ensures Valid() && form == old(form)
      ensures !Acceptable(form, today, representable) ==>
        requests == old(requests) && redirectScheduled == old(redirectScheduled)
        && errors == Errors(form, today, representable) && errors != map[]
        && notification == (if AgeWarning(form, today, representable).Some?
                            then AgeWarning(form, today, representable) else old(notification))
      ensures Acceptable(form, today, representable) ==> requests == old(requests) + [RequestFor(form)]
      ensures Acceptable(form, today, representable) && failure.None? ==>
        redirectScheduled && errors == map[] && notification == Some(ACCOUNT_CREATED)
      ensures Acceptable(form, today, representable) && failure.Some? ==>
        errors == map[Email := MessageOr(failure.value, "Sign up failed")]
        && notification == Some(SignUpFailedNotice(failure.value))
        && redirectScheduled == old(redirectScheduled)
    {
      WarnUnderAge(today, representable);
      var accepted := Validate(today, representable);
      if accepted {
        Send(failure);
      }
    }

    /** `validate` as `handleSubmit` calls it: the error object is set, empty exactly for an acceptable form. */
    method Validate(today: Today, representable: (int, int, int) -> bool) returns (accepted: bool)
      modifies this`errors
      ensures accepted <==> Acceptable(form, today, representable)
      ensures errors == Errors(form, today, representable) && (accepted <==> errors == map[])
    {
      ValidIffAcceptable(form, today, representable);
      errors := Errors(form, today, representable);
      accepted := errors == map[];
    }

    /** The age check inside `validate`: an under-age warning, when there is one, becomes the notification. */
    method WarnUnderAge(today: Today, representable: (int, int, int) -> bool)
      modifies this`notification
      ensures notification == if AgeWarning(form, today, representable).Some? then AgeWarning(form, today, representable) else old(notification)
    {
      var warning := AgeWarning(form, today, representable);
      if warning.Some? {
        notification := warning;
      }
    }

    /**
     * The `try` block of `handleSubmit` for an accepted form: the request is
     * sent once; success schedules the redirect, a failure is shown on the
     * e-mail field and in an error notice.
     */
    method Send(failure: Option<string>)
      requires Valid()
      modifies this`errors, this`submitting, this`notification, this`requests, this`redirectScheduled
      ensures Valid() && requests == old(requests) + [RequestFor(form)]
      ensures failure.None? ==> redirectScheduled && errors == old(errors) && notification == Some(ACCOUNT_CREATED)
      ensures failure.Some? ==>
        errors == map[Email := MessageOr(failure.value, "Sign up failed")]
        && notification == Some(SignUpFailedNotice(failure.value))
        && redirectScheduled == old(redirectScheduled)
    {
      submitting := true;
      requests := requests + [RequestFor(form)];
      if failure.None? {
        notification := Some(ACCOUNT_CREATED);
        redirectScheduled := true;
      } else {
        errors := map[Email := MessageOr(failure.value, "Sign up failed")];
        notification := Some(SignUpFailedNotice(failure.value));
      }
      submitting := false;
    }
  }
}
