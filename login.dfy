/**
 * The user login page: an e-mail and password form, its validation, and the
 * route chosen after a successful sign-in from the role of the profile.
 */
module Login {
  import opened Wrappers
  import opened Text

  datatype Field = Email | Password

  datatype LoginForm = LoginForm(email: string, password: string)

  /**
   * `validate`: the e-mail rule shared with the sign-up form, and a required
   * password of any length.
   */
  function Errors(form: LoginForm): (errors: map<Field, string>)
    ensures Email in errors <==> !MatchesEmailPattern(form.email)
    ensures Email in errors ==> Some(errors[Email]) == EmailError(form.email)
    ensures Password in errors <==> form.password == ""
    ensures Password in errors ==> errors[Password] == "Required"
  {
    var e := if EmailError(form.email).Some? then map[Email := EmailError(form.email).value] else map[];
    if form.password == "" then e[Password := "Required"] else e
  }

  /** Any non-empty password passes, however short: the length rule belongs to the sign-up form only. */
  lemma ShortPasswordAccepted()
    ensures Errors(LoginForm("ram@mail.np", "x")) == map[]
  {
    EmailPatternAccepts();
  }

  datatype Route = AdminDashboard | UserDashboard

  /** The path a route stands for. */
  function PathOf(r: Route): string {
    match r
    case AdminDashboard => "/admin/dashboard"
    case UserDashboard => "/user/dashboard"
  }

  /** `profile?.role === 'admin'` sends an administrator to the admin dashboard; anything else, no profile included, to the user dashboard. */
  function RouteAfterSignIn(role: Option<string>): (r: Route)
    ensures r == AdminDashboard <==> role == Some("admin")
  {
    if role == Some("admin") then AdminDashboard else UserDashboard
  }

  /** `err.message || 'Invalid email or password'`. */
  function SignInErrorMessage(message: string): (r: string)
    ensures r != ""
    ensures message != "" ==> r == message
  {
    if message != "" then message else "Invalid email or password"
  }

  /** The result of `signIn`: the role of the signed-in profile, or the message of the error thrown. */
  datatype SignInResult = SignedIn(role: Option<string>) | SignInFailed(message: string)

  class LoginPage {
    var form: LoginForm
    var errors: map<Field, string>
    var submitting: bool
    /** The credentials handed to `signIn`, oldest first. */
    var attempts: seq<LoginForm>
    /** Where the page has navigated, None while it is still shown. */
    var navigatedTo: Option<Route>

    ghost predicate Valid()
      reads this
    {
      !submitting
    }

    constructor ()
      ensures Valid() && form == LoginForm("", "") && errors == map[]
      ensures attempts == [] && navigatedTo.None?
    {
      form := LoginForm("", "");
      errors := map[];
      submitting := false;
      attempts := [];
      navigatedTo := None;
    }

    /** `update`: stores the value; a shown error of that field is blanked, other errors stay. */
    method Update(field: Field, value: string)
      requires Valid()
      modifies this`form, this`errors
      ensures Valid()
      ensures field == Email ==> form == old(form).(email := value)
      ensures field == Password ==> form == old(form).(password := value)
      ensures field in old(errors) && old(errors)[field] != "" ==> errors == old(errors)[field := ""]
      ensures !(field in old(errors) && old(errors)[field] != "") ==> errors == old(errors)
    {
      form := if field == Email then form.(email := value) else form.(password := value);
      if field in errors && errors[field] != "" {
        errors := errors[field := ""];
      }
    }

    /**
     * `handleSubmit`: an invalid form shows its errors and signs nobody in;
     * a valid one is sent once, and then either navigates by role or shows
     * the sign-in error under the password.
     */
    method HandleSubmit(result: SignInResult)
      requires Valid()
      modifies this`errors, this`submitting, this`attempts, this`navigatedTo
      ensures Valid() && form == old(form)
      ensures Errors(form) != map[] ==>
        errors == Errors(form) && attempts == old(attempts) && navigatedTo == old(navigatedTo)
      ensures Errors(form) == map[] ==> attempts == old(attempts) + [form]
      ensures Errors(form) == map[] && result.SignedIn? ==>
        navigatedTo == Some(RouteAfterSignIn(result.role)) && errors == map[]
      ensures Errors(form) == map[] && result.SignInFailed? ==>
        navigatedTo == old(navigatedTo) && errors == map[Password := SignInErrorMessage(result.message)]
    {
      errors := Errors(form);
      if errors != map[] {
        return;
      }
      submitting := true;
      errors := map[];
      attempts := attempts + [form];
      match result {
        case SignedIn(role) =>
          navigatedTo := Some(RouteAfterSignIn(role));
        case SignInFailed(message) =>
          errors := map[Password := SignInErrorMessage(message)];
      }
      submitting := false;
    }
  }
}
