/**
 * The administrator login page. Besides the login form it runs a small
 * redirect state machine: `hasNavigated` and `pendingNavigate` flags, a
 * 600 ms timer armed by the auth-state effect while a sign-in is pending,
 * and a 2000 ms fallback armed when `signIn` returns. Each method below is
 * one event: the submit, the return of `signIn`, a change of the auth state
 * (both effects that depend on it, in order), and the two timers firing.
 */
module AdminLogin {
  import opened Wrappers
  import opened Text
  import Login

  const ADMIN_DASHBOARD := "/admin/dashboard"

  /**
   * `signIn(form.email.trim(), form.password)`: the password as typed and
   * the address without surrounding white space.
   */
  function SignInCredentials(form: Login.LoginForm): (c: Login.LoginForm)
    ensures c.email == Trim(form.email) && c.password == form.password
    ensures |c.email| <= |form.email|
    ensures c.email == [] <==> IsBlank(form.email)
    ensures c.email == [] || (!IsSpace(c.email[0]) && !IsSpace(c.email[|c.email| - 1]))
  {
    Login.LoginForm(Trim(form.email), form.password)
  }

  /** JavaScript truthiness of the role: present and not empty. */
  predicate Truthy(role: Option<string>) {
    role.Some? && role.value != ""
  }

  class AdminLoginPage {
    var form: Login.LoginForm
    var errors: map<Login.Field, string>
    var submitting: bool
    var notAdminError: bool
    var pendingNavigate: bool
    var hasNavigated: bool
    /** `navigationTimeoutRef` holds an armed 2000 ms fallback timer. */
    var fallbackArmed: bool
    /**
     * Armed fallback timers the ref no longer holds: arming a new one over a
     * live one, or a fallback callback clearing the ref, leaves a timer that
     * nothing can clear any more.
     */
    var strayFallbacks: nat
    /** The 600 ms timer is armed, holding the role its callback closed over. */
    var pendingTimer: Option<Option<string>>
    /** Calls of `signIn` made and not returned yet. */
    var signInsInFlight: nat
    /** The forms submitted to `signIn`, oldest first; the call receives `SignInCredentials` of each. */
    var attempts: seq<Login.LoginForm>
    /** Every call of `navigate`, oldest first. */
    var navigations: seq<string>
    /** The redirect-or-error decisions taken (`hasNavigated` set) since the page was mounted. */
    ghost var decisions: nat

    constructor ()
      ensures form == Login.LoginForm("", "") && errors == map[]
      ensures !submitting && !notAdminError && !pendingNavigate && !hasNavigated
      ensures !fallbackArmed && strayFallbacks == 0 && pendingTimer.None? && signInsInFlight == 0
      ensures attempts == [] && navigations == [] && decisions == 0
    {
      form := Login.LoginForm("", "");
      errors := map[];
      submitting, notAdminError, pendingNavigate, hasNavigated := false, false, false, false;
      fallbackArmed, strayFallbacks, pendingTimer, signInsInFlight := false, 0, None, 0;
      attempts, navigations := [], [];
      decisions := 0;
    }

    /**
     * `handleSubmit` up to the `await`: an invalid form only shows its errors;
     * a valid one disarms the fallback, clears the errors, the not-admin
     * message and both flags, and calls `signIn` with `SignInCredentials` of
     * the form. Nothing waits for an earlier call: the button is disabled only
     * while `submitting`, and a decision taken during the await clears it.
     */
    method Submit()
      modifies this
      ensures form == old(form) && pendingTimer == old(pendingTimer) && navigations == old(navigations)
      ensures strayFallbacks == old(strayFallbacks) && decisions == old(decisions)
      ensures Login.Errors(form) != map[] ==>
        errors == Login.Errors(form) && signInsInFlight == old(signInsInFlight) && attempts == old(attempts)
        && submitting == old(submitting) && notAdminError == old(notAdminError)
        && pendingNavigate == old(pendingNavigate) && hasNavigated == old(hasNavigated)
        && fallbackArmed == old(fallbackArmed)
      ensures Login.Errors(form) == map[] ==>
        errors == map[] && signInsInFlight == old(signInsInFlight) + 1 && submitting && !fallbackArmed
        && !notAdminError && !hasNavigated && !pendingNavigate
        && attempts == old(attempts) + [form]
    {
      errors := Login.Errors(form);
      if errors == map[] {
        BeginSignIn();
      }
    }

    /** The part of `handleSubmit` after a passing validation, up to the call of `signIn`. */
    method BeginSignIn()
      modifies this
      ensures form == old(form) && pendingTimer == old(pendingTimer) && navigations == old(navigations)
      ensures strayFallbacks == old(strayFallbacks) && decisions == old(decisions)
      ensures errors == map[] && signInsInFlight == old(signInsInFlight) + 1 && submitting && !fallbackArmed
      ensures !notAdminError && !hasNavigated && !pendingNavigate
      ensures attempts == old(attempts) + [form]
    {
      fallbackArmed, submitting, errors := false, true, map[];
      notAdminError, hasNavigated, pendingNavigate := false, false, false;
      attempts := attempts + [form];
      signInsInFlight := signInsInFlight + 1;
    }

    /**
     * The rest of `handleSubmit`, when one of the calls in flight settles
     * (None on success, the error message otherwise): success marks the
     * redirect pending and arms a fresh fallback in the ref, a timer still in
     * the ref becoming a stray one; failure shows the error under the
     * password, clears the pending flag and the busy state, and clears the
     * fallback the ref holds.
     */
    method SignInReturned(failure: Option<string>)
      requires signInsInFlight > 0
      modifies this
      ensures signInsInFlight == old(signInsInFlight) - 1
      ensures form == old(form) && attempts == old(attempts) && navigations == old(navigations)
      ensures hasNavigated == old(hasNavigated) && notAdminError == old(notAdminError)
      ensures pendingTimer == old(pendingTimer) && decisions == old(decisions)
      ensures failure.None? ==>
        pendingNavigate && fallbackArmed && errors == old(errors) && submitting == old(submitting)
        && strayFallbacks == old(strayFallbacks) + (if old(fallbackArmed) then 1 else 0)
      ensures failure.Some? ==>
        !pendingNavigate && !fallbackArmed && !submitting && strayFallbacks == old(strayFallbacks)
        && errors == map[Login.Password := Login.SignInErrorMessage(failure.value)]
    {
      signInsInFlight := signInsInFlight - 1;
      if failure.None? {
        pendingNavigate := true;
        if fallbackArmed {
          strayFallbacks := strayFallbacks + 1;
        }
        fallbackArmed := true;
      } else {
        errors := map[Login.Password := Login.SignInErrorMessage(failure.value)];
        pendingNavigate := false;
        submitting := false;
        fallbackArmed := false;
      }
    }

    /**
     * The decision itself: `hasNavigated` is set, the page stops being busy,
     * and an admin role navigates to the dashboard while any other role
     * (`notAdminOnNoRole`: also when there is none) shows the not-admin message.
     */
    method Decide(role: Option<string>, notAdminOnNoRole: bool)
      requires !hasNavigated
      modifies this`hasNavigated, this`submitting, this`navigations, this`notAdminError, this`decisions
      ensures hasNavigated && !submitting && decisions == old(decisions) + 1
      ensures navigations == old(navigations) + (if role == Some("admin") then [ADMIN_DASHBOARD] else [])
      ensures notAdminError <==>
        old(notAdminError) || (role != Some("admin") && (notAdminOnNoRole || Truthy(role)))
    {
      hasNavigated := true;
      decisions := decisions + 1;
      submitting := false;
      if role == Some("admin") {
        navigations := navigations + [ADMIN_DASHBOARD];
      } else if notAdminOnNoRole || Truthy(role) {
        notAdminError := true;
      }
    }

    /**
     * A change of `user`, `role` or `loading`. The cleanup of the previous
     * run disarms the 600 ms timer; then the redirect effect runs (nothing
     * while loading, signed out, or once a decision was taken; otherwise the
     * fallback in the ref is cleared and a pending sign-in arms the 600 ms
     * timer, while a sign-in found without one is decided at once, a missing
     * role showing no message); then the already-signed-in effect sends an
     * admin to the dashboard unless a sign-in is pending.
     */
    method AuthChanged(loading: bool, userPresent: bool, role: Option<string>)
      modifies this
      ensures form == old(form) && errors == old(errors) && attempts == old(attempts)
      ensures pendingNavigate == old(pendingNavigate) && signInsInFlight == old(signInsInFlight)
      ensures strayFallbacks == old(strayFallbacks)
      ensures var acts := !loading && userPresent && !old(hasNavigated);
        && (!acts ==>
              hasNavigated == old(hasNavigated) && submitting == old(submitting)
              && notAdminError == old(notAdminError) && fallbackArmed == old(fallbackArmed)
              && pendingTimer.None? && decisions == old(decisions))
        && (acts ==> !fallbackArmed)
        && (acts && pendingNavigate ==>
              pendingTimer == Some(role) && hasNavigated == old(hasNavigated)
              && submitting == old(submitting) && notAdminError == old(notAdminError) && decisions == old(decisions))
        && (acts && !pendingNavigate ==>
              pendingTimer.None? && hasNavigated && !submitting && decisions == old(decisions) + 1
              && (notAdminError <==> old(notAdminError) || (role != Some("admin") && Truthy(role))))
        && navigations == old(navigations)
             + (if acts && !pendingNavigate && role == Some("admin") then [ADMIN_DASHBOARD] else [])
             + (if !loading && userPresent && role == Some("admin") && !pendingNavigate then [ADMIN_DASHBOARD] else [])
    {
      pendingTimer := None;
      if !loading && userPresent && !hasNavigated {
        fallbackArmed := false;
        if pendingNavigate {
          pendingTimer := Some(role);
        } else {
          Decide(role, false);
        }
      }
      if !loading && userPresent && role == Some("admin") && !pendingNavigate {
        navigations := navigations + [ADMIN_DASHBOARD];
      }
    }

    /**
     * The 600 ms timer fires with the role it closed over: nothing once a
     * decision was taken; otherwise the pending flag is cleared and the role
     * decides, an admin navigating and any other role, none included,
     * showing the not-admin message.
     */
    method PendingTimerFires()
      requires pendingTimer.Some?
      modifies this
      ensures pendingTimer.None?
      ensures form == old(form) && errors == old(errors) && attempts == old(attempts)
      ensures fallbackArmed == old(fallbackArmed) && strayFallbacks == old(strayFallbacks)
      ensures signInsInFlight == old(signInsInFlight)
      ensures old(hasNavigated) ==>
        hasNavigated && submitting == old(submitting) && notAdminError == old(notAdminError)
        && pendingNavigate == old(pendingNavigate) && navigations == old(navigations) && decisions == old(decisions)
      ensures !old(hasNavigated) ==>
        hasNavigated && !pendingNavigate && !submitting && decisions == old(decisions) + 1
        && navigations == old(navigations) + (if old(pendingTimer).value == Some("admin") then [ADMIN_DASHBOARD] else [])
        && (notAdminError <==> old(notAdminError) || old(pendingTimer).value != Some("admin"))
    {
      var role := pendingTimer.value;
      pendingTimer := None;
      if hasNavigated {
        return;
      }
      pendingNavigate := false;
      Decide(role, true);
    }

    /**
     * The fallback held by the ref fires: when no decision was taken yet the
     * page stops being busy, drops the pending flag and shows the not-admin
     * message; it takes no decision, so `hasNavigated` stays as it was. The
     * callback then empties the ref.
     */
    method FallbackFires()
      requires fallbackArmed
      modifies this
      ensures !fallbackArmed && strayFallbacks == old(strayFallbacks)
      ensures form == old(form) && errors == old(errors) && attempts == old(attempts) && navigations == old(navigations)
      ensures hasNavigated == old(hasNavigated) && decisions == old(decisions) && pendingTimer == old(pendingTimer)
      ensures signInsInFlight == old(signInsInFlight)
      ensures old(hasNavigated) ==>
        submitting == old(submitting) && pendingNavigate == old(pendingNavigate) && notAdminError == old(notAdminError)
      ensures !old(hasNavigated) ==> !submitting && !pendingNavigate && notAdminError
    {
      if !hasNavigated {
        submitting := false;
        pendingNavigate := false;
        notAdminError := true;
      }
      fallbackArmed := false;
    }

    /**
     * A stray fallback fires: the same callback, so it acts as the held one
     * would, and emptying the ref turns a timer still held there into a
     * stray one as well.
     */
    method StrayFallbackFires()
      requires strayFallbacks > 0
      modifies this
      ensures !fallbackArmed && strayFallbacks == old(strayFallbacks) - 1 + (if old(fallbackArmed) then 1 else 0)
      ensures form == old(form) && errors == old(errors) && attempts == old(attempts) && navigations == old(navigations)
      ensures hasNavigated == old(hasNavigated) && decisions == old(decisions) && pendingTimer == old(pendingTimer)
      ensures signInsInFlight == old(signInsInFlight)
      ensures old(hasNavigated) ==>
        submitting == old(submitting) && pendingNavigate == old(pendingNavigate) && notAdminError == old(notAdminError)
      ensures !old(hasNavigated) ==> !submitting && !pendingNavigate && notAdminError
    {
      if !hasNavigated {
        submitting := false;
        pendingNavigate := false;
        notAdminError := true;
      }
      strayFallbacks := strayFallbacks - 1;
      if fallbackArmed {
        strayFallbacks := strayFallbacks + 1;
      }
      fallbackArmed := false;
    }

    /** `update`, as on the user login page. */
    method Update(field: Login.Field, value: string)
      modifies this`form, this`errors
      ensures field == Login.Email ==> form == old(form).(email := value)
      ensures field == Login.Password ==> form == old(form).(password := value)
      ensures field in old(errors) && old(errors)[field] != "" ==> errors == old(errors)[field := ""]
      ensures !(field in old(errors) && old(errors)[field] != "") ==> errors == old(errors)
    {
      form := if field == Login.Email then form.(email := value) else form.(password := value);
      if field in errors && errors[field] != "" {
        errors := errors[field := ""];
      }
    }
  }

  /**
   * The usual order: `signIn` returns, then the auth state arrives and arms
   * the 600 ms timer, which decides. One decision, one navigation, no
   * message, and the fallback has been disarmed by the effect.
   */
  method AdminSignInPending(page: AdminLoginPage)
    requires page.navigations == [] && Login.Errors(page.form) == map[]
    modifies page
    ensures page.decisions == old(page.decisions) + 1 && page.navigations == [ADMIN_DASHBOARD]
    ensures !page.notAdminError && !page.fallbackArmed && !page.submitting
    ensures page.signInsInFlight == old(page.signInsInFlight)
  {
    page.Submit();
    assert page.signInsInFlight > 0 && !page.hasNavigated;
    page.SignInReturned(None);
    assert page.pendingNavigate && !page.hasNavigated;
    page.AuthChanged(false, true, Some("admin"));
    assert page.pendingTimer == Some(Some("admin")) && page.navigations == [];
    page.PendingTimerFires();
  }

  /**
   * A signed-in user without the admin role: the timer decides against
   * them, nothing navigates, and the not-admin message is shown.
   */
  method UserSignInRejected(page: AdminLoginPage)
    requires page.navigations == [] && Login.Errors(page.form) == map[]
    modifies page
    ensures page.decisions == old(page.decisions) + 1 && page.navigations == [] && page.notAdminError
  {
    page.Submit();
    page.SignInReturned(None);
    assert page.pendingNavigate && !page.hasNavigated;
    page.AuthChanged(false, true, Some("user"));
    assert page.pendingTimer == Some(Some("user"));
    page.PendingTimerFires();
  }

  /**
   * The auth state arriving while `signIn` is still awaited: the redirect
   * effect decides at once and the already-signed-in effect navigates as
   * well, so `navigate` is called twice for the one decision; the fallback
   * armed when `signIn` returns then changes nothing.
   */
  method AdminSignInDecidedEarly(page: AdminLoginPage)
    requires page.navigations == [] && Login.Errors(page.form) == map[]
    modifies page
    ensures page.decisions == old(page.decisions) + 1 && page.navigations == [ADMIN_DASHBOARD, ADMIN_DASHBOARD]
    ensures !page.notAdminError
  {
    page.Submit();
    assert page.signInsInFlight > 0 && !page.hasNavigated && !page.pendingNavigate && !page.notAdminError;
    page.AuthChanged(false, true, Some("admin"));
    assert page.hasNavigated && page.navigations == [ADMIN_DASHBOARD, ADMIN_DASHBOARD];
    page.SignInReturned(None);
    assert page.hasNavigated && page.fallbackArmed;
    page.FallbackFires();
  }

  /**
   * A user without the admin role whose auth state arrives during the await
   * is decided against at once, which re-enables the button; submitting
   * again starts a second `signIn` beside the first. When both return, the
   * second decision is still open, and two fallbacks are armed of which the
   * ref holds only one.
   */
  method SecondSubmitWhileSignInPending(page: AdminLoginPage)
    requires Login.Errors(page.form) == map[]
    modifies page
    ensures page.attempts == old(page.attempts) + [page.form, page.form]
    ensures page.signInsInFlight == old(page.signInsInFlight)
    ensures page.decisions == old(page.decisions) + 1 && !page.hasNavigated && page.pendingNavigate
    ensures page.fallbackArmed && page.strayFallbacks == old(page.strayFallbacks) + 1
    ensures page.submitting && !page.notAdminError
  {
    page.Submit();
    page.AuthChanged(false, true, Some("user"));
    assert !page.submitting && page.notAdminError && page.signInsInFlight == old(page.signInsInFlight) + 1;
    page.Submit();
    assert !page.fallbackArmed && page.signInsInFlight == old(page.signInsInFlight) + 2;
    page.SignInReturned(None);
    page.SignInReturned(None);
  }
}
