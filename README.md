# Driving-licence portal: a verified model of its page logic

The portal is a browser application for Nepali driving-licence applicants and
the administrators who serve them. Applicants sign up, sign in, submit a KYC
("know your customer") identity profile, practise, and sit a timed 20-question
theory exam. Administrators sign in on their own login page. They review KYC
submissions, edit the question bank and publish blog posts. There is no server
logic of its own: every page reads and writes a hosted database directly.

This project models the logic of those pages in Dafny and proves what it
promises. It covers validation, scoring, navigation, the state each handler
leaves behind, and the rows each handler writes. There is one module per
source file, plus shared modules:

- `Wrappers`: `Option`.
- `Text`: JavaScript's `trim`, `split`, `parseInt`, `padStart` and the email
  pattern, each written out over `seq<char>`.
- `Notices`: the toast notifications the pages raise, and `err.message || fallback`.
- `Questions`: the question rows, scoring and the question query that the exam
  and the practice page share.

Pages whose handlers update state become classes. Each field is one piece of
React state or one ref. Each handler is a method whose `modifies` names the
state it sets and whose `ensures` gives the new state in terms of the old.
The database, the auth service, the clock, timers, the confirmation dialog and
the Nepali-calendar library do not appear as code. They appear as parameters:
the table contents, the outcome of a write (`failed`, or an error message), the
time `now`, the calendar converter. Writes are recorded in a `writes`
(`sent`, `requests`, `reviews`) sequence field so that contracts can say
exactly which rows a handler sends.

Behaviour worth knowing when reading the model:

- **Exam submission happens once.** `Exam.ExamSession` has a guard flag. It
  sends one result row whether the timer, the submit button or both trigger
  it, and the countdown fires at exactly the 1800th tick.
- **Scoring rounds half up.** `Math.round(c / n * 100)` is
  `(200c + n) div 2n`. A score of 100 means every answer is right. Passing
  (≥ 70) means at least 69.5 % are right.
- **The admin login can navigate twice.** When the auth state arrives while
  `signIn` is still in flight, the admin login page (`AdminLogin.AdminLoginPage`)
  takes its decision at once, and its second effect then navigates again
  because it does not look at `hasNavigated`. The scenario
  `AdminSignInDecidedEarly` proves the two navigations. Both go to the same
  page, so the repeat is harmless.
- **The fallback timer does not lock the decision.** It shows the not-admin
  error without setting `hasNavigated`, so a later auth update can still
  redirect.
- **A second submit can leave a stray fallback.** Nothing stops the admin
  login form from being submitted again while a sign-in is pending. When both
  calls succeed, the second `setTimeout` overwrites the ref and the first timer
  can no longer be cleared (`SecondSubmitWhileSignInPending`).
- **Toggling a ticked vehicle type moves it to the end.** On the profile page,
  unticking and re-ticking a vehicle type changes the order of the list.
- **The blog preview always ends in "...".** Even a short body gets the dots.

## Model

| member | source | states |
|---|---|---|
| Text.Trim | src/pages/SignUp.jsx:56 | `trim` is empty iff the input is blank, otherwise starts and ends with a non-space character, and leaves text without surrounding whitespace unchanged |
| Text.TrimIsAnInfix | src/pages/SignUp.jsx:56 | the trimmed text is an infix of the input with only whitespace before and after it |
| Text.TrimIsTheInfix | src/pages/AdminLogin.jsx:88 | the trimmed text is the infix between whitespace-only ends that starts and ends with a non-space character |
| Text.TrimStart | src/components/DateInputBSAD.jsx:24 | the result is a suffix of the input and everything dropped is whitespace |
| Text.TrimEnd | src/components/DateInputBSAD.jsx:24 | the result is a prefix of the input and everything dropped is whitespace |
| Text.Split | src/pages/SignUp.jsx:62 | `split` yields at least one part, no part contains the separator, and joining the parts gives back the string |
| Text.SplitJoin | src/pages/SignUp.jsx:62 | splitting a join of separator-free parts gives back the parts |
| Text.SplitThree | src/pages/SignUp.jsx:62-63 | `a-b-c` with dash-free parts splits into exactly `[a, b, c]` |
| Text.NatToString | src/components/DateInputBSAD.jsx:20 | `toString` of a natural number is a numeral, one digit long exactly below 10 |
| Text.NatToStringRoundTrip | src/components/DateInputBSAD.jsx:20 | reading the numeral back gives the number |
| Text.PadStart2 | src/components/DateInputBSAD.jsx:20 | `padStart(2, '0')` pads with zeros in front to length 2 and keeps the string at its end |
| Text.ParsePadded | src/pages/Exam.jsx:137 | a zero-padded numeral reads back as its number |
| Text.DigitPrefix | src/pages/SignUp.jsx:62 | the longest run of digits at the start of the string |
| Text.ParseIntJs | src/pages/SignUp.jsx:62 | `parseInt(s, 10)` is NaN exactly when no digit follows the leading whitespace and one optional sign |
| Text.ParseIntIgnoresTail | src/components/DateInputBSAD.jsx:25 | `parseInt` reads a numeral followed by a non-digit as the numeral's value |
| Text.ParseIntAfterMinus | src/components/DateInputBSAD.jsx:25 | after a leading minus, the digits that follow are read and negated; NaN when no digit follows |
| Text.ParseIntOfNumeral | src/components/DateInputBSAD.jsx:25 | a numeral reads as its value |
| Text.ParseIntNaN | src/components/DateInputBSAD.jsx:25-26 | a blank string, `""` and a lone `-` are NaN |
| Text.ParseIntWithoutMinus | src/components/DateInputBSAD.jsx:25 | text with no minus sign never reads as a negative number |
| Text.Utf16Length | src/pages/SignUp.jsx:93 | `length` counts UTF-16 code units: one per character below U+10000, two above, so between the number of characters and twice that |
| Text.Utf16LengthOfAstral | src/pages/SignUp.jsx:93 | three key emoji are three characters and six code units |
| Text.MatchesEmailPattern | src/pages/Login.jsx:27 | `/^[^\s@]+@[^\s@]+\.[^\s@]+$/` written as a predicate on characters |
| Text.EmailPatternShape | src/pages/SignUp.jsx:91 | a matching address has no whitespace, exactly one `@` not at the start, and a dot after it with text on both sides |
| Text.EmailPatternAccepts | src/pages/Login.jsx:27 | "ram@mail.np" is accepted |
| Text.EmailPatternRefuses | src/pages/Login.jsx:27 | "ram@mail" (no dot after the `@`) and "ram @mail.np" (a space) are refused |
| Text.EmailError | src/pages/Login.jsx:26-27 | "Required" iff blank, "Invalid email" iff non-blank and not matching, none iff matching |
| Text.Lookup | src/pages/Profile.jsx:67-78 | a missing key reads as `''` |
| Notices.MessageOr | src/pages/SignUp.jsx:126-130 | `err.message || fallback`: the message when non-empty, else the fallback; never empty when the fallback is not |
| Questions.CorrectCount | src/pages/Exam.jsx:101-106 | the number of questions answered with their correct index; equals the length iff all are right, zero iff none is |
| Questions.CountCorrect | src/pages/Exam.jsx:101-106 | the `forEach` counting loop computes `CorrectCount` |
| Questions.CorrectCountOnlyReadsListedIds | src/pages/PracticeExam.jsx:58-62 | answers to ids not in the list never change the count |
| Questions.RoundedPercent | src/pages/Exam.jsx:108 | `Math.round(c / n * 100)` as the integer nearest to 100c/n, halves up, at most 100 |
| Questions.FullMarksIffAllCorrect | src/pages/Exam.jsx:108 | the score is 100 exactly when every answer is correct |
| Questions.PassIffRatio | src/pages/Exam.jsx:109 | the exam is passed (score ≥ 70) exactly when 200·correct ≥ 139·total |
| Questions.ScoringExamples | src/pages/Exam.jsx:108-109 | 4/4 passes with 100; 6/10 fails with 60 |
| Questions.PreviousIndex | src/pages/Exam.jsx:278 | `Math.max(0, i - 1)` moves back one and stays on the first question |
| Questions.NextIndex | src/pages/Exam.jsx:303 | `Math.min(n - 1, i + 1)` moves on one and stays on the last question |
| Questions.NextThenPrevious | src/pages/PracticeExam.jsx:229-245 | next then previous returns to the question unless it was the last |
| Questions.QueryLanguage | src/pages/Exam.jsx:59 | the language column asked for is 'ne' for Nepali and 'en' for everything else |
| Questions.WithLanguage | src/pages/Exam.jsx:56-59 | exactly the rows of that language: only rows from the table, and every row of that language |
| Questions.WithLanguageCons | src/pages/Exam.jsx:56-59 | a first row is kept in front iff it has the language |
| Questions.WithLanguageAppend | src/pages/Exam.jsx:56-59 | the rows kept from a concatenation are those of the first part, then those of the second: table order is kept |
| Questions.FetchQuestions | src/pages/Exam.jsx:56-60 | the first `limit` rows of the language in table order: a prefix of `WithLanguage`, as long as it is up to the limit |
| Exam.ExamRecordFor | src/pages/Exam.jsx:101-118 | the result row: score ≤ 100, 'passed' iff score ≥ 70, 100 iff all correct, passed iff 200·correct ≥ 139·n |
| Exam.TickFrom | src/pages/Exam.jsx:39-45 | one tick takes a second off and fires the auto-submit exactly when it reaches zero |
| Exam.AfterTicksValue | src/pages/Exam.jsx:36-51 | after k ticks from t the time left is t − k, never below zero |
| Exam.FullCountdown | src/pages/Exam.jsx:10-45 | from 30 minutes, ticks 1…1799 do not fire and tick 1800 does, at zero |
| Exam.FormatTime | src/pages/Exam.jsx:134-138 | below 100 minutes the clock is five characters with a colon in the middle |
| Exam.FormatTimeSplits | src/pages/Exam.jsx:134-138 | the clock is minutes and remaining seconds, each padded to two digits |
| Exam.FormatTimeRoundTrip | src/pages/Exam.jsx:134-138 | reading `MM:SS` back gives the seconds, with the seconds field below 60 |
| Exam.ExamSession.constructor | src/pages/Exam.jsx:19-27 | loading, not started, nothing answered, nothing sent |
| Exam.ExamSession.LoadQuestions | src/pages/Exam.jsx:53-74 | a failed select sets the fetch error and an empty one the no-questions error; otherwise the first 20 rows of the language are loaded and the error is left as it was, so an error once shown stays |
| Exam.ExamSession.LoadQuestionsCorrected | src/pages/Exam.jsx:53-74 | corrected: the same load, but a successful one clears the error |
| Exam.ExamSession.Start | src/pages/Exam.jsx:80-83 | starts the exam and the countdown at 30 minutes; nothing else changes |
| Exam.ExamSession.SelectAnswer | src/pages/Exam.jsx:76-78 | records that one answer, keeping every other |
| Exam.ExamSession.Previous | src/pages/Exam.jsx:278 | moves to `PreviousIndex`, staying inside the list |
| Exam.ExamSession.Next | src/pages/Exam.jsx:303 | moves to `NextIndex`, staying inside the list |
| Exam.ExamSession.JumpTo | src/pages/Exam.jsx:290 | a question-number button selects that index |
| Exam.ExamSession.SubmitExam | src/pages/Exam.jsx:96-132 | once submitted a second call sends nothing; the first sends exactly `ExamRecordFor` and stops the timer |
| Exam.ExamSession.HandleAutoSubmit | src/pages/Exam.jsx:85-88 | the timer's submission, guarded by the same flag; exactly one row in total |
| Exam.ExamSession.HandleSubmit | src/pages/Exam.jsx:90-94 | nothing without confirmation; with it, the submission |
| Exam.ExamSession.Tick | src/pages/Exam.jsx:36-51 | a running timer loses a second and submits at zero; a stopped one changes nothing |
| Exam.RetryKeepsErrorScreen | src/pages/Exam.jsx:153-160 | as written: a failed load, then Retry against a table with questions, loads them and still shows the fetch error |
| Exam.RetryShowsQuestions | src/pages/Exam.jsx:153-160 | corrected: the same Retry leaves the error screen |
| PracticeExam.AllAnsweredGate | src/pages/PracticeExam.jsx:237-238 | with answers only for listed ids, `keys(answers).length >= questions.length` iff every question is answered and the ids are distinct |
| PracticeExam.PracticeSession.constructor | src/pages/PracticeExam.jsx:18-23 | loading, no questions, no answers, no results |
| PracticeExam.PracticeSession.LoadQuestions | src/pages/PracticeExam.jsx:29-46 | the first 10 rows of the language, or the fetch error; a success neither clears an earlier error nor touches the answers, the index or the results flag |
| PracticeExam.PracticeSession.LoadQuestionsCorrected | src/pages/PracticeExam.jsx:25-46 | corrected: a success clears the error and starts afresh (no answers, first question), so the answers and the index fit the new list |
| PracticeExam.PracticeSession.SelectAnswer | src/pages/PracticeExam.jsx:48-50 | records that one answer and keeps the answers within the listed ids |
| PracticeExam.PracticeSession.Previous | src/pages/PracticeExam.jsx:229 | moves to `PreviousIndex`, inside the list |
| PracticeExam.PracticeSession.Next | src/pages/PracticeExam.jsx:245 | moves to `NextIndex`, inside the list |
| PracticeExam.PracticeSession.HandleSubmit | src/pages/PracticeExam.jsx:52-54 | shows the results; when the answers belong to the listed questions, every question has an answer |
| PracticeExam.PracticeSession.CalculateScore | src/pages/PracticeExam.jsx:56-64 | correct is `CorrectCount`, total the list length, the percentage `RoundedPercent`, and 100 iff all correct |
| PracticeExam.PracticeSession.ResetExam | src/pages/PracticeExam.jsx:66-70 | clears the answers, returns to the first question, hides the results, and so makes the page consistent again |
| PracticeExam.EnglishAnswersMissNepali | src/pages/PracticeExam.jsx:238 | answers to the two English sample questions are two answers, none of them to a Nepali question |
| PracticeExam.AnswerBothEnglish | src/pages/PracticeExam.jsx:25-50 | loading English, answering both questions and moving on leaves a consistent page on the second question |
| PracticeExam.StaleAnswersEnableSubmit | src/pages/PracticeExam.jsx:25-27 | as written: after switching to Nepali the stale answers enable the submit button although no Nepali question is answered |
| PracticeExam.ReloadLeavesIndexPastList | src/pages/PracticeExam.jsx:169 | as written: switching to a language with fewer questions leaves the question screen reading past the list |
| PracticeExam.ReloadStartsAfresh | src/pages/PracticeExam.jsx:25-46 | corrected: the same switch leaves a consistent page on the first Nepali question with submit disabled |
| SignUp.Form.Get | src/pages/SignUp.jsx:31-45 | each field holds text or, for the two terms boxes, a tick |
| SignUp.Form.With | src/pages/SignUp.jsx:49-50 | the spread update changes that field and no other |
| SignUp.AgeOn | src/pages/SignUp.jsx:68-72 | the age is the number of birthdays up to today: that birthday is on or before today, the next is not |
| SignUp.DobParts | src/pages/SignUp.jsx:62-63 | a date of birth yields three numbers iff it splits on '-' into three parts that `parseInt` reads, and those are the numbers read |
| SignUp.DobPartsOfIso | src/pages/SignUp.jsx:62-64 | `y-m-d` of numerals yields their values |
| SignUp.AgeFromDob | src/pages/SignUp.jsx:62-72 | an age is computed iff the parts parse and make a representable date |
| SignUp.YearsToWait | src/pages/SignUp.jsx:76 | `Math.max(1, 18 - age)` for an under-age applicant is 18 − age, at least 1 |
| SignUp.UnderAgeNotice | src/pages/SignUp.jsx:74-82 | a warning whose message names the years still to wait, singular exactly at 17 |
| SignUp.AgeWarning | src/pages/SignUp.jsx:74-83 | the warning appears iff a computed age is below 18 |
| SignUp.FieldError | src/pages/SignUp.jsx:54-96 | each field's rule, the password length in UTF-16 code units; every message is non-empty |
| SignUp.Errors | src/pages/SignUp.jsx:54-97 | a field is in the error object iff its rule fails, with that rule's message |
| SignUp.ValidationRules | src/pages/SignUp.jsx:56-89 | the names, the phone, the gender and the blood group are in error exactly when blank or unchosen |
| SignUp.DobAndEmailRules | src/pages/SignUp.jsx:58-91 | the date of birth is in error iff blank or under age; the email iff the pattern refuses it |
| SignUp.PasswordAndTermsRules | src/pages/SignUp.jsx:92-96 | the password is in error iff shorter than six UTF-16 code units, its confirmation iff different, each term iff unticked |
| SignUp.ValidationMessages | src/pages/SignUp.jsx:56-96 | the address error is the email rule's own message; an empty password reads "Required"; the optional names are never in error; no message is empty |
| SignUp.ValidIffAcceptable | src/pages/SignUp.jsx:97-98 | validation passes iff every rule holds |
| SignUp.AcceptedFormShape | src/pages/SignUp.jsx:90-94 | an accepted form has a confirmed password of at least 6 code units (3 characters), an address with one `@` and no spaces, and an ISO dob at least 18 years old |
| SignUp.ThreeCharacterPasswordPasses | src/pages/SignUp.jsx:92-93 | a password of three emoji counts as six and passes the length rule |
| SignUp.RequestFor | src/pages/SignUp.jsx:106-118 | the request carries role 'user' and every typed value field by field; an optional name is omitted exactly when empty and otherwise carried as typed |
| SignUp.RequestForLosesNothing | src/pages/SignUp.jsx:106-118 | two forms give the same request iff they agree on all ten submitted fields: nothing typed is lost |
| SignUp.SignUpFailedNotice | src/pages/SignUp.jsx:125-129 | an error notice titled 'Sign up failed' with the thrown message, or the fallback when it is empty |
| SignUp.SignUpPage.constructor | src/pages/SignUp.jsx:28-47 | empty form, no errors, nothing sent |
| SignUp.SignUpPage.Update | src/pages/SignUp.jsx:49-52 | sets the field; blanks its error only when one is shown |
| SignUp.SignUpPage.HandleSubmit | src/pages/SignUp.jsx:101-135 | a refused form sends nothing, sets the error object to `Errors` and shows the age warning if any; an accepted one sends exactly its request, then shows 'Account created' and schedules the redirect, or the failure notice and the message on the email field |
| SignUp.SignUpPage.Validate | src/pages/SignUp.jsx:54-99 | the error object becomes `Errors`; the form is accepted exactly when it is empty, which is exactly when every rule holds |
| SignUp.SignUpPage.WarnUnderAge | src/pages/SignUp.jsx:74-83 | the under-age warning becomes the notification when there is one; otherwise the notification is left as it was |
| SignUp.SignUpPage.Send | src/pages/SignUp.jsx:104-134 | success shows the 'Account created' notice and schedules the redirect to login; failure puts the message on the email field and shows `SignUpFailedNotice` |
| Login.Errors | src/pages/Login.jsx:24-31 | the email is checked by `EmailError`; the password is only required |
| Login.ShortPasswordAccepted | src/pages/Login.jsx:28 | a one-character password passes sign-in validation |
| Login.RouteAfterSignIn | src/pages/Login.jsx:39-44 | the admin dashboard iff the profile role is 'admin', the user dashboard otherwise |
| Login.SignInErrorMessage | src/pages/Login.jsx:46 | the error's message, or 'Invalid email or password' when it has none |
| Login.LoginPage.constructor | src/pages/Login.jsx:15-17 | empty form, no errors, no attempt |
| Login.LoginPage.Update | src/pages/Login.jsx:19-22 | sets the field; blanks its error only when one is shown |
| Login.LoginPage.HandleSubmit | src/pages/Login.jsx:33-50 | a refused form calls nothing; otherwise one sign-in, then the role's dashboard or the message on the password field |
| AdminLogin.SignInCredentials | src/pages/AdminLogin.jsx:88 | `signIn` receives the password unchanged and `Trim` of the email, empty iff it was blank |
| AdminLogin.AdminLoginPage.constructor | src/pages/AdminLogin.jsx:15-21 | nothing pending, nothing decided, nothing navigated |
| AdminLogin.AdminLoginPage.Submit | src/pages/AdminLogin.jsx:72-88 | accepted at any time, also while an earlier sign-in is still pending: a refused form calls nothing; otherwise the fallback in the ref is cleared, the flags reset, and one more sign-in is made with the submitted form, whose `SignInCredentials` reach `signIn` |
| AdminLogin.AdminLoginPage.BeginSignIn | src/pages/AdminLogin.jsx:76-88 | clears the fallback in the ref, the errors, the not-admin message and both flags, and calls `signIn` once more with the submitted form, whatever calls are still pending |
| AdminLogin.AdminLoginPage.SignInReturned | src/pages/AdminLogin.jsx:88-108 | one pending call returns, late ones included: success marks the navigation pending and arms a 2 s fallback, and a fallback the ref already held keeps running as a stray; failure shows the message and ends submitting |
| AdminLogin.AdminLoginPage.Decide | src/pages/AdminLogin.jsx:61-69 | one decision: navigate iff admin, otherwise the not-admin error, on a missing role only when asked |
| AdminLogin.AdminLoginPage.AuthChanged | src/pages/AdminLogin.jsx:38-70 | an auth update decides at once, or arms the 600 ms timer when pending, or does nothing once decided; the second effect (lines 118-122) navigates an admin again when nothing is pending |
| AdminLogin.AdminLoginPage.PendingTimerFires | src/pages/AdminLogin.jsx:47-57 | the 600 ms timer decides once: admin navigates, anyone else gets the not-admin error |
| AdminLogin.AdminLoginPage.FallbackFires | src/pages/AdminLogin.jsx:91-98 | without a decision the fallback ends submitting and shows the not-admin error |
| AdminLogin.AdminLoginPage.StrayFallbackFires | src/pages/AdminLogin.jsx:91-98 | a fallback whose ref was overwritten still fires with the same effect, and clears the ref's own timer too |
| AdminLogin.AdminLoginPage.Update | src/pages/AdminLogin.jsx:23-26 | sets the field; blanks its error only when one is shown |
| AdminLogin.AdminSignInPending | src/pages/AdminLogin.jsx:72-98 | an admin whose profile arrives after `signIn` returns is navigated once, after the 600 ms timer |
| AdminLogin.UserSignInRejected | src/pages/AdminLogin.jsx:47-57 | a non-admin is never navigated and sees the not-admin error |
| AdminLogin.AdminSignInDecidedEarly | src/pages/AdminLogin.jsx:118-122 | an admin whose profile arrives during the await is navigated twice, once per effect |
| AdminLogin.SecondSubmitWhileSignInPending | src/pages/AdminLogin.jsx:60-98 | a user turned away while the first sign-in is pending can submit again; both calls return, the first fallback becomes a stray, and the page waits again, submitting, with the decision count one up |
| Routing.Guard | src/components/ProtectedRoute.jsx:4-34 | spinner iff loading; login iff signed out; renders iff the role fits; a non-admin on an admin page goes to the user dashboard and an admin on a user page to the admin dashboard |
| Routing.Visit | src/main.jsx:26-93 | public paths render, guarded paths go through the guard, unknown paths redirect to `/` |
| Routing.RolesSeparated | src/components/ProtectedRoute.jsx:25-31 | only an admin sees admin pages and an admin never sees user pages |
| Routing.RedirectsSettle | src/components/ProtectedRoute.jsx:18-31 | once auth has loaded, the target of any redirect renders |
| Routing.SignInLandsOnItsDashboard | src/pages/Login.jsx:40-44 | the dashboard chosen after sign-in renders for that role |
| TokenStorage.FloorDiv | src/utils/tokenStorage.js:117 | `Math.floor(x / d)` of a non-negative number, NaN stays NaN |
| TokenStorage.Mod | src/utils/tokenStorage.js:118 | `x % d` below d, with quotient times d plus remainder equal to x |
| TokenStorage.SplitRemaining | src/utils/tokenStorage.js:116-118 | the hours and minutes of a non-negative remaining time locate it within one minute, minutes below 60; NaN stays NaN |
| TokenStorage.HoursAndMinutes | src/utils/tokenStorage.js:116-118 | the minutes field is below 60 and hours and minutes never exceed the remaining time |
| TokenStorage.LocalStorage.GetItem | src/utils/tokenStorage.js:30-37 | the stored value; null when missing or when storage throws |
| TokenStorage.LocalStorage.AccessToken | src/utils/tokenStorage.js:30-37 | the access-token item |
| TokenStorage.LocalStorage.RefreshToken | src/utils/tokenStorage.js:43-50 | the refresh-token item |
| TokenStorage.LocalStorage.IsTokenExpired | src/utils/tokenStorage.js:56-66 | expired without an expiry item; otherwise iff now ≥ `parseInt(expiry)` (never for a NaN expiry) |
| TokenStorage.LocalStorage.RemainingSessionTime | src/utils/tokenStorage.js:72-83 | 0 without an expiry; otherwise `max(0, expiry − now)`, NaN for a NaN expiry |
| TokenStorage.LocalStorage.HasValidSession | src/utils/tokenStorage.js:103-109 | valid iff both tokens are non-empty and the token has not expired |
| TokenStorage.LocalStorage.Info | src/utils/tokenStorage.js:115-128 | the debug summary agrees with the other readers, and its hours and minutes place the remaining time within one minute |
| TokenStorage.LocalStorage.SaveTokens | src/utils/tokenStorage.js:12-24 | stores both tokens and the expiry; the session has exactly 90 hours left, is unexpired before then and expired at the 90-hour mark |
| TokenStorage.LocalStorage.ClearTokens | src/utils/tokenStorage.js:88-97 | removes the three keys; afterwards there is no valid session at any time |
| DateInput.FormatISO | src/components/DateInputBSAD.jsx:19-20 | `year-MM-DD` with month and day padded to two digits |
| DateInput.DashSeparators | src/components/DateInputBSAD.jsx:24 | every slash and whitespace character becomes '-' and nothing else changes |
| DateInput.ReadParts | src/components/DateInputBSAD.jsx:24-26 | three numbers read from the cleaned text, none negative, since a minus sign has become a separator |
| DateInput.ParseFieldsAsWritten | src/components/DateInputBSAD.jsx:23-35 | as written: the parts are accepted exactly when the text is not blank, they read as three numbers, month ≤ 12 and 1 ≤ day ≤ 32; the result is the parts themselves, so the swap never happens and month 0 passes |
| DateInput.ParseFields | src/components/DateInputBSAD.jsx:23-35 | corrected: the parts after the day-first swap, accepted exactly when 1 ≤ month ≤ 12 and 1 ≤ day ≤ 32 |
| DateInput.ReadPartsOfISO | src/components/DateInputBSAD.jsx:19-26 | an ISO string from `formatISO` reads back as its date |
| DateInput.ParseFieldsAsWrittenOfISO | src/components/DateInputBSAD.jsx:19-35 | as written: a formatted date with month 0 to 12 and day 1 to 32 parses back as itself |
| DateInput.ParseFieldsOfISO | src/components/DateInputBSAD.jsx:19-35 | corrected: a formatted in-range date parses back as itself |
| DateInput.Convert | src/components/DateInputBSAD.jsx:37-58 | AD mode: a result iff the year is 1944-2040 and the library converts, the date itself and its BS spelling; BS mode: a result iff the BS year is 2000-2090 and the library converts, with the AD date as the ISO value |
| DateInput.ParseAndConvert | src/components/DateInputBSAD.jsx:22-59 | as written: null unless the written field checks pass, then `Convert` of those fields; an AD result is the entered parts spelled by `formatISO` |
| DateInput.ParseAndConvertCorrected | src/components/DateInputBSAD.jsx:22-59 | corrected: `Convert` of the fields that pass the intended checks |
| DateInput.ADConversionStable | src/components/DateInputBSAD.jsx:61-67 | re-reading an AD result's ISO string gives the same result |
| DateInput.BSConversionStable | src/components/DateInputBSAD.jsx:46-67 | with a consistent converter, re-reading a BS result's ISO string in AD mode gives the same result |
| DateInput.AsWrittenRefusesDayFirst | src/components/DateInputBSAD.jsx:31-35 | as written, the day-first "15-06-1990" is refused |
| DateInput.AsWrittenAcceptsMonthZero | src/components/DateInputBSAD.jsx:31 | as written, "2000-00-15" is accepted with month 0 |
| DateInput.CorrectedReadsDayFirst | src/components/DateInputBSAD.jsx:31-35 | corrected, "15-06-1990" is read as 15 June 1990 |
| DateInput.CorrectedRefusesMonthZero | src/components/DateInputBSAD.jsx:31 | corrected, "2000-00-15" is refused |
| DateInput.AsWrittenReportsMonthZero | src/components/DateInputBSAD.jsx:31-45 | as written, in AD mode "2000-00-15" reaches the converter and, when it answers, is reported to the form as "2000-00-15" |
| DateInput.CorrectedRefusesMonthZeroEntry | src/components/DateInputBSAD.jsx:22-59 | corrected, "2000-00-15" converts to nothing in either mode |
| DateInput.DateInputBSAD.constructor | src/components/DateInputBSAD.jsx:14-17 | AD mode, empty input, no conversion shown, no error |
| DateInput.DateInputBSAD.HandleChange | src/components/DateInputBSAD.jsx:75-94 | blank input reports ''; a converted one shows the other calendar and reports the ISO date; an unconverted one clears the line and errs from 8 UTF-16 code units |
| DateInput.DateInputBSAD.SwitchMode | src/components/DateInputBSAD.jsx:96-109 | flips the mode; a parsed value is shown in the new mode's calendar |
| DateInput.DateInputBSAD.SyncFromValue | src/components/DateInputBSAD.jsx:61-73 | a new value is shown as AD with its BS line; an empty one clears the input |
| DateInput.TypeThenSync | src/components/DateInputBSAD.jsx:61-94 | typing a valid AD date and receiving it back shows its ISO form with no error |
| Profile.Remove | src/pages/Profile.jsx:119 | `filter(id => id !== v)` removes every copy of v and keeps every other entry; their order is kept too, as `RemoveAppend` and `ToggleTwicePresent` state |
| Profile.Toggle | src/pages/Profile.jsx:115-124 | membership flips; an absent id is appended; other entries keep their counts |
| Profile.ToggleTwiceAbsent | src/pages/Profile.jsx:115-124 | ticking and unticking an absent type restores the list |
| Profile.ToggleTwicePresentReorders | src/pages/Profile.jsx:115-124 | unticking and re-ticking a present type moves it to the end |
| Profile.RemoveAppend | src/pages/Profile.jsx:119 | `filter` keeps the order: removing from a concatenation removes from each part |
| Profile.ToggleTwicePresent | src/pages/Profile.jsx:115-124 | unticking and re-ticking a present type gives the other entries in their old order followed by the type |
| Profile.Errors | src/pages/Profile.jsx:136-151 | a field is reported iff its rule fails: eight text fields not blank, three choices not empty, at least one vehicle type |
| Profile.PassingFormComplete | src/pages/Profile.jsx:136-163 | a form without errors has every required field filled and a vehicle type |
| Profile.EmptyFormFails | src/pages/Profile.jsx:33-55 | the initial form fails on every required field |
| Profile.Pick | src/pages/Profile.jsx:167-186 | the personal and address objects hold exactly the named form fields |
| Profile.SubmitStatus | src/pages/Profile.jsx:199 | 'pending' iff the previous record was rejected, else 'submitted' |
| Profile.Payload | src/pages/Profile.jsx:193-200 | the KYC payload carries the user, the picked fields, the photos, the vehicle list and `SubmitStatus` |
| Profile.WriteFor | src/pages/Profile.jsx:203-218 | an update of the existing record by its id iff there is one, else an insert |
| Profile.DisplayedStatus | src/pages/Profile.jsx:250 | the record's status, 'pending' without a record or status |
| Profile.MergeProfile | src/pages/Profile.jsx:67-78 | the eight profile columns fill their fields, missing ones as `''`; nothing else changes |
| Profile.MergeKyc | src/pages/Profile.jsx:92-102 | stored address fields win over personal ones, which win over the form; a stored vehicle list replaces the form's |
| Profile.ReloadRestoresSubmission | src/pages/Profile.jsx:92-102 | loading back a submitted record restores every submitted text field and the vehicle list |
| Profile.ProfilePage.constructor | src/pages/Profile.jsx:27-55 | empty form, no record, loading |
| Profile.ProfilePage.LoadProfileData | src/pages/Profile.jsx:62-109 | nothing without a user; otherwise the profile and the latest KYC merged in order, and loading ends |
| Profile.ProfilePage.Update | src/pages/Profile.jsx:111-113 | exactly that text field changes |
| Profile.ProfilePage.ToggleVehicleType | src/pages/Profile.jsx:115-124 | the vehicle list becomes its `Toggle` |
| Profile.ProfilePage.PhotoLoaded | src/pages/Profile.jsx:129-131 | the read file is stored in that photo field only |
| Profile.ProfilePage.SubmitDisabled | src/pages/Profile.jsx:521 | disabled iff submitting or the record's status is 'verified' |
| Profile.OutcomeNotice | src/pages/Profile.jsx:220-232 | a success notice exactly for a saved row; a failure shows `err.message`, or the fallback when it is empty |
| Profile.ProfilePage.Submit | src/pages/Profile.jsx:164-235 | exactly one write, `WriteFor` the form and the previous record; a saved row becomes the record, a failure keeps it; the notice is `OutcomeNotice`; submitting ends false |
| Profile.ProfilePage.HandleSubmit | src/pages/Profile.jsx:153-236 | errors stop it before any write; otherwise exactly `WriteFor` is written; success stores the returned row, failure shows `err.message` or the fallback |
| AdminQuestions.OptionText | src/pages/AdminQuestions.jsx:152 | a string option is itself, an object option its `text` |
| Text.NoneIfEmpty | src/pages/AdminQuestions.jsx:75-79 | `s || null` (and the sign-up form's `x || undefined` for the optional names): no value iff the string is empty, the string itself otherwise |
| AdminQuestions.EmptyIfNullOfNoneIfEmpty | src/pages/AdminQuestions.jsx:75-79 | reading a saved optional field back with `v || ''` gives the typed string |
| AdminQuestions.EmptyIfNull | src/pages/AdminQuestions.jsx:150-154 | `v || ''`: null reads as empty |
| AdminQuestions.SaveError | src/pages/AdminQuestions.jsx:54-69 | refused without text and image; else refused when some option is blank; accepted otherwise |
| AdminQuestions.EmptyFormRefused | src/pages/AdminQuestions.jsx:21-28 | the initial form is refused for having no question |
| AdminQuestions.WrapOptions | src/pages/AdminQuestions.jsx:72 | each option becomes `{text}`, in order |
| AdminQuestions.BuildPayload | src/pages/AdminQuestions.jsx:72-80 | language and index copied, options wrapped, empty text, image and category sent as null |
| AdminQuestions.EditForm | src/pages/AdminQuestions.jsx:146-157 | options as their text, null columns as `''` |
| AdminQuestions.EditAfterSave | src/pages/AdminQuestions.jsx:72-157 | editing a saved question gives back exactly the form it was saved from |
| AdminQuestions.EditPlainOptions | src/pages/AdminQuestions.jsx:152 | older string options come back unchanged |
| AdminQuestions.AdminQuestionsPage.constructor | src/pages/AdminQuestions.jsx:15-28 | empty form, no question edited, form hidden |
| AdminQuestions.AdminQuestionsPage.LoadQuestions | src/pages/AdminQuestions.jsx:34-50 | the fetched rows, or the error toast with the list unchanged |
| AdminQuestions.AdminQuestionsPage.ResetForm | src/pages/AdminQuestions.jsx:133-144 | the initial form, nothing edited, form hidden |
| AdminQuestions.AdminQuestionsPage.StartEdit | src/pages/AdminQuestions.jsx:146-157 | the question is edited with `EditForm` and the form shown |
| AdminQuestions.AdminQuestionsPage.ToggleForm | src/pages/AdminQuestions.jsx:189 | flips the form's visibility |
| AdminQuestions.AdminQuestionsPage.SetText | src/pages/AdminQuestions.jsx:199-250 | each input changes its own field only |
| AdminQuestions.AdminQuestionsPage.SetCorrectIndex | src/pages/AdminQuestions.jsx:238 | the correct-answer select changes the index only |
| AdminQuestions.AdminQuestionsPage.EditOption | src/pages/AdminQuestions.jsx:227-230 | a copy of the options with only that index replaced |
| AdminQuestions.AdminQuestionsPage.HandleSubmit | src/pages/AdminQuestions.jsx:52-110 | a refused form writes nothing; otherwise an update by id when editing, else an insert; success resets the form |
| AdminQuestions.AdminQuestionsPage.HandleDelete | src/pages/AdminQuestions.jsx:112-131 | nothing without confirmation; otherwise one delete and its toast |
| AdminKyc.Filter | src/pages/AdminKYC.jsx:32-34 | keeps exactly the rows that pass, never more rows than given |
| AdminKyc.FilterCons | src/pages/AdminKYC.jsx:32-34 | a first row is kept in front iff it passes |
| AdminKyc.FilterAppend | src/pages/AdminKYC.jsx:32-34 | the rows kept from a concatenation are those of the first part, then those of the second: order is kept |
| AdminKyc.Query | src/pages/AdminKYC.jsx:30-36 | a row is listed iff it is in the table and the filter is 'all' or its status |
| AdminKyc.FilterAllKeepsEverything | src/pages/AdminKYC.jsx:32 | filter 'all' adds no condition |
| AdminKyc.Dedupe | src/pages/AdminKYC.jsx:45 | `[...new Set(ids)]` has the same ids and no duplicates |
| AdminKyc.UserIds | src/pages/AdminKYC.jsx:45 | the user id of each row, in order |
| AdminKyc.ProfileMapOf | src/pages/AdminKYC.jsx:51-54 | every profile is keyed by its own id |
| AdminKyc.LaterProfileWins | src/pages/AdminKYC.jsx:51-54 | of two profiles with one id the later is kept |
| AdminKyc.BuildProfileMap | src/pages/AdminKYC.jsx:51-54 | the `reduce` loop builds `ProfileMapOf` |
| AdminKyc.Merge | src/pages/AdminKYC.jsx:56-59 | every row kept in order, joined with the profile of its user id or null |
| AdminKyc.ProfilesFor | src/pages/AdminKYC.jsx:46-49 | the profiles whose id was asked for |
| AdminKyc.JoinMatchesUsers | src/pages/AdminKYC.jsx:45-59 | a row gets a profile iff the profile table has one with its user id, and only such a profile |
| AdminKyc.DisplayName | src/pages/AdminKYC.jsx:121-127 | the trimmed "first last", else the email, and 'Unknown User' without a profile |
| AdminKyc.NamelessProfileShowsEmail | src/pages/AdminKYC.jsx:124 | a profile without names shows its email |
| AdminKyc.ResubmissionStrandedAsWritten | src/pages/AdminKYC.jsx:216 | as written, a KYC resubmitted after rejection is not offered for review until its owner submits once more |
| AdminKyc.EverySubmissionReviewable | src/pages/Profile.jsx:199 | corrected: every status a submission sends awaits review |
| AdminKyc.AdminKycPage.constructor | src/pages/AdminKYC.jsx:15-21 | filter 'all', nothing listed, nothing selected |
| AdminKyc.AdminKycPage.SetFilter | src/pages/AdminKYC.jsx:161-180 | a filter button sets the filter |
| AdminKyc.AdminKycPage.LoadKyc | src/pages/AdminKYC.jsx:27-72 | error toast on a failed select; an empty result lists nothing; otherwise asks for the deduplicated user ids and lists the merge |
| AdminKyc.AdminKycPage.ViewDetails | src/pages/AdminKYC.jsx:212 | selects the row |
| AdminKyc.AdminKycPage.CloseDetails | src/pages/AdminKYC.jsx:245-249 | clears the selection |
| AdminKyc.AdminKycPage.StartReject | src/pages/AdminKYC.jsx:227-230 | selects the row and fills in its earlier reason or `''` |
| AdminKyc.AdminKycPage.SetRejectionReason | src/pages/AdminKYC.jsx:332 | sets the reason |
| AdminKyc.AdminKycPage.RejectEnabled | src/pages/AdminKYC.jsx:345-351 | the modal's reject button is enabled iff no review is in flight and the reason is not empty once trimmed, so it never reaches the blank-reason refusal |
| AdminKyc.AdminKycPage.HandleReview | src/pages/AdminKYC.jsx:74-119 | a blank rejection writes nothing; otherwise one update with status, reviewer and time, carrying the reason iff rejected; success clears selection and reason |
| AdminBlog.SaveError | src/pages/AdminBlog.jsx:50-57 | refused iff the title or the body is blank |
| AdminBlog.Saved | src/pages/AdminBlog.jsx:61-69 | the stored row holds the form's fields |
| AdminBlog.EditForm | src/pages/AdminBlog.jsx:121-129 | the title copied, a null image URL or body as `''` |
| AdminBlog.EditAfterSave | src/pages/AdminBlog.jsx:59-129 | editing a saved post gives back the form it was saved from |
| AdminBlog.EditNullBody | src/pages/AdminBlog.jsx:125-126 | a row without image or body edits with empty ones |
| AdminBlog.Preview | src/pages/AdminBlog.jsx:205 | the first 200 characters of the body followed by "...", always |
| AdminBlog.AdminBlogPage.constructor | src/pages/AdminBlog.jsx:14-24 | empty form, nothing edited, form hidden |
| AdminBlog.AdminBlogPage.LoadPosts | src/pages/AdminBlog.jsx:30-46 | the fetched rows, or the error toast with the list unchanged |
| AdminBlog.AdminBlogPage.ResetForm | src/pages/AdminBlog.jsx:111-119 | empty form, nothing edited, form hidden |
| AdminBlog.AdminBlogPage.StartEdit | src/pages/AdminBlog.jsx:121-129 | the post is edited with `EditForm` and the form shown |
| AdminBlog.AdminBlogPage.ToggleForm | src/pages/AdminBlog.jsx:158 | flips the form's visibility |
| AdminBlog.AdminBlogPage.SetField | src/pages/AdminBlog.jsx:168-181 | each input changes its own field only |
| AdminBlog.AdminBlogPage.HandleSubmit | src/pages/AdminBlog.jsx:48-88 | a refused form writes nothing; otherwise the form is written as an update by id when editing, else an insert; success resets |
| AdminBlog.AdminBlogPage.HandleDelete | src/pages/AdminBlog.jsx:90-109 | nothing without confirmation; otherwise one delete and its toast |
| Landing.NextSlide | src/App.jsx:55 | `(i + 1) % n` stays below n and wraps from the last slide to the first |
| Landing.PreviousSlide | src/App.jsx:209 | `(i − 1 + n) % n` stays below n and wraps from the first slide to the last |
| Landing.NextThenPrevious | src/App.jsx:209-231 | next and previous undo each other |
| Landing.Advance | src/App.jsx:54-56 | the index after k auto-advances stays below n |
| Landing.AdvanceIsModular | src/App.jsx:54-56 | k auto-advances from i reach `(i + k) mod n` |
| Landing.FullCycle | src/App.jsx:54-56 | n auto-advances come back to the starting slide |
| Landing.LandingPage.constructor | src/App.jsx:38-58 | first slide, menu closed, auto-advance running iff there is more than one image |
| Landing.LandingPage.Tick | src/App.jsx:54-56 | the interval moves to `NextSlide` |
| Landing.LandingPage.Next | src/App.jsx:231 | moves to `NextSlide` |
| Landing.LandingPage.Previous | src/App.jsx:209 | moves to `PreviousSlide` |
| Landing.LandingPage.GoTo | src/App.jsx:222 | dot i selects slide i |
| Landing.LandingPage.ToggleNav | src/App.jsx:108 | negates `navOpen` |
| Landing.LandingPage.CloseNav | src/App.jsx:135 | the backdrop, shown while the menu is open, closes it |
| Landing.LandingPage.Resize | src/App.jsx:44-50 | from width 768 on the menu is closed; below, it stays as it was |
| Language.InitialLanguage | src/context/LanguageContext.jsx:6-8 | the stored value, or 'en' when nothing or `''` is stored |
| Language.Toggled | src/context/LanguageContext.jsx:16-18 | 'en' becomes 'ne' and anything else 'en' |
| Language.ToggleTwice | src/context/LanguageContext.jsx:16-18 | two toggles return to 'en' or 'ne'; any other value ends at 'ne' |
| Language.DocumentLang | src/context/LanguageContext.jsx:12 | the document's lang is 'ne' iff the language is 'ne', else 'en' |
| Language.LanguageProvider.Persist | src/context/LanguageContext.jsx:10-14 | the language is stored under its key, lang set by `DocumentLang`, dir always 'ltr' |
| Language.LanguageProvider.constructor | src/context/LanguageContext.jsx:6-14 | starts from `InitialLanguage` of storage and persists it |
| Language.LanguageProvider.ToggleLanguage | src/context/LanguageContext.jsx:16-18 | the language becomes `Toggled` and is persisted |
| Language.LanguageProvider.SetLanguage | src/context/LanguageContext.jsx:21 | the given language is set and persisted |

## Left out

- Rendering is left out: JSX markup, CSS classes, translation tables, and components with no logic (layouts, dashboards, `Input`, `Select`, `Checkbox`, `Notification`).
- The hosted database and auth service are not modelled. Every select is a parameter holding the table or the rows returned (`None` for an error). Every write is recorded and its outcome passed in. Ordering by `created_at` or `submitted_at` is the order of the given sequence.
- `src/context/AuthContext.jsx`, `src/lib/supabase.js` and `src/utils/debugAuth.js` are not part of this model. The auth state appears as the `loading`, `userPresent`/`signedIn` and `role` parameters.
- The route table of `src/main.jsx` is used only to say where each path leads (`Routing.RequiredRole`).
- The calendar conversion library is a pair of partial functions (`DateInput.Calendar`). The conversions themselves, and `new Date(y, m - 1, d)` overflow in the sign-up age check (`representable`), are parameters.
- The FileReader is not modelled. `Profile.ProfilePage.PhotoLoaded` receives the data URL it produces.
- Timers, intervals and React scheduling are explicit method calls: ticks, timer callbacks, effect runs. Stale closures, cleanup on unmount and StrictMode double calls are not modelled.
- The exam reload on a language change during a running exam is not modelled. `Exam.ExamSession.LoadQuestions` requires the exam not to have started. The practice page's reload is modelled (`PracticeExam.PracticeSession.LoadQuestions`).
- The reload after a save or delete (`loadQuestions()`, `loadPosts()`, `loadKYC()` called again) is not part of the handler. It is the page's next `Load…` call.
- The clock (`Date.now()`, `new Date()`, `toISOString`) is a parameter: `now`, `today` or a timestamp string.
- `window.confirm` is the `confirmed` parameter.
- `alert` after a failed exam write is left out. `Exam.ExamSession.SubmitExam` returns whether the write succeeded.
- Storage quota errors part-way through `saveTokens` are not modelled. Storage either works for every call or throws for every call (`accessible`).
- `Landing.LandingPage.constructor`: an empty image list, where `% 0` gives NaN, is excluded. The page always has five images.
- The question `categories` field is not modelled. It is always empty in the exam result and free text in the question editor.
- `Profile.Errors` and `SignUp.Errors` build the error object in one step rather than field by field. The result is the same object.
- `AdminKyc.DisplayName`: a profile with neither names nor email shows `''` here. The source's `undefined` renders as nothing.
- `AdminBlog.Preview` applies to string bodies only. A null body would throw during rendering.
- `AdminBlog.Preview` cuts after 200 characters, while `substring(0, 200)` cuts after 200 UTF-16 code units. The two agree for bodies without characters above U+FFFF. A cut through a surrogate pair leaves half a character, which a Dafny string cannot hold.
- The mobile sidebar of `DashboardLayout` is left out as rendering.

## Findings

| source | as written | input that shows it | evidently intended | confidence | as-written member | corrected member |
|---|---|---|---|---|---|---|
| src/components/DateInputBSAD.jsx:31-35 | the `day > 32` check runs before the day-first swap, and the swap needs `parts[2] > 100`, so it can never run | "15-06-1990" is refused | a day-first date is swapped into year-month-day and accepted | high, not executed | DateInput.AsWrittenRefusesDayFirst | DateInput.CorrectedReadsDayFirst |
| src/components/DateInputBSAD.jsx:31 | there is no lower bound on the month | "2000-00-15" in AD mode is reported to the form as "2000-00-15" | months run from 1 to 12 | high, not executed | DateInput.AsWrittenReportsMonthZero | DateInput.CorrectedRefusesMonthZeroEntry |
| src/pages/Exam.jsx:53-74 | `loadQuestions` never clears `error` | a failed load, then Retry with a working database: the error screen stays | a successful retry shows the questions | high, not executed | Exam.RetryKeepsErrorScreen | Exam.RetryShowsQuestions |
| src/pages/PracticeExam.jsx:29-46 | `loadQuestions` never clears `error` either | a failed load, then Retry: the error stays whatever the fetch returns | a successful retry shows the questions | high, not executed | PracticeExam.PracticeSession.LoadQuestions | PracticeExam.PracticeSession.LoadQuestionsCorrected |
| src/pages/PracticeExam.jsx:25-27 | a language change reloads the questions but keeps the answers | answer both English questions, switch to Nepali: the submit button is enabled with no Nepali question answered | a reload starts the practice afresh | high, not executed | PracticeExam.StaleAnswersEnableSubmit | PracticeExam.ReloadStartsAfresh |
| src/pages/PracticeExam.jsx:169 | a language change keeps `currentIndex` | on the second of two English questions, switch to a language with one question: `questions[1]` is undefined and rendering it throws | a reload returns to the first question | high, not executed | PracticeExam.ReloadLeavesIndexPastList | PracticeExam.ReloadStartsAfresh |
| src/pages/AdminKYC.jsx:216 | review buttons appear only for status 'submitted', and a resubmission after rejection is sent as 'pending' (src/pages/Profile.jsx:199) | a rejected KYC resubmitted by its owner is not offered for review until the owner submits again (the next submission is sent as 'submitted') | a resubmission goes back into the review queue | medium, not executed | AdminKyc.ResubmissionStrandedAsWritten | AdminKyc.EverySubmissionReviewable |
