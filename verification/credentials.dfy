/**
 * The guard chains of the two credential forms: `handleSignup`
 * (app/signup.tsx) and `handleLogin` (screens/Login.tsx). Each handler
 * either shows an alert and stops, or sets the loading flag, calls the
 * authentication service, and clears the flag again. The service's answer
 * is an input; the handler's observable behaviour is its effect trace.
 */
module Credentials {

  import opened Text

  datatype SignupError = MissingField | PasswordMismatch | PasswordTooShort

  /** The outcome of a guard chain: go ahead, or stop with the first failing check. */
  datatype Verdict<E> = Accept | Reject(error: E)

  /** What the authentication service answered. */
  datatype AuthOutcome = Authenticated | AuthFailed(message: string)

  /** The handler's observable effects, in order. */
  datatype UiEffect =
    | ShowAlert(title: string, message: string)
    | SetLoading(on: bool)
    | CreateUser(email: string, password: string)
    | SignIn(email: string, password: string)
    | Navigate(route: string)

  const MinPasswordLength: nat := 6

  /** The alert texts of the two forms; login shares the first one. */
  const FillAllFields: string := "Please fill in all fields."
  const NoMatch: string := "Passwords do not match."
  const TooShort: string := "Password must be at least 6 characters long."

  /** The alert text of each rejected signup; the text alone tells the three errors apart. */
  function SignupMessage(e: SignupError): (m: string)
    ensures m == FillAllFields <==> e.MissingField?
    ensures m == NoMatch <==> e.PasswordMismatch?
    ensures m == TooShort <==> e.PasswordTooShort?
  {
    match e
    case MissingField => FillAllFields
    case PasswordMismatch => NoMatch
    case PasswordTooShort => TooShort
  }

  /** A signup form every check accepts, stated without reference to their order. */
  predicate SignupAcceptable(email: string, password: string, confirm: string)
  {
    && Trim(email) != []
    && password != []
    && password == confirm
    && Utf16Length(password) >= MinPasswordLength
  }

  /**
   * The signup checks in source order: a blank field, then a mismatch,
   * then a short password; the first failing one decides the error.
   */
  function ValidateSignup(email: string, password: string, confirm: string): (v: Verdict<SignupError>)
    ensures v == Accept <==> SignupAcceptable(email, password, confirm)
    ensures v == Reject(MissingField) <==> IsBlank(email) || password == [] || confirm == []
    ensures v == Reject(PasswordMismatch) <==>
              !IsBlank(email) && password != [] && confirm != [] && password != confirm
    ensures v == Reject(PasswordTooShort) <==>
              !IsBlank(email) && password != [] && password == confirm
              && Utf16Length(password) < MinPasswordLength
  {
    if Trim(email) == [] || password == [] || confirm == [] then Reject(MissingField)
    else if password != confirm then Reject(PasswordMismatch)
    else if Utf16Length(password) < MinPasswordLength then Reject(PasswordTooShort)
    else Accept
  }

  /** What the screen does after a successful or failed authentication call. */
  function AfterAuth(outcome: AuthOutcome, failureTitle: string): (t: seq<UiEffect>)
    ensures |t| == 1
    ensures outcome.Authenticated? ==> t[0] == Navigate("/")
    ensures outcome.AuthFailed? ==> t[0] == ShowAlert(failureTitle, outcome.message)
  {
    match outcome
    case Authenticated => [Navigate("/")]
    case AuthFailed(msg) => [ShowAlert(failureTitle, msg)]
  }

  /** `handleSignup`: validate, then create the account with the trimmed email. */
  function HandleSignup(email: string, password: string, confirm: string, outcome: AuthOutcome): (t: seq<UiEffect>)
    ensures ValidateSignup(email, password, confirm).Reject? ==>
              t == [ShowAlert("Error", SignupMessage(ValidateSignup(email, password, confirm).error))]
    ensures SignupAcceptable(email, password, confirm) ==>
              |t| == 4 && t[0] == SetLoading(true) && t[1] == CreateUser(Trim(email), password)
              && t[2..3] == AfterAuth(outcome, "Signup Failed") && t[3] == SetLoading(false)
  {
    match ValidateSignup(email, password, confirm)
    case Reject(e) => [ShowAlert("Error", SignupMessage(e))]
    case Accept =>
      [SetLoading(true), CreateUser(Trim(email), password)]
      + AfterAuth(outcome, "Signup Failed") + [SetLoading(false)]
  }

  /** Account creation is attempted exactly when every check passes. */
  lemma SignupCallsServiceIffValid(email: string, password: string, confirm: string, outcome: AuthOutcome)
    ensures (exists i :: 0 <= i < |HandleSignup(email, password, confirm, outcome)|
                         && HandleSignup(email, password, confirm, outcome)[i].CreateUser?)
            <==> SignupAcceptable(email, password, confirm)
  {
    var t := HandleSignup(email, password, confirm, outcome);
    if SignupAcceptable(email, password, confirm) {
      assert t[1].CreateUser?;
    }
  }

  /** A six-unit password passes the length check; a five-unit one does not. */
  lemma SixIsTheBoundary(email: string)
    requires !IsBlank(email)
    ensures ValidateSignup(email, "abcdef", "abcdef") == Accept
    ensures ValidateSignup(email, "abcde", "abcde") == Reject(PasswordTooShort)
  {
  }

  /** Length is counted in UTF-16 units: three astral characters already make six. */
  lemma AstralPasswordIsLongEnough(email: string)
    requires !IsBlank(email)
    ensures ValidateSignup(email, "\U{1F600}\U{1F600}\U{1F600}", "\U{1F600}\U{1F600}\U{1F600}") == Accept
  {
  }

  /** Whatever the service answers, a started signup ends with the loading flag cleared. */
  lemma SignupClearsLoading(email: string, password: string, confirm: string, outcome: AuthOutcome)
    requires SignupAcceptable(email, password, confirm)
    ensures HandleSignup(email, password, confirm, outcome)[|HandleSignup(email, password, confirm, outcome)| - 1]
            == SetLoading(false)
  {
  }

  /** Login accepts any non-blank email and any non-empty password; there is no length rule. */
  predicate LoginAcceptable(email: string, password: string)
  {
    Trim(email) != [] && password != []
  }

  /** `handleLogin`: validate, then sign in with the trimmed email and the password as typed. */
  function HandleLogin(email: string, password: string, outcome: AuthOutcome): (t: seq<UiEffect>)
    ensures !LoginAcceptable(email, password) <==> IsBlank(email) || password == []
    ensures !LoginAcceptable(email, password) ==> t == [ShowAlert("Error", FillAllFields)]
    ensures LoginAcceptable(email, password) ==>
              |t| == 4 && t[0] == SetLoading(true) && t[1] == SignIn(Trim(email), password)
              && t[2..3] == AfterAuth(outcome, "Login Failed") && t[3] == SetLoading(false)
  {
    if Trim(email) == [] || password == [] then [ShowAlert("Error", FillAllFields)]
    else
      [SetLoading(true), SignIn(Trim(email), password)]
      + AfterAuth(outcome, "Login Failed") + [SetLoading(false)]
  }

  /** A rejected login never touches the loading flag and never calls the service. */
  lemma RejectedLoginIsInert(email: string, password: string, outcome: AuthOutcome)
    requires !LoginAcceptable(email, password)
    ensures forall e :: e in HandleLogin(email, password, outcome) ==> !e.SetLoading? && !e.SignIn?
  {
  }

  /** A one-character password is enough to reach the sign-in call. */
  lemma LoginHasNoLengthRule(email: string, c: char, outcome: AuthOutcome)
    requires !IsBlank(email)
    ensures HandleLogin(email, [c], outcome)[1] == SignIn(Trim(email), [c])
  {
  }

  /** A password of six spaces is accepted by signup: the password itself is never trimmed. */
  lemma PasswordIsNotTrimmed(email: string)
    requires !IsBlank(email)
    ensures ValidateSignup(email, "      ", "      ") == Accept
  {
  }
}
