/** The signup form: the checks the page makes before posting, and the
    whole submission as one transition of the account store. */
module AuthPage {
  import opened Common
  import opened ConsumerRoutes

  const PasswordsDiffer := "Passwords do not match"

  /** What the form shows after a submission: the consumer it now holds as
      logged in, or an error message. */
  datatype View = SignedIn(profile: Profile) | Shown(message: string)

  datatype Step = Step(view: View, store: Store)

  /** The page's own checks: every field filled, then the two passwords
      equal. `None` lets the request go out. */
  function SignupGuard(fullName: string, email: Email, password: string, confirmPassword: string)
    : (r: Option<string>)
    ensures r.None? <==>
      fullName != "" && email != "" && password != "" && confirmPassword != "" && password == confirmPassword
    ensures (fullName == "" || email == "" || password == "" || confirmPassword == "") ==>
      r == Some(AllFieldsRequired)
    ensures fullName != "" && email != "" && password != "" && confirmPassword != ""
            && password != confirmPassword ==>
      r == Some(PasswordsDiffer)
  {
    if fullName == "" || email == "" || password == "" || confirmPassword == "" then Some(AllFieldsRequired)
    else if password != confirmPassword then Some(PasswordsDiffer)
    else None
  }

  /** One submission of the signup form: the guard, then the server's
      signup, whose error message is shown as is. */
  function SubmitSignup(s: Store, fullName: string, email: Email, password: string, confirmPassword: string)
    : (r: Step)
    ensures r.view.SignedIn? <==>
      && fullName != "" && email != "" && password != "" && password == confirmPassword
      && email !in s
    ensures r.view.SignedIn? ==>
      r.view.profile == Profile(fullName, email) && r.store == Signup(s, fullName, email, password).state
    ensures r.view.Shown? ==> r.store == s
    ensures (fullName == "" || email == "" || password == "" || confirmPassword == "") ==>
      r == Step(Shown(AllFieldsRequired), s)
    ensures fullName != "" && email != "" && password != "" && confirmPassword != ""
            && password != confirmPassword ==>
      r == Step(Shown(PasswordsDiffer), s)
  {
    match SignupGuard(fullName, email, password, confirmPassword)
    case Some(message) => Step(Shown(message), s)
    case None =>
      var reply := Signup(s, fullName, email, password);
      match reply.result
      case Ok(_) => Step(SignedIn(Profile(fullName, email)), reply.state)
      case Err(e) => Step(Shown(e.message), s)
  }

  /** Past the page's guard the server can only object to a registered
      email: its own missing-field error is unreachable from this form. */
  lemma GuardLeavesOnlyEmailTaken(s: Store, fullName: string, email: Email, password: string,
                                  confirmPassword: string)
    requires SignupGuard(fullName, email, password, confirmPassword).None?
    ensures Signup(s, fullName, email, password).result.Ok? <==> email !in s
    ensures email in s ==> SubmitSignup(s, fullName, email, password, confirmPassword).view == Shown(EmailTaken)
  {
  }

  /** Whoever the form signs in can log in again with the same password. */
  lemma SignedInCanLogIn(s: Store, fullName: string, email: Email, password: string, confirmPassword: string)
    requires SubmitSignup(s, fullName, email, password, confirmPassword).view.SignedIn?
    ensures var r := SubmitSignup(s, fullName, email, password, confirmPassword);
      Login(r.store, email, password).result == Ok(r.view.profile)
  {
    SignupThenLogin(s, fullName, email, password);
  }
}
