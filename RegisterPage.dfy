/** The registration page's submit handler: a password-confirmation gate in front of `onRegister`. */
module RegisterPage {

  const PasswordsDoNotMatch: string := "Passwords do not match!"

  /** The four inputs of the form. */
  datatype RegisterForm = RegisterForm(fullName: string, email: string, password: string, confirmPassword: string)

  /** What a submit does: an alert, or one call of `onRegister` with an email. */
  datatype RegisterOutcome = Alert(message: string) | Register(email: string)

  /**
   * `handleSubmit`: different password and confirmation raise the alert;
   * equal ones hand the email over exactly as typed, with no check of its
   * domain or of its being taken.
   */
  function HandleSubmit(form: RegisterForm): (r: RegisterOutcome)
    ensures r.Register? <==> form.password == form.confirmPassword
    ensures r.Register? ==> r.email == form.email
    ensures r.Alert? ==> r.message == PasswordsDoNotMatch
  {
    if form.password != form.confirmPassword then Alert(PasswordsDoNotMatch) else Register(form.email)
  }

  /**
   * Only the email reaches `onRegister`: forms with the same email whose
   * passwords agree or disagree alike give the same outcome, whatever the
   * full names and the passwords themselves.
   */
  lemma OnlyEmailForwarded(a: RegisterForm, b: RegisterForm)
    requires a.email == b.email
    requires (a.password == a.confirmPassword) == (b.password == b.confirmPassword)
    ensures HandleSubmit(a) == HandleSubmit(b)
  {
  }
}
