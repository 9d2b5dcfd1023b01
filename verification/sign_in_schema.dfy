/** The client's zod schema for the signin form: a well-formed email and a
    password of at least one character. */
module SignInSchema {
  import opened JsText
  import SignInDto

  datatype Form = Form(email: JsString, password: JsString)

  datatype Issue =
    | InvalidEmail      // .email("Invalid email address")
    | PasswordRequired  // .min(1, "Password is required")

  function Message(i: Issue): string {
    match i
    case InvalidEmail => "Invalid email address"
    case PasswordRequired => "Password is required"
  }

  /** Every issue of the form; it passes iff zod's email check holds and the
      password is non-empty. */
  function Issues(f: Form, zodEmail: JsString -> bool): (v: set<Issue>)
    ensures v == {} <==> zodEmail(f.email) && |f.password| > 0
    ensures PasswordRequired in v <==> f.password == []
  {
    (if zodEmail(f.email) then {} else {InvalidEmail})
    + (if |f.password| >= 1 then {} else {PasswordRequired})
  }

  /** The client's `min(1)` is the server's `@IsNotEmpty()` on the password. */
  lemma PasswordRuleAgreesWithServer(f: Form, zodEmail: JsString -> bool, isEmail: JsString -> bool)
    ensures PasswordRequired in Issues(f, zodEmail) <==>
              SignInDto.PasswordNotEmpty in SignInDto.Violations(SignInDto.SignIn(f.email, f.password), isEmail)
  {
  }

  /** An empty password is rejected with "Password is required". */
  lemma EmptyPasswordMessage(email: JsString, zodEmail: JsString -> bool)
    ensures PasswordRequired in Issues(Form(email, []), zodEmail)
    ensures Message(PasswordRequired) == "Password is required"
  {
  }
}
