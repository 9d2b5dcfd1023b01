/** The server-side signin body and its class-validator rules: a non-empty,
    well-formed email and a non-empty password, with no shape rule on the
    password. */
module SignInDto {
  import opened JsText
  import PasswordPolicy

  datatype SignIn = SignIn(email: JsString, password: JsString)

  datatype Constraint =
    | EmailFormat        // @IsEmail() on email
    | EmailNotEmpty      // @IsNotEmpty() on email
    | PasswordNotEmpty   // @IsNotEmpty() on password

  /** class-validator's default messages for the three constraints. */
  function Message(c: Constraint): string {
    match c
    case EmailFormat => "email must be an email"
    case EmailNotEmpty => "email should not be empty"
    case PasswordNotEmpty => "password should not be empty"
  }

  /** Every constraint that fails on the body; it passes iff the email is
      non-empty and well-formed and the password is non-empty. */
  function Violations(dto: SignIn, isEmail: JsString -> bool): (v: set<Constraint>)
    ensures EmailFormat in v <==> !isEmail(dto.email)
    ensures EmailNotEmpty in v <==> |dto.email| == 0
    ensures PasswordNotEmpty in v <==> |dto.password| == 0
    ensures v == {} <==> |dto.email| > 0 && isEmail(dto.email) && |dto.password| > 0
  {
    (if isEmail(dto.email) then {} else {EmailFormat})
    + (if |dto.email| > 0 then {} else {EmailNotEmpty})
    + (if |dto.password| > 0 then {} else {PasswordNotEmpty})
  }

  function Messages(v: set<Constraint>): set<string> {
    set c | c in v :: Message(c)
  }

  /** Whatever the password, signin imposes no length, letter, digit or
      special-character rule: only emptiness can fail. */
  lemma OnlyEmptinessConstrainsPassword(email: JsString, p: JsString, q: JsString, isEmail: JsString -> bool)
    requires |p| > 0 && |q| > 0
    ensures Violations(SignIn(email, p), isEmail) == Violations(SignIn(email, q), isEmail)
  {
  }

  /** Every password the signup policy accepts also passes signin, but not
      the converse: `a` passes signin and fails the policy. */
  lemma SignUpPasswordsPassSignIn(email: JsString, p: JsString, isEmail: JsString -> bool)
    ensures PasswordPolicy.Acceptable(p) ==> PasswordNotEmpty !in Violations(SignIn(email, p), isEmail)
    ensures PasswordNotEmpty !in Violations(SignIn(email, Units("a")), isEmail)
    ensures !PasswordPolicy.Acceptable(Units("a"))
  {
  }
}
