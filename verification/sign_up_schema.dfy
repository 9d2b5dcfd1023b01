/** The client's zod schema for the signup form. It checks the same rules as
    the server's signup body, each with its own message. The lemmas here show
    the two agree rule by rule on every password without surrogate pairs or
    presentation selectors, and that on the others the client's length rule,
    which counts code units, is laxer than the server's. */
module SignUpSchema {
  import opened JsText
  import PasswordPolicy
  import CreateUserDto

  datatype Form = Form(email: JsString, name: JsString, password: JsString)

  /** One zod issue of the form. */
  datatype Issue =
    | InvalidEmail       // .email("Invalid email address")
    | NameRequired       // .min(1, "Name is required")
    | PasswordTooShort   // .min(8, ...)
    | PasswordNoLetter   // .regex(/[a-zA-Z]/, ...)
    | PasswordNoNumber   // .regex(/\d/, ...)
    | PasswordNoSpecial  // .regex(/[^a-zA-Z0-9]/, ...)

  function Message(i: Issue): string {
    match i
    case InvalidEmail => "Invalid email address"
    case NameRequired => "Name is required"
    case PasswordTooShort => "Password must be at least 8 characters"
    case PasswordNoLetter => "Password must contain at least one letter"
    case PasswordNoNumber => "Password must contain at least one number"
    case PasswordNoSpecial => "Password must contain at least one special character"
  }

  /** The issues zod reports for the password field. `min(8)` compares the
      string's `length`, its number of code units. */
  function PasswordIssues(p: JsString): (v: set<Issue>)
    ensures v == {} <==> |p| >= PasswordPolicy.MinPasswordLength && PasswordPolicy.HasRequiredClasses(p)
    ensures PasswordTooShort in v <==> |p| < PasswordPolicy.MinPasswordLength
    ensures PasswordNoLetter in v <==> forall i | 0 <= i < |p| :: !IsAsciiLetter(p[i])
    ensures PasswordNoNumber in v <==> forall i | 0 <= i < |p| :: !IsAsciiDigit(p[i])
    ensures PasswordNoSpecial in v <==> forall i | 0 <= i < |p| :: IsAsciiAlnum(p[i])
  {
    (if |p| >= 8 then {} else {PasswordTooShort})
    + (if Test(Letters, p) then {} else {PasswordNoLetter})
    + (if Test(Digits, p) then {} else {PasswordNoNumber})
    + (if Test(NotAlnum, p) then {} else {PasswordNoSpecial})
  }

  /** Every issue of the form; `zodEmail` is zod's own email syntax check. */
  function Issues(f: Form, zodEmail: JsString -> bool): (v: set<Issue>)
    ensures v == {} <==> zodEmail(f.email) && |f.name| >= 1 && PasswordIssues(f.password) == {}
    ensures InvalidEmail in v <==> !zodEmail(f.email)
    ensures NameRequired in v <==> |f.name| == 0
  {
    (if zodEmail(f.email) then {} else {InvalidEmail})
    + (if |f.name| >= 1 then {} else {NameRequired})
    + PasswordIssues(f.password)
  }

  /** The server constraint that checks the same rule as a client issue. */
  function ServerRule(i: Issue): CreateUserDto.Constraint {
    match i
    case InvalidEmail => CreateUserDto.EmailFormat
    case NameRequired => CreateUserDto.NameNotEmpty
    case PasswordTooShort => CreateUserDto.PasswordMinLength
    case PasswordNoLetter => CreateUserDto.PasswordLetter
    case PasswordNoNumber => CreateUserDto.PasswordNumber
    case PasswordNoSpecial => CreateUserDto.PasswordSpecial
  }

  /** The client and server password predicates agree on every plain
      password. */
  lemma PasswordAgreesWithServer(p: JsString)
    requires Plain(p)
    ensures PasswordIssues(p) == {} <==> CreateUserDto.PasswordViolations(p) == {}
  {
  }

  /** On every password, a password the server accepts passes the client:
      a code-unit count is never below validator.js's count. */
  lemma ServerAcceptedPasswordsPassClient(p: JsString)
    ensures CreateUserDto.PasswordViolations(p) == {} ==> PasswordIssues(p) == {}
    ensures PasswordTooShort in PasswordIssues(p) ==> CreateUserDto.PasswordMinLength in CreateUserDto.PasswordViolations(p)
  {
  }

  /** Rule by rule: a client issue is raised exactly when the server's
      matching constraint fails. Only the email rule needs the two email
      checks to agree, and only the length rule needs a plain password. */
  lemma IssuesMatchServerRules(f: Form, zodEmail: JsString -> bool, isEmail: JsString -> bool, i: Issue)
    requires i == InvalidEmail ==> zodEmail(f.email) == isEmail(f.email)
    requires i == PasswordTooShort ==> Plain(f.password)
    ensures i in Issues(f, zodEmail) <==>
              ServerRule(i) in CreateUserDto.Violations(CreateUserDto.CreateUser(f.email, f.name, f.password), isEmail)
  {
    var p := f.password;
    var dto := CreateUserDto.CreateUser(f.email, f.name, p);
    var sv := CreateUserDto.Violations(dto, isEmail);
    var pv := CreateUserDto.PasswordViolations(p);
    if i in {PasswordTooShort, PasswordNoLetter, PasswordNoNumber, PasswordNoSpecial} {
      assert i in Issues(f, zodEmail) <==> i in PasswordIssues(p);
      assert ServerRule(i) in CreateUserDto.PasswordConstraints;
      assert ServerRule(i) in sv <==> ServerRule(i) in pv;
      PasswordIssueMatchesServerRule(p, i);
    }
  }

  /** The letter, number and special-character rules carry the same custom
      messages on both sides. */
  lemma PasswordMessagesMatchServer(i: Issue)
    requires i in {PasswordNoLetter, PasswordNoNumber, PasswordNoSpecial}
    ensures Message(i) == CreateUserDto.Message(ServerRule(i))
  {
  }

  /** Each issue reports a message of its own, so the form can tell the user
      which rule the field broke. */
  lemma MessagesDistinguishIssues(i1: Issue, i2: Issue)
    requires i1 != i2
    ensures Message(i1) != Message(i2)
  {
  }

  /** The password half of the rule-by-rule correspondence. */
  lemma PasswordIssueMatchesServerRule(p: JsString, i: Issue)
    requires i in {PasswordTooShort, PasswordNoLetter, PasswordNoNumber, PasswordNoSpecial}
    requires i == PasswordTooShort ==> Plain(p)
    ensures i in PasswordIssues(p) <==> ServerRule(i) in CreateUserDto.PasswordViolations(p)
  {
  }

  /** A form the client accepts is accepted by the server and conversely,
      provided the two email syntax checks agree on the address and the
      password is plain. */
  lemma FormAgreesWithServer(f: Form, zodEmail: JsString -> bool, isEmail: JsString -> bool)
    requires zodEmail(f.email) == isEmail(f.email)
    requires Plain(f.password)
    ensures Issues(f, zodEmail) == {} <==>
              CreateUserDto.Violations(CreateUserDto.CreateUser(f.email, f.name, f.password), isEmail) == {}
  {
  }

  /** `Ab1!` followed by two U+1F600 (😀, the surrogate pair D83D DE00). */
  const SmileyPassword: JsString := Units("Ab1!") + [0xD83D, 0xDE00, 0xD83D, 0xDE00]

  /** It is eight code units but six characters to validator.js. */
  lemma SmileyPasswordLength()
    ensures |SmileyPassword| == 8 && ValidatorLength(SmileyPassword) == 6
  {
    var p := SmileyPassword;
    assert PairAt(p, 4);
    assert p[4..][2..] == p[6..] && p[6..][2..] == [];
    assert SurrogatePairs(p[4..]) == 2;
    assert p[3..][1..] == p[4..] && p[2..][1..] == p[3..] && p[1..][1..] == p[2..];
    assert SurrogatePairs(p[3..]) == SurrogatePairs(p[4..]);
    assert SurrogatePairs(p[2..]) == SurrogatePairs(p[3..]);
    assert SurrogatePairs(p[1..]) == SurrogatePairs(p[2..]);
    assert SurrogatePairs(p) == 2;
    assert forall i | 0 <= i < |p| :: !IsPresentationSelector(p[i]);
  }

  /** The client raises no issue on that password, while the server rejects
      it for its length alone. */
  lemma ClientAcceptsServerRejects()
    ensures PasswordIssues(SmileyPassword) == {}
    ensures CreateUserDto.PasswordViolations(SmileyPassword) == {CreateUserDto.PasswordMinLength}
  {
    var p := SmileyPassword;
    SmileyPasswordLength();
    assert IsAsciiLetter(p[0]) && IsAsciiDigit(p[2]) && !IsAsciiAlnum(p[3]);
  }

  /** The client password rule counting characters as the server does,
      which zod can express as a refinement calling validator.js. */
  function CorrectedPasswordIssues(p: JsString): (v: set<Issue>)
    ensures v == {} <==> PasswordPolicy.Acceptable(p)
    ensures Plain(p) ==> v == PasswordIssues(p)
  {
    (if ValidatorLength(p) >= 8 then {} else {PasswordTooShort})
    + (if Test(Letters, p) then {} else {PasswordNoLetter})
    + (if Test(Digits, p) then {} else {PasswordNoNumber})
    + (if Test(NotAlnum, p) then {} else {PasswordNoSpecial})
  }

  /** With the corrected rule, every client password issue is raised exactly
      when the matching server constraint fails, on every password. */
  lemma CorrectedIssuesMatchServerRules(p: JsString, i: Issue)
    requires i in {PasswordTooShort, PasswordNoLetter, PasswordNoNumber, PasswordNoSpecial}
    ensures i in CorrectedPasswordIssues(p) <==> ServerRule(i) in CreateUserDto.PasswordViolations(p)
  {
  }
}
