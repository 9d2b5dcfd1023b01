/** The server-side signup body and the class-validator rules on it. The
    global validation pipe rejects the request before the controller runs
    unless every rule holds. Failures are recorded per constraint name, and
    the three `@Matches` rules share the name `matches`, so the pipe reports
    every failing rule's message except that at most one pattern message
    survives. */
module CreateUserDto {
  import opened JsText
  import PasswordPolicy

  datatype CreateUser = CreateUser(email: JsString, name: JsString, password: JsString)

  /** One decorator constraint of the body. */
  datatype Constraint =
    | EmailFormat          // @IsEmail() on email
    | NameNotEmpty         // @IsNotEmpty() on name
    | PasswordMinLength    // @MinLength(8) on password, counted by validator.js
    | PasswordLetter       // @Matches(/[a-zA-Z]/)
    | PasswordNumber       // @Matches(/\d/)
    | PasswordSpecial      // @Matches(/[^a-zA-Z0-9]/)

  const PasswordConstraints: set<Constraint> :=
    {PasswordMinLength, PasswordLetter, PasswordNumber, PasswordSpecial}

  /** The three `@Matches` constraints, recorded under one key. */
  const PatternConstraints: set<Constraint> := {PasswordLetter, PasswordNumber, PasswordSpecial}

  /** The message reported for a failed constraint: the three custom messages
      of the source, and class-validator's defaults for the others. */
  function Message(c: Constraint): string {
    match c
    case EmailFormat => "email must be an email"
    case NameNotEmpty => "name should not be empty"
    case PasswordMinLength => "password must be longer than or equal to 8 characters"
    case PasswordLetter => "Password must contain at least one letter"
    case PasswordNumber => "Password must contain at least one number"
    case PasswordSpecial => "Password must contain at least one special character"
  }

  /** The password constraints that fail on `p`; the policy holds exactly when
      none fails, and each constraint fails exactly when its own rule is broken. */
  function PasswordViolations(p: JsString): (v: set<Constraint>)
    ensures v <= PasswordConstraints
    ensures v == {} <==> PasswordPolicy.Acceptable(p)
    ensures PasswordMinLength in v <==> ValidatorLength(p) < PasswordPolicy.MinPasswordLength
    ensures PasswordLetter in v <==> forall i | 0 <= i < |p| :: !IsAsciiLetter(p[i])
    ensures PasswordNumber in v <==> forall i | 0 <= i < |p| :: !IsAsciiDigit(p[i])
    ensures PasswordSpecial in v <==> forall i | 0 <= i < |p| :: IsAsciiAlnum(p[i])
  {
    (if ValidatorLength(p) < 8 then {PasswordMinLength} else {})
    + (if Test(Letters, p) then {} else {PasswordLetter})
    + (if Test(Digits, p) then {} else {PasswordNumber})
    + (if Test(NotAlnum, p) then {} else {PasswordSpecial})
  }

  /** Every constraint that fails on the body; the body passes the pipe iff
      the email is well-formed, the name is non-empty and the password meets
      the policy. */
  function Violations(dto: CreateUser, isEmail: JsString -> bool): (v: set<Constraint>)
    ensures EmailFormat in v <==> !isEmail(dto.email)
    ensures NameNotEmpty in v <==> |dto.name| == 0
    ensures v * PasswordConstraints == PasswordViolations(dto.password)
    ensures v == {} <==> isEmail(dto.email) && |dto.name| > 0 && PasswordPolicy.Acceptable(dto.password)
  {
    (if isEmail(dto.email) then {} else {EmailFormat})
    + (if |dto.name| > 0 then {} else {NameNotEmpty})
    + PasswordViolations(dto.password)
  }

  /** The failures whose messages reach the response. Every constraint but
      the patterns has a key of its own. Decorators apply bottom-up, so the
      patterns run special, number, letter, and each failure overwrites the
      `matches` entry: the topmost failing pattern is the one kept. */
  function Reported(v: set<Constraint>): (r: set<Constraint>)
    ensures r <= v
    ensures r - PatternConstraints == v - PatternConstraints
    ensures r * PatternConstraints == {} <==> v * PatternConstraints == {}
    ensures forall c1, c2 | c1 in r * PatternConstraints && c2 in r * PatternConstraints :: c1 == c2
    ensures r == {} <==> v == {}
  {
    var kept :=
      if PasswordLetter in v then {PasswordLetter}
      else if PasswordNumber in v then {PasswordNumber}
      else if PasswordSpecial in v then {PasswordSpecial}
      else {};
    assert kept <= PatternConstraints && kept <= v;
    assert ((v - PatternConstraints) + kept) - PatternConstraints == v - PatternConstraints;
    assert ((v - PatternConstraints) + kept) * PatternConstraints == kept;
    assert v * PatternConstraints == {} <==> PasswordLetter !in v && PasswordNumber !in v && PasswordSpecial !in v by {
      if PasswordLetter in v { assert PasswordLetter in v * PatternConstraints; }
      if PasswordNumber in v { assert PasswordNumber in v * PatternConstraints; }
      if PasswordSpecial in v { assert PasswordSpecial in v * PatternConstraints; }
    }
    (v - PatternConstraints) + kept
  }

  /** The messages the validation pipe sends back for a set of failures. */
  function Messages(v: set<Constraint>): set<string> {
    set c | c in Reported(v) :: Message(c)
  }

  /** A rule's message is in the response exactly when the rule is
      reported, since no two rules share a message. */
  lemma MessageInResponse(v: set<Constraint>, c: Constraint)
    ensures Message(c) in Messages(v) <==> c in Reported(v)
  {
    if Message(c) in Messages(v) {
      var d :| d in Reported(v) && Message(d) == Message(c);
      if d != c {
        MessagesDistinguishRules(d, c);
      }
    }
  }

  /** The pipe names every failed rule except the patterns, and exactly one
      failed pattern rule whenever any failed; it never names a rule that
      held. */
  lemma ReportedMessages(v: set<Constraint>, c1: Constraint, c2: Constraint)
    ensures c1 in v && c1 !in PatternConstraints ==> Message(c1) in Messages(v)
    ensures Message(c1) in Messages(v) ==> c1 in v
    ensures v * PatternConstraints != {} <==>
              || Message(PasswordLetter) in Messages(v)
              || Message(PasswordNumber) in Messages(v)
              || Message(PasswordSpecial) in Messages(v)
    ensures (c1 in PatternConstraints && c2 in PatternConstraints
              && Message(c1) in Messages(v) && Message(c2) in Messages(v)) ==> c1 == c2
  {
    MessageInResponse(v, c1);
    MessageInResponse(v, c2);
    MessageInResponse(v, PasswordLetter);
    MessageInResponse(v, PasswordNumber);
    MessageInResponse(v, PasswordSpecial);
    var r := Reported(v);
    assert r * PatternConstraints != {} <==> PasswordLetter in r || PasswordNumber in r || PasswordSpecial in r by {
      if r * PatternConstraints != {} {
        var c :| c in r * PatternConstraints;
      }
      if PasswordLetter in r { assert PasswordLetter in r * PatternConstraints; }
      if PasswordNumber in r { assert PasswordNumber in r * PatternConstraints; }
      if PasswordSpecial in r { assert PasswordSpecial in r * PatternConstraints; }
    }
  }

  /** Each constraint reports a message of its own, so the caller can tell
      which password rule was broken. */
  lemma MessagesDistinguishRules(c1: Constraint, c2: Constraint)
    requires c1 != c2
    ensures Message(c1) != Message(c2)
  {
  }

  /** The password of the controller's own signup example is accepted. */
  lemma ExamplePasswordAccepted()
    ensures PasswordViolations(Units("john@doe123")) == {}
  {
    UnitsArePlain("john@doe123");
    var p := Units("john@doe123");
    assert IsAsciiLetter(p[0]) && IsAsciiDigit(p[8]) && !IsAsciiAlnum(p[4]);
  }

  /** `password` has a letter and eight characters but no digit and no
      special character, and is rejected for exactly those two reasons. */
  lemma ExamplePasswordRejected()
    ensures PasswordViolations(Units("password")) == {PasswordNumber, PasswordSpecial}
  {
    UnitsArePlain("password");
    LowercaseUnits("password");
  }

  /** A non-ASCII letter is outside `[a-zA-Z0-9]`, so it serves as the
      special character: `passwörd1` is accepted. */
  lemma NonAsciiLetterCountsAsSpecial()
    ensures PasswordViolations(Units("passwörd1")) == {}
  {
    UnitsArePlain("passwörd1");
    var p := Units("passwörd1");
    assert IsAsciiLetter(p[0]) && IsAsciiDigit(p[8]) && !IsAsciiAlnum(p[5]);
  }

  /** A body whose password is `password` breaks the number and the
      special-character rules, but the pipe answers with the number rule's
      message alone. */
  lemma PasswordExampleReportsOnePattern(isEmail: JsString -> bool)
    requires isEmail(Units("a@b.com"))
    ensures Messages(Violations(CreateUser(Units("a@b.com"), Units("A"), Units("password")), isEmail))
              == {Message(PasswordNumber)}
  {
    ExamplePasswordRejected();
    var v := Violations(CreateUser(Units("a@b.com"), Units("A"), Units("password")), isEmail);
    assert v == {PasswordNumber, PasswordSpecial};
    assert Reported(v) == {PasswordNumber};
  }

  /** An empty password breaks the length and all three pattern rules; the
      pipe reports the length message and the letter rule's message. */
  lemma EmptyPasswordReportsTwoMessages(dto: CreateUser, isEmail: JsString -> bool)
    requires isEmail(dto.email) && |dto.name| > 0 && dto.password == []
    ensures Messages(Violations(dto, isEmail)) == {Message(PasswordMinLength), Message(PasswordLetter)}
  {
    var v := Violations(dto, isEmail);
    assert v == PasswordConstraints;
    assert Reported(v) == {PasswordMinLength, PasswordLetter};
  }
}
