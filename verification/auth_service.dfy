/** The authentication engine: signup, signin and credential validation
    over the user collection. bcrypt and the JWT signer are foreign code and
    appear as uninterpreted functions in `Crypto`. */
module AuthService {
  import opened JsText
  import opened Outcomes
  import opened UserSchema

  /** The bcrypt cost factor passed to `hash`. */
  const SaltRounds := 10

  /** The JWT payload `{ email, sub }`. */
  datatype Claims = Claims(email: JsString, sub: ObjectId)

  /** The random salt bcrypt draws for one `hash` call. */
  type Salt = JsString

  /** `bcrypt.hash(plain, rounds)` with its drawn salt, `bcrypt.compare(plain,
      hashed)` and `jwtService.sign(payload)`. */
  datatype Crypto = Crypto(
    hash: (JsString, nat, Salt) -> JsString,
    compare: (JsString, JsString) -> bool,
    sign: Claims -> JsString)

  /** `{ access_token }`, the only thing signup and signin hand back. */
  datatype AccessToken = AccessToken(access_token: JsString)

  datatype ErrorKind = BadRequest | Unauthorized | StoreFailure

  /** A thrown exception: its class and its `message`. */
  datatype Error = Error(kind: ErrorKind, message: string)

  const EmailExists := Error(BadRequest, "Email already exists")
  const InvalidCredentials := Error(Unauthorized, "Invalid credentials")

  /** A store error surfacing out of `save()`. */
  function FromStoreError(e: StoreError): Error {
    Error(StoreFailure, "E11000 duplicate key error")
  }

  /** The result of a signup and the collection after it. */
  datatype SignUpStep = SignUpStep(outcome: Result<AccessToken, Error>, store: Store)

  /** `signIn(user)`: sign the payload `{ email: user.email, sub: user._id }`. */
  function SignIn(user: User, c: Crypto): (t: AccessToken)
    ensures t.access_token == c.sign(Claims(user.email, user.id))
  {
    AccessToken(c.sign(Claims(user.email, user.id)))
  }

  /** The token depends on the email and the identifier only: neither the
      name nor the stored password enters it. */
  lemma TokenIgnoresNameAndPassword(user: User, name: JsString, password: JsString, c: Crypto)
    ensures SignIn(user.(name := name, password := password), c) == SignIn(user, c)
  {
  }

  /** `signUp(dto)`: refuse an email that is already stored, else store the
      hashed password under a fresh identifier and sign the new user in. */
  function SignUp(s: Store, email: JsString, name: JsString, password: JsString, c: Crypto, salt: Salt): (r: SignUpStep)
    ensures email in s.records ==> r == SignUpStep(Failure(EmailExists), s)
    ensures email !in s.records ==>
              && r.outcome.Success?
              && r.store.records == s.records[email := User(s.nextId, email, name, c.hash(password, SaltRounds, salt))]
              && r.outcome.value == AccessToken(c.sign(Claims(email, r.store.records[email].id)))
  {
    if FindOne(s, email).Some? then
      SignUpStep(Failure(EmailExists), s)
    else
      var hashed := c.hash(password, SaltRounds, salt);
      match Insert(s, email, name, hashed)
      case Failure(e) => SignUpStep(Failure(FromStoreError(e)), s)
      case Success(ins) => SignUpStep(Success(SignIn(ins.user, c)), ins.store)
  }

  /** `validateUser(email, pass)`: the stored user when a document has exactly
      this email and bcrypt accepts the password against its stored hash, and
      otherwise one and the same Unauthorized error. */
  function ValidateUser(s: Store, email: JsString, pass: JsString, c: Crypto): (r: Result<User, Error>)
    ensures r.Success? <==> email in s.records && c.compare(pass, s.records[email].password)
    ensures r.Success? ==> r.value == s.records[email]
    ensures r.Failure? ==> r.error == InvalidCredentials
  {
    var user := FindOne(s, email);
    if user.Some? && c.compare(pass, user.value.password) then Success(user.value)
    else Failure(InvalidCredentials)
  }

  /** bcrypt never hands back its input unchanged. */
  ghost predicate HashNeverIdentity(c: Crypto) {
    forall p, n, salt :: c.hash(p, n, salt) != p
  }

  /** bcrypt accepts a password against any hash made from it. */
  ghost predicate CompareAcceptsOwnHash(c: Crypto) {
    forall p, n, salt :: c.compare(p, c.hash(p, n, salt))
  }

  /** A signup for a stored email answers "Email already exists" and writes
      nothing. */
  lemma DuplicateSignUpChangesNothing(s: Store, email: JsString, name: JsString, password: JsString, c: Crypto, salt: Salt)
    requires Valid(s)
    requires exists e | e in s.records :: s.records[e].email == email
    ensures SignUp(s, email, name, password, c, salt).store == s
    ensures SignUp(s, email, name, password, c, salt).outcome == Failure(EmailExists)
    ensures EmailExists.kind == BadRequest
  {
  }

  /** A signup for a fresh email adds exactly one document, holding the
      hash of the password under a new identifier, keeps the collection
      well-formed and leaves every other document as it was. */
  lemma FreshSignUpAddsOneRecord(s: Store, email: JsString, name: JsString, password: JsString, c: Crypto, salt: Salt)
    requires Valid(s)
    requires forall e | e in s.records :: s.records[e].email != email
    ensures var r := SignUp(s, email, name, password, c, salt);
      && Valid(r.store)
      && r.store.records.Keys == s.records.Keys + {email}
      && |r.store.records| == |s.records| + 1
      && (forall e | e in s.records :: r.store.records[e] == s.records[e])
      && r.store.records[email].email == email
      && r.store.records[email].name == name
      && r.store.records[email].password == c.hash(password, SaltRounds, salt)
      && (forall e | e in s.records :: s.records[e].id != r.store.records[email].id)
  {
    assert email !in s.records;
    var ins := Insert(s, email, name, c.hash(password, SaltRounds, salt));
    assert ins.Success?;
  }

  /** The stored password is never the plaintext argument. */
  lemma StoredPasswordIsNotPlaintext(s: Store, email: JsString, name: JsString, password: JsString, c: Crypto, salt: Salt)
    requires HashNeverIdentity(c)
    requires email !in s.records
    ensures var r := SignUp(s, email, name, password, c, salt);
      email in r.store.records && r.store.records[email].password != password
  {
    var hashed := c.hash(password, SaltRounds, salt);
    assert hashed != password;
  }

  /** Signup and signin fit together: right after a fresh signup the same
      email and password validate to the new document, and signing that
      document in yields the token the signup returned, whose subject is the
      new document's identifier. */
  lemma SignUpThenValidate(s: Store, email: JsString, name: JsString, password: JsString, c: Crypto, salt: Salt)
    requires CompareAcceptsOwnHash(c)
    requires email !in s.records
    ensures var r := SignUp(s, email, name, password, c, salt);
      && ValidateUser(r.store, email, password, c) == Success(r.store.records[email])
      && r.outcome == Success(SignIn(r.store.records[email], c))
      && r.store.records[email].id == s.nextId
  {
    var hashed := c.hash(password, SaltRounds, salt);
    assert c.compare(password, hashed);
  }

  /** Validation does not reveal whether an email is registered: a missing
      user and a wrong password fail with the identical error. */
  lemma FailuresAreIndistinguishable(s: Store, missing: JsString, registered: JsString, p1: JsString, p2: JsString, c: Crypto)
    requires missing !in s.records
    requires registered in s.records && !c.compare(p2, s.records[registered].password)
    ensures ValidateUser(s, missing, p1, c).Failure?
    ensures ValidateUser(s, registered, p2, c).Failure?
    ensures ValidateUser(s, missing, p1, c) == ValidateUser(s, registered, p2, c)
  {
  }

  /** Emails are matched verbatim: an account under `A@B.com` is no account
      for `a@b.com`, in signup and in validation alike. */
  lemma EmailsAreCaseSensitive(c: Crypto, salt: Salt, p: JsString)
    ensures var upper, lower := Units("A@B.com"), Units("a@b.com");
      var r := SignUp(Empty, upper, Units("A"), p, c, salt);
      && lower !in r.store.records
      && ValidateUser(r.store, lower, p, c) == Failure(InvalidCredentials)
      && SignUp(r.store, lower, Units("A"), p, c, salt).outcome.Success?
  {
    var upper, lower := Units("A@B.com"), Units("a@b.com");
    assert upper[0] != lower[0];
  }
}
