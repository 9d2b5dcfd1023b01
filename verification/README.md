# Authentication system — Dafny model

A model of the authentication decision logic of a NestJS backend and its
React client:

- the **authentication engine** (`signUp`, `signIn`, `validateUser`) over a
  user collection keyed by email, with bcrypt and the JWT signer as
  uninterpreted functions (`AuthService`, `UserSchema`);
- the **controller**, a pure map from a service outcome to an HTTP status and
  body, and the session guard that gates the `auth-validate` probe
  (`AuthController`), composed with the global validation pipe into a whole
  backend that serves one request at a time (`Backend`);
- the **input validators**, written twice: class-validator DTOs on the server
  (`CreateUserDto`, `SignInDto`) and zod schemas on the client
  (`SignUpSchema`, `SignInSchema`), compared rule by rule against one
  reference password rule (`PasswordPolicy`), with the strings on which the
  two length rules disagree exhibited;
- the **client session logic**: the axios request interceptor and 401
  handler (`AxiosInstance`), the protected route's probe state machine
  (`PrivateRoute`), and client and backend together (`Session`).

Strings are sequences of UTF-16 code units (`JsText`). zod's `min(8)`
compares JavaScript `length`, the number of code units, while
class-validator's `MinLength(8)` calls validator.js `isLength`, which counts
a surrogate pair once and does not count the presentation selectors U+FE0E
and U+FE0F (`JsText.ValidatorLength`). Hashing,
comparing, signing, token verification, email syntax and bcrypt's random salt
are parameters (`Crypto`, `Backend.Env`); properties that depend on them
(bcrypt accepting its own hash, the verifier accepting issued tokens) are
stated as explicit hypotheses.

Behaviour worth knowing, as the code has it:

- A wrong password answers 401 `{ message: "Invalid credentials" }`. The
  `{ error: "Invalid credentials" }` body of the controller is only reachable
  when `validateUser` resolves to a falsy value, which the real service never
  does (`AuthController.ServiceSignInAnswers`).
- Signin can also answer 400: the global validation pipe
  (auth-backend/src/main.ts:17) rejects an empty password or a malformed
  email before the controller runs (`Backend.Handle`).
- Emails are matched verbatim, with no case folding or trimming
  (`AuthService.EmailsAreCaseSensitive`).
- A password can pass the client form and still be refused by the
  server's length rule: `Ab1!` followed by two U+1F600 is eight code units
  but six characters to the server
  (`Session.EmojiPasswordSignUpIsRefused`; see Findings).

## Model

| member | source | states |
|---|---|---|
| JsText.Test | auth-backend/src/auth/dto/create-user.dto.ts:19-21 | a one-class pattern's `test` is true iff some code unit of the string is in the class, false iff none is |
| JsText.ValidatorLength | auth-backend/src/auth/dto/create-user.dto.ts:18 | the length `MinLength` compares is at most the code-unit count, never negative, and equals it exactly on strings without surrogate pairs or presentation selectors |
| CreateUserDto.PasswordViolations | auth-backend/src/auth/dto/create-user.dto.ts:17-23 | no password constraint fails iff the password has at least 8 characters as validator.js counts them, an ASCII letter, a digit and a code unit outside `[a-zA-Z0-9]`; each constraint fails exactly when its own rule is broken |
| CreateUserDto.Violations | auth-backend/src/auth/dto/create-user.dto.ts:9-25 | the signup body passes iff the email is well-formed, the name is non-empty and the password meets the policy; the email and name constraints fail exactly on their own rule |
| CreateUserDto.MessagesDistinguishRules | auth-backend/src/auth/dto/create-user.dto.ts:19-22 | distinct constraints report distinct messages |
| CreateUserDto.ExamplePasswordAccepted | auth-backend/src/auth/auth.controller.spec.ts:42-46 | `john@doe123` meets every password rule |
| CreateUserDto.ExamplePasswordRejected | auth-backend/src/auth/dto/create-user.dto.ts:20-22 | `password` fails exactly the number and special-character rules |
| CreateUserDto.NonAsciiLetterCountsAsSpecial | auth-backend/src/auth/dto/create-user.dto.ts:21 | a non-ASCII letter satisfies the special-character rule, so `passwörd1` is accepted |
| CreateUserDto.Message | auth-backend/src/auth/dto/create-user.dto.ts:17-23 | the messages the pipe reports: class-validator's defaults for `IsEmail`, `IsNotEmpty` and `MinLength(8)`, the three custom texts for the patterns |
| CreateUserDto.Reported | auth-backend/src/auth/dto/create-user.dto.ts:17-23 | the reported failures are among the actual ones, include every non-pattern failure, and hold exactly one pattern failure iff any pattern rule failed; nothing is reported iff nothing failed |
| CreateUserDto.ReportedMessages | auth-backend/src/auth/dto/create-user.dto.ts:17-23 | the pipe names every failed non-pattern rule, exactly one failed pattern rule whenever any pattern failed, and never a rule that held |
| CreateUserDto.PasswordExampleReportsOnePattern | auth-backend/src/auth/dto/create-user.dto.ts:19-23 | a body with password `password` breaks two pattern rules but the pipe reports only "Password must contain at least one number" |
| CreateUserDto.EmptyPasswordReportsTwoMessages | auth-backend/src/auth/dto/create-user.dto.ts:18-23 | an empty password breaks four rules and the pipe reports two messages, the length one and the letter one |
| SignInDto.Violations | auth-backend/src/auth/dto/sign-in.dto.ts:3-11 | the signin body passes iff the email is non-empty and well-formed and the password is non-empty; each constraint fails exactly on its own rule |
| SignInDto.OnlyEmptinessConstrainsPassword | auth-backend/src/auth/dto/sign-in.dto.ts:8-10 | any two non-empty passwords are judged alike: no length, letter, digit or special rule applies at signin |
| SignInDto.SignUpPasswordsPassSignIn | auth-backend/src/auth/dto/sign-in.dto.ts:8-10 | every password the signup policy accepts passes signin, while `a` passes signin and fails the policy |
| SignUpSchema.PasswordIssues | auth-app/src/schema/signUpSchema.ts:6-14 | the client reports no password issue iff the password has at least 8 code units and the letter, digit and special-character rules hold; each issue is raised exactly when its own rule is broken |
| SignUpSchema.Issues | auth-app/src/schema/signUpSchema.ts:3-15 | the signup form passes iff zod's email check holds, the name has at least one unit and the password raises no issue; the email and name issues appear exactly on their own rule |
| SignUpSchema.PasswordAgreesWithServer | auth-app/src/schema/signUpSchema.ts:6-14 | on a password without surrogate pairs or presentation selectors, the client and server password predicates agree |
| SignUpSchema.PasswordIssueMatchesServerRule | auth-app/src/schema/signUpSchema.ts:8-14 | each client pattern issue is raised exactly when the matching server constraint fails, on every password; the length issue does so on passwords without surrogate pairs or presentation selectors |
| SignUpSchema.IssuesMatchServerRules | auth-app/src/schema/signUpSchema.ts:3-15 | every client issue is raised exactly when its server constraint fails; the email issue needs the two email checks to agree on the address, the length issue a password without surrogate pairs or presentation selectors |
| SignUpSchema.PasswordMessagesMatchServer | auth-app/src/schema/signUpSchema.ts:9-13 | the letter, number and special-character rules carry the server's messages |
| SignUpSchema.FormAgreesWithServer | auth-app/src/schema/signUpSchema.ts:3-15 | when the two email checks agree and the password holds no surrogate pair or presentation selector, the client accepts a form iff the server accepts the same body |
| SignUpSchema.Message | auth-app/src/schema/signUpSchema.ts:4-13 | the six issue messages of the schema |
| SignUpSchema.MessagesDistinguishIssues | auth-app/src/schema/signUpSchema.ts:4-13 | distinct client issues report distinct messages |
| SignUpSchema.ServerAcceptedPasswordsPassClient | auth-app/src/schema/signUpSchema.ts:8 | on every password, one the server accepts passes the client, and a client length issue implies the server's |
| SignUpSchema.SmileyPasswordLength | auth-backend/src/auth/dto/create-user.dto.ts:18 | `Ab1!` followed by two U+1F600 has 8 code units and a validator.js length of 6 |
| SignUpSchema.ClientAcceptsServerRejects | auth-app/src/schema/signUpSchema.ts:8 | on that password the client raises no issue while the server fails exactly its length constraint |
| SignUpSchema.CorrectedPasswordIssues | auth-app/src/schema/signUpSchema.ts:6-14 | with the length counted as validator.js counts it, the client reports no issue iff the password meets the server's policy, and reports the same issues as the schema on plain passwords |
| SignUpSchema.CorrectedIssuesMatchServerRules | auth-app/src/schema/signUpSchema.ts:8-14 | with the corrected length rule, each client password issue is raised exactly when the matching server constraint fails, on every password |
| SignInSchema.Issues | auth-app/src/schema/signInSchema.ts:3-6 | the signin form passes iff zod's email check holds and the password is non-empty; the password issue appears iff it is empty |
| SignInSchema.PasswordRuleAgreesWithServer | auth-app/src/schema/signInSchema.ts:5 | the client's `min(1)` fails exactly when the server's `IsNotEmpty` on the password fails |
| SignInSchema.EmptyPasswordMessage | auth-app/src/schema/signInSchema.ts:5 | an empty password is rejected with "Password is required" |
| UserSchema.FindOne | auth-backend/src/auth/auth.service.ts:26 | in a well-formed collection the result is a document whose email equals the query exactly, and there is none only when no document has that email |
| UserSchema.Insert | auth-backend/src/auth/schemas/user.schema.ts:5-13 | the unique index refuses a second document with the same email; otherwise one document with a fresh identifier is added, all others unchanged, and well-formedness is kept |
| UserSchema.EmailIsUnique | auth-backend/src/auth/schemas/user.schema.ts:6-7 | two documents of a well-formed collection with the same email are the same document |
| UserSchema.NameAndPasswordMayRepeat | auth-backend/src/auth/schemas/user.schema.ts:9-13 | a well-formed collection may hold two documents sharing a name and a stored password value |
| AuthService.SignIn | auth-backend/src/auth/auth.service.ts:41-47 | the access token is the signer applied to the claims `{ email, sub: _id }` of the user |
| AuthService.SignUp | auth-backend/src/auth/auth.service.ts:23-39 | a stored email fails with "Email already exists" and the collection unchanged; a fresh one adds the document holding `hash(password, 10)` and returns the token signed over the email and the new identifier |
| AuthService.DuplicateSignUpChangesNothing | auth-backend/src/auth/auth.service.ts:26-30 | when a document already has the email, signup is a BadRequest that writes nothing |
| AuthService.FreshSignUpAddsOneRecord | auth-backend/src/auth/auth.service.ts:32-35 | for a fresh email exactly one document is added, with that email, name and hashed password and an identifier no other document has; every other document is unchanged |
| AuthService.StoredPasswordIsNotPlaintext | auth-backend/src/auth/auth.service.ts:32-34 | if bcrypt never returns its input, the stored password differs from the plaintext |
| AuthService.TokenIgnoresNameAndPassword | auth-backend/src/auth/auth.service.ts:41-47 | the signin token depends only on the email and identifier, never on the name or stored password |
| AuthService.ValidateUser | auth-backend/src/auth/auth.service.ts:50-58 | succeeds iff a document has exactly this email and bcrypt accepts the password against its hash, returning that document; every failure is "Invalid credentials" |
| AuthService.SignUpThenValidate | auth-backend/src/auth/auth.service.ts:32-54 | if bcrypt accepts its own hashes, after a fresh signup the same credentials validate to the new document, whose signin token is the one signup returned and whose identifier is the token's subject |
| AuthService.FailuresAreIndistinguishable | auth-backend/src/auth/auth.service.ts:51-57 | an unknown email and a wrong password fail with the identical error |
| AuthService.EmailsAreCaseSensitive | auth-backend/src/auth/auth.service.ts:24-26 | after signing up `A@B.com`, `a@b.com` is not registered, does not validate, and can itself be signed up |
| AuthController.FromService | auth-backend/src/auth/auth.service.ts:53-57 | the real service either yields the user or throws, never a falsy value |
| AuthController.SignUpResponse | auth-backend/src/auth/auth.controller.ts:25-33 | signup answers 201 with the service result iff it succeeded, else 400 with the error's message; no other status |
| AuthController.SignInResponse | auth-backend/src/auth/auth.controller.ts:36-54 | signin answers 200 with `signIn(user)` iff a user came back, 401 `{ error }` on a falsy value, 401 `{ message }` on a thrown error; no other status |
| AuthController.FailedSignInNeverSigns | auth-backend/src/auth/auth.controller.ts:42-48 | on both failure paths the answer does not depend on the signer |
| AuthController.BearerCredential | auth-backend/src/auth/auth.controller.ts:57 | a token is extracted only from a present header that is the bearer scheme followed by that token |
| AuthController.GuardAccepts | auth-backend/src/auth/auth.controller.ts:57 | the guard passes a request iff its Authorization header is the bearer scheme followed by a token the verifier accepts |
| AuthController.AuthValidateResponse | auth-backend/src/auth/auth.controller.ts:56-60 | the probe answers 200 "Authenticated" iff the guard accepts the bearer token, otherwise the guard's 401 |
| AuthController.ServiceSignInAnswers | auth-backend/src/auth/auth.controller.ts:36-54 | with the real service, signin answers 200 with the stored user's token iff the credentials check, otherwise 401 "Invalid credentials"; the `{ error }` body never occurs |
| Backend.Handle | auth-backend/src/auth/auth.controller.ts:24-60 | only a successful signup writes; signup answers 201/400, signin 200/400/401, the probe 200/401 |
| Backend.HandleKeepsInvariant | auth-backend/src/auth/auth.service.ts:23-58 | one request keeps a well-formed collection well-formed and keeps every document it had, unaltered |
| Backend.FreshSignUpKeepsStore | auth-backend/src/auth/auth.service.ts:26-35 | signup changes the collection only when it succeeds, and keeps a well-formed collection well-formed with every existing document |
| Backend.HandleGrowsByAtMostOne | auth-backend/src/auth/auth.service.ts:32-35 | one request adds at most one document, and only a signup adds any |
| Backend.RunKeepsValid | auth-backend/src/auth/auth.service.ts:23-58 | over any sequence of requests a well-formed collection stays well-formed |
| Backend.RunKeepsDocuments | auth-backend/src/auth/auth.service.ts:23-58 | over any sequence of requests no document is removed or altered |
| Backend.RunGrowsByAtMostSignUps | auth-backend/src/auth/auth.service.ts:26-35 | over any sequence of requests the collection grows by at most the number of signup requests |
| Backend.ReadOnlyRunsChangeNothing | auth-backend/src/auth/auth.service.ts:41-58 | any sequence of signin and probe requests leaves the collection unchanged |
| Backend.RefusedSignUpMessages | auth-backend/src/main.ts:17 | a signup the pipe refuses writes nothing and answers 400 with a non-empty list: the messages of the reported failures |
| AxiosInstance.AttachToken | auth-app/src/helper/AxiosInstance.ts:9-15 | with a stored non-empty token, Authorization becomes `Bearer <token>`; without one the config is unchanged; no other header or field changes |
| AxiosInstance.AttachIsIdempotent | auth-app/src/helper/AxiosInstance.ts:12 | attaching twice with the same cookie equals attaching once |
| AxiosInstance.OnRejected | auth-app/src/helper/AxiosInstance.ts:16-21 | the handler redirects to `/signin` iff the response status is 401 and always rejects with the original error |
| AxiosInstance.SendAsWritten | auth-app/src/helper/AxiosInstance.ts:8-22 | as wired, a request sends the attached config, resolves iff the status is 2xx, and never redirects |
| AxiosInstance.UnauthorizedResponseIsNotRedirected | auth-app/src/helper/AxiosInstance.ts:16-21 | as wired, a 401 answer rejects without sending the browser to `/signin` |
| AxiosInstance.Send | auth-app/src/helper/AxiosInstance.ts:16-21 | with the handler on the response side, a failed answer rejects with its own status and redirects to `/signin` iff it is 401 |
| AxiosInstance.SendDiffersOnlyInRedirect | auth-app/src/helper/AxiosInstance.ts:8-22 | moving the handler changes neither the request sent nor the caller's outcome |
| PrivateRoute.Settle | auth-app/src/components/PrivateRoute.tsx:17-26 | after the probe settles, loading is off and authenticated holds iff the probe succeeded |
| PrivateRoute.Render | auth-app/src/components/PrivateRoute.tsx:31-39 | the placeholder iff loading; once loaded, the page iff authenticated, otherwise a redirect to `/signin` |
| PrivateRoute.Lifecycle | auth-app/src/components/PrivateRoute.tsx:13-29 | a mount has the initial loading state, then one settled state iff the probe has settled, which is not loading and authenticated iff the probe succeeded |
| PrivateRoute.LifecycleLeavesLoadingOnce | auth-app/src/components/PrivateRoute.tsx:13-29 | a mount starts loading and unauthenticated, has at most one later state, never loading again, and ends on the page iff its single probe succeeded |
| Session.BearerRoundTrip | auth-app/src/helper/AxiosInstance.ts:12 | the guard's extraction recovers exactly the token the interceptor attached |
| Session.ProbeDecision | auth-app/src/components/PrivateRoute.tsx:16-39 | the protected page shows iff a non-empty token is stored and the backend's verifier accepts it, otherwise the route redirects to `/signin` |
| Session.LoggedOutIsRedirected | auth-app/src/pages/AppPage.tsx:8-11 | after the cookie is removed the protected route redirects to `/signin` |
| Session.Apply | auth-app/src/pages/AppPage.tsx:9 | a page write leaves a token in the cookie iff it stored one, and then exactly that token |
| Session.LastEventDecides | auth-app/src/pages/SignIn.tsx:27 | after any non-empty sequence of stores and removals the cookie is what the last event alone leaves |
| Session.ProbeViewAsWired | auth-app/src/helper/AxiosInstance.ts:8-22 | the protected route decides the same with the 401 handler wired as the program wires it as with the corrected wiring |
| Session.EmojiPasswordSignUpIsRefused | auth-backend/src/main.ts:17 | a signup form the client accepts, with password `Ab1!` and two U+1F600, is answered 400 with the length message alone and writes nothing |
| Session.SignUpThenProbe | auth-app/src/pages/SignUp.tsx:24-30 | a valid signup for a fresh email answers 201 with a token that, once stored, opens the protected page, provided the verifier accepts issued tokens; with no token the route redirects |
| Session.ExampleSignUpIsValid | auth-app/src/schema/signUpSchema.ts:3-15 | the body `a@b.com`/`A`/`Abcdef1!` passes every signup rule when the email check accepts the address |
| Session.WrongPasswordIsUnauthorized | auth-backend/src/auth/auth.controller.ts:35-54 | a well-formed signin with an unknown email or a wrong password answers 401 "Invalid credentials" and writes nothing |

## Left out

- bcrypt and JWT internals (salting, cost factor, signatures, expiry): `hash`, `compare`, `sign` and `verify` are uninterpreted; bcrypt's random salt is a parameter (`Env.saltFor`).
- Email syntax (`IsEmail`, zod's `email()`): abstract predicates, kept separate for the server and the client because they are different libraries.
- The guard file `guard/jwt-auth.guard` is not part of this model. Its extraction is assumed to be an exact `Bearer ` prefix on the Authorization header (`AuthController.BearerCredential`); whether the unseen guard also reads the cookie that `cookie-parser` (auth-backend/src/main.ts:9) exposes, or accepts other spellings of the scheme, is not known, and the guard's 401 body is left abstract (`GuardRejection`).
- Request parsing: DTO fields are strings; non-string or missing JSON fields, which `IsString`/`IsNotEmpty` would reject, are not modelled.
- The validation pipe's response body is modelled as the set of messages it lists, with at most one of the three pattern messages because class-validator records failures per constraint name and all three are named `matches`; the order of the list and the surrounding `statusCode`/`error` fields are not modelled.
- Which failing pattern message survives follows TypeScript's bottom-up decorator application, so the topmost failing `@Matches` is written last (`CreateUserDto.Reported`); this rests on reading class-validator, not on a run.
- MongoDB ObjectIds are modelled as a counter in the store; only their uniqueness matters here.
- `AuthService.FromStoreError`: the driver's duplicate-key error text is abbreviated; a sequential model never reaches it, because the pre-check runs first.
- Concurrency: the check-then-insert race between simultaneous signups and promise scheduling; each request is one sequential step.
- Logger calls, bootstrap in auth-backend/src/main.ts (CORS, port, cookie parser), routing wiring and build configuration.
- Page rendering and forms; the pages' only logic, storing and removing the `token` cookie, is `Session.Apply`.
- Foreign calls never fail: `findOne`, `save`, `bcrypt.hash`, `bcrypt.compare` and `sign` are total, and every axios request gets a response. In the program a rejected `findOne` or `compare` makes signin answer 401 with the driver's message (auth-backend/src/auth/auth.controller.ts:50-52), a failing `save` or `hash` makes signup answer 400 with its message, and a request without a response rejects with no status.
- ValidateUser: "every failure is Invalid credentials" holds only because the store and bcrypt cannot fail in the model; a database or bcrypt error would surface with its own message.
- ProbeDecision: assumes the probe request always reaches the backend; a network failure also leaves the route on the redirect, but through an error the model does not represent.
- The validator.js version is not part of the repository; `JsText.ValidatorLength` follows releases that subtract both surrogate pairs and U+FE0E/U+FE0F. Older releases subtract only surrogate pairs, which changes nothing for the counterexample used here.
- PasswordAgreesWithServer: proved only for passwords without surrogate pairs or presentation selectors, because on the others the client's code-unit count exceeds the server's (see Findings).
- PasswordIssueMatchesServerRule: the length half is proved only for passwords without surrogate pairs or presentation selectors, for the same reason.
- IssuesMatchServerRules: the length issue is matched only on passwords without surrogate pairs or presentation selectors, for the same reason.
- FormAgreesWithServer: proved only for passwords without surrogate pairs or presentation selectors, for the same reason.
- Axios header names are case-insensitive; the model keys headers by exact name.
- Navigation is represented as data (`navigateTo`, `View.Redirect`), not performed.

## Findings

| source | as written | input that shows it | evidently intended | confidence | as-written member | corrected member |
|---|---|---|---|---|---|---|
| auth-app/src/helper/AxiosInstance.ts:8-22 | the 401 handler is the second argument of `interceptors.request.use`, so it only receives rejections from earlier request steps, and a failed response never reaches it | any request the backend answers with status 401 | registered on `interceptors.response`, so that a 401 anywhere redirects to `/signin` | medium, not executed | AxiosInstance.UnauthorizedResponseIsNotRedirected | AxiosInstance.Send |
| auth-app/src/schema/signUpSchema.ts:8 | zod's `min(8)` counts code units, while the server's `MinLength(8)` (auth-backend/src/auth/dto/create-user.dto.ts:18) counts a surrogate pair once and skips U+FE0E/U+FE0F, so the client accepts 8-unit passwords the server refuses | the password `Ab1!` followed by two U+1F600 | the client rejects exactly the passwords the server rejects, counting length as validator.js does | medium, not executed | SignUpSchema.ClientAcceptsServerRejects | SignUpSchema.CorrectedIssuesMatchServerRules |
