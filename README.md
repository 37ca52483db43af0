# cellar authentication core, in Dafny

This project models the authentication core of the `cellar` service, a Go
program that registers users under a family (a tenant identifier) and signs
them in with a bcrypt-checked password, issuing a JWT on success. It covers
four parts:

- **The user record and its password handling** (`domain_user.dfy`, module
  `Domain`). This includes `NewUser`, `NewUserHashingPassword` (which panics
  when hashing fails), `HashedPassword`, `VerifyPassword` and `hashPassword`
  at work factor 14.
  - The bcrypt library sits beneath it (`bcrypt.dfy`, module `Bcrypt`).
  - The hash text `$2a$14$` + 22-character salt + 31-character digest is
    modelled concretely, and so is the parsing of a stored hash by
    `newFromHash`.
  - The Blowfish key schedule is a function-typed parameter `Digest`. It is
    assumed total (defined for every cost, 22-character salt and password);
    nothing is assumed about the values it yields.
  - The random salt is a parameter `entropy`. An `Err` there stands for a
    failing random source.
- **The in-memory user repository** (`repositories_user.dfy`, module
  `Repositories`). It is a class whose field `kvs` maps `family + "-" + email`
  to the user's JSON text.
  - `Create` overwrites in place.
  - `GetByEmail` looks the key up and decodes the entry.
  - The JSON text is produced and read back by `user_json.dfy` (module
    `UserJson`), with a proved round trip.
- **The auth use case** (`usecases_auth.dfy`, module `Usecases`). It is a
  class holding the repository.
  - `SignUp` builds the hashed user under a freshly generated family and
    creates it, with no check for an existing user.
  - `SignIn` looks the user up and verifies the password.
  - `usecases_auth_test.dfy` replays the scenarios of `auth_test.go` as
    methods.
- **The sign-in HTTP handler's decision** (`handlers_signin.dfy`, module
  `SignInHandler`). It covers `isValid`, the mapping to 400/403/500/200 with
  their messages, and the claim set of `generateJWT`.

Three behaviours of the code are easy to misread, and the model follows the
code in each:

- `SignUp` performs no uniqueness check. `SecondSignUpWithSameEmail` shows that
  a second sign-up with the same email succeeds, although
  `TestShouldNotCreateUserIfEmailAlreadyExists` expects an error.
- The use case reports "Invalid email address" and "Invalid password" as
  different errors, so a caller of the use case can tell an unknown email from
  a wrong password. Only the handler folds both into one "Invalid credentials"
  answer.
- Token signing uses golang-jwt v3, which signs with an empty
  `JWT_TOKEN_SECRET` instead of rejecting it. The signer is therefore an
  abstract function that may or may not fail, with no condition on the secret.

The one-argument and the family-keyed forms of the lookup are used side by
side. The port interfaces declare `GetByEmail(email)` and
`SignIn(email, password)`, and the use case implements exactly those:
`SignIn(email, password)` (internal/core/usecases/auth.go:32) calls
`GetByEmail(email)` (auth.go:33), as the tests do (auth_test.go:26, 47, 57,
68). The in-memory repository, however, implements `GetByEmail(family, email)`,
and the handler calls `SignIn(family, email, password)`
(internal/handlers/signin/http.go:60). The model's
`Usecases.AuthUseCase.SignIn(family, email, password)` therefore adds `family`
to the use case's own signature, following the handler's call, and passes it
to the repository's two-argument lookup. `SignInDecision` and
`SignUpDecision` state the use case's decisions on whatever the repository
answers, whichever backend produced it.

## Model

| member | source | states |
|---|---|---|
| `Bcrypt.GenerateFromPassword` | internal/core/domain/user.go:42-45 | hashing succeeds exactly when the cost is in range and the random source works; a random-source error comes back unchanged |
| `Bcrypt.DecodeEncode` | internal/core/domain/user.go:37-40 | parsing a stored hash gives back the version, cost, salt and digest it was written with |
| `Bcrypt.GeneratedHashVerifies` | internal/core/domain/user.go:37-45 | a hash generated from a password verifies against that password |
| `Bcrypt.GeneratedHashAccepts` | internal/core/domain/user.go:37-45 | a generated hash accepts a candidate iff the candidate yields the same digest under the same cost and salt |
| `Bcrypt.Decode` | internal/core/domain/user.go:38 | a stored hash that parses (as `newFromHash` does inside `CompareHashAndPassword`) is at least 59 characters, starts with '$', has a version no newer than '2' and a cost in 4..31, and ends with its 22-character salt followed by its digest |
| `Bcrypt.CompareHashAndPassword` | internal/core/domain/user.go:38-39 | a candidate is accepted only when the stored text parses, and then only when that text is 59 or 60 characters long (the 31-character digest admits no other length) |
| `Domain.NewUser` | internal/core/domain/user.go:14-21 | the record holds family, email, name and password verbatim |
| `Domain.HashPassword` | internal/core/domain/user.go:42-45 | fails iff the random source fails (with its error); on success the hash parses to cost 14, the drawn salt and the password's digest |
| `Domain.NewUserHashingPassword` | internal/core/domain/user.go:23-30 | panics with "Cannot hash password" iff hashing fails; otherwise family, email, name are kept and the password field is the hash |
| `Domain.HashedPassword` | internal/core/domain/user.go:32-35 | succeeds iff the random source works, and the result verifies against the record's current password |
| `Domain.VerifyPassword` | internal/core/domain/user.go:37-40 | true only when the stored password parses as a bcrypt hash (whose digest then matches the candidate's); a stored plaintext shorter than a hash never verifies |
| `Domain.HashedUserVerifies` | internal/core/domain/user.go:23-40 | a user built by NewUserHashingPassword with a working random source satisfies VerifyPassword for its own password |
| `Domain.HashedUserAccepts` | internal/core/domain/user.go:37-40 | such a user verifies a candidate iff the candidate yields the same digest at cost 14 and its salt |
| `UserJson.Unmarshal` | internal/repositories/user.go:128-135 | any failure is the error "Could not unmarshal user" |
| `UserJson.Marshal` | internal/repositories/user.go:119-135 | the text Create stores for a user (`json.Marshal` at line 120) decodes back through `unmarshal` to exactly that user |
| `Repositories.InMemoryKey` | internal/repositories/user.go:107-109 | the key is the family, then '-', then the email |
| `Repositories.Find` | internal/repositories/user.go:111-117 | a missing key answers "User does not exists" |
| `Repositories.Put` | internal/repositories/user.go:119-126 | the user's key is present afterwards and it is the only key added |
| `Repositories.InMemoryUserRepository.constructor` | internal/repositories/user.go:103-105 | a new repository has an empty map |
| `Repositories.InMemoryUserRepository.GetByEmail` | internal/repositories/user.go:111-117 | leaves the map alone; succeeds iff the key is present; the user found is filed under the requested key; errors are "User does not exists" or "Could not unmarshal user" |
| `Repositories.InMemoryUserRepository.Create` | internal/repositories/user.go:119-126 | the map becomes the old map with the user's text under its key (overwriting), well-formedness is kept, and the same user is returned without error |
| `Repositories.PutKeepsStored` | internal/repositories/user.go:119-126 | after Create every entry still decodes to a user filed under its own key |
| `Repositories.FindInEmpty` | internal/repositories/user.go:103-117 | a fresh repository fails every lookup with "User does not exists" |
| `Repositories.FindStored` | internal/repositories/user.go:111-117 | in a well-formed map a lookup succeeds iff the key is present |
| `Repositories.FindAfterPut` | internal/repositories/user.go:111-135 | read after write: after Create(u), GetByEmail(u.family, u.email) returns u |
| `Repositories.FindAfterPutElsewhere` | internal/repositories/user.go:124 | Create changes the answer for no other key |
| `Repositories.PutOverwrites` | internal/repositories/user.go:124-125 | creating a user whose key is taken adds no key, and only the new user is found there |
| `Repositories.KeyInjectiveForEqualFamilyLength` | internal/repositories/user.go:107-109 | for families of equal length two keys are equal iff family and email are |
| `Repositories.KeyCollision` | internal/repositories/user.go:107-117 | ("a-b","c") and ("a","b-c") share a key, so looking up family "a" returns a user of family "a-b" |
| `Usecases.SignInDecision` | internal/core/usecases/auth.go:32-42 | success iff the lookup succeeded and the password verifies, returning the looked-up user; failed lookup gives "Invalid email address", failed check gives "Invalid password" |
| `Usecases.SignUpDecision` | internal/core/usecases/auth.go:21-30 | a hashing failure panics with "Cannot hash password" before anything is created; an error from `Create` comes back as the same error; otherwise the user `Create` returned |
| `Usecases.AuthUseCase.constructor` | internal/core/usecases/auth.go:15-19 | the use case holds the given repository |
| `Usecases.AuthUseCase.SignUp` | internal/core/usecases/auth.go:21-30 | a hashing failure panics and leaves the repository unchanged; otherwise the hashed user with family = id is created (overwriting) and the outcome is SignUpDecision on what `Create` answered, here the created user; the repository stays well-formed |
| `Usecases.AuthUseCase.SignIn` | internal/core/usecases/auth.go:32-42 | reads only; the answer is SignInDecision on the repository's lookup; in a well-formed repository it succeeds iff the key is present and the password verifies |
| `Usecases.SignUpThenSignIn` | internal/core/usecases/auth.go:21-42 | after SignUp(id, e, n, p) with a working random source, SignIn(id, e, p) returns exactly the created user |
| `Usecases.SignInAfterSignUpWithOtherPassword` | internal/core/usecases/auth.go:37-39 | after that sign-up, SignIn with another candidate succeeds iff it yields the same digest, else "Invalid password" |
| `Usecases.SignInUnknownUser` | internal/core/usecases/auth.go:33-36 | against an empty repository SignIn fails with "Invalid email address" |
| `AuthUseCaseTests.ShouldCreateUser` | internal/core/usecases/auth_test.go:18-30 | SignUp succeeds and GetByEmail then returns the created user with the given family, email and name |
| `AuthUseCaseTests.SecondSignUpWithSameEmail` | internal/core/usecases/auth_test.go:32-40 | a second SignUp with the same email also succeeds (the test's expected error does not occur) |
| `AuthUseCaseTests.ShouldSignInUser` | internal/core/usecases/auth_test.go:43-52 | SignIn after SignUp returns the created user |
| `AuthUseCaseTests.ShouldReturnErrorIfUserDoesNotExist` | internal/core/usecases/auth_test.go:54-62 | SignIn on an empty repository fails with "Invalid email address" |
| `AuthUseCaseTests.ShouldReturnIfInvalidPassword` | internal/core/usecases/auth_test.go:64-73 | SignIn with "Invalid password" fails with "Invalid password" unless it yields the real password's digest |
| `SignInHandler.IsValid` | internal/handlers/signin/http.go:27-29 | a request is invalid exactly when one of family, email and password is empty |
| `SignInHandler.GenerateJWT` | internal/handlers/signin/http.go:88-99 | the result is the signer's answer on exactly the claims exp = now + 30 days, family and email of the user; a signing error comes back unchanged |
| `SignInHandler.BuildClaims` | internal/handlers/signin/http.go:88-93 | the claims are exactly exp, family and email; exp is now plus 30 days; family and email are the user's |
| `SignInHandler.HandleSignIn` | internal/handlers/signin/http.go:27-86 | 400 "Invalid request" iff the body did not decode or one of family, email, password is empty; 403 "Invalid credentials" iff the use case errs; 500 iff signing errs; 200 with the token header and only family, email, name in the body otherwise |
| `SignInHandler.InvalidRequestConsultsNothing` | internal/handlers/signin/http.go:50-59 | for an invalid request the answer does not depend on the use case, the clock, the secret or the signer |
| `SignInHandler.SignedUpUserGetsToken` | internal/handlers/signin/http.go:47-98 | a signed-up user presenting its own family, email and password gets 200, the signed token of its claims, and {family, email, name} |

## Left out

- The DynamoDB repository (internal/repositories/user.go:20-95): AWS client setup and the GetItem/PutItem network calls are I/O through a library that is not part of this model.
- The port interfaces (internal/core/ports) have no counterpart as types. The use case is bound to the in-memory repository, and `SignInDecision` gives its decision for any lookup result. `Get(id)` has no implementation and is omitted.
- `helpers.Uuid()` is not part of this model. The family it generates is the parameter `id` of `SignUp`.
- `Bcrypt.Decode`: the two cost characters must be decimal digits. `strconv.Atoi` would also accept a leading sign.
- `Usecases.AuthUseCase.SignUp`: it is bound to the in-memory repository, whose `Create` never fails, so the pass-through of a `Create` error (internal/core/usecases/auth.go:25-27) is reached only in `Usecases.SignUpDecision`, not in the method.
- `Domain.VerifyPassword` and `Bcrypt.Decode`: the stored text is split by characters, while the library's `newFromHash` splits the UTF-8 bytes of `[]byte(u.Password)`. A stored text holding a non-ASCII character can therefore be read differently: for `"$2é14$"` + salt + digest the library skips the second byte of 'é' and reads cost 14, where the model reads "4$" as the cost and rejects. Every hash the program itself writes is ASCII, so SignUp and SignIn are unaffected.
- `Bcrypt.CompareHashAndPassword`: the salt is not checked to be valid bcrypt base64. The library's key setup decodes it and fails on an invalid salt, so `VerifyPassword` is then false; the model compares digests for any 22 characters.
- `Bcrypt.CompareHashAndPassword`: the stored digest is compared whole. The library re-serialises it into a 60-byte buffer, which truncates or pads a digest of unusual length.
- The bcrypt password-length limit of newer library versions is not modelled. The library version is not visible.
- `UserJson.Marshal`: only `"` and `\` are escaped. `encoding/json` also escapes control characters, `<`, `>`, `&` and U+2028/U+2029. Those escapes do not affect the round trip, which is the only property the repository needs.
- `UserJson.Marshal`: strings are Unicode text (`seq<char>`), so invalid UTF-8 cannot occur. `encoding/json` replaces invalid UTF-8 bytes in a Go string with U+FFFD, which does break the round trip for such strings; the read-after-write properties hold only for valid text.
- `UserJson.Unmarshal`: reads only the member order that `Marshal` writes. `encoding/json` also accepts other orders, whitespace and missing members; the repository never stores such text.
- `Repositories.Find`: when an entry does not decode, the source returns a non-nil pointer to a zero `User` along with the error (internal/repositories/user.go:113-114). The model's `Err` carries no user. Under `Stored` this case does not arise, and `SignIn` ignores the user whenever there is an error (internal/core/usecases/auth.go:34).
- `Repositories.InMemoryUserRepository.Create`: the "Error marshalling user" branch is omitted. `json.Marshal` cannot fail on a record of four strings.
- The HTTP transport is outside the model: JSON request decoding, the Content-Type header, and writing status and body to the response writer. The handler is modelled as the (status, token header, body) decision it takes.
- JWT HS256 signing is the abstract `Signer`. `time.Now()` is the parameter `now`, in nanoseconds. The `JWT_TOKEN_SECRET` environment read is the parameter `secret`.
- `SignInHandler.BuildClaims`: `exp` is a `time.Time` (internal/handlers/signin/http.go:91), which golang-jwt v3 serialises as an RFC 3339 string, not as a NumericDate. v3's own `MapClaims.VerifyExpiresAt` therefore would not enforce it. `TimeClaim` hides that serialisation inside the `Signer`; the model states only that the claim is 30 days after `now`.
- The logging calls in the handler are left out.
- Process bootstrap (application.go, main.go) is out of scope: the log file, port selection and `ListenAndServe`.
- Concurrency is not modelled. The source has no synchronisation around the map.
