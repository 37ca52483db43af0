/** The authentication use case (internal/core/usecases/auth.go): SignUp hashes
    the password and creates the user; SignIn looks the user up and checks the
    password. */
module Usecases {
  import opened Results
  import opened Domain
  import opened Repositories
  import Bcrypt

  const InvalidEmailAddress: string := "Invalid email address"
  const InvalidPassword: string := "Invalid password"

  /** The decision SignIn takes on what the repository's lookup returned, whatever
      the backend: a failed lookup is "Invalid email address", a user that rejects
      the password is "Invalid password", otherwise the looked-up user. */
  function SignInDecision(digest: Bcrypt.Digest, lookup: Result<User>, password: string): (r: Result<User>)
    ensures r.Ok? <==> lookup.Ok? && VerifyPassword(digest, lookup.value, password)
    ensures r.Ok? ==> r == lookup
    ensures lookup.Err? ==> r == Err(InvalidEmailAddress)
    ensures lookup.Ok? && !VerifyPassword(digest, lookup.value, password) ==> r == Err(InvalidPassword)
  {
    match lookup
    case Err(_) => Err(InvalidEmailAddress)
    case Ok(user) => if !VerifyPassword(digest, user, password) then Err(InvalidPassword) else Ok(user)
  }

  /** The outcome SignUp gives once the user is built and `Create` has answered,
      whatever the backend: a hashing failure panics before anything is created;
      a `Create` error comes back unchanged; otherwise the user `Create` returned. */
  function SignUpDecision(digest: Bcrypt.Digest, entropy: Result<Bcrypt.EncodedSalt>,
                          id: string, email: string, name: string, password: string,
                          created: Result<User>): (o: Outcome<Result<User>>)
    ensures o.Panicked? <==> NewUserHashingPassword(digest, entropy, id, email, name, password).Panicked?
    ensures o.Panicked? ==> o == Panicked(CannotHashPassword)
    ensures o.Returned? && created.Err? ==> o == Returned(Err(created.error))
    ensures o.Returned? && created.Ok? ==> o == Returned(Ok(created.value))
  {
    match NewUserHashingPassword(digest, entropy, id, email, name, password)
    case Panicked(message) => Panicked(message)
    case Returned(_) =>
      match created
      case Err(e) => Returned(Err(e))
      case Ok(user) => Returned(Ok(user))
  }

  /** `authUseCase`, bound to the in-memory repository. `digest` stands for the
      bcrypt library the domain package links. */
  class AuthUseCase {
    const repo: InMemoryUserRepository
    const digest: Bcrypt.Digest

    /** `NewAuthUseCase`. */
    constructor (userRepo: InMemoryUserRepository, digest: Bcrypt.Digest)
      ensures repo == userRepo && this.digest == digest
    {
      repo := userRepo;
      this.digest := digest;
    }

    /** `SignUp`: builds the user with family `id` (a fresh identifier) and the
        hashed password, then creates it without checking for an existing one.
        A hashing failure panics before the repository is touched. */
    method SignUp(id: string, email: string, name: string, password: string, entropy: Result<Bcrypt.EncodedSalt>)
      returns (o: Outcome<Result<User>>)
      modifies repo
      ensures old(repo.Valid()) ==> repo.Valid()
      ensures NewUserHashingPassword(digest, entropy, id, email, name, password).Panicked? ==>
                o == Panicked(CannotHashPassword) && repo.kvs == old(repo.kvs)
      ensures NewUserHashingPassword(digest, entropy, id, email, name, password).Returned? ==>
                var u := NewUserHashingPassword(digest, entropy, id, email, name, password).result;
                o == Returned(Ok(u)) && repo.kvs == Put(old(repo.kvs), u)
      ensures NewUserHashingPassword(digest, entropy, id, email, name, password).Returned? ==>
                o == SignUpDecision(digest, entropy, id, email, name, password,
                                    Ok(NewUserHashingPassword(digest, entropy, id, email, name, password).result))
    {
      var built := NewUserHashingPassword(digest, entropy, id, email, name, password);
      if built.Panicked? {
        o := Panicked(built.message);
        return;
      }
      var created := repo.Create(built.result);
      o := SignUpDecision(digest, entropy, id, email, name, password, created);
    }

    /** `SignIn`: reads the repository, never writes it. */
    method SignIn(family: string, email: string, password: string) returns (r: Result<User>)
      ensures r == SignInDecision(digest, Find(repo.kvs, family, email), password)
      ensures repo.Valid() ==>
                (r.Ok? <==> InMemoryKey(family, email) in repo.kvs
                            && VerifyPassword(digest, Find(repo.kvs, family, email).value, password))
    {
      var user := repo.GetByEmail(family, email);
      if user.Err? {
        return Err(InvalidEmailAddress);
      }
      if !VerifyPassword(digest, user.value, password) {
        return Err(InvalidPassword);
      }
      r := Ok(user.value);
    }
  }

  /** A user signed up with a working random source can sign in with the same
      family, email and password, and gets back exactly the stored user. */
  lemma SignUpThenSignIn(digest: Bcrypt.Digest, kvs: map<string, string>, salt: Bcrypt.EncodedSalt,
                         id: string, email: string, name: string, password: string)
    ensures NewUserHashingPassword(digest, Ok(salt), id, email, name, password).Returned?
    ensures var u := NewUserHashingPassword(digest, Ok(salt), id, email, name, password).result;
            SignInDecision(digest, Find(Put(kvs, u), id, email), password) == Ok(u)
  {
    HashedUserVerifies(digest, salt, id, email, name, password);
    var u := NewUserHashingPassword(digest, Ok(salt), id, email, name, password).result;
    FindAfterPut(kvs, u);
  }

  /** After that sign-up another candidate password is accepted exactly when it
      yields the same digest; otherwise SignIn answers "Invalid password". */
  lemma SignInAfterSignUpWithOtherPassword(digest: Bcrypt.Digest, kvs: map<string, string>, salt: Bcrypt.EncodedSalt,
                                           id: string, email: string, name: string, password: string, candidate: string)
    ensures NewUserHashingPassword(digest, Ok(salt), id, email, name, password).Returned?
    ensures var u := NewUserHashingPassword(digest, Ok(salt), id, email, name, password).result;
            SignInDecision(digest, Find(Put(kvs, u), id, email), candidate)
              == if digest(PasswordCost, salt, candidate) == digest(PasswordCost, salt, password)
                 then Ok(u) else Err(InvalidPassword)
  {
    HashedUserAccepts(digest, salt, id, email, name, password, candidate);
    var u := NewUserHashingPassword(digest, Ok(salt), id, email, name, password).result;
    FindAfterPut(kvs, u);
  }

  /** Against an empty repository every SignIn fails with "Invalid email address". */
  lemma SignInUnknownUser(digest: Bcrypt.Digest, family: string, email: string, password: string)
    ensures SignInDecision(digest, Find(map[], family, email), password) == Err(InvalidEmailAddress)
  {
    FindInEmpty(family, email);
  }
}
