/** The user record of the domain package and its password handling
    (internal/core/domain/user.go). */
module Domain {
  import opened Results
  import Bcrypt

  /** A registered identity. `password` holds whatever the constructor was given:
      the plaintext for `NewUser`, the bcrypt hash for `NewUserHashingPassword`. */
  datatype User = User(family: string, email: string, name: string, password: string)

  /** The work factor every hash is made with. */
  const PasswordCost: int := 14

  const CannotHashPassword: string := "Cannot hash password"

  /** `NewUser`: the record holds the four arguments unchanged. */
  function NewUser(family: string, email: string, name: string, password: string): (u: User)
    ensures u.family == family && u.email == email && u.name == name && u.password == password
  {
    User(family, email, name, password)
  }

  /** `hashPassword`: bcrypt at cost 14 with a salt from the random source. It
      fails only when the random source does, with that source's error; on success
      the hash records cost 14 and the salt, and verifies against the password. */
  function HashPassword(digest: Bcrypt.Digest, entropy: Result<Bcrypt.EncodedSalt>, password: string): (r: Result<string>)
    ensures r.Ok? <==> entropy.Ok?
    ensures entropy.Err? ==> r == entropy
    ensures r.Ok? ==>
              Bcrypt.Decode(r.value)
                == Some(Bcrypt.Hashed(Bcrypt.MajorVersion, Some(Bcrypt.MinorVersion), PasswordCost, entropy.value,
                                      digest(PasswordCost, entropy.value, password)))
  {
    if entropy.Ok? then
      Bcrypt.DecodeEncode(Bcrypt.Hashed(Bcrypt.MajorVersion, Some(Bcrypt.MinorVersion), PasswordCost, entropy.value,
                                        digest(PasswordCost, entropy.value, password)));
      Bcrypt.GenerateFromPassword(digest, password, PasswordCost, entropy)
    else
      Bcrypt.GenerateFromPassword(digest, password, PasswordCost, entropy)
  }

  /** `NewUserHashingPassword`: panics when hashing fails and otherwise builds the
      record with the hash, never the plaintext, as its password. */
  function NewUserHashingPassword(digest: Bcrypt.Digest, entropy: Result<Bcrypt.EncodedSalt>,
                                  family: string, email: string, name: string, password: string): (o: Outcome<User>)
    ensures o.Panicked? <==> HashPassword(digest, entropy, password).Err?
    ensures o.Panicked? ==> o.message == CannotHashPassword
    ensures o.Returned? ==> o.result == User(family, email, name, HashPassword(digest, entropy, password).value)
  {
    match HashPassword(digest, entropy, password)
    case Err(_) => Panicked(CannotHashPassword)
    case Ok(pass) => Returned(NewUser(family, email, name, pass))
  }

  /** `HashedPassword`: a fresh hash of the record's current password field. */
  function HashedPassword(digest: Bcrypt.Digest, entropy: Result<Bcrypt.EncodedSalt>, u: User): (r: Result<string>)
    ensures r.Ok? <==> entropy.Ok?
    ensures r.Ok? ==> Bcrypt.CompareHashAndPassword(digest, r.value, u.password)
  {
    if entropy.Ok? then
      Bcrypt.GeneratedHashVerifies(digest, u.password, PasswordCost, entropy.value);
      HashPassword(digest, entropy, u.password)
    else
      HashPassword(digest, entropy, u.password)
  }

  /** `VerifyPassword`: the bcrypt comparison of the stored password with the
      candidate reports no error. Only a stored password that parses as a bcrypt
      hash can accept anything; a plaintext shorter than a hash never does. */
  predicate VerifyPassword(digest: Bcrypt.Digest, u: User, password: string)
    ensures VerifyPassword(digest, u, password) ==> Bcrypt.Decode(u.password).Some?
    ensures |u.password| < Bcrypt.MinHashSize ==> !VerifyPassword(digest, u, password)
  {
    Bcrypt.CompareHashAndPassword(digest, u.password, password)
  }

  /** A user built from a password, with a working random source, is a real
      record that accepts that password. */
  lemma HashedUserVerifies(digest: Bcrypt.Digest, salt: Bcrypt.EncodedSalt,
                           family: string, email: string, name: string, password: string)
    ensures NewUserHashingPassword(digest, Ok(salt), family, email, name, password).Returned?
    ensures VerifyPassword(digest, NewUserHashingPassword(digest, Ok(salt), family, email, name, password).result, password)
  {
    Bcrypt.GeneratedHashVerifies(digest, password, PasswordCost, salt);
  }

  /** Such a user accepts another candidate exactly when it yields the same digest
      under cost 14 and the user's salt. */
  lemma HashedUserAccepts(digest: Bcrypt.Digest, salt: Bcrypt.EncodedSalt,
                          family: string, email: string, name: string, password: string, candidate: string)
    ensures NewUserHashingPassword(digest, Ok(salt), family, email, name, password).Returned?
    ensures VerifyPassword(digest, NewUserHashingPassword(digest, Ok(salt), family, email, name, password).result, candidate)
        <==> digest(PasswordCost, salt, candidate) == digest(PasswordCost, salt, password)
  {
    Bcrypt.GeneratedHashAccepts(digest, password, candidate, PasswordCost, salt);
  }
}
