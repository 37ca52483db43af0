/** The scenarios of internal/core/usecases/auth_test.go, replayed in the model:
    a fresh in-memory repository, a use case over it, and the fixed test user.
    The family each SignUp generates is the parameter `id`. */
module AuthUseCaseTests {
  import opened Results
  import opened Domain
  import opened Repositories
  import opened Usecases
  import Bcrypt

  const TestEmail: string := "email@server.com"
  const TestName: string := "User Full Name"
  const TestPassword: string := "Pas2sw0rd"

  /** TestShouldCreateUser: SignUp succeeds and the repository then holds the user. */
  method ShouldCreateUser(digest: Bcrypt.Digest, id: string, salt: Bcrypt.EncodedSalt)
    returns (signedUp: Outcome<Result<User>>, lookedUp: Result<User>)
    ensures signedUp.Returned? && signedUp.result.Ok?
    ensures lookedUp == signedUp.result
    ensures lookedUp.value.family == id && lookedUp.value.email == TestEmail && lookedUp.value.name == TestName
  {
    var repo := new InMemoryUserRepository();
    var sut := new AuthUseCase(repo, digest);
    HashedUserVerifies(digest, salt, id, TestEmail, TestName, TestPassword);
    signedUp := sut.SignUp(id, TestEmail, TestName, TestPassword, Ok(salt));
    FindAfterPut(map[], signedUp.result.value);
    lookedUp := repo.GetByEmail(id, TestEmail);
  }

  /** TestShouldNotCreateUserIfEmailAlreadyExists, as the code stands: a second
      SignUp with the same email succeeds too (SignUp never checks), so the
      test's expectation of an error is not met. */
  method SecondSignUpWithSameEmail(digest: Bcrypt.Digest, firstId: string, secondId: string,
                                   firstSalt: Bcrypt.EncodedSalt, secondSalt: Bcrypt.EncodedSalt)
    returns (second: Outcome<Result<User>>)
    ensures second.Returned? && second.result.Ok?
    ensures second.result.value.family == secondId && second.result.value.email == TestEmail
    ensures second.result.value.name == "Other name"
  {
    var repo := new InMemoryUserRepository();
    var sut := new AuthUseCase(repo, digest);
    HashedUserVerifies(digest, firstSalt, firstId, TestEmail, TestName, TestPassword);
    HashedUserVerifies(digest, secondSalt, secondId, TestEmail, "Other name", "Other password");
    var first := sut.SignUp(firstId, TestEmail, TestName, TestPassword, Ok(firstSalt));
    second := sut.SignUp(secondId, TestEmail, "Other name", "Other password", Ok(secondSalt));
  }

  /** TestShouldSignInUser: after SignUp, SignIn with the same credentials returns
      the created user. */
  method ShouldSignInUser(digest: Bcrypt.Digest, id: string, salt: Bcrypt.EncodedSalt)
    returns (signedUp: Outcome<Result<User>>, signedIn: Result<User>)
    ensures signedUp.Returned? && signedUp.result.Ok?
    ensures signedIn == signedUp.result
  {
    var repo := new InMemoryUserRepository();
    var sut := new AuthUseCase(repo, digest);
    SignUpThenSignIn(digest, map[], salt, id, TestEmail, TestName, TestPassword);
    signedUp := sut.SignUp(id, TestEmail, TestName, TestPassword, Ok(salt));
    signedIn := sut.SignIn(id, TestEmail, TestPassword);
  }

  /** TestShouldReturnErrorIfUserDoesNotExists: SignIn on an empty repository fails. */
  method ShouldReturnErrorIfUserDoesNotExist(digest: Bcrypt.Digest, family: string)
    returns (signedIn: Result<User>)
    ensures signedIn == Err(InvalidEmailAddress)
  {
    var repo := new InMemoryUserRepository();
    var sut := new AuthUseCase(repo, digest);
    signedIn := sut.SignIn(family, TestEmail, TestPassword);
  }

  /** TestShouldReturnIfInvalidPassword: SignIn with "Invalid password" fails with
      "Invalid password" unless that text happens to yield the same digest as the
      real password. */
  method ShouldReturnIfInvalidPassword(digest: Bcrypt.Digest, id: string, salt: Bcrypt.EncodedSalt)
    returns (signedIn: Result<User>)
    ensures signedIn.Ok? <==>
              digest(PasswordCost, salt, "Invalid password") == digest(PasswordCost, salt, TestPassword)
    ensures signedIn.Err? ==> signedIn.error == InvalidPassword
  {
    var repo := new InMemoryUserRepository();
    var sut := new AuthUseCase(repo, digest);
    SignInAfterSignUpWithOtherPassword(digest, map[], salt, id, TestEmail, TestName, TestPassword, "Invalid password");
    var signedUp := sut.SignUp(id, TestEmail, TestName, TestPassword, Ok(salt));
    signedIn := sut.SignIn(id, TestEmail, "Invalid password");
  }
}
