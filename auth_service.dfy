/** The authentication service: checking credentials with one uniform failure, issuing a
    token for a user, signing up with a unique email, and resolving a token's user id. */
module Auth {
  import opened Wrappers
  import opened HttpErrors
  import opened Users

  /** What the token carries: the email and, as subject, the user id. */
  datatype JwtPayload = JwtPayload(email: string, sub: string)

  /** The body of a successful sign-in or sign-up. */
  datatype AuthResponse = AuthResponse(access_token: string, user: PublicUser)

  const INVALID_CREDENTIALS := "Invalid credentials"
  const EMAIL_TAKEN := "User with this email already exists"

  /** The payload `login` signs for a user. */
  function PayloadFor(user: User): (p: JwtPayload)
    ensures p.email == user.email && p.sub == user.id
  {
    JwtPayload(user.email, user.id)
  }

  /** `login`: a token signed over exactly `{email, sub: id}` (with `sign` the JWT signer),
      and the user's id and email, never the password. */
  function Login(user: User, sign: JwtPayload -> string): (r: AuthResponse)
    ensures r.access_token == sign(JwtPayload(user.email, user.id))
    ensures r.user == PublicUser(user.id, user.email)
  {
    AuthResponse(sign(PayloadFor(user)), Public(user))
  }

  /** The password plays no part in the login response. */
  lemma LoginIgnoresPassword(user: User, password: string, sign: JwtPayload -> string)
    ensures Login(user, sign) == Login(user.(password := password), sign)
  {
  }

  /** `validateUser` over a table: the user the users service accepts, or "Invalid
      credentials". */
  function CheckCredentials(rows: seq<User>, email: string, password: string,
                            compare: (string, string) -> CompareOutcome): (r: Result<User, HttpError>)
    ensures r.Success? <==> ValidateCredentials(rows, email, password, compare).Some?
    ensures r.Success? ==> r.value in rows && r.value.email == email
    ensures r.Failure? ==> r.error == Unauthorized(INVALID_CREDENTIALS)
  {
    match ValidateCredentials(rows, email, password, compare)
    case None => Failure(Unauthorized(INVALID_CREDENTIALS))
    case Some(user) => Success(user)
  }

  /** An unknown email and a wrong password fail in exactly the same way, so a caller
      cannot tell which emails are registered. */
  lemma UniformCredentialFailure(rows: seq<User>, unknown: string, known: string, password: string,
                                 compare: (string, string) -> CompareOutcome)
    requires FindByEmail(rows, unknown).None?
    requires FindByEmail(rows, known).Some? && compare(password, FindByEmail(rows, known).value.password) != Match
    ensures CheckCredentials(rows, unknown, password, compare) == CheckCredentials(rows, known, password, compare)
  {
  }

  /** A user who just signed up can sign in with the same password: given that the hash of
      the password looks like a hash and that `compare` matches a password against its own
      hash. */
  lemma SignUpThenSignIn(rows: seq<User>, email: string, password: string, id: string,
                         hash: (string, int) -> string, compare: (string, string) -> CompareOutcome)
    requires FindByEmail(rows, email).None?
    requires LooksHashed(hash(password, SALT_ROUNDS)) && compare(password, hash(password, SALT_ROUNDS)) == Match
    ensures CheckCredentials(rows + [User(id, email, hash(password, SALT_ROUNDS))], email, password, compare)
         == Success(User(id, email, hash(password, SALT_ROUNDS)))
  {
    FindByEmailAppend(rows, User(id, email, hash(password, SALT_ROUNDS)), email);
  }

  class AuthService {
    const users: UsersService

    ghost predicate Valid()
      reads this, users
    {
      users.Valid()
    }

    constructor (users: UsersService)
      requires users.Valid()
      ensures this.users == users && Valid()
    {
      this.users := users;
    }

    /** `validateUser`. */
    method ValidateUser(email: string, password: string, compare: (string, string) -> CompareOutcome) returns (r: Result<User, HttpError>)
      requires Valid()
      ensures r == CheckCredentials(users.rows, email, password, compare)
      ensures r.Success? ==> r.value in users.rows && r.value.email == email
    {
      var user := users.ValidateUser(email, password, compare);
      if user.None? {
        return Failure(Unauthorized(INVALID_CREDENTIALS));
      }
      return Success(user.value);
    }

    /** `signUp`: an email already registered is a conflict and no user is created;
        otherwise one user is added with the hash of the password, and the response is the
        login of that user, under the email given. */
    method SignUp(email: string, password: string, id: string, hash: (string, int) -> string, sign: JwtPayload -> string)
      returns (r: Result<AuthResponse, HttpError>)
      requires Valid() && FindById(users.rows, id).None?
      modifies users
      ensures Valid()
      ensures FindByEmail(old(users.rows), email).Some? ==>
        r == Failure(Conflict(EMAIL_TAKEN)) && users.rows == old(users.rows)
      ensures FindByEmail(old(users.rows), email).None? ==>
        && users.rows == old(users.rows) + [User(id, email, hash(password, SALT_ROUNDS))]
        && r == Success(Login(User(id, email, hash(password, SALT_ROUNDS)), sign))
      ensures r.Success? ==> r.value.user == PublicUser(id, email)
    {
      var existing := users.FindOneByEmail(email);
      if existing.Some? {
        return Failure(Conflict(EMAIL_TAKEN));
      }
      var created := users.Create(email, password, id, hash);
      r := Success(Login(created.value, sign));
    }

    /** `validateToken`: the user with that id, if any. */
    method ValidateToken(userId: string) returns (r: Option<User>)
      requires Valid()
      ensures r == FindById(users.rows, userId)
    {
      r := users.FindOneById(userId);
      assert r == FindById(users.rows, userId);
    }
  }
}
