/** Registration and login of the backend (`AuthService`). Passwords are stored only as hashes. */
module Auth {
  import opened Outcomes
  import opened Seqs
  import opened Entities
  import opened Storage
  import opened RegisterDto

  const EmailTaken := "User with this email already exists"
  const UsernameTaken := "User with this username already exists"
  const CreateFailed := "Failed to create user"
  const InvalidCredentials := "Invalid credentials"

  datatype LoginDto = LoginDto(emailOrUsername: string, password: string)

  /** What `login` returns: the signed token and the user's public fields. */
  datatype LoginResult = LoginResult(accessToken: string, user: PublicUser)

  /** The user table after a `register` call, and what the call returns. */
  datatype RegisterOutcome = RegisterOutcome(result: Result<PublicUser>, rows: seq<User>)

  /** No two stored users share an email or a username. */
  predicate Unique(rows: seq<User>) {
    forall i, j :: 0 <= i < j < |rows| ==> rows[i].email != rows[j].email && rows[i].username != rows[j].username
  }

  /**
   * `register`: Conflict when the email is taken (checked first), Conflict when the username is
   * taken, InternalServerError when the save fails (`saved` is false); otherwise one new user
   * holding `hash(password)` is stored and its id, email and username returned.
   */
  function RegisterStep(rows: seq<User>, dto: RegisterDto, hash: string -> string, newId: string, now: nat,
                        saved: bool): (o: RegisterOutcome)
    ensures (exists u :: u in rows && u.email == dto.email) ==>
      o == RegisterOutcome(Failure(Conflict(EmailTaken)), rows)
    ensures (forall u :: u in rows ==> u.email != dto.email) && (exists u :: u in rows && u.username == dto.username) ==>
      o == RegisterOutcome(Failure(Conflict(UsernameTaken)), rows)
    ensures !saved && (forall u :: u in rows ==> u.email != dto.email && u.username != dto.username) ==>
      o == RegisterOutcome(Failure(InternalServerError(CreateFailed)), rows)
    ensures o.result.Failure? ==> o.rows == rows
    ensures o.result.Success? <==>
      saved && forall u :: u in rows ==> u.email != dto.email && u.username != dto.username
    ensures o.result.Success? ==>
      o.rows == rows + [User(newId, dto.email, dto.username, hash(dto.password), now)] &&
      o.result.value == PublicUser(newId, dto.email, dto.username)
  {
    if Find(rows, (u: User) => u.email == dto.email).Some? then
      RegisterOutcome(Failure(Conflict(EmailTaken)), rows)
    else if Find(rows, (u: User) => u.username == dto.username).Some? then
      RegisterOutcome(Failure(Conflict(UsernameTaken)), rows)
    else if !saved then
      RegisterOutcome(Failure(InternalServerError(CreateFailed)), rows)
    else
      var user := User(newId, dto.email, dto.username, hash(dto.password), now);
      RegisterOutcome(Success(Public(user)), rows + [user])
  }

  /** `register` keeps emails and usernames unique. */
  lemma RegisterKeepsUnique(rows: seq<User>, dto: RegisterDto, hash: string -> string, newId: string, now: nat,
                            saved: bool)
    requires Unique(rows)
    ensures Unique(RegisterStep(rows, dto, hash, newId, now, saved).rows)
  {
    var o := RegisterStep(rows, dto, hash, newId, now, saved);
    if o.result.Success? {
      forall i, j | 0 <= i < j < |o.rows|
        ensures o.rows[i].email != o.rows[j].email && o.rows[i].username != o.rows[j].username
      {
        if j == |rows| {
          assert o.rows[i] in rows;
        }
      }
    }
  }

  /** The `$or` condition of `login`: the email or the username equals the given string. */
  predicate Identifies(u: User, emailOrUsername: string) {
    u.email == emailOrUsername || u.username == emailOrUsername
  }

  /**
   * `login`: the first user whose email or username matches, if `compare` (bcrypt) accepts the
   * password against its stored hash, gets a token signed over `{ sub: id, email, username }`.
   * An unknown user and a wrong password give the same Unauthorized error.
   */
  function Login(rows: seq<User>, dto: LoginDto, compare: (string, string) -> bool,
                 sign: TokenPayload -> string): (r: Result<LoginResult>)
    ensures r.Failure? ==> r.error == Unauthorized(InvalidCredentials)
    ensures (forall u :: u in rows ==> !Identifies(u, dto.emailOrUsername)) ==> r.Failure?
    ensures var found := Find(rows, (u: User) => Identifies(u, dto.emailOrUsername));
      (r.Success? <==> found.Some? && compare(dto.password, found.value.password)) &&
      (r.Success? ==> r.value == LoginResult(sign(TokenPayload(found.value.id, found.value.email, found.value.username)),
                                             Public(found.value)))
    ensures r.Success? ==>
      exists u :: u in rows && Identifies(u, dto.emailOrUsername) && compare(dto.password, u.password) &&
        r.value == LoginResult(sign(TokenPayload(u.id, u.email, u.username)), PublicUser(u.id, u.email, u.username))
  {
    match Find(rows, (u: User) => Identifies(u, dto.emailOrUsername))
    case None => Failure(Unauthorized(InvalidCredentials))
    case Some(user) =>
      if !compare(dto.password, user.password) then Failure(Unauthorized(InvalidCredentials))
      else
        var payload := TokenPayload(user.id, user.email, user.username);
        Success(LoginResult(sign(payload), Public(user)))
  }

  /**
   * A user who has just registered can log in with the email or the username and the same
   * password, given that `compare` accepts a password against its own hash and that no other
   * user is identified by the same string.
   */
  lemma RegisteredUserCanLogIn(rows: seq<User>, dto: RegisterDto, hash: string -> string, newId: string, now: nat,
                               key: string, compare: (string, string) -> bool, sign: TokenPayload -> string)
    requires RegisterStep(rows, dto, hash, newId, now, true).result.Success?
    requires key == dto.email || key == dto.username
    requires forall u :: u in rows ==> !Identifies(u, key)
    requires compare(dto.password, hash(dto.password))
    ensures Login(RegisterStep(rows, dto, hash, newId, now, true).rows, LoginDto(key, dto.password), compare, sign) ==
      Success(LoginResult(sign(TokenPayload(newId, dto.email, dto.username)), PublicUser(newId, dto.email, dto.username)))
  {
    var o := RegisterStep(rows, dto, hash, newId, now, true);
    var user := User(newId, dto.email, dto.username, hash(dto.password), now);
    var p := (u: User) => Identifies(u, key);
    FirstIndexAppend(rows, [user], p);
    assert FirstIndex([user], p) == Some(0);
    assert o.rows[|rows|] == user;
  }

  /** The service object: `register` saves into the user repository. */
  class AuthService {
    const userRepository: Repository<User>

    constructor (userRepository: Repository<User>)
      ensures this.userRepository == userRepository
    {
      this.userRepository := userRepository;
    }

    /** `register`: the email check, then the username check, then the hashed save. */
    method Register(dto: RegisterDto, hash: string -> string, newId: string, now: nat, saved: bool)
      returns (r: Result<PublicUser>)
      modifies userRepository
      ensures var o := RegisterStep(old(userRepository.rows), dto, hash, newId, now, saved);
        r == o.result && userRepository.rows == o.rows
    {
      if Find(userRepository.rows, (u: User) => u.email == dto.email).Some? {
        return Failure(Conflict(EmailTaken));
      }
      if Find(userRepository.rows, (u: User) => u.username == dto.username).Some? {
        return Failure(Conflict(UsernameTaken));
      }
      var hashedPassword := hash(dto.password);
      if !saved {
        return Failure(InternalServerError(CreateFailed));
      }
      var user := User(newId, dto.email, dto.username, hashedPassword, now);
      userRepository.Insert(user);
      return Success(Public(user));
    }
  }
}
