/** The user directory rules: registration with duplicate checks and the default role,
    login with a single failure for both causes, and the current user from the id claim.
    Hashing, verifying and token issuance are parameters. */
module AuthService {
  import opened Linq
  import opened Domain
  import opened UserRepository

  const EmailTaken := Error(InvalidOperation, "Email already registered")
  const UsernameTaken := Error(InvalidOperation, "Username already taken")
  const InvalidCredentials := Error(Unauthorized, "Invalid credentials")
  const NotAuthenticated := Error(Unauthorized, "User is not authenticated")
  const UnknownUser := Error(Unauthorized, "User not found")
  const ClaimNotNumber := Error(FormatError, "The input string was not in a correct format.")
  const DefaultRole := "User"

  datatype AuthResponse = AuthResponse(id: int, token: string, username: string, email: string, role: string)

  /** No two users share an email, and no two share a username. */
  predicate UniqueLogins(users: seq<User>)
  {
    forall i, j | 0 <= i < j < |users| :: users[i].email != users[j].email && users[i].username != users[j].username
  }

  /** LoginAsync: an unknown email and a failed verify give the same failure; otherwise
      the stored username, email and role, with Id left at 0. */
  function Login(users: UserStore, email: string, password: string,
                 verify: (string, string) -> bool, token: User -> string): (r: Result<AuthResponse>)
    reads users
    ensures users.GetByEmail(email).None? ==> r == Failure(InvalidCredentials)
    ensures users.GetByEmail(email).Some? && !verify(password, users.GetByEmail(email).value.password) ==>
              r == Failure(InvalidCredentials)
    ensures r.Failure? ==> r.error == InvalidCredentials
    ensures r.Success? <==> users.GetByEmail(email).Some? && verify(password, users.GetByEmail(email).value.password)
    ensures r.Success? ==>
              var u := users.GetByEmail(email).value;
              r.value == AuthResponse(0, token(u), u.username, u.email, u.role) && u.email == email
  {
    match users.GetByEmail(email)
    case None => Failure(InvalidCredentials)
    case Some(u) =>
      if !verify(password, u.password) then Failure(InvalidCredentials)
      else Success(AuthResponse(0, token(u), u.username, u.email, u.role))
  }

  /** RegisterAsync. The email is checked before the username; a new user gets the next
      id, the hashed password and the role "User", and the response carries that id. */
  method Register(users: UserStore, email: string, username: string, password: string,
                  hash: string -> string, verify: (string, string) -> bool, token: User -> string)
    returns (r: Result<AuthResponse>)
    requires users.Valid()
    modifies users
    ensures users.Valid()
    ensures old(users.GetByEmail(email)).Some? ==> r == Failure(EmailTaken)
    ensures old(users.GetByEmail(email)).None? && old(users.GetByUsername(username)).Some? ==>
              r == Failure(UsernameTaken)
    ensures r.Success? <==> old(users.GetByEmail(email)).None? && old(users.GetByUsername(username)).None?
    ensures r.Failure? ==> users.users == old(users.users) && users.nextId == old(users.nextId)
    ensures r.Success? ==>
              var u := User(old(users.nextId), email, username, hash(password), DefaultRole);
              && users.users == old(users.users) + [u]
              && users.nextId == old(users.nextId) + 1
              && r.value == AuthResponse(u.id, token(u), username, email, DefaultRole)
    ensures UniqueLogins(old(users.users)) ==> UniqueLogins(users.users)
    ensures r.Success? && verify(password, hash(password)) ==>
              Login(users, email, password, verify, token).Success?
              && Login(users, email, password, verify, token).value.username == username
  {
    if users.GetByEmail(email).Some? {
      return Failure(EmailTaken);
    }
    if users.GetByUsername(username).Some? {
      return Failure(UsernameTaken);
    }
    var u := User(users.nextId, email, username, hash(password), DefaultRole);
    ghost var before := users.users;
    users.users := users.users + [u];
    users.nextId := users.nextId + 1;
    NewUserFoundByEmail(before, u);
    r := Success(AuthResponse(u.id, token(u), username, email, DefaultRole));
  }

  /** A user appended under an unused email is the one a lookup by that email finds. */
  lemma NewUserFoundByEmail(users: seq<User>, u: User)
    requires forall i | 0 <= i < |users| :: users[i].email != u.email
    ensures FirstOrDefault(users + [u], HasEmail(u.email)) == Some(u)
  {
    var w := users + [u];
    assert HasEmail(u.email)(w[|users|]);
    assert forall i | 0 <= i < |users| :: w[i] == users[i];
  }

  /** GetCurrentUserAsync, given the NameIdentifier claim if there is one and int.Parse:
      a missing or empty claim, an unparsable one and an unknown id fail; otherwise the
      user with that id. */
  function GetCurrentUser(users: UserStore, claim: Option<string>, parse: string -> Option<int>): (r: Result<User>)
    reads users
    ensures claim.None? || claim == Some("") ==> r == Failure(NotAuthenticated)
    ensures claim.Some? && claim.value != "" && parse(claim.value).None? ==> r == Failure(ClaimNotNumber)
    ensures claim.Some? && claim.value != "" && parse(claim.value).Some? ==>
              (r.Success? <==> exists i | 0 <= i < |users.users| :: users.users[i].id == parse(claim.value).value)
    ensures (claim.Some? && claim.value != "" && parse(claim.value).Some?
             && users.GetById(parse(claim.value).value).None?) ==> r == Failure(UnknownUser)
    ensures r.Success? ==> r.value in users.users && claim.Some? && parse(claim.value) == Some(r.value.id)
  {
    match claim
    case None => Failure(NotAuthenticated)
    case Some(c) =>
      if c == "" then Failure(NotAuthenticated)
      else match parse(c)
        case None => Failure(ClaimNotNumber)
        case Some(id) =>
          match users.GetById(id)
          case None => Failure(UnknownUser)
          case Some(u) => Success(u)
  }
}
