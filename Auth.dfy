/**
 * The authentication routes of the back end: `/signup` inserts a user after
 * a uniqueness check on username or email; `/login` is the resource-owner
 * password credentials grant (section 4.3 of RFC 6749) answered with a
 * bearer token (RFC 6750). Password hashing and verification are bcrypt in
 * the source and are passed in here; the token is modelled by its subject.
 */
module Auth {
  import opened Wrappers
  import opened Models
  import Collections

  /** The password hashing pair the routes call. */
  datatype Crypto = Crypto(hash: string -> string, verify: (string, string) -> bool)

  /** The one property of the hashing pair the routes rely on: a password verifies against its own hash. */
  ghost predicate Sound(crypto: Crypto) {
    forall p :: crypto.verify(p, crypto.hash(p))
  }

  /** The public view of a user returned by `/signup` (no password hash). */
  datatype UserPublic = UserPublic(id: int, username: string, email: string)

  /** A signed access token, modelled by its subject claim (encoding and expiry are left out). */
  datatype AccessToken = Jwt(sub: string)

  /** The `/login` response body: `{access_token, token_type}`. */
  datatype Token = Token(accessToken: AccessToken, tokenType: string)

  const AlreadyRegistered: string := "Username or email already registered"
  const IncorrectCredentials: string := "Incorrect username or password"
  const Bearer: string := "bearer"

  /**
   * `/signup`: 400 when the email or the username is already registered,
   * adding nobody; otherwise adds exactly one user with the given username
   * and email and the hash of the password.
   */
  method Signup(db: Database, crypto: Crypto, username: string, email: string, password: string)
    returns (r: Result<UserPublic, HttpError>)
    requires db.Valid()
    modifies db
    ensures db.Valid()
    ensures db.items == old(db.items) && db.nextItemId == old(db.nextItemId)
    ensures r.Failure? <==> EmailExists(old(db.users), email) || UsernameExists(old(db.users), username)
    ensures r.Failure? ==> r.error == HttpError(400, AlreadyRegistered) && db.users == old(db.users)
    ensures r.Success? ==>
      && db.users == old(db.users) + [User(|old(db.users)| + 1, username, email, crypto.hash(password), false)]
      && r.value == UserPublic(|old(db.users)| + 1, username, email)
  {
    var existing := Collections.FindIndex(db.users, (u: User) => u.email == email || u.username == username);
    if existing.Some? {
      return Failure(HttpError(400, AlreadyRegistered));
    }
    var added := db.AddUser(username, email, crypto.hash(password), false);
    match added {
      case Success(user) =>
        r := Success(UserPublic(user.id, user.username, user.email));
      case Failure(_) =>
        // the uniqueness check above rules out an integrity error
        assert false;
    }
  }

  /**
   * `/login`: looks up the first user with the form's username and checks the
   * password against its hash. Any failure is a 401; success yields a bearer
   * token whose subject is that user's username. The user table is only read.
   */
  function Login(users: seq<User>, crypto: Crypto, username: string, password: string): (r: Result<Token, HttpError>)
    ensures r.Failure? ==> r.error == HttpError(401, IncorrectCredentials)
    ensures !UsernameExists(users, username) ==> r.Failure?
    ensures r.Success? ==> r.value == Token(Jwt(username), Bearer)
    ensures r.Success? ==> exists i | 0 <= i < |users| ::
      users[i].username == username && crypto.verify(password, users[i].hashedPassword)
    ensures UsersValid(users) ==>
      (r.Success? <==> exists i | 0 <= i < |users| ::
         users[i].username == username && crypto.verify(password, users[i].hashedPassword))
  {
    match Collections.FindIndex(users, (u: User) => u.username == username)
    case None => Failure(HttpError(401, IncorrectCredentials))
    case Some(i) =>
      if !crypto.verify(password, users[i].hashedPassword) then Failure(HttpError(401, IncorrectCredentials))
      else Success(Token(Jwt(users[i].username), Bearer))
  }

  /**
   * Signing up and then logging in with the same username and password
   * succeeds, provided a password verifies against its own hash.
   */
  lemma LoginAfterSignup(users: seq<User>, crypto: Crypto, username: string, email: string, password: string)
    requires Sound(crypto)
    requires UsersValid(users)
    requires !EmailExists(users, email) && !UsernameExists(users, username)
    ensures var added := users + [User(|users| + 1, username, email, crypto.hash(password), false)];
      && UsersValid(added)
      && Login(added, crypto, username, password) == Success(Token(Jwt(username), Bearer))
  {
    var added := users + [User(|users| + 1, username, email, crypto.hash(password), false)];
    assert added[|users|].username == username;
    assert crypto.verify(password, added[|users|].hashedPassword);
  }
}
