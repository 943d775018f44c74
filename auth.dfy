/**
 * The authentication layer: the local strategy that checks a username and password,
 * the session that keeps the logged-in user's id, and the routes `/api/register`,
 * `/api/login`, `/api/logout`, `/api/user` and `/api/check-username`.
 *
 * A session is the serialized user id (`None` when nobody is logged in); each
 * handler takes the session it finds and returns the session it leaves.
 */
module Auth {
  import opened Wrappers
  import opened Schema
  import opened Http
  import Storage
  import Credential
  import JsString

  type Session = Option<int>

  /** JavaScript truthiness of an optional string field: present and not empty. */
  predicate Truthy(s: Option<string>)
  {
    s.Some? && s.value != ""
  }

  const MissingCredentials: string := "Missing credentials"
  const IncorrectCredentials: string := "Incorrect username or password"

  /** `serializeUser`: the session keeps only the id. */
  function SerializeUser(u: User): (session: Session)
    ensures session.Some? && session.value == u.id
  {
    Some(u.id)
  }

  /**
   * `deserializeUser`: the user whose id the session holds, or no user when the
   * session is empty or that id no longer names a user. Reads only.
   */
  method DeserializeUser(store: Storage.DatabaseStorage, session: Session) returns (user: Option<User>)
    ensures session.None? ==> user.None?
    ensures session.Some? ==> user == Storage.FindUser(store.users, session.value)
  {
    if session.None? {
      return None;
    }
    user := store.GetUser(session.value);
  }

  /**
   * The local strategy (with passport-local's own refusal of an empty field): the
   * user with this username whose stored credential matches the password, or the
   * message the login route reports. An unknown username and a wrong password get
   * the same message.
   */
  function Authenticate(kdf: Credential.Kdf, users: seq<User>, username: Option<string>, password: Option<string>)
    : (r: Result<User, string>)
    ensures r.Success? <==>
      && Truthy(username) && Truthy(password)
      && Storage.FindUserByName(users, username.value).Some?
      && Credential.ComparePasswords(kdf, password.value, Storage.FindUserByName(users, username.value).value.password)
    ensures r.Success? ==> r.value in users && r.value.username == username.value
    ensures r.Failure? ==>
      r.error == (if Truthy(username) && Truthy(password) then IncorrectCredentials else MissingCredentials)
  {
    if !Truthy(username) || !Truthy(password) then Failure(MissingCredentials)
    else match Storage.FindUserByName(users, username.value)
      case None => Failure(IncorrectCredentials)
      case Some(u) =>
        if Credential.ComparePasswords(kdf, password.value, u.password) then Success(u)
        else Failure(IncorrectCredentials)
  }

  /** The strategy as the server runs it, against the store. Reads only. */
  method VerifyCredentials(store: Storage.DatabaseStorage, username: Option<string>, password: Option<string>)
    returns (r: Result<User, string>)
    ensures r == Authenticate(store.kdf, store.users, username, password)
  {
    if !Truthy(username) || !Truthy(password) {
      return Failure(MissingCredentials);
    }
    var user := store.GetUserByUsername(username.value);
    if user.None? {
      return Failure(IncorrectCredentials);
    }
    var isValidPassword := Credential.ComparePasswords(store.kdf, password.value, user.value.password);
    if !isValidPassword {
      return Failure(IncorrectCredentials);
    }
    r := Success(user.value);
  }

  /**
   * POST /api/register: 400 unless username and password are both non-empty, 400
   * when the username is taken, otherwise creates the user (the profile picture
   * defaulting to ""), logs it in and answers 201 with the user without its password.
   */
  method Register(store: Storage.DatabaseStorage, session: Session, body: UserFields, salt: Credential.Salt)
    returns (resp: Response, session': Session)
    requires store.Valid()
    modifies store
    ensures store.Valid()
    ensures Storage.AdminsAreBootstrap(old(store.users)) ==> Storage.AdminsAreBootstrap(store.users)
    ensures store.scripts == old(store.scripts) && store.nextScriptId == old(store.nextScriptId)
    ensures !Truthy(body.username) || !Truthy(body.password) ==>
      && resp == Error(400, "Username and password are required")
      && session' == session && store.users == old(store.users) && store.nextUserId == old(store.nextUserId)
    ensures Truthy(body.username) && Truthy(body.password) && old(Storage.HasUsername(store.users, body.username.value)) ==>
      && resp == Error(400, "Username already taken")
      && session' == session && store.users == old(store.users) && store.nextUserId == old(store.nextUserId)
    ensures Truthy(body.username) && Truthy(body.password) && !old(Storage.HasUsername(store.users, body.username.value)) ==>
      var insert := InsertUser(body.username.value, body.password.value,
                               Some(if Truthy(body.profilePicture) then body.profilePicture.value else ""));
      var created := Storage.CreatedUserRow(old(store.nextUserId), insert,
                                            Credential.HashPassword(store.kdf, insert.password, salt));
      && store.users == old(store.users) + [created]
      && store.nextUserId == old(store.nextUserId) + 1
      && resp == Response(201, UserJson(StripPassword(created)))
      && session' == SerializeUser(created)
  {
    if !Truthy(body.username) || !Truthy(body.password) {
      return Error(400, "Username and password are required"), session;
    }
    var existingUser := store.GetUserByUsername(body.username.value);
    if existingUser.Some? {
      return Error(400, "Username already taken"), session;
    }
    var profilePicture := if Truthy(body.profilePicture) then body.profilePicture.value else "";
    var created := store.CreateUser(InsertUser(body.username.value, body.password.value, Some(profilePicture)), salt);
    match created
    case Success(user) =>
      resp, session' := Response(201, UserJson(StripPassword(user))), SerializeUser(user);
    case Failure(_) =>
      resp, session' := Error(500, "Failed to register user"), session;
  }

  /**
   * POST /api/login: 401 with the strategy's message, or 200 with the user without
   * its password and the session switched to that user.
   */
  method Login(store: Storage.DatabaseStorage, session: Session, username: Option<string>, password: Option<string>)
    returns (resp: Response, session': Session)
    ensures match Authenticate(store.kdf, store.users, username, password)
      case Failure(message) => resp == Error(401, message) && session' == session
      case Success(u) => resp == Ok(UserJson(StripPassword(u))) && session' == SerializeUser(u)
  {
    var verdict := VerifyCredentials(store, username, password);
    match verdict
    case Failure(message) =>
      resp, session' := Error(401, message), session;
    case Success(user) =>
      resp, session' := Ok(UserJson(StripPassword(user))), SerializeUser(user);
  }

  /**
   * A user who has just registered can log in at once with the same username and
   * password, and the session login leaves restores that user.
   */
  method RegisterThenLogin(store: Storage.DatabaseStorage, username: string, password: string,
                           salt: Credential.Salt)
    returns (registered: Response, loggedIn: Response, restored: Option<User>)
    requires store.Valid() && username != "" && password != ""
    requires !Storage.HasUsername(store.users, username)
    modifies store
    ensures registered.status == 201 && loggedIn.status == 200
    ensures registered.body == loggedIn.body
    ensures restored.Some? && restored.value.username == username
    ensures restored.value in store.users
    ensures registered.body == UserJson(StripPassword(restored.value))
  {
    var session;
    registered, session := Register(store, None, UserFields(None, Some(username), Some(password), None, None, None), salt);
    ghost var created := store.users[|store.users| - 1];
    Storage.FindAppendedUser(old(store.users), created);
    Credential.HashThenCompare(store.kdf, password, salt);
    var session';
    loggedIn, session' := Login(store, session, Some(username), Some(password));
    Storage.FindUserById(store.users, store.nextUserId, created);
    restored := DeserializeUser(store, session');
  }

  /** POST /api/logout: the session forgets the user; 200. */
  function Logout(session: Session): (r: (Response, Session))
    ensures r.0.status == 200 && r.1.None?
  {
    (SendStatus(200), None)
  }

  /** GET /api/user: 401 when nobody is logged in, otherwise the logged-in user without its password. */
  function CurrentUser(reqUser: Option<User>): (r: Response)
    ensures reqUser.None? <==> r.status == 401
    ensures reqUser.Some? ==> r == Ok(UserJson(StripPassword(reqUser.value)))
  {
    if reqUser.None? then SendStatus(401) else Ok(UserJson(StripPassword(reqUser.value)))
  }

  /** POST /api/check-username: 400 for a missing or empty username, otherwise whether no user holds it. Reads only. */
  method CheckUsername(store: Storage.DatabaseStorage, username: Option<string>) returns (resp: Response)
    ensures !Truthy(username) <==> resp == Error(400, "Username is required")
    ensures Truthy(username) ==> resp == Ok(AvailabilityJson(!Storage.HasUsername(store.users, username.value)))
  {
    if !Truthy(username) {
      return Error(400, "Username is required");
    }
    var existingUser := store.GetUserByUsername(username.value);
    resp := Ok(AvailabilityJson(existingUser.None?));
  }
}
