/** The registration and login handlers: a users collection, one session
    slot holding the logged-in username, and password hashing given as two
    functions the service is constructed with. */
module AuthRoutes {
  import opened Http
  import opened Validators

  /** A document of the users collection. `password` holds the hash. */
  datatype UserDoc = UserDoc(username: string, password: string, telegramChatId: Option<string>)

  /** `generate_password_hash(password)`, with its random salt passed in, and
      `check_password_hash(hash, password)`. */
  datatype PasswordHasher = PasswordHasher(hash: (string, string) -> string, check: (string, string) -> bool)

  /** The one fact the handlers rely on: a hash checks against its own password. */
  ghost predicate Sound(h: PasswordHasher)
  {
    forall salt, password :: h.check(h.hash(salt, password), password)
  }

  const CredentialFields: seq<string> := ["username", "password"]

  /** No two user documents share a username. */
  predicate UniqueUsernames(users: seq<UserDoc>)
  {
    forall i, j | 0 <= i < j < |users| :: users[i].username != users[j].username
  }

  /** `users.find_one({"username": name})`: the first document with that username. */
  function FindUser(users: seq<UserDoc>, name: string): (r: Option<UserDoc>)
    ensures r.None? <==> forall i | 0 <= i < |users| :: users[i].username != name
    ensures r.Some? ==> exists i | 0 <= i < |users| ::
      users[i] == r.value && r.value.username == name && forall j | 0 <= j < i :: users[j].username != name
  {
    if users == [] then None
    else if users[0].username == name then Some(users[0])
    else
      var r := FindUser(users[1..], name);
      assert r.Some? ==> exists i | 0 <= i < |users| ::
        users[i] == r.value && r.value.username == name && forall j | 0 <= j < i :: users[j].username != name by {
        if r.Some? {
          var k :| 0 <= k < |users[1..]| && users[1..][k] == r.value && r.value.username == name
                   && forall j | 0 <= j < k :: users[1..][j].username != name;
          assert users[k + 1] == r.value;
          assert forall j | 0 <= j < k + 1 :: users[j].username != name by {
            forall j | 0 <= j < k + 1 ensures users[j].username != name {
              if j > 0 {
                assert users[j] == users[1..][j - 1];
              }
            }
          }
        }
      }
      r
  }

  /** With unique usernames the document found is the only one with that name. */
  lemma FindUserUnique(users: seq<UserDoc>, i: nat)
    requires UniqueUsernames(users) && i < |users|
    ensures FindUser(users, users[i].username) == Some(users[i])
  {
    var r := FindUser(users, users[i].username);
    var k :| 0 <= k < |users| && users[k] == r.value && r.value.username == users[i].username
             && forall j | 0 <= j < k :: users[j].username != users[i].username;
    assert k == i;
  }

  /** The chat id `register` stores: present only when given and non-empty. */
  function ChatIdField(body: Doc): (r: Option<string>)
    ensures r.Some? <==> "telegram_chat_id" in body && body["telegram_chat_id"] != ""
    ensures r.Some? ==> r.value == body["telegram_chat_id"]
  {
    if "telegram_chat_id" in body && body["telegram_chat_id"] != "" then Some(body["telegram_chat_id"]) else None
  }

  /** `register` on the users collection: the reply and the new collection. */
  function RegisterResult(users: seq<UserDoc>, body: Doc, salt: string, h: PasswordHasher): (out: (Response<string>, seq<UserDoc>))
    ensures out.0.Created? <==> Filled(body, "username") && Filled(body, "password")
                                && forall i | 0 <= i < |users| :: users[i].username != body["username"]
    ensures !out.0.Created? ==> out.1 == users
    ensures !(Filled(body, "username") && Filled(body, "password")) ==>
              out.0 == BadRequest(ValidateUserInput(body, CredentialFields).1)
    ensures Filled(body, "username") && Filled(body, "password") && !out.0.Created? ==>
              out.0 == BadRequest("User already exists")
    ensures out.0.Created? ==>
              out == (Created("User registered"),
                      users + [UserDoc(body["username"], h.hash(salt, body["password"]), ChatIdField(body))])
    ensures UniqueUsernames(users) ==> UniqueUsernames(out.1)
  {
    var (valid, error) := ValidateUserInput(body, CredentialFields);
    CredentialValidation(body);
    if !valid then (BadRequest(error), users)
    else
      var username := body["username"];
      if FindUser(users, username).Some? then (BadRequest("User already exists"), users)
      else
        var users' := users + [UserDoc(username, h.hash(salt, body["password"]), ChatIdField(body))];
        assert UniqueUsernames(users) ==> UniqueUsernames(users') by {
          if UniqueUsernames(users) {
            forall i, j | 0 <= i < j < |users'| ensures users'[i].username != users'[j].username {
              if j == |users| {
                assert users'[i] == users[i];
              }
            }
          }
        }
        (Created("User registered"), users')
  }

  /** `login` on the users collection and the session: the reply and the new
      session. */
  function LoginResult(users: seq<UserDoc>, session: Option<string>, body: Doc, h: PasswordHasher): (out: (Response<string>, Option<string>))
    ensures !out.0.Ok? ==> out.1 == session
    ensures out.0.Ok? ==> Filled(body, "username") && Filled(body, "password")
                          && out == (Ok(body["username"]), Some(body["username"]))
    ensures !(Filled(body, "username") && Filled(body, "password")) ==>
              out.0 == BadRequest(ValidateUserInput(body, CredentialFields).1)
    ensures Filled(body, "username") && Filled(body, "password") && UniqueUsernames(users) ==>
              (out.0.Ok? <==> exists i | 0 <= i < |users| :: users[i].username == body["username"]
                                                             && h.check(users[i].password, body["password"]))
    ensures Filled(body, "username") && Filled(body, "password") && !out.0.Ok? ==>
              out.0 == Unauthorized("Invalid credentials")
  {
    var (valid, error) := ValidateUserInput(body, CredentialFields);
    CredentialValidation(body);
    if !valid then (BadRequest(error), session)
    else
      var user := FindUser(users, body["username"]);
      assert UniqueUsernames(users) && user.Some? ==>
        forall i | 0 <= i < |users| && users[i].username == body["username"] :: users[i] == user.value by {
        if UniqueUsernames(users) && user.Some? {
          forall i | 0 <= i < |users| && users[i].username == body["username"] ensures users[i] == user.value {
            FindUserUnique(users, i);
          }
        }
      }
      if user.None? || !h.check(user.value.password, body["password"]) then
        (Unauthorized("Invalid credentials"), session)
      else
        (Ok(body["username"]), Some(body["username"]))
  }

  /** The username and password checks of `register` and `login`. */
  lemma CredentialValidation(body: Doc)
    ensures ValidateUserInput(body, CredentialFields).0 <==> Filled(body, "username") && Filled(body, "password")
  {
    assert CredentialFields[0] == "username" && CredentialFields[1] == "password";
  }

  /** Logging in with the credentials just registered succeeds, whatever the
      other members of the login body are. */
  lemma LoginAfterRegister(users: seq<UserDoc>, session: Option<string>, body: Doc, salt: string,
                           login: Doc, h: PasswordHasher)
    requires Sound(h) && UniqueUsernames(users)
    requires RegisterResult(users, body, salt, h).0.Created?
    requires "username" in login && login["username"] == body["username"]
    requires "password" in login && login["password"] == body["password"]
    ensures LoginResult(RegisterResult(users, body, salt, h).1, session, login, h)
            == (Ok(body["username"]), Some(body["username"]))
  {
    var users' := RegisterResult(users, body, salt, h).1;
    var n := |users|;
    assert users'[n].username == login["username"];
    assert h.check(users'[n].password, login["password"]);
  }

  /** The users collection and the client's session. */
  class AuthService {
    var users: seq<UserDoc>
    /** `session["username"]`, `None` when the session holds no username */
    var session: Option<string>
    const hasher: PasswordHasher

    ghost predicate Valid()
      reads this
    {
      UniqueUsernames(users) && Sound(hasher)
    }

    constructor (hasher: PasswordHasher)
      requires Sound(hasher)
      ensures Valid()
      ensures users == [] && session == None && this.hasher == hasher
    {
      users := [];
      session := None;
      this.hasher := hasher;
    }

    /** `register`: adds one user when the credentials are filled and the
        username is new; the session is left alone. */
    method Register(body: Doc, salt: string) returns (r: Response<string>)
      requires Valid()
      modifies this`users
      ensures Valid()
      ensures (r, users) == RegisterResult(old(users), body, salt, hasher)
    {
      var (valid, error) := ValidateUserInput(body, CredentialFields);
      CredentialValidation(body);
      if !valid {
        return BadRequest(error);
      }
      var username := body["username"];
      if FindUser(users, username).Some? {
        return BadRequest("User already exists");
      }
      var hashed := hasher.hash(salt, body["password"]);
      users := users + [UserDoc(username, hashed, ChatIdField(body))];
      r := Created("User registered");
    }

    /** `login`: stores the username in the session when the password checks. */
    method Login(body: Doc) returns (r: Response<string>)
      requires Valid()
      modifies this`session
      ensures Valid()
      ensures (r, session) == LoginResult(users, old(session), body, hasher)
    {
      var (valid, error) := ValidateUserInput(body, CredentialFields);
      CredentialValidation(body);
      if !valid {
        return BadRequest(error);
      }
      var user := FindUser(users, body["username"]);
      if user.None? || !hasher.check(user.value.password, body["password"]) {
        return Unauthorized("Invalid credentials");
      }
      session := Some(body["username"]);
      r := Ok(body["username"]);
    }

    /** `logout`: clears the session, after which `GetCurrentUser` refuses. */
    method Logout() returns (r: Response<string>)
      requires Valid()
      modifies this`session
      ensures Valid()
      ensures session == None && r == Ok("Logged out")
      ensures GetCurrentUser() == Unauthorized("Unauthorized")
    {
      session := None;
      r := Ok("Logged out");
    }

    /** `get_current_user`: the session's username exactly when one is set. */
    function GetCurrentUser(): (r: Response<string>)
      reads this
      ensures r.Ok? <==> Authenticated(session)
      ensures r.Ok? ==> r.value == session.value
      ensures !r.Ok? ==> r == Unauthorized("Unauthorized")
    {
      if Authenticated(session) then Ok(session.value) else Unauthorized("Unauthorized")
    }
  }
}
