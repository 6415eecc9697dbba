/**
 * `POST /api/auth/login`: checks that email and password are given, asks the
 * database authenticator when database mode is on, and falls back to a fixed
 * in-memory user table when there is no database or the authenticator throws.
 */
module Login {
  import opened Js
  import opened Http
  import opened Environment

  const MissingCredentials := "Email e senha são obrigatórios"
  const InvalidCredentials := "Credenciais inválidas"
  const LoginSucceeded := "Login realizado com sucesso"

  /** A row of the in-memory user table, as its object literal. */
  function UserRecord(id: int, name: string, email: string, password: string): Entries {
    [("id", Number(id as real)), ("name", Str(name)), ("email", Str(email)), ("password", Str(password))]
  }

  /** The fallback user table; it is never mutated. */
  const Users: seq<Entries> := [
    UserRecord(1, "Usuário Demo", "demo@exemplo.com", "123456"),
    UserRecord(2, "Admin Sistema", "admin@sistema.com", "admin123")
  ]

  /** The lookup callback: the row's email and password are both strictly equal to the request's. */
  predicate Matches(u: Entries, email: JsValue, password: JsValue)
    ensures Matches(u, email, password) ==>
              email == GetProperty(Object(u), "email") && password == GetProperty(Object(u), "password")
    ensures email.Object? || email.Array? || password.Object? || password.Array? ==> !Matches(u, email, password)
  {
    StrictEquals(GetProperty(Object(u), "email"), email)
    && StrictEquals(GetProperty(Object(u), "password"), password)
  }

  /** `users.find(...)`: the first matching row, if any. */
  function Find(users: seq<Entries>, email: JsValue, password: JsValue): (r: Option<Entries>)
    ensures r.None? <==> forall i :: 0 <= i < |users| ==> !Matches(users[i], email, password)
    ensures r.Some? ==> exists i :: 0 <= i < |users| && users[i] == r.value && Matches(r.value, email, password)
                                    && forall j :: 0 <= j < i ==> !Matches(users[j], email, password)
  {
    if users == [] then None
    else if Matches(users[0], email, password) then Some(users[0])
    else
      var r := Find(users[1..], email, password);
      assert forall i :: 1 <= i < |users| ==> users[1..][i - 1] == users[i];
      r
  }

  /** The answer built from a truthy or falsy `authenticateUser` result. */
  function DatabaseLogin(result: JsValue): (r: Response)
    ensures r.status in {StatusOk, StatusUnauthorized}
    ensures r.status == StatusOk <==> Truthy(result)
  {
    if !Truthy(result) then Error(StatusUnauthorized, InvalidCredentials)
    else Response(StatusOk, Object([
      ("message", Str(LoginSucceeded)),
      ("user", GetProperty(result, "user")),
      ("token", GetProperty(result, "token"))]))
  }

  /** The in-memory branch: look the user up and strip its password. */
  function FallbackLogin(users: seq<Entries>, email: JsValue, password: JsValue): (r: Response)
    ensures r.status in {StatusOk, StatusUnauthorized}
    ensures r.status == StatusOk <==> Find(users, email, password).Some?
  {
    match Find(users, email, password)
    case None => Error(StatusUnauthorized, InvalidCredentials)
    case Some(user) => Response(StatusOk, Object([
      ("message", Str(LoginSucceeded)),
      ("user", Object(Without(user, "password")))]))
  }

  /** The handler over a given user table. */
  function PostWith(users: seq<Entries>, body: RequestBody, dbHost: Option<string>,
                    authenticateUser: (JsValue, JsValue) -> Outcome<JsValue>): (r: Response)
    ensures r.status in {StatusOk, StatusBadRequest, StatusUnauthorized, StatusServerError}
    ensures r.status == StatusServerError <==> body.Malformed? || !Destructurable(body.value)
  {
    match body
    case Malformed => Error(StatusServerError, InternalServerError)
    case Parsed(v) =>
      if !Destructurable(v) then Error(StatusServerError, InternalServerError)
      else
        var email, password := GetProperty(v, "email"), GetProperty(v, "password");
        if !Truthy(email) || !Truthy(password) then Error(StatusBadRequest, MissingCredentials)
        else if UseDatabase(dbHost) && authenticateUser(email, password).Returned? then
          DatabaseLogin(authenticateUser(email, password).value)
        else
          FallbackLogin(users, email, password)
  }

  /** The handler as deployed, with its fixed user table. */
  function Post(body: RequestBody, dbHost: Option<string>,
                authenticateUser: (JsValue, JsValue) -> Outcome<JsValue>): (r: Response)
    ensures r.status in {StatusOk, StatusBadRequest, StatusUnauthorized, StatusServerError}
    ensures !UseDatabase(dbHost) && r.status == StatusOk ==> GetProperty(r.body, "token") == Undefined
  {
    PostWith(Users, body, dbHost, authenticateUser)
  }

  // ---------------------------------------------------------------------------
  // Properties

  /** A body that is not JSON, or is `null`, reaches the outer catch: 500. */
  lemma UnreadableBodyIs500(users: seq<Entries>, body: RequestBody, dbHost: Option<string>,
                            authenticateUser: (JsValue, JsValue) -> Outcome<JsValue>)
    requires body.Malformed? || body == Parsed(Null)
    ensures PostWith(users, body, dbHost, authenticateUser) == Error(StatusServerError, InternalServerError)
  {
  }

  /**
   * A missing or falsy email or password answers 400, and neither the
   * authenticator nor the user table is consulted: the answer is the same
   * for any of them.
   */
  lemma MissingCredentialsIs400(v: JsValue, dbHost: Option<string>,
                                users1: seq<Entries>, auth1: (JsValue, JsValue) -> Outcome<JsValue>,
                                users2: seq<Entries>, auth2: (JsValue, JsValue) -> Outcome<JsValue>)
    requires Destructurable(v)
    requires !Truthy(GetProperty(v, "email")) || !Truthy(GetProperty(v, "password"))
    ensures PostWith(users1, Parsed(v), dbHost, auth1) == Error(StatusBadRequest, MissingCredentials)
    ensures PostWith(users1, Parsed(v), dbHost, auth1) == PostWith(users2, Parsed(v), dbHost, auth2)
  {
  }

  /** An empty-string email is missing too. */
  lemma EmptyEmailIs400(password: JsValue, dbHost: Option<string>,
                        authenticateUser: (JsValue, JsValue) -> Outcome<JsValue>)
    ensures Post(Parsed(Object([("email", Str("")), ("password", password)])), dbHost, authenticateUser).status
            == StatusBadRequest
  {
  }

  /** In database mode a falsy authenticator result is 401, whatever the table holds. */
  lemma DatabaseFalsyIs401(users: seq<Entries>, v: JsValue, dbHost: Option<string>,
                           authenticateUser: (JsValue, JsValue) -> Outcome<JsValue>)
    requires Destructurable(v) && UseDatabase(dbHost)
    requires Truthy(GetProperty(v, "email")) && Truthy(GetProperty(v, "password"))
    requires var r := authenticateUser(GetProperty(v, "email"), GetProperty(v, "password"));
             r.Returned? && !Truthy(r.value)
    ensures PostWith(users, Parsed(v), dbHost, authenticateUser) == Error(StatusUnauthorized, InvalidCredentials)
  {
  }

  /** In database mode a truthy authenticator result gives its `user` and `token`. */
  lemma DatabaseSuccess(users: seq<Entries>, v: JsValue, dbHost: Option<string>,
                        authenticateUser: (JsValue, JsValue) -> Outcome<JsValue>)
    requires Destructurable(v) && UseDatabase(dbHost)
    requires Truthy(GetProperty(v, "email")) && Truthy(GetProperty(v, "password"))
    requires var r := authenticateUser(GetProperty(v, "email"), GetProperty(v, "password"));
             r.Returned? && Truthy(r.value)
    ensures var result := authenticateUser(GetProperty(v, "email"), GetProperty(v, "password")).value;
            var resp := PostWith(users, Parsed(v), dbHost, authenticateUser);
            && resp.status == StatusOk
            && GetProperty(resp.body, "message") == Str(LoginSucceeded)
            && GetProperty(resp.body, "user") == GetProperty(result, "user")
            && GetProperty(resp.body, "token") == GetProperty(result, "token")
  {
    var result := authenticateUser(GetProperty(v, "email"), GetProperty(v, "password")).value;
    var entries := PostWith(users, Parsed(v), dbHost, authenticateUser).body.entries;
    assert entries == [("message", Str(LoginSucceeded)), ("user", GetProperty(result, "user")),
                       ("token", GetProperty(result, "token"))];
    assert Member(entries, "token") == Some(GetProperty(result, "token"));
    assert Member(entries, "user") == Member(entries[..2], "user") == Some(GetProperty(result, "user"));
    assert Member(entries, "message") == Member(entries[..1], "message") == Some(Str(LoginSucceeded));
  }

  /**
   * Only a thrown authenticator error falls through to the table: the answer
   * is then the one the handler gives without a database.
   */
  lemma DatabaseThrowFallsBack(users: seq<Entries>, v: JsValue, dbHost: Option<string>,
                               authenticateUser: (JsValue, JsValue) -> Outcome<JsValue>)
    requires Destructurable(v)
    requires Truthy(GetProperty(v, "email")) && Truthy(GetProperty(v, "password"))
    requires authenticateUser(GetProperty(v, "email"), GetProperty(v, "password")).Threw?
    ensures PostWith(users, Parsed(v), dbHost, authenticateUser) == PostWith(users, Parsed(v), None, authenticateUser)
    ensures PostWith(users, Parsed(v), dbHost, authenticateUser)
            == FallbackLogin(users, GetProperty(v, "email"), GetProperty(v, "password"))
  {
  }

  /** Outside database mode the authenticator is never called. */
  lemma DemoModeIgnoresAuthenticator(users: seq<Entries>, body: RequestBody, dbHost: Option<string>,
                                     auth1: (JsValue, JsValue) -> Outcome<JsValue>,
                                     auth2: (JsValue, JsValue) -> Outcome<JsValue>)
    requires !UseDatabase(dbHost)
    ensures PostWith(users, body, dbHost, auth1) == PostWith(users, body, dbHost, auth2)
  {
  }

  /** The fallback succeeds exactly when some row matches both email and password; otherwise 401. */
  lemma FallbackSucceedsIff(users: seq<Entries>, email: JsValue, password: JsValue)
    ensures var r := FallbackLogin(users, email, password);
            && (r.status == StatusOk <==> exists i :: 0 <= i < |users| && Matches(users[i], email, password))
            && (r.status != StatusOk ==> r == Error(StatusUnauthorized, InvalidCredentials))
  {
    if Find(users, email, password).None? {
      assert forall i :: 0 <= i < |users| ==> !Matches(users[i], email, password);
    }
  }

  /**
   * A fallback success carries the first matching row without its password,
   * every other member unchanged, and no token.
   */
  lemma FallbackStripsPassword(users: seq<Entries>, email: JsValue, password: JsValue, key: string)
    requires Find(users, email, password).Some?
    ensures var row := Find(users, email, password).value;
            var r := FallbackLogin(users, email, password);
            var user := GetProperty(r.body, "user");
            && r.status == StatusOk
            && user.Object?
            && GetProperty(user, "password") == Undefined
            && (key != "password" ==> Member(user.entries, key) == Member(row, key))
            && !HasKey(r.body.entries, "token")
  {
    var row := Find(users, email, password).value;
    WithoutMember(row, "password", key);
    var r := FallbackLogin(users, email, password);
    assert r.body.entries == [("message", Str(LoginSucceeded)), ("user", Object(Without(row, "password")))];
    assert Member(r.body.entries, "user") == Some(Object(Without(row, "password")));
  }

  /** The body `{ email, password }` a client sends. */
  function Credentials(email: string, password: string): (v: JsValue)
    ensures Destructurable(v)
    ensures GetProperty(v, "email") == Str(email) && GetProperty(v, "password") == Str(password)
  {
    var v := Object([("email", Str(email)), ("password", Str(password))]);
    assert Member(v.entries, "email") == Member(v.entries[..1], "email");
    v
  }

  /** Stripping the password from a table row leaves its id, name and email. */
  lemma RecordWithoutPassword(id: int, name: string, email: string, password: string)
    ensures Without(UserRecord(id, name, email, password), "password")
            == [("id", Number(id as real)), ("name", Str(name)), ("email", Str(email))]
  {
    var row := UserRecord(id, name, email, password);
    assert Without(row[3..], "password") == [];
    assert Without(row[2..], "password") == [row[2]];
    assert Without(row[1..], "password") == [row[1], row[2]];
  }

  /** A row of the table that is the first match logs in, showing only its id, name and email. */
  lemma RowLogsIn(users: seq<Entries>, dbHost: Option<string>,
                  authenticateUser: (JsValue, JsValue) -> Outcome<JsValue>,
                  id: int, name: string, email: string, password: string)
    requires !UseDatabase(dbHost) && email != "" && password != ""
    requires Find(users, Str(email), Str(password)) == Some(UserRecord(id, name, email, password))
    ensures PostWith(users, Parsed(Credentials(email, password)), dbHost, authenticateUser)
            == Response(StatusOk, Object([
                 ("message", Str(LoginSucceeded)),
                 ("user", Object([("id", Number(id as real)), ("name", Str(name)), ("email", Str(email))]))]))
  {
    var v := Credentials(email, password);
    assert Truthy(Str(email)) && Truthy(Str(password));
    assert PostWith(users, Parsed(v), dbHost, authenticateUser) == FallbackLogin(users, Str(email), Str(password));
    RecordWithoutPassword(id, name, email, password);
  }

  /** A row matches string credentials exactly when both strings are equal to its own. */
  lemma MatchesRecord(id: int, name: string, email: string, password: string, e: string, p: string)
    ensures Matches(UserRecord(id, name, email, password), Str(e), Str(p)) <==> e == email && p == password
  {
    var row := UserRecord(id, name, email, password);
    assert Member(row, "password") == Some(Str(password));
    assert Member(row, "email") == Member(row[..3], "email") == Some(Str(email));
  }

  /** The demo row of the deployed table logs in, showing only its id, name and email. */
  lemma DemoUserLogsIn(dbHost: Option<string>, authenticateUser: (JsValue, JsValue) -> Outcome<JsValue>)
    requires !UseDatabase(dbHost)
    ensures Post(Parsed(Credentials("demo@exemplo.com", "123456")), dbHost, authenticateUser)
            == Response(StatusOk, Object([
                 ("message", Str(LoginSucceeded)),
                 ("user", Object([("id", Number(1.0)), ("name", Str("Usuário Demo")), ("email", Str("demo@exemplo.com"))]))]))
  {
    MatchesRecord(1, "Usuário Demo", "demo@exemplo.com", "123456", "demo@exemplo.com", "123456");
    assert Find(Users, Str("demo@exemplo.com"), Str("123456")) == Some(Users[0]);
    RowLogsIn(Users, dbHost, authenticateUser, 1, "Usuário Demo", "demo@exemplo.com", "123456");
  }

  /** The admin row of the deployed table logs in, showing only its id, name and email. */
  lemma AdminUserLogsIn(dbHost: Option<string>, authenticateUser: (JsValue, JsValue) -> Outcome<JsValue>)
    requires !UseDatabase(dbHost)
    ensures Post(Parsed(Credentials("admin@sistema.com", "admin123")), dbHost, authenticateUser)
            == Response(StatusOk, Object([
                 ("message", Str(LoginSucceeded)),
                 ("user", Object([("id", Number(2.0)), ("name", Str("Admin Sistema")), ("email", Str("admin@sistema.com"))]))]))
  {
    MatchesRecord(1, "Usuário Demo", "demo@exemplo.com", "123456", "admin@sistema.com", "admin123");
    MatchesRecord(2, "Admin Sistema", "admin@sistema.com", "admin123", "admin@sistema.com", "admin123");
    assert Find(Users[1..], Str("admin@sistema.com"), Str("admin123")) == Some(Users[1]);
    assert Find(Users, Str("admin@sistema.com"), Str("admin123")) == Some(Users[1]);
    RowLogsIn(Users, dbHost, authenticateUser, 2, "Admin Sistema", "admin@sistema.com", "admin123");
  }

  /** A wrong password for a known email is rejected. */
  lemma WrongPasswordIs401(dbHost: Option<string>, authenticateUser: (JsValue, JsValue) -> Outcome<JsValue>)
    requires !UseDatabase(dbHost)
    ensures Post(Parsed(Credentials("demo@exemplo.com", "admin123")), dbHost, authenticateUser)
            == Error(StatusUnauthorized, InvalidCredentials)
  {
    MatchesRecord(1, "Usuário Demo", "demo@exemplo.com", "123456", "demo@exemplo.com", "admin123");
    MatchesRecord(2, "Admin Sistema", "admin@sistema.com", "admin123", "demo@exemplo.com", "admin123");
    assert Find(Users[1..], Str("demo@exemplo.com"), Str("admin123")) == None;
    assert Find(Users, Str("demo@exemplo.com"), Str("admin123")) == None;
    var v := Credentials("demo@exemplo.com", "admin123");
    assert Truthy(Str("demo@exemplo.com")) && Truthy(Str("admin123"));
    assert Post(Parsed(v), dbHost, authenticateUser)
        == FallbackLogin(Users, Str("demo@exemplo.com"), Str("admin123"));
  }
}
