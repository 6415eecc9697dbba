/**
 * `POST /api/auth/register`: an ordered chain of checks (all fields given,
 * password long enough), then either the database collaborators
 * (`findUserByEmail`, `createUser`) or, without a database, a simulated
 * creation that echoes the name and email.
 */
module Register {
  import opened Js
  import opened Http
  import opened Environment

  const AllFieldsRequired := "Todos os campos são obrigatórios"
  const PasswordTooShort := "A senha deve ter pelo menos 6 caracteres"
  const EmailTaken := "Este email já está cadastrado"
  const CreateFailed := "Erro ao criar usuário"
  const DatabaseError := "Erro no banco de dados"
  const Created := "Usuário criado com sucesso"
  const CreatedDemo := "Usuário criado com sucesso (modo demo)"

  /** The minimum password length, in `length` units. */
  const MinPasswordLength: real := 6.0

  /** The database-mode branch, from the `findUserByEmail` lookup on. */
  function DatabaseRegister(name: JsValue, email: JsValue, password: JsValue,
                            findUserByEmail: JsValue -> Outcome<JsValue>,
                            createUser: (JsValue, JsValue, JsValue) -> Outcome<JsValue>): (r: Response)
    ensures r.status in {StatusOk, StatusConflict, StatusServerError}
    ensures r.status == StatusConflict <==> findUserByEmail(email).Returned? && Truthy(findUserByEmail(email).value)
    ensures r.status == StatusOk ==> findUserByEmail(email).Returned? && createUser(name, email, password).Returned?
  {
    match findUserByEmail(email)
    case Threw => Error(StatusServerError, DatabaseError)
    case Returned(existingUser) =>
      if Truthy(existingUser) then Error(StatusConflict, EmailTaken)
      else
        match createUser(name, email, password)
        case Threw => Error(StatusServerError, DatabaseError)
        case Returned(newUser) =>
          if !Truthy(newUser) then Error(StatusServerError, CreateFailed)
          else Response(StatusOk, Object([
            ("message", Str(Created)),
            ("user", Object([
              ("id", GetProperty(newUser, "id")),
              ("name", GetProperty(newUser, "name")),
              ("email", GetProperty(newUser, "email"))]))]))
  }

  /** The demo-mode answer: a user whose id is the clock reading `now`, with the request's name and email. */
  function DemoRegister(name: JsValue, email: JsValue, now: int): (r: Response)
    ensures r.status == StatusOk
    ensures GetProperty(r.body, "message") == Str(CreatedDemo)
    ensures GetProperty(r.body, "user") == Object([("id", Number(now as real)), ("name", name), ("email", email)])
  {
    var entries := [("message", Str(CreatedDemo)),
                    ("user", Object([("id", Number(now as real)), ("name", name), ("email", email)]))];
    assert Member(entries, "message") == Member(entries[..1], "message");
    Response(StatusOk, Object(entries))
  }

  /** The handler. */
  function Post(body: RequestBody, dbHost: Option<string>, now: int,
                findUserByEmail: JsValue -> Outcome<JsValue>,
                createUser: (JsValue, JsValue, JsValue) -> Outcome<JsValue>): (r: Response)
    ensures r.status in {StatusOk, StatusBadRequest, StatusConflict, StatusServerError}
    ensures body.Malformed? || !Destructurable(body.value) ==> r == Error(StatusServerError, InternalServerError)
  {
    match body
    case Malformed => Error(StatusServerError, InternalServerError)
    case Parsed(v) =>
      if !Destructurable(v) then Error(StatusServerError, InternalServerError)
      else
        Checked(GetProperty(v, "name"), GetProperty(v, "email"), GetProperty(v, "password"),
                dbHost, now, findUserByEmail, createUser)
  }

  /** The handler once `{ name, email, password }` has been destructured. */
  function Checked(name: JsValue, email: JsValue, password: JsValue, dbHost: Option<string>, now: int,
                   findUserByEmail: JsValue -> Outcome<JsValue>,
                   createUser: (JsValue, JsValue, JsValue) -> Outcome<JsValue>): (r: Response)
    ensures r.status in {StatusOk, StatusBadRequest, StatusConflict, StatusServerError}
    ensures r.status == StatusBadRequest <==>
              !Truthy(name) || !Truthy(email) || !Truthy(password) || LessThan(Length(password), MinPasswordLength)
    ensures r.status == StatusConflict ==> UseDatabase(dbHost)
  {
    if !Truthy(name) || !Truthy(email) || !Truthy(password) then Error(StatusBadRequest, AllFieldsRequired)
    else if LessThan(Length(password), MinPasswordLength) then Error(StatusBadRequest, PasswordTooShort)
    else if UseDatabase(dbHost) then DatabaseRegister(name, email, password, findUserByEmail, createUser)
    else DemoRegister(name, email, now)
  }

  // ---------------------------------------------------------------------------
  // Properties

  /** The body `{ name, email, password }` with string members. */
  function Form(name: string, email: string, password: string): (v: JsValue)
    ensures Destructurable(v)
    ensures GetProperty(v, "name") == Str(name)
    ensures GetProperty(v, "email") == Str(email)
    ensures GetProperty(v, "password") == Str(password)
  {
    var v := Object([("name", Str(name)), ("email", Str(email)), ("password", Str(password))]);
    assert Member(v.entries, "name") == Member(v.entries[..1], "name");
    assert Member(v.entries, "email") == Member(v.entries[..2], "email");
    v
  }

  /** A body that is not JSON, or is `null`, reaches the outer catch: 500. */
  lemma UnreadableBodyIs500(body: RequestBody, dbHost: Option<string>, now: int,
                            findUserByEmail: JsValue -> Outcome<JsValue>,
                            createUser: (JsValue, JsValue, JsValue) -> Outcome<JsValue>)
    requires body.Malformed? || body == Parsed(Null)
    ensures Post(body, dbHost, now, findUserByEmail, createUser) == Error(StatusServerError, InternalServerError)
  {
  }

  /**
   * A missing or falsy field answers 400 before the length check and before
   * any collaborator: the answer is the same whatever they, the clock or the
   * database setting are.
   */
  lemma MissingFieldIs400(v: JsValue,
                          dbHost1: Option<string>, now1: int, find1: JsValue -> Outcome<JsValue>,
                          create1: (JsValue, JsValue, JsValue) -> Outcome<JsValue>,
                          dbHost2: Option<string>, now2: int, find2: JsValue -> Outcome<JsValue>,
                          create2: (JsValue, JsValue, JsValue) -> Outcome<JsValue>)
    requires Destructurable(v)
    requires !Truthy(GetProperty(v, "name")) || !Truthy(GetProperty(v, "email")) || !Truthy(GetProperty(v, "password"))
    ensures Post(Parsed(v), dbHost1, now1, find1, create1) == Error(StatusBadRequest, AllFieldsRequired)
    ensures Post(Parsed(v), dbHost1, now1, find1, create1) == Post(Parsed(v), dbHost2, now2, find2, create2)
  {
  }

  /** An empty password is reported as missing, not as too short. */
  lemma EmptyPasswordIsMissing(name: string, email: string, dbHost: Option<string>, now: int,
                               findUserByEmail: JsValue -> Outcome<JsValue>,
                               createUser: (JsValue, JsValue, JsValue) -> Outcome<JsValue>)
    ensures Post(Parsed(Form(name, email, "")), dbHost, now, findUserByEmail, createUser)
            == Error(StatusBadRequest, AllFieldsRequired)
  {
  }

  /** With all fields given, a string password shorter than 6 UTF-16 code units answers 400. */
  lemma ShortPasswordIs400(name: JsValue, email: JsValue, password: string, dbHost: Option<string>, now: int,
                           findUserByEmail: JsValue -> Outcome<JsValue>,
                           createUser: (JsValue, JsValue, JsValue) -> Outcome<JsValue>)
    requires Truthy(name) && Truthy(email) && password != ""
    requires Utf16Length(password) < 6
    ensures Checked(name, email, Str(password), dbHost, now, findUserByEmail, createUser)
            == Error(StatusBadRequest, PasswordTooShort)
  {
    assert Truthy(Str(password));
    assert Length(Str(password)) == Number(Utf16Length(password) as real);
    assert LessThan(Length(Str(password)), MinPasswordLength);
  }

  /** A string password of 6 or more UTF-16 code units passes on to the database or demo branch. */
  lemma LongPasswordPasses(name: JsValue, email: JsValue, password: string, dbHost: Option<string>, now: int,
                           findUserByEmail: JsValue -> Outcome<JsValue>,
                           createUser: (JsValue, JsValue, JsValue) -> Outcome<JsValue>)
    requires Truthy(name) && Truthy(email)
    requires Utf16Length(password) >= 6
    ensures Checked(name, email, Str(password), dbHost, now, findUserByEmail, createUser)
            == if UseDatabase(dbHost)
               then DatabaseRegister(name, email, Str(password), findUserByEmail, createUser)
               else DemoRegister(name, email, now)
  {
    assert Truthy(Str(password));
    assert Length(Str(password)) == Number(Utf16Length(password) as real);
    assert !LessThan(Length(Str(password)), MinPasswordLength);
  }

  /**
   * Six characters pass the check, five do not; `length` counts code units,
   * so three characters beyond the BMP already make six.
   */
  lemma PasswordLengthBoundary()
    ensures Utf16Length("123456") == 6 && Utf16Length("12345") == 5
    ensures Utf16Length("\U{1F600}\U{1F600}\U{1F600}") == 6
  {
  }

  /** `.length` of a number or a boolean is `undefined`, so such a password never fails the length check. */
  lemma NonStringPasswordSkipsLengthCheck(password: JsValue)
    requires password.Number? || password.Bool?
    ensures !LessThan(Length(password), MinPasswordLength)
  {
  }

  /**
   * When `password.length < 6` rejects a given password: a string by its
   * UTF-16 length, an array by its element count, an object by its own
   * `length` member (a small number, `null` or a boolean); a number or
   * `true` never.
   */
  lemma LengthCheckRejects(password: JsValue)
    requires Truthy(password)
    ensures LessThan(Length(password), MinPasswordLength) <==>
              (password.Str? && Utf16Length(password.s) < 6)
              || (password.Array? && |password.items| < 6)
              || (password.Object? && (var m := GetProperty(password, "length");
                                        (m.Number? && m.n < 6.0) || m.Null? || m.Bool?))
  {
    if password.Str? {
      assert Length(password) == Number(Utf16Length(password.s) as real);
    }
  }

  /** In database mode an existing user answers 409, and `createUser` is never called. */
  lemma ExistingEmailIs409(name: JsValue, email: JsValue, password: JsValue,
                           findUserByEmail: JsValue -> Outcome<JsValue>,
                           create1: (JsValue, JsValue, JsValue) -> Outcome<JsValue>,
                           create2: (JsValue, JsValue, JsValue) -> Outcome<JsValue>)
    requires findUserByEmail(email).Returned? && Truthy(findUserByEmail(email).value)
    ensures DatabaseRegister(name, email, password, findUserByEmail, create1) == Error(StatusConflict, EmailTaken)
    ensures DatabaseRegister(name, email, password, findUserByEmail, create1)
            == DatabaseRegister(name, email, password, findUserByEmail, create2)
  {
  }

  /** In database mode a falsy `createUser` result answers 500. */
  lemma CreateFalsyIs500(name: JsValue, email: JsValue, password: JsValue,
                         findUserByEmail: JsValue -> Outcome<JsValue>,
                         createUser: (JsValue, JsValue, JsValue) -> Outcome<JsValue>)
    requires findUserByEmail(email).Returned? && !Truthy(findUserByEmail(email).value)
    requires createUser(name, email, password).Returned? && !Truthy(createUser(name, email, password).value)
    ensures DatabaseRegister(name, email, password, findUserByEmail, createUser) == Error(StatusServerError, CreateFailed)
  {
  }

  /**
   * In database mode a thrown collaborator error answers 500 with the
   * database message; unlike login there is no fallback to the demo branch.
   */
  lemma DatabaseThrowIs500(name: JsValue, email: JsValue, password: JsValue, now: int,
                           findUserByEmail: JsValue -> Outcome<JsValue>,
                           createUser: (JsValue, JsValue, JsValue) -> Outcome<JsValue>)
    requires findUserByEmail(email).Threw?
             || (findUserByEmail(email).Returned? && !Truthy(findUserByEmail(email).value)
                 && createUser(name, email, password).Threw?)
    ensures DatabaseRegister(name, email, password, findUserByEmail, createUser) == Error(StatusServerError, DatabaseError)
    ensures DatabaseRegister(name, email, password, findUserByEmail, createUser) != DemoRegister(name, email, now)
  {
  }

  /**
   * A database-mode success answers 200 with a user carrying exactly `id`,
   * `name` and `email` of the created record, and no password.
   */
  lemma DatabaseSuccess(name: JsValue, email: JsValue, password: JsValue,
                        findUserByEmail: JsValue -> Outcome<JsValue>,
                        createUser: (JsValue, JsValue, JsValue) -> Outcome<JsValue>)
    requires findUserByEmail(email).Returned? && !Truthy(findUserByEmail(email).value)
    requires createUser(name, email, password).Returned? && Truthy(createUser(name, email, password).value)
    ensures var newUser := createUser(name, email, password).value;
            var r := DatabaseRegister(name, email, password, findUserByEmail, createUser);
            var user := GetProperty(r.body, "user");
            && r.status == StatusOk
            && user == Object([("id", GetProperty(newUser, "id")), ("name", GetProperty(newUser, "name")),
                               ("email", GetProperty(newUser, "email"))])
            && !HasKey(user.entries, "password")
  {
    var r := DatabaseRegister(name, email, password, findUserByEmail, createUser);
    assert Member(r.body.entries, "user") == Some(r.body.entries[1].1);
  }

  /**
   * Without a database, a valid form answers 200 echoing the request's name
   * and email, with the clock reading as id and no password.
   */
  lemma DemoEchoesNameAndEmail(v: JsValue, dbHost: Option<string>, now: int,
                               findUserByEmail: JsValue -> Outcome<JsValue>,
                               createUser: (JsValue, JsValue, JsValue) -> Outcome<JsValue>)
    requires Destructurable(v) && !UseDatabase(dbHost)
    requires Truthy(GetProperty(v, "name")) && Truthy(GetProperty(v, "email")) && Truthy(GetProperty(v, "password"))
    requires !LessThan(Length(GetProperty(v, "password")), MinPasswordLength)
    ensures var r := Post(Parsed(v), dbHost, now, findUserByEmail, createUser);
            var user := GetProperty(r.body, "user");
            && r.status == StatusOk
            && GetProperty(r.body, "message") == Str(CreatedDemo)
            && user == Object([("id", Number(now as real)), ("name", GetProperty(v, "name")),
                               ("email", GetProperty(v, "email"))])
            && !HasKey(user.entries, "password")
  {
  }

  /**
   * A valid form in database mode reaches the database branch with the
   * form's own strings; so the branch's answers above are the handler's.
   */
  lemma FormReachesDatabase(name: string, email: string, password: string, dbHost: Option<string>, now: int,
                            findUserByEmail: JsValue -> Outcome<JsValue>,
                            createUser: (JsValue, JsValue, JsValue) -> Outcome<JsValue>)
    requires name != "" && email != "" && UseDatabase(dbHost)
    requires Utf16Length(password) >= 6
    ensures Post(Parsed(Form(name, email, password)), dbHost, now, findUserByEmail, createUser)
            == DatabaseRegister(Str(name), Str(email), Str(password), findUserByEmail, createUser)
  {
    LongPasswordPasses(Str(name), Str(email), password, dbHost, now, findUserByEmail, createUser);
  }

  /** At the handler: in database mode a valid form with a known email answers 409. */
  lemma HandlerExistingEmailIs409(name: string, email: string, password: string, dbHost: Option<string>, now: int,
                                  findUserByEmail: JsValue -> Outcome<JsValue>,
                                  createUser: (JsValue, JsValue, JsValue) -> Outcome<JsValue>)
    requires name != "" && email != "" && UseDatabase(dbHost)
    requires Utf16Length(password) >= 6
    requires findUserByEmail(Str(email)).Returned? && Truthy(findUserByEmail(Str(email)).value)
    ensures Post(Parsed(Form(name, email, password)), dbHost, now, findUserByEmail, createUser)
            == Error(StatusConflict, EmailTaken)
  {
    FormReachesDatabase(name, email, password, dbHost, now, findUserByEmail, createUser);
  }
}
