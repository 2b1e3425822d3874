/** Registration, `POST /api/auth/register`: a user is created from an email and
    a password (stored as its bcrypt hash with 10 salt rounds) unless the email
    is already registered. */
module Register {
  import opened Wrappers
  import opened Js
  import opened Store

  const SaltRounds: nat := 10

  /** The `email` and `password` properties of the JSON body. */
  datatype RegisterBody = RegisterBody(email: JsonField, password: JsonField)

  datatype RegisterResponse =
    | InvalidInput                          // 400 "Invalid email or password"
    | AlreadyExists                         // 409 "User already exists"
    | Registered(id: string, email: string) // 200 { ok: true, data: { id, email, message }, status: 201 }
    | ServerError                           // 500 "Internal server error during registration"

  /** The HTTP status of the response. A successful registration carries
      `status: 201` inside its JSON body, but the response itself is sent with
      the default status 200. */
  function StatusCode(r: RegisterResponse): int {
    match r
    case InvalidInput => 400
    case AlreadyExists => 409
    case Registered(_, _) => 200
    case ServerError => 500
  }

  /** The row `user.create` is asked to store: no username and no image yet. */
  function NewUser(newId: string, email: string, password: string): User {
    User(newId, Some(email), Some(Bcrypt(password, SaltRounds)), None, None)
  }

  /** `POST /api/auth/register` on the user rows. `body` is `None` when the body is
      not a JSON object; `newId` is the id the database assigns; `dbFails` makes
      the first database call throw. */
  function PostRegister(body: Option<RegisterBody>, users: seq<User>, newId: string, dbFails: bool)
    : (r: (RegisterResponse, seq<User>))
    ensures body.None? ==> r.0 == ServerError
    ensures r.0 == InvalidInput <==>
      body.Some? && !(IsNonEmptyString(body.value.email) && IsNonEmptyString(body.value.password))
    ensures r.0 == AlreadyExists <==>
      body.Some? && IsNonEmptyString(body.value.email) && IsNonEmptyString(body.value.password)
      && !dbFails && FindUserByEmail(users, body.value.email.text).Some?
    ensures !r.0.Registered? ==> r.1 == users
    ensures r.0.Registered? ==>
      && body.Some? && !dbFails
      && r.0 == Registered(newId, body.value.email.text)
      && r.1 == users + [NewUser(newId, body.value.email.text, body.value.password.text)]
  {
    if body.None? then (ServerError, users)
    else if !IsNonEmptyString(body.value.email) || !IsNonEmptyString(body.value.password) then
      (InvalidInput, users)
    else if dbFails then (ServerError, users)
    else
      var email := body.value.email.text;
      if FindUserByEmail(users, email).Some? then (AlreadyExists, users)
      else
        var (written, rows) := InsertUser(users, NewUser(newId, email, body.value.password.text));
        if written.Written? then (Registered(written.row.id, written.row.email.value), rows)
        else (ServerError, users)
  }

  /** Registration succeeds exactly when the input is valid, the email is new and
      the assigned id is free. */
  lemma RegisterSucceedsIff(email: string, password: string, users: seq<User>, newId: string)
    requires email != "" && password != ""
    ensures PostRegister(Some(RegisterBody(Str(email), Str(password))), users, newId, false).0.Registered?
      <==> FindUserByEmail(users, email).None? && forall i :: 0 <= i < |users| ==> users[i].id != newId
  {
    var u := NewUser(newId, email, password);
    if FindUserByEmail(users, email).None? && forall i :: 0 <= i < |users| ==> users[i].id != newId {
      assert !ClashesWith(users, u);
    }
  }

  lemma {:induction false} FindByEmailAfterAppend(users: seq<User>, u: User)
    requires u.email.Some?
    requires FindUserByEmail(users, u.email.value).None?
    ensures FindUserByEmail(users + [u], u.email.value) == Some(u)
    decreases |users|
  {
    if users != [] {
      assert (users + [u])[1..] == users[1..] + [u];
      FindByEmailAfterAppend(users[1..], u);
    }
  }

  /** After a registration, the new user is found by email with the password's
      hash (never the password itself), and a second registration with the same
      email is refused with 409 whatever id it would get. */
  lemma RegisteredUserIsFoundByEmail(email: string, password: string, users: seq<User>, newId: string, secondId: string, other: string)
    requires other != ""
    requires PostRegister(Some(RegisterBody(Str(email), Str(password))), users, newId, false).0.Registered?
    ensures var rows := PostRegister(Some(RegisterBody(Str(email), Str(password))), users, newId, false).1;
      && FindUserByEmail(rows, email) == Some(User(newId, Some(email), Some(Bcrypt(password, 10)), None, None))
      && PostRegister(Some(RegisterBody(Str(email), Str(other))), rows, secondId, false) == (AlreadyExists, rows)
  {
    FindByEmailAfterAppend(users, NewUser(newId, email, password));
  }

  /** `POST /api/auth/register` against the user table. */
  method HandleRegister(table: UserTable, body: Option<RegisterBody>, newId: string, dbFails: bool)
    returns (r: RegisterResponse)
    requires table.Valid()
    modifies table
    ensures table.Valid()
    ensures (r, table.rows) == PostRegister(body, old(table.rows), newId, dbFails)
  {
    if body.None? {
      return ServerError;
    }
    var email := body.value.email;
    var password := body.value.password;
    if !IsNonEmptyString(email) || !IsNonEmptyString(password) {
      return InvalidInput;
    }
    if dbFails {
      return ServerError;
    }
    var existingUser := FindUserByEmail(table.rows, email.text);
    if existingUser.Some? {
      return AlreadyExists;
    }
    var hashedPassword := Bcrypt(password.text, SaltRounds);
    var written := table.Create(User(newId, Some(email.text), Some(hashedPassword), None, None));
    if written.Written? {
      r := Registered(written.row.id, written.row.email.value);
    } else {
      r := ServerError;
    }
  }
}
