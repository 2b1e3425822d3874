/** Setting the username, `POST /api/profile/update`: validation, resolution of
    the database id (the session id when it looks like a database id, otherwise
    the id of the user with the session's email), then the update, whose unique
    index on usernames turns a taken name into 409. */
module ProfileUpdate {
  import opened Wrappers
  import opened Js
  import opened Auth
  import opened Store

  datatype ProfileResponse =
    | Unauthorized              // 401 "Unauthorized"
    | InvalidUsername           // 400 "Invalid username provided"
    | UnknownUserId             // 400 "Unable to determine user id"
    | UserNotInDatabase         // 404 "User not found in database"
    | Updated(username: string) // 200 { ok: true, data: { username } }
    | UsernameTaken             // 409 "This username is already taken."
    | ServerError               // 500

  function StatusCode(r: ProfileResponse): int {
    match r
    case Unauthorized => 401
    case InvalidUsername => 400
    case UnknownUserId => 400
    case UserNotInDatabase => 404
    case Updated(_) => 200
    case UsernameTaken => 409
    case ServerError => 500
  }

  predicate IsHexDigit(c: char) {
    ('0' <= c <= '9') || ('a' <= c <= 'f') || ('A' <= c <= 'F')
  }

  /** `/^[a-fA-F0-9]{24}$/.test(id)`: the shape of a database (ObjectId) id. */
  predicate IsHex24(id: string) {
    |id| == 24 && forall i :: 0 <= i < |id| ==> IsHexDigit(id[i])
  }

  datatype Resolution = Resolved(id: string) | NoEmail | NotInDatabase

  /** Which database id the update is made under. */
  function ResolveUserId(user: SessionUser, users: seq<User>): (r: Resolution)
    requires Truthy(user.id)
    ensures IsHex24(user.id.value) ==> r == Resolved(user.id.value)
    ensures !IsHex24(user.id.value) ==> (r == NoEmail <==> !Truthy(user.email))
    ensures !IsHex24(user.id.value) && Truthy(user.email) ==>
      (r == NotInDatabase <==> FindUserByEmail(users, user.email.value).None?)
    ensures !IsHex24(user.id.value) && r.Resolved? ==>
      exists k :: 0 <= k < |users| && users[k].id == r.id && users[k].email == user.email
  {
    if IsHex24(user.id.value) then Resolved(user.id.value)
    else if !Truthy(user.email) then NoEmail
    else
      var found := FindUserByEmail(users, user.email.value);
      if found.None? then NotInDatabase else Resolved(found.value.id)
  }

  /** The request passes validation and the id can be resolved without a lookup
      failing for want of an email: the handler goes on to the database. */
  predicate ReachesDatabase(session: Option<Session>, body: Option<JsonField>) {
    && HasId(session) && body.Some? && IsNonEmptyString(body.value)
    && (IsHex24(session.value.user.id.value) || Truthy(session.value.user.email))
  }

  /** `POST /api/profile/update` on the user rows: the response and the new rows.
      `body` is the `username` property of the JSON body (`None`: the body is not
      JSON, and `req.json()` throws outside the `try`); `dbFails` makes the first
      database call throw. */
  function PostProfile(session: Option<Session>, body: Option<JsonField>, users: seq<User>, dbFails: bool)
    : (r: (ProfileResponse, seq<User>))
    ensures r.0.Unauthorized? <==> !HasId(session)
    ensures r.0.InvalidUsername? <==> HasId(session) && body.Some? && !IsNonEmptyString(body.value)
    ensures r.0.UnknownUserId? <==>
      && HasId(session) && body.Some? && IsNonEmptyString(body.value)
      && !IsHex24(session.value.user.id.value) && !Truthy(session.value.user.email)
    ensures ReachesDatabase(session, body) && dbFails ==> r.0 == ServerError
    ensures r.0.UserNotInDatabase? <==>
      ReachesDatabase(session, body) && !dbFails && ResolveUserId(session.value.user, users) == NotInDatabase
    ensures r.0.UsernameTaken? <==>
      && ReachesDatabase(session, body) && !dbFails
      && (var res := ResolveUserId(session.value.user, users);
          && res.Resolved? && IndexOfUser(users, res.id).Some?
          && UsernameTakenByOther(users, IndexOfUser(users, res.id).value, body.value.text))
    ensures r.0.Updated? <==>
      && ReachesDatabase(session, body) && !dbFails
      && (var res := ResolveUserId(session.value.user, users);
          && res.Resolved? && IndexOfUser(users, res.id).Some?
          && !UsernameTakenByOther(users, IndexOfUser(users, res.id).value, body.value.text))
    ensures !r.0.Updated? ==> r.1 == users
    ensures r.0.Updated? ==>
      && HasId(session) && body.Some? && IsNonEmptyString(body.value) && !dbFails
      && r.0.username == body.value.text
      && var res := ResolveUserId(session.value.user, users);
         && res.Resolved?
         && r.1 == UpdateUsername(users, res.id, body.value.text).1
  {
    if !HasId(session) then (Unauthorized, users)
    else if body.None? then (ServerError, users)
    else if !IsNonEmptyString(body.value) then (InvalidUsername, users)
    else
      var user := session.value.user;
      var needsLookup := !IsHex24(user.id.value);
      if needsLookup && !Truthy(user.email) then (UnknownUserId, users)
      else if dbFails then (ServerError, users)
      else
        var res := ResolveUserId(user, users);
        if res.NotInDatabase? then (UserNotInDatabase, users)
        else
          var (written, rows) := UpdateUsername(users, res.id, body.value.text);
          match written
          case Written(row) => (Updated(row.username.value), rows)
          case UniqueViolation => (UsernameTaken, users)
          case RecordNotFound => (ServerError, users)
  }

  /** A successful update writes the new username into the resolved user's row
      and changes no other field of it and no other row. */
  lemma UpdateWritesOnlyUsername(session: Option<Session>, name: string, users: seq<User>)
    requires UsersValid(users)
    requires PostProfile(session, Some(Str(name)), users, false).0.Updated?
    ensures var (r, rows) := PostProfile(session, Some(Str(name)), users, false);
      var id := ResolveUserId(session.value.user, users).id;
      var k := IndexOfUser(users, id).value;
      && |rows| == |users|
      && rows[k] == users[k].(username := Some(name))
      && forall i :: 0 <= i < |users| && i != k ==> rows[i] == users[i]
  {
    var id := ResolveUserId(session.value.user, users).id;
    var k := IndexOfUser(users, id).value;
    var rows := PostProfile(session, Some(Str(name)), users, false).1;
    forall i | 0 <= i < |users| && i != k ensures rows[i] == users[i] {
      assert users[i].id != id;
    }
  }

  /** The server checks neither the length nor the characters of the name, and a
      user who already has a username may set another: any non-empty string not
      held by another user is stored. */
  lemma AnyFreeNameIsAccepted(session: Option<Session>, name: string, users: seq<User>, k: nat)
    requires UniqueUserIds(users)
    requires HasId(session) && IsHex24(session.value.user.id.value)
    requires name != ""
    requires k < |users| && users[k].id == session.value.user.id.value
    requires forall j :: 0 <= j < |users| && j != k ==> users[j].username != Some(name)
    ensures PostProfile(session, Some(Str(name)), users, false).0 == Updated(name)
  {
    var id := session.value.user.id.value;
    var idx := IndexOfUser(users, id);
    assert idx.Some?;
    assert idx.value == k;
    assert !UsernameTakenByOther(users, k, name);
  }

  /** `POST /api/profile/update` against the user table; `userId` is reassigned
      when the session id has to be resolved through the email. */
  method HandleProfileUpdate(table: UserTable, session: Option<Session>, body: Option<JsonField>, dbFails: bool)
    returns (r: ProfileResponse)
    requires table.Valid()
    modifies table
    ensures table.Valid()
    ensures (r, table.rows) == PostProfile(session, body, old(table.rows), dbFails)
  {
    if !HasId(session) {
      return Unauthorized;
    }
    if body.None? {
      return ServerError;
    }
    if !IsNonEmptyString(body.value) {
      return InvalidUsername;
    }
    var userId := session.value.user.id.value;
    if !IsHex24(userId) {
      if !Truthy(session.value.user.email) {
        return UnknownUserId;
      }
      if dbFails {
        return ServerError;
      }
      var dbUser := FindUserByEmail(table.rows, session.value.user.email.value);
      if dbUser.None? {
        return UserNotInDatabase;
      }
      userId := dbUser.value.id;
    } else if dbFails {
      return ServerError;
    }
    var written := table.SetUsername(userId, body.value.text);
    match written
    case Written(row) =>
      r := Updated(row.username.value);
    case UniqueViolation =>
      r := UsernameTaken;
    case RecordNotFound =>
      r := ServerError;
  }
}
