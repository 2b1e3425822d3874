/** The database the route handlers query through Prisma, as in-memory tables.
    Each table keeps its rows in insertion order (the order `findMany` and
    `findFirst` see without `orderBy`); the unique indices of the schema (user id,
    email and username; conversation id) are enforced by the writes, which report
    a violation the way Prisma reports error P2002. */
module Store {
  import opened Wrappers
  import opened Js

  /** What `bcrypt.hash(password, saltRounds)` returns, kept as a symbolic term:
      a stored password is always one of these, never the plaintext string. */
  datatype PasswordHash = Bcrypt(password: string, saltRounds: nat)

  datatype User = User(
    id: string,
    email: Option<string>,
    password: Option<PasswordHash>,
    username: Option<string>,
    image: Option<string>)

  datatype Conversation = Conversation(id: string, participantIds: seq<string>, createdAt: int)

  datatype Message = Message(id: string, fromUserId: string, toUserId: string, content: string, createdAt: int)

  /** The outcome of a write: the row written, a unique-index violation (P2002)
      or no record to update (P2025). */
  datatype WriteResult<T> = Written(row: T) | UniqueViolation | RecordNotFound

  // ---------------------------------------------------------------------
  // Users

  predicate UniqueUserIds(users: seq<User>) {
    forall i, j :: 0 <= i < j < |users| ==> users[i].id != users[j].id
  }

  predicate UniqueEmails(users: seq<User>) {
    forall i, j :: 0 <= i < j < |users| && users[i].email.Some? ==> users[i].email != users[j].email
  }

  predicate UniqueUsernames(users: seq<User>) {
    forall i, j :: 0 <= i < j < |users| && users[i].username.Some? ==> users[i].username != users[j].username
  }

  /** The unique indices of the user table hold. */
  predicate UsersValid(users: seq<User>) {
    UniqueUserIds(users) && UniqueEmails(users) && UniqueUsernames(users)
  }

  /** The position of the user with this id (`where: { id }`). */
  function IndexOfUser(users: seq<User>, id: string): (r: Option<nat>)
    ensures r.Some? ==> r.value < |users| && users[r.value].id == id
    ensures r.None? ==> forall i :: 0 <= i < |users| ==> users[i].id != id
    decreases |users|
  {
    if users == [] then None
    else if users[0].id == id then Some(0)
    else
      var r := IndexOfUser(users[1..], id);
      if r.Some? then Some(r.value + 1) else None
  }

  /** `user.findFirst({ where: { id } })` */
  function FindUser(users: seq<User>, id: string): (r: Option<User>)
    ensures r.Some? ==> r.value in users && r.value.id == id
    ensures r.None? ==> forall i :: 0 <= i < |users| ==> users[i].id != id
  {
    var k := IndexOfUser(users, id);
    if k.Some? then Some(users[k.value]) else None
  }

  /** `user.findUnique({ where: { email } })` */
  function FindUserByEmail(users: seq<User>, email: string): (r: Option<User>)
    ensures r.Some? ==> r.value in users && r.value.email == Some(email)
    ensures r.None? ==> forall i :: 0 <= i < |users| ==> users[i].email != Some(email)
    decreases |users|
  {
    if users == [] then None
    else if users[0].email == Some(email) then Some(users[0])
    else FindUserByEmail(users[1..], email)
  }

  /** Storing `u` would repeat a unique value already stored. */
  predicate ClashesWith(users: seq<User>, u: User) {
    exists i :: 0 <= i < |users| &&
      (users[i].id == u.id
       || (u.email.Some? && users[i].email == u.email)
       || (u.username.Some? && users[i].username == u.username))
  }

  /** `user.create({ data: u })` on the rows `users`: the result and the new rows. */
  function InsertUser(users: seq<User>, u: User): (r: (WriteResult<User>, seq<User>))
    ensures r.0.Written? <==> !ClashesWith(users, u)
    ensures r.0.Written? ==> r.0.row == u && r.1 == users + [u]
    ensures !r.0.Written? ==> r.0.UniqueViolation? && r.1 == users
    ensures UsersValid(users) ==> UsersValid(r.1)
  {
    if ClashesWith(users, u) then (UniqueViolation, users) else (Written(u), users + [u])
  }

  /** Another row than the one at `k` already has this username. */
  predicate UsernameTakenByOther(users: seq<User>, k: nat, name: string) {
    exists j :: 0 <= j < |users| && j != k && users[j].username == Some(name)
  }

  /** `user.update({ where: { id }, data: { username: name } })` on the rows `users`. */
  function UpdateUsername(users: seq<User>, id: string, name: string): (r: (WriteResult<User>, seq<User>))
    ensures r.0.RecordNotFound? <==> FindUser(users, id).None?
    ensures r.0.UniqueViolation? <==>
      IndexOfUser(users, id).Some? && UsernameTakenByOther(users, IndexOfUser(users, id).value, name)
    ensures r.0.Written? ==>
      && |r.1| == |users|
      && r.0.row == FindUser(users, id).value.(username := Some(name))
      && r.0.row in r.1
      && forall i :: 0 <= i < |users| && users[i].id != id ==> r.1[i] == users[i]
    ensures !r.0.Written? ==> r.1 == users
  {
    var k := IndexOfUser(users, id);
    if k.None? then (RecordNotFound, users)
    else if UsernameTakenByOther(users, k.value, name) then (UniqueViolation, users)
    else
      var row := users[k.value].(username := Some(name));
      var rows := users[k.value := row];
      assert rows[k.value] == row;
      (Written(row), rows)
  }

  /** An update of one username keeps the unique indices. */
  lemma UpdateUsernameKeepsValid(users: seq<User>, id: string, name: string)
    requires UsersValid(users)
    ensures UsersValid(UpdateUsername(users, id, name).1)
  {
    var k := IndexOfUser(users, id);
    if k.Some? && !UsernameTakenByOther(users, k.value, name) {
      var rows := UpdateUsername(users, id, name).1;
      forall i, j | 0 <= i < j < |rows| && rows[i].username.Some?
        ensures rows[i].username != rows[j].username
      {
        if i != k.value && j != k.value {
          assert rows[i] == users[i] && rows[j] == users[j];
        } else if i == k.value {
          assert rows[j] == users[j];
        } else {
          assert rows[i] == users[i];
        }
      }
    }
  }

  class UserTable {
    var rows: seq<User>

    ghost predicate Valid()
      reads this
    {
      UsersValid(rows)
    }

    constructor ()
      ensures Valid() && rows == []
    {
      rows := [];
    }

    /** `user.create` */
    method Create(u: User) returns (r: WriteResult<User>)
      requires Valid()
      modifies this
      ensures Valid()
      ensures (r, rows) == InsertUser(old(rows), u)
    {
      var i := 0;
      while i < |rows|
        invariant 0 <= i <= |rows|
        invariant forall j :: 0 <= j < i ==>
          !(rows[j].id == u.id
            || (u.email.Some? && rows[j].email == u.email)
            || (u.username.Some? && rows[j].username == u.username))
      {
        if rows[i].id == u.id
           || (u.email.Some? && rows[i].email == u.email)
           || (u.username.Some? && rows[i].username == u.username)
        {
          return UniqueViolation;
        }
        i := i + 1;
      }
      rows := rows + [u];
      r := Written(u);
    }

    /** `user.update({ where: { id }, data: { username: name } })` */
    method SetUsername(id: string, name: string) returns (r: WriteResult<User>)
      requires Valid()
      modifies this
      ensures Valid()
      ensures (r, rows) == UpdateUsername(old(rows), id, name)
    {
      UpdateUsernameKeepsValid(rows, id, name);
      var k := IndexOfUser(rows, id);
      if k.None? {
        return RecordNotFound;
      }
      if UsernameTakenByOther(rows, k.value, name) {
        return UniqueViolation;
      }
      var row := rows[k.value].(username := Some(name));
      rows := rows[k.value := row];
      r := Written(row);
    }
  }

  // ---------------------------------------------------------------------
  // Conversations

  predicate UniqueConversationIds(convs: seq<Conversation>) {
    forall i, j :: 0 <= i < j < |convs| ==> convs[i].id != convs[j].id
  }

  /** `conversation.create({ data: c })` on the rows `convs`. */
  function InsertConversation(convs: seq<Conversation>, c: Conversation): (r: (WriteResult<Conversation>, seq<Conversation>))
    ensures r.0.Written? <==> forall i :: 0 <= i < |convs| ==> convs[i].id != c.id
    ensures r.0.Written? ==> r.0.row == c && r.1 == convs + [c]
    ensures !r.0.Written? ==> r.0.UniqueViolation? && r.1 == convs
    ensures UniqueConversationIds(convs) ==> UniqueConversationIds(r.1)
  {
    if exists i :: 0 <= i < |convs| && convs[i].id == c.id then (UniqueViolation, convs)
    else (Written(c), convs + [c])
  }

  class ConversationTable {
    var rows: seq<Conversation>

    ghost predicate Valid()
      reads this
    {
      UniqueConversationIds(rows)
    }

    constructor ()
      ensures Valid() && rows == []
    {
      rows := [];
    }

    /** `conversation.create` */
    method Create(c: Conversation) returns (r: WriteResult<Conversation>)
      requires Valid()
      modifies this
      ensures Valid()
      ensures (r, rows) == InsertConversation(old(rows), c)
    {
      var i := 0;
      while i < |rows|
        invariant 0 <= i <= |rows|
        invariant forall j :: 0 <= j < i ==> rows[j].id != c.id
      {
        if rows[i].id == c.id {
          return UniqueViolation;
        }
        i := i + 1;
      }
      rows := rows + [c];
      r := Written(c);
    }
  }

  // ---------------------------------------------------------------------
  // Messages

  /** `m` was sent from `a` to `b` or from `b` to `a`. */
  predicate Between(m: Message, a: string, b: string) {
    (m.fromUserId == a && m.toUserId == b) || (m.fromUserId == b && m.toUserId == a)
  }

  /** `message.findFirst({ where: { OR: [a to b, b to a] }, orderBy: { createdAt: "desc" } })`:
      the newest message exchanged between `a` and `b`; of equally new ones, the
      first stored. */
  function LatestBetween(messages: seq<Message>, a: string, b: string): (r: Option<Message>)
    ensures r.Some? ==> r.value in messages && Between(r.value, a, b)
    ensures r.Some? ==> forall i :: 0 <= i < |messages| && Between(messages[i], a, b) ==>
      messages[i].createdAt <= r.value.createdAt
    ensures r.None? <==> forall i :: 0 <= i < |messages| ==> !Between(messages[i], a, b)
    decreases |messages|
  {
    if messages == [] then None
    else
      var rest := LatestBetween(messages[1..], a, b);
      if !Between(messages[0], a, b) then rest
      else if rest.Some? && rest.value.createdAt > messages[0].createdAt then rest
      else Some(messages[0])
  }

  /** The fallback preview "Start chat with ${user?.username}": a missing user
      prints as `undefined`, a user without a username as `null`. */
  function StartChatText(user: Option<User>): string {
    "Start chat with " + (if user.None? then "undefined"
                         else if user.value.username.None? then "null"
                         else user.value.username.value)
  }

  /** The conversation is symmetric in its two parties. */
  lemma {:induction false} LatestBetweenSymmetric(messages: seq<Message>, a: string, b: string)
    ensures LatestBetween(messages, a, b) == LatestBetween(messages, b, a)
    decreases |messages|
  {
    if messages != [] {
      LatestBetweenSymmetric(messages[1..], a, b);
    }
  }
}
