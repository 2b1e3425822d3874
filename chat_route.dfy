/** Conversation find-or-create, `POST /api/chat`: a status-code ladder, then the
    two ids put in default sort order, then a lookup of a conversation holding
    both and, when there is none, the creation of one. */
module ChatRoute {
  import opened Wrappers
  import opened Js
  import opened Auth
  import opened Store

  /** The JSON body `{ userId1, userId2 }`. */
  datatype ChatBody = ChatBody(userId1: JsonField, userId2: JsonField)

  datatype OtherUser = OtherUser(id: string, username: Option<string>, image: Option<string>)

  /** `lastMessagePreview` of an existing conversation: the newest message itself
      (the selected object `{ content }`, not its text) when there is one, else a
      "Start chat with ..." string. */
  datatype Preview = LatestMessage(content: string) | StartChat(text: string)

  datatype ChatResponse =
    | Unauthorized   // 401 "Unauthorized"
    | IdsDoNotMatch  // 403 "User IDs do not match session."
    | MissingIds     // 400 "Missing user IDs."
    | SelfChat       // 400 "Cannot create chat with self."
    | Existing(id: string, lastMessagePreview: Preview, otherUser: Option<OtherUser>)  // 200
    | Created(conversation: Conversation)  // 201
    | ServerError    // 500

  function StatusCode(r: ChatResponse): int {
    match r
    case Unauthorized => 401
    case IdsDoNotMatch => 403
    case MissingIds => 400
    case SelfChat => 400
    case Existing(_, _, _) => 200
    case Created(_) => 201
    case ServerError => 500
  }

  /** `[a, b].sort()` with the default comparison: the pair in ascending order. */
  function SortPair(a: string, b: string): (r: seq<string>)
    ensures |r| == 2 && multiset(r) == multiset{a, b}
    ensures !LexLess(r[1], r[0])
  {
    LexLessAsymmetric(a, b);
    if LexLess(b, a) then [b, a] else [a, b]
  }

  /** Canonicalisation: both orders of a pair give the same participant list. */
  lemma SortPairSymmetric(a: string, b: string)
    ensures SortPair(a, b) == SortPair(b, a)
  {
    LexLessTotal(a, b);
    LexLessAsymmetric(a, b);
  }

  /** `participantIds: { hasEvery: [a, b] }` */
  predicate HasBoth(c: Conversation, a: string, b: string) {
    a in c.participantIds && b in c.participantIds
  }

  /** `conversation.findFirst` for a conversation holding both ids. */
  function FindConversationWith(convs: seq<Conversation>, a: string, b: string): (r: Option<nat>)
    ensures r.Some? ==> r.value < |convs| && HasBoth(convs[r.value], a, b)
    ensures r.Some? ==> forall i :: 0 <= i < r.value ==> !HasBoth(convs[i], a, b)
    ensures r.None? <==> forall i :: 0 <= i < |convs| ==> !HasBoth(convs[i], a, b)
    decreases |convs|
  {
    if convs == [] then None
    else if HasBoth(convs[0], a, b) then Some(0)
    else
      var r := FindConversationWith(convs[1..], a, b);
      if r.Some? then Some(r.value + 1) else None
  }

  /** The session id, which the first check has made truthy. */
  function SessionId(s: Option<Session>): string
    requires HasId(s)
  {
    s.value.user.id.value
  }

  /** The ladder before the database: `None` when the request passes it. Bodies
      that are not JSON make `req.json()` throw outside the `try`, which the
      framework answers with 500. */
  function Reject(session: Option<Session>, body: Option<ChatBody>): (r: Option<ChatResponse>)
    ensures r == Some(Unauthorized) <==> !HasId(session)
    ensures r == Some(IdsDoNotMatch) <==>
      HasId(session) && body.Some?
      && body.value.userId1 != Str(SessionId(session)) && body.value.userId2 != Str(SessionId(session))
    ensures r == Some(MissingIds) <==>
      HasId(session) && body.Some?
      && (body.value.userId1 == Str(SessionId(session)) || body.value.userId2 == Str(SessionId(session)))
      && (Falsy(body.value.userId1) || Falsy(body.value.userId2))
    ensures r == Some(SelfChat) <==>
      HasId(session) && body.Some?
      && (body.value.userId1 == Str(SessionId(session)) || body.value.userId2 == Str(SessionId(session)))
      && !Falsy(body.value.userId1) && !Falsy(body.value.userId2)
      && body.value.userId1 == body.value.userId2
    ensures r == Some(ServerError) <==>
      HasId(session)
      && (body.None? ||
          (&& (body.value.userId1 == Str(SessionId(session)) || body.value.userId2 == Str(SessionId(session)))
           && !Falsy(body.value.userId1) && !Falsy(body.value.userId2)
           && body.value.userId1 != body.value.userId2
           && (!body.value.userId1.Str? || !body.value.userId2.Str?)))
    ensures r.Some? ==> !r.value.Existing? && !r.value.Created?
    ensures r.None? <==>
      HasId(session) && body.Some?
      && IsNonEmptyString(body.value.userId1) && IsNonEmptyString(body.value.userId2)
      && body.value.userId1 != body.value.userId2
      && SessionId(session) in {body.value.userId1.text, body.value.userId2.text}
  {
    if !HasId(session) then Some(Unauthorized)
    else if body.None? then Some(ServerError)
    else
      var id1, id2, me := body.value.userId1, body.value.userId2, Str(SessionId(session));
      if id1 != me && id2 != me then Some(IdsDoNotMatch)
      else if Falsy(id1) || Falsy(id2) then Some(MissingIds)
      // one id is the session's string here, so `===` is equality of the two fields
      else if id1 == id2 then Some(SelfChat)
      // a truthy non-string id cannot be stored in the String[] column: Prisma throws
      else if !id1.Str? || !id2.Str? then Some(ServerError)
      else None
  }

  /** The `data` answered for an existing conversation. */
  function ExistingData(conv: Conversation, pair: seq<string>, users: seq<User>, messages: seq<Message>): ChatResponse
    requires |pair| == 2
  {
    var latest := LatestBetween(messages, pair[0], pair[1]);
    var second := FindUser(users, pair[0]);
    Existing(
      conv.id,
      if latest.Some? then LatestMessage(latest.value.content) else StartChat(StartChatText(second)),
      if second.Some? then Some(OtherUser(second.value.id, second.value.username, second.value.image)) else None)
  }

  /** `POST /api/chat` on the conversation rows `convs`: the response and the new
      rows. `newId` and `now` are the id and creation time the database would give
      a new conversation; `dbFails` makes the first database call throw. */
  function PostChat(session: Option<Session>, body: Option<ChatBody>, convs: seq<Conversation>,
                    users: seq<User>, messages: seq<Message>, newId: string, now: int, dbFails: bool)
    : (r: (ChatResponse, seq<Conversation>))
    ensures Reject(session, body).Some? ==> r.0 == Reject(session, body).value
    ensures r.0.Existing? || r.0.Created? ==> Reject(session, body).None? && !dbFails
    ensures !r.0.Created? ==> r.1 == convs
    ensures r.0.Created? ==>
      && r.1 == convs + [r.0.conversation]
      && r.0.conversation == Conversation(newId, SortPair(body.value.userId1.text, body.value.userId2.text), now)
    ensures r.0.Existing? ==>
      var pair := SortPair(body.value.userId1.text, body.value.userId2.text);
      var k := FindConversationWith(convs, pair[0], pair[1]);
      k.Some? && r.0.id == convs[k.value].id
    ensures r.0.Created? ==>
      FindConversationWith(convs, body.value.userId1.text, body.value.userId2.text).None?
      && forall c :: c in convs ==> c.id != newId
    ensures Reject(session, body).None? && dbFails ==> r.0 == ServerError
    ensures Reject(session, body).None? && !dbFails ==>
      var pair := SortPair(body.value.userId1.text, body.value.userId2.text);
      (r.0.Existing? <==> FindConversationWith(convs, pair[0], pair[1]).Some?)
    ensures Reject(session, body).None? && !dbFails ==>
      var pair := SortPair(body.value.userId1.text, body.value.userId2.text);
      FindConversationWith(convs, pair[0], pair[1]).None? && (forall c :: c in convs ==> c.id != newId)
      ==> r.0.Created?
  {
    var rejected := Reject(session, body);
    if rejected.Some? then (rejected.value, convs)
    else if dbFails then (ServerError, convs)
    else
      var pair := SortPair(body.value.userId1.text, body.value.userId2.text);
      FindBothOrders(convs, pair[0], pair[1]);
      var found := FindConversationWith(convs, pair[0], pair[1]);
      if found.Some? then (ExistingData(convs[found.value], pair, users, messages), convs)
      else
        var (written, rows) := InsertConversation(convs, Conversation(newId, pair, now));
        if written.Written? then (Created(written.row), rows) else (ServerError, convs)
  }

  /** The lookup does not depend on the order of the two ids. */
  lemma FindBothOrders(convs: seq<Conversation>, a: string, b: string)
    ensures FindConversationWith(convs, a, b) == FindConversationWith(convs, b, a)
    ensures forall x, y :: {x, y} == {a, b} ==> FindConversationWith(convs, x, y) == FindConversationWith(convs, a, b)
  {
    forall x, y | {x, y} == {a, b}
      ensures FindConversationWith(convs, x, y) == FindConversationWith(convs, a, b)
    {
      FindSameSet(convs, x, y, a, b);
    }
    FindSameSet(convs, a, b, b, a);
  }

  lemma {:induction false} FindSameSet(convs: seq<Conversation>, a: string, b: string, x: string, y: string)
    requires {x, y} == {a, b}
    ensures FindConversationWith(convs, x, y) == FindConversationWith(convs, a, b)
    decreases |convs|
  {
    assert x in {a, b} && y in {a, b} && a in {x, y} && b in {x, y};
    if convs != [] {
      FindSameSet(convs[1..], a, b, x, y);
    }
  }

  /** Swapping `userId1` and `userId2` changes neither the response nor the store. */
  lemma PostChatSymmetric(session: Option<Session>, id1: JsonField, id2: JsonField, convs: seq<Conversation>,
                          users: seq<User>, messages: seq<Message>, newId: string, now: int, dbFails: bool)
    ensures PostChat(session, Some(ChatBody(id1, id2)), convs, users, messages, newId, now, dbFails)
         == PostChat(session, Some(ChatBody(id2, id1)), convs, users, messages, newId, now, dbFails)
  {
    var b, b' := Some(ChatBody(id1, id2)), Some(ChatBody(id2, id1));
    assert Reject(session, b) == Reject(session, b');
    if Reject(session, b).None? && !dbFails {
      SortPairSymmetric(id1.text, id2.text);
    }
  }

  /** Sequential idempotence: once a request has created a conversation, repeating
      it finds that conversation (200 with its id) and creates nothing. */
  lemma PostChatIdempotent(session: Option<Session>, body: Option<ChatBody>, convs: seq<Conversation>,
                           users: seq<User>, messages: seq<Message>, newId: string, now: int,
                           newId2: string, now2: int)
    requires PostChat(session, body, convs, users, messages, newId, now, false).0.Created?
    ensures var (first, rows) := PostChat(session, body, convs, users, messages, newId, now, false);
      var (second, rows2) := PostChat(session, body, rows, users, messages, newId2, now2, false);
      second.Existing? && second.id == first.conversation.id && rows2 == rows
  {
    var (first, rows) := PostChat(session, body, convs, users, messages, newId, now, false);
    var pair := SortPair(body.value.userId1.text, body.value.userId2.text);
    assert multiset(pair) == multiset{body.value.userId1.text, body.value.userId2.text};
    assert pair[0] in multiset(pair) && pair[1] in multiset(pair);
    FindBothOrders(convs, pair[0], pair[1]);
    assert FindConversationWith(convs, pair[0], pair[1]).None?;
    FindAfterAppend(convs, first.conversation, pair[0], pair[1]);
  }

  /** After appending a conversation holding `a` and `b` to rows that held none, the
      lookup finds the appended one. */
  lemma {:induction false} FindAfterAppend(convs: seq<Conversation>, c: Conversation, a: string, b: string)
    requires FindConversationWith(convs, a, b).None?
    requires HasBoth(c, a, b)
    ensures FindConversationWith(convs + [c], a, b) == Some(|convs|)
    decreases |convs|
  {
    var all := convs + [c];
    if convs == [] {
      assert all == [c];
    } else {
      assert all[0] == convs[0] && !HasBoth(convs[0], a, b);
      assert all[1..] == convs[1..] + [c];
      assert FindConversationWith(convs[1..], a, b).None? by {
        forall i | 0 <= i < |convs[1..]| ensures !HasBoth(convs[1..][i], a, b) {
          assert convs[1..][i] == convs[i + 1];
        }
      }
      FindAfterAppend(convs[1..], c, a, b);
      assert FindConversationWith(all, a, b) == Some(FindConversationWith(all[1..], a, b).value + 1);
    }
  }

  /** For an existing conversation, `otherUser` is the user whose id sorts first,
      which is the caller whenever the caller's id sorts first. */
  lemma OtherUserIsFirstSorted(session: Option<Session>, body: Option<ChatBody>, convs: seq<Conversation>,
                               users: seq<User>, messages: seq<Message>, newId: string, now: int)
    requires PostChat(session, body, convs, users, messages, newId, now, false).0.Existing?
    ensures var r := PostChat(session, body, convs, users, messages, newId, now, false).0;
      var pair := SortPair(body.value.userId1.text, body.value.userId2.text);
      && (r.otherUser.Some? <==> FindUser(users, pair[0]).Some?)
      && (r.otherUser.Some? ==>
            var u := FindUser(users, pair[0]).value;
            r.otherUser.value == OtherUser(u.id, u.username, u.image) && u.id == pair[0])
  {
  }

  /** The conversation `POST /api/chat` handler against the conversation table. */
  method HandlePost(table: ConversationTable, session: Option<Session>, body: Option<ChatBody>,
                    users: seq<User>, messages: seq<Message>, newId: string, now: int, dbFails: bool)
    returns (r: ChatResponse)
    requires table.Valid()
    modifies table
    ensures table.Valid()
    ensures (r, table.rows) == PostChat(session, body, old(table.rows), users, messages, newId, now, dbFails)
  {
    var rejected := Reject(session, body);
    if rejected.Some? {
      return rejected.value;
    }
    if dbFails {
      return ServerError;
    }
    var pair := SortPair(body.value.userId1.text, body.value.userId2.text);
    FindBothOrders(table.rows, pair[0], pair[1]);
    var found := FindConversationWith(table.rows, pair[0], pair[1]);
    if found.Some? {
      return ExistingData(table.rows[found.value], pair, users, messages);
    }
    var written := table.Create(Conversation(newId, pair, now));
    if written.Written? {
      r := Created(written.row);
    } else {
      r := ServerError;
    }
  }
}
