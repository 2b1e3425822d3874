/** The chat list, `GET /api/chat/list`: a projection of the conversations that
    hold the caller, newest first, each with the other participant and a preview
    of the newest message exchanged with them. */
module ChatList {
  import opened Wrappers
  import opened Js
  import opened Auth
  import opened Seqs
  import opened Store

  datatype ChatListItem = ChatListItem(
    id: string,
    lastMessagePreview: string,
    otherUserId: string,
    otherUsername: string,
    otherImage: Option<string>)

  datatype ChatListResponse =
    | Unauthorized                  // 401
    | Items(items: seq<ChatListItem>) // 200
    | ServerError                   // 500

  predicate NewestFirst(s: seq<Conversation>) {
    forall i, j :: 0 <= i < j < |s| ==> s[i].createdAt >= s[j].createdAt
  }

  /** Put `c` before the first conversation that is not newer than it. */
  function InsertNewestFirst(c: Conversation, s: seq<Conversation>): (r: seq<Conversation>)
    requires NewestFirst(s)
    ensures NewestFirst(r) && multiset(r) == multiset(s) + multiset{c} && |r| == |s| + 1
    decreases |s|
  {
    if s == [] || c.createdAt >= s[0].createdAt then [c] + s
    else
      var rest := InsertNewestFirst(c, s[1..]);
      assert s == [s[0]] + s[1..];
      assert rest[0] in multiset(rest);
      [s[0]] + rest
  }

  /** `orderBy: { createdAt: "desc" }`, ties kept in stored order. */
  function SortNewestFirst(s: seq<Conversation>): (r: seq<Conversation>)
    ensures NewestFirst(r) && multiset(r) == multiset(s) && |r| == |s|
    decreases |s|
  {
    if s == [] then []
    else
      assert s == [s[0]] + s[1..];
      InsertNewestFirst(s[0], SortNewestFirst(s[1..]))
  }

  /** Filtering a newest-first list keeps it newest first. */
  lemma {:induction false} FilterKeepsNewestFirst(s: seq<Conversation>, keep: Conversation -> bool)
    requires NewestFirst(s)
    ensures NewestFirst(Filter(s, keep))
    decreases |s|
  {
    if s != [] {
      FilterKeepsNewestFirst(s[1..], keep);
      var rest := Filter(s[1..], keep);
      forall j | 0 <= j < |rest| ensures s[0].createdAt >= rest[j].createdAt {
        var k :| 0 <= k < |s[1..]| && s[1..][k] == rest[j];
        assert s[k + 1] == rest[j];
      }
    }
  }

  /** `conversation.findMany({ where: { participantIds: { has: me } }, orderBy: { createdAt: "desc" } })` */
  function ConversationsOf(convs: seq<Conversation>, me: string): (r: seq<Conversation>)
    ensures NewestFirst(r)
    ensures |r| <= |convs|
    ensures multiset(r) == multiset(Filter(convs, (c: Conversation) => me in c.participantIds))
  {
    SortNewestFirst(Filter(convs, (c: Conversation) => me in c.participantIds))
  }

  /** `participantIds.find((id) => id !== me)` */
  function OtherParticipant(c: Conversation, me: string): (r: Option<string>)
    ensures r.Some? ==> r.value in c.participantIds && r.value != me
    ensures r.None? <==> forall i :: 0 <= i < |c.participantIds| ==> c.participantIds[i] == me
    ensures r.Some? ==>
      exists k :: 0 <= k < |c.participantIds| && c.participantIds[k] == r.value && forall j :: 0 <= j < k ==> c.participantIds[j] == me
  {
    FirstOther(c.participantIds, me)
  }

  function FirstOther(ids: seq<string>, me: string): (r: Option<string>)
    ensures r.Some? ==> r.value in ids && r.value != me
    ensures r.None? <==> forall i :: 0 <= i < |ids| ==> ids[i] == me
    ensures r.Some? ==> exists k :: 0 <= k < |ids| && ids[k] == r.value && forall j :: 0 <= j < k ==> ids[j] == me
    decreases |ids|
  {
    if ids == [] then None
    else if ids[0] != me then Some(ids[0])
    else
      var r := FirstOther(ids[1..], me);
      if r.Some? then
        var k :| 0 <= k < |ids[1..]| && ids[1..][k] == r.value && forall j :: 0 <= j < k ==> ids[1..][j] == me;
        assert ids[k + 1] == r.value;
        assert forall j :: 0 <= j < k + 1 ==> ids[j] == me by {
          forall j | 0 <= j < k + 1 ensures ids[j] == me {
            if j > 0 { assert ids[j] == ids[1..][j - 1]; }
          }
        }
        r
      else r
  }

  /** A conversation that yields an item: its other participant is truthy. */
  predicate HasPartner(c: Conversation, me: string) {
    Truthy(OtherParticipant(c, me))
  }

  /** The conversations that yield items, in the order of the items. */
  function Listed(convs: seq<Conversation>, me: string): (r: seq<Conversation>)
    ensures NewestFirst(r)
    ensures |r| <= |convs|
    ensures forall i :: 0 <= i < |r| ==> r[i] in convs && me in r[i].participantIds && HasPartner(r[i], me)
    ensures forall i :: 0 <= i < |convs| && me in convs[i].participantIds && HasPartner(convs[i], me) ==> convs[i] in r
    ensures IsSubsequence(r, ConversationsOf(convs, me))
  {
    var mine := ConversationsOf(convs, me);
    FilterKeepsNewestFirst(mine, (c: Conversation) => HasPartner(c, me));
    var r := Filter(mine, (c: Conversation) => HasPartner(c, me));
    forall i | 0 <= i < |r| ensures r[i] in convs && me in r[i].participantIds {
      assert r[i] in multiset(mine);
    }
    forall i | 0 <= i < |convs| && me in convs[i].participantIds && HasPartner(convs[i], me)
      ensures convs[i] in r
    {
      assert convs[i] in multiset(Filter(convs, (c: Conversation) => me in c.participantIds));
      assert convs[i] in mine;
    }
    r
  }

  /** The item for a conversation with partner `partner`: the newest message's
      content, else the fallback; the partner's id, username and image with their
      fallbacks. */
  function ItemFor(c: Conversation, me: string, partner: string, users: seq<User>, messages: seq<Message>)
    : (r: ChatListItem)
    ensures r.id == c.id
    ensures var latest := LatestBetween(messages, me, partner);
      r.lastMessagePreview == if latest.Some? && latest.value.content != "" then latest.value.content
                              else StartChatText(FindUser(users, partner))
    ensures var other := FindUser(users, partner);
      && r.otherUserId == (if other.Some? then other.value.id else "")
      && r.otherUsername == (if other.Some? then Or(other.value.username, "Unknown User") else "Unknown User")
  {
    var other := FindUser(users, partner);
    var latest := LatestBetween(messages, me, partner);
    ChatListItem(
      c.id,
      if latest.Some? && latest.value.content != "" then latest.value.content else StartChatText(other),
      if other.Some? then Or(Some(other.value.id), "") else "",
      if other.Some? then Or(other.value.username, "Unknown User") else "Unknown User",
      if other.Some? then other.value.image else None)
  }

  /** `GET /api/chat/list`; `dbFails` makes the first database call throw. */
  function ListChats(session: Option<Session>, convs: seq<Conversation>, users: seq<User>,
                     messages: seq<Message>, dbFails: bool): (r: ChatListResponse)
    ensures r.Unauthorized? <==> !HasId(session)
    ensures r.ServerError? <==> HasId(session) && dbFails
    ensures r.Items? ==>
      var listed := Listed(convs, session.value.user.id.value);
      && |r.items| == |listed| <= |convs|
      && forall i :: 0 <= i < |r.items| ==> r.items[i].id == listed[i].id
    ensures r.Items? ==>
      var me := session.value.user.id.value;
      var listed := Listed(convs, me);
      forall i :: 0 <= i < |r.items| ==>
        r.items[i] == ItemFor(listed[i], me, OtherParticipant(listed[i], me).value, users, messages)
  {
    if !HasId(session) then Unauthorized
    else if dbFails then ServerError
    else
      var me := session.value.user.id.value;
      var listed := Listed(convs, me);
      Items(seq(|listed|, i requires 0 <= i < |listed| =>
        ItemFor(listed[i], me, OtherParticipant(listed[i], me).value, users, messages)))
  }

  /** Every listed conversation holds the caller and someone else, the items
      follow the conversations newest first, and every conversation of the caller
      with a partner is listed. */
  lemma ListedConversations(session: Option<Session>, convs: seq<Conversation>, users: seq<User>,
                            messages: seq<Message>)
    requires HasId(session)
    ensures var r := ListChats(session, convs, users, messages, false);
      var me := session.value.user.id.value;
      && r.Items?
      && (forall i :: 0 <= i < |r.items| ==>
            exists k :: 0 <= k < |convs| && convs[k].id == r.items[i].id
                        && me in convs[k].participantIds && HasPartner(convs[k], me))
      && (forall i, j :: 0 <= i < j < |r.items| ==> Listed(convs, me)[i].createdAt >= Listed(convs, me)[j].createdAt)
  {
    var me := session.value.user.id.value;
    var r := ListChats(session, convs, users, messages, false);
    var listed := Listed(convs, me);
    forall i | 0 <= i < |r.items|
      ensures exists k :: 0 <= k < |convs| && convs[k].id == r.items[i].id
                          && me in convs[k].participantIds && HasPartner(convs[k], me)
    {
      var k :| 0 <= k < |convs| && convs[k] == listed[i];
      assert convs[k].id == r.items[i].id;
    }
  }

  /** The preview is the content of the newest message exchanged with the partner,
      in either direction, unless there is none or it is empty; then it is the
      "Start chat with ..." fallback. */
  lemma PreviewIsNewestMessage(session: Option<Session>, convs: seq<Conversation>, users: seq<User>,
                               messages: seq<Message>, i: nat)
    requires HasId(session)
    requires i < |Listed(convs, session.value.user.id.value)|
    ensures var r := ListChats(session, convs, users, messages, false);
      var me := session.value.user.id.value;
      var c := Listed(convs, me)[i];
      var partner := OtherParticipant(c, me).value;
      var latest := LatestBetween(messages, me, partner);
      && i < |r.items|
      && (latest.Some? && latest.value.content != "" ==>
            && r.items[i].lastMessagePreview == latest.value.content
            && latest.value in messages && Between(latest.value, me, partner)
            && forall k :: 0 <= k < |messages| && Between(messages[k], me, partner) ==>
                 messages[k].createdAt <= latest.value.createdAt)
      && (!(latest.Some? && latest.value.content != "") ==>
            r.items[i].lastMessagePreview == StartChatText(FindUser(users, partner)))
      && ((forall k :: 0 <= k < |messages| ==> !Between(messages[k], me, partner)) ==>
            r.items[i].lastMessagePreview == StartChatText(FindUser(users, partner)))
  {
  }
}
