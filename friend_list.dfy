/** The friend list panel: the relations fetched from `/api/friends`, their
    split into incoming requests, accepted friends and sent requests, and the
    accept/reject buttons. */
module FriendList {
  import opened Wrappers
  import opened Js
  import opened Seqs

  datatype FriendStatus = Pending | Accepted | Rejected | Blocked

  datatype FriendRelation = FriendRelation(
    id: string, peerId: string, username: string,
    status: FriendStatus, isRequestToYou: bool, createdAt: string)

  predicate IsAccepted(r: FriendRelation) { r.status == Accepted }
  predicate IsIncoming(r: FriendRelation) { r.isRequestToYou }
  predicate IsSent(r: FriendRelation) { r.status == Pending && !r.isRequestToYou }

  /** `relations.filter((r) => r.status === "ACCEPTED")` */
  function AcceptedFriends(relations: seq<FriendRelation>): seq<FriendRelation> {
    Filter(relations, IsAccepted)
  }

  /** `relations.filter((r) => r.isRequestToYou)`, whatever the status. */
  function IncomingRequests(relations: seq<FriendRelation>): seq<FriendRelation> {
    Filter(relations, IsIncoming)
  }

  /** `relations.filter((r) => r.status === "PENDING" && !r.isRequestToYou)` */
  function SentRequests(relations: seq<FriendRelation>): seq<FriendRelation> {
    Filter(relations, IsSent)
  }

  /** Each list holds exactly the relations its test accepts, in the order of
      `relations`. */
  lemma ListsAreExactFilters(relations: seq<FriendRelation>, r: FriendRelation)
    requires r in relations
    ensures r in AcceptedFriends(relations) <==> r.status == Accepted
    ensures r in IncomingRequests(relations) <==> r.isRequestToYou
    ensures r in SentRequests(relations) <==> r.status == Pending && !r.isRequestToYou
    ensures IsSubsequence(AcceptedFriends(relations), relations)
    ensures IsSubsequence(IncomingRequests(relations), relations)
    ensures IsSubsequence(SentRequests(relations), relations)
  {
    var k :| 0 <= k < |relations| && relations[k] == r;
    var a, inc, sent := AcceptedFriends(relations), IncomingRequests(relations), SentRequests(relations);
    if r in a {
      var i :| 0 <= i < |a| && a[i] == r;
    }
    if r in inc {
      var i :| 0 <= i < |inc| && inc[i] == r;
    }
    if r in sent {
      var i :| 0 <= i < |sent| && sent[i] == r;
    }
  }

  /** Incoming and sent requests share no relation, and every pending relation is
      in exactly one of them. */
  lemma IncomingAndSentPartitionPending(relations: seq<FriendRelation>)
    ensures forall i, j :: 0 <= i < |IncomingRequests(relations)| && 0 <= j < |SentRequests(relations)| ==>
      IncomingRequests(relations)[i] != SentRequests(relations)[j]
    ensures forall k :: 0 <= k < |relations| && relations[k].status == Pending ==>
      (relations[k] in IncomingRequests(relations) <==> relations[k] !in SentRequests(relations))
  {
    forall k | 0 <= k < |relations| && relations[k].status == Pending
      ensures relations[k] in IncomingRequests(relations) <==> relations[k] !in SentRequests(relations)
    {
      ListsAreExactFilters(relations, relations[k]);
    }
  }

  /** The two request counts shown add up to the number of relations that are
      incoming or pending. */
  lemma {:induction false} RequestCountsAddUp(relations: seq<FriendRelation>)
    ensures |IncomingRequests(relations)| + |SentRequests(relations)|
      == Count(relations, r => IsIncoming(r) || r.status == Pending)
    decreases |relations|
  {
    FilterLength(relations, IsIncoming);
    FilterLength(relations, IsSent);
    CountSplit(relations);
  }

  lemma {:induction false} CountSplit(relations: seq<FriendRelation>)
    ensures Count(relations, IsIncoming) + Count(relations, IsSent)
      == Count(relations, r => IsIncoming(r) || r.status == Pending)
    decreases |relations|
  {
    if relations != [] {
      CountSplit(relations[1..]);
    }
  }

  /** An accepted relation that is still marked as a request to you is listed
      both as an incoming request and as a friend. */
  lemma IncomingAcceptedShownTwice(relations: seq<FriendRelation>, r: FriendRelation)
    requires r in relations && r.status == Accepted && r.isRequestToYou
    ensures r in IncomingRequests(relations) && r in AcceptedFriends(relations)
  {
    ListsAreExactFilters(relations, r);
  }

  /** What the panel renders. */
  datatype PanelView =
    | Loading                   // "Loading friends..."
    | ErrorView(message: string)
    | Lists(incoming: seq<FriendRelation>, accepted: seq<FriendRelation>, sent: seq<FriendRelation>)

  /** The outcome of `fetch("/api/friends")`: it threw (the fetch, or parsing the
      body), or it replied with `res.ok`, the body's `ok`, `error` and `data`. */
  datatype FetchReply =
    | FetchThrew
    | FetchReplied(resOk: bool, dataOk: bool, error: Option<string>, data: seq<FriendRelation>)

  /** The outcome of `POST /api/friends/respond`: it threw, or it replied with
      `res.ok` and, when not ok, the body's `error` (`None`: undefined). */
  datatype RespondReply = RespondThrew | Responded(ok: bool, error: Option<string>)

  datatype Action = Accept | Reject

  function ActionName(a: Action): string {
    match a
    case Accept => "accept"
    case Reject => "reject"
  }

  /** `` `Failed to ${action.toLowerCase()} request: ${data.error}` `` */
  function FailureAlert(a: Action, error: Option<string>): (s: string)
    ensures s == "Failed to " + ActionName(a) + " request: " + (if error.Some? then error.value else "undefined")
  {
    "Failed to " + ActionName(a) + " request: " + error.GetOr("undefined")
  }

  const FetchFailedMessage := "Failed to fetch friend list."
  const FetchThrewMessage := "An unexpected error occurred while fetching friends."
  const RespondThrewAlert := "An error occurred while responding to the request."

  class Panel {
    var relations: seq<FriendRelation>
    var isLoading: bool
    var error: string
    /** The alerts shown, in order. */
    var alerts: seq<string>
    /** The `{ friendId, action }` bodies posted to `/api/friends/respond`. */
    var responses: seq<(string, Action)>

    /** The component's render. */
    function View(): (v: PanelView)
      reads this
      ensures v.Loading? <==> isLoading
      ensures v.ErrorView? <==> !isLoading && error != ""
      ensures v.Lists? ==> v == Lists(IncomingRequests(relations), AcceptedFriends(relations), SentRequests(relations))
    {
      if isLoading then Loading
      else if error != "" then ErrorView(error)
      else Lists(IncomingRequests(relations), AcceptedFriends(relations), SentRequests(relations))
    }

    /** The first render, before the mount effect's fetch completes. */
    constructor()
      ensures relations == [] && isLoading && error == "" && alerts == [] && responses == []
      ensures View() == Loading
    {
      relations := [];
      isLoading := true;
      error := "";
      alerts := [];
      responses := [];
    }

    /** `fetchFriends`, run to completion with the request's outcome `reply`. */
    method FetchFriends(reply: FetchReply)
      modifies this
      ensures !isLoading && alerts == old(alerts) && responses == old(responses)
      ensures reply.FetchThrew? ==> error == FetchThrewMessage && relations == old(relations)
      ensures reply.FetchReplied? && !(reply.resOk && reply.dataOk) ==>
        error == Or(reply.error, FetchFailedMessage) && relations == []
      ensures reply.FetchReplied? && reply.resOk && reply.dataOk ==>
        && error == "" && relations == reply.data
        && View() == Lists(IncomingRequests(reply.data), AcceptedFriends(reply.data), SentRequests(reply.data))
      ensures View().ErrorView? <==> !(reply.FetchReplied? && reply.resOk && reply.dataOk)
    {
      isLoading := true;
      error := "";
      match reply {
        case FetchThrew =>
          error := FetchThrewMessage;
        case FetchReplied(resOk, dataOk, err, data) =>
          if !resOk || !dataOk {
            error := Or(err, FetchFailedMessage);
            relations := [];
            isLoading := false;
            return;
          }
          relations := data;
      }
      isLoading := false;
    }

    /** `handleResponse(friendId, action)`: post the answer; on success fetch the
        list again (with outcome `refetch`), otherwise alert. */
    method HandleResponse(friendId: string, action: Action, reply: RespondReply, refetch: FetchReply)
      modifies this
      ensures responses == old(responses) + [(friendId, action)]
      ensures reply.RespondThrew? ==>
        && alerts == old(alerts) + [RespondThrewAlert]
        && relations == old(relations) && isLoading == old(isLoading) && error == old(error)
      ensures reply.Responded? && !reply.ok ==>
        && alerts == old(alerts) + [FailureAlert(action, reply.error)]
        && relations == old(relations) && isLoading == old(isLoading) && error == old(error)
      ensures reply.Responded? && reply.ok ==>
        && alerts == old(alerts) && !isLoading
        && (refetch.FetchThrew? ==> error == FetchThrewMessage && relations == old(relations))
        && (refetch.FetchReplied? && !(refetch.resOk && refetch.dataOk) ==>
              error == Or(refetch.error, FetchFailedMessage) && relations == [])
        && (refetch.FetchReplied? && refetch.resOk && refetch.dataOk ==> relations == refetch.data && error == "")
    {
      responses := responses + [(friendId, action)];
      match reply {
        case RespondThrew =>
          alerts := alerts + [RespondThrewAlert];
        case Responded(ok, err) =>
          if ok {
            FetchFriends(refetch);
          } else {
            alerts := alerts + [FailureAlert(action, err)];
          }
      }
    }
  }
}
