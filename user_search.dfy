/** User search, `GET /api/users/search?q=…`: up to ten users other than the
    caller whose username contains the query, ignoring case. */
module UserSearch {
  import opened Wrappers
  import opened Js
  import opened Auth
  import opened Seqs
  import opened Store

  const Limit: nat := 10

  /** The selected columns `{ id, username, image }`. */
  datatype UserView = UserView(id: string, username: Option<string>, image: Option<string>)

  datatype SearchResponse =
    | Unauthorized                 // 401
    | Results(users: seq<UserView>) // 200, a JSON array
    | ServerError                  // 500

  /** The `where` clause: `username contains q (insensitive)` and `id not me`. */
  predicate Matches(u: User, q: string, me: string) {
    u.username.Some? && ContainsIgnoringCase(u.username.value, q) && u.id != me
  }

  function ViewOf(u: User): (v: UserView)
    ensures v.id == u.id && v.username == u.username && v.image == u.image
  {
    UserView(u.id, u.username, u.image)
  }

  function Views(us: seq<User>): (vs: seq<UserView>)
    ensures |vs| == |us|
    ensures forall i :: 0 <= i < |us| ==> vs[i] == ViewOf(us[i])
  {
    seq(|us|, i requires 0 <= i < |us| => ViewOf(us[i]))
  }

  /** Every matching user, in store order. */
  function AllMatches(users: seq<User>, q: string, me: string): (r: seq<User>)
    ensures forall i :: 0 <= i < |r| ==> r[i] in users && Matches(r[i], q, me)
    ensures forall i :: 0 <= i < |users| && Matches(users[i], q, me) ==> users[i] in r
    ensures IsSubsequence(r, users)
  {
    Filter(users, u => Matches(u, q, me))
  }

  /** `GET /api/users/search`; `q` is the `q` search parameter (`None` when absent).
      The rows come back in store order, since the query has no `orderBy`. */
  function Search(session: Option<Session>, q: Option<string>, users: seq<User>, dbFails: bool): (r: SearchResponse)
    ensures r.Unauthorized? <==> !HasId(session)
    ensures HasId(session) && (q.None? || q.value == "") ==> r == Results([])
    ensures r.ServerError? <==> HasId(session) && q.Some? && q.value != "" && dbFails
    ensures r.Results? ==> |r.users| <= Limit
  {
    if !HasId(session) then Unauthorized
    else if q.None? || q.value == "" then Results([])
    else if dbFails then ServerError
    else Results(Views(Take(AllMatches(users, q.value, session.value.user.id.value), Limit)))
  }

  /** Every result is a user other than the caller whose username contains the
      query, ignoring case, shown with its own id, username and image. */
  lemma ResultsMatch(session: Option<Session>, q: Option<string>, users: seq<User>, dbFails: bool, i: nat)
    requires Search(session, q, users, dbFails).Results?
    requires i < |Search(session, q, users, dbFails).users|
    ensures var v := Search(session, q, users, dbFails).users[i];
      && v.id != session.value.user.id.value && v.username.Some?
      && ContainsIgnoringCase(v.username.value, q.value)
      && exists k :: 0 <= k < |users| && v == ViewOf(users[k]) && Matches(users[k], q.value, session.value.user.id.value)
  {
    var me := session.value.user.id.value;
    var all := AllMatches(users, q.value, me);
    var taken := Take(all, Limit);
    assert taken[i] == all[i];
    assert all[i] in users;
    var k :| 0 <= k < |users| && users[k] == all[i];
  }

  /** The results are the first matches in store order: when fewer than ten users
      match, every one of them is returned. */
  lemma ResultsAreFirstMatches(session: Option<Session>, q: string, users: seq<User>)
    requires HasId(session) && q != ""
    ensures var me := session.value.user.id.value;
      var all := AllMatches(users, q, me);
      var r := Search(session, Some(q), users, false);
      && r.Results?
      && |r.users| == (if |all| < Limit then |all| else Limit)
      && (forall i :: 0 <= i < |r.users| ==> r.users[i] == ViewOf(all[i]))
      && (|all| <= Limit ==> forall k :: 0 <= k < |users| && Matches(users[k], q, me) ==> ViewOf(users[k]) in r.users)
  {
    var me := session.value.user.id.value;
    var all := AllMatches(users, q, me);
    var r := Search(session, Some(q), users, false);
    if |all| <= Limit {
      forall k | 0 <= k < |users| && Matches(users[k], q, me)
        ensures ViewOf(users[k]) in r.users
      {
        var j :| 0 <= j < |all| && all[j] == users[k];
        assert r.users[j] == ViewOf(all[j]);
      }
    }
  }
}
