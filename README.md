# chat-box-next-app, modelled in Dafny

This project models the decision logic of the chat-box Next.js application.

- **The realtime client hook** (`useSocket`). It fetches a socket token and opens one transport at a time. It tracks `isConnected`, `error` and the remembered DM room, and re-joins that room on `connect`. It schedules token refetches after failures and after server-initiated disconnects. It guards `joinDm`, `sendTyping`, `sendStopTyping` and `sendMessage` on the connection. `sendMessage` hands the UI an optimistic `sending` message and turns the acknowledgement into a `sent` or `failed` message.
- **The API route handlers**:
  - the socket-token issuer;
  - conversation find-or-create;
  - the chat list;
  - username update;
  - registration;
  - user search.
- **The client forms**:
  - the onboarding form: username validator, form validity, submit state machine;
  - the friend list: partition of relations into incoming requests, accepted friends and sent requests, plus the fetch and respond handlers.
- **The server-rendered page guards** (`/`, `/onboarding`, `/dashboard` and its layout), taken together as a redirect graph.

The database is an in-memory store: one sequence of rows per table. Unique indices are predicates on those rows, and a write that would break one is a unique-constraint violation. Ids and timestamps the database or the clock would produce are parameters. Whether the first database call throws is a boolean parameter. `jwt.sign` and `bcrypt.hash` are symbolic terms: `Jwt(payload, secret)` and `Bcrypt(password, rounds)`. JavaScript value semantics are written out in module `Js`:
- truthiness;
- `a || b`;
- the default string sort order;
- `String.prototype.trim`;
- `${n}` for numbers;
- ASCII case folding.

Modules:

| file | module | models |
|---|---|---|
| wrappers.dfy | Wrappers | `Option` |
| js.dfy | Js | JavaScript value semantics used by the handlers |
| seqs.dfy | Seqs | `Array.prototype.filter`, `take`, subsequences |
| auth.dfy | Auth | the NextAuth session as the handlers read it |
| store.dfy | Store | the user, conversation and message tables and the queries on them |
| socket_token.dfy | SocketToken | app/api/socket/token/route.ts |
| chat_route.dfy | ChatRoute | app/api/chat/route.ts |
| chat_list.dfy | ChatList | app/api/chat/list/route.ts |
| profile_update.dfy | ProfileUpdate | app/api/profile/update/route.ts |
| register.dfy | Register | app/api/auth/register/route.ts |
| user_search.dfy | UserSearch | app/api/users/search/route.ts |
| onboarding_form.dfy | OnboardingForm | components/OnboardingForm.tsx |
| friend_list.dfy | FriendList | components/FriendList.tsx |
| pages.dfy | Pages | app/page.tsx, app/onboarding/page.tsx, app/dashboard/page.tsx, app/dashboard/layout.tsx |
| socket_messages.dfy | SocketMessages | the optimistic and acknowledged messages of hooks/useSocket.ts |
| socket_state.dfy | SocketState | the state transitions of hooks/useSocket.ts and their invariant |
| socket_client.dfy | SocketClient | the hook as an object whose handlers update its fields |

Behaviours of note in the code:
- **Local ids.** The local correlation id is `local-` followed by the millisecond clock. It is not unique: two sends in the same millisecond get the same id (`SocketMessages.LocalIdRoundTrip`).
- **Token expiry.** The socket token is signed without an expiry option.
- **Re-setting a username.** A username can be set again, because the guard against it is commented out (`ProfileUpdate.AnyFreeNameIsAccepted`).
- **The `read` status.** It is declared but never assigned.
- **One conversation per pair.** This is shown only for requests made one after another (`ChatRoute.PostChatIdempotent`).

## Model

| member | source | states |
|---|---|---|
| Js.LexLessTotal | app/api/chat/route.ts:33 | the default string order compares any two distinct strings |
| Js.LexLessAsymmetric | app/api/chat/route.ts:33 | the default string order never puts two strings before each other |
| Js.TrimEmptyIffBlank | components/OnboardingForm.tsx:20 | `trim()` yields the empty string exactly when every character is JavaScript white space |
| Js.ParseDecimalString | hooks/useSocket.ts:135 | reading back the decimal rendering of a number gives the number |
| Seqs.Filter | components/FriendList.tsx:78-82 | the result keeps exactly the accepted elements: each kept element is in the input and accepted, every accepted element is kept, in input order, and it is no longer than the input |
| Seqs.FilterLength | components/FriendList.tsx:88 | the length of a filtered list is the number of accepted elements |
| Seqs.Take | app/api/users/search/route.ts:28 | `take: n` keeps a prefix of length min(n, length) |
| Store.IndexOfUser | app/api/chat/list/route.ts:59-62 | the found row has the id, and no row has it when nothing is found |
| Store.FindUser | app/api/chat/list/route.ts:59-62 | `findFirst({ where: { id } })` returns a stored row with that id, or nothing when no row has it |
| Store.FindUserByEmail | app/api/profile/update/route.ts:49-52 | `findUnique({ where: { email } })` returns a stored row with that email, or nothing when no row has it |
| Store.InsertUser | app/api/auth/register/route.ts:32-37 | `user.create` appends the row exactly when no unique value (id, email, username) clashes, otherwise reports a violation and keeps the rows, and keeps the unique indices |
| Store.UpdateUsername | app/api/profile/update/route.ts:66-70 | `user.update` reports a missing record exactly when the id is unknown, and a unique violation (P2002) exactly when the id is known and another row already holds the name; a successful update changes only that row's username and no other row; a failed one keeps the rows |
| Store.UpdateUsernameKeepsValid | app/api/profile/update/route.ts:66-70 | updating a username keeps usernames, emails and ids unique |
| Store.UserTable.Create | app/api/auth/register/route.ts:32-37 | the table's new rows and result are those of `InsertUser`, and the unique indices still hold |
| Store.UserTable.SetUsername | app/api/profile/update/route.ts:66-70 | the table's new rows and result are those of `UpdateUsername`, and the unique indices still hold |
| Store.InsertConversation | app/api/chat/route.ts:95-99 | `conversation.create` appends exactly when the id is new, otherwise reports a violation; conversation ids stay unique |
| Store.ConversationTable.Create | app/api/chat/route.ts:95-99 | the table's new rows and result are those of `InsertConversation`, and ids stay unique |
| Store.LatestBetween | app/api/chat/list/route.ts:65-77 | the result is a stored message exchanged between the two users in either direction and none is newer; there is no result exactly when they exchanged none |
| Store.LatestBetweenSymmetric | app/api/chat/route.ts:49-74 | the newest message between a and b is the newest between b and a |
| SocketToken.SigningSecret | app/api/socket/token/route.ts:34 | `SOCKET_TOKEN_SECRET` when truthy, else `NEXTAUTH_SECRET` when truthy, else none; a secret is never empty |
| SocketToken.IssueToken | app/api/socket/token/route.ts:5-50 | 401 exactly without a session; 400 exactly with a session without username; 500 exactly when both pass and no secret is set; a token otherwise, signed with the secret over exactly the session's id and username |
| SocketToken.EarlyChecksIgnoreEnvironment | app/api/socket/token/route.ts:8-30 | authentication and username are checked before the secret: without a session or username the environment does not matter |
| ChatRoute.SortPair | app/api/chat/route.ts:33-34 | `[a, b].sort()` is a permutation of the two ids in ascending order |
| ChatRoute.SortPairSymmetric | app/api/chat/route.ts:33-34 | `(a, b)` and `(b, a)` give the same participant list |
| ChatRoute.FindConversationWith | app/api/chat/route.ts:37-47 | `findFirst` with `hasEvery` returns the first conversation holding both ids, and nothing exactly when none holds both |
| ChatRoute.FindBothOrders | app/api/chat/route.ts:37-47 | the lookup does not depend on the order of the two ids |
| ChatRoute.Reject | app/api/chat/route.ts:7-31 | 401 exactly without a session id; 403 exactly when neither id is the caller's; 400 missing exactly when one is the caller's and one is falsy; 400 self-chat exactly when one is the caller's, both are truthy and they are equal; 500 exactly for a non-JSON body or, past those checks, a truthy non-string id; no rejection is a 200 or 201 answer; a request passes exactly when it holds two distinct non-empty string ids, one of them the caller's |
| ChatRoute.PostChat | app/api/chat/route.ts:6-108 | the ladder's answer comes first, then 500 when the database throws; past both, the answer is 200 with the found conversation's id exactly when a conversation holds the sorted pair, and with none found and a fresh id it is 201 with exactly one conversation of the sorted pair appended, while a 201 implies that none was found and the id was fresh; any other outcome leaves the rows unchanged |
| ChatRoute.PostChatSymmetric | app/api/chat/route.ts:16-34 | swapping `userId1` and `userId2` changes neither the response nor the rows |
| ChatRoute.PostChatIdempotent | app/api/chat/route.ts:91-101 | repeating a request that created a conversation finds it (200, same id) and creates nothing |
| ChatRoute.FindAfterAppend | app/api/chat/route.ts:95-99 | a conversation appended to rows that held none with both ids is the one the lookup finds |
| ChatRoute.OtherUserIsFirstSorted | app/api/chat/route.ts:76-89 | for an existing conversation `otherUser` is present exactly when the user whose id sorts first is stored, and then carries that stored user's id, username and image |
| ChatRoute.HandlePost | app/api/chat/route.ts:6-108 | the response and the new conversation rows are those of `PostChat` |
| ChatList.InsertNewestFirst | app/api/chat/list/route.ts:39-41 | inserting into a newest-first list keeps it newest first and adds exactly that conversation |
| ChatList.SortNewestFirst | app/api/chat/list/route.ts:39-41 | `orderBy: { createdAt: "desc" }` gives a newest-first permutation |
| ChatList.FilterKeepsNewestFirst | app/api/chat/list/route.ts:94-96 | dropping items keeps a newest-first list newest first |
| ChatList.ConversationsOf | app/api/chat/list/route.ts:27-42 | exactly the conversations holding the caller, newest first |
| ChatList.OtherParticipant | app/api/chat/list/route.ts:48-50 | a participant other than the caller preceded only by the caller's id, so the first such; none exactly when every participant is the caller |
| ChatList.FirstOther | app/api/chat/list/route.ts:48-50 | an id other than the caller's at a position preceded only by the caller's id, so the first such; none exactly when every id is the caller's |
| ChatList.Listed | app/api/chat/list/route.ts:45-56 | the listed conversations are newest first and are exactly the caller's conversations that have a truthy other participant, each once, as a subsequence of the caller's conversations |
| ChatList.ItemFor | app/api/chat/list/route.ts:79-90 | the preview is the newest message's content when there is one and it is non-empty, else "Start chat with …"; the other user's id falls back to `''` and the username to "Unknown User" |
| ChatList.ListChats | app/api/chat/list/route.ts:17-106 | 401 exactly without a session id, 500 exactly when the database throws, else one item per listed conversation in order, each being `ItemFor` that conversation and its other participant (preview and user fallbacks included) |
| ChatList.ListedConversations | app/api/chat/list/route.ts:45-96 | every item is a conversation of the caller that has a partner, and items are ordered newest conversation first |
| ChatList.PreviewIsNewestMessage | app/api/chat/list/route.ts:64-84 | a preview is the content of the newest message exchanged with the partner in either direction when that content is non-empty, and the "Start chat with ..." fallback otherwise, in particular when no message was exchanged |
| ProfileUpdate.ResolveUserId | app/api/profile/update/route.ts:35-62 | a 24-hex-digit session id is used as is; otherwise there is no id exactly without an email, not found exactly when no user has that email, else the id of the user with that email |
| ProfileUpdate.PostProfile | app/api/profile/update/route.ts:7-94 | 401 exactly without a session id; 400 exactly for a missing or non-string username; 400 unknown id exactly for a non-hex id without an email; 500 when the database throws; 404 exactly when the email lookup finds nobody; 409 exactly when the resolved row exists and another row holds the name; 200 exactly when the resolved row exists and the name is free, echoing the name with the rows updated; only a 200 changes rows |
| ProfileUpdate.UpdateWritesOnlyUsername | app/api/profile/update/route.ts:66-75 | a successful update changes the resolved user's username and no other field of it and no other row |
| ProfileUpdate.AnyFreeNameIsAccepted | app/api/profile/update/route.ts:17-30 | any non-empty name no other user holds is stored, whatever its length or characters, even over an existing username |
| ProfileUpdate.HandleProfileUpdate | app/api/profile/update/route.ts:7-94 | with the reassigned `userId`, the response and new user rows are those of `PostProfile` |
| Register.PostRegister | app/api/auth/register/route.ts:7-54 | 400 exactly for a missing or non-string email or password; 409 exactly when the email is registered; only a success changes rows, appending one user with that email and the bcrypt hash of the password, and answers its id and email |
| Register.RegisterSucceedsIff | app/api/auth/register/route.ts:21-37 | valid input registers exactly when the email is new and the id is free |
| Register.FindByEmailAfterAppend | app/api/auth/register/route.ts:21-23 | a user appended with a new email is the one found by that email |
| Register.RegisteredUserIsFoundByEmail | app/api/auth/register/route.ts:21-37 | after registering, the email finds the new user with the hashed password, and registering the email again answers 409 and changes nothing |
| Register.HandleRegister | app/api/auth/register/route.ts:7-54 | the response and new user rows are those of `PostRegister` |
| UserSearch.AllMatches | app/api/users/search/route.ts:19-22 | exactly the users whose username contains the query ignoring case and who are not the caller, each once and in store order (a subsequence of the rows) |
| UserSearch.Search | app/api/users/search/route.ts:6-39 | 401 exactly without a session id; an empty list for a missing or empty query; 500 exactly when a real query fails; at most 10 results |
| UserSearch.ResultsMatch | app/api/users/search/route.ts:19-28 | every result is a stored user other than the caller whose username contains the query, ignoring case |
| UserSearch.ResultsAreFirstMatches | app/api/users/search/route.ts:19-28 | the results are the first min(10, matches) matches in store order, so with at most 10 matches every match is returned |
| OnboardingForm.FormValidIffNotBlank | components/OnboardingForm.tsx:19-22 | the form is valid exactly when the input has a character that is not white space |
| OnboardingForm.ValidUsernameEnablesSubmit | components/OnboardingForm.tsx:104 | a username the handler accepts makes the form valid and the button enabled when not loading |
| OnboardingForm.GuardIsThePattern | components/OnboardingForm.tsx:30-34 | the handler's guard rejects exactly the names `^[a-zA-Z0-9_]{3,20}$` rejects |
| OnboardingForm.Form.constructor | components/OnboardingForm.tsx:11-15 | the form starts empty, not loading, not valid, with no request and no navigation |
| OnboardingForm.Form.Type | components/OnboardingForm.tsx:19-22 | typing sets the username and recomputes `isFormValid`, nothing else |
| OnboardingForm.Form.HandleSubmit | components/OnboardingForm.tsx:24-78 | an invalid name sets the error without a request; a thrown request or a non-ok reply sets the error without a session update or navigation; success replaces the session username and navigates to `/dashboard`; `isLoading` ends false; only valid names are ever posted |
| FriendList.ListsAreExactFilters | components/FriendList.tsx:78-82 | a relation is accepted, incoming or sent exactly by its status and direction, and each list is an ordered subsequence of the relations |
| FriendList.IncomingAndSentPartitionPending | components/FriendList.tsx:79-82 | incoming and sent requests are disjoint and every pending relation is in exactly one of them |
| FriendList.RequestCountsAddUp | components/FriendList.tsx:88 | the two request counts add up to the number of relations that are incoming or pending |
| FriendList.CountSplit | components/FriendList.tsx:79-82 | incoming and sent counts split the incoming-or-pending count |
| FriendList.IncomingAcceptedShownTwice | components/FriendList.tsx:78-79 | an accepted relation still marked as a request to you is listed both as a friend and as an incoming request |
| FriendList.Panel.View | components/FriendList.tsx:75-82 | loading while `isLoading`, the error when there is one, else the three lists of the relations |
| FriendList.Panel.constructor | components/FriendList.tsx:21-23 | the panel starts loading with no relations and no error |
| FriendList.Panel.FetchFriends | components/FriendList.tsx:26-45 | a non-ok reply sets the error and empties the relations; a thrown request sets its error and keeps them; success stores the relations and shows their lists; loading ends |
| FriendList.Panel.HandleResponse | components/FriendList.tsx:51-73 | the answer is posted; success refetches the list, with each refetch outcome (thrown: error set and relations kept; not ok: error set and relations emptied; ok: relations replaced) as `fetchFriends` gives it; a non-ok reply or a thrown request alerts, and nothing else changes |
| SocketMessages.LocalId | hooks/useSocket.ts:135 | a local id is `local-` followed by decimal digits |
| SocketMessages.LocalIdRoundTrip | hooks/useSocket.ts:135 | a local id gives back its clock reading, so two local ids are equal exactly when the clock readings are |
| SocketMessages.OptimisticMessageShape | hooks/useSocket.ts:138-147 | the optimistic message has the local id as id and local id, status `sending`, the current user as sender, the addressee as receiver and the typed text |
| SocketMessages.AcknowledgedMessageShape | hooks/useSocket.ts:151-156 | `sent` exactly when the response is ok, else `failed`, never `read`; the text is unchanged on success and `[FAILED] ` plus the text on failure, and reads back as the typed text; the id is the server's id when given, else the local id; local id, sender, receiver and creation time are kept |
| SocketState.InitialInv | hooks/useSocket.ts:21-27 | the initial state satisfies the connection invariant |
| SocketState.AtMostOneLive | hooks/useSocket.ts:46-54 | under the invariant, the only transport not disconnected by the hook is the current one |
| SocketState.SetupFailed | hooks/useSocket.ts:87-92 | the failure handler keeps the invariant |
| SocketState.FetchTokenAndConnect | hooks/useSocket.ts:31-93 | token fetch and connect keep the invariant |
| SocketState.RetryFires | hooks/useSocket.ts:91 | a fired retry keeps the invariant |
| SocketState.Mount | hooks/useSocket.ts:96-99 | the mount effect keeps the invariant |
| SocketState.JoinDm | hooks/useSocket.ts:110-121 | `joinDm` keeps the invariant |
| SocketState.SendTyping | hooks/useSocket.ts:167-171 | `sendTyping` keeps the invariant |
| SocketState.SendStopTyping | hooks/useSocket.ts:174-178 | `sendStopTyping` keeps the invariant |
| SocketState.SendMessage | hooks/useSocket.ts:124-164 | `sendMessage` keeps the invariant |
| SocketState.Acknowledge | hooks/useSocket.ts:150-162 | an acknowledgement keeps the invariant |
| SocketState.OnConnect | hooks/useSocket.ts:57-66 | the `connect` handler keeps the invariant |
| SocketState.OnDisconnect | hooks/useSocket.ts:68-75 | the `disconnect` handler keeps the invariant |
| SocketState.OnConnectError | hooks/useSocket.ts:77-80 | the `connect_error` handler keeps the invariant |
| SocketState.OnServerError | hooks/useSocket.ts:82-85 | the `error` handler keeps the invariant |
| SocketState.FetchTokenAndConnectOutcomes | hooks/useSocket.ts:31-93 | no user: nothing happens; a failed setup sets the error (thrown message or default), disconnects and schedules a 10 s retry; success disconnects the old transport first and leaves only the new one, carrying the token, live |
| SocketState.MountOnlyWithoutTransport | hooks/useSocket.ts:96-99 | the mount effect connects exactly when the session has a user id and no transport exists |
| SocketState.EmitsOnlyWhileConnected | hooks/useSocket.ts:110-121 | `joinDm`, `sendTyping` and `sendStopTyping` emit on the current transport exactly while connected; `joinDm` records the room only when it emits |
| SocketState.ConnectRejoins | hooks/useSocket.ts:57-66 | `connect` sets connected, clears the error and re-joins the remembered room when there is one |
| SocketState.DisconnectRetryPolicy | hooks/useSocket.ts:68-75 | `disconnect` clears connected and schedules a 5 s refetch exactly for reason `io server disconnect` |
| SocketState.SendMessageGuardAndOrder | hooks/useSocket.ts:130-150 | without a transport, connection or user nothing happens; otherwise the optimistic message is handed over before the emit, which carries the local id, and a fresh acknowledgement ticket is registered |
| SocketState.AcknowledgeAtMostOnce | hooks/useSocket.ts:150-158 | a second acknowledgement of the same ticket changes nothing; one acknowledgement records at most one callback |
| SocketState.SentMessageIsAcknowledged | hooks/useSocket.ts:150-158 | the acknowledgement of a message sent while connected calls `ackCallback` once, with the acknowledged message of its optimistic message and the raw response |
| SocketClient.ConnectionManager.constructor | hooks/useSocket.ts:21-27 | the hook starts in the initial connection state |
| SocketClient.ConnectionManager.SetupFailed | hooks/useSocket.ts:87-92 | the new state is that of `SocketState.SetupFailed` and the invariant holds |
| SocketClient.ConnectionManager.FetchTokenAndConnect | hooks/useSocket.ts:31-93 | the new state is that of `SocketState.FetchTokenAndConnect` and the invariant holds |
| SocketClient.ConnectionManager.RetryFires | hooks/useSocket.ts:91 | the new state is that of `SocketState.RetryFires` and the invariant holds |
| SocketClient.ConnectionManager.Mount | hooks/useSocket.ts:96-99 | the new state is that of `SocketState.Mount` and the invariant holds |
| SocketClient.ConnectionManager.JoinDm | hooks/useSocket.ts:110-121 | the new state is that of `SocketState.JoinDm` and the invariant holds |
| SocketClient.ConnectionManager.SendTyping | hooks/useSocket.ts:167-171 | the new state is that of `SocketState.SendTyping` and the invariant holds |
| SocketClient.ConnectionManager.SendStopTyping | hooks/useSocket.ts:174-178 | the new state is that of `SocketState.SendStopTyping` and the invariant holds |
| SocketClient.ConnectionManager.SendMessage | hooks/useSocket.ts:124-164 | the new state is that of `SocketState.SendMessage`; a ticket is returned exactly when the message was emitted, and it is pending |
| SocketClient.ConnectionManager.OnAck | hooks/useSocket.ts:150-162 | the new state is that of `SocketState.Acknowledge` and the invariant holds |
| SocketClient.ConnectionManager.OnConnect | hooks/useSocket.ts:57-66 | the new state is that of `SocketState.OnConnect` and the invariant holds |
| SocketClient.ConnectionManager.OnDisconnect | hooks/useSocket.ts:68-75 | the new state is that of `SocketState.OnDisconnect` and the invariant holds |
| SocketClient.ConnectionManager.OnConnectError | hooks/useSocket.ts:77-80 | the new state is that of `SocketState.OnConnectError` and the invariant holds |
| SocketClient.ConnectionManager.OnServerError | hooks/useSocket.ts:82-85 | the new state is that of `SocketState.OnServerError` and the invariant holds |
| Pages.LandingPage | app/page.tsx:12-51 | the sign-in form renders exactly without a session; a session goes to `/onboarding` without a username, to `/dashboard` with one |
| Pages.OnboardingPage | app/onboarding/page.tsx:6-28 | no session goes to `/`, a username goes to `/dashboard`, and the form renders with the session's user id exactly for a session without username |
| Pages.DashboardPage | app/dashboard/page.tsx:6-23 | no session or id goes to `/`, no username goes to `/onboarding`; the dashboard renders exactly with both, showing the session's id, username and image |
| Pages.DashboardLayout | app/dashboard/layout.tsx:6-17 | no session user goes to `/onboarding`; with one, the children render unchanged, whatever the id or username |
| Pages.NavigationSettles | app/page.tsx:15-28 | for no session or a session with an id, every page ends within two redirects on the sign-in form, the onboarding form or the dashboard as the session calls for |
| Pages.UnauthenticatedDashboardVisit | app/dashboard/layout.tsx:12-14 | an unauthenticated dashboard visit goes to `/onboarding`, then to `/`, which renders the sign-in form |
| Pages.RedirectCycleWithoutId | app/dashboard/page.tsx:8-10 | a session with a username but no id bounces between `/` and `/dashboard` for any number of redirects |
| Pages.LandingDependsOnPresenceOnly | app/page.tsx:13-16 | the landing page depends only on whether there is a session and whether it has a username |

## Left out

- Socket transport internals are not part of this model. That covers socket.io's own reconnection (`reconnectionAttempts: 5`), the handshake and the `subscribe`/`onMessageReceived`/`onTypingStatus` listener plumbing. A `setTimeout` is an entry in a list of scheduled delays, and its firing is an explicit step.
- Transport events reach only the current transport. An acknowledgement is processed only for an emit on the current transport: a transport the hook disconnected delivers nothing more. Events of an old transport are not modelled.
- SocketClient.ConnectionManager.OnConnect: models the intended re-join. In the hook, the `joinDm` closure called from the `connect` handler captured `isConnected` at an earlier render, so the re-join may do nothing there.
- SocketClient.ConnectionManager.FetchTokenAndConnect: when the old transport is disconnected, `isConnected` is set to false directly. In the hook this comes from the old transport's `disconnect` handler.
- React semantics are left out: re-renders, `useCallback` dependency capture and JSX markup. Asynchronous handlers are modelled as running to completion with their awaited outcomes as parameters.
- The module-level `socket` is shared by every instance of the hook. The model has one instance.
- The hook and the token route disagree on the token contract, so no end-to-end handshake is claimed. The hook POSTs and reads `data.data.socketToken`. The route answers only GET and returns `data.token`. Each side is modelled on its own.
- Clock values are parameters: `Date.now()`, `toISOString()` and database timestamps.
- `jwt.sign` and `bcrypt.hash` are symbolic terms, with no encoding, hashing or salt.
- Prisma and NextAuth internals are replaced by row sequences and a session value. The session callback always sets `session.user`, so a missing user is a missing session.
- Everything runs one request at a time. Concurrency is left out: the find-then-create race in the chat route and the parallel `Promise.all` of the chat list.
- Pages.Visit: a request to `/dashboard` is taken to run the layout's guard before the page's own checks; Next.js does not promise that order, and if the page ran first an unauthenticated visit would go to `/` instead of `/onboarding` (`Pages.UnauthenticatedDashboardVisit` depends on it).
- ChatList.ListChats: one `dbFails` flag models a failing first query. A query failing in the middle, after other items were built, is not distinguished: it also answers 500.
- Js.LexLess: compares characters by code point, while JavaScript compares UTF-16 code units. The two orders differ only for characters outside the Basic Multilingual Plane.
- OnboardingForm.SubmitDisabled: the length bound counts characters (code points), while `username.length` counts UTF-16 code units; the two differ only for names with characters outside the Basic Multilingual Plane.
- Js.LowerCase: folds ASCII letters only, while the database's case-insensitive match folds all of Unicode.
- UserSearch.Search: results come back in store order, since the query has no `orderBy` and the database order is unspecified.
- OnboardingForm.Form.HandleSubmit: an `updateSession` call that throws is not modelled; it would end in the generic error message after the server already stored the name.
- OnboardingForm.Form.constructor: the form's `userId` prop is unused by the component and is not modelled.
- The sign-out button and the HTML class names are not modelled.
- A request body that is not a JSON object is represented only as "not JSON".
- app/api/messages/route.ts, app/api/messages/mark-read/route.ts and app/api/users/route.ts are entirely commented out and have no behaviour.
- The UI-only files are not part of this model: SignInForm, RegisterForm, AddFriendForm, Chat, SearchUsers, ChatList view, DashboardClient, Dashboard, ToggleTheme, ThemeProvider, the root layout and the students page.
