/** The connection state `useSocket` keeps and how each handler changes it: the
    current transport, `isConnected`, `error`, the remembered room (`peerIdRef`),
    the retries scheduled with `setTimeout`, and what the hook has done so far
    (token requests, emits, calls of the UI callbacks). A transport is created
    by `io(...)` and numbered by a generation counter; `closed` holds the
    generations the hook has disconnected. */
module SocketState {
  import opened Wrappers
  import opened Js
  import opened SocketMessages

  datatype Transport = Transport(generation: nat, token: string)

  /** What is emitted on a transport. */
  datatype Emit =
    | JoinDmEmit(peerId: string)                                   // 'join_dm'
    | TypingEmit(peerId: string)                                   // 'typing'
    | StopTypingEmit(peerId: string)                               // 'stop_typing'
    | MessageSendEmit(toUserId: string, text: string, localId: string) // 'message:send'

  /** What the hook does that is visible outside its state. */
  datatype Effect =
    | TokenRequested                                        // fetch('/api/socket/token')
    | Optimistic(message: UIMessage)                        // optimisticUpdate(message)
    | Emitted(generation: nat, emit: Emit)                  // socket.emit(...)
    | Acknowledged(message: UIMessage, response: AckResponse) // ackCallback(message, response)

  /** An emitted `message:send` whose acknowledgement has not come back, with what
      its callback captured. */
  datatype PendingAck = PendingAck(generation: nat, optimistic: UIMessage, localId: string, text: string)

  /** The outcome of the token request: it threw before a reply was read (`None`:
      the thrown value is not an `Error`), or it replied with `res.ok`, the body's
      `ok`, `data.socketToken` and `error`. */
  datatype TokenReply =
    | Threw(message: Option<string>)
    | Replied(resOk: bool, dataOk: bool, socketToken: Option<string>, error: Option<string>)

  datatype Conn = Conn(
    socket: Option<Transport>, generations: nat, closed: set<nat>,
    isConnected: bool, error: Option<string>, peerId: Option<string>,
    retries: seq<nat>, effects: seq<Effect>,
    pendingAcks: map<nat, PendingAck>, nextTicket: nat)

  /** No transport, not connected, no error, no remembered room. */
  const Initial := Conn(None, 0, {}, false, None, None, [], [], map[], 0)

  const SetupRetryMs: nat := 10000
  const ServerDisconnectRetryMs: nat := 5000
  const ServerDisconnect := "io server disconnect"
  const UnknownSetupError := "Unknown socket setup error."
  const TokenFailure := "Failed to retrieve socket token."
  const DefaultServerError := "A server error occurred."

  predicate NeverRead(e: Effect) {
    match e
    case Optimistic(m) => m.status == Sending
    case Acknowledged(m, _) => m.status != Read
    case _ => true
  }

  /** A transport that has been created and not disconnected by the hook. */
  predicate Live(c: Conn, g: nat) {
    g < c.generations && g !in c.closed
  }

  /** Only the current transport is live, connection implies a transport, every
      pending acknowledgement has a ticket below the counter, and no message the
      hook hands out is `read`. */
  predicate Inv(c: Conn) {
    && (c.socket.None? <==> c.generations == 0)
    && (c.socket.Some? ==> c.socket.value.generation == c.generations - 1)
    && (forall g :: 0 <= g < c.generations - 1 ==> g in c.closed)
    && (forall g :: g in c.closed ==> g < c.generations - 1)
    && (c.isConnected ==> c.socket.Some?)
    && (forall t :: t in c.pendingAcks ==> t < c.nextTicket && c.pendingAcks[t].generation < c.generations)
    && (forall k :: 0 <= k < |c.effects| ==> NeverRead(c.effects[k]))
  }

  lemma InitialInv()
    ensures Inv(Initial)
  {
  }

  /** At most one transport is live, and it is the current one. */
  lemma AtMostOneLive(c: Conn, g: nat)
    requires Inv(c) && Live(c, g)
    ensures c.socket.Some? && g == c.socket.value.generation
  {
  }

  // ---------------------------------------------------------------------
  // Connecting

  /** The `catch` of `fetchTokenAndConnect`. */
  function SetupFailed(c: Conn, message: string): (r: Conn)
    ensures Inv(c) ==> Inv(r)
  {
    c.(error := Some(message), isConnected := false, retries := c.retries + [SetupRetryMs])
  }

  /** `fetchTokenAndConnect`, run to completion with the token request's outcome. */
  function FetchTokenAndConnect(c: Conn, currentUserId: Option<string>, reply: TokenReply): (r: Conn)
    ensures Inv(c) ==> Inv(r)
  {
    if !Truthy(currentUserId) then c
    else
      var c1 := c.(effects := c.effects + [TokenRequested]);
      match reply
      case Threw(message) => SetupFailed(c1, message.GetOr(UnknownSetupError))
      case Replied(resOk, dataOk, socketToken, error) =>
        if !resOk || !dataOk || !Truthy(socketToken) then SetupFailed(c1, Or(error, TokenFailure))
        else
          var c2 := if c1.socket.Some?
            then c1.(closed := c1.closed + {c1.socket.value.generation}, isConnected := false)
            else c1;
          c2.(socket := Some(Transport(c2.generations, socketToken.value)), generations := c2.generations + 1)
  }

  /** A `setTimeout(fetchTokenAndConnect, …)` firing: the retry at index `i` is
      removed from the schedule and the connection is set up again. */
  function RetryFires(c: Conn, i: nat, currentUserId: Option<string>, reply: TokenReply): (r: Conn)
    requires i < |c.retries|
    ensures Inv(c) ==> Inv(r)
  {
    FetchTokenAndConnect(c.(retries := c.retries[..i] + c.retries[i + 1..]), currentUserId, reply)
  }

  /** The mount effect: connect when the session has a user id and no transport exists yet. */
  function Mount(c: Conn, sessionUserId: Option<string>, currentUserId: Option<string>, reply: TokenReply): (r: Conn)
    ensures Inv(c) ==> Inv(r)
  {
    if Truthy(sessionUserId) && c.socket.None? then FetchTokenAndConnect(c, currentUserId, reply) else c
  }

  // ---------------------------------------------------------------------
  // Emitting

  /** `joinDm(peerId)` */
  function JoinDm(c: Conn, peerId: string): (r: Conn)
    ensures Inv(c) ==> Inv(r)
  {
    if c.socket.Some? && c.isConnected then
      c.(peerId := Some(peerId), effects := c.effects + [Emitted(c.socket.value.generation, JoinDmEmit(peerId))])
    else c
  }

  /** `sendTyping(peerId)` */
  function SendTyping(c: Conn, peerId: string): (r: Conn)
    ensures Inv(c) ==> Inv(r)
  {
    if c.socket.Some? && c.isConnected then
      c.(effects := c.effects + [Emitted(c.socket.value.generation, TypingEmit(peerId))])
    else c
  }

  /** `sendStopTyping(peerId)` */
  function SendStopTyping(c: Conn, peerId: string): (r: Conn)
    ensures Inv(c) ==> Inv(r)
  {
    if c.socket.Some? && c.isConnected then
      c.(effects := c.effects + [Emitted(c.socket.value.generation, StopTypingEmit(peerId))])
    else c
  }

  /** `sendMessage(toUserId, text, …)` at clock reading `clockMs`: hand the
      optimistic message to the UI, then emit `message:send` with a pending
      acknowledgement under ticket `nextTicket`. */
  function SendMessage(c: Conn, currentUserId: Option<string>, toUserId: string, text: string,
                       clockMs: nat, createdAt: string): (r: Conn)
    ensures Inv(c) ==> Inv(r)
  {
    if c.socket.None? || !c.isConnected || !Truthy(currentUserId) then c
    else
      var localId := LocalId(clockMs);
      var m := OptimisticMessage(localId, currentUserId.value, toUserId, text, createdAt);
      var g := c.socket.value.generation;
      c.(effects := c.effects + [Optimistic(m), Emitted(g, MessageSendEmit(toUserId, text, localId))],
         pendingAcks := c.pendingAcks[c.nextTicket := PendingAck(g, m, localId, text)],
         nextTicket := c.nextTicket + 1)
  }

  /** The acknowledgement of ticket `ticket` arriving with `response`. Only an
      emit on the current transport can be acknowledged, and only once. */
  function Acknowledge(c: Conn, ticket: nat, response: AckResponse): (r: Conn)
    ensures Inv(c) ==> Inv(r)
  {
    if ticket in c.pendingAcks && c.socket.Some? && c.pendingAcks[ticket].generation == c.socket.value.generation then
      var p := c.pendingAcks[ticket];
      c.(effects := c.effects + [Acknowledged(AcknowledgedMessage(p.optimistic, p.localId, p.text, response), response)],
         pendingAcks := c.pendingAcks - {ticket})
    else c
  }

  // ---------------------------------------------------------------------
  // Transport events

  /** The `connect` event of the current transport. */
  function OnConnect(c: Conn): (r: Conn)
    requires c.socket.Some?
    ensures Inv(c) ==> Inv(r)
  {
    var c1 := c.(isConnected := true, error := None);
    if Truthy(c.peerId) then JoinDm(c1, c.peerId.value) else c1
  }

  /** The `disconnect` event of the current transport, with its reason. */
  function OnDisconnect(c: Conn, reason: string): (r: Conn)
    ensures Inv(c) ==> Inv(r)
  {
    c.(isConnected := false,
       retries := c.retries + (if reason == ServerDisconnect then [ServerDisconnectRetryMs] else []))
  }

  /** The `connect_error` event, with the error's message. */
  function OnConnectError(c: Conn, message: string): (r: Conn)
    ensures Inv(c) ==> Inv(r)
  {
    c.(error := Some("Connection failed: " + message + ". Retrying..."))
  }

  /** The server's `error` event, with the `message` of its payload. */
  function OnServerError(c: Conn, message: Option<string>): (r: Conn)
    ensures Inv(c) ==> Inv(r)
  {
    c.(error := Some(Or(message, DefaultServerError)))
  }

  // ---------------------------------------------------------------------
  // Properties

  /** Without a user nothing happens; a failed setup records the error, marks the
      hook disconnected and schedules a retry in 10 s; a successful one closes the
      previous transport before opening a new one with the token. */
  lemma FetchTokenAndConnectOutcomes(c: Conn, currentUserId: Option<string>, reply: TokenReply)
    requires Inv(c)
    ensures var r := FetchTokenAndConnect(c, currentUserId, reply);
      && (!Truthy(currentUserId) ==> r == c)
      && (Truthy(currentUserId) ==> r.effects == c.effects + [TokenRequested])
      && (Truthy(currentUserId) && reply.Threw? ==>
            && r.error == Some(if reply.message.Some? then reply.message.value else UnknownSetupError)
            && !r.isConnected && r.retries == c.retries + [SetupRetryMs] && r.socket == c.socket)
      && (Truthy(currentUserId) && reply.Replied? && !(reply.resOk && reply.dataOk && Truthy(reply.socketToken)) ==>
            && r.error == Some(if Truthy(reply.error) then reply.error.value else TokenFailure)
            && !r.isConnected && r.retries == c.retries + [SetupRetryMs] && r.socket == c.socket)
      && (Truthy(currentUserId) && reply.Replied? && reply.resOk && reply.dataOk && Truthy(reply.socketToken) ==>
            && r.socket == Some(Transport(c.generations, reply.socketToken.value))
            && !r.isConnected && r.retries == c.retries
            && (c.socket.Some? ==> !Live(r, c.socket.value.generation))
            && forall g :: Live(r, g) ==> g == c.generations)
  {
    var r := FetchTokenAndConnect(c, currentUserId, reply);
    if Truthy(currentUserId) && reply.Replied? && reply.resOk && reply.dataOk && Truthy(reply.socketToken) {
      forall g | Live(r, g) ensures g == c.generations {
        AtMostOneLive(r, g);
      }
    }
  }

  /** The mount effect starts a connection only when no transport exists. */
  lemma MountOnlyWithoutTransport(c: Conn, sessionUserId: Option<string>, currentUserId: Option<string>, reply: TokenReply)
    ensures c.socket.Some? || !Truthy(sessionUserId) ==> Mount(c, sessionUserId, currentUserId, reply) == c
    ensures c.socket.None? && Truthy(sessionUserId) ==>
      Mount(c, sessionUserId, currentUserId, reply) == FetchTokenAndConnect(c, currentUserId, reply)
  {
  }

  /** `joinDm`, `sendTyping` and `sendStopTyping` emit, on the current transport,
      exactly while connected; `joinDm` remembers the room only when it emits. */
  lemma EmitsOnlyWhileConnected(c: Conn, peerId: string)
    requires Inv(c)
    ensures var emitting := c.isConnected;
      && JoinDm(c, peerId).effects == c.effects + (if emitting then [Emitted(c.socket.value.generation, JoinDmEmit(peerId))] else [])
      && JoinDm(c, peerId).peerId == (if emitting then Some(peerId) else c.peerId)
      && SendTyping(c, peerId).effects == c.effects + (if emitting then [Emitted(c.socket.value.generation, TypingEmit(peerId))] else [])
      && SendStopTyping(c, peerId).effects == c.effects + (if emitting then [Emitted(c.socket.value.generation, StopTypingEmit(peerId))] else [])
  {
  }

  /** `connect` marks the hook connected, clears the error and joins the
      remembered room again. */
  lemma ConnectRejoins(c: Conn)
    requires c.socket.Some?
    ensures var r := OnConnect(c);
      && r.isConnected && r.error == None && r.peerId == c.peerId && r.socket == c.socket
      && r.effects == c.effects + (if Truthy(c.peerId) then [Emitted(c.socket.value.generation, JoinDmEmit(c.peerId.value))] else [])
  {
  }

  /** `disconnect` marks the hook disconnected and schedules a new token fetch in
      5 s only when the server closed the connection. */
  lemma DisconnectRetryPolicy(c: Conn, reason: string)
    ensures var r := OnDisconnect(c, reason);
      && !r.isConnected && r.socket == c.socket && r.effects == c.effects
      && (reason == ServerDisconnect <==> r.retries == c.retries + [ServerDisconnectRetryMs])
      && (reason != ServerDisconnect <==> r.retries == c.retries)
  {
    var r := OnDisconnect(c, reason);
    if reason == ServerDisconnect {
      assert |r.retries| == |c.retries| + 1;
    }
  }

  /** `sendMessage` does nothing unless a transport exists, it is connected and
      there is a current user. Otherwise it hands the optimistic message to the
      UI first and then emits it with its local id, leaving a fresh pending
      acknowledgement. */
  lemma SendMessageGuardAndOrder(c: Conn, currentUserId: Option<string>, toUserId: string, text: string,
                                 clockMs: nat, createdAt: string)
    requires Inv(c)
    ensures var r := SendMessage(c, currentUserId, toUserId, text, clockMs, createdAt);
      && (!(c.socket.Some? && c.isConnected && Truthy(currentUserId)) ==> r == c)
      && (c.socket.Some? && c.isConnected && Truthy(currentUserId) ==>
            var m := OptimisticMessage(LocalId(clockMs), currentUserId.value, toUserId, text, createdAt);
            && c.nextTicket !in c.pendingAcks
            && |r.effects| == |c.effects| + 2
            && r.effects[|c.effects|] == Optimistic(m)
            && r.effects[|c.effects| + 1] == Emitted(c.socket.value.generation, MessageSendEmit(toUserId, text, LocalId(clockMs)))
            && r.pendingAcks.Keys == c.pendingAcks.Keys + {c.nextTicket})
  {
  }

  /** A second acknowledgement of the same ticket changes nothing, so
      `ackCallback` runs at most once per emit. */
  lemma AcknowledgeAtMostOnce(c: Conn, ticket: nat, first: AckResponse, second: AckResponse)
    ensures var r := Acknowledge(c, ticket, first);
      && Acknowledge(r, ticket, second) == r
      && (r.effects == c.effects || |r.effects| == |c.effects| + 1)
  {
  }

  /** A message sent while connected is acknowledged exactly once, with the
      acknowledged message built from its optimistic message and the response. */
  lemma SentMessageIsAcknowledged(c: Conn, currentUserId: Option<string>, toUserId: string, text: string,
                                  clockMs: nat, createdAt: string, response: AckResponse)
    requires Inv(c) && c.socket.Some? && c.isConnected && Truthy(currentUserId)
    ensures var s := SendMessage(c, currentUserId, toUserId, text, clockMs, createdAt);
      var m := OptimisticMessage(LocalId(clockMs), currentUserId.value, toUserId, text, createdAt);
      var a := Acknowledge(s, c.nextTicket, response);
      && a.effects == s.effects + [Acknowledged(AcknowledgedMessage(m, LocalId(clockMs), text, response), response)]
      && c.nextTicket !in a.pendingAcks
      && a.pendingAcks == c.pendingAcks
  {
    var s := SendMessage(c, currentUserId, toUserId, text, clockMs, createdAt);
    assert c.nextTicket !in c.pendingAcks;
    assert s.pendingAcks - {c.nextTicket} == c.pendingAcks;
  }
}
