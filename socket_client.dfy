/** The `useSocket` hook as an object: its fields are the module-level `socket`,
    the `isConnected` and `error` state, `peerIdRef`, the scheduled retries and
    the record of what the hook has done; each handler is a method whose new
    state is the matching transition of `SocketState`. */
module SocketClient {
  import opened Wrappers
  import opened Js
  import opened SocketMessages
  import opened SocketState

  class ConnectionManager {
    /** The hook's `currentUserId` argument. */
    const currentUserId: Option<string>
    var socket: Option<Transport>
    var generations: nat
    var closed: set<nat>
    var isConnected: bool
    var error: Option<string>
    var peerId: Option<string>
    var retries: seq<nat>
    var effects: seq<Effect>
    var pendingAcks: map<nat, PendingAck>
    var nextTicket: nat

    function State(): Conn
      reads this
    {
      Conn(socket, generations, closed, isConnected, error, peerId, retries, effects, pendingAcks, nextTicket)
    }

    ghost predicate Valid()
      reads this
    {
      Inv(State())
    }

    constructor(currentUserId: Option<string>)
      ensures Valid()
      ensures this.currentUserId == currentUserId && State() == Initial
    {
      this.currentUserId := currentUserId;
      socket := None;
      generations := 0;
      closed := {};
      isConnected := false;
      error := None;
      peerId := None;
      retries := [];
      effects := [];
      pendingAcks := map[];
      nextTicket := 0;
    }

    method SetupFailed(message: string)
      requires Valid()
      modifies this
      ensures Valid()
      ensures State() == SocketState.SetupFailed(old(State()), message)
    {
      error := Some(message);
      isConnected := false;
      retries := retries + [SetupRetryMs];
    }

    method FetchTokenAndConnect(reply: TokenReply)
      requires Valid()
      modifies this
      ensures Valid()
      ensures State() == SocketState.FetchTokenAndConnect(old(State()), currentUserId, reply)
    {
      if !Truthy(currentUserId) {
        return;
      }
      effects := effects + [TokenRequested];
      match reply {
        case Threw(message) =>
          SetupFailed(message.GetOr(UnknownSetupError));
        case Replied(resOk, dataOk, socketToken, err) =>
          if !resOk || !dataOk || !Truthy(socketToken) {
            SetupFailed(Or(err, TokenFailure));
            return;
          }
          if socket.Some? {
            // the old transport's `disconnect` handler clears `isConnected`
            closed := closed + {socket.value.generation};
            isConnected := false;
          }
          socket := Some(Transport(generations, socketToken.value));
          generations := generations + 1;
      }
    }

    method RetryFires(i: nat, reply: TokenReply)
      requires Valid() && i < |retries|
      modifies this
      ensures Valid()
      ensures State() == SocketState.RetryFires(old(State()), i, currentUserId, reply)
    {
      retries := retries[..i] + retries[i + 1..];
      FetchTokenAndConnect(reply);
    }

    method Mount(sessionUserId: Option<string>, reply: TokenReply)
      requires Valid()
      modifies this
      ensures Valid()
      ensures State() == SocketState.Mount(old(State()), sessionUserId, currentUserId, reply)
    {
      if Truthy(sessionUserId) && socket.None? {
        FetchTokenAndConnect(reply);
      }
    }

    method JoinDm(peer: string)
      requires Valid()
      modifies this
      ensures Valid()
      ensures State() == SocketState.JoinDm(old(State()), peer)
    {
      if socket.Some? && isConnected {
        peerId := Some(peer);
        effects := effects + [Emitted(socket.value.generation, JoinDmEmit(peer))];
      }
    }

    method SendTyping(peer: string)
      requires Valid()
      modifies this
      ensures Valid()
      ensures State() == SocketState.SendTyping(old(State()), peer)
    {
      if socket.Some? && isConnected {
        effects := effects + [Emitted(socket.value.generation, TypingEmit(peer))];
      }
    }

    method SendStopTyping(peer: string)
      requires Valid()
      modifies this
      ensures Valid()
      ensures State() == SocketState.SendStopTyping(old(State()), peer)
    {
      if socket.Some? && isConnected {
        effects := effects + [Emitted(socket.value.generation, StopTypingEmit(peer))];
      }
    }

    /** Returns the ticket under which the acknowledgement is awaited, if the
        message was emitted. */
    method SendMessage(toUserId: string, text: string, clockMs: nat, createdAt: string)
      returns (ticket: Option<nat>)
      requires Valid()
      modifies this
      ensures Valid()
      ensures State() == SocketState.SendMessage(old(State()), currentUserId, toUserId, text, clockMs, createdAt)
      ensures ticket.Some? <==> old(socket.Some? && isConnected) && Truthy(currentUserId)
      ensures ticket.Some? ==> ticket.value == old(nextTicket) && ticket.value in pendingAcks
    {
      if socket.None? || !isConnected || !Truthy(currentUserId) {
        return None;
      }
      var localId := LocalId(clockMs);
      var optimisticMessage := OptimisticMessage(localId, currentUserId.value, toUserId, text, createdAt);
      effects := effects + [Optimistic(optimisticMessage)];
      var g := socket.value.generation;
      effects := effects + [Emitted(g, MessageSendEmit(toUserId, text, localId))];
      pendingAcks := pendingAcks[nextTicket := PendingAck(g, optimisticMessage, localId, text)];
      ticket := Some(nextTicket);
      nextTicket := nextTicket + 1;
    }

    method OnAck(ticket: nat, response: AckResponse)
      requires Valid()
      modifies this
      ensures Valid()
      ensures State() == Acknowledge(old(State()), ticket, response)
    {
      if ticket in pendingAcks && socket.Some? && pendingAcks[ticket].generation == socket.value.generation {
        var p := pendingAcks[ticket];
        var acknowledgedMessage := AcknowledgedMessage(p.optimistic, p.localId, p.text, response);
        effects := effects + [Acknowledged(acknowledgedMessage, response)];
        pendingAcks := pendingAcks - {ticket};
      }
    }

    method OnConnect()
      requires Valid() && socket.Some?
      modifies this
      ensures Valid()
      ensures State() == SocketState.OnConnect(old(State()))
    {
      isConnected := true;
      error := None;
      if Truthy(peerId) {
        JoinDm(peerId.value);
      }
    }

    method OnDisconnect(reason: string)
      requires Valid()
      modifies this
      ensures Valid()
      ensures State() == SocketState.OnDisconnect(old(State()), reason)
    {
      isConnected := false;
      if reason == ServerDisconnect {
        retries := retries + [ServerDisconnectRetryMs];
      }
    }

    method OnConnectError(message: string)
      requires Valid()
      modifies this
      ensures Valid()
      ensures State() == SocketState.OnConnectError(old(State()), message)
    {
      error := Some("Connection failed: " + message + ". Retrying...");
    }

    method OnServerError(message: Option<string>)
      requires Valid()
      modifies this
      ensures Valid()
      ensures State() == SocketState.OnServerError(old(State()), message)
    {
      error := Some(Or(message, DefaultServerError));
    }
  }
}
