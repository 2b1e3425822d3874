/** The socket token issuer, `GET /api/socket/token`: an early-return ladder
    (session, then username, then signing secret) ending in a JSON Web Token
    (RFC 7519) over the session's id and username. */
module SocketToken {
  import opened Wrappers
  import opened Js
  import opened Auth

  /** The claims handed to `jwt.sign`. */
  datatype TokenPayload = TokenPayload(id: Option<string>, username: string)

  /** What `jwt.sign(payload, secret)` returns, kept as a symbolic term. No
      options are passed, so no expiry claim is requested. */
  datatype SignedToken = Jwt(payload: TokenPayload, secret: string)

  /** The environment variables the route reads. */
  datatype Env = Env(socketTokenSecret: Option<string>, nextAuthSecret: Option<string>)

  datatype TokenResponse =
    | NotAuthenticated          // 401 { ok: false, error: "Not authenticated" }
    | UsernameNotSet            // 400 { ok: false, error: "Username not set" }
    | Misconfigured             // 500 { ok: false, error: "Server misconfiguration" }
    | Issued(token: SignedToken) // 200 { ok: true, data: { token } }

  function StatusCode(r: TokenResponse): int {
    match r
    case NotAuthenticated => 401
    case UsernameNotSet => 400
    case Misconfigured => 500
    case Issued(_) => 200
  }

  /** `SOCKET_TOKEN_SECRET || NEXTAUTH_SECRET`, when that is truthy. */
  function SigningSecret(env: Env): (r: Option<string>)
    ensures r.Some? <==> Truthy(env.socketTokenSecret) || Truthy(env.nextAuthSecret)
    ensures r.Some? ==> r.value != ""
    ensures Truthy(env.socketTokenSecret) ==> r == env.socketTokenSecret
    ensures !Truthy(env.socketTokenSecret) ==> r == (if Truthy(env.nextAuthSecret) then env.nextAuthSecret else None)
  {
    var secret := if Truthy(env.socketTokenSecret) then env.socketTokenSecret else env.nextAuthSecret;
    if Truthy(secret) then secret else None
  }

  /** `GET`: each check applies only when all earlier ones passed, and a token is
      issued exactly when all three pass. */
  function IssueToken(session: Option<Session>, env: Env): (r: TokenResponse)
    ensures r.NotAuthenticated? <==> session.None?
    ensures r.UsernameNotSet? <==> session.Some? && !HasUsername(session.value)
    ensures r.Misconfigured? <==> session.Some? && HasUsername(session.value) && SigningSecret(env).None?
    ensures r.Issued? ==>
      && r.token.payload.id == session.value.user.id
      && Some(r.token.payload.username) == session.value.user.username
      && Some(r.token.secret) == SigningSecret(env)
  {
    if session.None? then NotAuthenticated
    else if !HasUsername(session.value) then UsernameNotSet
    else
      var payload := TokenPayload(session.value.user.id, session.value.user.username.value);
      var secret := SigningSecret(env);
      if secret.None? then Misconfigured
      else Issued(Jwt(payload, secret.value))
  }

  /** The environment never changes the answer to a request without a session
      or without a username. */
  lemma EarlyChecksIgnoreEnvironment(session: Option<Session>, env1: Env, env2: Env)
    requires session.None? || !HasUsername(session.value)
    ensures IssueToken(session, env1) == IssueToken(session, env2)
    ensures StatusCode(IssueToken(session, env1)) == (if session.None? then 401 else 400)
  {
  }
}
