/** The NextAuth session as the server components and route handlers read it.
    The application's session callback always fills `session.user`, copying the
    database id and username from the JSON Web Token; any field may still be
    missing or empty, and JavaScript truthiness decides the checks. */
module Auth {
  import opened Wrappers
  import opened Js

  datatype SessionUser = SessionUser(
    id: Option<string>,
    username: Option<string>,
    email: Option<string>,
    image: Option<string>)

  datatype Session = Session(user: SessionUser)

  /** `session?.user.id` is truthy */
  predicate HasId(s: Option<Session>) {
    s.Some? && Truthy(s.value.user.id)
  }

  /** `session.user.username` is truthy */
  predicate HasUsername(s: Session) {
    Truthy(s.user.username)
  }
}
