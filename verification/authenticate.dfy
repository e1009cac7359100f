/**
 * The two access gates of middleware/authenticate.js. `isAuthenticated`
 * only looks for a user in the session; `checkAuthenticated` takes a
 * GitHub username from the session, looks it up in the users collection
 * and admits only a document whose `position` is `Admin`.
 */
module Authenticate {
  import opened JsValues
  import opened Wrappers
  import opened UserStore

  /** The session object `express-session` attaches to a request. */
  type Session = Body

  /** What a gate does with a request. */
  datatype GateOutcome =
    | Proceed                                    // `next()`
    | Admit(user: User)                          // `req.user = user; next()`
    | Deny(status: int, message: string)         // `{ success: false, message }`
    | Fail(status: int, message: string, error: string)  // `{ success: false, message, error }`

  const LoginRequiredMessage := "Unauthorized access. Please log in."
  const NoSessionUsernameMessage := "Unauthorized. GitHub username not found in session."
  const UnknownUsernameMessage := "Access denied. GitHub username not found in database."
  const NotAdminMessage := "Access denied. Admin privileges required."
  const GateErrorMessage := "Server error checking authentication"

  /** `isAuthenticated`: a request goes on exactly when `session.user` is truthy. */
  function IsAuthenticated(session: Session): (o: GateOutcome)
    ensures o == Proceed <==> Truthy(Prop(session, "user"))
    ensures o != Proceed ==> o == Deny(401, LoginRequiredMessage)
  {
    if !Truthy(Prop(session, "user")) then Deny(401, LoginRequiredMessage) else Proceed
  }

  /** `session?.user?.username || session?.passport?.user?.username` */
  function SessionUsername(session: Session): (name: JsValue)
    ensures Truthy(name) <==>
      Truthy(Member(Prop(session, "user"), "username")) ||
      Truthy(Member(Member(Prop(session, "passport"), "user"), "username"))
    ensures Truthy(Member(Prop(session, "user"), "username")) ==> name == Member(Prop(session, "user"), "username")
    ensures !Truthy(Member(Prop(session, "user"), "username")) ==>
      name == Member(Member(Prop(session, "passport"), "user"), "username")
  {
    Or(Member(Prop(session, "user"), "username"), Member(Member(Prop(session, "passport"), "user"), "username"))
  }

  /** The document `findOne({ username })` returns to the gate, if any. */
  function GateLookup(st: Store, session: Session): Option<User> {
    match FindByUsername(st.users, SessionUsername(session))
    case None => None
    case Some(i) => Some(st.users[i])
  }

  /**
   * `checkAuthenticated`. The lookup never writes, so the store is an
   * input only; a failing read (`readFault`) is answered 500.
   */
  method CheckAuthenticated(session: Session, st: Store, readFault: ReadFault) returns (o: GateOutcome)
    ensures o.Deny? && o.status == 401 <==> !Truthy(SessionUsername(session))
    ensures o.Deny? && o.status == 401 ==> o.message == NoSessionUsernameMessage
    ensures o.Fail? <==> Truthy(SessionUsername(session)) && readFault.Some?
    ensures o.Fail? ==> o == Fail(500, GateErrorMessage, readFault.value)
    ensures o.Deny? ==> o.status == 401 || o.status == 403
    ensures o == Deny(403, UnknownUsernameMessage) <==>
      Truthy(SessionUsername(session)) && readFault.None? && GateLookup(st, session).None?
    ensures o == Deny(403, NotAdminMessage) <==>
      Truthy(SessionUsername(session)) && readFault.None? && GateLookup(st, session).Some? &&
      GateLookup(st, session).value.position != Str("Admin")
    ensures o.Admit? <==>
      Truthy(SessionUsername(session)) && readFault.None? && GateLookup(st, session).Some? &&
      GateLookup(st, session).value.position == Str("Admin")
    ensures o.Admit? ==> o.user == GateLookup(st, session).value
    ensures o.Admit? ==> o.user in st.users && o.user.username == SessionUsername(session) && o.user.position == Str("Admin")
    ensures o != Proceed
  {
    var githubUsername := SessionUsername(session);
    if !Truthy(githubUsername) {
      return Deny(401, NoSessionUsernameMessage);
    }
    if readFault.Some? {
      return Fail(500, GateErrorMessage, readFault.value);
    }
    var found := FindByUsername(st.users, githubUsername);
    if found.None? {
      return Deny(403, UnknownUsernameMessage);
    }
    var user := st.users[found.value];
    if user.position != Str("Admin") {
      return Deny(403, NotAdminMessage);
    }
    o := Admit(user);
  }

  /**
   * The gates read different keys: a session that Passport filled in
   * (`passport.user`) but that holds no `user` of its own is turned away by
   * `isAuthenticated` although it carries a GitHub username.
   */
  lemma PassportOnlySessionFailsLoginGate(name: string)
    requires name != ""
    ensures var session := map["passport" := Obj(map["user" := Obj(map["username" := Str(name)])])];
      && IsAuthenticated(session) == Deny(401, LoginRequiredMessage)
      && SessionUsername(session) == Str(name)
  {
  }
}
