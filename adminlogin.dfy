/** The administrator login route: login, then `/users/me`, then the role
    lookup; only the role named exactly "Administrator" gets the session cookie. */
module AdminLogin {
  import opened Base
  import opened Http
  import opened SessionCookie

  /** `loader`: any token at all, unvalidated, redirects to /admin; otherwise the
      login page is rendered. */
  function Loader(header: Option<string>): (o: Outcome)
    ensures o == Redirect("/admin", None) || o == Proceed
  {
    if TokenOptional(header).Some? then Redirect("/admin", None) else Proceed
  }

  /** The loader with the token check its comment envisages: a present token is
      checked with `/users/me` (whose reply is `me`), and only a token the backend
      accepts redirects to /admin; otherwise the login page is rendered. */
  function ValidatedLoader(header: Option<string>, me: Reply<User>): (h: Handled)
    ensures h.outcome == Redirect("/admin", None) || h.outcome == Proceed
    ensures h.calls == if TokenOptional(header).Some? then [GetMe(TokenOptional(header))] else []
  {
    match TokenOptional(header)
    case None => Handled(Proceed, [])
    case Some(token) =>
      Handled(if me.Ok? then Redirect("/admin", None) else Proceed, [GetMe(Some(token))])
  }

  /** With the check, a token the backend rejects gets the login page instead of
      being sent back to /admin, and only an accepted token redirects. */
  lemma ValidatedLoaderBreaksLoop(header: Option<string>, me: Reply<User>)
    ensures ValidatedLoader(header, me).outcome == Redirect("/admin", None) <==>
              TokenOptional(header).Some? && me.Ok?
    ensures me.Fail? ==> ValidatedLoader(header, me).outcome == Proceed
  {
  }

  /** `action`. `login`, `me` and `role` are the replies of the three remote calls;
      a failed reply is the exception that the catch block turns into a 401. */
  function Action(email: Option<string>, password: Option<string>,
                  login: Reply<string>, me: Reply<User>, role: Reply<Role>): (h: Handled)
    ensures 1 <= |h.calls| <= 3 && h.calls[0] == Login(email, password)
    ensures forall i :: 1 <= i < |h.calls| ==> login.Ok? && (h.calls[i].GetMe? || h.calls[i].GetRole?) && h.calls[i].bearer == Some(login.value)
  {
    var asked := [Login(email, password)];
    match login
    case Fail => Handled(CredentialsRejected, asked)
    case Ok(token) =>
      var asked := asked + [GetMe(Some(token))];
      match me
      case Fail => Handled(CredentialsRejected, asked)
      case Ok(user) =>
        if !Truthy(user.role) then
          Handled(Message(None, None, false, RoleNotFound), asked)
        else
          var asked := asked + [GetRole(Some(token), user.role.value)];
          match role
          case Fail => Handled(CredentialsRejected, asked)
          case Ok(info) =>
            if info.name != Some(Administrator) then
              Handled(Message(None, None, false, PermissionDenied), asked)
            else
              Handled(Redirect("/admin", Some(SetCookieValue(token))), asked)
  }

  /** The loader redirects to /admin exactly when some token is present. */
  lemma LoaderRedirectsIffToken(header: Option<string>)
    ensures Loader(header) == Redirect("/admin", None) <==> TokenOptional(header).Some?
    ensures Loader(header) == Proceed <==> TokenOptional(header).None?
  {
  }

  /** The only way in: the login succeeds, `/users/me` succeeds with a truthy role
      id, and the role lookup returns the name "Administrator"; then the answer is
      a 302 to /admin with the session cookie for the login token. */
  lemma ActionAdmitsIff(email: Option<string>, password: Option<string>,
                        login: Reply<string>, me: Reply<User>, role: Reply<Role>)
    ensures Action(email, password, login, me, role).outcome.Redirect? <==>
              login.Ok? && me.Ok? && Truthy(me.value.role) && role.Ok? && role.value.name == Some("Administrator")
    ensures Action(email, password, login, me, role).outcome.Redirect? ==>
              Action(email, password, login, me, role).outcome == Redirect("/admin", Some(SetCookieValue(login.value)))
  {
  }

  /** A missing or empty role id answers "User role not found." and the role is never looked up. */
  lemma MissingRoleSkipsLookup(email: Option<string>, password: Option<string>,
                               token: string, user: User, role: Reply<Role>)
    requires !Truthy(user.role)
    ensures var h := Action(email, password, Ok(token), Ok(user), role);
            h.outcome == Message(None, None, false, "User role not found.") &&
            forall c :: c in h.calls ==> !c.GetRole?
  {
  }

  /** The role comparison is exact: any other name, "administrator" among them,
      answers the permission message. */
  lemma RoleNameIsExact(email: Option<string>, password: Option<string>,
                        token: string, user: User, name: Option<string>)
    requires Truthy(user.role) && name != Some("Administrator")
    ensures Action(email, password, Ok(token), Ok(user), Ok(Role(name))).outcome ==
              Message(None, None, false, "You do not have permission to access this page.")
  {
  }

  /** Any exception from the three calls answers the 401 JSON failure. */
  lemma ExceptionsAnswer401(email: Option<string>, password: Option<string>,
                            login: Reply<string>, me: Reply<User>, role: Reply<Role>)
    requires login.Fail? || me.Fail? || (me.Ok? && Truthy(me.value.role) && role.Fail?)
    ensures Action(email, password, login, me, role).outcome ==
              Message(Some(401), Some("application/json"), false, "Login failed. Check your credentials.")
  {
  }

  /** No denial sets a cookie; every denial reports `success: false`; and only the
      exception path sets a status, the role and permission denials leave it unset. */
  lemma DenialsSetNoCookie(email: Option<string>, password: Option<string>,
                           login: Reply<string>, me: Reply<User>, role: Reply<Role>)
    ensures var o := Action(email, password, login, me, role).outcome;
            !o.Redirect? ==> o.Message? && !SetsCookie(o) && !o.success &&
                             (o.explicitStatus.Some? <==> o.message == LoginFailed)
  {
  }
}
