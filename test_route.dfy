/** The second administrator login route (app/routes/test.tsx). It checks the
    credentials locally, logs in through the shared SDK client, installs the
    token on that client, and reads the user and the role through it. */
module TestLogin {
  import opened Base
  import opened Http
  import opened SessionCookie
  import AdminLogin

  const CredentialsMissing: string := "Email or password missing."

  /** The module-level SDK client; `token` is the bearer it attaches to requests. */
  class DirectusClient {
    var token: Option<string>

    constructor ()
      ensures token == None
    {
      token := None;
    }

    /** `client.setToken(t)`. */
    method SetToken(t: string)
      modifies this
      ensures token == Some(t)
    {
      token := Some(t);
    }
  }

  /** `loader`: the same decision as the administrator login page's loader. */
  function Loader(header: Option<string>): (o: Outcome)
    ensures o == Redirect("/admin", None) || o == Proceed
  {
    match header
    case None => Proceed
    case Some(cookie) => if Match(cookie).Some? then Redirect("/admin", None) else Proceed
  }

  /** What `action` answers and which calls it issues, stated with the login
      token carried explicitly by the `/users/me` and role requests. */
  function Decide(email: Option<string>, password: Option<string>,
                  login: Reply<string>, me: Reply<User>, role: Reply<Role>): (h: Handled)
    ensures h.outcome.Redirect? || (h.outcome.Plain? && !h.outcome.success)
    ensures h.calls == [] <==> !(Truthy(email) && Truthy(password))
    ensures forall i :: 1 <= i < |h.calls| ==>
              login.Ok? && (h.calls[i].GetMe? || h.calls[i].GetRole?) && h.calls[i].bearer == Some(login.value)
  {
    if !Truthy(email) || !Truthy(password) then
      Handled(Plain(false, CredentialsMissing), [])
    else
      var asked := [Login(email, password)];
      match login
      case Fail => Handled(Plain(false, LoginFailed), asked)
      case Ok(token) =>
        var asked := asked + [GetMe(Some(token))];
        match me
        case Fail => Handled(Plain(false, LoginFailed), asked)
        case Ok(user) =>
          if !Truthy(user.role) then
            Handled(Plain(false, RoleNotFound), asked)
          else
            var asked := asked + [GetRole(Some(token), user.role.value)];
            match role
            case Fail => Handled(Plain(false, LoginFailed), asked)
            case Ok(info) =>
              if info.name != Some(Administrator) then
                Handled(Plain(false, PermissionDenied), asked)
              else
                Handled(Redirect("/admin", Some(SetCookieValue(token))), asked)
  }

  /** `action` step by step on the shared client. The requests read their bearer
      from the client, so the result agrees with `Decide` only because the token
      is installed before `readMe` and `readRole` are issued. */
  method Action(client: DirectusClient, email: Option<string>, password: Option<string>,
                login: Reply<string>, me: Reply<User>, role: Reply<Role>) returns (h: Handled)
    modifies client
    ensures h == Decide(email, password, login, me, role)
    ensures client.token ==
              if Truthy(email) && Truthy(password) && login.Ok? then Some(login.value) else old(client.token)
  {
    if !Truthy(email) || !Truthy(password) {
      return Handled(Plain(false, CredentialsMissing), []);
    }
    var calls := [Login(email, password)];
    if login.Fail? {
      return Handled(Plain(false, LoginFailed), calls);
    }
    var token := login.value;
    client.SetToken(token);
    calls := calls + [GetMe(client.token)];
    if me.Fail? {
      return Handled(Plain(false, LoginFailed), calls);
    }
    var roleId := me.value.role;
    if !Truthy(roleId) {
      return Handled(Plain(false, RoleNotFound), calls);
    }
    calls := calls + [GetRole(client.token, roleId.value)];
    if role.Fail? {
      return Handled(Plain(false, LoginFailed), calls);
    }
    if role.value.name != Some(Administrator) {
      return Handled(Plain(false, PermissionDenied), calls);
    }
    h := Handled(Redirect("/admin", Some(SetCookieValue(token))), calls);
  }

  /** The two login pages' loaders agree on every Cookie header. */
  lemma LoaderMatchesAdminLogin(header: Option<string>)
    ensures Loader(header) == AdminLogin.Loader(header)
  {
  }

  /** A missing or empty email or password is answered before any login attempt. */
  lemma MissingCredentialsNoCall(email: Option<string>, password: Option<string>,
                                 login: Reply<string>, me: Reply<User>, role: Reply<Role>)
    requires !Truthy(email) || !Truthy(password)
    ensures Decide(email, password, login, me, role) == Handled(Plain(false, "Email or password missing."), [])
  {
  }

  /** With both credentials present this page issues the same calls as the
      administrator login page and admits exactly the same logins with the same
      302; it reports every denial as a plain `success: false` object with the
      same message, in place of a Response. */
  lemma SameGateAsAdminLogin(email: Option<string>, password: Option<string>,
                             login: Reply<string>, me: Reply<User>, role: Reply<Role>)
    requires Truthy(email) && Truthy(password)
    ensures var mine := Decide(email, password, login, me, role);
            var theirs := AdminLogin.Action(email, password, login, me, role);
            mine.calls == theirs.calls &&
            (mine.outcome.Redirect? <==> theirs.outcome.Redirect?) &&
            (mine.outcome.Redirect? ==> mine.outcome == theirs.outcome) &&
            (mine.outcome.Plain? ==> theirs.outcome.Message? && mine.outcome.message == theirs.outcome.message)
  {
  }

  /** A missing role id never reaches `readRole`; a role name other than exactly
      "Administrator" is refused. */
  lemma RoleGate(email: string, password: string, token: string, user: User, role: Reply<Role>)
    requires email != "" && password != ""
    ensures var h := Decide(Some(email), Some(password), Ok(token), Ok(user), role);
            (!Truthy(user.role) ==> h.outcome == Plain(false, "User role not found.") &&
                                    forall c :: c in h.calls ==> !c.GetRole?) &&
            (Truthy(user.role) && role.Ok? && role.value.name != Some("Administrator") ==>
               h.outcome == Plain(false, "You do not have permission to access this page.")) &&
            (Truthy(user.role) && role == Ok(Role(Some("Administrator"))) ==>
               h.outcome == Redirect("/admin", Some(SetCookieValue(token))))
  {
  }

  /** With both credentials present, a failed login, `readMe` or `readRole` lands
      in the `catch`, which answers the plain `success: false` login-failed object. */
  lemma ExceptionsAnswerPlain(email: Option<string>, password: Option<string>,
                              login: Reply<string>, me: Reply<User>, role: Reply<Role>)
    requires Truthy(email) && Truthy(password)
    requires login.Fail? || me.Fail? || (me.Ok? && Truthy(me.value.role) && role.Fail?)
    ensures Decide(email, password, login, me, role).outcome == Plain(false, "Login failed. Check your credentials.")
  {
  }
}
