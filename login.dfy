/** The user login route: one login call, mapped to a redirect or a 401. */
module Login {
  import opened Base
  import opened Http
  import opened SessionCookie

  /** `action`: the form values are passed to the login call unchecked; success
      redirects to /dashboard with the session cookie, any exception gives 401. */
  function Action(email: Option<string>, password: Option<string>, login: Reply<string>): (h: Handled)
    ensures h.calls == [Login(email, password)]
  {
    var calls := [Login(email, password)];
    match login
    case Ok(token) => Handled(Redirect("/dashboard", Some(SetCookieValue(token))), calls)
    case Fail => Handled(CredentialsRejected, calls)
  }

  /** A successful login always lands on /dashboard (there is no role check) and
      sets exactly `directus_token=<token>; Path=/; HttpOnly; SameSite=Lax`; a failed
      one answers 401 as JSON with the failure message and sets no cookie. */
  lemma ActionOutcomes(email: Option<string>, password: Option<string>, login: Reply<string>)
    ensures login.Ok? ==>
              Action(email, password, login).outcome ==
              Redirect("/dashboard", Some("directus_token=" + login.value + "; Path=/; HttpOnly; SameSite=Lax"))
    ensures login.Fail? ==>
              Action(email, password, login).outcome ==
              Message(Some(401), Some("application/json"), false, "Login failed. Check your credentials.")
    ensures SetsCookie(Action(email, password, login).outcome) <==> login.Ok?
  {
  }

  /** The cookie set at login is read back by the dashboard's token lookup from
      the Cookie header the browser then sends, whenever the token is non-empty
      and has no `;`. */
  lemma SessionSurvivesRoundTrip(email: Option<string>, password: Option<string>, token: string, rest: string)
    requires token != [] && NoSemicolon(token)
    requires rest == [] || rest[0] == ';'
    ensures var o := Action(email, password, Ok(token)).outcome;
            o.Redirect? && o.setCookie.Some? &&
            GetToken(Some(CookiePair(o.setCookie.value) + rest)) == Some(token)
  {
    LoginCookieRoundTrip(token, rest);
  }
}
