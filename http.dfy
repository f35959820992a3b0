/** The values the routes exchange with the framework and with the remote
    backend: feedback records, the outcome of a loader or action, and the
    remote calls a handler issues. */
module Http {
  import opened Base

  /** A feedback item as the backend returns it. `status` is optional. */
  datatype Feedback = Feedback(id: int, title: string, description: string, category: string, status: Option<string>)

  /** The three form fields of a new feedback item. */
  datatype Fields = Fields(title: string, description: string, category: string)

  /** What `/users/me` returns: the user's id and role id (either may be absent or empty). */
  datatype User = User(id: string, role: Option<string>)

  /** What `/roles/{id}` returns. */
  datatype Role = Role(name: Option<string>)

  /** One remote request, with the bearer token it carries. */
  datatype Call =
    | Login(email: Option<string>, password: Option<string>)
    | GetMe(bearer: Option<string>)
    | GetRole(bearer: Option<string>, roleId: string)
    | ListFeedbacks(bearer: Option<string>, createdBy: Option<string>)
    | CreateFeedback(bearer: Option<string>, fields: Fields)
    | PatchStatus(bearer: Option<string>, itemId: int, status: string)
    | DeleteFeedback(bearer: Option<string>, itemId: int)

  /** What a loader or an action hands back to the router. */
  datatype Outcome =
      /** A 302 response with a Location header and, possibly, a Set-Cookie header. */
    | Redirect(location: string, setCookie: Option<string>)
      /** `Response.json({ error }, { status })`. */
    | JsonError(status: int, error: string)
      /** `new Response(JSON.stringify({ success, message }), init)`; `explicitStatus` and
          `contentType` are None when `init` does not set them. */
    | Message(explicitStatus: Option<int>, contentType: Option<string>, success: bool, message: string)
      /** A plain `{ success, message }` object returned instead of a Response. */
    | Plain(success: bool, message: string)
      /** The dashboard loader's `Response.json({ feedbacks })` (status 200). */
    | FeedbackData(listing: Option<seq<Feedback>>)
      /** The admin loader's `{ token, feedbacks }` data. */
    | AdminData(token: string, feedbacks: seq<Feedback>)
      /** A loader's `null`: render the page. */
    | Proceed

  /** One handled request: the outcome and the remote calls issued, in order. */
  datatype Handled = Handled(outcome: Outcome, calls: seq<Call>)

  const LoginFailed: string := "Login failed. Check your credentials."
  const RoleNotFound: string := "User role not found."
  const PermissionDenied: string := "You do not have permission to access this page."
  const Administrator: string := "Administrator"

  /** The 401 JSON answer the login pages give when a remote call throws. */
  const CredentialsRejected: Outcome :=
    Message(Some(401), Some("application/json"), false, LoginFailed)

  /** True when the outcome carries a Set-Cookie header. */
  predicate SetsCookie(o: Outcome) {
    o.Redirect? && o.setCookie.Some?
  }
}
