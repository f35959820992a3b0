/** The user dashboard route: its loader lists the user's own feedback and its
    action creates a feedback item. */
module Dashboard {
  import opened Base
  import opened Http
  import opened SessionCookie

  const FieldsRequired: string := "All fields are required"
  const AddFailed: string := "Failed to add feedback"

  /** `loader`: no token redirects to /login; otherwise `/users/me`, then the
      feedback list filtered on `user_created` equal to the returned id; any
      failure redirects to /login. `me` and `list` are the replies of those calls. */
  function Loader(header: Option<string>, me: Reply<User>, list: Reply<Option<seq<Feedback>>>): (h: Handled)
    ensures h.outcome.Redirect? ==> h.outcome == Redirect("/login", None)
    ensures h.outcome.Redirect? || h.outcome.FeedbackData?
    ensures forall c :: c in h.calls ==> (c.GetMe? || c.ListFeedbacks?) && c.bearer == GetToken(header)
  {
    match GetToken(header)
    case None => Handled(Redirect("/login", None), [])
    case Some(token) =>
      var asked := [GetMe(Some(token))];
      match me
      case Fail => Handled(Redirect("/login", None), asked)
      case Ok(user) =>
        var calls := asked + [ListFeedbacks(Some(token), Some(user.id))];
        match list
        case Fail => Handled(Redirect("/login", None), calls)
        case Ok(data) => Handled(FeedbackData(data), calls)
  }

  /** `action`: the token is checked before the form; a missing or empty field
      gives 400; otherwise one POST of exactly the three fields, whose failure
      gives 500 and whose success redirects to /dashboard. */
  function Action(header: Option<string>, title: Option<string>, description: Option<string>,
                  category: Option<string>, post: Reply<()>): (h: Handled)
    ensures |h.calls| <= 1
    ensures forall c :: c in h.calls ==> c.CreateFeedback? && c.bearer == GetToken(header)
  {
    match GetToken(header)
    case None => Handled(Redirect("/login", None), [])
    case Some(token) =>
      if !Truthy(title) || !Truthy(description) || !Truthy(category) then
        Handled(JsonError(400, FieldsRequired), [])
      else
        var calls := [CreateFeedback(Some(token), Fields(title.value, description.value, category.value))];
        match post
        case Ok(_) => Handled(Redirect("/dashboard", None), calls)
        case Fail => Handled(JsonError(500, AddFailed), calls)
  }

  /** Without a token the loader redirects to /login before any remote call. */
  lemma LoaderNeedsToken(header: Option<string>, me: Reply<User>, list: Reply<Option<seq<Feedback>>>)
    ensures GetToken(header).None? ==> Loader(header, me, list) == Handled(Redirect("/login", None), [])
  {
  }

  /** The loader yields data exactly when there is a token and both fetches succeed;
      the data is the list fetch's, and that fetch filters on the id `/users/me` returned. */
  lemma LoaderSucceedsIff(header: Option<string>, me: Reply<User>, list: Reply<Option<seq<Feedback>>>)
    ensures Loader(header, me, list).outcome.FeedbackData? <==> GetToken(header).Some? && me.Ok? && list.Ok?
    ensures Loader(header, me, list).outcome.FeedbackData? ==> Loader(header, me, list).outcome.listing == list.value
    ensures GetToken(header).Some? && me.Ok? ==>
              Loader(header, me, list).calls == [GetMe(GetToken(header)), ListFeedbacks(GetToken(header), Some(me.value.id))]
  {
  }

  /** The action redirects to /login without a token, whatever the form holds;
      with a token and a missing field it answers 400 without calling out. */
  lemma ActionChecksTokenThenFields(header: Option<string>, title: Option<string>, description: Option<string>,
                                    category: Option<string>, post: Reply<()>)
    ensures GetToken(header).None? ==>
              Action(header, title, description, category, post) == Handled(Redirect("/login", None), [])
    ensures GetToken(header).Some? && !(Truthy(title) && Truthy(description) && Truthy(category)) ==>
              Action(header, title, description, category, post) == Handled(JsonError(400, FieldsRequired), [])
  {
  }

  /** With a token and all three fields, exactly `{title, description, category}`
      is posted; success redirects to /dashboard, failure answers 500. */
  lemma ActionPostsFields(header: Option<string>, title: string, description: string,
                          category: string, post: Reply<()>)
    requires GetToken(header).Some? && title != "" && description != "" && category != ""
    ensures var h := Action(header, Some(title), Some(description), Some(category), post);
            h.calls == [CreateFeedback(GetToken(header), Fields(title, description, category))] &&
            h.outcome == (if post.Ok? then Redirect("/dashboard", None) else JsonError(500, AddFailed))
  {
  }
}
