/** The admin dashboard route: its loader, and the page's local state (the
    feedback list, the add-form flag and the draft) with the handlers that edit it. */
module Admin {
  import opened Base
  import opened Http
  import opened SessionCookie
  import AdminLogin

  /** The status options the page offers. */
  const Statuses: seq<string> := ["pending", "in_progress", "resolved", "rejected"]

  /** The empty draft the form starts from and is reset to. */
  const EmptyDraft: Fields := Fields("", "", "")

  /** The loader as the file is written: the success branch calls `json`, which
      the file never imports, so that call throws inside the `try` and the
      `catch` redirects to /adminlogin like a failed fetch does. */
  function LoaderAsWritten(header: Option<string>, list: Reply<Option<seq<Feedback>>>): (h: Handled)
    ensures h.outcome == Redirect("/adminlogin", None)
    ensures h.calls == if TokenOrEmpty(header).Some? then [ListFeedbacks(TokenOrEmpty(header), None)] else []
  {
    match TokenOrEmpty(header)
    case None => Handled(Redirect("/adminlogin", None), [])
    case Some(token) => Handled(Redirect("/adminlogin", None), [ListFeedbacks(Some(token), None)])
  }

  /** As written, a signed-in administrator never reaches the page: the loader
      sends every request to /adminlogin, whose loader sees the token and sends
      it back to /admin. */
  lemma RedirectLoopAsWritten(header: Option<string>, list: Reply<Option<seq<Feedback>>>)
    requires TokenOrEmpty(header).Some?
    ensures LoaderAsWritten(header, list).outcome == Redirect("/adminlogin", None)
    ensures AdminLogin.Loader(header) == Redirect("/admin", None)
  {
  }

  /** The input that exhibits it: a valid session and a successful fetch. */
  lemma RedirectLoopExample()
    ensures LoaderAsWritten(Some("directus_token=abc"), Ok(Some([]))).outcome == Redirect("/adminlogin", None)
    ensures AdminLogin.Loader(Some("directus_token=abc")) == Redirect("/admin", None)
  {
    RoundTrip("abc", "");
    assert Name + "abc" + "" == "directus_token=abc";
    RedirectLoopAsWritten(Some("directus_token=abc"), Ok(Some([])));
  }

  /** The loader as intended: an absent header reads as "", no token redirects to
      /adminlogin, a failed fetch redirects to /adminlogin, and success yields the
      token with the fetched list, or [] when the reply has no data. */
  function Loader(header: Option<string>, list: Reply<Option<seq<Feedback>>>): (h: Handled)
    ensures h.outcome.Redirect? || h.outcome.AdminData?
    ensures h.outcome.Redirect? ==> h.outcome == Redirect("/adminlogin", None)
    ensures h.outcome.AdminData? ==> Some(h.outcome.token) == TokenOrEmpty(header)
  {
    match TokenOrEmpty(header)
    case None => Handled(Redirect("/adminlogin", None), [])
    case Some(token) =>
      var calls := [ListFeedbacks(Some(token), None)];
      match list
      case Fail => Handled(Redirect("/adminlogin", None), calls)
      case Ok(data) => Handled(AdminData(token, data.GetOr([])), calls)
  }

  /** No token (an absent header included) redirects before any call; a failed
      fetch redirects; a reply without data yields the empty list. */
  lemma LoaderOutcomes(header: Option<string>, list: Reply<Option<seq<Feedback>>>)
    ensures TokenOrEmpty(header).None? ==> Loader(header, list) == Handled(Redirect("/adminlogin", None), [])
    ensures header.None? ==> Loader(header, list).outcome == Redirect("/adminlogin", None)
    ensures TokenOrEmpty(header).Some? && list.Fail? ==> Loader(header, list).outcome == Redirect("/adminlogin", None)
    ensures TokenOrEmpty(header).Some? && list == Ok(None) ==>
              Loader(header, list).outcome == AdminData(TokenOrEmpty(header).value, [])
    ensures TokenOrEmpty(header).Some? && list.Ok? && list.value.Some? ==>
              Loader(header, list).outcome == AdminData(TokenOrEmpty(header).value, list.value.value)
  {
  }

  /** Even with the import in place the loop remains for a session the backend
      rejects: a failed fetch sends the request to /adminlogin, and that page's
      loader sends a present token straight back to /admin without checking it. */
  lemma ExpiredSessionLoop(header: Option<string>)
    requires TokenOrEmpty(header).Some?
    ensures Loader(header, Fail).outcome == Redirect("/adminlogin", None)
    ensures AdminLogin.Loader(header) == Redirect("/admin", None)
  {
  }

  /** `feedbacks.filter(fb => fb.id !== id)`. */
  function Without(s: seq<Feedback>, id: int): (r: seq<Feedback>)
    ensures |r| <= |s|
    ensures forall k :: 0 <= k < |r| ==> r[k].id != id
  {
    if s == [] then []
    else (if s[0].id != id then [s[0]] else []) + Without(s[1..], id)
  }

  /** The filter keeps exactly the items whose id differs, each as often as before. */
  lemma {:induction false} WithoutCounts(s: seq<Feedback>, id: int, x: Feedback)
    ensures multiset(Without(s, id))[x] == if x.id != id then multiset(s)[x] else 0
  {
    if s != [] {
      WithoutCounts(s[1..], id, x);
      assert s == [s[0]] + s[1..];
    }
  }

  /** The filter works piece by piece, so the kept items stay in their order. */
  lemma {:induction false} WithoutConcat(a: seq<Feedback>, b: seq<Feedback>, id: int)
    ensures Without(a + b, id) == Without(a, id) + Without(b, id)
  {
    if a == [] {
      assert a + b == b;
    } else {
      var keep := if a[0].id != id then [a[0]] else [];
      calc {
        Without(a + b, id);
        { assert (a + b)[0] == a[0]; }
        keep + Without((a + b)[1..], id);
        { assert (a + b)[1..] == a[1..] + b; }
        keep + Without(a[1..] + b, id);
        { WithoutConcat(a[1..], b, id); }
        keep + (Without(a[1..], id) + Without(b, id));
        (keep + Without(a[1..], id)) + Without(b, id);
      }
    }
  }

  /** Deleting an id no item carries changes nothing. */
  lemma {:induction false} WithoutAbsent(s: seq<Feedback>, id: int)
    requires forall k :: 0 <= k < |s| ==> s[k].id != id
    ensures Without(s, id) == s
  {
    if s != [] {
      WithoutAbsent(s[1..], id);
    }
  }

  /** `fb.status || "pending"`: the status the selector shows. */
  function ShownStatus(fb: Feedback): (r: string)
    ensures r != ""
    ensures Truthy(fb.status) ==> r == fb.status.value
  {
    if Truthy(fb.status) then fb.status.value else "pending"
  }

  /** An unset or empty status is shown as "pending"; the shown status is one of
      the four options exactly when the item's status is unset, empty, or itself
      one of them. */
  lemma ShownStatusSelectable(fb: Feedback)
    ensures !Truthy(fb.status) ==> ShownStatus(fb) == "pending"
    ensures ShownStatus(fb) in Statuses <==> !Truthy(fb.status) || fb.status.value in Statuses
  {
  }

  /** What the page does to the browser. */
  datatype Effect = WriteCookie(text: string) | Navigate(to: string)

  /** The `document.cookie` text that expires the cookie `name`. */
  function ExpireCookie(name: string): (text: string)
    ensures |text| > |name| + 10 && text[..|name|] == name && text[|name|] == '=' && text[|name| + 1] == ';'
    ensures text[|text| - 9 ..] == "Max-Age=0"
  {
    name + "=; path=/admin; Max-Age=0"
  }

  /** `handleLogout`: expire `admin_token` and `directus_token`, then go to /adminlogin. */
  function Logout(): (effects: seq<Effect>)
    ensures |effects| == 3 && effects[2] == Navigate("/adminlogin")
  {
    [WriteCookie(ExpireCookie("admin_token")), WriteCookie(ExpireCookie("directus_token")), Navigate("/adminlogin")]
  }

  /** Logout writes `admin_token=; path=/admin; Max-Age=0` and then
      `directus_token=; path=/admin; Max-Age=0`, before it navigates. */
  lemma LogoutExpiresBothCookies()
    ensures Logout()[0] == WriteCookie("admin_token=; path=/admin; Max-Age=0")
    ensures Logout()[1] == WriteCookie("directus_token=; path=/admin; Max-Age=0")
  {
    AdminTokenExpiry();
    SessionTokenExpiry();
  }

  /** The expiry text for `admin_token` spelled out. */
  lemma AdminTokenExpiry()
    ensures ExpireCookie("admin_token") == "admin_token=; path=/admin; Max-Age=0"
  {
  }

  /** The expiry text for `directus_token` spelled out. */
  lemma SessionTokenExpiry()
    ensures ExpireCookie("directus_token") == "directus_token=; path=/admin; Max-Age=0"
  {
  }

  /** The `name=value` part of the text written for `directus_token` is
      `directus_token=` with an empty value, in which the lookup finds no token. */
  lemma LogoutLeavesNoToken()
    ensures CookiePair(ExpireCookie("directus_token")) == Name
    ensures Match(CookiePair(ExpireCookie("directus_token"))) == None
  {
    var text := ExpireCookie("directus_token");
    assert text[..|Name|] == Name;
    assert text[|Name|] == ';';
    assert NoSemicolon(Name);
    RunEndAfter(text, 0, Name);
    assert forall i :: 0 <= i <= |Name| ==> !MatchAt(Name, i);
  }

  /** The admin page's local state. */
  class AdminPage {
    const token: string
    var feedbacks: seq<Feedback>
    var showAddForm: bool
    var newFeedback: Fields

    /** The state after the loader: its token and list, the form hidden, the draft empty. */
    constructor (token: string, initial: seq<Feedback>)
      ensures this.token == token && feedbacks == initial
      ensures !showAddForm && newFeedback == EmptyDraft
    {
      this.token := token;
      feedbacks := initial;
      showAddForm := false;
      newFeedback := EmptyDraft;
    }

    /** `fetchFeedbacks`: the list is replaced wholesale by the reply's data, or []
        when it has none; a failed fetch throws and leaves the state alone. */
    method FetchFeedbacks(reply: Reply<Option<seq<Feedback>>>) returns (calls: seq<Call>)
      modifies this
      ensures calls == [ListFeedbacks(Some(token), None)]
      ensures feedbacks == if reply.Ok? then reply.value.GetOr([]) else old(feedbacks)
      ensures showAddForm == old(showAddForm) && newFeedback == old(newFeedback)
    {
      calls := [ListFeedbacks(Some(token), None)];
      if reply.Ok? {
        feedbacks := reply.value.GetOr([]);
      }
    }

    /** `handleStatusUpdate`: PATCH the status, then refetch the whole list. */
    method HandleStatusUpdate(id: int, status: string, patch: Reply<()>,
                              refetch: Reply<Option<seq<Feedback>>>) returns (calls: seq<Call>)
      modifies this
      ensures calls == [PatchStatus(Some(token), id, status)] +
                       (if patch.Ok? then [ListFeedbacks(Some(token), None)] else [])
      ensures feedbacks == if patch.Ok? && refetch.Ok? then refetch.value.GetOr([]) else old(feedbacks)
      ensures showAddForm == old(showAddForm) && newFeedback == old(newFeedback)
    {
      calls := [PatchStatus(Some(token), id, status)];
      if patch.Ok? {
        var more := FetchFeedbacks(refetch);
        calls := calls + more;
      }
    }

    /** `handleDelete`: DELETE the item, then keep exactly the other items. */
    method HandleDelete(id: int, deleted: Reply<()>) returns (calls: seq<Call>)
      modifies this
      ensures calls == [DeleteFeedback(Some(token), id)]
      ensures feedbacks == if deleted.Ok? then Without(old(feedbacks), id) else old(feedbacks)
      ensures showAddForm == old(showAddForm) && newFeedback == old(newFeedback)
    {
      calls := [DeleteFeedback(Some(token), id)];
      if deleted.Ok? {
        feedbacks := Without(feedbacks, id);
      }
    }

    /** `handleAdd`: POST the draft; append the returned item at the end, reset
        the draft to three empty strings and hide the form. */
    method HandleAdd(created: Reply<Feedback>) returns (calls: seq<Call>)
      modifies this
      ensures calls == [CreateFeedback(Some(token), old(newFeedback))]
      ensures created.Ok? ==> feedbacks == old(feedbacks) + [created.value] &&
                              newFeedback == EmptyDraft && !showAddForm
      ensures created.Fail? ==> feedbacks == old(feedbacks) &&
                                newFeedback == old(newFeedback) && showAddForm == old(showAddForm)
    {
      calls := [CreateFeedback(Some(token), newFeedback)];
      if created.Ok? {
        feedbacks := feedbacks + [created.value];
        newFeedback := EmptyDraft;
        showAddForm := false;
      }
    }

    /** The "Add Feedback"/"Cancel" button. */
    method ToggleAddForm()
      modifies this
      ensures showAddForm == !old(showAddForm)
      ensures feedbacks == old(feedbacks) && newFeedback == old(newFeedback)
    {
      showAddForm := !showAddForm;
    }

    /** Typing in the title field. */
    method EditTitle(value: string)
      modifies this
      ensures newFeedback == old(newFeedback).(title := value)
      ensures feedbacks == old(feedbacks) && showAddForm == old(showAddForm)
    {
      newFeedback := newFeedback.(title := value);
    }

    /** Typing in the description field. */
    method EditDescription(value: string)
      modifies this
      ensures newFeedback == old(newFeedback).(description := value)
      ensures feedbacks == old(feedbacks) && showAddForm == old(showAddForm)
    {
      newFeedback := newFeedback.(description := value);
    }

    /** Choosing a category. */
    method EditCategory(value: string)
      modifies this
      ensures newFeedback == old(newFeedback).(category := value)
      ensures feedbacks == old(feedbacks) && showAddForm == old(showAddForm)
    {
      newFeedback := newFeedback.(category := value);
    }
  }

  /** After a successful delete no item of the list has the deleted id, every
      other item is kept as often as before, and a second delete of the same id
      changes nothing. */
  lemma DeleteRemovesExactly(s: seq<Feedback>, id: int, x: Feedback)
    ensures x in Without(s, id) <==> x in s && x.id != id
    ensures Without(Without(s, id), id) == Without(s, id)
  {
    WithoutCounts(s, id, x);
    WithoutAbsent(Without(s, id), id);
  }
}
