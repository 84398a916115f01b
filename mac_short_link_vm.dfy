/**
 * The macOS ShortLinkViewModel: the create/edit form, its validation, the
 * request it builds, and what each action does to the form, the stored
 * links and the messages. The reply of each API request is a parameter;
 * so are Foundation's URL check and the saved default domain.
 */
module MacShortLinkViewModel {
  import opened Wrappers
  import opened ApiClient
  import opened MacModels

  /** The create/edit form's fields, kept together as one value. */
  datatype Form = Form(
    targetURL: string,
    selectedDomain: string,
    customSlug: string,
    title: string,
    password: string,
    expireAt: Option<int>,
    enableExpiry: bool,
    expirationRedirectURL: string,
    selectedTagIDs: seq<int>)

  const EmptyForm := Form("", "", "", "", "", None, false, "", [])

  /** Every field of the ViewModel, for stating what an action leaves alone. */
  datatype Fields = Fields(
    isLoading: bool,
    errorMessage: Option<string>,
    successMessage: Option<string>,
    domains: seq<string>,
    form: Form,
    dailyVisits: Option<int>,
    monthlyVisits: Option<int>,
    totalVisits: Option<int>)

  /** The create request the form describes. */
  function CreateRequest(f: Form): (r: CreateShortURLRequest)
    ensures r.targetURL == f.targetURL && r.domain == f.selectedDomain
    ensures r.customSlug == IfNotEmpty(f.customSlug) && r.title == IfNotEmpty(f.title)
    ensures r.password == IfNotEmpty(f.password)
    ensures r.expirationRedirectURL == IfNotEmpty(f.expirationRedirectURL)
    ensures r.expireAt.Some? <==> f.enableExpiry && f.expireAt.Some?
    ensures r.expireAt.Some? ==> r.expireAt == f.expireAt
    ensures r.tagIDs == IfNotEmpty(f.selectedTagIDs)
  {
    CreateShortURLRequest(f.targetURL, f.selectedDomain, IfNotEmpty(f.customSlug), IfNotEmpty(f.title),
                          IfNotEmpty(f.password), if f.enableExpiry then f.expireAt else None,
                          IfNotEmpty(f.expirationRedirectURL),
                          IfNotEmpty(f.selectedTagIDs))
  }

  /** The form as `resetForm` leaves it: every field empty except the domain choice. */
  function Reset(f: Form): (r: Form)
    ensures r == EmptyForm.(selectedDomain := f.selectedDomain)
  {
    f.(targetURL := "", customSlug := "", title := "", password := "", expireAt := None, enableExpiry := false,
       expirationRedirectURL := "", selectedTagIDs := [])
  }

  /** `populateForm(from:)`: the link's values, the password and redirect left as they were. */
  function Populated(f: Form, link: ShortLink): (r: Form)
    reads link
    ensures r.enableExpiry <==> link.expireAt.Some?
    ensures r.customSlug == link.customSlug.GetOr("")
    ensures r.password == f.password && r.expirationRedirectURL == f.expirationRedirectURL
  {
    f.(targetURL := link.targetURL, selectedDomain := link.domain, customSlug := link.customSlug.GetOr(""),
       title := link.title, expireAt := link.expireAt, enableExpiry := link.expireAt != None,
       selectedTagIDs := link.tagIDs)
  }

  /** A reset form sends a request with only the target and domain, and no optional field. */
  lemma ResetFormSendsBareRequest(f: Form)
    ensures var r := CreateRequest(Reset(f));
      && r.customSlug.None? && r.title.None? && r.password.None? && r.expireAt.None?
      && r.expirationRedirectURL.None? && r.tagIDs.None?
      && r.domain == f.selectedDomain && r.targetURL == ""
  {
  }

  /**
   * Editing a link fills the form so that a create request made from it
   * carries the link's target, domain, expiry and tags, and its slug and
   * title when they are not empty.
   */
  lemma PopulatedFormRecreatesLink(f: Form, link: ShortLink)
    ensures var r := CreateRequest(Populated(f, link));
      && r.targetURL == link.targetURL && r.domain == link.domain && r.expireAt == link.expireAt
      && (link.tagIDs != [] ==> r.tagIDs == Some(link.tagIDs))
      && (link.customSlug.Some? && link.customSlug.value != "" ==> r.customSlug == link.customSlug)
      && (link.title != "" ==> r.title == Some(link.title))
  {
  }

  /** Whether a stored link carries the values a create request and its reply put there. */
  predicate Records(link: ShortLink, f: Form, data: ShortURLResponse, now: int)
    reads link
  {
    && link.slug == data.slug && link.domain == f.selectedDomain && link.targetURL == f.targetURL
    && link.shortURL == data.shortURL && link.title == f.title && link.customSlug == data.customSlug
    && link.hasPassword == (f.password != "") && link.expireAt == (if f.enableExpiry then f.expireAt else None)
    && link.createdAt == now && link.tagIDs == f.selectedTagIDs
  }

  /** `d.data?.visitCount`. */
  function VisitCount(response: APIResponse<VisitStatResponse>): (r: Option<int>)
    ensures r.Some? <==> response.data.Some?
    ensures r.Some? ==> r.value == response.data.value.visitCount
  {
    if response.data.Some? then Some(response.data.value.visitCount) else None
  }

  /** The three visit-count requests `loadStats` makes, in order. */
  function StatRequests(domain: string, slug: string): (r: seq<Endpoint>)
    ensures |r| == 3
    ensures forall k :: 0 <= k < 3 ==> r[k].GetLinkVisitStat? && r[k].domain == domain && r[k].slug == slug
    ensures r[0].period == "daily" && r[1].period == "monthly" && r[2].period == "totally"
  {
    [GetLinkVisitStat(domain, slug, "daily"), GetLinkVisitStat(domain, slug, "monthly"),
     GetLinkVisitStat(domain, slug, "totally")]
  }

  /** The request `createShortLink` builds: target and domain, then each optional field the form fills. */
  method BuildRequest(f: Form) returns (request: CreateShortURLRequest)
    ensures request == CreateRequest(f)
  {
    request := CreateShortURLRequest(f.targetURL, f.selectedDomain, None, None, None, None, None, None);
    if f.customSlug != "" { request := request.(customSlug := Some(f.customSlug)); }
    if f.title != "" { request := request.(title := Some(f.title)); }
    if f.password != "" { request := request.(password := Some(f.password)); }
    if f.enableExpiry && f.expireAt.Some? { request := request.(expireAt := f.expireAt); }
    if f.expirationRedirectURL != "" { request := request.(expirationRedirectURL := Some(f.expirationRedirectURL)); }
    if f.selectedTagIDs != [] { request := request.(tagIDs := Some(f.selectedTagIDs)); }
  }

  class ShortLinkViewModel {
    var isLoading: bool
    var errorMessage: Option<string>
    var successMessage: Option<string>
    var domains: seq<string>
    var form: Form
    var dailyVisits: Option<int>
    var monthlyVisits: Option<int>
    var totalVisits: Option<int>

    ghost function State(): Fields
      reads this
    {
      Fields(isLoading, errorMessage, successMessage, domains, form, dailyVisits, monthlyVisits, totalVisits)
    }

    constructor ()
      ensures State() == Fields(false, None, None, [], EmptyForm, None, None, None)
    {
      isLoading := false;
      errorMessage := None;
      successMessage := None;
      domains := [];
      form := EmptyForm;
      dailyVisits := None;
      monthlyVisits := None;
      totalVisits := None;
    }

    /**
     * `loadDomains`: the fetched list (empty when the reply has none); the
     * domain choice is filled only when it was empty and the list is not,
     * with the saved default before the first domain.
     */
    method LoadDomains(reply: Outcome<APIResponse<DomainsResponse>>, savedDefault: Option<string>)
      modifies this
      ensures reply.Threw? ==> State() == old(State()).(errorMessage := Some(reply.error.ErrorDescription()))
      ensures reply.Returned? ==>
        var fetched := if reply.value.data.Some? then reply.value.data.value.domains else [];
        State() == old(State()).(domains := fetched, form := old(form).(selectedDomain := form.selectedDomain))
      ensures form.selectedDomain != old(form.selectedDomain) ==> old(form.selectedDomain) == "" && domains != []
      ensures old(form.selectedDomain) == "" && reply.Returned? && domains != [] ==>
        form.selectedDomain == savedDefault.GetOr(domains[0])
    {
      match reply {
        case Threw(error) =>
          errorMessage := Some(error.ErrorDescription());
        case Returned(response) =>
          domains := if response.data.Some? then response.data.value.domains else [];
          if form.selectedDomain == "" && domains != [] {
            form := form.(selectedDomain := savedDefault.GetOr(domains[0]));
          }
      }
    }

    /** `resetForm`. */
    method ResetForm()
      modifies this
      ensures State() == old(State()).(form := Reset(old(form)))
    {
      form := form.(targetURL := "", customSlug := "", title := "", password := "", expireAt := None,
                    enableExpiry := false, expirationRedirectURL := "", selectedTagIDs := []);
    }

    /** `populateForm(from:)`. */
    method PopulateForm(link: ShortLink)
      modifies this
      ensures State() == old(State()).(form := Populated(old(form), link))
    {
      form := form.(targetURL := link.targetURL, selectedDomain := link.domain,
                    customSlug := link.customSlug.GetOr(""), title := link.title, expireAt := link.expireAt,
                    enableExpiry := link.expireAt != None, selectedTagIDs := link.tagIDs);
    }

    /**
     * `createShortLink`: an empty target or one that is not a URL is refused
     * with its message and nothing is sent. Otherwise the form's request is
     * sent; a reply with data stores the new link, sets the success message
     * and resets the form; a thrown error is shown. `isLoading` is false
     * once a request was sent.
     */
    method CreateShortLink(isValidURL: string -> bool, reply: Outcome<APIResponse<ShortURLResponse>>,
                           context: ModelContext, now: int)
      returns (ok: bool, sent: Option<Endpoint>)
      modifies this, context
      ensures old(form.targetURL) == "" ==>
        !ok && sent.None? && State() == old(State()).(errorMessage := Some("Target URL is required"))
      ensures old(form.targetURL) != "" && !isValidURL(old(form.targetURL)) ==>
        !ok && sent.None? && State() == old(State()).(errorMessage := Some("Please enter a valid URL"))
      ensures sent.Some? <==> old(form.targetURL) != "" && isValidURL(old(form.targetURL))
      ensures sent.Some? ==> sent.value == CreateShortURL(CreateRequest(old(form)))
      ensures ok <==> sent.Some? && reply.Returned? && reply.value.data.Some?
      ensures ok ==>
        && |context.links| == |old(context.links)| + 1
        && context.links[..|old(context.links)|] == old(context.links)
        && fresh(context.links[|old(context.links)|])
        && Records(context.links[|old(context.links)|], old(form), reply.value.data.value, now)
        && State() == old(State()).(isLoading := false, form := Reset(old(form)),
                                    successMessage := Some("Short link created and copied!"))
      ensures !ok ==> context.links == old(context.links)
      ensures context.shares == old(context.shares)
      ensures sent.Some? && reply.Threw? ==>
        State() == old(State()).(isLoading := false, errorMessage := Some(reply.error.ErrorDescription()))
      ensures sent.Some? && reply.Returned? && reply.value.data.None? ==>
        State() == old(State()).(isLoading := false)
    {
      if form.targetURL == "" {
        errorMessage := Some("Target URL is required");
        return false, None;
      }
      if !isValidURL(form.targetURL) {
        errorMessage := Some("Please enter a valid URL");
        return false, None;
      }
      isLoading := true;
      var request := BuildRequest(form);
      sent := Some(CreateShortURL(request));
      ok := false;
      match reply {
        case Threw(error) =>
          errorMessage := Some(error.ErrorDescription());
        case Returned(response) =>
          if response.data.Some? {
            StoreCreated(response.data.value, context, now);
            ok := true;
          }
      }
      isLoading := false;
    }

    /** The success branch of `createShortLink`: store the new link, announce it, reset the form. */
    method StoreCreated(data: ShortURLResponse, context: ModelContext, now: int)
      modifies this, context
      ensures |context.links| == |old(context.links)| + 1
      ensures context.links[..|old(context.links)|] == old(context.links)
      ensures fresh(context.links[|old(context.links)|])
      ensures Records(context.links[|old(context.links)|], old(form), data, now)
      ensures context.shares == old(context.shares)
      ensures State() == old(State()).(form := Reset(old(form)), successMessage := Some("Short link created and copied!"))
    {
      var link := new ShortLink(data.slug, form.selectedDomain, form.targetURL, data.shortURL, form.title,
                                data.customSlug, form.password != "",
                                if form.enableExpiry then form.expireAt else None, now, form.selectedTagIDs);
      context.InsertLink(link);
      successMessage := Some("Short link created and copied!");
      ResetForm();
    }

    /**
     * `updateShortLink`: an empty or invalid target is refused and nothing
     * is sent; otherwise the update request names the link and carries the
     * form's target and title, and only a reply that did not throw writes
     * them into the link.
     */
    method UpdateShortLink(link: ShortLink, isValidURL: string -> bool, reply: Outcome<APIResponse<ShortURLResponse>>)
      returns (ok: bool, sent: Option<Endpoint>)
      modifies this, link
      ensures old(form.targetURL) == "" || !isValidURL(old(form.targetURL)) ==>
        !ok && sent.None? && State() == old(State()).(errorMessage := Some("Please enter a valid URL"))
      ensures sent.Some? <==> old(form.targetURL) != "" && isValidURL(old(form.targetURL))
      ensures sent.Some? ==>
        sent.value == UpdateShortURL(UpdateShortURLRequest(old(link.domain), old(link.slug), old(form.targetURL),
                                                           old(form.title)))
      ensures ok <==> sent.Some? && reply.Returned?
      ensures ok ==> (link.targetURL == old(form.targetURL) && link.title == old(form.title)
        && State() == old(State()).(isLoading := false, successMessage := Some("Short link updated!")))
      ensures !ok ==> link.targetURL == old(link.targetURL) && link.title == old(link.title)
      ensures sent.Some? && reply.Threw? ==>
        State() == old(State()).(isLoading := false, errorMessage := Some(reply.error.ErrorDescription()))
      ensures link.slug == old(link.slug) && link.domain == old(link.domain) && link.shortURL == old(link.shortURL)
      ensures link.customSlug == old(link.customSlug) && link.expireAt == old(link.expireAt)
      ensures link.tagIDs == old(link.tagIDs) && link.createdAt == old(link.createdAt)
      ensures link.hasPassword == old(link.hasPassword)
    {
      if form.targetURL == "" || !isValidURL(form.targetURL) {
        errorMessage := Some("Please enter a valid URL");
        return false, None;
      }
      sent := Some(UpdateShortURL(UpdateShortURLRequest(link.domain, link.slug, form.targetURL, form.title)));
      ok := ApplyUpdate(link, reply);
    }

    /** The request's outcome: a reply writes the form into the link; a thrown error is shown. */
    method ApplyUpdate(link: ShortLink, reply: Outcome<APIResponse<ShortURLResponse>>) returns (ok: bool)
      modifies this, link
      ensures ok <==> reply.Returned?
      ensures ok ==> (link.targetURL == old(form.targetURL) && link.title == old(form.title)
        && State() == old(State()).(isLoading := false, successMessage := Some("Short link updated!")))
      ensures !ok ==> (link.targetURL == old(link.targetURL) && link.title == old(link.title)
        && State() == old(State()).(isLoading := false, errorMessage := Some(reply.error.ErrorDescription())))
      ensures link.slug == old(link.slug) && link.domain == old(link.domain) && link.shortURL == old(link.shortURL)
      ensures link.customSlug == old(link.customSlug) && link.expireAt == old(link.expireAt)
      ensures link.tagIDs == old(link.tagIDs) && link.createdAt == old(link.createdAt)
      ensures link.hasPassword == old(link.hasPassword)
    {
      isLoading := true;
      match reply {
        case Returned(_) =>
          link.targetURL := form.targetURL;
          link.title := form.title;
          successMessage := Some("Short link updated!");
          ok := true;
        case Threw(error) =>
          errorMessage := Some(error.ErrorDescription());
          ok := false;
      }
      isLoading := false;
    }

    /** `deleteShortLink`: a body-less delete request; the link leaves the store only when it succeeded. */
    method DeleteShortLink(link: ShortLink, reply: Outcome<()>, context: ModelContext)
      returns (ok: bool, sent: Endpoint)
      modifies this, context
      ensures sent == DeleteShortURL(DeleteShortURLRequest(link.domain, link.slug))
      ensures ok <==> reply.Returned?
      ensures ok ==> (link !in context.links && (forall l :: l in context.links <==> l in old(context.links) && l != link)
        && State() == old(State()).(isLoading := false, successMessage := Some("Short link deleted")))
      ensures !ok ==> (context.links == old(context.links)
        && State() == old(State()).(isLoading := false, errorMessage := Some(reply.error.ErrorDescription())))
      ensures ok ==> context.links == Without(old(context.links), link)
      ensures context.shares == old(context.shares)
    {
      isLoading := true;
      sent := DeleteShortURL(DeleteShortURLRequest(link.domain, link.slug));
      match reply {
        case Returned(_) =>
          context.DeleteLink(link);
          successMessage := Some("Short link deleted");
          ok := true;
        case Threw(error) =>
          errorMessage := Some(error.ErrorDescription());
          ok := false;
      }
      isLoading := false;
    }

    /**
     * `loadStats`: the daily, monthly and total requests in turn; each reply
     * sets its count (none when the reply has no data), and the first thrown
     * error is shown and ends the run, so later requests are not sent.
     */
    method LoadStats(domain: string, slug: string, daily: Outcome<APIResponse<VisitStatResponse>>,
                     monthly: Outcome<APIResponse<VisitStatResponse>>, total: Outcome<APIResponse<VisitStatResponse>>)
      returns (sent: seq<Endpoint>)
      modifies this
      ensures 1 <= |sent| <= 3 && sent == StatRequests(domain, slug)[..|sent|]
      ensures |sent| == 1 <==> daily.Threw?
      ensures |sent| == 3 <==> daily.Returned? && monthly.Returned?
      ensures daily.Threw? ==> State() == old(State()).(errorMessage := Some(daily.error.ErrorDescription()))
      ensures daily.Returned? && monthly.Threw? ==>
        State() == old(State()).(dailyVisits := VisitCount(daily.value),
                                 errorMessage := Some(monthly.error.ErrorDescription()))
      ensures daily.Returned? && monthly.Returned? && total.Threw? ==>
        State() == old(State()).(dailyVisits := VisitCount(daily.value), monthlyVisits := VisitCount(monthly.value),
                                 errorMessage := Some(total.error.ErrorDescription()))
      ensures daily.Returned? && monthly.Returned? && total.Returned? ==>
        State() == old(State()).(dailyVisits := VisitCount(daily.value), monthlyVisits := VisitCount(monthly.value),
                                 totalVisits := VisitCount(total.value))
    {
      var requests := StatRequests(domain, slug);
      sent := requests[..1];
      if daily.Threw? {
        errorMessage := Some(daily.error.ErrorDescription());
        return;
      }
      dailyVisits := VisitCount(daily.value);
      sent := requests[..2];
      if monthly.Threw? {
        errorMessage := Some(monthly.error.ErrorDescription());
        return;
      }
      monthlyVisits := VisitCount(monthly.value);
      sent := requests;
      if total.Threw? {
        errorMessage := Some(total.error.ErrorDescription());
        return;
      }
      totalVisits := VisitCount(total.value);
    }
  }
}
