/**
 * The macOS TextShareViewModel: the text form, the request it builds, and
 * what each action does to the form, the stored shares and the messages.
 * The reply of each API request is a parameter, and so is the saved
 * default domain.
 */
module MacTextShareViewModel {
  import opened Wrappers
  import opened ApiClient
  import opened MacModels

  /** The create/edit form's fields, kept together as one value. */
  datatype Form = Form(
    title: string,
    content: string,
    textType: TextType,
    selectedDomain: string,
    customSlug: string,
    password: string,
    expireAt: Option<int>,
    enableExpiry: bool,
    selectedTagIDs: seq<int>)

  const EmptyForm := Form("", "", PlainText, "", "", "", None, false, [])

  /** The title a share is sent and stored with when the form leaves it empty. */
  const UntitledTitle := "Untitled"

  /** The domain a share is stored under when the form names none. */
  const ServerDefaultDomain := "fs.to"

  /** Every field of the ViewModel, for stating what an action leaves alone. */
  datatype Fields = Fields(
    isLoading: bool,
    errorMessage: Option<string>,
    successMessage: Option<string>,
    domains: seq<string>,
    form: Form)

  /** `title.isEmpty ? "Untitled" : title`. */
  function EffectiveTitle(title: string): (r: string)
    ensures r != ""
    ensures title != "" ==> r == title
    ensures title == "" ==> r == UntitledTitle
  {
    if title == "" then UntitledTitle else title
  }

  /** The create request the form describes; the text type is always sent, as its raw value. */
  function CreateRequest(f: Form): (r: CreateTextRequest)
    ensures r.content == f.content && r.title == EffectiveTitle(f.title)
    ensures r.domain == IfNotEmpty(f.selectedDomain) && r.customSlug == IfNotEmpty(f.customSlug)
    ensures r.textType == Some(f.textType.RawValue())
    ensures r.password == IfNotEmpty(f.password)
    ensures r.expireAt.Some? <==> f.enableExpiry && f.expireAt.Some?
    ensures r.expireAt.Some? ==> r.expireAt == f.expireAt
    ensures r.tagIDs == IfNotEmpty(f.selectedTagIDs)
  {
    CreateTextRequest(f.content, EffectiveTitle(f.title), IfNotEmpty(f.selectedDomain), IfNotEmpty(f.customSlug),
                      Some(f.textType.RawValue()), IfNotEmpty(f.password),
                      if f.enableExpiry then f.expireAt else None, IfNotEmpty(f.selectedTagIDs))
  }

  /** The form as `resetForm` leaves it: every field empty, plain text, the domain choice kept. */
  function Reset(f: Form): (r: Form)
    ensures r == EmptyForm.(selectedDomain := f.selectedDomain)
  {
    f.(title := "", content := "", textType := PlainText, customSlug := "", password := "", expireAt := None,
       enableExpiry := false, selectedTagIDs := [])
  }

  /** `populateForm(from:)`: the share's values; a text type that does not parse reads as plain text. */
  function Populated(f: Form, share: TextShare): (r: Form)
    reads share
    ensures r.textType == TextTypeFromRawValue(share.textType).GetOr(PlainText)
    ensures r.enableExpiry <==> share.expireAt.Some?
    ensures r.customSlug == share.customSlug.GetOr("")
    ensures r.password == f.password
  {
    f.(title := share.title, content := share.content, textType := TextTypeFromRawValue(share.textType).GetOr(PlainText),
       selectedDomain := share.domain, customSlug := share.customSlug.GetOr(""), expireAt := share.expireAt,
       enableExpiry := share.expireAt != None, selectedTagIDs := share.tagIDs)
  }

  /**
   * Editing a share and saving it again sends the share's own text type:
   * a stored raw value that parses is sent unchanged, any other as
   * `plain_text`.
   */
  lemma PopulatedFormKeepsTextType(f: Form, share: TextShare)
    ensures var r := CreateRequest(Populated(f, share));
      && r.textType.Some?
      && (TextTypeFromRawValue(share.textType).Some? ==> r.textType == Some(share.textType))
      && (TextTypeFromRawValue(share.textType).None? ==> r.textType == Some("plain_text"))
      && r.content == share.content
  {
    TextTypeRoundTrip(PlainText, share.textType);
  }

  /** A reset form sends plain text, titled "Untitled", with no optional field but the domain choice. */
  lemma ResetFormSendsBareRequest(f: Form)
    ensures var r := CreateRequest(Reset(f));
      && r.content == "" && r.title == UntitledTitle && r.textType == Some("plain_text")
      && r.domain == IfNotEmpty(f.selectedDomain)
      && r.customSlug.None? && r.password.None? && r.expireAt.None? && r.tagIDs.None?
  {
  }

  /** Whether a stored share carries the values a create request and its reply put there. */
  predicate Records(share: TextShare, f: Form, data: TextResponse, now: int)
    reads share
  {
    && share.slug == data.slug
    && share.domain == (if f.selectedDomain == "" then ServerDefaultDomain else f.selectedDomain)
    && share.shortURL == data.shortURL && share.title == EffectiveTitle(f.title) && share.content == f.content
    && share.textType == f.textType.RawValue() && share.customSlug == data.customSlug
    && share.hasPassword == (f.password != "") && share.expireAt == (if f.enableExpiry then f.expireAt else None)
    && share.createdAt == now && share.tagIDs == f.selectedTagIDs
  }

  /**
   * A share stored from a form with no domain is filed under the server's
   * default domain, the one the request leaves the server to choose; its
   * stored type always parses back to the form's type.
   */
  lemma RecordedShareDomain(share: TextShare, f: Form, data: TextResponse, now: int)
    requires Records(share, f, data, now)
    ensures CreateRequest(f).domain.None? <==> f.selectedDomain == ""
    ensures CreateRequest(f).domain.None? ==> share.domain == ServerDefaultDomain
    ensures CreateRequest(f).domain.Some? ==> share.domain == CreateRequest(f).domain.value
    ensures TextTypeFromRawValue(share.textType) == Some(f.textType)
  {
    TextTypeRoundTrip(f.textType, share.textType);
  }

  /** The request `createTextShare` builds: content and title, then the optional fields the form fills. */
  method BuildRequest(f: Form) returns (request: CreateTextRequest)
    ensures request == CreateRequest(f)
  {
    var effectiveTitle := if f.title == "" then UntitledTitle else f.title;
    request := CreateTextRequest(f.content, effectiveTitle, None, None, None, None, None, None);
    if f.selectedDomain != "" { request := request.(domain := Some(f.selectedDomain)); }
    if f.customSlug != "" { request := request.(customSlug := Some(f.customSlug)); }
    request := request.(textType := Some(f.textType.RawValue()));
    if f.password != "" { request := request.(password := Some(f.password)); }
    if f.enableExpiry && f.expireAt.Some? { request := request.(expireAt := f.expireAt); }
    if f.selectedTagIDs != [] { request := request.(tagIDs := Some(f.selectedTagIDs)); }
  }

  class TextShareViewModel {
    var isLoading: bool
    var errorMessage: Option<string>
    var successMessage: Option<string>
    var domains: seq<string>
    var form: Form

    ghost function State(): Fields
      reads this
    {
      Fields(isLoading, errorMessage, successMessage, domains, form)
    }

    constructor ()
      ensures State() == Fields(false, None, None, [], EmptyForm)
    {
      isLoading := false;
      errorMessage := None;
      successMessage := None;
      domains := [];
      form := EmptyForm;
    }

    /**
     * `loadDomains`: the fetched text domains (empty when the reply has
     * none); the domain choice is filled only when it was empty and the
     * list is not, with the saved default before the first domain.
     */
    method LoadDomains(reply: Outcome<APIResponse<DomainsResponse>>, savedDefault: Option<string>)
      modifies this
      ensures reply.Threw? ==> State() == old(State()).(errorMessage := Some(reply.error.ErrorDescription()))
      ensures reply.Returned? ==>
        var fetched := if reply.value.data.Some? then reply.value.data.value.domains else [];
        State() == old(State()).(domains := fetched, form := old(form).(selectedDomain := form.selectedDomain))
      ensures form.selectedDomain != old(form.selectedDomain) ==> old(form.selectedDomain) == "" && domains != []
      ensures old(form.selectedDomain) == "" && reply.Returned? && domains != [] ==>
        form.selectedDomain == savedDefault.GetOr(domains[0])
    {
      match reply {
        case Threw(error) =>
          errorMessage := Some(error.ErrorDescription());
        case Returned(response) =>
          domains := if response.data.Some? then response.data.value.domains else [];
          if form.selectedDomain == "" && domains != [] {
            form := form.(selectedDomain := savedDefault.GetOr(domains[0]));
          }
      }
    }

    /** `resetForm`. */
    method ResetForm()
      modifies this
      ensures State() == old(State()).(form := Reset(old(form)))
    {
      form := form.(title := "", content := "", textType := PlainText, customSlug := "", password := "",
                    expireAt := None, enableExpiry := false, selectedTagIDs := []);
    }

    /** `populateForm(from:)`. */
    method PopulateForm(share: TextShare)
      modifies this
      ensures State() == old(State()).(form := Populated(old(form), share))
    {
      var parsed := TextTypeFromRawValue(share.textType);
      form := form.(title := share.title, content := share.content, textType := parsed.GetOr(PlainText),
                    selectedDomain := share.domain, customSlug := share.customSlug.GetOr(""),
                    expireAt := share.expireAt, enableExpiry := share.expireAt != None,
                    selectedTagIDs := share.tagIDs);
    }

    /**
     * `createTextShare`: empty content is refused and nothing is sent.
     * Otherwise the form's request is sent; a reply with data stores the
     * new share, sets the success message and resets the form; a thrown
     * error is shown.
     */
    method CreateTextShare(reply: Outcome<APIResponse<TextResponse>>, context: ModelContext, now: int)
      returns (ok: bool, sent: Option<Endpoint>)
      modifies this, context
      ensures old(form.content) == "" ==>
        !ok && sent.None? && State() == old(State()).(errorMessage := Some("Content is required"))
      ensures sent.Some? <==> old(form.content) != ""
      ensures sent.Some? ==> sent.value == CreateText(CreateRequest(old(form)))
      ensures ok <==> sent.Some? && reply.Returned? && reply.value.data.Some?
      ensures ok ==>
        && |context.shares| == |old(context.shares)| + 1
        && context.shares[..|old(context.shares)|] == old(context.shares)
        && fresh(context.shares[|old(context.shares)|])
        && Records(context.shares[|old(context.shares)|], old(form), reply.value.data.value, now)
        && State() == old(State()).(isLoading := false, form := Reset(old(form)),
                                    successMessage := Some("Text share created and link copied!"))
      ensures !ok ==> context.shares == old(context.shares)
      ensures context.links == old(context.links)
      ensures sent.Some? && reply.Threw? ==>
        State() == old(State()).(isLoading := false, errorMessage := Some(reply.error.ErrorDescription()))
      ensures sent.Some? && reply.Returned? && reply.value.data.None? ==>
        State() == old(State()).(isLoading := false)
    {
      if form.content == "" {
        errorMessage := Some("Content is required");
        return false, None;
      }
      isLoading := true;
      var request := BuildRequest(form);
      sent := Some(CreateText(request));
      ok := false;
      match reply {
        case Threw(error) =>
          errorMessage := Some(error.ErrorDescription());
        case Returned(response) =>
          if response.data.Some? {
            StoreCreated(response.data.value, context, now);
            ok := true;
          }
      }
      isLoading := false;
    }

    /** The success branch of `createTextShare`: store the new share, announce it, reset the form. */
    method StoreCreated(data: TextResponse, context: ModelContext, now: int)
      modifies this, context
      ensures |context.shares| == |old(context.shares)| + 1
      ensures context.shares[..|old(context.shares)|] == old(context.shares)
      ensures fresh(context.shares[|old(context.shares)|])
      ensures Records(context.shares[|old(context.shares)|], old(form), data, now)
      ensures context.links == old(context.links)
      ensures State() == old(State()).(form := Reset(old(form)),
                                       successMessage := Some("Text share created and link copied!"))
    {
      var share := new TextShare(data.slug, if form.selectedDomain == "" then ServerDefaultDomain else form.selectedDomain,
                                 data.shortURL, EffectiveTitle(form.title), form.content, form.textType.RawValue(),
                                 data.customSlug, form.password != "",
                                 if form.enableExpiry then form.expireAt else None, now, form.selectedTagIDs);
      context.InsertShare(share);
      successMessage := Some("Text share created and link copied!");
      ResetForm();
    }

    /**
     * `updateTextShare`: empty content is refused and nothing is sent;
     * otherwise the request names the share and carries the content and
     * the effective title, and only a reply that did not throw writes them
     * into the share.
     */
    method UpdateTextShare(share: TextShare, reply: Outcome<APIResponse<TextResponse>>)
      returns (ok: bool, sent: Option<Endpoint>)
      modifies this, share
      ensures old(form.content) == "" ==>
        !ok && sent.None? && State() == old(State()).(errorMessage := Some("Content is required"))
      ensures sent.Some? <==> old(form.content) != ""
      ensures sent.Some? ==>
        sent.value == UpdateText(UpdateTextRequest(old(share.domain), old(share.slug), old(form.content),
                                                   EffectiveTitle(old(form.title))))
      ensures ok <==> sent.Some? && reply.Returned?
      ensures ok ==> (share.content == old(form.content) && share.title == EffectiveTitle(old(form.title))
        && State() == old(State()).(isLoading := false, successMessage := Some("Text share updated!")))
      ensures !ok ==> share.content == old(share.content) && share.title == old(share.title)
      ensures sent.Some? && reply.Threw? ==>
        State() == old(State()).(isLoading := false, errorMessage := Some(reply.error.ErrorDescription()))
      ensures share.slug == old(share.slug) && share.domain == old(share.domain) && share.shortURL == old(share.shortURL)
      ensures share.textType == old(share.textType) && share.customSlug == old(share.customSlug)
      ensures share.expireAt == old(share.expireAt) && share.tagIDs == old(share.tagIDs)
      ensures share.createdAt == old(share.createdAt) && share.hasPassword == old(share.hasPassword)
    {
      if form.content == "" {
        errorMessage := Some("Content is required");
        return false, None;
      }
      var effectiveTitle := EffectiveTitle(form.title);
      sent := Some(UpdateText(UpdateTextRequest(share.domain, share.slug, form.content, effectiveTitle)));
      ok := ApplyUpdate(share, effectiveTitle, reply);
    }

    /** The request's outcome: a reply writes the content and title into the share; a thrown error is shown. */
    method ApplyUpdate(share: TextShare, effectiveTitle: string, reply: Outcome<APIResponse<TextResponse>>)
      returns (ok: bool)
      modifies this, share
      ensures ok <==> reply.Returned?
      ensures ok ==> (share.content == old(form.content) && share.title == effectiveTitle
        && State() == old(State()).(isLoading := false, successMessage := Some("Text share updated!")))
      ensures !ok ==> (share.content == old(share.content) && share.title == old(share.title)
        && State() == old(State()).(isLoading := false, errorMessage := Some(reply.error.ErrorDescription())))
      ensures share.slug == old(share.slug) && share.domain == old(share.domain) && share.shortURL == old(share.shortURL)
      ensures share.textType == old(share.textType) && share.customSlug == old(share.customSlug)
      ensures share.expireAt == old(share.expireAt) && share.tagIDs == old(share.tagIDs)
      ensures share.createdAt == old(share.createdAt) && share.hasPassword == old(share.hasPassword)
    {
      isLoading := true;
      match reply {
        case Returned(_) =>
          share.content := form.content;
          share.title := effectiveTitle;
          successMessage := Some("Text share updated!");
          ok := true;
        case Threw(error) =>
          errorMessage := Some(error.ErrorDescription());
          ok := false;
      }
      isLoading := false;
    }

    /** `deleteTextShare`: a body-less delete request; the share leaves the store only when it succeeded. */
    method DeleteTextShare(share: TextShare, reply: Outcome<()>, context: ModelContext)
      returns (ok: bool, sent: Endpoint)
      modifies this, context
      ensures sent == DeleteText(DeleteTextRequest(share.domain, share.slug))
      ensures ok <==> reply.Returned?
      ensures ok ==> (share !in context.shares
        && (forall s :: s in context.shares <==> s in old(context.shares) && s != share)
        && State() == old(State()).(isLoading := false, successMessage := Some("Text share deleted")))
      ensures !ok ==> (context.shares == old(context.shares)
        && State() == old(State()).(isLoading := false, errorMessage := Some(reply.error.ErrorDescription())))
      ensures ok ==> context.shares == Without(old(context.shares), share)
      ensures context.links == old(context.links)
    {
      isLoading := true;
      sent := DeleteText(DeleteTextRequest(share.domain, share.slug));
      match reply {
        case Returned(_) =>
          context.DeleteShare(share);
          successMessage := Some("Text share deleted");
          ok := true;
        case Threw(error) =>
          errorMessage := Some(error.ErrorDescription());
          ok := false;
      }
      isLoading := false;
    }
  }
}
